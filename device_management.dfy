/** The tablet registry screen: its device list (local to the screen, seeded with
    four tablets), the search and status filter, the summary counts, deletion, and
    the add/edit form with its serial-number and waiter-assignment checks. */
module DeviceManagement {
  import opened Wrappers
  import opened Seqs
  import opened Text
  import opened Types

  datatype Waiter = Waiter(id: string, name: string)

  /** The fixed waiter list the screen offers for assignment. */
  function MockWaiters(): seq<Waiter> {
    [Waiter("1", "Rajesh Kumar"), Waiter("2", "Priya Sharma"),
     Waiter("3", "Vikram Singh"), Waiter("4", "Anjali Verma")]
  }

  /** The list the screen starts with. */
  function SeedDevices(): seq<Device> {
    [Device("1", "TAB-001", "Samsung Galaxy Tab A8", Active, Some("1"), Some("2024-01-15"),
            "Primary device for morning shift", "2024-01-01"),
     Device("2", "TAB-002", "iPad 9th Gen", Active, Some("2"), Some("2024-01-15"),
            "Evening shift tablet", "2024-01-01"),
     Device("3", "TAB-003", "Samsung Galaxy Tab A8", Inactive, None, None, "Spare device", "2024-01-01"),
     Device("4", "TAB-004", "iPad 9th Gen", Maintenance, None, None, "Screen repair needed", "2024-01-05")]
  }

  // ---------------------------------------------------------------------------
  // Listing

  /** The status drop-down: `'all'` or one status. */
  datatype StatusFilter = AllStatuses | OnlyStatus(status: DeviceStatus)

  /** `filteredDevices`: the devices whose serial number or model contains the query
      ignoring case, and whose status is the selected one unless all are shown. */
  function FilteredDevices(devices: seq<Device>, searchQuery: string, statusFilter: StatusFilter): (r: seq<Device>)
    ensures forall d :: d in r <==>
      && d in devices
      && (ContainsIgnoringCase(d.serialNumber, searchQuery) || ContainsIgnoringCase(d.deviceModel, searchQuery))
      && (statusFilter.AllStatuses? || d.status == statusFilter.status)
    ensures |r| <= |devices|
  {
    Filter(devices, (d: Device) =>
      (ContainsIgnoringCase(d.serialNumber, searchQuery) || ContainsIgnoringCase(d.deviceModel, searchQuery))
      && (statusFilter.AllStatuses? || d.status == statusFilter.status))
  }

  /** `getWaiterName`: the name of the listed waiter with that id, else "Unassigned". */
  function WaiterName(waiterId: Option<string>): (r: string)
    ensures forall i :: 0 <= i < |MockWaiters()| && Some(MockWaiters()[i].id) == waiterId ==> r == MockWaiters()[i].name
    ensures (forall w :: w in MockWaiters() ==> Some(w.id) != waiterId) ==> r == "Unassigned"
  {
    var waiters := MockWaiters();
    match Find(waiters, (w: Waiter) => Some(w.id) == waiterId)
    case Some(w) =>
      assert forall i :: 0 <= i < |waiters| && Some(waiters[i].id) == waiterId ==> waiters[i] == w;
      if w.name != "" then w.name else "Unassigned"
    case None => "Unassigned"
  }

  // ---------------------------------------------------------------------------
  // Summary counts

  /** `d.assignedWaiterId` is truthy: present and not empty. */
  predicate HasWaiter(d: Device) {
    d.assignedWaiterId.Some? && d.assignedWaiterId.value != ""
  }

  /** Active and nobody's. */
  predicate IsAvailable(d: Device) {
    d.status == Active && !HasWaiter(d)
  }

  predicate InMaintenance(d: Device) {
    d.status == Maintenance
  }

  /** `availableDevicesCount`: the active devices nobody is assigned to. */
  function AvailableCount(devices: seq<Device>): (n: nat)
    ensures n <= |devices|
    ensures n == 0 <==> forall d :: d in devices ==> !IsAvailable(d)
  {
    |Filter(devices, IsAvailable)|
  }

  /** `assignedDevicesCount`: the devices with a waiter, whatever their status. */
  function AssignedCount(devices: seq<Device>): (n: nat)
    ensures n <= |devices|
    ensures n == 0 <==> forall d :: d in devices ==> !HasWaiter(d)
  {
    |Filter(devices, HasWaiter)|
  }

  /** `maintenanceCount`: the devices under maintenance. */
  function MaintenanceCount(devices: seq<Device>): (n: nat)
    ensures n <= |devices|
    ensures n == 0 <==> forall d :: d in devices ==> d.status != Maintenance
  {
    |Filter(devices, InMaintenance)|
  }

  /** Each count adds one for every device of its kind: none for the empty list, and
      appending a device adds one exactly when that device is of the kind. */
  lemma {:induction false} CountsOfAppend(devices: seq<Device>, d: Device)
    ensures AvailableCount([]) == 0 && AssignedCount([]) == 0 && MaintenanceCount([]) == 0
    ensures AvailableCount(devices + [d]) == AvailableCount(devices) + (if IsAvailable(d) then 1 else 0)
    ensures AssignedCount(devices + [d]) == AssignedCount(devices) + (if HasWaiter(d) then 1 else 0)
    ensures MaintenanceCount(devices + [d]) == MaintenanceCount(devices) + (if InMaintenance(d) then 1 else 0)
  {
    FilterConcat(devices, [d], IsAvailable);
    FilterSingleton(d, IsAvailable);
    FilterConcat(devices, [d], HasWaiter);
    FilterSingleton(d, HasWaiter);
    FilterConcat(devices, [d], InMaintenance);
    FilterSingleton(d, InMaintenance);
  }

  /** The summary cards never count a device twice: an available device is neither
      assigned nor under maintenance. */
  lemma CountsWithinTotal(devices: seq<Device>)
    ensures AvailableCount(devices) + AssignedCount(devices) <= |devices|
    ensures AvailableCount(devices) + MaintenanceCount(devices) <= |devices|
  {
    FilterDisjointCount(devices, IsAvailable, HasWaiter);
    FilterDisjointCount(devices, IsAvailable, InMaintenance);
  }

  // ---------------------------------------------------------------------------
  // Delete

  /** `devices.filter(d => d.id !== deviceId)` */
  function RemovedDevices(devices: seq<Device>, deviceId: string): (r: seq<Device>)
    ensures forall d :: d in r <==> d in devices && d.id != deviceId
    ensures |r| <= |devices|
  {
    Filter(devices, (d: Device) => d.id != deviceId)
  }

  // ---------------------------------------------------------------------------
  // The device form

  /** The values of the form's fields; an empty `assignedWaiterId` is "Unassigned". */
  datatype DeviceFields = DeviceFields(
    serialNumber: string,
    deviceModel: string,
    status: DeviceStatus,
    assignedWaiterId: string,
    notes: string)

  /** Why a submit is refused: the browser blocks an empty serial number or model
      (both inputs are `required`) before `handleSubmit` runs, and `handleSubmit`
      refuses a serial number already taken. */
  datatype DeviceError = MissingRequiredField | DuplicateSerialNumber

  /** Another device, not the one being edited, has this serial number ignoring case. */
  predicate SerialTaken(devices: seq<Device>, editingId: Option<string>, serialNumber: string) {
    exists d :: d in devices && EqualsIgnoringCase(d.serialNumber, serialNumber) && Some(d.id) != editingId
  }

  /** The serial check compares lower-cased text: a serial is taken exactly when its
      lower-case form is. */
  lemma SerialTakenIgnoresCase(devices: seq<Device>, editingId: Option<string>, serialNumber: string)
    ensures SerialTaken(devices, editingId, serialNumber) <==> SerialTaken(devices, editingId, ToLower(serialNumber))
  {
    ToLowerTwice(serialNumber);
  }

  /** The reassignment warning: a waiter is chosen and another active device, not the
      one being edited, is already assigned to that waiter. The save goes ahead. */
  function AlreadyAssigned(devices: seq<Device>, editingId: Option<string>, waiterId: string): (r: Option<Device>)
    ensures waiterId == "" ==> r.None?
    ensures waiterId != "" ==> (r.Some? <==>
      exists d :: d in devices && d.assignedWaiterId == Some(waiterId) && d.status == Active && Some(d.id) != editingId)
    ensures r.Some? ==> r.value in devices && r.value.assignedWaiterId == Some(waiterId)
    ensures r.Some? ==> r.value.status == Active && Some(r.value.id) != editingId
  {
    if waiterId == "" then None
    else Find(devices, (d: Device) =>
      d.assignedWaiterId == Some(waiterId) && d.status == Active && Some(d.id) != editingId)
  }

  /** The waiter and assignment date a saved device gets: both absent when the form
      says "Unassigned", else the waiter and today's date. */
  function AssignmentOf(waiterId: string, today: string): (Option<string>, Option<string>) {
    if waiterId == "" then (None, None) else (Some(waiterId), Some(today))
  }

  /** The edited device: the form's fields over the old device, which keeps its id
      and creation time. */
  function EditedDevice(d: Device, f: DeviceFields, today: string): Device {
    var (waiter, date) := AssignmentOf(f.assignedWaiterId, today);
    d.(serialNumber := f.serialNumber, deviceModel := f.deviceModel, status := f.status,
       assignedWaiterId := waiter, assignmentDate := date, notes := f.notes)
  }

  /** The edit branch: the devices with the edited id are rewritten, the rest kept. */
  function DevicesAfterEdit(devices: seq<Device>, editingId: string, f: DeviceFields, today: string): (r: seq<Device>)
    ensures |r| == |devices|
    ensures forall i :: 0 <= i < |r| && devices[i].id != editingId ==> r[i] == devices[i]
    ensures forall i :: 0 <= i < |r| && devices[i].id == editingId ==>
      && r[i].id == devices[i].id && r[i].createdAt == devices[i].createdAt
      && r[i].serialNumber == f.serialNumber && r[i].deviceModel == f.deviceModel
      && r[i].status == f.status && r[i].notes == f.notes
      && (r[i].assignedWaiterId.None? <==> f.assignedWaiterId == "")
      && (f.assignedWaiterId != "" ==> r[i].assignedWaiterId == Some(f.assignedWaiterId) && r[i].assignmentDate == Some(today))
      && (f.assignedWaiterId == "" ==> r[i].assignmentDate.None?)
  {
    MapIf(devices, (d: Device) => d.id == editingId, (d: Device) => EditedDevice(d, f, today))
  }

  /** The add branch: the new device's id is one more than the list's length, written
      in decimal; `now` is its creation time. */
  function NewDevice(devices: seq<Device>, f: DeviceFields, today: string, now: string): (d: Device)
    ensures d.id == NatToString(|devices| + 1)
    ensures d.serialNumber == f.serialNumber && d.deviceModel == f.deviceModel && d.status == f.status
    ensures d.notes == f.notes && d.createdAt == now
    ensures d.assignedWaiterId.None? <==> f.assignedWaiterId == ""
    ensures f.assignedWaiterId != "" ==> d.assignedWaiterId == Some(f.assignedWaiterId) && d.assignmentDate == Some(today)
    ensures f.assignedWaiterId == "" ==> d.assignmentDate.None?
  {
    var (waiter, date) := AssignmentOf(f.assignedWaiterId, today);
    Device(NatToString(|devices| + 1), f.serialNumber, f.deviceModel, f.status, waiter, date, f.notes, now)
  }

  // ---------------------------------------------------------------------------
  // Invariants of the list

  /** A device has a waiter exactly when it has an assignment date. */
  predicate DatesConsistent(devices: seq<Device>) {
    forall d :: d in devices ==> (d.assignedWaiterId.Some? <==> d.assignmentDate.Some?)
  }

  /** No two devices share a serial number ignoring case. */
  predicate DistinctSerials(devices: seq<Device>) {
    forall i, j :: 0 <= i < j < |devices| ==> !EqualsIgnoringCase(devices[i].serialNumber, devices[j].serialNumber)
  }

  predicate DistinctIds(devices: seq<Device>) {
    forall i, j :: 0 <= i < j < |devices| ==> devices[i].id != devices[j].id
  }

  /** Adding, editing and deleting keep waiters and assignment dates together. */
  lemma ChangesKeepDatesConsistent(devices: seq<Device>, f: DeviceFields, id: string, today: string, now: string)
    requires DatesConsistent(devices)
    ensures DatesConsistent(devices + [NewDevice(devices, f, today, now)])
    ensures DatesConsistent(DevicesAfterEdit(devices, id, f, today))
    ensures DatesConsistent(RemovedDevices(devices, id))
  {
    var edited := DevicesAfterEdit(devices, id, f, today);
    forall d | d in edited ensures d.assignedWaiterId.Some? <==> d.assignmentDate.Some? {
      var i :| 0 <= i < |edited| && edited[i] == d;
      assert devices[i] in devices;
    }
  }

  /** The reassignment warning changes nothing by itself: the device already holding
      the waiter keeps its place and its assignment after the save, whether the form
      adds a device or edits another one. */
  lemma WarningKeepsOtherAssignment(devices: seq<Device>, editing: Option<Device>, f: DeviceFields, today: string, now: string)
    requires AlreadyAssigned(devices, if editing.Some? then Some(editing.value.id) else None, f.assignedWaiterId).Some?
    ensures var other := AlreadyAssigned(devices, if editing.Some? then Some(editing.value.id) else None, f.assignedWaiterId).value;
      && (editing.None? ==> other in devices + [NewDevice(devices, f, today, now)])
      && (editing.Some? ==> other in DevicesAfterEdit(devices, editing.value.id, f, today))
      && other.assignedWaiterId == Some(f.assignedWaiterId)
  {
    var editingId := if editing.Some? then Some(editing.value.id) else None;
    var other := AlreadyAssigned(devices, editingId, f.assignedWaiterId).value;
    var k :| 0 <= k < |devices| && devices[k] == other;
    if editing.Some? {
      assert DevicesAfterEdit(devices, editing.value.id, f, today)[k] == other;
    }
  }

  /** A save that passed the serial check keeps serial numbers distinct: a new device
      differs from every listed one, and with distinct ids the edited device differs
      from every other one. */
  lemma SaveKeepsSerialsDistinct(devices: seq<Device>, editing: Option<Device>, f: DeviceFields, today: string, now: string)
    requires DistinctSerials(devices) && DistinctIds(devices)
    requires editing.Some? ==> editing.value in devices
    requires !SerialTaken(devices, if editing.Some? then Some(editing.value.id) else None, f.serialNumber)
    ensures editing.None? ==> DistinctSerials(devices + [NewDevice(devices, f, today, now)])
    ensures editing.Some? ==> DistinctSerials(DevicesAfterEdit(devices, editing.value.id, f, today))
  {
    match editing {
      case None =>
        var after := devices + [NewDevice(devices, f, today, now)];
        forall i, j | 0 <= i < j < |after|
          ensures !EqualsIgnoringCase(after[i].serialNumber, after[j].serialNumber)
        {
          if j == |devices| {
            assert after[i] in devices;
          }
        }
      case Some(e) =>
        var after := DevicesAfterEdit(devices, e.id, f, today);
        forall i, j | 0 <= i < j < |after|
          ensures !EqualsIgnoringCase(after[i].serialNumber, after[j].serialNumber)
        {
          if devices[i].id == e.id {
            assert devices[j].id != e.id;
            assert devices[j] in devices;
          } else if devices[j].id == e.id {
            assert devices[i] in devices;
          }
        }
    }
  }

  /** The new id is derived from the list's length, so after a delete it can repeat
      an id still in use: when ids are distinct, the last device's id is the list's
      length (as in the seeded list) and an earlier device is deleted, the next
      device added gets the last device's id, and that device is still listed. */
  lemma NewIdRepeatsAfterDelete(devices: seq<Device>, k: nat, f: DeviceFields, today: string, now: string)
    requires DistinctIds(devices)
    requires k < |devices| - 1
    requires devices[|devices| - 1].id == NatToString(|devices|)
    ensures var remaining := RemovedDevices(devices, devices[k].id);
      && devices[|devices| - 1] in remaining
      && NewDevice(remaining, f, today, now).id == devices[|devices| - 1].id
  {
    RemoveOneShortens(devices, k);
    var remaining := RemovedDevices(devices, devices[k].id);
    assert devices[|devices| - 1] in devices;
  }

  /** Once two tablets share an id, as after the reuse above, editing one of them
      passes the serial check whatever serial is typed, since both are the device
      being edited, and the save rewrites both: they end up with the same serial. */
  lemma RepeatedIdEditDuplicatesSerial(a: Device, b: Device, f: DeviceFields, today: string)
    requires a.id == b.id
    ensures !SerialTaken([a, b], Some(a.id), f.serialNumber)
    ensures DevicesAfterEdit([a, b], a.id, f, today)[1].serialNumber == f.serialNumber
    ensures !DistinctSerials(DevicesAfterEdit([a, b], a.id, f, today))
  {
    var after := DevicesAfterEdit([a, b], a.id, f, today);
    assert after[0].serialNumber == after[1].serialNumber;
  }

  /** With distinct ids, deleting a listed id removes exactly that device: the
      others stay, in their order, and the list is one shorter. */
  lemma RemoveOneShortens(devices: seq<Device>, k: nat)
    requires DistinctIds(devices)
    requires k < |devices|
    ensures RemovedDevices(devices, devices[k].id) == devices[..k] + devices[k + 1..]
    ensures |RemovedDevices(devices, devices[k].id)| == |devices| - 1
  {
    var id := devices[k].id;
    var p := (d: Device) => d.id != id;
    var before, after := devices[..k], devices[k + 1..];
    assert devices == before + [devices[k]] + after;
    assert forall i :: 0 <= i < |before| ==> p(before[i]) by {
      forall i | 0 <= i < |before| ensures p(before[i]) { assert before[i] == devices[i]; }
    }
    assert forall i :: 0 <= i < |after| ==> p(after[i]) by {
      forall i | 0 <= i < |after| ensures p(after[i]) { assert after[i] == devices[k + 1 + i]; }
    }
    FilterKeepsAll(before, p);
    FilterKeepsAll(after, p);
    FilterSingleton(devices[k], p);
    FilterConcat(before, [devices[k]], p);
    FilterConcat(before + [devices[k]], after, p);
    assert Filter(before + [devices[k]], p) == before;
  }

  /** Deleting an id no device has leaves the list as it was. */
  lemma RemoveAbsentKeepsAll(devices: seq<Device>, deviceId: string)
    requires forall d :: d in devices ==> d.id != deviceId
    ensures RemovedDevices(devices, deviceId) == devices
  {
    FilterKeepsAll(devices, (d: Device) => d.id != deviceId);
  }

  /** The seeded list keeps waiters and dates together, has distinct ids, and its
      last id is its length, so the id reuse above applies to it. */
  lemma SeedDevicesValid()
    ensures DatesConsistent(SeedDevices()) && DistinctIds(SeedDevices())
    ensures SeedDevices()[|SeedDevices()| - 1].id == NatToString(|SeedDevices()|)
  {
    assert DigitChar(4) == '4';
  }

  /** The seeded serial numbers are distinct ignoring case. */
  lemma SeedSerialsDistinct()
    ensures DistinctSerials(SeedDevices())
  {
    var s := SeedDevices();
    forall i, j | 0 <= i < j < |s| ensures !EqualsIgnoringCase(s[i].serialNumber, s[j].serialNumber) {
      assert ToLower(s[i].serialNumber)[6] != ToLower(s[j].serialNumber)[6];
    }
  }

  // ---------------------------------------------------------------------------
  // The screen's state

  /** The registry screen's own state: its device list and the list filters. */
  class DeviceRegistry {
    var devices: seq<Device>
    var searchQuery: string
    var statusFilter: StatusFilter

    constructor ()
      ensures devices == SeedDevices() && searchQuery == "" && statusFilter == AllStatuses
    {
      devices := SeedDevices();
      searchQuery := "";
      statusFilter := AllStatuses;
    }

    /** `handleDelete`: when the browser's confirmation is accepted, every device with
        the id is removed; otherwise nothing changes. */
    method HandleDelete(deviceId: string, confirmed: bool)
      modifies this`devices
      ensures confirmed ==> devices == RemovedDevices(old(devices), deviceId)
      ensures !confirmed ==> devices == old(devices)
    {
      if confirmed {
        devices := RemovedDevices(devices, deviceId);
      }
    }
  }

  /** The add/edit dialog over the registry's list. */
  class DeviceForm {
    const registry: DeviceRegistry
    const editingDevice: Option<Device>
    var serialNumber: string
    var deviceModel: string
    var status: DeviceStatus
    var assignedWaiterId: string
    var notes: string

    constructor (registry: DeviceRegistry, editingDevice: Option<Device>)
      ensures this.registry == registry && this.editingDevice == editingDevice
      ensures editingDevice.None? ==>
        (serialNumber == "" && deviceModel == "" && status == Active && assignedWaiterId == "" && notes == "")
      ensures editingDevice.Some? ==>
        (serialNumber == editingDevice.value.serialNumber && deviceModel == editingDevice.value.deviceModel
         && status == editingDevice.value.status && notes == editingDevice.value.notes
         && assignedWaiterId == (if editingDevice.value.assignedWaiterId.Some? then editingDevice.value.assignedWaiterId.value else ""))
    {
      this.registry := registry;
      this.editingDevice := editingDevice;
      match editingDevice {
        case Some(d) =>
          serialNumber := d.serialNumber;
          deviceModel := d.deviceModel;
          status := d.status;
          assignedWaiterId := if d.assignedWaiterId.Some? then d.assignedWaiterId.value else "";
          notes := d.notes;
        case None =>
          serialNumber := "";
          deviceModel := "";
          status := Active;
          assignedWaiterId := "";
          notes := "";
      }
    }

    function EditingId(): Option<string>
      reads this
    {
      match editingDevice
      case Some(d) => Some(d.id)
      case None => None
    }

    function Fields(): DeviceFields
      reads this
    {
      DeviceFields(serialNumber, deviceModel, status, assignedWaiterId, notes)
    }

    /** Submitting the form: an empty serial number or model is refused by the
        browser, and `handleSubmit` refuses a serial number taken by another device;
        either way nothing changes. Otherwise the result says whether the reassignment warning was shown,
        and the edited device is rewritten or a new one appended. `today` and `now`
        are the dates the browser clock would give. */
    method HandleSubmit(today: string, now: string) returns (r: Result<bool, DeviceError>)
      modifies registry`devices
      ensures r == Err(MissingRequiredField) <==> serialNumber == "" || deviceModel == ""
      ensures r == Err(DuplicateSerialNumber) <==>
        serialNumber != "" && deviceModel != "" && SerialTaken(old(registry.devices), EditingId(), serialNumber)
      ensures r.Err? <==>
        serialNumber == "" || deviceModel == "" || SerialTaken(old(registry.devices), EditingId(), serialNumber)
      ensures r.Err? ==> registry.devices == old(registry.devices)
      ensures r.Ok? ==> r.value == AlreadyAssigned(old(registry.devices), EditingId(), assignedWaiterId).Some?
      ensures r.Ok? && editingDevice.Some? ==>
        registry.devices == DevicesAfterEdit(old(registry.devices), editingDevice.value.id, Fields(), today)
      ensures r.Ok? && editingDevice.None? ==>
        registry.devices == old(registry.devices) + [NewDevice(old(registry.devices), Fields(), today, now)]
    {
      if serialNumber == "" || deviceModel == "" {
        return Err(MissingRequiredField);
      }
      var devices := registry.devices;
      var serial, editingId := serialNumber, EditingId();
      var taken := Find(devices, (d: Device) =>
        EqualsIgnoringCase(d.serialNumber, serial) && Some(d.id) != editingId);
      if taken.Some? {
        return Err(DuplicateSerialNumber);
      }
      var warned := AlreadyAssigned(devices, EditingId(), assignedWaiterId).Some?;
      var fields := Fields();
      match editingDevice {
        case Some(e) => registry.devices := DevicesAfterEdit(devices, e.id, fields, today);
        case None => registry.devices := devices + [NewDevice(devices, fields, today, now)];
      }
      return Ok(warned);
    }
  }
}
