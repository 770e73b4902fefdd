/** The catalog screen: expanding categories, the guarded deletes, the sorted
    listings, and the category, subcategory and menu item forms. */
module MenuManagement {
  import opened Wrappers
  import opened Seqs
  import opened Text
  import opened Types
  import opened DataContext

  // ---------------------------------------------------------------------------
  // Expanded categories

  /** `toggleCategory`: an expanded category is collapsed (every occurrence of its
      id is removed, the others keep their order); a collapsed one is appended. */
  function Toggled(expanded: seq<string>, categoryId: string): (r: seq<string>)
    ensures categoryId in expanded ==> forall x :: x in r <==> x in expanded && x != categoryId
    ensures categoryId !in expanded ==> r == expanded + [categoryId]
    ensures categoryId in r <==> categoryId !in expanded
  {
    if categoryId in expanded then Filter(expanded, (x: string) => x != categoryId)
    else expanded + [categoryId]
  }

  /** Toggling twice restores which categories are expanded, and restores the list
      itself when the category started collapsed. */
  lemma ToggleTwice(expanded: seq<string>, categoryId: string)
    ensures forall x :: x in Toggled(Toggled(expanded, categoryId), categoryId) <==> x in expanded
    ensures categoryId !in expanded ==> Toggled(Toggled(expanded, categoryId), categoryId) == expanded
  {
    if categoryId !in expanded {
      var p := (x: string) => x != categoryId;
      FilterConcat(expanded, [categoryId], p);
      FilterKeepsAll(expanded, p);
      assert Filter([categoryId], p) == [];
    }
  }

  // ---------------------------------------------------------------------------
  // Guarded deletes

  datatype DeleteKind = CategoryKind | SubcategoryKind | ItemKind

  /** The pending confirmation of the delete dialog. */
  datatype DeleteTarget = DeleteTarget(kind: DeleteKind, id: string)

  /** The category guard of `handleDelete`: the category still has a subcategory or
      an item. */
  function CategoryInUse(subcategories: seq<Subcategory>, menuItems: seq<MenuItem>, id: string): (r: bool)
    ensures r <==> ((exists s :: s in subcategories && s.categoryId == id)
                    || (exists m :: m in menuItems && m.categoryId == id))
  {
    |Filter(subcategories, (s: Subcategory) => s.categoryId == id)| > 0
    || |Filter(menuItems, (m: MenuItem) => m.categoryId == id)| > 0
  }

  /** The subcategory guard of `handleDelete`: an item still names the subcategory. */
  function SubcategoryInUse(menuItems: seq<MenuItem>, id: string): (r: bool)
    ensures r <==> exists m :: m in menuItems && m.subcategoryId == Some(id)
  {
    |Filter(menuItems, (m: MenuItem) => m.subcategoryId == Some(id))| > 0
  }

  /** Whether the confirmed delete goes ahead: categories and subcategories only when
      nothing refers to them, items always. */
  function DeleteAllowed(target: DeleteTarget, subcategories: seq<Subcategory>, menuItems: seq<MenuItem>): (r: bool)
    ensures target.kind == ItemKind ==> r
    ensures target.kind == CategoryKind ==>
      (r <==> (forall s :: s in subcategories ==> s.categoryId != target.id)
              && (forall m :: m in menuItems ==> m.categoryId != target.id))
    ensures target.kind == SubcategoryKind ==>
      (r <==> forall m :: m in menuItems ==> m.subcategoryId != Some(target.id))
  {
    match target.kind
    case CategoryKind => !CategoryInUse(subcategories, menuItems, target.id)
    case SubcategoryKind => !SubcategoryInUse(menuItems, target.id)
    case ItemKind => true
  }

  /** Every reference in the catalog resolves: each subcategory's and item's category
      exists, and so does each item's subcategory. */
  predicate CatalogLinked(categories: seq<Category>, subcategories: seq<Subcategory>, menuItems: seq<MenuItem>) {
    && (forall s :: s in subcategories ==> exists c :: c in categories && c.id == s.categoryId)
    && (forall m :: m in menuItems ==> exists c :: c in categories && c.id == m.categoryId)
    && (forall m :: m in menuItems && m.subcategoryId.Some? ==>
          exists s :: s in subcategories && s.id == m.subcategoryId.value)
  }

  /** The catalog lists after a confirmed delete that its guard lets through. */
  function AfterDelete(target: DeleteTarget, categories: seq<Category>, subcategories: seq<Subcategory>,
                       menuItems: seq<MenuItem>): (r: (seq<Category>, seq<Subcategory>, seq<MenuItem>))
    ensures !DeleteAllowed(target, subcategories, menuItems) ==> r == (categories, subcategories, menuItems)
    ensures DeleteAllowed(target, subcategories, menuItems) && target.kind == CategoryKind ==>
      && r.1 == subcategories && r.2 == menuItems
      && forall c :: c in r.0 <==> c in categories && c.id != target.id
    ensures DeleteAllowed(target, subcategories, menuItems) && target.kind == SubcategoryKind ==>
      && r.0 == categories && r.2 == menuItems
      && forall s :: s in r.1 <==> s in subcategories && s.id != target.id
    ensures target.kind == ItemKind ==>
      && r.0 == categories && r.1 == subcategories
      && forall m :: m in r.2 <==> m in menuItems && m.id != target.id
  {
    if !DeleteAllowed(target, subcategories, menuItems) then (categories, subcategories, menuItems)
    else match target.kind
      case CategoryKind => (RemovedCategories(categories, target.id), subcategories, menuItems)
      case SubcategoryKind => (categories, RemovedSubcategories(subcategories, target.id), menuItems)
      case ItemKind => (categories, subcategories, RemovedMenuItems(menuItems, target.id))
  }

  /** The guards of `handleDelete` keep the catalog linked: no subcategory or item is
      left pointing at a category or subcategory that was deleted. */
  lemma DeleteKeepsCatalogLinked(target: DeleteTarget, categories: seq<Category>,
                                 subcategories: seq<Subcategory>, menuItems: seq<MenuItem>)
    requires CatalogLinked(categories, subcategories, menuItems)
    ensures var (c, s, m) := AfterDelete(target, categories, subcategories, menuItems);
      CatalogLinked(c, s, m)
  {
    var (c, s, m) := AfterDelete(target, categories, subcategories, menuItems);
    if DeleteAllowed(target, subcategories, menuItems) {
      match target.kind
      case CategoryKind =>
        forall x | x in subcategories ensures exists y :: y in c && y.id == x.categoryId {
          var y :| y in categories && y.id == x.categoryId;
          assert y in c;
        }
        forall x | x in menuItems ensures exists y :: y in c && y.id == x.categoryId {
          var y :| y in categories && y.id == x.categoryId;
          assert y in c;
        }
      case SubcategoryKind =>
        forall x | x in menuItems && x.subcategoryId.Some?
          ensures exists y :: y in s && y.id == x.subcategoryId.value
        {
          var y :| y in subcategories && y.id == x.subcategoryId.value;
          assert y in s;
        }
      case ItemKind =>
    }
  }

  // ---------------------------------------------------------------------------
  // Listings

  /** `sortedCategories`: the categories in ascending display order. */
  function SortedCategories(categories: seq<Category>): (r: seq<Category>)
    ensures SortedBy(r, (c: Category) => c.displayOrder)
    ensures multiset(r) == multiset(categories)
  {
    SortBy(categories, (c: Category) => c.displayOrder)
  }

  /** `getCategorySubcategories`: the category's subcategories in display order. */
  function CategorySubcategories(subcategories: seq<Subcategory>, categoryId: string): (r: seq<Subcategory>)
    ensures SortedBy(r, (s: Subcategory) => s.displayOrder)
    ensures forall s :: s in r <==> s in subcategories && s.categoryId == categoryId
  {
    SortBy(Filter(subcategories, (s: Subcategory) => s.categoryId == categoryId),
           (s: Subcategory) => s.displayOrder)
  }

  /** `getSubcategoryItems`: the subcategory's items whose name contains the search
      query, in display order. */
  function SubcategoryItems(menuItems: seq<MenuItem>, subcategoryId: string, searchQuery: string): (r: seq<MenuItem>)
    ensures SortedBy(r, (m: MenuItem) => m.displayOrder)
    ensures forall m :: m in r <==>
      m in menuItems && m.subcategoryId == Some(subcategoryId) && ContainsIgnoringCase(m.name, searchQuery)
  {
    SortBy(Filter(menuItems, (m: MenuItem) =>
             m.subcategoryId == Some(subcategoryId) && ContainsIgnoringCase(m.name, searchQuery)),
           (m: MenuItem) => m.displayOrder)
  }

  /** `!item.subcategoryId`: no subcategory, or the empty one. */
  predicate WithoutSubcategory(m: MenuItem) {
    m.subcategoryId.None? || m.subcategoryId == Some("")
  }

  /** `getCategoryItems`: the category's items outside any subcategory whose name
      contains the search query, in display order. */
  function CategoryItems(menuItems: seq<MenuItem>, categoryId: string, searchQuery: string): (r: seq<MenuItem>)
    ensures SortedBy(r, (m: MenuItem) => m.displayOrder)
    ensures forall m :: m in r <==>
      m in menuItems && m.categoryId == categoryId && WithoutSubcategory(m) && ContainsIgnoringCase(m.name, searchQuery)
  {
    SortBy(Filter(menuItems, (m: MenuItem) =>
             m.categoryId == categoryId && WithoutSubcategory(m) && ContainsIgnoringCase(m.name, searchQuery)),
           (m: MenuItem) => m.displayOrder)
  }

  /** With an empty search query the item listings hide nothing of their group. */
  lemma EmptySearchListsWholeGroup(menuItems: seq<MenuItem>, categoryId: string, subcategoryId: string)
    ensures forall m :: m in SubcategoryItems(menuItems, subcategoryId, "") <==>
      m in menuItems && m.subcategoryId == Some(subcategoryId)
    ensures forall m :: m in CategoryItems(menuItems, categoryId, "") <==>
      m in menuItems && m.categoryId == categoryId && WithoutSubcategory(m)
  {
    forall m | m in menuItems ensures ContainsIgnoringCase(m.name, "") {
      EmptyQueryMatches(m.name);
    }
  }

  // ---------------------------------------------------------------------------
  // Forms

  datatype FormError =
    | NameRequired                 // category: blank name
    | NameAndCategoryRequired      // subcategory: blank name or no category
    | RequiredFieldsMissing        // menu item: blank name or description, no category or price
    | DuplicateName
    | InvalidPrice

  /** Another category, not the one being edited, has this name ignoring case. */
  predicate CategoryNameTaken(categories: seq<Category>, editingId: Option<string>, name: string) {
    exists c :: c in categories && EqualsIgnoringCase(c.name, name) && Some(c.id) != editingId
  }

  /** `CategoryForm.handleSubmit` up to the store call: a blank name is refused; so is
      a name equal, ignoring case, to another category's, compared as typed (before
      trimming); otherwise the trimmed name and description are saved. */
  function ValidateCategory(categories: seq<Category>, editingId: Option<string>, name: string,
                            description: string, isActive: bool, displayOrder: int): (r: Result<CategoryFields, FormError>)
    ensures IsBlank(name) ==> r == Err(NameRequired)
    ensures !IsBlank(name) && CategoryNameTaken(categories, editingId, name) ==> r == Err(DuplicateName)
    ensures r.Ok? <==> !IsBlank(name) && !CategoryNameTaken(categories, editingId, name)
    ensures r.Ok? ==> r.value == CategoryFields(Trim(name), Trim(description), isActive, displayOrder)
    ensures r.Ok? ==> r.value.name != [] && !IsWhitespace(r.value.name[0]) && !IsWhitespace(r.value.name[|r.value.name| - 1])
  {
    if Trim(name) == [] then Err(NameRequired)
    else match Find(categories, (c: Category) => EqualsIgnoringCase(c.name, name) && Some(c.id) != editingId)
      case Some(_) => Err(DuplicateName)
      case None => Ok(CategoryFields(Trim(name), Trim(description), isActive, displayOrder))
  }

  /** No two categories share a name ignoring case. */
  predicate DistinctCategoryNames(categories: seq<Category>) {
    forall i, j :: 0 <= i < j < |categories| ==> !EqualsIgnoringCase(categories[i].name, categories[j].name)
  }

  /** Adding a category whose name was typed without surrounding whitespace keeps
      category names distinct ignoring case. */
  lemma AddKeepsNamesDistinct(categories: seq<Category>, name: string, description: string,
                              isActive: bool, displayOrder: int, id: string, createdAt: string)
    requires DistinctCategoryNames(categories)
    requires Trim(name) == name
    requires ValidateCategory(categories, None, name, description, isActive, displayOrder).Ok?
    ensures DistinctCategoryNames(categories
      + [CategoryFrom(ValidateCategory(categories, None, name, description, isActive, displayOrder).value, id, createdAt)])
  {
    var added := CategoryFrom(ValidateCategory(categories, None, name, description, isActive, displayOrder).value, id, createdAt);
    var after := categories + [added];
    forall i, j | 0 <= i < j < |after| ensures !EqualsIgnoringCase(after[i].name, after[j].name) {
      if j == |categories| {
        assert after[i] in categories;
      }
    }
  }

  /** The duplicate check compares the name as typed while the trimmed name is what
      is saved: a name padded with a space passes next to an existing category of the
      same name, and the list then holds that name twice. */
  lemma PaddedNameSlipsPastDuplicateCheck()
    ensures
      var starters := Category("1", "Starters", "", true, 1, "");
      var r := ValidateCategory([starters], None, " Starters", "", true, 2);
      && r == Ok(CategoryFields("Starters", "", true, 2))
      && !DistinctCategoryNames([starters, CategoryFrom(r.value, "2", "")])
  {
    PaddedNameAccepted();
    var starters := Category("1", "Starters", "", true, 1, "");
    var both := [starters, CategoryFrom(CategoryFields("Starters", "", true, 2), "2", "")];
    assert both[0].name == both[1].name;
    assert EqualsIgnoringCase(both[0].name, both[1].name);
  }

  /** " Starters" next to "Starters" passes the check and is saved as "Starters". */
  lemma PaddedNameAccepted()
    ensures ValidateCategory([Category("1", "Starters", "", true, 1, "")], None, " Starters", "", true, 2)
         == Ok(CategoryFields("Starters", "", true, 2))
  {
    var starters := Category("1", "Starters", "", true, 1, "");
    TrimPaddedStarters();
    assert Trim("") == "" by {
      assert IsBlank("");
    }
    assert !EqualsIgnoringCase("Starters", " Starters") by {
      assert |ToLower("Starters")| == 8 && |ToLower(" Starters")| == 9;
    }
    assert !CategoryNameTaken([starters], None, " Starters");
  }

  lemma TrimPaddedStarters()
    ensures Trim(" Starters") == "Starters"
    ensures !IsBlank(" Starters")
  {
    var s := " Starters";
    assert IsWhitespace(s[0]) && !IsWhitespace(s[1]) && !IsWhitespace(s[8]);
    assert SkipLeading(s, 1) == 1;
    assert SkipLeading(s, 0) == 1;
    assert SkipTrailing(s, 1, 9) == 9;
    assert s[1..9] == "Starters";
  }

  /** Another subcategory of the same category, not the one being edited, has this
      name ignoring case. */
  predicate SubcategoryNameTaken(subcategories: seq<Subcategory>, editingId: Option<string>,
                                 categoryId: string, name: string) {
    exists s :: s in subcategories && EqualsIgnoringCase(s.name, name) && s.categoryId == categoryId
      && Some(s.id) != editingId
  }

  /** `SubcategoryForm.handleSubmit` up to the store call: a blank name or a missing
      category is refused; a name taken (as typed, ignoring case) inside the same
      category is refused; otherwise the trimmed name and description are saved. */
  function ValidateSubcategory(subcategories: seq<Subcategory>, editingId: Option<string>, categoryId: string,
                               name: string, description: string, isActive: bool, displayOrder: int)
    : (r: Result<SubcategoryFields, FormError>)
    ensures IsBlank(name) || categoryId == "" ==> r == Err(NameAndCategoryRequired)
    ensures r.Ok? <==>
      !IsBlank(name) && categoryId != "" && !SubcategoryNameTaken(subcategories, editingId, categoryId, name)
    ensures r.Err? && r != Err(NameAndCategoryRequired) ==> r == Err(DuplicateName)
    ensures r.Ok? ==> r.value == SubcategoryFields(categoryId, Trim(name), Trim(description), isActive, displayOrder)
  {
    if Trim(name) == [] || categoryId == "" then Err(NameAndCategoryRequired)
    else match Find(subcategories, (s: Subcategory) =>
                      EqualsIgnoringCase(s.name, name) && s.categoryId == categoryId && Some(s.id) != editingId)
      case Some(_) => Err(DuplicateName)
      case None => Ok(SubcategoryFields(categoryId, Trim(name), Trim(description), isActive, displayOrder))
  }

  /** The same name may be used in two different categories. */
  lemma SameNameInOtherCategory(subcategories: seq<Subcategory>, name: string, categoryId: string)
    requires !IsBlank(name) && categoryId != ""
    requires forall s :: s in subcategories ==> s.categoryId != categoryId
    ensures ValidateSubcategory(subcategories, None, categoryId, name, "", true, 0).Ok?
  {
  }

  /** The price field: empty, text that does not parse as a number, or its value. */
  datatype PriceInput = EmptyPrice | NotANumber | Parsed(value: real)

  /** `MenuItemForm.handleSubmit` up to the store call: a blank name or description,
      no category or an empty price is refused; then a price that is not a number or
      not positive; otherwise the item fields are saved trimmed, with an empty
      subcategory or image stored as absent. `prepTime` is the parsed field, absent
      when the field is empty. */
  function ValidateMenuItem(name: string, categoryId: string, subcategoryId: string, description: string,
                            price: PriceInput, prepTime: Option<int>, isAvailable: bool, isFeatured: bool,
                            image: string, displayOrder: int): (r: Result<MenuItemFields, FormError>)
    ensures IsBlank(name) || categoryId == "" || IsBlank(description) || price == EmptyPrice
      ==> r == Err(RequiredFieldsMissing)
    ensures !(IsBlank(name) || categoryId == "" || IsBlank(description) || price == EmptyPrice) ==>
      (r == Err(InvalidPrice) <==> price == NotANumber || (price.Parsed? && price.value <= 0.0))
    ensures r.Ok? <==> !(IsBlank(name) || categoryId == "" || IsBlank(description)) && price.Parsed? && price.value > 0.0
    ensures r.Ok? ==> price.Parsed? && r.value.price == price.value && r.value.price > 0.0
    ensures r.Ok? ==> r.value.name == Trim(name) && r.value.name != [] && r.value.description == Trim(description)
    ensures r.Ok? ==> r.value.categoryId == categoryId && categoryId != ""
    ensures r.Ok? ==> (r.value.subcategoryId.None? <==> subcategoryId == "")
    ensures r.Ok? && subcategoryId != "" ==> r.value.subcategoryId == Some(subcategoryId)
    ensures r.Ok? ==> (r.value.image.None? <==> IsBlank(image))
    ensures r.Ok? && !IsBlank(image) ==> r.value.image == Some(Trim(image))
    ensures r.Ok? ==> (r.value.prepTime == prepTime && r.value.isAvailable == isAvailable
                       && r.value.isFeatured == isFeatured && r.value.displayOrder == displayOrder)
  {
    if Trim(name) == [] || categoryId == "" || Trim(description) == [] || price == EmptyPrice then
      Err(RequiredFieldsMissing)
    else match price
      case NotANumber => Err(InvalidPrice)
      case Parsed(v) =>
        if v <= 0.0 then Err(InvalidPrice)
        else Ok(MenuItemFields(
          Trim(name), categoryId,
          if subcategoryId == "" then None else Some(subcategoryId),
          Trim(description), v, prepTime, isAvailable, isFeatured,
          if Trim(image) == "" then None else Some(Trim(image)),
          displayOrder))
  }

  /** `filteredSubcategories` of the item form: the active subcategories of the chosen category. */
  function FormSubcategories(subcategories: seq<Subcategory>, categoryId: string): (r: seq<Subcategory>)
    ensures forall s :: s in r <==> s in subcategories && s.categoryId == categoryId && s.isActive
  {
    Filter(subcategories, (s: Subcategory) => s.categoryId == categoryId && s.isActive)
  }

  // ---------------------------------------------------------------------------
  // The screen's state

  /** The catalog screen's own state over the shared store. */
  class MenuManager {
    const store: DataProvider
    var searchQuery: string
    var expandedCategories: seq<string>
    var deleteConfirm: Option<DeleteTarget>

    constructor (store: DataProvider)
      ensures this.store == store && searchQuery == "" && expandedCategories == [] && deleteConfirm.None?
    {
      this.store := store;
      searchQuery := "";
      expandedCategories := [];
      deleteConfirm := None;
    }

    method ToggleCategory(categoryId: string)
      modifies this`expandedCategories
      ensures expandedCategories == Toggled(old(expandedCategories), categoryId)
    {
      expandedCategories := Toggled(expandedCategories, categoryId);
    }

    /** `handleDelete`: with no pending confirmation nothing happens. A category still
        holding subcategories or items and a subcategory still holding items are
        refused; otherwise the target is removed. The confirmation is cleared in
        every case. */
    method HandleDelete() returns (deleted: bool)
      modifies store`categories, store`subcategories, store`menuItems, this`deleteConfirm
      ensures deleteConfirm.None?
      ensures deleted <==> (old(deleteConfirm).Some?
                            && DeleteAllowed(old(deleteConfirm).value, old(store.subcategories), old(store.menuItems)))
      ensures old(deleteConfirm).None? ==>
        store.categories == old(store.categories) && store.subcategories == old(store.subcategories)
        && store.menuItems == old(store.menuItems)
      ensures old(deleteConfirm).Some? ==>
        (store.categories, store.subcategories, store.menuItems)
        == AfterDelete(old(deleteConfirm).value, old(store.categories), old(store.subcategories), old(store.menuItems))
    {
      if deleteConfirm.None? {
        return false;
      }
      var target := deleteConfirm.value;
      deleted := DeleteAllowed(target, store.subcategories, store.menuItems);
      if deleted {
        match target.kind
        case CategoryKind => store.DeleteCategory(target.id);
        case SubcategoryKind => store.DeleteSubcategory(target.id);
        case ItemKind => store.DeleteMenuItem(target.id);
      }
      deleteConfirm := None;
    }
  }

  /** The category dialog: the category being edited, if any, and the field values. */
  class CategoryForm {
    const store: DataProvider
    const category: Option<Category>
    var name: string
    var description: string
    var isActive: bool
    var displayOrder: int

    constructor (store: DataProvider, category: Option<Category>)
      ensures this.store == store && this.category == category
      ensures category.Some? ==> (name == category.value.name && description == category.value.description
                                  && isActive == category.value.isActive && displayOrder == category.value.displayOrder)
      ensures category.None? ==> name == "" && description == "" && isActive && displayOrder == 0
    {
      this.store := store;
      this.category := category;
      match category {
        case Some(c) =>
          name := c.name;
          description := c.description;
          isActive := c.isActive;
          displayOrder := c.displayOrder;
        case None =>
          name := "";
          description := "";
          isActive := true;
          displayOrder := 0;
      }
    }

    function EditingId(): Option<string>
      reads this
    {
      match category
      case Some(c) => Some(c.id)
      case None => None
    }

    /** `handleSubmit`: on a refusal the store is unchanged; otherwise the edited
        category is updated, or a new one with the fresh `id` is appended. */
    method HandleSubmit(id: string, createdAt: string) returns (r: Result<CategoryFields, FormError>)
      modifies store`categories
      ensures r == ValidateCategory(old(store.categories), EditingId(), name, description, isActive, displayOrder)
      ensures r.Err? ==> store.categories == old(store.categories)
      ensures r.Ok? && category.Some? ==> store.categories == UpdatedCategories(old(store.categories), category.value.id, r.value)
      ensures r.Ok? && category.None? ==> store.categories == old(store.categories) + [CategoryFrom(r.value, id, createdAt)]
    {
      r := ValidateCategory(store.categories, EditingId(), name, description, isActive, displayOrder);
      if r.Ok? {
        var fields := r.value;
        Save(fields, id, createdAt);
      }
    }

    /** The store call of a submission that passed the checks. */
    method Save(f: CategoryFields, id: string, createdAt: string)
      modifies store`categories
      ensures category.Some? ==> store.categories == UpdatedCategories(old(store.categories), category.value.id, f)
      ensures category.None? ==> store.categories == old(store.categories) + [CategoryFrom(f, id, createdAt)]
    {
      match category {
        case Some(c) => store.UpdateCategory(c.id, f);
        case None => store.AddCategory(f, id, createdAt);
      }
    }
  }

  /** The subcategory dialog. */
  class SubcategoryForm {
    const store: DataProvider
    const subcategory: Option<Subcategory>
    var categoryId: string
    var name: string
    var description: string
    var isActive: bool
    var displayOrder: int

    /** The category is the edited subcategory's, else the pre-selected one, else none. */
    constructor (store: DataProvider, subcategory: Option<Subcategory>, preSelectedCategoryId: string)
      ensures this.store == store && this.subcategory == subcategory
      ensures subcategory.Some? && subcategory.value.categoryId != "" ==> categoryId == subcategory.value.categoryId
      ensures (subcategory.None? || subcategory.value.categoryId == "") ==> categoryId == preSelectedCategoryId
      ensures subcategory.Some? ==> (name == subcategory.value.name && description == subcategory.value.description
                                     && isActive == subcategory.value.isActive
                                     && displayOrder == subcategory.value.displayOrder)
      ensures subcategory.None? ==> name == "" && description == "" && isActive && displayOrder == 0
    {
      this.store := store;
      this.subcategory := subcategory;
      match subcategory {
        case Some(s) =>
          categoryId := if s.categoryId != "" then s.categoryId else preSelectedCategoryId;
          name := s.name;
          description := s.description;
          isActive := s.isActive;
          displayOrder := s.displayOrder;
        case None =>
          categoryId := preSelectedCategoryId;
          name := "";
          description := "";
          isActive := true;
          displayOrder := 0;
      }
    }

    function EditingId(): Option<string>
      reads this
    {
      match subcategory
      case Some(s) => Some(s.id)
      case None => None
    }

    method HandleSubmit(id: string, createdAt: string) returns (r: Result<SubcategoryFields, FormError>)
      modifies store`subcategories
      ensures r == ValidateSubcategory(old(store.subcategories), EditingId(), categoryId, name, description, isActive, displayOrder)
      ensures r.Err? ==> store.subcategories == old(store.subcategories)
      ensures r.Ok? && subcategory.Some? ==>
        store.subcategories == UpdatedSubcategories(old(store.subcategories), subcategory.value.id, r.value)
      ensures r.Ok? && subcategory.None? ==>
        store.subcategories == old(store.subcategories) + [SubcategoryFrom(r.value, id, createdAt)]
    {
      r := ValidateSubcategory(store.subcategories, EditingId(), categoryId, name, description, isActive, displayOrder);
      if r.Ok? {
        var fields := r.value;
        Save(fields, id, createdAt);
      }
    }

    /** The store call of a submission that passed the checks. */
    method Save(f: SubcategoryFields, id: string, createdAt: string)
      modifies store`subcategories
      ensures subcategory.Some? ==> store.subcategories == UpdatedSubcategories(old(store.subcategories), subcategory.value.id, f)
      ensures subcategory.None? ==> store.subcategories == old(store.subcategories) + [SubcategoryFrom(f, id, createdAt)]
    {
      match subcategory {
        case Some(s) => store.UpdateSubcategory(s.id, f);
        case None => store.AddSubcategory(f, id, createdAt);
      }
    }
  }

  /** The menu item dialog. */
  class MenuItemForm {
    const store: DataProvider
    const menuItem: Option<MenuItem>
    var name: string
    var categoryId: string
    var subcategoryId: string
    var description: string
    var price: PriceInput
    var prepTime: Option<int>
    var isAvailable: bool
    var isFeatured: bool
    var image: string
    var displayOrder: int

    constructor (store: DataProvider, menuItem: Option<MenuItem>)
      ensures this.store == store && this.menuItem == menuItem
      ensures menuItem.Some? ==> (name == menuItem.value.name && price == Parsed(menuItem.value.price)
                                  && prepTime == menuItem.value.prepTime && isAvailable == menuItem.value.isAvailable)
      ensures menuItem.Some? ==> (categoryId == menuItem.value.categoryId && description == menuItem.value.description
                                  && isFeatured == menuItem.value.isFeatured
                                  && displayOrder == menuItem.value.displayOrder)
      ensures menuItem.Some? ==> (subcategoryId == "" <==> menuItem.value.subcategoryId.None? || menuItem.value.subcategoryId == Some(""))
      ensures menuItem.Some? && menuItem.value.subcategoryId.Some? ==> subcategoryId == menuItem.value.subcategoryId.value
      ensures menuItem.Some? && menuItem.value.image.Some? ==> image == menuItem.value.image.value
      ensures menuItem.Some? && menuItem.value.image.None? ==> image == ""
      ensures menuItem.None? ==> (name == "" && categoryId == "" && subcategoryId == "" && description == "" && price == EmptyPrice
                                  && prepTime.None? && isAvailable && !isFeatured && image == "" && displayOrder == 0)
    {
      this.store := store;
      this.menuItem := menuItem;
      match menuItem {
        case Some(m) =>
          name := m.name;
          categoryId := m.categoryId;
          subcategoryId := if m.subcategoryId.Some? then m.subcategoryId.value else "";
          description := m.description;
          price := Parsed(m.price);
          prepTime := m.prepTime;
          isAvailable := m.isAvailable;
          isFeatured := m.isFeatured;
          image := if m.image.Some? then m.image.value else "";
          displayOrder := m.displayOrder;
        case None =>
          name := "";
          categoryId := "";
          subcategoryId := "";
          description := "";
          price := EmptyPrice;
          prepTime := None;
          isAvailable := true;
          isFeatured := false;
          image := "";
          displayOrder := 0;
      }
    }

    /** `handleCategoryChange`: a new category clears the chosen subcategory. */
    method HandleCategoryChange(newCategoryId: string)
      modifies this`categoryId, this`subcategoryId
      ensures categoryId == newCategoryId && subcategoryId == ""
    {
      categoryId := newCategoryId;
      subcategoryId := "";
    }

    method HandleSubmit(id: string, createdAt: string) returns (r: Result<MenuItemFields, FormError>)
      modifies store`menuItems
      ensures r == ValidateMenuItem(name, categoryId, subcategoryId, description, price, prepTime,
                                    isAvailable, isFeatured, image, displayOrder)
      ensures r.Err? ==> store.menuItems == old(store.menuItems)
      ensures r.Ok? && menuItem.Some? ==> store.menuItems == UpdatedMenuItems(old(store.menuItems), menuItem.value.id, r.value)
      ensures r.Ok? && menuItem.None? ==> store.menuItems == old(store.menuItems) + [MenuItemFrom(r.value, id, createdAt)]
    {
      r := ValidateMenuItem(name, categoryId, subcategoryId, description, price, prepTime,
                            isAvailable, isFeatured, image, displayOrder);
      if r.Ok? {
        var fields := r.value;
        Save(fields, id, createdAt);
      }
    }

    /** The store call of a submission that passed the checks. */
    method Save(f: MenuItemFields, id: string, createdAt: string)
      modifies store`menuItems
      ensures menuItem.Some? ==> store.menuItems == UpdatedMenuItems(old(store.menuItems), menuItem.value.id, f)
      ensures menuItem.None? ==> store.menuItems == old(store.menuItems) + [MenuItemFrom(f, id, createdAt)]
    {
      match menuItem {
        case Some(m) => store.UpdateMenuItem(m.id, f);
        case None => store.AddMenuItem(f, id, createdAt);
      }
    }
  }
}
