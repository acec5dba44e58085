/** The gallery page: the items of the current category tab, the search
    box over titles and tags, the item count line, and the edit form whose
    submission rebuilds the item from the form fields and keeps its image. */
module Gallery {
  import opened Wrappers
  import opened Text
  import opened Seqs
  import opened Records
  import opened TagInput
  import Api

  /** `tags.some(tag => tag.toLowerCase().includes(q))` for an already
      lower-cased `q`. */
  function SomeTagContains(tags: seq<string>, q: string): (r: bool)
    ensures r <==> exists i :: 0 <= i < |tags| && Contains(Lower(tags[i]), q)
  {
    if tags == [] then false
    else Contains(Lower(tags[0]), q) || SomeTagContains(tags[1..], q)
  }

  /** An item matches a query when its title or one of its tags contains the
      query, both lower-cased; the query is not trimmed. */
  predicate Matches(it: Item, query: string) {
    var q := Lower(query);
    Contains(Lower(it.title), q) || SomeTagContains(it.tags, q)
  }

  /** `filterItems(searchQuery)`: a blank query shows the plain category
      list; any other query keeps the items of the current category that
      match it, in list order. */
  function Search(items: seq<Item>, category: string, query: string): (r: seq<Item>)
    ensures IsBlank(query) ==> r == ByCategory(items, category)
    ensures !IsBlank(query) ==>
      && (forall i :: 0 <= i < |r| ==> r[i] in items && InCategory(r[i], category) && Matches(r[i], query))
      && (forall i :: 0 <= i < |items| && InCategory(items[i], category) && Matches(items[i], query) ==> items[i] in r)
  {
    if Trim(query) == [] then ByCategory(items, category)
    else Filter(Hit(category, query), items)
  }

  /** The test `filterItems` applies to each item. */
  function Hit(category: string, query: string): Item -> bool {
    it => InCategory(it, category) && Matches(it, query)
  }

  /** A non-blank search filters the category list by the query. */
  lemma SearchFiltersCategory(items: seq<Item>, category: string, query: string)
    requires !IsBlank(query)
    ensures Search(items, category, query) == Filter(it => Matches(it, query), ByCategory(items, category))
  {
    FilterConjunction(it => InCategory(it, category), it => Matches(it, query), Hit(category, query), items);
  }

  /** Search results are always a part of the category list, in its order. */
  lemma SearchWithinCategory(items: seq<Item>, category: string, query: string)
    ensures IsSubsequence(Search(items, category, query), ByCategory(items, category))
  {
    if IsBlank(query) {
      SubsequenceSelf(ByCategory(items, category));
    } else {
      SearchFiltersCategory(items, category, query);
      FilterIsSubsequence(it => Matches(it, query), ByCategory(items, category));
    }
  }

  /** The count line: the number, " item", and an `s` exactly when the
      number is not one. */
  function ItemCountLabel(n: nat): (text: string)
    ensures StartsWith(text, NatToString(n) + " item")
    ensures |text| == |NatToString(n) + " item"| + (if n == 1 then 0 else 1)
    ensures text[|text| - 1] == 's' <==> n != 1
  {
    CountLabel(n, "item")
  }

  /** The edit form's fields as `openEditModal` fills them. */
  datatype EditForm = EditForm(id: string, title: string, category: string, tags: string)

  /** The form for an item: its title and category (an empty field for a
      `null` category) and its tags joined by `", "`. */
  function FormFor(it: Item): (f: EditForm)
    ensures f.id == it.id && f.title == it.title && f.category == it.category.GetOr([])
    ensures WellFormedTags(it.tags) ==> ParseTagInput(Trim(f.tags)) == it.tags
  {
    assert WellFormedTags(it.tags) ==> ParseTagInput(Trim(FormText(it.tags))) == it.tags by {
      if WellFormedTags(it.tags) { FormTextRoundTrip(it.tags); }
    }
    EditForm(it.id, it.title, it.category.GetOr([]), FormText(it.tags))
  }

  /** Why `handleEditSubmit` sends no update. */
  datatype EditError = MissingFields | ItemNotFound

  /** `handleEditSubmit` up to the request: the title (trimmed) and the
      category must be non-empty, then the edited item must still be in the
      list; the update goes to that id with the trimmed title, the category,
      the parsed tags and the item's current image, unchanged. */
  function EditRequest(items: seq<Item>, editId: Option<string>, titleField: string, categoryField: string, tagsField: string)
    : (r: Result<(string, ItemBody), EditError>)
    ensures IsBlank(titleField) || categoryField == [] ==> r == Failure(MissingFields)
    ensures r.Success? <==>
      && !IsBlank(titleField) && categoryField != [] && editId.Some?
      && exists j :: 0 <= j < |items| && items[j].id == editId.value
    ensures r.Success? ==>
      var (id, body) := r.value;
      && id == editId.value
      && body.title == Some(Trim(titleField)) && body.category == Some(categoryField)
      && body.tags == Some(ParseTagInput(Trim(tagsField)))
      && exists j :: IsFirstWithId(items, j, id) && body.imageUrl == items[j].imageUrl
  {
    var title := Trim(titleField);
    if title == [] || categoryField == [] then Failure(MissingFields)
    else
      var tags := ParseTagInput(Trim(tagsField));
      var current := if editId.Some? then FindById(items, editId.value) else None;
      match current
      case None => Failure(ItemNotFound)
      case Some(it) => Success((editId.value, ItemBody(Some(title), Some(categoryField), it.imageUrl, Some(tags))))
  }

  /** Submitting the edit form as it was filled in asks for the item as it
      is: same title, category, image and tags (for an item whose title
      is trimmed and whose tags survive the text box). */
  lemma {:induction false} UnchangedEditKeepsItem(items: seq<Item>, j: int)
    requires 0 <= j < |items| && IsFirstWithId(items, j, items[j].id)
    requires !IsBlank(items[j].title) && IsTrimmed(items[j].title)
    requires items[j].category.Some? && items[j].category.value != []
    requires WellFormedTags(items[j].tags)
    ensures var it := items[j];
      var f := FormFor(it);
      EditRequest(items, Some(it.id), f.title, f.category, f.tags)
        == Success((it.id, ItemBody(Some(it.title), it.category, it.imageUrl, Some(it.tags))))
  {
    TrimTrimmed(items[j].title);
    FindFirst(items, j);
  }

  /** The page state: the open tab, the loaded items and the item whose
      edit form is open. */
  class GalleryPage {
    var currentCategory: string
    var allItems: seq<Item>
    var currentEditItemId: Option<string>

    /** `initializeGallery`: the `category` URL parameter, when present and
        non-empty, chooses the tab; otherwise the page opens on `shirts`. */
    constructor (categoryParam: Option<string>)
      ensures categoryParam.Some? && categoryParam.value != [] ==> currentCategory == categoryParam.value
      ensures categoryParam.None? || categoryParam == Some([]) ==> currentCategory == "shirts"
      ensures allItems == [] && currentEditItemId == None
    {
      if categoryParam.Some? && categoryParam.value != [] {
        currentCategory := categoryParam.value;
      } else {
        currentCategory := "shirts";
      }
      allItems := [];
      currentEditItemId := None;
    }

    /** `updatePageTitle`: the icon and the display name of the current
        tab; only the four categories get an icon and a name of their own,
        and any other tab shows its category under `fa-question`. For every
        tab not named after a member of `Object.prototype` this is what the
        lookup tables as written give. */
    function Heading(): (h: (string, string))
      reads this
      ensures h.0 != "fa-question" <==> currentCategory in {"shirts", "pants", "accessories", "shoes"}
      ensures h.0 == "fa-question" <==> h.1 == currentCategory
      ensures currentCategory !in Api.InheritedMembers ==>
        && Api.CategoryIconAsWritten(currentCategory) == Api.Text(h.0)
        && Api.CategoryNameAsWritten(currentCategory) == Api.Text(h.1)
    {
      Api.KnownCategoryHasIcon(currentCategory);
      (Api.CategoryIcon(currentCategory), Api.CategoryName(currentCategory))
    }

    /** A tab click: the tab's category becomes current, nothing else
        changes. */
    method SelectTab(category: string)
      modifies this
      ensures currentCategory == category
      ensures allItems == old(allItems) && currentEditItemId == old(currentEditItemId)
    {
      currentCategory := category;
    }

    /** `loadItems` with the page `API.getAllItems()` resolved to. */
    method LoadItems(page: Page<Item>)
      modifies this
      ensures allItems == page.data
      ensures currentCategory == old(currentCategory) && currentEditItemId == old(currentEditItemId)
    {
      allItems := page.data;
    }

    /** `displayItems` (for a blank search box) and `filterItems`: what the
        grid shows and the count line above it. */
    method Visible(query: string) returns (shown: seq<Item>, countLine: string)
      ensures shown == Search(allItems, currentCategory, query)
      ensures forall i :: 0 <= i < |shown| ==> shown[i] in allItems && InCategory(shown[i], currentCategory)
      ensures countLine == ItemCountLabel(|shown|)
    {
      shown := Search(allItems, currentCategory, query);
      countLine := ItemCountLabel(|shown|);
    }

    /** `openEditModal(itemId)`: an id with no loaded item changes nothing;
        otherwise that item's form is filled and its id remembered. */
    method OpenEditModal(itemId: string) returns (form: Option<EditForm>)
      modifies this
      ensures allItems == old(allItems) && currentCategory == old(currentCategory)
      ensures form.None? <==> forall i :: 0 <= i < |allItems| ==> allItems[i].id != itemId
      ensures form.None? ==> currentEditItemId == old(currentEditItemId)
      ensures form.Some? ==>
        && currentEditItemId == Some(itemId)
        && exists j :: IsFirstWithId(allItems, j, itemId) && form.value == FormFor(allItems[j])
    {
      var item := FindById(allItems, itemId);
      if item.None? {
        return None;
      }
      currentEditItemId := Some(itemId);
      form := Some(FormFor(item.value));
    }

    /** `closeEditModal`: no item is being edited any more. */
    method CloseEditModal()
      modifies this
      ensures currentEditItemId == None
      ensures allItems == old(allItems) && currentCategory == old(currentCategory)
    {
      currentEditItemId := None;
    }

    /** `handleEditSubmit` with the three form fields: the update it sends,
        or why it sends none. */
    method SubmitEdit(titleField: string, categoryField: string, tagsField: string)
      returns (r: Result<(string, ItemBody), EditError>)
      ensures r == EditRequest(allItems, currentEditItemId, titleField, categoryField, tagsField)
      ensures r.Success? ==> Some(r.value.0) == currentEditItemId
    {
      r := EditRequest(allItems, currentEditItemId, titleField, categoryField, tagsField);
    }
  }
}
