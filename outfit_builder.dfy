/** The outfit builder page: the catalogue split into the four category
    buckets, the four-slot selection the selector clicks, the remove and
    clear buttons and the randomizer change, and the save request built from
    the selection and the save form. `Math.random()` is replaced by one
    index per bucket chosen by the caller. */
module OutfitBuilder {
  import opened Wrappers
  import opened Text
  import opened Seqs
  import opened Records

  /** The keys of `selectedItems`. */
  datatype Slot = Shirt | Pants | Accessories | Shoes

  /** `selectedItems`: at most one item per slot. */
  datatype Selection = Selection(shirt: Option<Item>, pants: Option<Item>, accessories: Option<Item>, shoes: Option<Item>) {
    function Get(k: Slot): Option<Item> {
      match k
      case Shirt => shirt
      case Pants => pants
      case Accessories => accessories
      case Shoes => shoes
    }

    /** `selectedItems[k] = v`: slot `k` holds `v`, the other slots keep theirs. */
    function Set(k: Slot, v: Option<Item>): (s: Selection)
      ensures s.Get(k) == v
      ensures forall j :: j != k ==> s.Get(j) == Get(j)
    {
      match k
      case Shirt => this.(shirt := v)
      case Pants => this.(pants := v)
      case Accessories => this.(accessories := v)
      case Shoes => this.(shoes := v)
    }
  }

  const Empty := Selection(None, None, None, None)

  /** The category key `selectItem` writes: `shirts`, `pants` and
      `accessories` have their own slot, every other category lands in
      `shoes`. */
  function SlotOf(category: string): (k: Slot)
    ensures k == Shirt <==> category == "shirts"
    ensures k == Pants <==> category == "pants"
    ensures k == Accessories <==> category == "accessories"
    ensures k == Shoes <==> category !in {"shirts", "pants", "accessories"}
  {
    if category == "shirts" then Shirt
    else if category == "pants" then Pants
    else if category == "accessories" then Accessories
    else Shoes
  }

  /** The category whose bucket feeds a slot. */
  function CategoryOf(k: Slot): (c: string)
    ensures SlotOf(c) == k
  {
    match k
    case Shirt => "shirts"
    case Pants => "pants"
    case Accessories => "accessories"
    case Shoes => "shoes"
  }

  /** `allItems`: one bucket per category. */
  datatype Catalogue = Catalogue(shirts: seq<Item>, pants: seq<Item>, accessories: seq<Item>, shoes: seq<Item>) {
    /** `allItems[category]`: `None` where the object has no such bucket
        (the lookup is `undefined` and the `find` on it throws). */
    function Bucket(category: string): (b: Option<seq<Item>>)
      ensures b.Some? <==> category in {"shirts", "pants", "accessories", "shoes"}
    {
      if category == "shirts" then Some(shirts)
      else if category == "pants" then Some(pants)
      else if category == "accessories" then Some(accessories)
      else if category == "shoes" then Some(shoes)
      else None
    }

    /** The bucket feeding slot `k`. */
    function Of(k: Slot): (b: seq<Item>)
      ensures Bucket(CategoryOf(k)) == Some(b)
    {
      match k
      case Shirt => shirts
      case Pants => pants
      case Accessories => accessories
      case Shoes => shoes
    }
  }

  /** What `loadAllItems` puts into the four buckets: each bucket holds
      exactly the items of its category, and together the buckets hold no
      more than the list (items of any other category are in none). */
  function Partition(items: seq<Item>): (c: Catalogue)
    ensures forall k: Slot, i :: 0 <= i < |c.Of(k)| ==> c.Of(k)[i] in items && InCategory(c.Of(k)[i], CategoryOf(k))
    ensures forall k: Slot, i :: 0 <= i < |items| && InCategory(items[i], CategoryOf(k)) ==> items[i] in c.Of(k)
    ensures |c.shirts| + |c.pants| + |c.accessories| + |c.shoes| <= |items|
  {
    CategoriesPartition(items);
    Catalogue(ByCategory(items, "shirts"), ByCategory(items, "pants"),
      ByCategory(items, "accessories"), ByCategory(items, "shoes"))
  }

  /** Each bucket keeps the order of the loaded list. */
  lemma PartitionKeepsOrder(items: seq<Item>, k: Slot)
    ensures IsSubsequence(Partition(items).Of(k), items)
  {
    FilterIsSubsequence(it => InCategory(it, CategoryOf(k)), items);
  }

  /** `Object.values(selectedItems).some(item => item !== null)`. */
  predicate HasSelection(sel: Selection) {
    exists k: Slot :: sel.Get(k).Some?
  }

  /** The selection is non-empty exactly when some slot holds an item. */
  lemma {:induction false} HasSelectionIffNotEmpty(sel: Selection)
    ensures HasSelection(sel) <==> sel != Empty
  {
    if sel != Empty {
      if sel.shirt.Some? { assert sel.Get(Shirt).Some?; }
      else if sel.pants.Some? { assert sel.Get(Pants).Some?; }
      else if sel.accessories.Some? { assert sel.Get(Accessories).Some?; }
      else { assert sel.Get(Shoes).Some?; }
    }
  }

  /** Why `handleSaveOutfit` refuses to send a request. */
  datatype SaveError = MissingName | NothingSelected

  /** The id a request slot carries: the selected item's id, or `null`. */
  function SlotId(v: Option<Item>): (r: Option<string>)
    ensures r.Some? <==> v.Some?
    ensures v.Some? ==> r.value == v.value.id
  {
    match v
    case Some(it) => Some(it.id)
    case None => None
  }

  /** The request slot for a selection slot. */
  function RequestSlot(b: OutfitBody, k: Slot): Option<string> {
    match k
    case Shirt => b.shirtId
    case Pants => b.pantsId
    case Accessories => b.accessoriesId
    case Shoes => b.shoesId
  }

  /** `handleSaveOutfit` up to the request: the name is checked first, then
      the selection; the request carries the trimmed name and notes and, per
      slot, the selected item's id or `null`. */
  function BuildSaveRequest(sel: Selection, nameField: string, notesField: string): (r: Result<OutfitBody, SaveError>)
    ensures IsBlank(nameField) ==> r == Failure(MissingName)
    ensures !IsBlank(nameField) && sel == Empty ==> r == Failure(NothingSelected)
    ensures r.Success? <==> !IsBlank(nameField) && sel != Empty
    ensures r.Success? ==>
      && r.value.name == Some(Trim(nameField)) && r.value.name.value != []
      && r.value.notes == Some(Trim(notesField))
      && forall k: Slot :: RequestSlot(r.value, k) == SlotId(sel.Get(k))
  {
    var name := Trim(nameField);
    HasSelectionIffNotEmpty(sel);
    if name == [] then Failure(MissingName)
    else if !HasSelection(sel) then Failure(NothingSelected)
    else Success(SaveBody(sel, name, Trim(notesField)))
  }

  /** The outfit `handleSaveOutfit` sends: the name and notes as given and,
      per slot, the selected item's id or `null`. */
  function SaveBody(sel: Selection, name: string, notes: string): (b: OutfitBody)
    ensures b.name == Some(name) && b.notes == Some(notes)
    ensures forall k: Slot :: RequestSlot(b, k) == SlotId(sel.Get(k))
  {
    OutfitBody(Some(name), SlotId(sel.shirt), SlotId(sel.pants), SlotId(sel.accessories), SlotId(sel.shoes), Some(notes))
  }

  /** The caller's stand-in for `Math.floor(Math.random() * n)`, one per bucket. */
  datatype Picks = Picks(shirt: nat, pants: nat, accessories: nat, shoes: nat) {
    function Of(k: Slot): nat {
      match k
      case Shirt => shirt
      case Pants => pants
      case Accessories => accessories
      case Shoes => shoes
    }
  }

  /** The page state: the buckets and the selection. */
  class Builder {
    var catalogue: Catalogue
    var selected: Selection

    constructor ()
      ensures catalogue == Catalogue([], [], [], []) && selected == Empty
    {
      catalogue := Catalogue([], [], [], []);
      selected := Empty;
    }

    /** `loadAllItems` with the list `API.getAllItems()` resolved to; the
        selection is left as it was. */
    method LoadAllItems(items: seq<Item>)
      modifies this
      ensures catalogue == Partition(items) && selected == old(selected)
    {
      catalogue := Partition(items);
    }

    /** `selectItem(itemId, category)`. `thrown` reports the `TypeError` of
        a category with no bucket; then, and when the bucket holds no item
        with that id, nothing changes. Otherwise the category's slot gets the
        first item of the bucket with that id and the other slots keep
        theirs. */
    method SelectItem(itemId: string, category: string) returns (thrown: bool)
      modifies this
      ensures catalogue == old(catalogue)
      ensures thrown <==> category !in {"shirts", "pants", "accessories", "shoes"}
      ensures thrown ==> selected == old(selected)
      ensures !thrown ==>
        var bucket := catalogue.Bucket(category).value;
        var k := SlotOf(category);
        && ((forall i :: 0 <= i < |bucket| ==> bucket[i].id != itemId) ==> selected == old(selected))
        && ((exists i :: 0 <= i < |bucket| && bucket[i].id == itemId) ==>
              && selected.Get(k).Some?
              && (exists i :: IsFirstWithId(bucket, i, itemId) && bucket[i] == selected.Get(k).value)
              && forall j :: j != k ==> selected.Get(j) == old(selected).Get(j))
    {
      var bucket := catalogue.Bucket(category);
      if bucket.None? {
        return true;
      }
      thrown := false;
      var item := FindById(bucket.value, itemId);
      if item.Some? {
        selected := selected.Set(SlotOf(category), item);
      }
    }

    /** `removeSelectedItem(k)`: slot `k` is emptied, nothing else changes. */
    method RemoveSelectedItem(k: Slot)
      modifies this
      ensures catalogue == old(catalogue)
      ensures selected.Get(k).None?
      ensures forall j :: j != k ==> selected.Get(j) == old(selected).Get(j)
    {
      selected := selected.Set(k, None);
    }

    /** `clearSelection`: every slot is emptied (the per-slot removal that
        follows the reset repeats it). */
    method ClearSelection()
      modifies this
      ensures catalogue == old(catalogue) && selected == Empty
    {
      selected := Empty;
      RemoveSelectedItem(Shirt);
      RemoveSelectedItem(Pants);
      RemoveSelectedItem(Accessories);
      RemoveSelectedItem(Shoes);
      assert forall k: Slot :: selected.Get(k).None?;
    }

    /** The random pick of one bucket: selects the picked item's id when
        the bucket is non-empty. */
    method PickFrom(k: Slot, pick: nat)
      requires |catalogue.Of(k)| > 0 ==> pick < |catalogue.Of(k)|
      modifies this
      ensures catalogue == old(catalogue)
      ensures forall j :: j != k ==> selected.Get(j) == old(selected).Get(j)
      ensures |catalogue.Of(k)| == 0 ==> selected.Get(k) == old(selected).Get(k)
      ensures |catalogue.Of(k)| > 0 ==>
        && selected.Get(k).Some? && selected.Get(k).value in catalogue.Of(k)
        && selected.Get(k).value.id == catalogue.Of(k)[pick].id
    {
      var bucket := catalogue.Of(k);
      if |bucket| > 0 {
        var thrown := SelectItem(bucket[pick].id, CategoryOf(k));
      }
    }

    /** `randomizeOutfit`: after clearing, every slot whose bucket is
        non-empty holds an item of that bucket with the picked item's id,
        and every slot whose bucket is empty stays empty. */
    method RandomizeOutfit(picks: Picks)
      requires forall k: Slot :: |catalogue.Of(k)| > 0 ==> picks.Of(k) < |catalogue.Of(k)|
      modifies this
      ensures catalogue == old(catalogue)
      ensures forall k: Slot :: selected.Get(k).Some? <==> |catalogue.Of(k)| > 0
      ensures forall k: Slot :: |catalogue.Of(k)| > 0 ==>
        selected.Get(k).value in catalogue.Of(k) && selected.Get(k).value.id == catalogue.Of(k)[picks.Of(k)].id
    {
      ClearSelection();
      PickFrom(Shirt, picks.shirt);
      PickFrom(Pants, picks.pants);
      PickFrom(Accessories, picks.accessories);
      PickFrom(Shoes, picks.shoes);
    }

    /** `saveBtn.disabled = !hasSelection`: disabled exactly when every
        slot is empty. */
    predicate SaveDisabled()
      reads this
      ensures SaveDisabled() <==> selected == Empty
    {
      HasSelectionIffNotEmpty(selected);
      !HasSelection(selected)
    }
  }
}
