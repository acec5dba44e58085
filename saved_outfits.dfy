/** The saved outfits page: each outfit's four slot ids are looked up in the
    item list to build the card preview and the detail view; a slot that is
    `null` or names an item that no longer exists shows a placeholder and
    never an error. The page remembers the outfit whose details are open. */
module SavedOutfits {
  import opened Wrappers
  import opened Text
  import opened Records

  /** The four `allItems.find(item => item.id === outfit.<slot>_id)`
      lookups: a slot finds the first item with its id, or nothing when it
      is `null` or no item has that id. */
  function SlotItems(o: Outfit, items: seq<Item>): (r: seq<Option<Item>>)
    ensures |r| == 4
    ensures Resolves(items, o.shirtId, r[0]) && Resolves(items, o.pantsId, r[1])
    ensures Resolves(items, o.accessoriesId, r[2]) && Resolves(items, o.shoesId, r[3])
    ensures forall i :: 0 <= i < 4 && r[i].Some? ==> r[i].value in items
  {
    [Resolve(items, o.shirtId), Resolve(items, o.pantsId), Resolve(items, o.accessoriesId), Resolve(items, o.shoesId)]
  }

  /** The items that were found, in slot order. */
  function Present(found: seq<Option<Item>>): (r: seq<Item>)
    ensures |r| <= |found|
    ensures forall i :: 0 <= i < |r| ==> Some(r[i]) in found
    ensures forall i :: 0 <= i < |found| && found[i].Some? ==> found[i].value in r
  {
    if found == [] then []
    else (if found[0].Some? then [found[0].value] else []) + Present(found[1..])
  }

  /** `previewItems` of an outfit card: the found slot items, shirt first,
      at most four, each one an item of the list. */
  function PreviewItems(o: Outfit, items: seq<Item>): (r: seq<Item>)
    ensures |r| <= 4
    ensures forall i :: 0 <= i < |r| ==> r[i] in items
  {
    var found := SlotItems(o, items);
    var r := Present(found);
    assert forall i :: 0 <= i < |r| ==> r[i] in items by {
      forall i | 0 <= i < |r| ensures r[i] in items {
        var s :| 0 <= s < |found| && found[s] == Some(r[i]);
      }
    }
    r
  }

  /** One tile of the detail view: the item with its slot label, or the
      slot's label and icon over "Not selected". */
  datatype DetailEntry = Shown(caption: string, item: Item) | NotSelected(caption: string, icon: string)

  const SlotLabels: seq<string> := ["Shirt / T-shirt", "Pants / Joggers", "Accessories", "Shoes"]
  const SlotIcons: seq<string> := ["fa-tshirt", "fa-socks", "fa-gem", "fa-shoe-prints"]

  function Entry(caption: string, icon: string, found: Option<Item>): DetailEntry {
    match found
    case Some(it) => Shown(caption, it)
    case None => NotSelected(caption, icon)
  }

  /** The tiles of `openViewModal`: always four, one per slot in order;
      a slot shows its item exactly when the lookup found one. */
  function DetailEntries(o: Outfit, items: seq<Item>): (r: seq<DetailEntry>)
    ensures |r| == 4
    ensures forall i :: 0 <= i < 4 ==> r[i].caption == SlotLabels[i]
    ensures forall i :: 0 <= i < 4 ==> (r[i].Shown? <==> SlotItems(o, items)[i].Some?)
    ensures forall i :: 0 <= i < 4 && r[i].Shown? ==> r[i].item == SlotItems(o, items)[i].value
    ensures forall i :: 0 <= i < 4 && r[i].NotSelected? ==> r[i].icon == SlotIcons[i]
  {
    var found := SlotItems(o, items);
    seq(4, i requires 0 <= i < 4 => Entry(SlotLabels[i], SlotIcons[i], found[i]))
  }

  /** The items of the tiles that show one, in order. */
  function ShownItems(entries: seq<DetailEntry>): seq<Item> {
    if entries == [] then []
    else (if entries[0].Shown? then [entries[0].item] else []) + ShownItems(entries[1..])
  }

  lemma {:induction false} ShownItemsArePresent(entries: seq<DetailEntry>, found: seq<Option<Item>>)
    requires |entries| == |found|
    requires forall i :: 0 <= i < |found| ==> (entries[i].Shown? <==> found[i].Some?)
    requires forall i :: 0 <= i < |found| && entries[i].Shown? ==> entries[i].item == found[i].value
    ensures ShownItems(entries) == Present(found)
  {
    if entries != [] {
      ShownItemsArePresent(entries[1..], found[1..]);
    }
  }

  /** The card and the detail view agree: the card's preview pictures are
      exactly the detail tiles that show an item, in the same order. */
  lemma PreviewMatchesDetails(o: Outfit, items: seq<Item>)
    ensures PreviewItems(o, items) == ShownItems(DetailEntries(o, items))
  {
    ShownItemsArePresent(DetailEntries(o, items), SlotItems(o, items));
  }

  /** `outfit.notes && outfit.notes.trim()`: the notes box is shown exactly
      when there are notes with a character that is not whitespace. */
  function NotesShown(notes: Option<string>): (shown: bool)
    ensures shown <==> notes.Some? && exists i :: 0 <= i < |notes.value| && !IsJsWhitespace(notes.value[i])
  {
    notes.Some? && notes.value != [] && Trim(notes.value) != []
  }

  /** The outfit count line: the number, " saved outfit", and an `s`
      exactly when the number is not one. */
  function OutfitCountLabel(n: nat): (text: string)
    ensures StartsWith(text, NatToString(n) + " saved outfit")
    ensures |text| == |NatToString(n) + " saved outfit"| + (if n == 1 then 0 else 1)
    ensures text[|text| - 1] == 's' <==> n != 1
  {
    CountLabel(n, "saved outfit")
  }

  /** `outfits[i]` is the first outfit whose id is `id`. */
  predicate IsFirstOutfit(outfits: seq<Outfit>, i: int, id: string) {
    0 <= i < |outfits| && outfits[i].id == id && forall j :: 0 <= j < i ==> outfits[j].id != id
  }

  /** `allOutfits.find(o => o.id === id)`: the first outfit with that id. */
  function FindOutfit(outfits: seq<Outfit>, id: string): (r: Option<Outfit>)
    ensures r.None? <==> forall i :: 0 <= i < |outfits| ==> outfits[i].id != id
    ensures r.Some? ==> exists i :: IsFirstOutfit(outfits, i, id) && outfits[i] == r.value
  {
    if outfits == [] then None
    else if outfits[0].id == id then
      assert IsFirstOutfit(outfits, 0, id);
      Some(outfits[0])
    else
      var r := FindOutfit(outfits[1..], id);
      assert r.Some? ==> exists i :: IsFirstOutfit(outfits, i, id) && outfits[i] == r.value by {
        if r.Some? {
          var k :| IsFirstOutfit(outfits[1..], k, id) && outfits[1..][k] == r.value;
          forall j | 0 <= j < k + 1 ensures outfits[j].id != id {
            if j > 0 { assert outfits[j] == outfits[1..][j - 1]; }
          }
          assert IsFirstOutfit(outfits, k + 1, id);
        }
      }
      r
  }

  /** What the detail view shows for one outfit. */
  datatype OutfitView = OutfitView(name: Option<string>, entries: seq<DetailEntry>, notesShown: bool)

  class OutfitsPage {
    var allOutfits: seq<Outfit>
    var allItems: seq<Item>
    var currentViewingOutfitId: Option<string>

    constructor ()
      ensures allOutfits == [] && allItems == [] && currentViewingOutfitId == None
    {
      allOutfits := [];
      allItems := [];
      currentViewingOutfitId := None;
    }

    /** `loadData` with the pages the two API reads resolved to; the open
        outfit is not touched. */
    method LoadData(outfits: Page<Outfit>, items: Page<Item>)
      modifies this
      ensures allOutfits == outfits.data && allItems == items.data
      ensures currentViewingOutfitId == old(currentViewingOutfitId)
    {
      allOutfits := outfits.data;
      allItems := items.data;
    }

    /** `openViewModal(outfitId)`: an id that names no loaded outfit changes
        nothing and opens nothing; otherwise that outfit becomes the one being
        viewed and its name, four tiles and notes rule are shown. */
    method OpenViewModal(outfitId: string) returns (view: Option<OutfitView>)
      modifies this
      ensures allOutfits == old(allOutfits) && allItems == old(allItems)
      ensures view.None? <==> forall i :: 0 <= i < |allOutfits| ==> allOutfits[i].id != outfitId
      ensures view.None? ==> currentViewingOutfitId == old(currentViewingOutfitId)
      ensures view.Some? ==>
        var o := FindOutfit(allOutfits, outfitId).value;
        && currentViewingOutfitId == Some(outfitId)
        && view.value == OutfitView(o.name, DetailEntries(o, allItems), NotesShown(o.notes))
    {
      var outfit := FindOutfit(allOutfits, outfitId);
      if outfit.None? {
        return None;
      }
      currentViewingOutfitId := Some(outfitId);
      var o := outfit.value;
      view := Some(OutfitView(o.name, DetailEntries(o, allItems), NotesShown(o.notes)));
    }

    /** `closeViewModalFn`: no outfit is being viewed any more. */
    method CloseViewModal()
      modifies this
      ensures allOutfits == old(allOutfits) && allItems == old(allItems)
      ensures currentViewingOutfitId == None
    {
      currentViewingOutfitId := None;
    }

    /** The outfit `handleDeleteOutfit` asks the server to delete: none
        when no outfit is being viewed (or its id is empty, which is falsy)
        or the user does not confirm. */
    method DeleteTarget(confirmed: bool) returns (target: Option<string>)
      ensures target.Some? <==> confirmed && currentViewingOutfitId.Some? && currentViewingOutfitId.value != []
      ensures target.Some? ==> target == currentViewingOutfitId
    {
      if currentViewingOutfitId.None? || currentViewingOutfitId.value == [] {
        return None;
      }
      if !confirmed {
        return None;
      }
      target := currentViewingOutfitId;
    }
  }
}
