/** What the pages and the server do together: an outfit saved from a
    selection shows that selection again, an uploaded item opened in the
    edit form and submitted unchanged asks for the same item, and deleting
    an item leaves a saved outfit with a placeholder where it was. */
module Flows {
  import opened Wrappers
  import opened Text
  import opened Records
  import opened TagInput
  import opened Server
  import opened OutfitBuilder
  import opened SavedOutfits
  import opened Gallery
  import opened Upload

  /** The row `POST /tables/saved_outfits` stores for a request body. */
  function StoredOutfit(id: string, now: int, b: OutfitBody): Outfit {
    Outfit(id, b.name, b.shirtId, b.pantsId, b.accessoriesId, b.shoesId, b.notes, now, now)
  }

  /** `it` is in the list and no earlier item has its id. */
  ghost predicate Listed(items: seq<Item>, it: Item) {
    exists j :: IsFirstWithId(items, j, it.id) && items[j] == it
  }

  /** An outfit saved from a selection whose items are in the list shows
      exactly that selection again, slot by slot. */
  lemma SavedSelectionResolves(sel: Selection, nameField: string, notesField: string, items: seq<Item>, id: string, now: int)
    requires BuildSaveRequest(sel, nameField, notesField).Success?
    requires forall k: Slot :: sel.Get(k).Some? ==> Listed(items, sel.Get(k).value)
    ensures var o := StoredOutfit(id, now, BuildSaveRequest(sel, nameField, notesField).value);
      SlotItems(o, items) == [sel.shirt, sel.pants, sel.accessories, sel.shoes]
  {
    var b := BuildSaveRequest(sel, nameField, notesField).value;
    var o := StoredOutfit(id, now, b);
    assert o.shirtId == SlotId(sel.shirt) && o.pantsId == SlotId(sel.pants) by {
      assert RequestSlot(b, Shirt) == SlotId(sel.Get(Shirt));
      assert RequestSlot(b, Pants) == SlotId(sel.Get(Pants));
    }
    assert o.accessoriesId == SlotId(sel.accessories) && o.shoesId == SlotId(sel.shoes) by {
      assert RequestSlot(b, Accessories) == SlotId(sel.Get(Accessories));
      assert RequestSlot(b, Shoes) == SlotId(sel.Get(Shoes));
    }
    SlotsResolve(o, sel, items);
  }

  /** Slots that hold the ids of listed items find those items. */
  lemma SlotsResolve(o: Outfit, sel: Selection, items: seq<Item>)
    requires o.shirtId == SlotId(sel.shirt) && o.pantsId == SlotId(sel.pants)
    requires o.accessoriesId == SlotId(sel.accessories) && o.shoesId == SlotId(sel.shoes)
    requires forall k: Slot :: sel.Get(k).Some? ==> Listed(items, sel.Get(k).value)
    ensures SlotItems(o, items) == [sel.shirt, sel.pants, sel.accessories, sel.shoes]
  {
    SelectedResolves(items, sel.Get(Shirt));
    SelectedResolves(items, sel.Get(Pants));
    SelectedResolves(items, sel.Get(Accessories));
    SelectedResolves(items, sel.Get(Shoes));
  }

  /** A selected item that is the first of its id in the list is found
      again by its id; an empty slot finds nothing. */
  lemma SelectedResolves(items: seq<Item>, v: Option<Item>)
    requires v.Some? ==> Listed(items, v.value)
    ensures Resolve(items, SlotId(v)) == v
  {
    if v.Some? {
      var j :| IsFirstWithId(items, j, v.value.id) && items[j] == v.value;
      FindFirst(items, j);
    }
  }

  /** The item the server returns for an accepted upload. */
  function UploadedItem(id: string, now: int, b: ItemBody): Item
    requires b.title.Some?
  {
    Item(id, b.title.value, b.category, b.imageUrl, b.tags.GetOr([]), now, now)
  }

  /** An uploaded item, opened in the edit form and submitted without
      change, asks the server for exactly the item that was uploaded. */
  lemma UploadThenEditUnchanged(image: Option<string>, titleField: string, categoryField: string, tagsField: string,
                                items: seq<Item>, j: int)
    requires SubmitRequest(image, titleField, categoryField, tagsField).Success?
    requires 0 <= j < |items| && IsFirstWithId(items, j, items[j].id)
    requires items[j] == UploadedItem(items[j].id, items[j].createdAt, SubmitRequest(image, titleField, categoryField, tagsField).value)
    ensures var f := FormFor(items[j]);
      EditRequest(items, Some(items[j].id), f.title, f.category, f.tags)
        == Success((items[j].id, SubmitRequest(image, titleField, categoryField, tagsField).value))
  {
    var it := items[j];
    IsBlankTrimmed(it.title);
    UnchangedEditKeepsItem(items, j);
  }

  /** A non-empty trimmed string is not blank. */
  lemma IsBlankTrimmed(s: string)
    requires IsTrimmed(s) && s != []
    ensures !IsBlank(s)
  {
    assert !IsJsWhitespace(s[0]);
  }

  /** Two items are uploaded and an outfit is saved from both; then the
      shirt is deleted. The outfit's detail view shows a placeholder for the
      shirt, the pants as uploaded, and placeholders for the two slots that
      were never chosen. */
  method DeletedItemLeavesPlaceholder(shirtId: string, pantsId: string, outfitId: string,
                                      shirtTitle: string, pantsTitle: string, outfitName: string,
                                      t1: int, t2: int, t3: int)
    returns (entries: seq<DetailEntry>)
    requires shirtId != pantsId
    requires !IsBlank(shirtTitle) && !IsBlank(pantsTitle) && !IsBlank(outfitName)
    ensures |entries| == 4
    ensures entries[0] == NotSelected("Shirt / T-shirt", "fa-tshirt")
    ensures entries[1].Shown? && entries[1].item.id == pantsId && entries[1].item.title == Trim(pantsTitle)
    ensures entries[2] == NotSelected("Accessories", "fa-gem") && entries[3] == NotSelected("Shoes", "fa-shoe-prints")
  {
    var store, shirt, pants, o := SaveShirtAndPants(shirtId, pantsId, outfitId, shirtTitle, pantsTitle, outfitName, t1, t2, t3);
    var deleted := store.DeleteItem(shirtId);
    DropKey(shirtId, pantsId, shirt, pants);
    entries := ViewPantsOnly(store, outfitId, o, shirtId, pants);
  }

  /** The saved outfits page opens an outfit of a shirt that is gone and
      pants that are the only item left. */
  method ViewPantsOnly(store: Store, outfitId: string, o: Outfit, shirtId: string, pants: ItemRow)
    returns (entries: seq<DetailEntry>)
    requires store.Valid() && store.items == map[pants.id := pants] && store.outfits == map[outfitId := o]
    requires o.shirtId == Some(shirtId) && shirtId != pants.id && o.pantsId == Some(pants.id)
    requires o.accessoriesId.None? && o.shoesId.None?
    ensures |entries| == 4
    ensures entries[0] == NotSelected("Shirt / T-shirt", "fa-tshirt")
    ensures entries[1].Shown? && entries[1].item.id == pants.id && entries[1].item.title == pants.title
    ensures entries[2] == NotSelected("Accessories", "fa-gem") && entries[3] == NotSelected("Shoes", "fa-shoe-prints")
  {
    var loaded;
    entries, loaded := ViewOutfit(store, outfitId);
    OnlyPantsLeft(store.items, loaded, o, shirtId, pants.id);
  }

  /** Two items are uploaded, the outfit builder picks both, and the outfit
      is saved: the store holds the two rows and the one outfit. */
  method SaveShirtAndPants(shirtId: string, pantsId: string, outfitId: string,
                           shirtTitle: string, pantsTitle: string, outfitName: string,
                           t1: int, t2: int, t3: int)
    returns (store: Store, shirt: ItemRow, pants: ItemRow, o: Outfit)
    requires shirtId != pantsId
    requires !IsBlank(shirtTitle) && !IsBlank(pantsTitle) && !IsBlank(outfitName)
    ensures fresh(store) && store.Valid()
    ensures store.items == map[shirtId := shirt, pantsId := pants]
    ensures pants.id == pantsId && pants.title == Trim(pantsTitle)
    ensures store.outfits == map[outfitId := o]
    ensures o.shirtId == Some(shirtId) && o.pantsId == Some(pantsId) && o.accessoriesId.None? && o.shoesId.None?
  {
    store, shirt, pants := UploadTwo(shirtId, pantsId, shirtTitle, pantsTitle, t1, t2);
    var sel := PickShirtAndPants(store, shirtId, pantsId);
    o := SaveSelection(store, sel, outfitName, outfitId, t3);
  }

  /** The outfit builder lists the store's items and picks a stored shirt
      and stored pants by their ids. */
  method PickShirtAndPants(store: Store, shirtId: string, pantsId: string) returns (sel: Selection)
    requires store.Valid()
    requires shirtId in store.items && store.items[shirtId].category == Some("shirts")
    requires pantsId in store.items && store.items[pantsId].category == Some("pants")
    ensures sel.shirt.Some? && sel.shirt.value.id == shirtId
    ensures sel.pants.Some? && sel.pants.value.id == pantsId
    ensures sel.accessories.None? && sel.shoes.None?
  {
    var page := store.ListItems();
    ListedRow(store.items, page.data, shirtId);
    ListedRow(store.items, page.data, pantsId);
    sel := ChooseTwo(page.data, shirtId, pantsId);
  }

  /** Deleting the first of two keys leaves the second. */
  lemma DropKey<V>(a: string, b: string, x: V, y: V)
    requires a != b
    ensures map[a := x, b := y] - {a} == map[b := y]
  {
  }

  /** A stored row is in the item list with its category. */
  lemma ListedRow(rows: map<string, ItemRow>, data: seq<Item>, id: string)
    requires id in rows
    requires forall i :: 0 <= i < |data| ==> data[i].id in rows && Some(data[i]) == Server.ParseTags(Some(rows[data[i].id]))
    requires forall id :: id in rows ==> exists i :: 0 <= i < |data| && data[i].id == id
    ensures exists i :: 0 <= i < |data| && data[i].id == id && data[i].category == rows[id].category
  {
    var i :| 0 <= i < |data| && data[i].id == id;
    assert Some(data[i]) == Server.ParseTags(Some(rows[id]));
  }

  /** An outfit whose shirt is gone from a store that holds only its pants
      shows a placeholder, the pants, and two more placeholders. */
  lemma OnlyPantsLeft(rows: map<string, ItemRow>, items: seq<Item>, o: Outfit, shirtId: string, pantsId: string)
    requires rows.Keys == {pantsId} && shirtId != pantsId
    requires |items| == |rows|
    requires forall i :: 0 <= i < |items| ==> items[i].id in rows && Some(items[i]) == Server.ParseTags(Some(rows[items[i].id]))
    requires o.shirtId == Some(shirtId) && o.pantsId == Some(pantsId) && o.accessoriesId.None? && o.shoesId.None?
    ensures var e := DetailEntries(o, items);
      && |e| == 4
      && e[0] == NotSelected("Shirt / T-shirt", "fa-tshirt")
      && e[1].Shown? && e[1].item.id == pantsId && e[1].item.title == rows[pantsId].title
      && e[2] == NotSelected("Accessories", "fa-gem") && e[3] == NotSelected("Shoes", "fa-shoe-prints")
  {
    assert |rows| == 1 by { assert rows.Keys == {pantsId}; }
    var pants := items[0];
    assert items == [pants] && pants.id == pantsId;
    assert IsFirstWithId(items, 0, pantsId);
    FindFirst(items, 0);
  }

  /** The outfit builder saves the selection under a name, and the server
      stores it as the only outfit. */
  method SaveSelection(store: Store, sel: Selection, outfitName: string, outfitId: string, now: int)
    returns (o: Outfit)
    requires store.Valid() && store.outfits == map[] && !IsBlank(outfitName) && sel != Empty
    modifies store
    ensures store.Valid() && store.items == old(store.items) && store.outfits == map[outfitId := o]
    ensures o.shirtId == SlotId(sel.shirt) && o.pantsId == SlotId(sel.pants)
    ensures o.accessoriesId == SlotId(sel.accessories) && o.shoesId == SlotId(sel.shoes)
  {
    var request := BuildSaveRequest(sel, outfitName, "");
    assert RequestSlot(request.value, Shirt) == SlotId(sel.Get(Shirt));
    assert RequestSlot(request.value, Pants) == SlotId(sel.Get(Pants));
    assert RequestSlot(request.value, Accessories) == SlotId(sel.Get(Accessories));
    assert RequestSlot(request.value, Shoes) == SlotId(sel.Get(Shoes));
    var saved := store.CreateOutfit(outfitId, now, request.value);
    o := store.outfits[outfitId];
  }

  /** The upload page sends a shirt and a pair of pants to an empty store. */
  method UploadTwo(shirtId: string, pantsId: string, shirtTitle: string, pantsTitle: string, t1: int, t2: int)
    returns (store: Store, shirt: ItemRow, pants: ItemRow)
    requires shirtId != pantsId
    requires !IsBlank(shirtTitle) && !IsBlank(pantsTitle)
    ensures fresh(store) && store.Valid() && store.outfits == map[]
    ensures store.items == map[shirtId := shirt, pantsId := pants]
    ensures shirt.category == Some("shirts")
    ensures pants.id == pantsId && pants.category == Some("pants") && pants.title == Trim(pantsTitle)
  {
    store := new Store();
    var upload := new UploadPage();
    shirt := UploadOne(store, upload, shirtId, t1, shirtTitle, "shirts", "data:image/png;base64,AAAA");
    assert store.items == map[shirtId := shirt];
    assert pantsId !in store.items;
    pants := UploadOne(store, upload, pantsId, t2, pantsTitle, "pants", "data:image/png;base64,BBBB");
  }

  /** One item through the upload page: a PNG image is chosen, the form is
      submitted, the server stores the item as `row`, and the form is reset. */
  method UploadOne(store: Store, upload: UploadPage, id: string, now: int, title: string, category: string, image: string)
    returns (row: ItemRow)
    requires store.Valid() && id !in store.items && !IsBlank(title) && category != [] && image != []
    modifies store, upload
    ensures store.Valid() && store.outfits == old(store.outfits)
    ensures store.items == old(store.items)[id := row]
    ensures row.id == id && row.category == Some(category) && row.title == Trim(title)
    ensures upload.selectedImageData == None
  {
    assert "image/png"[..6] == "image/";
    var rejected := upload.HandleImageUpload(1000, "image/png", Some(image));
    assert upload.selectedImageData == Some(image);
    var body := upload.HandleFormSubmit(title, category, "");
    assert body.Success? && body.value.title == Some(Trim(title)) && body.value.category == Some(category);
    var created := store.CreateItem(id, now, body.value);
    row := store.items[id];
    upload.ClearImagePreview();
  }

  /** The outfit builder loads the list and picks the shirt and the pants. */
  method ChooseTwo(listed: seq<Item>, shirtId: string, pantsId: string) returns (sel: Selection)
    requires exists i :: 0 <= i < |listed| && listed[i].id == shirtId && InCategory(listed[i], "shirts")
    requires exists i :: 0 <= i < |listed| && listed[i].id == pantsId && InCategory(listed[i], "pants")
    ensures sel.shirt.Some? && sel.shirt.value.id == shirtId
    ensures sel.pants.Some? && sel.pants.value.id == pantsId
    ensures sel.accessories.None? && sel.shoes.None?
  {
    var shirt :| 0 <= shirt < |listed| && listed[shirt].id == shirtId && InCategory(listed[shirt], "shirts");
    var pants :| 0 <= pants < |listed| && listed[pants].id == pantsId && InCategory(listed[pants], "pants");
    var builder := new Builder();
    builder.LoadAllItems(listed);
    assert listed[shirt] in builder.catalogue.Of(Shirt) && listed[pants] in builder.catalogue.Of(Pants);
    SelectListed(builder, listed[shirt], Shirt);
    SelectListed(builder, listed[pants], Pants);
    sel := builder.selected;
  }

  /** A click on an item of slot `k`'s bucket: that slot gets an item with
      the clicked item's id, the other slots keep theirs. */
  method SelectListed(builder: Builder, it: Item, k: Slot)
    requires it in builder.catalogue.Of(k)
    modifies builder
    ensures builder.catalogue == old(builder.catalogue)
    ensures builder.selected.Get(k).Some? && builder.selected.Get(k).value.id == it.id
    ensures builder.selected == old(builder.selected).Set(k, builder.selected.Get(k))
  {
    var thrown := builder.SelectItem(it.id, CategoryOf(k));
    var s := builder.selected;
    assert s.Get(Shirt) == s.shirt && s.Get(Pants) == s.pants && s.Get(Accessories) == s.accessories && s.Get(Shoes) == s.shoes;
  }

  /** The saved outfits page loads both lists and opens one outfit; the
      tiles and the item list they were resolved against. */
  method ViewOutfit(store: Store, outfitId: string) returns (entries: seq<DetailEntry>, loaded: seq<Item>)
    requires store.Valid() && outfitId in store.outfits
    ensures |loaded| == |store.items|
    ensures forall i :: 0 <= i < |loaded| ==> loaded[i].id in store.items && Some(loaded[i]) == Server.ParseTags(Some(store.items[loaded[i].id]))
    ensures entries == DetailEntries(store.outfits[outfitId], loaded)
  {
    var outfits := store.ListOutfits();
    var items := store.ListItems();
    entries := OpenLoaded(outfits, items, store.outfits[outfitId]);
    loaded := items.data;
  }

  /** The saved outfits page with both lists loaded opens an outfit that is
      the only one listed under its id. */
  method OpenLoaded(outfits: Page<Outfit>, items: Page<Item>, o: Outfit) returns (entries: seq<DetailEntry>)
    requires exists i :: 0 <= i < |outfits.data| && outfits.data[i].id == o.id
    requires forall i :: 0 <= i < |outfits.data| && outfits.data[i].id == o.id ==> outfits.data[i] == o
    ensures entries == DetailEntries(o, items.data)
  {
    var viewer := new OutfitsPage();
    viewer.LoadData(outfits, items);
    var view := viewer.OpenViewModal(o.id);
    entries := view.value.entries;
  }

  /** The server takes any category: an item filed under `hats` is stored
      and returned with 201. */
  method HatsAccepted(id: string, now: int) returns (r: Reply<Item>)
    ensures r.Ok? && r.status == 201 && r.value.id == id && r.value.category == Some("hats")
  {
    var store := new Store();
    r := store.CreateItem(id, now, ItemBody(Some("Wool cap"), Some("hats"), None, None));
  }

  /** The server takes an outfit with no slot at all; only the builder page
      refuses to send one. */
  method EmptyOutfitAccepted(id: string, now: int) returns (r: Reply<Outfit>)
    ensures r.Ok? && r.status == 201
    ensures r.value.shirtId.None? && r.value.pantsId.None? && r.value.accessoriesId.None? && r.value.shoesId.None?
  {
    var store := new Store();
    r := store.CreateOutfit(id, now, OutfitBody(Some("Nothing"), None, None, None, None, None));
  }

  /** An item created under a fresh id is read back by that id with the
      title, category, image and tags that were sent. */
  method CreateThenGet(store: Store, id: string, now: int, body: ItemBody) returns (r: Reply<Item>)
    requires store.Valid() && id !in store.items && body.title.Some?
    modifies store
    ensures r == Ok(200, Item(id, body.title.value, body.category, body.imageUrl, body.tags.GetOr([]), now, now))
  {
    var created := store.CreateItem(id, now, body);
    r := store.GetItem(id);
    StoredTagsReadBack(body.tags);
  }
}
