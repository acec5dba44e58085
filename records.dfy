/** The records that travel between the server and the pages: the stored
    rows of `wardrobe_items` and `saved_outfits`, the item as the API returns
    it (tags decoded), request bodies, replies and list pages. A SQL NULL or
    a JSON `null`/missing field is `None`. */
module Records {
  import opened Wrappers
  import opened Seqs

  /** A row of `wardrobe_items` as stored; `tags` is the JSON text. */
  datatype ItemRow = ItemRow(
    id: string,
    title: string,
    category: Option<string>,
    imageUrl: Option<string>,
    tags: Option<string>,
    createdAt: int,
    updatedAt: int)

  /** An item as the API returns it, with its tags decoded. */
  datatype Item = Item(
    id: string,
    title: string,
    category: Option<string>,
    imageUrl: Option<string>,
    tags: seq<string>,
    createdAt: int,
    updatedAt: int)

  /** A row of `saved_outfits`; each slot holds an item id or NULL. */
  datatype Outfit = Outfit(
    id: string,
    name: Option<string>,
    shirtId: Option<string>,
    pantsId: Option<string>,
    accessoriesId: Option<string>,
    shoesId: Option<string>,
    notes: Option<string>,
    createdAt: int,
    updatedAt: int)

  /** The JSON body of an item POST or PUT; `tags` is `None` when the body's
      `tags` is not an array. */
  datatype ItemBody = ItemBody(
    title: Option<string>,
    category: Option<string>,
    imageUrl: Option<string>,
    tags: Option<seq<string>>)

  /** The JSON body of an outfit POST. */
  datatype OutfitBody = OutfitBody(
    name: Option<string>,
    shirtId: Option<string>,
    pantsId: Option<string>,
    accessoriesId: Option<string>,
    shoesId: Option<string>,
    notes: Option<string>)

  /** An HTTP reply: a status with a JSON value, or a status with `{error}`. */
  datatype Reply<T> = Ok(status: nat, value: T) | Fail(status: nat, error: string) {
    /** `response.ok` on the client. */
    predicate IsOk() {
      200 <= status < 300
    }
  }

  /** `{data, total, page, limit}` of a list reply. */
  datatype Page<T> = Page(data: seq<T>, total: int, page: int, limit: int)

  /** `item.category === c`: a NULL category matches no category. */
  predicate InCategory(it: Item, c: string) {
    it.category == Some(c)
  }

  /** `items.filter(item => item.category === c)`. */
  function ByCategory(items: seq<Item>, c: string): (r: seq<Item>)
    ensures |r| <= |items|
    ensures forall i :: 0 <= i < |r| ==> r[i] in items && InCategory(r[i], c)
    ensures forall i :: 0 <= i < |items| && InCategory(items[i], c) ==> items[i] in r
  {
    Filter(it => InCategory(it, c), items)
  }

  /** One of the four categories the pages know. */
  predicate InKnownCategory(it: Item) {
    InCategory(it, "shirts") || InCategory(it, "pants") || InCategory(it, "accessories") || InCategory(it, "shoes")
  }

  /** The four category filters and the items of any other (or no) category
      split the list: every item is counted exactly once. */
  lemma {:induction false} CategoriesPartition(items: seq<Item>)
    ensures |ByCategory(items, "shirts")| + |ByCategory(items, "pants")|
      + |ByCategory(items, "accessories")| + |ByCategory(items, "shoes")|
      + |Filter(it => !InKnownCategory(it), items)| == |items|
  {
    if items != [] {
      CategoriesPartition(items[1..]);
    }
  }

  /** `items[i]` is the first item whose id is `id`. */
  predicate IsFirstWithId(items: seq<Item>, i: int, id: string) {
    0 <= i < |items| && items[i].id == id && forall j :: 0 <= j < i ==> items[j].id != id
  }

  /** `items.find(item => item.id === id)`: the first item with that id. */
  function FindById(items: seq<Item>, id: string): (r: Option<Item>)
    ensures r.Some? ==> r.value in items && r.value.id == id
    ensures r.None? <==> forall i :: 0 <= i < |items| ==> items[i].id != id
    ensures r.Some? ==> exists i :: IsFirstWithId(items, i, id) && items[i] == r.value
  {
    if items == [] then None
    else if items[0].id == id then Some(items[0])
    else
      var r := FindById(items[1..], id);
      assert r.Some? ==> exists i :: IsFirstWithId(items, i, id) && items[i] == r.value by {
        if r.Some? {
          var k :| IsFirstWithId(items[1..], k, id) && items[1..][k] == r.value;
          assert items[k + 1] == r.value;
          forall j | 0 <= j < k + 1 ensures items[j].id != id {
            if j > 0 { assert items[j] == items[1..][j - 1]; }
          }
          assert IsFirstWithId(items, k + 1, id);
        }
      }
      r
  }

  /** The first item with an id is what a lookup of that id finds. */
  lemma FindFirst(items: seq<Item>, j: int)
    requires 0 <= j < |items| && IsFirstWithId(items, j, items[j].id)
    ensures FindById(items, items[j].id) == Some(items[j])
  {
    var found := FindById(items, items[j].id);
    var k :| IsFirstWithId(items, k, items[j].id) && items[k] == found.value;
    assert k == j;
  }

  /** `found` is what looking up `ref` in `items` yields: the first item
      with that id, or nothing when `ref` is `null` or no item has it. */
  ghost predicate Resolves(items: seq<Item>, ref: Option<string>, found: Option<Item>) {
    && (found.Some? ==> ref == Some(found.value.id) && exists j :: IsFirstWithId(items, j, ref.value) && items[j] == found.value)
    && (found.None? ==> ref.None? || forall j :: 0 <= j < |items| ==> items[j].id != ref.value)
  }

  /** `items.find(item => item.id === ref)` for a slot that may be NULL:
      a NULL slot finds nothing. */
  function Resolve(items: seq<Item>, ref: Option<string>): (r: Option<Item>)
    ensures ref.None? ==> r.None?
    ensures r.Some? ==> r.value in items && Some(r.value.id) == ref
    ensures r.None? && ref.Some? ==> forall i :: 0 <= i < |items| ==> items[i].id != ref.value
    ensures Resolves(items, ref, r)
  {
    if ref.None? then None else FindById(items, ref.value)
  }
}
