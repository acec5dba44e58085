/** The Express/SQLite server: the `wardrobe_items` and `saved_outfits`
    tables as two maps keyed by id, and one method per route handler. The
    uuid generator and `Date.now()` are parameters (`id`, `now`); a uuid that
    collides with a stored id fails on the PRIMARY KEY as SQLite would. The
    only column constraint is `title NOT NULL` on items: the server checks
    no category and no outfit slot. */
module Server {
  import opened Wrappers
  import opened Records
  import TagJson

  const NotFound := "Not found"
  const TitleNotNull := "SQLITE_CONSTRAINT: NOT NULL constraint failed: wardrobe_items.title"
  const ItemIdTaken := "SQLITE_CONSTRAINT: UNIQUE constraint failed: wardrobe_items.id"
  const OutfitIdTaken := "SQLITE_CONSTRAINT: UNIQUE constraint failed: saved_outfits.id"

  /** `row.tags ? JSON.parse(row.tags) : []`, with `[]` when the parse throws. */
  function DecodeTagsColumn(blob: Option<string>): (tags: seq<string>)
    ensures blob.None? || blob == Some([]) ==> tags == []
    ensures blob.Some? && TagJson.DecodeTags(blob.value).None? ==> tags == []
    ensures blob.Some? && TagJson.DecodeTags(blob.value).Some? ==> tags == TagJson.DecodeTags(blob.value).value
  {
    if blob.None? || blob.value == [] then []
    else
      match TagJson.DecodeTags(blob.value)
      case Some(t) => t
      case None => []
  }

  /** What POST and PUT store for the body's tags:
      `JSON.stringify(Array.isArray(tags) ? tags : [])`. */
  function StoredTags(tags: Option<seq<string>>): string {
    TagJson.EncodeTags(tags.GetOr([]))
  }

  /** Stored tags read back as the array that was sent (or `[]` for a
      non-array). */
  lemma StoredTagsReadBack(tags: Option<seq<string>>)
    ensures DecodeTagsColumn(Some(StoredTags(tags))) == tags.GetOr([])
  {
    var blob := StoredTags(tags);
    TagJson.TagsRoundTrip(tags.GetOr([]));
    assert blob[0] == '[';
  }

  /** `parseTags(row)`: no row stays no row; otherwise only `tags` changes,
      from the stored text to the decoded array. */
  function ParseTags(row: Option<ItemRow>): (r: Option<Item>)
    ensures r.Some? <==> row.Some?
    ensures row.Some? ==>
      var x, y := row.value, r.value;
      && y.id == x.id && y.title == x.title && y.category == x.category
      && y.imageUrl == x.imageUrl && y.createdAt == x.createdAt && y.updatedAt == x.updatedAt
      && y.tags == DecodeTagsColumn(x.tags)
  {
    match row
    case None => None
    case Some(x) => Some(Item(x.id, x.title, x.category, x.imageUrl, DecodeTagsColumn(x.tags), x.createdAt, x.updatedAt))
  }

  /** `ids` lists rows newest first: `ORDER BY created_at DESC`. */
  predicate NewestFirst(ids: seq<string>, created: map<string, int>) {
    && (forall i :: 0 <= i < |ids| ==> ids[i] in created)
    && forall i, j :: 0 <= i < j < |ids| ==> created[ids[i]] >= created[ids[j]]
  }

  predicate Distinct(ids: seq<string>) {
    forall i, j :: 0 <= i < j < |ids| ==> ids[i] != ids[j]
  }

  /** Puts `k` before the first row that is not newer than it. */
  function InsertNewest(k: string, ids: seq<string>, created: map<string, int>): (r: seq<string>)
    requires k in created && NewestFirst(ids, created)
    ensures NewestFirst(r, created) && |r| == |ids| + 1
    ensures forall x :: x in r <==> x in ids || x == k
  {
    if ids == [] || created[k] >= created[ids[0]] then
      NewestFirstCons(k, ids, created);
      [k] + ids
    else
      assert NewestFirst(ids[1..], created);
      var rest := InsertNewest(k, ids[1..], created);
      assert forall i :: 0 <= i < |rest| ==> created[rest[i]] <= created[ids[0]] by {
        forall i | 0 <= i < |rest| ensures created[rest[i]] <= created[ids[0]] {
          assert rest[i] in rest;
        }
      }
      NewestFirstCons(ids[0], rest, created);
      [ids[0]] + rest
  }

  /** Inserting a new key into a list without repeats gives a list without
      repeats. */
  lemma {:induction false} InsertNewestDistinct(k: string, ids: seq<string>, created: map<string, int>)
    requires k in created && NewestFirst(ids, created)
    requires Distinct(ids) && k !in ids
    ensures Distinct(InsertNewest(k, ids, created))
  {
    if ids == [] || created[k] >= created[ids[0]] {
    } else {
      assert NewestFirst(ids[1..], created);
      InsertNewestDistinct(k, ids[1..], created);
      var rest := InsertNewest(k, ids[1..], created);
      assert ids[0] !in rest;
      assert InsertNewest(k, ids, created) == [ids[0]] + rest;
    }
  }

  /** A row at least as new as every row of a newest-first list can go in
      front of it. */
  lemma NewestFirstCons(x: string, ids: seq<string>, created: map<string, int>)
    requires x in created && NewestFirst(ids, created)
    requires forall i :: 0 <= i < |ids| ==> created[ids[i]] <= created[x]
    ensures NewestFirst([x] + ids, created)
  {
  }

  /** The row order of `SELECT * … ORDER BY created_at DESC` over the rows
      `keys`: every key exactly once, newest first; rows with equal
      timestamps in any order. */
  method OrderNewestFirst(keys: set<string>, created: map<string, int>) returns (ids: seq<string>)
    requires keys <= created.Keys
    ensures NewestFirst(ids, created) && Distinct(ids)
    ensures |ids| == |keys|
    ensures forall k :: k in keys <==> k in ids
  {
    ids := [];
    var todo := keys;
    while todo != {}
      invariant todo <= keys
      invariant NewestFirst(ids, created) && Distinct(ids)
      invariant forall k :: k in ids <==> k in keys && k !in todo
      invariant |ids| + |todo| == |keys|
      decreases |todo|
    {
      var k :| k in todo;
      InsertNewestDistinct(k, ids, created);
      ids := InsertNewest(k, ids, created);
      todo := todo - {k};
    }
  }

  /** The item rows named by `ids`, in that order, decoded. */
  function DecodeRows(rows: map<string, ItemRow>, ids: seq<string>): seq<Item>
    requires forall i :: 0 <= i < |ids| ==> ids[i] in rows
  {
    seq(|ids|, i requires 0 <= i < |ids| => ParseTags(Some(rows[ids[i]])).value)
  }

  /** The outfit rows named by `ids`, in that order. */
  function OutfitRows(rows: map<string, Outfit>, ids: seq<string>): seq<Outfit>
    requires forall i :: 0 <= i < |ids| ==> ids[i] in rows
  {
    seq(|ids|, i requires 0 <= i < |ids| => rows[ids[i]])
  }

  /** The rows of the item table listed in the order of `ids` hold every
      row once, decoded, newest first. */
  lemma ItemListing(rows: map<string, ItemRow>, created: map<string, int>, ids: seq<string>, data: seq<Item>)
    requires forall id :: id in rows ==> rows[id].id == id
    requires forall id :: id in rows ==> id in created && created[id] == rows[id].createdAt
    requires NewestFirst(ids, created) && Distinct(ids)
    requires forall k :: k in rows <==> k in ids
    requires |data| == |ids| && forall i :: 0 <= i < |ids| ==> data[i] == ParseTags(Some(rows[ids[i]])).value
    ensures forall i :: 0 <= i < |data| ==> data[i].id in rows && Some(data[i]) == ParseTags(Some(rows[data[i].id]))
    ensures forall id :: id in rows ==> exists i :: 0 <= i < |data| && data[i].id == id
    ensures forall i, j :: 0 <= i < j < |data| ==> data[i].createdAt >= data[j].createdAt && data[i].id != data[j].id
  {
    forall i | 0 <= i < |ids|
      ensures data[i].id == ids[i] && data[i].createdAt == created[ids[i]]
    {
      assert rows[ids[i]].id == ids[i];
    }
    forall id | id in rows ensures exists i :: 0 <= i < |data| && data[i].id == id {
      var i :| 0 <= i < |ids| && ids[i] == id;
      assert data[i].id == id;
    }
    forall i, j | 0 <= i < j < |data| ensures data[i].createdAt >= data[j].createdAt && data[i].id != data[j].id {
      assert created[ids[i]] >= created[ids[j]];
    }
  }

  /** The same for the outfit table, whose rows are returned as stored. */
  lemma OutfitListing(rows: map<string, Outfit>, created: map<string, int>, ids: seq<string>, data: seq<Outfit>)
    requires forall id :: id in rows ==> rows[id].id == id
    requires forall id :: id in rows ==> id in created && created[id] == rows[id].createdAt
    requires NewestFirst(ids, created) && Distinct(ids)
    requires forall k :: k in rows <==> k in ids
    requires |data| == |ids| && forall i :: 0 <= i < |ids| ==> data[i] == rows[ids[i]]
    ensures forall i :: 0 <= i < |data| ==> data[i].id in rows && data[i] == rows[data[i].id]
    ensures forall id :: id in rows ==> exists i :: 0 <= i < |data| && data[i].id == id
    ensures forall i, j :: 0 <= i < j < |data| ==> data[i].createdAt >= data[j].createdAt && data[i].id != data[j].id
  {
    forall i | 0 <= i < |ids|
      ensures data[i].id == ids[i] && data[i].createdAt == created[ids[i]]
    {
      assert rows[ids[i]].id == ids[i];
    }
    forall id | id in rows ensures exists i :: 0 <= i < |data| && data[i].id == id {
      var i :| 0 <= i < |ids| && ids[i] == id;
      assert data[i].id == id;
    }
    forall i, j | 0 <= i < j < |data| ensures data[i].createdAt >= data[j].createdAt && data[i].id != data[j].id {
      assert created[ids[i]] >= created[ids[j]];
    }
  }

  class Store {
    var items: map<string, ItemRow>
    var outfits: map<string, Outfit>

    /** Every row is stored under its own id. */
    ghost predicate Valid()
      reads this
    {
      && (forall id :: id in items ==> items[id].id == id)
      && (forall id :: id in outfits ==> outfits[id].id == id)
    }

    constructor ()
      ensures Valid() && items == map[] && outfits == map[]
    {
      items := map[];
      outfits := map[];
    }

    /** GET /tables/wardrobe_items: every item, newest first, decoded; the
        query's page and limit are ignored. */
    method ListItems() returns (r: Page<Item>)
      requires Valid()
      ensures r.total == |r.data| && r.page == 1 && r.limit == |r.data|
      ensures |r.data| == |items|
      ensures forall i :: 0 <= i < |r.data| ==> r.data[i].id in items && Some(r.data[i]) == ParseTags(Some(items[r.data[i].id]))
      ensures forall id :: id in items ==> exists i :: 0 <= i < |r.data| && r.data[i].id == id
      ensures forall i, j :: 0 <= i < j < |r.data| ==> r.data[i].createdAt >= r.data[j].createdAt && r.data[i].id != r.data[j].id
    {
      var rows := items;
      var created := map id | id in rows :: rows[id].createdAt;
      var ids := OrderNewestFirst(rows.Keys, created);
      var data := DecodeRows(rows, ids);
      ItemListing(rows, created, ids, data);
      r := Page(data, |data|, 1, |data|);
    }

    /** GET /tables/wardrobe_items/:id. */
    method GetItem(id: string) returns (r: Reply<Item>)
      ensures id in items ==> r.Ok? && r.status == 200 && Some(r.value) == ParseTags(Some(items[id]))
      ensures id !in items ==> r == Fail(404, NotFound)
    {
      if id in items {
        r := Ok(200, ParseTags(Some(items[id])).value);
      } else {
        r := Fail(404, NotFound);
      }
    }

    /** POST /tables/wardrobe_items: stores the body as it is, with both
        timestamps `now`; the reply carries the tags that were sent. */
    method CreateItem(id: string, now: int, body: ItemBody) returns (r: Reply<Item>)
      requires Valid()
      modifies this
      ensures Valid() && outfits == old(outfits)
      ensures body.title.None? ==> r == Fail(500, TitleNotNull) && items == old(items)
      ensures body.title.Some? && id in old(items) ==> r == Fail(500, ItemIdTaken) && items == old(items)
      ensures body.title.Some? && id !in old(items) ==>
        && items == old(items)[id := ItemRow(id, body.title.value, body.category, body.imageUrl, Some(StoredTags(body.tags)), now, now)]
        && r == Ok(201, Item(id, body.title.value, body.category, body.imageUrl, body.tags.GetOr([]), now, now))
    {
      if body.title.None? {
        r := Fail(500, TitleNotNull);
      } else if id in items {
        r := Fail(500, ItemIdTaken);
      } else {
        var row := ItemRow(id, body.title.value, body.category, body.imageUrl, Some(StoredTags(body.tags)), now, now);
        items := items[id := row];
        StoredTagsReadBack(body.tags);
        r := Ok(201, ParseTags(Some(row)).value);
      }
    }

    /** PUT /tables/wardrobe_items/:id: replaces title, category, image and
        tags and stamps `updated_at`; `id` and `created_at` stay. */
    method UpdateItem(id: string, now: int, body: ItemBody) returns (r: Reply<Item>)
      requires Valid()
      modifies this
      ensures Valid() && outfits == old(outfits)
      ensures id !in old(items) ==> r == Fail(404, NotFound) && items == old(items)
      ensures id in old(items) && body.title.None? ==> r == Fail(500, TitleNotNull) && items == old(items)
      ensures id in old(items) && body.title.Some? ==>
        var was := old(items)[id];
        && items == old(items)[id := was.(title := body.title.value, category := body.category, imageUrl := body.imageUrl,
                                          tags := Some(StoredTags(body.tags)), updatedAt := now)]
        && r == Ok(200, Item(id, body.title.value, body.category, body.imageUrl, body.tags.GetOr([]), was.createdAt, now))
    {
      if id !in items {
        r := Fail(404, NotFound);
      } else if body.title.None? {
        r := Fail(500, TitleNotNull);
      } else {
        var row := items[id].(title := body.title.value, category := body.category, imageUrl := body.imageUrl,
                              tags := Some(StoredTags(body.tags)), updatedAt := now);
        items := items[id := row];
        StoredTagsReadBack(body.tags);
        r := Ok(200, ParseTags(Some(row)).value);
      }
    }

    /** DELETE /tables/wardrobe_items/:id: succeeds whether or not the row
        existed, and leaves every outfit as it was (no cascade). */
    method DeleteItem(id: string) returns (r: Reply<bool>)
      requires Valid()
      modifies this
      ensures Valid()
      ensures items == old(items) - {id} && outfits == old(outfits)
      ensures r == Ok(200, true)
    {
      items := items - {id};
      r := Ok(200, true);
    }

    /** GET /tables/saved_outfits: every outfit, newest first. */
    method ListOutfits() returns (r: Page<Outfit>)
      requires Valid()
      ensures r.total == |r.data| && r.page == 1 && r.limit == |r.data|
      ensures |r.data| == |outfits|
      ensures forall i :: 0 <= i < |r.data| ==> r.data[i].id in outfits && r.data[i] == outfits[r.data[i].id]
      ensures forall id :: id in outfits ==> exists i :: 0 <= i < |r.data| && r.data[i].id == id
      ensures forall i, j :: 0 <= i < j < |r.data| ==> r.data[i].createdAt >= r.data[j].createdAt && r.data[i].id != r.data[j].id
    {
      var rows := outfits;
      var created := map id | id in rows :: rows[id].createdAt;
      var ids := OrderNewestFirst(rows.Keys, created);
      var data := OutfitRows(rows, ids);
      OutfitListing(rows, created, ids, data);
      r := Page(data, |data|, 1, |data|);
    }

    /** GET /tables/saved_outfits/:id. */
    method GetOutfit(id: string) returns (r: Reply<Outfit>)
      ensures id in outfits ==> r == Ok(200, outfits[id])
      ensures id !in outfits ==> r == Fail(404, NotFound)
    {
      if id in outfits {
        r := Ok(200, outfits[id]);
      } else {
        r := Fail(404, NotFound);
      }
    }

    /** POST /tables/saved_outfits: stores name, slots and notes verbatim,
        with no check at all (an outfit with no slot is accepted). */
    method CreateOutfit(id: string, now: int, body: OutfitBody) returns (r: Reply<Outfit>)
      requires Valid()
      modifies this
      ensures Valid() && items == old(items)
      ensures id in old(outfits) ==> r == Fail(500, OutfitIdTaken) && outfits == old(outfits)
      ensures id !in old(outfits) ==>
        var o := Outfit(id, body.name, body.shirtId, body.pantsId, body.accessoriesId, body.shoesId, body.notes, now, now);
        outfits == old(outfits)[id := o] && r == Ok(201, o)
    {
      if id in outfits {
        r := Fail(500, OutfitIdTaken);
      } else {
        var o := Outfit(id, body.name, body.shirtId, body.pantsId, body.accessoriesId, body.shoesId, body.notes, now, now);
        outfits := outfits[id := o];
        r := Ok(201, o);
      }
    }

    /** DELETE /tables/saved_outfits/:id: succeeds whether or not it existed. */
    method DeleteOutfit(id: string) returns (r: Reply<bool>)
      requires Valid()
      modifies this
      ensures Valid()
      ensures outfits == old(outfits) - {id} && items == old(items)
      ensures r == Ok(200, true)
    {
      outfits := outfits - {id};
      r := Ok(200, true);
    }
  }
}
