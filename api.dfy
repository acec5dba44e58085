/** The client's API service and its `Utils` helpers: the base URL, the
    item and outfit reads with their fallbacks when a request fails, the
    per-category statistics, and the display name and icon of a category.
    A request is given as the reply it got: `None` when `fetch` itself
    failed, `Some(reply)` otherwise. */
module Api {
  import opened Wrappers
  import opened Text
  import opened Seqs
  import opened Records

  const DefaultBaseUrl := "http://localhost:3000/"

  /** `BASE_URL` from `window.API_BASE_URL` (`None` when it is not set; an
      empty override is falsy and counts as not set). */
  function BaseUrl(override: Option<string>): (url: string)
    ensures EndsWith(url, "/")
    ensures override.None? || override == Some([]) ==> url == DefaultBaseUrl
    ensures override.Some? && override.value != [] ==>
      && StartsWith(url, override.value)
      && |url| <= |override.value| + 1
      && (EndsWith(override.value, "/") <==> url == override.value)
  {
    if override.Some? && override.value != [] then
      if EndsWith(override.value, "/") then override.value
      else
        var url := override.value + "/";
        assert url[..|override.value|] == override.value;
        url
    else DefaultBaseUrl
  }

  /** Normalising a base URL that is already normalised changes nothing. */
  lemma BaseUrlIdempotent(override: Option<string>)
    ensures BaseUrl(Some(BaseUrl(override))) == BaseUrl(override)
  {
  }

  /** `API.getAllItems(category, page, limit)`: the server's page, narrowed
      to one category when a (non-empty) category is given; a failed request
      gives an empty first page with the requested limit. */
  function GetAllItems(fetched: Option<Page<Item>>, category: Option<string>, limit: int): (r: Page<Item>)
    ensures fetched.None? ==> r == Page([], 0, 1, limit)
    ensures fetched.Some? && (category.None? || category == Some([])) ==> r == fetched.value
    ensures fetched.Some? && category.Some? && category.value != [] ==>
      && r.total == |r.data| && r.page == fetched.value.page && r.limit == fetched.value.limit
      && (forall i :: 0 <= i < |r.data| ==> r.data[i] in fetched.value.data && InCategory(r.data[i], category.value))
      && (forall i :: 0 <= i < |fetched.value.data| && InCategory(fetched.value.data[i], category.value) ==>
            fetched.value.data[i] in r.data)
  {
    match fetched
    case None => Page([], 0, 1, limit)
    case Some(p) =>
      if category.Some? && category.value != [] then
        var data := ByCategory(p.data, category.value);
        p.(data := data, total := |data|)
      else p
  }

  /** The category narrowing keeps the server's order. */
  lemma GetAllItemsKeepsOrder(p: Page<Item>, category: Option<string>, limit: int)
    ensures IsSubsequence(GetAllItems(Some(p), category, limit).data, p.data)
  {
    if category.Some? && category.value != [] {
      FilterIsSubsequence(it => InCategory(it, category.value), p.data);
    } else {
      SubsequenceSelf(p.data);
    }
  }

  /** Narrowing an already narrowed page to the same category changes nothing. */
  lemma {:induction false} GetAllItemsIdempotent(p: Page<Item>, category: Option<string>, limit: int)
    ensures var once := GetAllItems(Some(p), category, limit);
      GetAllItems(Some(once), category, limit) == once
  {
    if category.Some? && category.value != [] {
      FilterIdempotent(it => InCategory(it, category.value), p.data);
    }
  }

  /** `API.getAllOutfits()`: the server's page, or an empty first page. */
  function GetAllOutfits(fetched: Option<Page<Outfit>>, limit: int): (r: Page<Outfit>)
    ensures fetched.None? ==> r == Page([], 0, 1, limit)
    ensures fetched.Some? ==> r == fetched.value
  {
    fetched.GetOr(Page([], 0, 1, limit))
  }

  /** `API.getItemById` and `API.getOutfitById`: the JSON of a 2xx reply,
      and `null` for a failed request or any other status. */
  function FetchOne<T>(reply: Option<Reply<T>>): (r: Option<T>)
    ensures r.Some? <==> reply.Some? && reply.value.Ok? && reply.value.IsOk()
    ensures r.Some? ==> r.value == reply.value.value
  {
    match reply
    case Some(Ok(status, v)) => if 200 <= status < 300 then Some(v) else None
    case _ => None
  }

  /** The object `API.getStats()` resolves to. */
  datatype Stats = Stats(totalItems: nat, totalOutfits: nat, shirts: nat, pants: nat, accessories: nat, shoes: nat)

  /** `API.getStats()` over the two lists it loads: each category count is
      the number of items of that category, and together they never exceed
      the number of items (items of another category or none are counted in
      no bucket). */
  function GetStats(items: Page<Item>, outfits: Page<Outfit>): (s: Stats)
    ensures s.totalItems == |items.data| && s.totalOutfits == |outfits.data|
    ensures s.shirts == |ByCategory(items.data, "shirts")| && s.pants == |ByCategory(items.data, "pants")|
    ensures s.accessories == |ByCategory(items.data, "accessories")| && s.shoes == |ByCategory(items.data, "shoes")|
    ensures s.shirts + s.pants + s.accessories + s.shoes <= s.totalItems
    ensures s.shirts + s.pants + s.accessories + s.shoes == s.totalItems <==>
      forall i :: 0 <= i < |items.data| ==> InKnownCategory(items.data[i])
  {
    var xs := items.data;
    CategoriesPartition(xs);
    var others := Filter(it => !InKnownCategory(it), xs);
    assert |others| == 0 <==> forall i :: 0 <= i < |xs| ==> InKnownCategory(xs[i]) by {
      if |others| != 0 {
        assert others[0] in xs && !InKnownCategory(others[0]);
      }
    }
    Stats(|xs|, |outfits.data|,
      |ByCategory(xs, "shirts")|, |ByCategory(xs, "pants")|,
      |ByCategory(xs, "accessories")|, |ByCategory(xs, "shoes")|)
  }

  /** The own properties of the two lookup tables; any other key reads
      through to whatever the prototype chain holds. */
  function KnownName(category: string): Option<string> {
    if category == "shirts" then Some("Shirts & T-shirts")
    else if category == "pants" then Some("Pants & Joggers")
    else if category == "accessories" then Some("Accessories")
    else if category == "shoes" then Some("Shoes")
    else None
  }

  function KnownIcon(category: string): Option<string> {
    if category == "shirts" then Some("fa-tshirt")
    else if category == "pants" then Some("fa-socks")
    else if category == "accessories" then Some("fa-gem")
    else if category == "shoes" then Some("fa-shoe-prints")
    else None
  }

  /** The members every object literal inherits from `Object.prototype`;
      reading one of them out of `names` or `icons` finds a function (or
      the prototype object itself), which is truthy. */
  const InheritedMembers: set<string> := {
    "constructor", "hasOwnProperty", "isPrototypeOf", "propertyIsEnumerable",
    "toLocaleString", "toString", "valueOf", "__proto__",
    "__defineGetter__", "__defineSetter__", "__lookupGetter__", "__lookupSetter__"}

  /** A value a page may put into its markup: a string, or a member found on
      the prototype chain (rendered as its source text). */
  datatype Shown = Text(text: string) | Member(name: string)

  /** `names[category] || category`, as written: a plain object is used as
      the table, so an inherited member's name finds that member. */
  function CategoryNameAsWritten(category: string): (r: Shown)
    ensures KnownName(category).Some? ==> r == Text(KnownName(category).value)
    ensures KnownName(category).None? && category !in InheritedMembers ==> r == Text(category)
  {
    if KnownName(category).Some? then Text(KnownName(category).value)
    else if category in InheritedMembers then Member(category)
    else Text(category)
  }

  /** `icons[category] || 'fa-question'`, as written. */
  function CategoryIconAsWritten(category: string): (r: Shown)
    ensures KnownIcon(category).Some? ==> r == Text(KnownIcon(category).value)
    ensures KnownIcon(category).None? && category !in InheritedMembers ==> r == Text("fa-question")
  {
    if KnownIcon(category).Some? then Text(KnownIcon(category).value)
    else if category in InheritedMembers then Member(category)
    else Text("fa-question")
  }

  /** A category named after an inherited member is not shown unchanged:
      the page title shows a function instead of the category, and the icon
      class is that function's text instead of `fa-question`. */
  lemma InheritedCategoryLeaks()
    ensures CategoryNameAsWritten("constructor") != Text("constructor")
    ensures CategoryIconAsWritten("toString") != Text("fa-question")
  {
  }

  /** `Utils.getCategoryName` with the table read as own properties only:
      the four categories get their display names, any other text is shown
      unchanged. */
  function CategoryName(category: string): (r: string)
    ensures category == "shirts" ==> r == "Shirts & T-shirts"
    ensures category == "pants" ==> r == "Pants & Joggers"
    ensures category == "accessories" ==> r == "Accessories"
    ensures category == "shoes" ==> r == "Shoes"
    ensures category !in {"shirts", "pants", "accessories", "shoes"} ==> r == category
    ensures KnownName(category).Some? || category !in InheritedMembers ==> CategoryNameAsWritten(category) == Text(r)
  {
    KnownName(category).GetOr(category)
  }

  /** `Utils.getCategoryIcon` with the table read as own properties only:
      the four categories get their icons, any other text `fa-question`. */
  function CategoryIcon(category: string): (r: string)
    ensures category == "shirts" ==> r == "fa-tshirt"
    ensures category == "pants" ==> r == "fa-socks"
    ensures category == "accessories" ==> r == "fa-gem"
    ensures category == "shoes" ==> r == "fa-shoe-prints"
    ensures category !in {"shirts", "pants", "accessories", "shoes"} ==> r == "fa-question"
    ensures KnownIcon(category).Some? || category !in InheritedMembers ==> CategoryIconAsWritten(category) == Text(r)
  {
    KnownIcon(category).GetOr("fa-question")
  }

  /** Only the four categories have an icon of their own; they are exactly
      the ones whose display name differs from the category. */
  lemma {:induction false} KnownCategoryHasIcon(category: string)
    ensures CategoryIcon(category) != "fa-question" <==> CategoryName(category) != category
  {
  }
}
