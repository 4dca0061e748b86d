/** `getProperties` (src/controllers/propertyController.ts): raw query
    parameters become a MongoDB filter, the matching properties are
    ordered newest first, one page of them is returned together with the
    count of all matches and the number of pages. */
module PropertySearch {
  import opened Common
  import opened Ordering
  import opened Strings
  import opened PropertyModel

  /** `req.query` as the handler sees it. A string parameter is `None`
      when absent. A numeric filter parameter is `None` when absent or
      empty (an empty one is falsy) and otherwise holds the integer its
      text denotes. `page` and `limit` fall back to their defaults only
      when absent: an empty one is `Some(0)`, as `Number('')` is 0. */
  datatype Query = Query(
    kind: Option<string>,
    minPrice: Option<int>,
    maxPrice: Option<int>,
    state: Option<string>,
    city: Option<string>,
    minArea: Option<int>,
    maxArea: Option<int>,
    bedrooms: Option<int>,
    bathrooms: Option<int>,
    furnished: Option<string>,
    listingType: Option<string>,
    isVerified: Option<string>,
    tags: Option<string>,
    page: Option<int>,
    limit: Option<int>)

  /** An inclusive range: `{ $gte?, $lte? }`. */
  datatype Range = Range(gte: Option<int>, lte: Option<int>)

  /** The filter object handed to `Property.find` and
      `Property.countDocuments`. A `None` field is a key the handler
      never set. */
  datatype Filter = Filter(
    kind: Option<string>,
    state: Option<string>,
    city: Option<string>,
    bedrooms: Option<int>,
    bathrooms: Option<int>,
    furnished: Option<bool>,
    listingType: Option<string>,
    isVerified: Option<bool>,
    price: Option<Range>,
    areaSqFt: Option<Range>,
    tags: Option<seq<string>>)

  /** JavaScript truthiness of a query string: present and non-empty
      (so "0" and "false" are truthy). */
  predicate Truthy(o: Option<string>) {
    o.Some? && o.value != ""
  }

  function TextParam(o: Option<string>): Option<string> {
    if Truthy(o) then o else None
  }

  function FlagParam(o: Option<string>): Option<bool> {
    if Truthy(o) then Some(o.value == "true") else None
  }

  function RangeParam(min: Option<int>, max: Option<int>): (r: Option<Range>)
    ensures r.Some? <==> min.Some? || max.Some?
    ensures r.Some? ==> r.value.gte == min && r.value.lte == max
  {
    if min.Some? || max.Some? then Some(Range(min, max)) else None
  }

  /** The filter built field by field from the query. */
  function BuildFilter(q: Query): (f: Filter)
    // equality on text: present exactly when the parameter is truthy, verbatim
    ensures f.kind.Some? <==> Truthy(q.kind)
    ensures f.state.Some? <==> Truthy(q.state)
    ensures f.city.Some? <==> Truthy(q.city)
    ensures f.listingType.Some? <==> Truthy(q.listingType)
    ensures f.kind.Some? ==> f.kind == q.kind
    ensures f.state.Some? ==> f.state == q.state
    ensures f.city.Some? ==> f.city == q.city
    ensures f.listingType.Some? ==> f.listingType == q.listingType
    // numeric equality
    ensures f.bedrooms == q.bedrooms && f.bathrooms == q.bathrooms
    // flags: true exactly for the text "true"
    ensures f.furnished.Some? <==> Truthy(q.furnished)
    ensures f.isVerified.Some? <==> Truthy(q.isVerified)
    ensures f.furnished.Some? ==> (f.furnished.value <==> q.furnished.value == "true")
    ensures f.isVerified.Some? ==> (f.isVerified.value <==> q.isVerified.value == "true")
    // ranges: present iff either bound is given, each bound iff given
    ensures f.price.Some? <==> q.minPrice.Some? || q.maxPrice.Some?
    ensures f.price.Some? ==> f.price.value.gte == q.minPrice && f.price.value.lte == q.maxPrice
    ensures f.areaSqFt.Some? <==> q.minArea.Some? || q.maxArea.Some?
    ensures f.areaSqFt.Some? ==> f.areaSqFt.value.gte == q.minArea && f.areaSqFt.value.lte == q.maxArea
    // tags: the comma-separated pieces, verbatim and in order
    ensures f.tags.Some? <==> Truthy(q.tags)
    ensures f.tags.Some? ==> |f.tags.value| >= 1 && Join(f.tags.value, ',') == q.tags.value
    ensures f.tags.Some? ==> forall i :: 0 <= i < |f.tags.value| ==> ',' !in f.tags.value[i]
  {
    var tags := if Truthy(q.tags) then Some(Split(q.tags.value, ',')) else None;
    JoinSplit(q.tags.GetOr(""), ',');
    Filter(
      TextParam(q.kind), TextParam(q.state), TextParam(q.city),
      q.bedrooms, q.bathrooms, FlagParam(q.furnished),
      TextParam(q.listingType), FlagParam(q.isVerified),
      RangeParam(q.minPrice, q.maxPrice), RangeParam(q.minArea, q.maxArea),
      tags)
  }

  /** The tag list is determined by the raw text alone: any
      comma-free pieces that join back to it are exactly the ones the
      filter holds. */
  lemma TagsAreThePieces(q: Query, pieces: seq<string>)
    requires Truthy(q.tags)
    requires |pieces| >= 1 && Join(pieces, ',') == q.tags.value
    requires forall i :: 0 <= i < |pieces| ==> ',' !in pieces[i]
    ensures BuildFilter(q).tags == Some(pieces)
  {
    SplitJoin(pieces, ',');
  }

  // ---------------------------------------------------------------------
  // MongoDB's reading of the filter

  predicate EqualsIfSet<T(==)>(c: Option<T>, x: T) {
    c.None? || c.value == x
  }

  /** `$gte` / `$lte`: both bounds inclusive, an absent bound imposes
      nothing. */
  predicate InRange(r: Range, x: int) {
    (r.gte.None? || x >= r.gte.value) && (r.lte.None? || x <= r.lte.value)
  }

  /** `$in` against an array field: some element of the array is in the
      list. */
  predicate AnyIn(values: seq<string>, list: seq<string>) {
    exists t :: t in values && t in list
  }

  /** A property satisfies every key the filter sets (the keys are
      combined by AND). */
  predicate Matches(f: Filter, p: Property)
    ensures (&& f.price.Some? && f.price.value.gte.Some? && f.price.value.lte.Some?
             && f.price.value.gte.value > f.price.value.lte.value) ==> !Matches(f, p)
    ensures f.tags == Some([]) ==> !Matches(f, p)
  {
    && EqualsIfSet(f.kind, p.kind)
    && EqualsIfSet(f.state, p.state)
    && EqualsIfSet(f.city, p.city)
    && EqualsIfSet(f.bedrooms, p.bedrooms)
    && EqualsIfSet(f.bathrooms, p.bathrooms)
    && EqualsIfSet(f.furnished, p.furnished)
    && EqualsIfSet(f.listingType, p.listingType)
    && EqualsIfSet(f.isVerified, p.isVerified)
    && (f.price.None? || InRange(f.price.value, p.price))
    && (f.areaSqFt.None? || InRange(f.areaSqFt.value, p.areaSqFt))
    && (f.tags.None? || AnyIn(p.tags, f.tags.value))
  }

  /** The empty query matches every property. */
  lemma EmptyQueryMatchesAll(p: Property)
    ensures Matches(BuildFilter(Query(None, None, None, None, None, None, None, None, None,
                                      None, None, None, None, None, None)), p)
  {
  }

  /** `Property.find(filter)` before sorting: the matching documents in
      store order. */
  function Matching(s: seq<Property>, f: Filter): (r: seq<Property>)
    ensures |r| <= |s|
    ensures forall p :: p in r <==> p in s && Matches(f, p)
  {
    if s == [] then []
    else
      var rest := Matching(s[1..], f);
      assert forall p :: p in s <==> p == s[0] || p in s[1..];
      if Matches(f, s[0]) then [s[0]] + rest else rest
  }
  /** `find` keeps every matching document as often as it is stored and
      no other: the multiplicity of each property in the result. */
  lemma {:induction false} MatchingCounts(s: seq<Property>, f: Filter, p: Property)
    ensures multiset(Matching(s, f))[p] == if Matches(f, p) then multiset(s)[p] else 0
  {
    if s != [] {
      MatchingCounts(s[1..], f, p);
      assert s == [s[0]] + s[1..];
    }
  }


  // ---------------------------------------------------------------------
  // Pagination

  /** `Math.ceil(total / limit)` for integers: the least number of
      pages of `limit` items that holds `total` items; zero exactly when
      there is nothing to hold. */
  function CeilDiv(total: nat, limit: nat): (pages: nat)
    requires limit >= 1
    ensures total <= pages * limit < total + limit
    ensures pages == 0 <==> total == 0
  {
    var q := (total + limit - 1) / limit;
    assert q * limit + (total + limit - 1) % limit == total + limit - 1;
    q
  }

  /** The page window `.skip(skip).limit(limit)` cuts from a sequence. */
  function Window<T>(s: seq<T>, skip: nat, limit: nat): (w: seq<T>)
    ensures |w| <= limit
    ensures skip + |w| <= |s| || w == []
    ensures forall i :: 0 <= i < |w| ==> skip + i < |s| && w[i] == s[skip + i]
    ensures skip + limit <= |s| ==> |w| == limit
    ensures skip <= |s| <= skip + limit ==> |w| == |s| - skip
  {
    if skip >= |s| then []
    else if skip + limit <= |s| then s[skip..skip + limit]
    else s[skip..]
  }

  /** A window of a newest-first sequence is newest first, and holds
      only elements of the sequence. */
  lemma WindowOfRanked<T>(s: seq<T>, skip: nat, limit: nat, key: T -> int)
    requires NewestFirst(s, key)
    ensures NewestFirst(Window(s, skip, limit), key)
    ensures forall x :: x in Window(s, skip, limit) ==> x in s
  {
    var w := Window(s, skip, limit);
    forall i, j | 0 <= i < j < |w| ensures key(w[i]) >= key(w[j]) {
      assert w[i] == s[skip + i] && w[j] == s[skip + j];
    }
  }

  /** The JSON body of a successful search. */
  datatype SearchResult = SearchResult(
    properties: seq<Property>,
    page: int,
    pages: nat,
    total: nat)

  datatype SearchReply = Found(result: SearchResult) | Failed(status: Status)

  function PageNum(q: Query): int {
    q.page.GetOr(1)
  }

  function Limit(q: Query): int {
    q.limit.GetOr(10)
  }

  /** The number of matches before page `page`: `limit` for each
      earlier page. */
  function PageStart(page: int, limit: int): nat
    requires page >= 1 && limit >= 1
    decreases page
  {
    if page == 1 then 0 else PageStart(page - 1, limit) + limit
  }

  /** The page start is the handler's `(page - 1) * limit`. */
  lemma {:induction false} PageStartIsProduct(page: int, limit: int)
    requires page >= 1 && limit >= 1
    ensures PageStart(page, limit) == (page - 1) * limit
    decreases page
  {
    if page > 1 {
      PageStartIsProduct(page - 1, limit);
    }
  }

  /** `skip = (page - 1) * limit`, for the pages the database accepts. */
  function Skip(q: Query): nat
    requires PageNum(q) >= 1 && Limit(q) >= 1
  {
    PageStart(PageNum(q), Limit(q))
  }

  /** All matches, newest first: the sequence the page is cut from. */
  function Ranked(store: seq<Property>, q: Query): (r: seq<Property>)
    ensures NewestFirst(r, CreatedAt)
    ensures |r| == |Matching(store, BuildFilter(q))|
    ensures multiset(r) == multiset(Matching(store, BuildFilter(q)))
    ensures forall p :: p in r <==> p in store && Matches(BuildFilter(q), p)
  {
    var m := Matching(store, BuildFilter(q));
    var r := SortNewestFirst(m, CreatedAt);
    assert forall p :: p in r <==> p in m by {
      forall p ensures p in r <==> p in m {
        SortKeepsMembers(m, CreatedAt, p);
      }
    }
    r
  }

  /** `getProperties`. A negative skip (a page below 1) is refused by the
      database, which the handler reports as a 500. */
  function Search(store: seq<Property>, q: Query): (r: SearchReply)
    requires q.limit.None? || q.limit.value >= 1
    ensures r.Failed? <==> PageNum(q) < 1
    ensures r.Failed? ==> r.status == ServerError
    ensures r.Found? ==> r.result.page == PageNum(q)
    ensures r.Found? ==> r.result.total == |Matching(store, BuildFilter(q))|
    ensures r.Found? ==> r.result.pages == CeilDiv(r.result.total, Limit(q))
    ensures r.Found? ==> r.result.properties == Window(Ranked(store, q), Skip(q), Limit(q))
  {
    var limit := Limit(q);
    var page := PageNum(q);
    if page < 1 then
      Failed(ServerError)
    else
      var ranked := Ranked(store, q);
      Found(SearchResult(Window(ranked, Skip(q), limit), page, CeilDiv(|ranked|, limit), |ranked|))
  }

  /** What a page promises: at most `limit` properties, newest first,
      each one stored and matching the filter. */
  lemma PageContents(store: seq<Property>, q: Query)
    requires q.limit.None? || q.limit.value >= 1
    requires Search(store, q).Found?
    ensures var items := Search(store, q).result.properties;
            && |items| <= Limit(q)
            && NewestFirst(items, CreatedAt)
            && forall p :: p in items ==> p in store && Matches(BuildFilter(q), p)
  {
    WindowOfRanked(Ranked(store, q), Skip(q), Limit(q), CreatedAt);
  }

  /** Every match appears on the page its rank says: a search for the
      page whose window covers rank `k` (0-based, newest first) shows
      that match, at position `k - skip`. */
  lemma EveryMatchOnItsPage(store: seq<Property>, q: Query, k: nat)
    requires q.limit.None? || q.limit.value >= 1
    requires k < |Ranked(store, q)|
    requires PageNum(q) >= 1 && Skip(q) <= k < Skip(q) + Limit(q)
    ensures var r := Search(store, q);
            r.Found? && k - Skip(q) < |r.result.properties|
            && r.result.properties[k - Skip(q)] == Ranked(store, q)[k]
  {
    SearchPage(store, q);
    WindowAt(Ranked(store, q), Skip(q), Limit(q), k - Skip(q));
  }

  /** A search for a page at or above 1 answers with that page's window. */
  lemma SearchPage(store: seq<Property>, q: Query)
    requires q.limit.None? || q.limit.value >= 1
    requires PageNum(q) >= 1
    ensures Search(store, q).Found?
    ensures Search(store, q).result.properties == Window(Ranked(store, q), Skip(q), Limit(q))
  {
  }

  /** Position `j` of a window is position `skip + j` of the sequence,
      whenever both exist. */
  lemma WindowAt<T>(s: seq<T>, skip: nat, limit: nat, j: nat)
    requires j < limit && skip + j < |s|
    ensures j < |Window(s, skip, limit)| && Window(s, skip, limit)[j] == s[skip + j]
  {
  }

  /** Rank `k` lies on page `k / limit + 1`: that page's window starts
      at or before `k` and ends after it. */
  lemma RankPosition(k: nat, limit: int)
    requires limit >= 1
    ensures PageStart(k / limit + 1, limit) <= k < PageStart(k / limit + 1, limit) + limit
  {
    PageStartIsProduct(k / limit + 1, limit);
  }

  lemma MulMono(a: int, b: int, c: nat)
    requires a >= b
    ensures a * c >= b * c
  {
  }

  /** A page past the last one is empty. */
  lemma PastLastPageEmpty(store: seq<Property>, q: Query)
    requires q.limit.None? || q.limit.value >= 1
    requires Search(store, q).Found?
    requires PageNum(q) > Search(store, q).result.pages
    ensures Search(store, q).result.properties == []
  {
    var ranked := Ranked(store, q);
    PastLastPageStart(|ranked|, PageNum(q), Limit(q));
  }

  /** A page past the last one starts at or beyond the last match. */
  lemma PastLastPageStart(total: nat, page: int, limit: int)
    requires limit >= 1 && page >= 1 && page > CeilDiv(total, limit)
    ensures PageStart(page, limit) >= total
  {
    MulMono(page - 1, CeilDiv(total, limit), limit);
    PageStartIsProduct(page, limit);
  }
}
