/** The listing routes: each sorts the collection, skips and takes a window.
    `GET /blogs/latest` takes 6 by `createdAt`, `GET /blogs/popular` 4 by
    `reactCount`, and `GET /blogs/category` one page of the documents whose
    category matches, each with its description. */
module Listing {
  import opened BlogModel
  import Description

  /** The field a listing sorts on, always descending. */
  datatype SortKey = ByCreatedAt | ByReactCount

  function KeyOf(k: SortKey, e: Entry): int {
    match k
    case ByCreatedAt => e.doc.createdAt
    case ByReactCount => e.doc.reactCount
  }

  predicate SortedDesc(s: seq<Entry>, k: SortKey) {
    forall i, j :: 0 <= i < j < |s| ==> KeyOf(k, s[j]) <= KeyOf(k, s[i])
  }

  /** Every element of `s` has a key at most `bound`. */
  predicate AllAtMost(s: seq<Entry>, k: SortKey, bound: int) {
    forall i :: 0 <= i < |s| ==> KeyOf(k, s[i]) <= bound
  }

  lemma AllAtMostByMultiset(s: seq<Entry>, t: seq<Entry>, k: SortKey, bound: int)
    requires multiset(s) <= multiset(t) && AllAtMost(t, k, bound)
    ensures AllAtMost(s, k, bound)
  {
    forall i | 0 <= i < |s| ensures KeyOf(k, s[i]) <= bound {
      assert s[i] in multiset(s);
      assert s[i] in multiset(t);
      var j :| 0 <= j < |t| && t[j] == s[i];
    }
  }

  /** Insert `x` into a descending sequence after every element whose key is larger. */
  function Insert(x: Entry, s: seq<Entry>, k: SortKey): (r: seq<Entry>)
    requires SortedDesc(s, k)
    ensures SortedDesc(r, k)
    ensures multiset(r) == multiset(s) + multiset{x}
    ensures |r| == |s| + 1
  {
    if s == [] || KeyOf(k, s[0]) <= KeyOf(k, x) then
      [x] + s
    else
      var rest := Insert(x, s[1..], k);
      assert s == [s[0]] + s[1..];
      assert AllAtMost(s[1..] + [x], k, KeyOf(k, s[0]));
      assert multiset(rest) == multiset(s[1..] + [x]);
      AllAtMostByMultiset(rest, s[1..] + [x], k, KeyOf(k, s[0]));
      [s[0]] + rest
  }

  /** Insertion sort, descending by `k`; equal keys keep their collection order. */
  function Sort(s: seq<Entry>, k: SortKey): (r: seq<Entry>)
    ensures SortedDesc(r, k)
    ensures multiset(r) == multiset(s)
    ensures |r| == |s|
  {
    if s == [] then []
    else
      assert s == [s[0]] + s[1..];
      Insert(s[0], Sort(s[1..], k), k)
  }

  /** `$skip: skip` followed by `$limit: limit`: the elements at positions
      `[skip, skip + limit)`, as far as they exist. */
  function Window(s: seq<Entry>, skip: nat, limit: nat): (r: seq<Entry>)
    ensures |r| == Min(limit, if skip <= |s| then |s| - skip else 0)
    ensures forall i :: 0 <= i < |r| ==> skip + i < |s| && r[i] == s[skip + i]
  {
    if |s| <= skip then [] else s[skip..][..Min(limit, |s| - skip)]
  }

  /** The first `n` documents by `k` descending: sorted, drawn from `s`, and no
      document left out has a larger key than any taken. */
  function Top(s: seq<Entry>, k: SortKey, n: nat): (r: seq<Entry>)
    ensures |r| == Min(n, |s|)
    ensures SortedDesc(r, k)
    ensures multiset(r) <= multiset(s)
    ensures forall e, i :: e in multiset(s) - multiset(r) && 0 <= i < |r| ==> KeyOf(k, e) <= KeyOf(k, r[i])
  {
    var sorted := Sort(s, k);
    var r := Window(sorted, 0, n);
    TopSplit(sorted, k, |r|);
    r
  }

  lemma TopSplit(sorted: seq<Entry>, k: SortKey, m: nat)
    requires SortedDesc(sorted, k) && m <= |sorted|
    ensures multiset(sorted) == multiset(sorted[..m]) + multiset(sorted[m..])
    ensures forall e, i :: e in multiset(sorted[m..]) && 0 <= i < m ==> KeyOf(k, e) <= KeyOf(k, sorted[i])
  {
    assert sorted == sorted[..m] + sorted[m..];
    forall e, i | e in multiset(sorted[m..]) && 0 <= i < m
      ensures KeyOf(k, e) <= KeyOf(k, sorted[i])
    {
      var j :| 0 <= j < |sorted[m..]| && sorted[m..][j] == e;
      assert sorted[m + j] == e;
    }
  }

  /** `GET /blogs/latest`: the 6 most recent documents, newest first. */
  function Latest(es: seq<Entry>): (r: seq<Entry>)
    ensures |r| == Min(6, |es|)
    ensures SortedDesc(r, ByCreatedAt)
    ensures multiset(r) <= multiset(es)
    ensures forall e, i :: e in multiset(es) - multiset(r) && 0 <= i < |r| ==> e.doc.createdAt <= r[i].doc.createdAt
  {
    Top(es, ByCreatedAt, 6)
  }

  /** The projection of `GET /blogs/popular`: every field but the body. */
  datatype Card = Card(
    key: nat, id: string, title: string, thumbnail: string, category: string,
    tags: seq<string>, authorName: string, createdAt: int, reactCount: int)

  function CardOf(e: Entry): Card {
    Card(e.key, e.doc.id, e.doc.title, e.doc.thumbnail, e.doc.category,
         e.doc.tags, e.doc.authorName, e.doc.createdAt, e.doc.reactCount)
  }

  function Cards(s: seq<Entry>): (r: seq<Card>)
    ensures |r| == |s| && forall i :: 0 <= i < |s| ==> r[i] == CardOf(s[i])
  {
    seq(|s|, i requires 0 <= i < |s| => CardOf(s[i]))
  }

  /** `c` is the card of some document of `es`. */
  predicate DrawnFrom(c: Card, es: seq<Entry>) {
    exists e :: e in es && c == CardOf(e)
  }

  /** `GET /blogs/popular`: the 4 documents with the most reactions, most first,
      without their bodies. */
  function Popular(es: seq<Entry>): (r: seq<Card>)
    ensures |r| == Min(4, |es|)
    ensures forall i, j :: 0 <= i < j < |r| ==> r[j].reactCount <= r[i].reactCount
    ensures forall i :: 0 <= i < |r| ==> DrawnFrom(r[i], es)
    ensures forall e, i :: e in multiset(es) - multiset(Top(es, ByReactCount, 4)) && 0 <= i < |r| ==> e.doc.reactCount <= r[i].reactCount
    ensures r == Cards(Top(es, ByReactCount, 4))
  {
    var top := Top(es, ByReactCount, 4);
    CardsOfTop(es, top);
    Cards(top)
  }

  /** The cards of a top-by-reactions selection keep its order, come from the
      collection, and have no left-out document with more reactions. */
  lemma CardsOfTop(es: seq<Entry>, top: seq<Entry>)
    requires SortedDesc(top, ByReactCount) && multiset(top) <= multiset(es)
    requires forall e, i :: e in multiset(es) - multiset(top) && 0 <= i < |top| ==> KeyOf(ByReactCount, e) <= KeyOf(ByReactCount, top[i])
    ensures forall i, j :: 0 <= i < j < |top| ==> Cards(top)[j].reactCount <= Cards(top)[i].reactCount
    ensures forall i :: 0 <= i < |top| ==> DrawnFrom(Cards(top)[i], es)
    ensures forall e, i :: e in multiset(es) - multiset(top) && 0 <= i < |top| ==> e.doc.reactCount <= Cards(top)[i].reactCount
  {
    var r := Cards(top);
    CardsDrawnFrom(es, top);
    forall i | 0 <= i < |top| ensures r[i].reactCount == KeyOf(ByReactCount, top[i]) && r[i] == CardOf(top[i]) {
    }
    forall i | 0 <= i < |top| ensures DrawnFrom(r[i], es) {
      var e := top[i];
      assert e in es && r[i] == CardOf(e);
    }
  }

  lemma CardsDrawnFrom(es: seq<Entry>, top: seq<Entry>)
    requires multiset(top) <= multiset(es)
    ensures forall i :: 0 <= i < |top| ==> top[i] in es
  {
    forall i | 0 <= i < |top| ensures top[i] in es {
      assert top[i] in multiset(top);
    }
  }

  /** ASCII case folding, as the store's case-insensitive match does for plain letters. */
  function Lower(c: char): char {
    if 'A' <= c <= 'Z' then (c as int + 32) as char else c
  }

  predicate SameIgnoringCase(a: string, b: string) {
    |a| == |b| && forall i :: 0 <= i < |a| ==> Lower(a[i]) == Lower(b[i])
  }

  /** The text the `^...$` pattern is built from: an absent query parameter
      is interpolated as "undefined". */
  function Pattern(category: Option<string>): (r: string)
    ensures category.Some? ==> r == category.value
    ensures r == "undefined" <==> category == None || category == Some("undefined")
  {
    match category
    case Some(c) => c
    case None => "undefined"
  }

  /** `$match` with the case-insensitive anchored pattern, keeping collection order. */
  function Matching(es: seq<Entry>, pattern: string): (r: seq<Entry>)
    ensures forall e :: e in r <==> e in es && SameIgnoringCase(e.doc.category, pattern)
    ensures forall e :: multiset(r)[e] == if SameIgnoringCase(e.doc.category, pattern) then multiset(es)[e] else 0
    ensures |r| <= |es|
  {
    if es == [] then []
    else
      var rest := Matching(es[1..], pattern);
      assert es == [es[0]] + es[1..];
      if SameIgnoringCase(es[0].doc.category, pattern) then [es[0]] + rest else rest
  }

  /** A document of the category listing: the card and its description. */
  datatype Summary = Summary(card: Card, description: BlogModel.Text)

  function SummaryOf(e: Entry): Summary {
    Summary(CardOf(e), Description.Describe(e.doc.blog))
  }

  function Summaries(s: seq<Entry>): (r: seq<Summary>)
    ensures |r| == |s| && forall i :: 0 <= i < |s| ==> r[i] == SummaryOf(s[i])
  {
    seq(|s|, i requires 0 <= i < |s| => SummaryOf(s[i]))
  }

  /** The matching documents, newest first: the sequence the pages cut. */
  function CategoryOrder(es: seq<Entry>, category: Option<string>): seq<Entry> {
    Sort(Matching(es, Pattern(category)), ByCreatedAt)
  }

  /** The number of documents `$skip` passes over for page `pg` of `lim`: for
      a positive limit it is negative exactly when the page is below 1. */
  function Skip(pg: int, lim: int): (r: int)
    ensures lim > 0 ==> (r < 0 <==> pg < 1)
  {
    (pg - 1) * lim
  }

  /** Page `skip / lim + 1` of the ordered documents, summarised. */
  function PageOf(order: seq<Entry>, skip: nat, lim: nat): (r: seq<Summary>)
    ensures |r| == Min(lim, if skip <= |order| then |order| - skip else 0)
    ensures forall i :: 0 <= i < |r| ==> skip + i < |order| && r[i] == SummaryOf(order[skip + i])
  {
    Summaries(Window(order, skip, lim))
  }

  /** `GET /blogs/category`: page `page` (default 1) of `limit` (default 10)
      documents. A negative skip or a limit that is not positive is refused by
      the store, which the route reports as 500. */
  function CategoryPage(es: seq<Entry>, category: Option<string>, page: Option<int>, limit: Option<int>)
    : (r: Response<seq<Summary>>)
    ensures var pg := if page.Some? then page.value else 1;
            var lim := if limit.Some? then limit.value else 10;
            && (r.Fail? <==> lim <= 0 || pg < 1)
            && (r.Fail? ==> r.status == 500)
            && (r.Reply? ==> Skip(pg, lim) >= 0 && lim > 0 && r == Reply(200, PageOf(CategoryOrder(es, category), Skip(pg, lim), lim)))
  {
    var pg := if page.Some? then page.value else 1;
    var lim := if limit.Some? then limit.value else 10;
    var skip := Skip(pg, lim);
    if skip < 0 || lim <= 0 then
      Fail(500, "Failed to fetch blogs by category")
    else
      Reply(200, PageOf(CategoryOrder(es, category), skip, lim))
  }

  /** Pages `pg` and `pg + 1` follow each other: together they are the window
      of `2 * lim` documents that starts where page `pg` does. */
  lemma ConsecutivePages(order: seq<Entry>, pg: int, lim: int)
    requires pg >= 1 && lim > 0
    ensures Skip(pg, lim) >= 0 && Skip(pg + 1, lim) == Skip(pg, lim) + lim
    ensures Window(order, Skip(pg, lim), lim) + Window(order, Skip(pg + 1, lim), lim)
            == Window(order, Skip(pg, lim), 2 * lim)
  {
    assert Skip(pg + 1, lim) == Skip(pg, lim) + lim;
    var a := Window(order, Skip(pg, lim), lim);
    var b := Window(order, Skip(pg + 1, lim), lim);
    var c := Window(order, Skip(pg, lim), 2 * lim);
    assert |a + b| == |c|;
    forall i | 0 <= i < |c| ensures (a + b)[i] == c[i] {
      if i >= |a| {
        assert |a| == lim;
      }
    }
  }

  /** Every document of a category page matches the category, and the page is newest first. */
  lemma PageMatchesCategory(es: seq<Entry>, category: Option<string>, page: Option<int>, limit: Option<int>)
    requires CategoryPage(es, category, page, limit).Reply?
    ensures var body := CategoryPage(es, category, page, limit).body;
            forall i :: 0 <= i < |body| ==> SameIgnoringCase(body[i].card.category, Pattern(category))
    ensures var body := CategoryPage(es, category, page, limit).body;
            forall i, j :: 0 <= i < j < |body| ==> body[j].card.createdAt <= body[i].card.createdAt
  {
    var order := CategoryOrder(es, category);
    var matching := Matching(es, Pattern(category));
    forall e | e in order ensures SameIgnoringCase(e.doc.category, Pattern(category)) {
      assert e in multiset(order);
      assert e in multiset(matching);
    }
  }
}
