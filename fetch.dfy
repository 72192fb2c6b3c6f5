/** `POST /blogs/fetch`: for every member `category: count` of the
    `categories` object a random sample of `count` documents of that
    category, and, when `random` is truthy, a sample of `random` documents
    of the whole collection under the key "random". */
module Fetch {
  import opened BlogModel
  import opened Json

  /** `$match: {category}`: exact, case-sensitive equality, in collection order. */
  function InCategory(es: seq<Entry>, category: string): (r: seq<Entry>)
    ensures multiset(r) <= multiset(es)
    ensures forall e :: e in r <==> e in es && e.doc.category == category
  {
    if es == [] then []
    else
      var rest := InCategory(es[1..], category);
      assert es == [es[0]] + es[1..];
      if es[0].doc.category == category then [es[0]] + rest else rest
  }

  /** What `$sample: {size: n}` may return from `s`: `n` distinct documents of
      it, or all of them when it has fewer. */
  predicate IsSample(r: seq<Entry>, s: seq<Entry>, n: nat) {
    |r| == Min(n, |s|) && multiset(r) <= multiset(s)
  }

  /** A size `$sample` accepts: a non-negative number. */
  predicate ValidSize(v: Json) {
    v.Num? && v.n >= 0
  }

  function SizeOf(v: Json): nat {
    if v.Num? && v.n >= 0 then v.n else 0
  }

  /** One admissible outcome of `$sample`: the first `n` documents. */
  function Sample(s: seq<Entry>, n: nat): (r: seq<Entry>)
    ensures IsSample(r, s, n)
  {
    var m := Min(n, |s|);
    assert s == s[..m] + s[m..];
    s[..m]
  }

  /** `categories` passes the route's check: truthy and of `typeof` "object",
      which holds exactly for arrays and objects (null is falsy). */
  predicate IsCategoriesObject(v: Json): (r: bool)
    ensures r <==> v.Arr? || v.Obj?
  {
    Truthy(v) && TypeofObject(v)
  }

  /** The members the loop visits; none for a value that fails the check. */
  function Members(v: Json): seq<(string, Json)> {
    if v.Arr? || v.Obj? then Entries(v) else []
  }

  function Names(ms: seq<(string, Json)>): set<string> {
    set i | 0 <= i < |ms| :: ms[i].0
  }

  predicate AllSizesValid(ms: seq<(string, Json)>) {
    forall i :: 0 <= i < |ms| ==> ValidSize(ms[i].1)
  }

  /** The count of the last member named `k`: a later assignment to
      `response[k]` replaces an earlier one. */
  function Lookup(ms: seq<(string, Json)>, k: string): (r: Option<Json>)
    ensures r.Some? <==> k in Names(ms)
    ensures r.Some? && AllSizesValid(ms) ==> ValidSize(r.value)
  {
    if ms == [] then None
    else
      var last := ms[|ms| - 1];
      var init := ms[..|ms| - 1];
      assert Names(ms) == Names(init) + {last.0} by {
        assert forall i :: 0 <= i < |init| ==> init[i] == ms[i];
      }
      if last.0 == k then Some(last.1) else Lookup(init, k)
  }

  /** Appending a member: it names one more key, and its count is the one
      found under that key. */
  lemma LookupAppend(ms: seq<(string, Json)>, m: (string, Json))
    ensures Names(ms + [m]) == Names(ms) + {m.0}
    ensures forall k :: Lookup(ms + [m], k) == if k == m.0 then Some(m.1) else Lookup(ms, k)
  {
    var ext := ms + [m];
    assert ext[..|ms|] == ms;
    forall x | x in Names(ms) + {m.0} ensures x in Names(ext) {
      if x == m.0 {
        assert ext[|ms|].0 == x;
      } else {
        var i :| 0 <= i < |ms| && ms[i].0 == x;
        assert ext[i].0 == x;
      }
    }
  }

  /** The one name an assignment `response[name] = …` does not store as an own
      property: it sets the prototype of `response` instead, and the reply
      serialises own properties only. */
  const ProtoKey := "__proto__"

  /** The loop over the members of `categories`: one sample per member name
      other than `ProtoKey`, or None as soon as a count is not a valid size
      (the store then throws). */
  method SampleEach(es: seq<Entry>, ms: seq<(string, Json)>)
    returns (response: Option<map<string, seq<Entry>>>)
    ensures response.Some? <==> AllSizesValid(ms)
    ensures response.Some? ==> response.value.Keys == Names(ms) - {ProtoKey}
    ensures response.Some? ==>
              forall k :: k in response.value ==>
                Lookup(ms, k).Some? &&
                IsSample(response.value[k], InCategory(es, k), SizeOf(Lookup(ms, k).value))
  {
    var acc: map<string, seq<Entry>> := map[];
    var i := 0;
    while i < |ms|
      invariant 0 <= i <= |ms|
      invariant AllSizesValid(ms[..i])
      invariant acc.Keys == Names(ms[..i]) - {ProtoKey}
      invariant forall k :: k in acc ==>
                  Lookup(ms[..i], k).Some? &&
                  IsSample(acc[k], InCategory(es, k), SizeOf(Lookup(ms[..i], k).value))
    {
      var category, count := ms[i].0, ms[i].1;
      if !ValidSize(count) {
        assert !AllSizesValid(ms);
        return None;
      }
      var sample := Sample(InCategory(es, category), count.n);
      if category != ProtoKey {
        acc := acc[category := sample];
      }
      assert ms[..i + 1] == ms[..i] + [ms[i]];
      LookupAppend(ms[..i], ms[i]);
      i := i + 1;
    }
    assert ms[..i] == ms;
    return Some(acc);
  }

  /** `POST /blogs/fetch`. */
  method FetchByCategories(es: seq<Entry>, categories: Json, random: Json)
    returns (res: Response<map<string, seq<Entry>>>)
    ensures res.Fail? && res.status == 400 <==> !IsCategoriesObject(categories)
    ensures res.Fail? ==> res.status == 400 || res.status == 500
    ensures res.Reply? <==>
              && IsCategoriesObject(categories)
              && AllSizesValid(Members(categories))
              && (Truthy(random) ==> ValidSize(random))
    ensures res.Reply? ==>
              && res.status == 200
              && res.body.Keys == Names(Members(categories)) - {ProtoKey} + (if Truthy(random) then {"random"} else {})
    ensures res.Reply? ==>
              forall k :: k in res.body && !(k == "random" && Truthy(random)) ==>
                Lookup(Members(categories), k).Some? &&
                IsSample(res.body[k], InCategory(es, k), SizeOf(Lookup(Members(categories), k).value))
    ensures res.Reply? && Truthy(random) ==> IsSample(res.body["random"], es, SizeOf(random))
  {
    if !Truthy(categories) || !TypeofObject(categories) {
      return Fail(400, "Invalid categories format");
    }
    var sampled := SampleEach(es, Members(categories));
    if sampled.None? {
      return Fail(500, "Failed to fetch blogs");
    }
    var response := sampled.value;
    if Truthy(random) {
      if !ValidSize(random) {
        return Fail(500, "Failed to fetch blogs");
      }
      response := response["random" := Sample(es, random.n)];
    }
    res := Reply(200, response);
  }
}
