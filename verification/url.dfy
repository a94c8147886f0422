/** The pieces of the browser location the components read: the two view
    variants, Angular's query-parameter map and its merging navigation, and the
    `URLSearchParams` reading of a raw URL. */
module Url {
  import opened Base
  import opened JsText

  /** A view family's layout: the legacy `v1` or the redesigned `v2`. */
  datatype Variant = V1 | V2

  /** Accepts exactly the tokens `v1` and `v2`. */
  function ExactVariant(s: string): (r: Option<Variant>)
    ensures r == Some(V1) <==> s == "v1"
    ensures r == Some(V2) <==> s == "v2"
    ensures r.None? <==> s != "v1" && s != "v2"
  {
    if s == "v1" then Some(V1) else if s == "v2" then Some(V2) else None
  }

  /** Angular's query-parameter map: one (decoded) value per key. */
  type Params = map<string, string>

  /** `paramMap.get(k)`: `None` is `null`. */
  function Get(q: Params, k: string): (r: Option<string>)
    ensures r.Some? <==> k in q
    ensures r.Some? ==> r.value == q[k]
  {
    if k in q then Some(q[k]) else None
  }

  /** `paramMap.get(k) || ''`. */
  function GetText(q: Params, k: string): (r: string)
    ensures k in q ==> r == q[k]
    ensures k !in q ==> r == ""
  {
    Get(q, k).GetOr("")
  }

  /** `router.navigate([], {queryParams: changes, queryParamsHandling: 'merge'})`:
      a change to `null` (`None`) removes the key, any other change sets it,
      and every key not mentioned keeps its value. */
  function MergeNavigate(q: Params, changes: map<string, Option<string>>): (r: Params)
    ensures forall k :: k in changes ==> (k in r <==> changes[k].Some?)
    ensures forall k :: k in changes && changes[k].Some? ==> r[k] == changes[k].value
    ensures forall k :: k !in changes ==> (k in r <==> k in q)
    ensures forall k :: k !in changes && k in q ==> r[k] == q[k]
  {
    map k | k in q.Keys + changes.Keys && (k in changes ==> changes[k].Some?) ::
      if k in changes then changes[k].value else q[k]
  }

  /** A navigation that changes one key is a map update or a removal. */
  lemma MergeNavigateOne(q: Params, k: string, v: Option<string>)
    ensures v.Some? ==> MergeNavigate(q, map[k := v]) == q[k := v.value]
    ensures v.None? ==> MergeNavigate(q, map[k := v]) == q - {k}
  {
    var r := MergeNavigate(q, map[k := v]);
    if v.Some? {
      assert r.Keys == q.Keys + {k};
    } else {
      assert r.Keys == q.Keys - {k};
    }
  }

  /** Writing the value a key already has changes nothing. */
  lemma UpdateSame(m: Params, k: string, v: string)
    requires k in m && m[k] == v
    ensures m[k := v] == m
  {
  }

  /** Removing an absent key changes nothing. */
  lemma RemoveAbsent(m: Params, k: string)
    requires k !in m
    ensures m - {k} == m
  {
  }

  // ---------------------------------------------------------------------------
  // URLSearchParams over the raw router URL
  // ---------------------------------------------------------------------------

  /** The text after the first `?` of the URL, or empty when there is none. */
  function QueryString(url: string): (qs: string)
    ensures '?' !in url ==> qs == ""
    ensures '?' in url ==> qs == url[IndexOf(url, '?') + 1..]
  {
    var i := IndexOf(url, '?');
    if i < |url| then url[i + 1..] else ""
  }

  /** Form decoding of one name or value: `+` reads as a space. */
  function DecodePlus(s: string): (r: string)
    ensures |r| == |s|
    ensures '+' !in r
  {
    if s == [] then [] else [if s[0] == '+' then ' ' else s[0]] + DecodePlus(s[1..])
  }

  /** One `name=value` segment; without `=` the value is empty. */
  function ParsePair(seg: string): (string, string) {
    var i := IndexOf(seg, '=');
    if i < |seg| then (DecodePlus(seg[..i]), DecodePlus(seg[i + 1..])) else (DecodePlus(seg), "")
  }

  /** The name/value pairs of the non-empty `&`-separated segments, in order. */
  function Pairs(segs: seq<string>): (ps: seq<(string, string)>)
    ensures |ps| <= |segs|
  {
    if segs == [] then []
    else if segs[0] == [] then Pairs(segs[1..])
    else [ParsePair(segs[0])] + Pairs(segs[1..])
  }

  /** `new URLSearchParams(qs)`: a single leading `?` is ignored. */
  function ParseSearch(qs: string): seq<(string, string)> {
    var body := if qs != [] && qs[0] == '?' then qs[1..] else qs;
    Pairs(Split(body, '&'))
  }

  /** `params.get(k)`: the value of the first pair named `k`. */
  function SearchGet(ps: seq<(string, string)>, k: string): (r: Option<string>)
    ensures r.Some? <==> exists i :: 0 <= i < |ps| && ps[i].0 == k
    ensures r.Some? ==>
      exists i :: 0 <= i < |ps| && ps[i] == (k, r.value) && forall j :: 0 <= j < i ==> ps[j].0 != k
  {
    if ps == [] then None
    else if ps[0].0 == k then Some(ps[0].1)
    else
      var r := SearchGet(ps[1..], k);
      assert forall i :: 0 < i < |ps| ==> ps[i] == ps[1..][i - 1];
      if r.Some? then
        var i :| 0 <= i < |ps[1..]| && ps[1..][i] == (k, r.value) && forall j :: 0 <= j < i ==> ps[1..][j].0 != k;
        assert ps[i + 1] == (k, r.value) && forall j :: 0 <= j < i + 1 ==> ps[j].0 != k;
        r
      else r
  }

  /** The value of query parameter `k` in a raw URL. */
  function UrlParam(url: string, k: string): Option<string> {
    SearchGet(ParseSearch(QueryString(url)), k)
  }

  /** The parameter map of a pair list, where the first pair of each name wins. */
  function FirstValues(ps: seq<(string, string)>): Params {
    if ps == [] then map[] else FirstValues(ps[1..])[ps[0].0 := ps[0].1]
  }

  /** Reading the map gives what `URLSearchParams.get` gives on the list. */
  lemma {:induction false} FirstValuesAgree(ps: seq<(string, string)>, k: string)
    ensures Get(FirstValues(ps), k) == SearchGet(ps, k)
  {
    if ps != [] {
      FirstValuesAgree(ps[1..], k);
    }
  }
}
