/** The rest screen: which of its two layouts to show. */
module RestMode {
  import opened Base
  import opened JsText
  import opened Url

  /** The lowercased value of query key `k`, read as an exact variant token. */
  function QueryToken(q: Params, k: string): Option<Variant> {
    ExactVariant(Lower(GetText(q, k)))
  }

  /** `resolveVariant`: the bound input wins; then the lowercased `view` query
      value, then the lowercased `rest` query value, each only when it is
      exactly `v1` or `v2`; then the route's `variant` data, taken as it is
      (no lowercasing); then `v1`. */
  function ResolveRestVariant(input: Option<Variant>, q: Params, routeVariant: Option<string>): (r: Variant)
    ensures input.Some? ==> r == input.value
    ensures input.None? && Lower(GetText(q, "view")) == "v2" ==> r == V2
    ensures input.None? && Lower(GetText(q, "view")) == "v1" ==> r == V1
    ensures input.None? && QueryToken(q, "view").None? && QueryToken(q, "rest").Some?
      ==> r == QueryToken(q, "rest").value
    ensures input.None? && QueryToken(q, "view").None? && QueryToken(q, "rest").None?
      ==> r == (if routeVariant == Some("v2") then V2 else V1)
  {
    if input.Some? then input.value
    else
      var byView := QueryToken(q, "view");
      var byRest := QueryToken(q, "rest");
      if byView.Some? then byView.value
      else if byRest.Some? then byRest.value
      else if routeVariant == Some("v2") then V2
      else V1
  }

  /** The stored variant after re-resolving, and whether it was written: it is
      written only when the resolved value differs from the stored one. */
  function SyncRestVariant(current: Variant, input: Option<Variant>, q: Params,
                           routeVariant: Option<string>): (r: (Variant, bool))
    ensures r.0 == ResolveRestVariant(input, q, routeVariant)
    ensures r.1 <==> r.0 != current
  {
    var next := ResolveRestVariant(input, q, routeVariant);
    (next, next != current)
  }

  /** Re-resolving with unchanged input, query and route data writes nothing. */
  lemma SyncRestSettles(current: Variant, input: Option<Variant>, q: Params, routeVariant: Option<string>)
    ensures var first := SyncRestVariant(current, input, q, routeVariant);
      SyncRestVariant(first.0, input, q, routeVariant) == (first.0, false)
  {
  }

  /** The layout component of the rest screen. */
  datatype RestView = RestV1View | RestV2View

  /** `activeCmp`. */
  function ActiveRestView(v: Variant): (c: RestView)
    ensures c == RestV2View <==> v == V2
  {
    if v == V2 then RestV2View else RestV1View
  }

  /** A bound input decides alone: the query and route data are not read. */
  lemma InputDecidesAlone(v: Variant, q1: Params, q2: Params, rv1: Option<string>, rv2: Option<string>)
    ensures ResolveRestVariant(Some(v), q1, rv1) == ResolveRestVariant(Some(v), q2, rv2) == v
  {
  }

  /** Only the exact tokens count: a `view` or `rest` value that does not
      lowercase to `v1`/`v2` (such as `2` or `alarm2`) is ignored, whatever it is. */
  lemma UnrecognisedQueryIgnored(q: Params, k: string, junk: string, routeVariant: Option<string>)
    requires k == "view" || k == "rest"
    requires Lower(junk) != "v1" && Lower(junk) != "v2"
    requires QueryToken(q, "view").None? && QueryToken(q, "rest").None?
    ensures ResolveRestVariant(None, q[k := junk], routeVariant) == ResolveRestVariant(None, q, routeVariant)
  {
    assert GetText(q[k := junk], k) == junk;
    assert k == "view" ==> GetText(q[k := junk], "rest") == GetText(q, "rest");
    assert k == "rest" ==> GetText(q[k := junk], "view") == GetText(q, "view");
  }
}
