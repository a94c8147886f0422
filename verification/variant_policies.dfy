/** The four places that choose a layout variant do not agree with each
    other. These lemmas pin the differences down: which source wins over
    the bound input, which spellings count, and which query key is read
    first. The query map the components see is the first value of each key
    of the URL's query string. */
module VariantPolicies {
  import opened Base
  import opened JsText
  import opened Url
  import IncidentMode
  import RestMode
  import Infoscreen
  import HeaderControls

  /** The parameter map Angular derives from a URL's query string. */
  function QueryOf(url: string): Params {
    FirstValues(ParseSearch(QueryString(url)))
  }

  /** Reading a key from the derived map gives what the incident screen
      reads from the raw URL. */
  lemma QueryOfAgrees(url: string, k: string)
    ensures Get(QueryOf(url), k) == UrlParam(url, k)
  {
    FirstValuesAgree(ParseSearch(QueryString(url)), k);
  }

  /** Whenever the `view` query names a variant other than the bound input,
      the incident screen follows the query and the rest screen follows the
      input. */
  lemma InputPriorityDiffers(url: string, v: Variant, w: Variant, routeVariant: Option<string>)
    requires IncidentMode.QueryVariant(url, "view") == Some(w)
    requires w != v
    ensures IncidentMode.ResolveVariantKey(url, Some(v)) == w
    ensures RestMode.ResolveRestVariant(Some(v), QueryOf(url), routeVariant) == v
  {
  }

  /** `?view=2` (with no `incident` or `rest` key, off the alarm routes):
      the incident screen reads `v2`; the root screen, the overlay and the
      rest screen read `v1`. */
  lemma NumericTokenOnlyForIncidentMode(url: string, s: Infoscreen.ScreenState)
    requires UrlParam(url, "view") == Some("2")
    requires UrlParam(url, "incident") == None && UrlParam(url, "rest") == None
    requires !Contains(Lower(url), "/alarm")
    ensures IncidentMode.ResolveVariantKey(url, None) == V2
    ensures Infoscreen.OnQueryChange(s, QueryOf(url)).incidentVariant == V1
    ensures HeaderControls.UpdateState(url, QueryOf(url)).incidentActive == V1
    ensures RestMode.ResolveRestVariant(None, QueryOf(url), None) == V1
  {
    QueryOfAgrees(url, "view");
    QueryOfAgrees(url, "incident");
    QueryOfAgrees(url, "rest");
    NumericTwo();
  }

  /** The token `2` normalises to `v2` but is not an exact token. */
  lemma NumericTwo()
    ensures IncidentMode.NormalizeVariant(Some("2")) == Some(V2)
    ensures Lower("2") == "2" && ExactVariant("2").None?
  {
    ReadsAsItself("2");
    assert EndsWith("2", "2");
  }

  /** A short lowercase token without surrounding whitespace is read as
      it stands. */
  lemma ReadsAsItself(t: string)
    requires t == "2" || t == "v1" || t == "v2"
    ensures Lower(Trim(t)) == t && Lower(t) == t
  {
    TrimOfTrimmed(t);
  }

  /** With both `view` and `incident` given, the incident screen reads
      `view` first and the root screen reads `incident` first. */
  lemma KeyOrderDiffers(url: string, s: Infoscreen.ScreenState)
    requires UrlParam(url, "view") == Some("v1") && UrlParam(url, "incident") == Some("v2")
    ensures IncidentMode.ResolveVariantKey(url, None) == V1
    ensures Infoscreen.OnQueryChange(s, QueryOf(url)).incidentVariant == V2
  {
    QueryOfAgrees(url, "view");
    QueryOfAgrees(url, "incident");
    ViewOneReads();
    ReadsAsItself("v2");
  }

  /** `v1` names the first layout. */
  lemma ViewOneReads()
    ensures IncidentMode.NormalizeVariant(Some("v1")) == Some(V1)
  {
    ReadsAsItself("v1");
    assert EndsWith("v1", "1");
  }
}
