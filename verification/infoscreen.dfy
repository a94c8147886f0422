/** The root screen's reaction to a change of the query parameters: the data
    source, the manual override and the two layout variants it passes down. */
module Infoscreen {
  import opened Base
  import opened JsText
  import opened Url
  import ModeService

  datatype ScreenState = ScreenState(
    mode: ModeService.ModeState,
    incidentVariant: Variant,
    restVariant: Variant)

  /** The lowercased `test` query value (empty when absent). */
  function TestToken(q: Params): string {
    Lower(GetText(q, "test"))
  }

  /** The query handler of the root screen. */
  function OnQueryChange(s: ScreenState, q: Params): (r: ScreenState)
    ensures r.mode.source == ModeService.Mock <==> TestToken(q) == "1"
    ensures TestToken(q) == "ruhe" ==> r.mode.manual == ModeService.Pinned(ModeService.Ruhe)
    ensures TestToken(q) == "einsatz" ==> r.mode.manual == ModeService.Pinned(ModeService.Einsatz)
    ensures TestToken(q) != "ruhe" && TestToken(q) != "einsatz" ==> r.mode.manual == ModeService.NoOverride
    ensures r.incidentVariant == V2 <==>
      Lower(if GetText(q, "incident") != [] then GetText(q, "incident") else GetText(q, "view")) == "v2"
    ensures r.restVariant == V2 <==> Lower(GetText(q, "rest")) == "v2"
    ensures r.mode.autoMode == s.mode.autoMode && r.mode.einsaetze == s.mode.einsaetze
  {
    var test := TestToken(q);
    var m1 := ModeService.UseMockData(s.mode, test == "1").0;
    var m2 :=
      if test == "ruhe" then ModeService.SetManualOverride(m1, ModeService.Ruhe)
      else if test == "einsatz" then ModeService.SetManualOverride(m1, ModeService.Einsatz)
      else ModeService.ClearManualOverride(m1);
    var inc := Lower(OrElse(OrElse(GetText(q, "incident"), GetText(q, "view")), ""));
    var rest := Lower(OrElse(GetText(q, "rest"), ""));
    ScreenState(m2, if inc == "v2" then V2 else V1, if rest == "v2" then V2 else V1)
  }

  /** Unlike the start-up handling, every query change decides the override:
      a `test` value other than `ruhe`/`einsatz` (absent, or `1`) clears a
      pinned mode. */
  lemma QueryChangeClearsPin(s: ScreenState, q: Params)
    requires s.mode.manual.Pinned?
    requires "test" !in q || TestToken(q) == "1"
    ensures OnQueryChange(s, q).mode.manual == ModeService.NoOverride
    ensures ModeService.Startup(s.mode, "").manual == s.mode.manual
  {
    assert SearchGet(ParseSearch(""), "test") == None by {
      assert Split("", '&') == [[]];
    }
  }
}
