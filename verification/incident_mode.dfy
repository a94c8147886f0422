/** The incident screen: which alarm layout to show, which incident to show,
    and the elapsed-time and headline texts. */
module IncidentMode {
  import opened Base
  import opened JsText
  import opened Url
  import Lea

  // ---------------------------------------------------------------------------
  // Variant resolution
  // ---------------------------------------------------------------------------

  /** Any spelling of a variant token: after trimming and lowercasing, a token
      ending in `1` means `v1`, one ending in `2` means `v2`, anything else
      (including the empty token) means nothing. */
  function NormalizeVariant(raw: Option<string>): (r: Option<Variant>)
    ensures var v := Lower(Trim(raw.GetOr("")));
      && (r == Some(V1) <==> EndsWith(v, "1"))
      && (r == Some(V2) <==> EndsWith(v, "2"))
  {
    var v := Lower(Trim(raw.GetOr("")));
    if v == [] then None
    else if v == "v1" || v == "a1" || v == "1" then Some(V1)
    else if v == "v2" || v == "a2" || v == "2" then Some(V2)
    else if EndsWith(v, "1") then Some(V1)
    else if EndsWith(v, "2") then Some(V2)
    else None
  }

  /** The variant named by query key `k` of the URL, if its value is recognised. */
  function QueryVariant(url: string, k: string): Option<Variant> {
    NormalizeVariant(UrlParam(url, k))
  }

  /** No query key names a variant. */
  predicate NoQueryVariant(url: string) {
    && QueryVariant(url, "view").None?
    && QueryVariant(url, "incident").None?
    && QueryVariant(url, "alarm").None?
    && QueryVariant(url, "a").None?
    && QueryVariant(url, "variant").None?
  }

  /** The priority order of the incident screen over its already-decoded
      signals: the first recognised query variant, then the `/alarm2` route,
      then the bound input, then `v1`. */
  function PickVariant(byView: Option<Variant>, byIncident: Option<Variant>,
                       byAlarm: Option<Variant>, byA: Option<Variant>,
                       byVariant: Option<Variant>, onAlarm2: bool,
                       input: Option<Variant>): (r: Variant)
    ensures byView.Some? ==> r == byView.value
    ensures byView.None? && byIncident.Some? ==> r == byIncident.value
    ensures byView.None? && byIncident.None? && byAlarm.Some? ==> r == byAlarm.value
    ensures byView.None? && byIncident.None? && byAlarm.None? && byA.Some? ==> r == byA.value
    ensures byView.None? && byIncident.None? && byAlarm.None? && byA.None? && byVariant.Some?
      ==> r == byVariant.value
    ensures byView.None? && byIncident.None? && byAlarm.None? && byA.None? && byVariant.None?
      ==> r == (if onAlarm2 then V2 else input.GetOr(V1))
  {
    if byView.Some? then byView.value
    else if byIncident.Some? then byIncident.value
    else if byAlarm.Some? then byAlarm.value
    else if byA.Some? then byA.value
    else if byVariant.Some? then byVariant.value
    else if onAlarm2 then V2
    else match input
      case Some(v) => v
      case None => V1
  }

  /** `resolveVariantKey`: query keys `view`, `incident`, `alarm`, `a`,
      `variant` in that order (an unrecognised value falls through), then an
      `/alarm2` anywhere in the lowercased URL, then the bound input, then `v1`. */
  function ResolveVariantKey(url: string, input: Option<Variant>): (r: Variant)
    ensures QueryVariant(url, "view").Some? ==> r == QueryVariant(url, "view").value
    ensures QueryVariant(url, "view").None? && QueryVariant(url, "incident").Some?
      ==> r == QueryVariant(url, "incident").value
    ensures QueryVariant(url, "view").None? && QueryVariant(url, "incident").None?
      && QueryVariant(url, "alarm").Some?
      ==> r == QueryVariant(url, "alarm").value
    ensures QueryVariant(url, "view").None? && QueryVariant(url, "incident").None?
      && QueryVariant(url, "alarm").None? && QueryVariant(url, "a").Some?
      ==> r == QueryVariant(url, "a").value
    ensures QueryVariant(url, "view").None? && QueryVariant(url, "incident").None?
      && QueryVariant(url, "alarm").None? && QueryVariant(url, "a").None?
      && QueryVariant(url, "variant").Some?
      ==> r == QueryVariant(url, "variant").value
    ensures NoQueryVariant(url) && Contains(Lower(url), "/alarm2") ==> r == V2
    ensures NoQueryVariant(url) && !Contains(Lower(url), "/alarm2") ==> r == input.GetOr(V1)
  {
    PickVariant(QueryVariant(url, "view"), QueryVariant(url, "incident"),
                QueryVariant(url, "alarm"), QueryVariant(url, "a"),
                QueryVariant(url, "variant"), Contains(Lower(url), "/alarm2"), input)
  }

  /** `syncVariantFromRouter`: the stored variant is rewritten only when the
      resolved one differs. */
  function SyncVariant(current: Variant, url: string, input: Option<Variant>): (r: (Variant, bool))
    ensures r.0 == ResolveVariantKey(url, input)
    ensures r.1 <==> current != r.0
  {
    var next := ResolveVariantKey(url, input);
    (next, next != current)
  }

  /** Re-resolving with the same URL and input changes nothing. */
  lemma SyncVariantSettles(current: Variant, url: string, input: Option<Variant>)
    ensures var first := SyncVariant(current, url, input);
      SyncVariant(first.0, url, input) == (first.0, false)
  {
  }

  /** The alarm layout component the incident screen renders. */
  datatype AlarmView = AlarmV1View | AlarmV2View

  function ActiveAlarmView(v: Variant): (c: AlarmView)
    ensures c == AlarmV2View <==> v == V2
  {
    if v == V2 then AlarmV2View else AlarmV1View
  }

  /** `isActive`: the header button for `view` is lit when the URL is on the
      matching fixed route. */
  function IsActive(url: string, view: Variant): (lit: bool)
    ensures lit ==> Contains(Lower(url), GoPath(view))
    ensures !Contains(Lower(url), "/alarm") ==> !lit
  {
    var u := Lower(url);
    if view == V1 then Contains(u, "/alarm") && !Contains(u, "/alarm2")
    else
      AlarmTwoIsAlarm(u);
      Contains(u, "/alarm2")
  }

  /** Every `/alarm2` route is also an `/alarm` route. */
  lemma AlarmTwoIsAlarm(u: string)
    ensures Contains(u, "/alarm2") ==> Contains(u, "/alarm")
  {
    if Contains(u, "/alarm2") {
      assert "/alarm" + "2" == "/alarm2";
      ContainsPrefixOf(u, "/alarm", "2");
    }
  }

  /** On an alarm route exactly one button is lit; elsewhere none is. */
  lemma OneButtonOnAlarmRoutes(url: string)
    ensures Contains(Lower(url), "/alarm") ==> IsActive(url, V1) != IsActive(url, V2)
    ensures !Contains(Lower(url), "/alarm") ==> !IsActive(url, V1) && !IsActive(url, V2)
  {
  }

  /** Without a query variant and a bound input, the lit button on an alarm
      route is the layout the screen resolves to. */
  lemma LitButtonIsResolved(url: string)
    requires NoQueryVariant(url) && Contains(Lower(url), "/alarm")
    ensures IsActive(url, ResolveVariantKey(url, None))
    ensures !IsActive(url, if ResolveVariantKey(url, None) == V1 then V2 else V1)
  {
  }

  /** The two buttons are never lit together, and on an `/alarm2` URL the
      `v2` button is always lit. */
  lemma IsActiveExclusive(url: string)
    ensures !(IsActive(url, V1) && IsActive(url, V2))
    ensures Contains(Lower(url), "/alarm2") ==> IsActive(url, V2) && !IsActive(url, V1)
  {
  }

  /** `go`: the fixed route of each variant. */
  function GoPath(view: Variant): string {
    if view == V1 then "/alarm" else "/alarm2"
  }

  /** After `go(v)` the URL is the fixed route of `v`: that button is lit
      and the other is not. */
  lemma GoLightsItsButton(view: Variant)
    ensures IsActive(GoPath(view), view)
    ensures !IsActive(GoPath(view), if view == V1 then V2 else V1)
  {
    assert Lower("/alarm") == "/alarm";
    assert Lower("/alarm2") == "/alarm2";
    assert StartsWith("/alarm", "/alarm");
    assert StartsWith("/alarm2", "/alarm2");
    assert !Contains("/alarm", "/alarm2") by {
      NotContainsLonger("/alarm", "/alarm2");
    }
    ContainsPrefixOf("/alarm2", "/alarm", "2");
  }

  lemma NotContainsLonger(s: string, p: string)
    requires |s| < |p|
    ensures !Contains(s, p)
    decreases |s|
  {
    if s != [] {
      NotContainsLonger(s[1..], p);
    }
  }

  // ---------------------------------------------------------------------------
  // Current incident
  // ---------------------------------------------------------------------------

  function IdOf(e: Option<Lea.Einsatz>): Option<string> {
    match e
    case Some(x) => Some(x.id)
    case None => None
  }

  /** The shown incident after `refreshEinsatz`, and whether it was replaced. */
  datatype Refresh = Refresh(einsatz: Option<Lea.Einsatz>, changed: bool)

  /** `refreshEinsatz`: the candidate is the first incident of the list (none
      for an empty list); it replaces the shown one only when the identifier
      or the presence differs. */
  function RefreshEinsatz(current: Option<Lea.Einsatz>, list: seq<Lea.Einsatz>): (r: Refresh)
    ensures IdOf(r.einsatz) == (if |list| > 0 then Some(list[0].id) else None)
    ensures r.changed <==> IdOf(current) != IdOf(r.einsatz)
    ensures r.changed ==> r.einsatz == (if |list| > 0 then Some(list[0]) else None)
    ensures !r.changed ==> r.einsatz == current
  {
    var next := if |list| > 0 then Some(list[0]) else None;
    var changed := IdOf(current) != IdOf(next) || current.Some? != next.Some?;
    Refresh(if changed then next else current, changed)
  }

  /** Refreshing again from the same list changes nothing. */
  lemma RefreshSettles(current: Option<Lea.Einsatz>, list: seq<Lea.Einsatz>)
    ensures var r := RefreshEinsatz(current, list);
      RefreshEinsatz(r.einsatz, list) == Refresh(r.einsatz, false)
  {
  }

  /** A newer copy of the same incident (same identifier, other contents, say
      new crew responses) does not replace the shown one. */
  lemma RefreshKeepsSameIdentifier(current: Lea.Einsatz, list: seq<Lea.Einsatz>)
    requires |list| > 0 && list[0].id == current.id
    ensures RefreshEinsatz(Some(current), list).einsatz == Some(current)
  {
  }

  // ---------------------------------------------------------------------------
  // Display helpers
  // ---------------------------------------------------------------------------

  /** Whole seconds as hours, minutes below 60 and seconds below 60. */
  function ClockParts(totalSec: nat): (p: (nat, nat, nat))
    ensures p.0 * 3600 + p.1 * 60 + p.2 == totalSec
    ensures p.1 < 60 && p.2 < 60
  {
    var h := totalSec / 3600;
    var rem := totalSec % 3600;
    (h, rem / 60, totalSec % 60)
  }

  /** `alarmtime` is falsy: no incident or a zero timestamp. */
  predicate AlarmMissing(e: Option<Lea.Einsatz>) {
    e.None? || e.value.alarmtime == 0
  }

  const Dash := "\U{2014}"

  /** `elapsed`: a dash without an alarm time, otherwise `HH:MM:SS` of the
      whole seconds since the alarm (never negative). The three fields read
      back as that number of seconds. */
  function Elapsed(now: int, e: Option<Lea.Einsatz>): (r: string)
    ensures AlarmMissing(e) <==> r == Dash
    ensures !AlarmMissing(e) ==>
      var parts := Split(r, ':');
      && |parts| == 3
      && (forall k :: 0 <= k < 3 ==> |parts[k]| >= 2 && AllDigits(parts[k]))
      && |parts[1]| == 2 && |parts[2]| == 2
      && (|parts[0]| == 2 || parts[0][0] != '0')
      && DigitsValue(parts[0]) * 3600 + DigitsValue(parts[1]) * 60 + DigitsValue(parts[2])
         == Max(0, now - e.value.alarmtime) / 1000
      && DigitsValue(parts[1]) < 60 && DigitsValue(parts[2]) < 60
  {
    if AlarmMissing(e) then Dash
    else
      var ms := Max(0, now - e.value.alarmtime);
      var p := ClockParts(ms / 1000);
      var r := Pad2(p.0) + ":" + Pad2(p.1) + ":" + Pad2(p.2);
      ReadClockText(Pad2(p.0), Pad2(p.1), Pad2(p.2));
      Pad2ReadsBack(p.0);
      Pad2ReadsBack(p.1);
      Pad2ReadsBack(p.2);
      r
  }

  /** Splitting `a:b:c` on `:` gives back the three digit fields. */
  lemma ReadClockText(a: string, b: string, c: string)
    requires AllDigits(a) && AllDigits(b) && AllDigits(c)
    ensures Split(a + ":" + b + ":" + c, ':') == [a, b, c]
  {
    assert !IsDigit(':');
    assert ':' !in a && ':' !in b && ':' !in c;
    assert a + ":" + b + ":" + c == a + [':'] + (b + [':'] + c);
    SplitAfterPart(a, ':', b + [':'] + c);
    SplitAfterPart(b, ':', c);
    SplitWithoutSeparator(c, ':');
  }

  /** A zero-padded field reads back as the number it pads. */
  lemma Pad2ReadsBack(n: nat)
    ensures DigitsValue(Pad2(n)) == n
  {
    DigitsValueOfNatToString(n);
    if n < 10 {
      var s := "0" + NatToString(n);
      assert s[..|s| - 1] == "0";
      assert DigitsValue("0") == 0 by {
        assert "0"[..0] == [];
      }
    }
  }

  /** `meldebild`: the headline. Event type and text, each trimmed, joined by
      a dash when both are present, otherwise whichever is present, otherwise
      `ALARM`; never empty. */
  function Meldebild(e: Option<Lea.Einsatz>): (r: string)
    ensures r != []
    ensures e.None? ==> r == "ALARM"
    ensures e.Some? ==>
      var typ := Trim(e.value.eventtype);
      var text := Trim(e.value.eventtypetext);
      && (typ != [] && text != [] ==> r == typ + " \U{2013} " + text)
      && (typ != [] && text == [] ==> r == typ)
      && (typ == [] && text != [] ==> r == text)
      && (typ == [] && text == [] ==> r == "ALARM")
  {
    match e
    case None => "ALARM"
    case Some(x) =>
      var typ := Trim(x.eventtype);
      var text := Trim(x.eventtypetext);
      if typ != [] && text != [] then typ + " \U{2013} " + text
      else OrElse(typ, OrElse(text, "ALARM"))
  }
}
