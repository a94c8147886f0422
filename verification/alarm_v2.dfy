/** The second incident layout: the coordinates an operator types in, the
    Street View availability check, the four Street View tiles and the
    alternation between Street View and the map. The Google key of the
    environment is a parameter (`""` when it is not configured); the metadata
    request, the timers, Leaflet and the route lookup are not part of this
    model, and neither is the text of a number, which is a parameter `fmt`. */
module AlarmV2 {
  import opened Base
  import opened JsText
  import Lea

  // ---------------------------------------------------------------------------
  // Typed coordinates
  // ---------------------------------------------------------------------------

  /** The text of one coordinate as the input pattern accepts it: an optional
      minus, digits, and optionally a point followed by digits. */
  predicate IsCoordNumber(s: string) {
    var u := if s != [] && s[0] == '-' then s[1..] else s;
    var ip := LeadingDigits(u);
    && ip != []
    && (ip == u || (u[|ip|] == '.' && |u| > |ip| + 1 && AllDigits(u[|ip| + 1..])))
  }

  /** The value `parseFloat` reads from such a text, as an exact decimal. */
  function CoordValue(s: string): (v: real)
    requires IsCoordNumber(s)
    ensures (s[0] == '-') == (v < 0.0) || v == 0.0
  {
    var neg := s[0] == '-';
    var u := if neg then s[1..] else s;
    var ip := LeadingDigits(u);
    var mag: real :=
      if ip == u then DigitsValue(ip) as real
      else DigitsValue(ip) as real + DigitsValue(u[|ip| + 1..]) as real / Pow10(|u| - |ip| - 1) as real;
    if neg then -mag else mag
  }

  /** A coordinate text has no whitespace at either end and no comma. */
  lemma CoordNumberShape(s: string)
    requires IsCoordNumber(s)
    ensures s != [] && !IsSpace(s[0]) && !IsSpace(s[|s| - 1])
    ensures ',' !in s
  {
    var u := if s != [] && s[0] == '-' then s[1..] else s;
    var ip := LeadingDigits(u);
    assert forall i :: 0 <= i < |u| ==> IsDigit(u[i]) || (u[i] == '.' && i == |ip|) by {
      if ip != u {
        forall i | 0 <= i < |u| ensures IsDigit(u[i]) || (u[i] == '.' && i == |ip|) {
          if i > |ip| {
            assert u[i] == u[|ip| + 1..][i - |ip| - 1];
          }
        }
      }
    }
    assert s[|s| - 1] == u[|u| - 1];
  }

  /** How the pattern `^\s*(-?\d+(\.\d+)?)\s*,\s*(-?\d+(\.\d+)?)\s*$` cuts a
      matching text: leading blanks, latitude, blanks, the comma, blanks,
      longitude, trailing blanks. */
  datatype CoordMatch = CoordMatch(
    lead: string, lat: string, beforeComma: string,
    afterComma: string, lon: string, tail: string)

  predicate WellFormed(m: CoordMatch) {
    && AllSpace(m.lead) && AllSpace(m.beforeComma)
    && AllSpace(m.afterComma) && AllSpace(m.tail)
    && IsCoordNumber(m.lat) && IsCoordNumber(m.lon)
  }

  function MatchText(m: CoordMatch): string {
    (m.lead + m.lat + m.beforeComma) + [','] + (m.afterComma + m.lon + m.tail)
  }

  /** Cuts a text into its leading blanks, its trimmed core and its
      trailing blanks. */
  function Blanks(s: string): (r: (string, string, string))
    ensures r.0 + r.1 + r.2 == s
    ensures AllSpace(r.0) && AllSpace(r.2)
    ensures r.1 == TrimEnd(TrimStart(s))
  {
    var t := TrimStart(s);
    var core := TrimEnd(t);
    TrimStartDrops(s);
    TrimParts(s);
    (s[..|s| - |t|], core, t[|core|..])
  }

  lemma TrimParts(s: string)
    ensures var t := TrimStart(s);
      var core := TrimEnd(t);
      s == s[..|s| - |t|] + core + t[|core|..]
  {
    var t := TrimStart(s);
    var core := TrimEnd(t);
    var i := |s| - |t|;
    var j := i + |core|;
    TrimStartDrops(s);
    assert t == s[i..];
    assert core == s[i..j];
    assert t[|core|..] == s[j..];
    CutThree(s, i, j);
  }

  lemma CutThree(s: string, i: nat, j: nat)
    requires i <= j <= |s|
    ensures s == s[..i] + s[i..j] + s[j..]
  {
  }

  /** Matches the input against the pattern. A match is a well-formed cut of
      exactly the input text. */
  function MatchCoords(raw: string): (r: Option<CoordMatch>)
    ensures r.Some? ==> WellFormed(r.value) && MatchText(r.value) == raw
  {
    var c := IndexOf(raw, ',');
    if c == |raw| then None
    else
      var b1 := Blanks(raw[..c]);
      var b2 := Blanks(raw[c + 1..]);
      if IsCoordNumber(b1.1) && IsCoordNumber(b2.1) then
        var m := CoordMatch(b1.0, b1.1, b1.2, b2.0, b2.1, b2.2);
        JoinAtComma(raw, c, m);
        Some(m)
      else None
  }

  /** Gluing the two halves of a cut back around the comma. */
  lemma JoinAtComma(raw: string, c: nat, m: CoordMatch)
    requires c < |raw| && raw[c] == ','
    requires m.lead + m.lat + m.beforeComma == raw[..c]
    requires m.afterComma + m.lon + m.tail == raw[c + 1..]
    ensures MatchText(m) == raw
  {
    assert raw == raw[..c] + [raw[c]] + raw[c + 1..];
  }

  /** Blanks contain no comma. */
  lemma NoCommaInBlanks(s: string)
    requires AllSpace(s)
    ensures ',' !in s
  {
  }

  /** `Blanks` undoes gluing blanks around a core without outer blanks. */
  lemma BlanksOf(lead: string, core: string, tail: string)
    requires AllSpace(lead) && AllSpace(tail)
    requires core != [] && !IsSpace(core[0]) && !IsSpace(core[|core| - 1])
    ensures Blanks(lead + core + tail) == (lead, core, tail)
  {
    assert lead + core + tail == lead + (core + tail);
    TrimStartSkips(lead, core + tail);
    TrimEndSkips(core, tail);
    var r := Blanks(lead + core + tail);
    assert |r.0| == |lead|;
  }

  /** The first comma of a text whose prefix has none is the one after it. */
  lemma FirstComma(before: string, after: string)
    requires ',' !in before
    ensures IndexOf(before + [','] + after, ',') == |before|
  {
    var raw := before + [','] + after;
    var c := IndexOf(raw, ',');
    assert raw[|before|] == ',';
  }

  /** Every text of the pattern's shape matches, and is cut the same way:
      with the soundness clause of `MatchCoords` the function is exactly the
      pattern. */
  lemma MatchCoordsComplete(m: CoordMatch)
    requires WellFormed(m)
    ensures MatchCoords(MatchText(m)) == Some(m)
  {
    CoordNumberShape(m.lat);
    CoordNumberShape(m.lon);
    NoCommaInBlanks(m.lead);
    NoCommaInBlanks(m.beforeComma);
    var raw := MatchText(m);
    var before := m.lead + m.lat + m.beforeComma;
    var after := m.afterComma + m.lon + m.tail;
    FirstComma(before, after);
    var c := |before|;
    assert raw[..c] == before && raw[c + 1..] == after;
    BlanksOf(m.lead, m.lat, m.beforeComma);
    BlanksOf(m.afterComma, m.lon, m.tail);
  }

  /** The two values the input denotes, when it has the expected shape. */
  function ParseCoords(raw: string): (r: Option<(real, real)>)
    ensures r.Some? <==> MatchCoords(raw).Some?
  {
    match MatchCoords(raw)
    case None => None
    case Some(m) => Some((CoordValue(m.lat), CoordValue(m.lon)))
  }

  predicate InRange(lat: real, lon: real) {
    -90.0 <= lat <= 90.0 && -180.0 <= lon <= 180.0
  }

  const NoIncidentError := "Kein Einsatz geladen."
  const FormatError := "Ung\U{FC}ltiges Format. Beispiel: 47.7067411321, 15.8170643696"
  const RangeError := "Latitude/Longitude au\U{DF}erhalb g\U{FC}ltiger Bereiche."

  // ---------------------------------------------------------------------------
  // Component state
  // ---------------------------------------------------------------------------

  datatype SvStatus = Unknown | Checking | Ok | NoPanorama | Error

  /** What the availability check remembers: the key and the coordinates it
      asked for (the component joins them into one text). */
  datatype CheckKey = CheckKey(key: string, lat: real, lon: real)

  /** `altTimer` records whether the alternation interval is set. */
  datatype V2State = V2State(
    einsatz: Option<Lea.Einsatz>,
    coordString: string,
    coordError: Option<string>,
    svStatus: SvStatus,
    lastCheckedKey: Option<CheckKey>,
    lastRouteKey: Option<CheckKey>,
    showStreetView: bool,
    altTimer: bool)

  /** The state the component is created in: Street View shown first. */
  const InitialV2 := V2State(None, "", None, Unknown, None, None, true, false)

  /** The coordinates of the loaded incident, when both are present. */
  function Coords(e: Option<Lea.Einsatz>): (r: Option<(real, real)>)
    ensures r.Some? <==>
      e.Some? && e.value.location.Some? && e.value.location.value.x.Some? && e.value.location.value.y.Some?
  {
    if e.Some? && e.value.location.Some? && e.value.location.value.x.Some? && e.value.location.value.y.Some? then
      Some((e.value.location.value.x.value, e.value.location.value.y.value))
    else None
  }

  /** The outcome of checking an input: the error message shown, or the
      two accepted values. */
  datatype Verdict = Rejected(message: string) | Accepted(lat: real, lon: real)

  /** The checks of the coordinate input, in the component's order: an incident
      must be loaded, the text must have the expected shape, and both values
      must lie inside the latitude and longitude ranges. */
  function CoordsVerdict(loaded: bool, raw: string): (v: Verdict)
    ensures !loaded ==> v == Rejected(NoIncidentError)
    ensures loaded && ParseCoords(raw).None? ==> v == Rejected(FormatError)
    ensures loaded && ParseCoords(raw).Some? ==>
      (var p := ParseCoords(raw).value;
       if InRange(p.0, p.1) then v == Accepted(p.0, p.1) else v == Rejected(RangeError))
  {
    if !loaded then Rejected(NoIncidentError)
    else match ParseCoords(raw)
      case None => Rejected(FormatError)
      case Some(p) => if InRange(p.0, p.1) then Accepted(p.0, p.1) else Rejected(RangeError)
  }

  /** The coordinate input handler. On every error the incident and the input
      text stay as they were and the message is shown; on success the
      incident's location (created when absent) holds the latitude as `x` and
      the longitude as `y`, and the input text is rewritten from the values. */
  function ApplyCoords(s: V2State, raw: string, fmt: real -> string): (r: (V2State, bool))
    ensures var v := CoordsVerdict(s.einsatz.Some?, raw);
      && (r.1 <==> v.Accepted?)
      && (v.Rejected? ==> r.0 == s.(coordError := Some(v.message)))
      && (v.Accepted? ==>
            && Coords(r.0.einsatz) == Some((v.lat, v.lon))
            && r.0.coordString == fmt(v.lat) + ", " + fmt(v.lon)
            && r.0 == s.(einsatz := r.0.einsatz, coordString := r.0.coordString))
  {
    match CoordsVerdict(s.einsatz.Some?, raw)
    case Rejected(msg) => (s.(coordError := Some(msg)), false)
    case Accepted(lat, lon) =>
      var e := s.einsatz.value;
      var loc := e.location.GetOr(Lea.NoLocation);
      var e2 := e.(location := Some(loc.(x := Some(lat), y := Some(lon))));
      (s.(einsatz := Some(e2), coordString := fmt(lat) + ", " + fmt(lon)), true)
  }

  /** Apart from the two coordinates, an accepted input changes nothing of
      the incident: its other fields and the other location fields stay. */
  lemma ApplyCoordsKeepsIncident(s: V2State, raw: string, fmt: real -> string)
    ensures ApplyCoords(s, raw, fmt).1 ==>
      var e := s.einsatz.value;
      var e2 := ApplyCoords(s, raw, fmt).0.einsatz.value;
      && e2.(location := e.location) == e
      && e2.location.value.(x := None, y := None)
         == e.location.GetOr(Lea.NoLocation).(x := None, y := None)
  {
  }

  /** A typed pair inside the ranges is stored exactly as typed. */
  lemma TypedCoordsStored(s: V2State, m: CoordMatch, fmt: real -> string)
    requires s.einsatz.Some? && WellFormed(m)
    requires InRange(CoordValue(m.lat), CoordValue(m.lon))
    ensures ApplyCoords(s, MatchText(m), fmt).1
    ensures Coords(ApplyCoords(s, MatchText(m), fmt).0.einsatz) == Some((CoordValue(m.lat), CoordValue(m.lon)))
  {
    MatchCoordsComplete(m);
  }

  /** A typed pair outside the ranges is refused with the range message, and
      the incident keeps its location. */
  lemma TypedCoordsOutOfRange(s: V2State, m: CoordMatch, fmt: real -> string)
    requires s.einsatz.Some? && WellFormed(m)
    requires !InRange(CoordValue(m.lat), CoordValue(m.lon))
    ensures ApplyCoords(s, MatchText(m), fmt) == (s.(coordError := Some(RangeError)), false)
  {
    MatchCoordsComplete(m);
  }

  // ---------------------------------------------------------------------------
  // Street View availability and alternation
  // ---------------------------------------------------------------------------

  /** The answer of the metadata request: the request failed (network,
      timeout, unreadable body), the response was not ok, or the JSON
      `status` field (absent when the body has none). */
  datatype MetaOutcome = RequestFailed | NotOk | Meta(status: Option<string>)

  function StatusOf(o: MetaOutcome): (st: SvStatus)
    ensures st == Ok <==> o == Meta(Some("OK"))
    ensures st == NoPanorama <==> o == Meta(Some("ZERO_RESULTS"))
    ensures st in {Ok, NoPanorama, Error}
  {
    match o
    case Meta(Some(t)) =>
      if t == "OK" then Ok else if t == "ZERO_RESULTS" then NoPanorama else Error
    case _ => Error
  }

  /** `updateAlternateTimer`: the interval runs, starting on Street View,
      exactly when a key is configured and a panorama was found; otherwise
      the map is shown. */
  function UpdateAlternateTimer(s: V2State, key: string): (r: V2State)
    ensures r.showStreetView <==> key != "" && s.svStatus == Ok
    ensures r.altTimer == r.showStreetView
    ensures r.(showStreetView := s.showStreetView, altTimer := s.altTimer) == s
  {
    var on := key != "" && s.svStatus == Ok;
    s.(showStreetView := on, altTimer := on)
  }

  /** One interval tick (ticks only arrive while the interval is set): when
      the panorama is gone the map stays for good, otherwise the two views
      swap. */
  function AltTick(s: V2State): (r: V2State)
    ensures !s.altTimer ==> r == s
    ensures s.altTimer ==> (r.showStreetView ==> s.svStatus == Ok)
    ensures s.altTimer && s.svStatus != Ok ==> !r.showStreetView && !r.altTimer
    ensures s.altTimer && s.svStatus == Ok ==> r.showStreetView != s.showStreetView && r.altTimer
    ensures r.svStatus == s.svStatus && r.einsatz == s.einsatz
  {
    if !s.altTimer then s
    else if s.svStatus != Ok then s.(showStreetView := false, altTimer := false)
    else s.(showStreetView := !s.showStreetView)
  }

  /** With the panorama available, two ticks bring the same view back. */
  lemma AltTickPeriodTwo(s: V2State)
    requires s.altTimer && s.svStatus == Ok
    ensures AltTick(AltTick(s)) == s
  {
  }

  /** The part of the availability check that runs before the request: it
      gives the new state and whether a metadata request goes out. Without
      coordinates the status is `unknown`; without a key it is `error`; a
      settled answer (`ok` or `none`) for the same key and place is kept;
      otherwise the check starts and remembers what it asks for. */
  function CheckStart(s: V2State, key: string): (r: (V2State, bool))
    ensures r.1 <==> Coords(s.einsatz).Some? && key != ""
                     && !(s.lastCheckedKey == Some(CheckKey(key, Coords(s.einsatz).value.0, Coords(s.einsatz).value.1))
                          && s.svStatus in {Ok, NoPanorama})
    ensures r.1 ==> r.0.svStatus == Checking
                    && r.0.lastCheckedKey == Some(CheckKey(key, Coords(s.einsatz).value.0, Coords(s.einsatz).value.1))
    ensures Coords(s.einsatz).None? ==> r.0 == s.(svStatus := Unknown)
    ensures Coords(s.einsatz).Some? && key == "" ==> r.0.svStatus == Error && !r.0.showStreetView
    ensures !r.1 && Coords(s.einsatz).Some? && key != "" ==> r.0.svStatus == s.svStatus
    ensures r.0.einsatz == s.einsatz
  {
    match Coords(s.einsatz)
    case None => (s.(svStatus := Unknown), false)
    case Some(p) =>
      if key == "" then (UpdateAlternateTimer(s.(svStatus := Error), key), false)
      else
        var sig := CheckKey(key, p.0, p.1);
        if s.lastCheckedKey == Some(sig) && (s.svStatus == Ok || s.svStatus == NoPanorama) then
          (UpdateAlternateTimer(s, key), false)
        else
          (s.(svStatus := Checking, lastCheckedKey := Some(sig)), true)
  }

  /** The answer to the metadata request sets the final status, and only then
      the alternation is decided. */
  function OnMetadata(s: V2State, key: string, o: MetaOutcome): (r: V2State)
    ensures r.svStatus in {Ok, NoPanorama, Error}
    ensures r.showStreetView <==> key != "" && o == Meta(Some("OK"))
    ensures r.lastCheckedKey == s.lastCheckedKey && r.einsatz == s.einsatz
  {
    UpdateAlternateTimer(s.(svStatus := StatusOf(o)), key)
  }

  /** A check answered `OK` or `ZERO_RESULTS` is not asked again for the same
      key and place, and the view it chose stays. */
  lemma SettledCheckIsKept(s: V2State, key: string, o: MetaOutcome)
    requires CheckStart(s, key).1
    requires o == Meta(Some("OK")) || o == Meta(Some("ZERO_RESULTS"))
    ensures var answered := OnMetadata(CheckStart(s, key).0, key, o);
      && !CheckStart(answered, key).1
      && CheckStart(answered, key).0 == answered
  {
  }

  /** A failed check is asked again on the next occasion. */
  lemma FailedCheckIsRetried(s: V2State, key: string, o: MetaOutcome)
    requires CheckStart(s, key).1
    requires StatusOf(o) == Error
    ensures CheckStart(OnMetadata(CheckStart(s, key).0, key, o), key).1
  {
  }

  /** The component's reaction to a new incident: the input text shows the
      incident's coordinates (empty without them), the error is cleared, the
      availability check starts and the alternation follows its status. */
  function OnEinsatzChange(s: V2State, e: Option<Lea.Einsatz>, key: string, fmt: real -> string): (r: (V2State, bool))
    ensures Coords(e).Some? ==> r.0.coordString == fmt(Coords(e).value.0) + ", " + fmt(Coords(e).value.1)
    ensures Coords(e).None? ==> r.0.coordString == ""
    ensures r.0.coordError.None? && r.0.einsatz == e
    ensures r.0.showStreetView ==> key != "" && r.0.svStatus == Ok
  {
    var text := match Coords(e)
      case Some(p) => fmt(p.0) + ", " + fmt(p.1)
      case None => "";
    var c := CheckStart(s.(einsatz := e, coordString := text, coordError := None), key);
    (UpdateAlternateTimer(c.0, key), c.1)
  }

  /** After the view is set up, a missing key with coordinates present shows
      the map straight away. */
  function AfterViewInit(s: V2State, key: string): (r: V2State)
    ensures key == "" && Coords(s.einsatz).Some? ==> r.svStatus == Error && !r.showStreetView && !r.altTimer
    ensures !(key == "" && Coords(s.einsatz).Some?) ==> r == s
  {
    if key == "" && Coords(s.einsatz).Some? then UpdateAlternateTimer(s.(svStatus := Error), key) else s
  }

  /** `saveCoords`: the error is cleared, then the input is applied; when it
      is accepted the remembered check and route keys are forgotten, the
      check starts again and the alternation follows. Returns the state and
      whether a metadata request goes out. */
  function SaveCoords(s: V2State, raw: string, key: string, fmt: real -> string): (r: (V2State, bool))
    ensures !ApplyCoords(s, raw, fmt).1 ==> r == (ApplyCoords(s.(coordError := None), raw, fmt).0, false)
    ensures ApplyCoords(s, raw, fmt).1 ==> r.0.coordError.None? && r.0.lastRouteKey.None?
  {
    var a := ApplyCoords(s.(coordError := None), raw, fmt);
    if !a.1 then (a.0, false)
    else
      var c := CheckStart(a.0.(lastCheckedKey := None, lastRouteKey := None), key);
      (UpdateAlternateTimer(c.0, key), c.1)
  }

  /** An accepted input always leads to a fresh check when a key is
      configured, and Street View stays hidden until its answer arrives;
      without a key the map is shown for good. */
  lemma SaveHidesStreetViewUntilAnswer(s: V2State, raw: string, key: string, fmt: real -> string)
    ensures ApplyCoords(s, raw, fmt).1 ==>
      && !SaveCoords(s, raw, key, fmt).0.showStreetView
      && (SaveCoords(s, raw, key, fmt).1 <==> key != "")
      && (key != "" ==> SaveCoords(s, raw, key, fmt).0.svStatus == Checking)
      && (key == "" ==> SaveCoords(s, raw, key, fmt).0.svStatus == Error)
  {
    if ApplyCoords(s, raw, fmt).1 {
      var a := ApplyCoords(s.(coordError := None), raw, fmt);
      assert a.0.einsatz == ApplyCoords(s, raw, fmt).0.einsatz;
    }
  }

  // ---------------------------------------------------------------------------
  // Street View tiles
  // ---------------------------------------------------------------------------

  const Headings: seq<int> := [0, 90, 180, 270]
  const Pitch := 0
  const Fov := 90

  /** The query of one Street View image: tile size, place, direction,
      pitch, field of view, the outdoor source, the key and a cache buster. */
  datatype SvImage = SvImage(
    width: int, height: int, lat: real, lon: real,
    heading: int, pitch: int, fov: int, source: string, key: string, ts: int)

  /** `buildSvUrls`: one image per heading, in heading order; none without a
      key or without coordinates. */
  function BuildSvUrls(s: V2State, key: string, tileW: int, tileH: int, bust: int): (r: seq<SvImage>)
    ensures r == [] <==> key == "" || Coords(s.einsatz).None?
    ensures r != [] ==> |r| == |Headings|
    ensures forall i :: 0 <= i < |r| ==>
      && r[i].heading == Headings[i]
      && (r[i].lat, r[i].lon) == Coords(s.einsatz).value
      && r[i].key == key && r[i].source == "outdoor"
      && r[i].pitch == Pitch && r[i].fov == Fov
      && r[i].width == tileW && r[i].height == tileH && r[i].ts == bust
  {
    match Coords(s.einsatz)
    case None => []
    case Some(p) =>
      if key == "" then []
      else
        seq(|Headings|, i requires 0 <= i < |Headings| =>
          SvImage(tileW, tileH, p.0, p.1, Headings[i], Pitch, Fov, "outdoor", key, bust))
  }

  /** `buildSvUrlsLoop`: the tiles twice over, for a seamless scroll. */
  function BuildSvUrlsLoop(u: seq<SvImage>): (r: seq<SvImage>)
    ensures |r| == 2 * |u|
    ensures forall i :: 0 <= i < |r| ==> r[i] == u[i % |u|]
  {
    if |u| > 0 then u + u else u
  }

  /** The loop lists every tile of the four headings exactly twice. */
  lemma LoopShowsEachHeadingTwice(s: V2State, key: string, tileW: int, tileH: int, bust: int)
    requires key != "" && Coords(s.einsatz).Some?
    ensures var l := BuildSvUrlsLoop(BuildSvUrls(s, key, tileW, tileH, bust));
      && |l| == 8
      && forall i :: 0 <= i < 4 ==> l[i].heading == l[i + 4].heading == Headings[i]
  {
  }
}
