/** The display mode of the screen: the incident list from the polled feed,
    the automatic mode derived from it, a manual override, and the choice of
    live or mock data. Each poll result is an input; the HTTP request, the
    ten-second timer and the re-subscription on a source switch are not part
    of this model. */
module ModeService {
  import opened Base
  import opened JsText
  import opened Url
  import Lea

  datatype ScreenMode = Ruhe | Einsatz

  /** The manual override: `none`, or a pinned mode. */
  datatype Override = NoOverride | Pinned(mode: ScreenMode)

  /** The feed the service polls. */
  datatype Source = Live | Mock

  /** A property of the JSON object the feed returned. */
  datatype Field = Missing | NotArray | ArrayOf(items: seq<Lea.Einsatz>)

  /** The body of a successful poll: a bare array, an object (with its
      `einsaetze` and `data` properties), or a value that is neither
      (`null`, a number, a string). */
  datatype Payload =
    | BareArray(items: seq<Lea.Einsatz>)
    | Record(einsaetze: Field, data: Field)
    | NonObject

  datatype PollOutcome = Received(body: Payload) | HttpError

  datatype ModeState = ModeState(
    source: Source,
    autoMode: ScreenMode,
    manual: Override,
    einsaetze: seq<Lea.Einsatz>)

  /** The state the service starts in: live, `ruhe`, no override, no incidents. */
  const Initial := ModeState(Live, Ruhe, NoOverride, [])

  /** The incident list of a poll body: a bare array as it is, otherwise the
      `einsaetze` array, otherwise the `data` array, otherwise empty. */
  function NormalizePayload(p: Payload): (list: seq<Lea.Einsatz>)
    ensures p.BareArray? ==> list == p.items
    ensures p.Record? && p.einsaetze.ArrayOf? ==> list == p.einsaetze.items
    ensures p.Record? && !p.einsaetze.ArrayOf? && p.data.ArrayOf? ==> list == p.data.items
    ensures p.NonObject? || (p.Record? && !p.einsaetze.ArrayOf? && !p.data.ArrayOf?) ==> list == []
  {
    match p
    case BareArray(items) => items
    case Record(einsaetze, data) =>
      if einsaetze.ArrayOf? then einsaetze.items
      else if data.ArrayOf? then data.items
      else []
    case NonObject => []
  }

  /** The three shapes the feed may use carry the same list the same way. */
  lemma ShapesAgree(list: seq<Lea.Einsatz>, other: Field)
    ensures NormalizePayload(BareArray(list)) == list
    ensures NormalizePayload(Record(ArrayOf(list), other)) == list
    ensures NormalizePayload(Record(Missing, ArrayOf(list))) == list
    ensures NormalizePayload(Record(NotArray, ArrayOf(list))) == list
  {
  }

  /** The list a poll delivers: an HTTP error delivers the empty list. */
  function PollList(o: PollOutcome): (list: seq<Lea.Einsatz>)
    ensures o.HttpError? ==> list == []
    ensures o.Received? ==> list == NormalizePayload(o.body)
  {
    match o
    case HttpError => []
    case Received(body) => NormalizePayload(body)
  }

  /** The subscriber of the poll: the list replaces the incidents, and the
      automatic mode is `einsatz` exactly when the list is not empty. The
      source and the override are untouched. */
  function OnPoll(s: ModeState, o: PollOutcome): (r: ModeState)
    ensures r.einsaetze == PollList(o)
    ensures r.autoMode == Einsatz <==> |PollList(o)| > 0
    ensures r.source == s.source && r.manual == s.manual
  {
    var list := PollList(o);
    s.(einsaetze := list, autoMode := if |list| > 0 then Einsatz else Ruhe)
  }

  /** `mode`: the override when one is pinned, otherwise the automatic mode. */
  function Mode(s: ModeState): (m: ScreenMode)
    ensures s.manual.Pinned? ==> m == s.manual.mode
    ensures s.manual.NoOverride? ==> m == s.autoMode
  {
    match s.manual
    case Pinned(mode) => mode
    case NoOverride => s.autoMode
  }

  /** `isEinsatz`: the incident screen shows, pinned or by the feed. */
  predicate IsEinsatz(s: ModeState)
    ensures IsEinsatz(s) <==>
      s.manual == Pinned(Einsatz) || (s.manual.NoOverride? && s.autoMode == Einsatz)
  {
    Mode(s) == Einsatz
  }

  /** `isRuhe`: the rest screen shows, pinned or by the feed. */
  predicate IsRuhe(s: ModeState)
    ensures IsRuhe(s) <==>
      s.manual == Pinned(Ruhe) || (s.manual.NoOverride? && s.autoMode == Ruhe)
  {
    Mode(s) == Ruhe
  }

  /** Exactly one of the two convenience flags holds. */
  lemma ExactlyOneMode(s: ModeState)
    ensures IsEinsatz(s) != IsRuhe(s)
  {
  }

  function SetManualOverride(s: ModeState, m: ScreenMode): (r: ModeState)
    ensures Mode(r) == m
    ensures r.source == s.source && r.autoMode == s.autoMode && r.einsaetze == s.einsaetze
  {
    s.(manual := Pinned(m))
  }

  function ClearManualOverride(s: ModeState): (r: ModeState)
    ensures r.manual == NoOverride
    ensures r.source == s.source && r.autoMode == s.autoMode && r.einsaetze == s.einsaetze
  {
    s.(manual := NoOverride)
  }

  /** Clearing the override gives the mode back to the feed: after the next
      poll the screen shows `einsatz` exactly when the feed lists an incident,
      whatever was pinned before. */
  lemma ClearRestoresAuto(s: ModeState, o: PollOutcome)
    ensures Mode(ClearManualOverride(s)) == s.autoMode
    ensures Mode(OnPoll(ClearManualOverride(s), o)) == Einsatz <==> |PollList(o)| > 0
  {
  }

  /** A pinned mode survives every poll, an HTTP error included. */
  lemma OverrideSurvivesPoll(s: ModeState, m: ScreenMode, o: PollOutcome)
    ensures Mode(OnPoll(SetManualOverride(s, m), o)) == m
  {
  }

  /** Without an override, a failed poll empties the list and shows `ruhe`. */
  lemma ErrorShowsRuhe(s: ModeState)
    requires s.manual.NoOverride?
    ensures OnPoll(s, HttpError).einsaetze == []
    ensures Mode(OnPoll(s, HttpError)) == Ruhe
  {
  }

  /** `useMockData`: the new state and whether a new source was emitted (the
      source subject only emits when the selection changes). */
  function UseMockData(s: ModeState, enable: bool): (r: (ModeState, bool))
    ensures r.0.source == (if enable then Mock else Live)
    ensures r.1 <==> s.source != r.0.source
    ensures r.0.autoMode == s.autoMode && r.0.manual == s.manual && r.0.einsaetze == s.einsaetze
  {
    var next := if enable then Mock else Live;
    if s.source != next then (s.(source := next), true) else (s, false)
  }

  /** Selecting the same source twice emits once: the second call changes
      nothing and emits nothing. */
  lemma UseMockDataIdempotent(s: ModeState, enable: bool)
    ensures var first := UseMockData(s, enable).0;
      UseMockData(first, enable) == (first, false)
  {
  }

  /** The start-up handling of the page's `test` query value: `1` selects
      mock data and clears the override, anything else selects live data;
      then `ruhe` and `einsatz` pin that mode. `search` is the page's
      `location.search`. */
  function Startup(s: ModeState, search: string): (r: ModeState)
    ensures var test := Lower(SearchGet(ParseSearch(search), "test").GetOr(""));
      && (r.source == Mock <==> test == "1")
      && (test == "1" ==> r.manual == NoOverride)
      && (test == "ruhe" ==> r.manual == Pinned(Ruhe))
      && (test == "einsatz" ==> r.manual == Pinned(Einsatz))
      && (test != "1" && test != "ruhe" && test != "einsatz" ==> r.manual == s.manual)
    ensures r.autoMode == s.autoMode && r.einsaetze == s.einsaetze
  {
    var test := Lower(OrElse(SearchGet(ParseSearch(search), "test").GetOr(""), ""));
    var s1 := if test == "1" then ClearManualOverride(UseMockData(s, true).0)
              else UseMockData(s, false).0;
    var s2 := if test == "ruhe" then SetManualOverride(s1, Ruhe) else s1;
    if test == "einsatz" then SetManualOverride(s2, Einsatz) else s2
  }
}
