/** The calendar feed: each raw ICS-JSON event becomes a calendar item (or is
    dropped), and the kept items are sorted by start time. Date parsing is not
    modelled: each raw event carries the time value `new Date(text)` gives for
    its start and end text. */
module CalendarService {
  import opened Base
  import opened JsText
  import opened Sorting
  import opened Lists

  /** A raw event. Missing text fields are empty strings. */
  datatype RawIcs = RawIcs(
    uid: string,
    summary: string,
    location: string,
    description: string,
    start: string,
    startParsed: Millis,
    end: string,
    endParsed: Millis,
    allDay: bool)

  /** A normalised event. The category is always set. */
  datatype CalendarItem = CalendarItem(
    id: string,
    title: string,
    location: Option<string>,
    category: string,
    description: Option<string>,
    startMs: int,
    endMs: Option<Millis>,
    allDay: bool)

  const DefaultCategory := "Termin"
  const DefaultTimezone := "Europe/Zurich"

  // ---------------------------------------------------------------------------
  // Words
  // ---------------------------------------------------------------------------

  /** The longest prefix without whitespace. */
  function WordAt(s: string): (w: string)
    ensures |w| <= |s| && w == s[..|w|]
    ensures forall i :: 0 <= i < |w| ==> !IsSpace(w[i])
    ensures |w| == |s| || IsSpace(s[|w|])
  {
    if s == [] || IsSpace(s[0]) then [] else [s[0]] + WordAt(s[1..])
  }

  /** `s.split(/\s+/).filter(Boolean)`: the maximal runs of non-whitespace. */
  function Words(s: string): (ws: seq<string>)
    ensures forall k :: 0 <= k < |ws| ==> ws[k] != [] && forall i :: 0 <= i < |ws[k]| ==> !IsSpace(ws[k][i])
    decreases |s|
  {
    if s == [] then []
    else if IsSpace(s[0]) then Words(s[1..])
    else
      var w := WordAt(s);
      [w] + Words(s[|w|..])
  }

  /** The pieces of `s.split(/\s/)`: the text cut at every whitespace
      character, so that two adjacent whitespace characters leave an empty
      piece between them. */
  function Pieces(s: string): (ps: seq<string>)
    ensures |ps| > 0
    decreases |s|
  {
    if s == [] then [""]
    else
      var rest := Pieces(s[1..]);
      if IsSpace(s[0]) then [""] + rest else [[s[0]] + rest[0]] + rest[1..]
  }

  predicate NonEmpty(p: string) { p != [] }

  /** Splitting at whitespace runs and dropping the empty strings is the same
      as splitting at every whitespace character and dropping the empty
      pieces: `Words` is `split(/\s+/).filter(Boolean)`, word for word and in
      text order. */
  lemma {:induction false} WordsArePieces(s: string)
    ensures Words(s) == Filter(Pieces(s), NonEmpty)
    decreases |s|
  {
    if s == [] {
    } else if IsSpace(s[0]) {
      WordsArePieces(s[1..]);
      FilterCons("", Pieces(s[1..]), NonEmpty);
    } else {
      var w := WordAt(s);
      var t := s[|w|..];
      assert s == w + t;
      WordsArePieces(t);
      PiecesAfterWord(w, t);
      PiecesOfGap(t);
      var pt := Pieces(t);
      assert pt == [""] + pt[1..];
      FilterCons("", pt[1..], NonEmpty);
      FilterCons(w, pt[1..], NonEmpty);
      assert w + pt[0] == w;
      assert Pieces(s) == [w] + pt[1..];
    }
  }

  /** A run without whitespace glues onto the first piece of what follows. */
  lemma {:induction false} PiecesAfterWord(w: string, t: string)
    requires forall i :: 0 <= i < |w| ==> !IsSpace(w[i])
    ensures Pieces(w + t) == [w + Pieces(t)[0]] + Pieces(t)[1..]
    decreases |w|
  {
    if w != [] {
      var pt := Pieces(t);
      PiecesAfterWord(w[1..], t);
      assert (w + t)[1..] == w[1..] + t;
      var rest := Pieces(w[1..] + t);
      assert rest == [w[1..] + pt[0]] + pt[1..];
      assert rest[0] == w[1..] + pt[0] && rest[1..] == pt[1..];
      assert Pieces(w + t) == [[w[0]] + rest[0]] + rest[1..];
      assert [w[0]] + (w[1..] + pt[0]) == w + pt[0];
    } else {
      assert w + t == t;
      assert w + Pieces(t)[0] == Pieces(t)[0];
      assert [Pieces(t)[0]] + Pieces(t)[1..] == Pieces(t);
    }
  }

  /** Text that is empty or starts with whitespace has an empty first piece. */
  lemma PiecesOfGap(t: string)
    requires t == [] || IsSpace(t[0])
    ensures Pieces(t)[0] == ""
  {
  }

  /** Blank text has no words. */
  lemma {:induction false} BlankHasNoWords(s: string)
    ensures AllSpace(s) ==> Words(s) == []
    decreases |s|
  {
    if s != [] && AllSpace(s) {
      BlankHasNoWords(s[1..]);
    }
  }

  /** Text without whitespace is a single word. */
  lemma {:induction false} WordsOfOneWord(s: string)
    requires s != [] && forall i :: 0 <= i < |s| ==> !IsSpace(s[i])
    ensures Words(s) == [s]
  {
    assert WordAt(s) == s by { WordAtAll(s); }
    assert s[|s|..] == [];
  }

  lemma {:induction false} WordAtAll(s: string)
    requires forall i :: 0 <= i < |s| ==> !IsSpace(s[i])
    ensures WordAt(s) == s
  {
    if s != [] {
      WordAtAll(s[1..]);
    }
  }

  // ---------------------------------------------------------------------------
  // Category and description
  // ---------------------------------------------------------------------------

  /** The category and description of a trimmed description text: with a
      `#`, the trimmed parts before the first and between the first and the
      second `#` (`split('#', 2)`); an empty text is the default category;
      more than two words are a description under the default category; one
      or two words are the category. A blank description is absent. */
  function ParseDescription(rawDesc: string): (r: (string, Option<string>))
    ensures r.1.Some? ==> !AllSpace(r.1.value)
  {
    if '#' in rawDesc then
      var parts := Split(rawDesc, '#');
      var catRaw := parts[0];
      var descRaw := if |parts| > 1 then parts[1] else "";
      var d := Trim(descRaw);
      (OrElse(Trim(catRaw), DefaultCategory), if d == [] then None else Some(d))
    else if rawDesc == [] then
      (DefaultCategory, None)
    else if |Words(rawDesc)| > 2 then
      BlankHasNoWords(rawDesc);
      (DefaultCategory, Some(rawDesc))
    else
      (rawDesc, None)
  }

  /** With a `#`: the category is the text before the first `#` (the default
      when blank) and the description is the text up to the next `#`, both
      trimmed; anything after a second `#` is ignored. */
  lemma DescriptionWithHash(rawDesc: string)
    requires '#' in rawDesc
    ensures
      var i := IndexOf(rawDesc, '#');
      var after := rawDesc[i + 1..];
      var between := after[..IndexOf(after, '#')];
      && ParseDescription(rawDesc).0 == OrElse(Trim(rawDesc[..i]), DefaultCategory)
      && ParseDescription(rawDesc).1 == (if Trim(between) == [] then None else Some(Trim(between)))
  {
    SplitAtFirst(rawDesc, '#');
    var i := IndexOf(rawDesc, '#');
    SplitAtFirst(rawDesc[i + 1..], '#');
  }

  /** Without a `#`: the empty text is the default category, more than two
      words are a description under the default category, and one or two
      words are the category itself. */
  lemma DescriptionWithoutHash(rawDesc: string)
    requires '#' !in rawDesc
    ensures rawDesc == [] ==> ParseDescription(rawDesc) == (DefaultCategory, None)
    ensures rawDesc != [] && |Filter(Pieces(rawDesc), NonEmpty)| > 2 ==>
      ParseDescription(rawDesc) == (DefaultCategory, Some(rawDesc))
    ensures rawDesc != [] && |Filter(Pieces(rawDesc), NonEmpty)| <= 2 ==>
      ParseDescription(rawDesc) == (rawDesc, None)
  {
    WordsArePieces(rawDesc);
  }

  /** The category of a trimmed description is never blank. */
  lemma CategoryNotBlank(rawDesc: string)
    requires rawDesc == Trim(rawDesc)
    ensures !AllSpace(ParseDescription(rawDesc).0)
  {
    assert !AllSpace(DefaultCategory) by { assert !IsSpace(DefaultCategory[0]); }
    if '#' in rawDesc {
      var t := Trim(Split(rawDesc, '#')[0]);
      if t != [] {
        assert !IsSpace(t[0]);
      }
    } else if rawDesc != [] && |Words(rawDesc)| <= 2 {
      assert !IsSpace(rawDesc[0]);
    }
  }

  // ---------------------------------------------------------------------------
  // The `hide` marker
  // ---------------------------------------------------------------------------

  /** `hide` (any letter case) at position `i`, preceded by the start, by
      whitespace or (when `allowHash`) by `#`, and followed by whitespace or
      the end. */
  predicate HideAt(s: string, i: int, allowHash: bool) {
    && 0 <= i && i + 4 <= |s|
    && Lower(s[i..i + 4]) == "hide"
    && (i == 0 || IsSpace(s[i - 1]) || (allowHash && s[i - 1] == '#'))
    && (i + 4 == |s| || IsSpace(s[i + 4]))
  }

  /** The regular-expression search from position `i` on. */
  function HideFrom(s: string, i: nat, allowHash: bool): (found: bool)
    ensures found <==> exists j :: i <= j && HideAt(s, j, allowHash)
    decreases |s| - i
  {
    if i + 4 > |s| then
      assert forall j :: i <= j ==> !HideAt(s, j, allowHash);
      false
    else
      var rest := HideFrom(s, i + 1, allowHash);
      assert (exists j :: i <= j && HideAt(s, j, allowHash)) <==>
             HideAt(s, i, allowHash) || exists j :: i + 1 <= j && HideAt(s, j, allowHash);
      HideAt(s, i, allowHash) || rest
  }

  /** `/(^|\s)hide(\s|$)/i` (without `allowHash`) and `/(^|#|\s)hide(\s|$)/i`
      (with it). */
  function HasHide(s: string, allowHash: bool): (found: bool)
    ensures found <==> exists j :: HideAt(s, j, allowHash)
  {
    HideFrom(s, 0, allowHash)
  }

  // ---------------------------------------------------------------------------
  // One event
  // ---------------------------------------------------------------------------

  /** The event is hidden: a `hide` word in its category, or in its
      description text (where `#hide` counts too). */
  predicate Hidden(raw: RawIcs) {
    var rawDesc := Trim(raw.description);
    HasHide(ParseDescription(rawDesc).0, false) || HasHide(rawDesc, true)
  }

  /** The start time value: `NaN` when there is no start text. */
  function StartOf(raw: RawIcs): Millis {
    if raw.start != [] then raw.startParsed else Invalid
  }

  /** The event survives: it is not hidden and its start is a valid, non-zero
      time value. */
  predicate Kept(raw: RawIcs) {
    !Hidden(raw) && StartOf(raw).Valid? && StartOf(raw).ms != 0
  }

  /** `normalizeIcsItem`: `None` for a missing, hidden or undated event. */
  function NormalizeIcsItem(raw: Option<RawIcs>): (r: Option<CalendarItem>)
    ensures r.Some? <==> raw.Some? && Kept(raw.value)
    ensures r.Some? ==> r.value.startMs != 0
  {
    match raw
    case None => None
    case Some(x) =>
      var summary := Trim(x.summary);
      var loc := Trim(x.location);
      var rawDesc := Trim(x.description);
      var parsed := ParseDescription(rawDesc);
      if HasHide(parsed.0, false) || HasHide(rawDesc, true) then None
      else
        var startMs := StartOf(x);
        var endMs := if x.end != [] then Some(x.endParsed) else None;
        if startMs.Invalid? || startMs.ms == 0 then None
        else
          Some(CalendarItem(
            OrElse(x.uid, summary + "_" + x.start),
            OrElse(summary, "(ohne Titel)"),
            if loc == [] then None else Some(loc),
            parsed.0,
            parsed.1,
            startMs.ms,
            endMs,
            x.allDay))
  }

  /** The fields of a kept event: its start, category and description from
      the description rules (the category never blank), the identifier (the
      `uid`, else summary, `_` and start text), a title that is never empty,
      a location only when one is given, an end only when one is given. */
  lemma NormalizedFields(x: RawIcs)
    requires Kept(x)
    ensures
      var item := NormalizeIcsItem(Some(x)).value;
      && item.startMs == x.startParsed.ms != 0
      && (item.category, item.description) == ParseDescription(Trim(x.description))
      && !AllSpace(item.category)
      && item.id == (if x.uid != [] then x.uid else Trim(x.summary) + "_" + x.start)
      && item.title == (if Trim(x.summary) != [] then Trim(x.summary) else "(ohne Titel)")
      && item.title != []
      && (item.location.Some? <==> !AllSpace(x.location))
      && (item.endMs.Some? <==> x.end != [])
      && item.allDay == x.allDay
  {
    var summary := Trim(x.summary);
    var loc := Trim(x.location);
    var rawDesc := Trim(x.description);
    var parsed := ParseDescription(rawDesc);
    var endMs := if x.end != [] then Some(x.endParsed) else None;
    assert NormalizeIcsItem(Some(x)) == Some(CalendarItem(
      OrElse(x.uid, summary + "_" + x.start), OrElse(summary, "(ohne Titel)"),
      if loc == [] then None else Some(loc), parsed.0, parsed.1, x.startParsed.ms, endMs, x.allDay));
    CategoryNotBlank(rawDesc);
  }

  // ---------------------------------------------------------------------------
  // The feed
  // ---------------------------------------------------------------------------

  /** The response: a failure, a bare array, an object (its `timezone`, and its
      `items` when that is an array), or anything else. */
  datatype CalResponse =
    | CalFailed
    | CalArray(raws: seq<Option<RawIcs>>)
    | CalObject(timezone: string, items: Option<seq<Option<RawIcs>>>)
    | CalOther

  datatype CalResult = CalResult(timezone: string, items: seq<CalendarItem>)

  /** The normalised events that survive, in input order. */
  function KeptItems(raws: seq<Option<RawIcs>>): (items: seq<CalendarItem>)
    ensures |items| <= |raws|
    ensures forall x :: x in items <==> exists i :: 0 <= i < |raws| && NormalizeIcsItem(raws[i]) == Some(x)
  {
    FilterMap(raws, NormalizeIcsItem)
  }

  /** Earlier start first. */
  predicate StartLe(a: CalendarItem, b: CalendarItem) {
    a.startMs <= b.startMs
  }

  lemma StartLeIsTotalPreorder()
    ensures TotalPreorder(StartLe)
  {
  }

  /** `loadUpcoming`: the time zone (defaulted), and the surviving events of
      a bare array or of `items`, sorted by start time. A failed request
      gives the default time zone and no events. */
  function LoadUpcoming(res: CalResponse): (r: CalResult)
    ensures r.timezone == (if res.CalObject? && res.timezone != [] then res.timezone else DefaultTimezone)
    ensures SortedBy(r.items, StartLe)
    ensures res.CalArray? ==> multiset(r.items) == multiset(KeptItems(res.raws))
    ensures res.CalObject? && res.items.Some? ==> multiset(r.items) == multiset(KeptItems(res.items.value))
    ensures res.CalFailed? || res.CalOther? || (res.CalObject? && res.items.None?) ==> r.items == []
  {
    var tz := if res.CalObject? && res.timezone != [] then res.timezone else DefaultTimezone;
    var raws := match res
      case CalArray(rs) => rs
      case CalObject(_, items) => items.GetOr([])
      case _ => [];
    StartLeIsTotalPreorder();
    CalResult(tz, SortBy(KeptItems(raws), StartLe))
  }

  /** An event is listed exactly when some raw event of the response
      normalises to it. */
  lemma LoadUpcomingMembers(raws: seq<Option<RawIcs>>, x: CalendarItem)
    ensures x in LoadUpcoming(CalArray(raws)).items <==>
      exists i :: 0 <= i < |raws| && NormalizeIcsItem(raws[i]) == Some(x)
  {
    StartLeIsTotalPreorder();
    SortByMembers(KeptItems(raws), StartLe, x);
  }

  /** Every listed event has a valid, non-zero start. */
  lemma UpcomingAreDated(raws: seq<Option<RawIcs>>)
    ensures forall x :: x in LoadUpcoming(CalArray(raws)).items ==> x.startMs != 0
  {
    forall x | x in LoadUpcoming(CalArray(raws)).items
      ensures x.startMs != 0
    {
      LoadUpcomingMembers(raws, x);
    }
  }
}
