/** The district incident feed: each API entry becomes a short incident
    record, with its date and time text turned into a time value. The JSONP
    request is not part of this model; its outcome is an input, and so is the
    local-time `Date` constructor (`clock`), which yields `Invalid` exactly
    where JavaScript's `Date` yields `NaN`. */
module EinsatzService {
  import opened Base
  import opened JsText

  /** One API entry. Every field the feed's interface declares is a string;
      the optional additional place `o2` is the empty string when absent. */
  datatype EinsatzApi = EinsatzApi(
    m: string,   // keyword
    a: string,   // alarm level
    n: string,   // incident number
    o: string,   // place
    o2: string,  // additional place
    d: string,   // date DD.MM.YYYY
    t: string,   // time HH:mm:ss
    i: string,   // identifier
    b: string)   // district number

  /** The short record the screens use. The ISO text of the time value is
      not modelled; the time value itself is. */
  datatype EinsatzKurz = EinsatzKurz(
    id: string,
    stichwort: string,
    alarmstufe: string,
    nummer: string,
    ort: string,
    ort2: string,
    ts: int)

  /** The arguments of `new Date(year, monthIndex, day, hours, minutes, seconds)`. */
  datatype DateFields = DateFields(year: int, monthIndex: int, day: int, hour: int, minute: int, second: int)

  /** The `k`-th element of a destructured array: `None` is `undefined`. */
  function Nth(parts: seq<string>, k: nat): (r: Option<string>)
    ensures r.Some? <==> k < |parts|
    ensures r.Some? ==> r.value == parts[k]
  {
    if k < |parts| then Some(parts[k]) else None
  }

  /** `parseInt(x || fallback, 10)` for a destructured date part, with the
      fallback text already read as the number `fallback`: a missing or empty
      part gives the fallback, any other part is parsed. */
  function DatePart(parts: seq<string>, k: nat, fallback: int): (r: Option<int>)
    ensures k < |parts| && parts[k] != [] ==> r == ParseInt(parts[k])
    ensures k >= |parts| || parts[k] == [] ==> r == Some(fallback)
  {
    var p := Nth(parts, k).GetOr("");
    if p != [] then ParseInt(p) else Some(fallback)
  }

  /** `parseInt(x, 10)` for a part destructured with the default `fallback`:
      only a missing part takes the default; an empty part is parsed (and is
      `NaN`). */
  function DestructuredPart(parts: seq<string>, k: nat, fallback: int): (r: Option<int>)
    ensures k < |parts| ==> r == ParseInt(parts[k])
    ensures k >= |parts| ==> r == Some(fallback)
  {
    match Nth(parts, k)
    case Some(p) => ParseInt(p)
    case None => Some(fallback)
  }

  /** Reading the fallback as a number first changes nothing: the part is
      `parseInt(x || text)` whenever `text` reads as `fallback`. */
  lemma DatePartAgrees(parts: seq<string>, k: nat, text: string, fallback: int)
    requires ParseInt(text) == Some(fallback)
    ensures DatePart(parts, k, fallback) == ParseInt(OrElse(Nth(parts, k).GetOr(""), text))
  {
  }

  /** Likewise for a destructuring default: the part is `parseInt(x)` with
      `x` defaulting to `text`. */
  lemma DestructuredPartAgrees(parts: seq<string>, k: nat, text: string, fallback: int)
    requires ParseInt(text) == Some(fallback)
    ensures DestructuredPart(parts, k, fallback) == ParseInt(Nth(parts, k).GetOr(text))
  {
  }

  /** The default day and month text `1` reads as one. */
  lemma ParseOne()
    ensures ParseInt("1") == Some(1)
  {
    ParseIntOfNatToString(1);
  }

  /** The default year text `1970` reads as 1970. */
  lemma ParseEpochYear()
    ensures ParseInt("1970") == Some(1970)
  {
    assert "1970"[..3] == "197" && "197"[..2] == "19" && "19"[..1] == "1";
    assert AllDigits("1970") && DigitsValue("1970") == 1970;
    ParseIntOfDigits("1970");
  }

  /** The default time text `00` reads as zero. */
  lemma ParseZeroZero()
    ensures ParseInt("00") == Some(0)
  {
    assert "00"[..1] == "0";
    assert AllDigits("00") && DigitsValue("00") == 0;
    ParseIntOfDigits("00");
  }

  /** Day, month index and year from the parts of a date: day, month and
      year default to `1`, `1` and `1970` when missing or empty; the month
      becomes an index. */
  function DateOfParts(ds: seq<string>): (r: Option<(int, int, int)>)
    ensures r.Some? <==> DatePart(ds, 0, 1).Some? && DatePart(ds, 1, 1).Some? && DatePart(ds, 2, 1970).Some?
    ensures r.Some? ==> r.value == (DatePart(ds, 2, 1970).value, DatePart(ds, 1, 1).value - 1, DatePart(ds, 0, 1).value)
  {
    var day := DatePart(ds, 0, 1);
    var mon := DatePart(ds, 1, 1);
    var yr := DatePart(ds, 2, 1970);
    if day.Some? && mon.Some? && yr.Some? then Some((yr.value, mon.value - 1, day.value)) else None
  }

  /** The date half of `toTimestamp`, on the text split at `.`. */
  function DateOf(d: string): Option<(int, int, int)> {
    DateOfParts(Split(d, '.'))
  }

  /** Every date part `DateOf` reads is `parseInt(x || text)` with the service's
      default text. */
  lemma DateOfFollowsDefaults(d: string)
    ensures var ds := Split(d, '.');
      && DatePart(ds, 0, 1) == ParseInt(OrElse(Nth(ds, 0).GetOr(""), "1"))
      && DatePart(ds, 1, 1) == ParseInt(OrElse(Nth(ds, 1).GetOr(""), "1"))
      && DatePart(ds, 2, 1970) == ParseInt(OrElse(Nth(ds, 2).GetOr(""), "1970"))
  {
    ParseOne();
    ParseEpochYear();
    var ds := Split(d, '.');
    DatePartAgrees(ds, 0, "1", 1);
    DatePartAgrees(ds, 1, "1", 1);
    DatePartAgrees(ds, 2, "1970", 1970);
  }

  /** Hours, minutes and seconds from the parts of a time as written: a part
      defaults to `00` only when it is missing, so an empty part (an empty
      time, or `08:`) is `parseInt('')`, which is `NaN`. */
  function TimeOfPartsAsWritten(ts: seq<string>): (r: Option<(int, int, int)>)
    ensures r.Some? <==>
      DestructuredPart(ts, 0, 0).Some? && DestructuredPart(ts, 1, 0).Some? && DestructuredPart(ts, 2, 0).Some?
    ensures r.Some? ==>
      r.value == (DestructuredPart(ts, 0, 0).value, DestructuredPart(ts, 1, 0).value, DestructuredPart(ts, 2, 0).value)
  {
    var h := DestructuredPart(ts, 0, 0);
    var mi := DestructuredPart(ts, 1, 0);
    var sec := DestructuredPart(ts, 2, 0);
    if h.Some? && mi.Some? && sec.Some? then Some((h.value, mi.value, sec.value)) else None
  }

  /** Hours, minutes and seconds as intended: a part that is missing or
      empty defaults to `00`, like the date parts do. */
  function TimeOfParts(ts: seq<string>): (r: Option<(int, int, int)>)
    ensures r.Some? <==> DatePart(ts, 0, 0).Some? && DatePart(ts, 1, 0).Some? && DatePart(ts, 2, 0).Some?
    ensures r.Some? ==> r.value == (DatePart(ts, 0, 0).value, DatePart(ts, 1, 0).value, DatePart(ts, 2, 0).value)
  {
    var h := DatePart(ts, 0, 0);
    var mi := DatePart(ts, 1, 0);
    var sec := DatePart(ts, 2, 0);
    if h.Some? && mi.Some? && sec.Some? then Some((h.value, mi.value, sec.value)) else None
  }

  /** The time parts as written are `parseInt(x)` with `x` destructured
      with the default text `00`. */
  lemma TimeFollowsDefaultsAsWritten(t: string)
    ensures var ts := Split(t, ':');
      && DestructuredPart(ts, 0, 0) == ParseInt(Nth(ts, 0).GetOr("00"))
      && DestructuredPart(ts, 1, 0) == ParseInt(Nth(ts, 1).GetOr("00"))
      && DestructuredPart(ts, 2, 0) == ParseInt(Nth(ts, 2).GetOr("00"))
  {
    ParseZeroZero();
    var ts := Split(t, ':');
    DestructuredPartAgrees(ts, 0, "00", 0);
    DestructuredPartAgrees(ts, 1, "00", 0);
    DestructuredPartAgrees(ts, 2, "00", 0);
  }

  /** The `new Date(...)` arguments from a date and a time, when both read. */
  function Fields(date: Option<(int, int, int)>, time: Option<(int, int, int)>): (r: Option<DateFields>)
    ensures r.Some? <==> date.Some? && time.Some?
    ensures r.Some? ==> (r.value.year, r.value.monthIndex, r.value.day) == date.value
    ensures r.Some? ==> (r.value.hour, r.value.minute, r.value.second) == time.value
  {
    if date.Some? && time.Some? then
      Some(DateFields(date.value.0, date.value.1, date.value.2, time.value.0, time.value.1, time.value.2))
    else None
  }

  /** The date arguments `toTimestamp` computes, as written. */
  function DateFieldsAsWritten(d: string, t: string): Option<DateFields> {
    Fields(DateOf(d), TimeOfPartsAsWritten(Split(t, ':')))
  }

  /** The date arguments with the intended time defaults. */
  function ToDateFields(d: string, t: string): Option<DateFields> {
    Fields(DateOf(d), TimeOfParts(Split(t, ':')))
  }

  /** The correction only adds readings: whatever time parts the code as
      written reads, the intended version reads alike. */
  lemma CorrectionKeepsReadTimes(ts: seq<string>)
    requires TimeOfPartsAsWritten(ts).Some?
    ensures TimeOfParts(ts) == TimeOfPartsAsWritten(ts)
  {
    forall k: nat | k < 3
      ensures DatePart(ts, k, 0) == DestructuredPart(ts, k, 0)
    {
      if k < |ts| && ts[k] == [] {
        EmptyIsNaN(ts[k]);
      }
    }
  }

  lemma EmptyIsNaN(s: string)
    requires s == []
    ensures ParseInt(s).None?
  {
  }

  /** The two versions agree wherever the as-written one yields a value. */
  lemma CorrectionKeepsReadDates(d: string, t: string)
    requires DateFieldsAsWritten(d, t).Some?
    ensures ToDateFields(d, t) == DateFieldsAsWritten(d, t)
  {
    CorrectionKeepsReadTimes(Split(t, ':'));
  }

  /** `toTimestamp` as written: `Invalid` when an argument is `NaN`. */
  function ToTimestampAsWritten(d: string, t: string, clock: DateFields -> Millis): (r: Millis)
    ensures DateFieldsAsWritten(d, t).None? ==> r == Invalid
    ensures DateFieldsAsWritten(d, t).Some? ==> r == clock(DateFieldsAsWritten(d, t).value)
  {
    match DateFieldsAsWritten(d, t)
    case None => Invalid
    case Some(f) => clock(f)
  }

  /** `toTimestamp` with the intended defaults. */
  function ToTimestamp(d: string, t: string, clock: DateFields -> Millis): (r: Millis)
    ensures ToDateFields(d, t).None? ==> r == Invalid
    ensures ToDateFields(d, t).Some? ==> r == clock(ToDateFields(d, t).value)
  {
    match ToDateFields(d, t)
    case None => Invalid
    case Some(f) => clock(f)
  }

  /** An empty time splits into one empty part. */
  lemma SplitEmptyTime()
    ensures Split("", ':') == [""]
  {
  }

  /** As written, the single empty part of an empty time is `NaN`. */
  lemma EmptyTimeIsNaNAsWritten(ts: seq<string>)
    requires ts == [""]
    ensures TimeOfPartsAsWritten(ts).None?
  {
    EmptyIsNaN(ts[0]);
  }

  /** As written, an entry without a time never gets a time value. */
  lemma UntimedIsInvalidAsWritten(d: string, clock: DateFields -> Millis)
    ensures DateFieldsAsWritten(d, "").None?
    ensures ToTimestampAsWritten(d, "", clock) == Invalid
  {
    SplitEmptyTime();
    EmptyTimeIsNaNAsWritten(Split("", ':'));
  }

  /** The concrete case: `01.02.2024` with time `00:00:00` is read, with an
      empty time it is not. */
  lemma UntimedExampleAsWritten()
    ensures DateFieldsAsWritten("01.02.2024", "00:00:00") == Some(DateFields(2024, 1, 1, 0, 0, 0))
    ensures DateFieldsAsWritten("01.02.2024", "") == None
  {
    DateOfExample();
    SplitMidnight();
    MidnightPartsAsWritten(Split("00:00:00", ':'));
    UntimedIsInvalidAsWritten("01.02.2024", _ => Invalid);
  }

  /** As written, three `00` parts are midnight. */
  lemma MidnightPartsAsWritten(ts: seq<string>)
    requires ts == ["00", "00", "00"]
    ensures TimeOfPartsAsWritten(ts) == Some((0, 0, 0))
  {
    ParseZeroZero();
  }

  /** A date of three non-empty parts reads each part as a number. */
  lemma DateOfThreeParts(a: string, b: string, c: string)
    requires '.' !in a && '.' !in b && '.' !in c
    requires a != [] && b != [] && c != []
    ensures var day, mon, yr := ParseInt(a), ParseInt(b), ParseInt(c);
      DateOf(a + ['.'] + b + ['.'] + c) ==
        if day.Some? && mon.Some? && yr.Some? then Some((yr.value, mon.value - 1, day.value)) else None
  {
    SplitThree(a, b, c, '.');
    DateOfPartsGiven([a, b, c]);
  }

  /** Three non-empty parts are read as they stand. */
  lemma DateOfPartsGiven(ds: seq<string>)
    requires |ds| == 3 && ds[0] != [] && ds[1] != [] && ds[2] != []
    ensures var day, mon, yr := ParseInt(ds[0]), ParseInt(ds[1]), ParseInt(ds[2]);
      DateOfParts(ds) ==
        if day.Some? && mon.Some? && yr.Some? then Some((yr.value, mon.value - 1, day.value)) else None
  {
  }

  /** `01.02.2024` is 1 February 2024. */
  lemma DateOfExample()
    ensures DateOf("01.02.2024") == Some((2024, 1, 1))
  {
    assert "01.02.2024" == "01" + ['.'] + "02" + ['.'] + "2024";
    DateOfThreeParts("01", "02", "2024");
    ParseZeroOne();
    ParseZeroTwo();
    ParseExampleYear();
  }

  /** The day text `01` reads as one. */
  lemma ParseZeroOne()
    ensures ParseInt("01") == Some(1)
  {
    assert "01"[..1] == "0";
    assert AllDigits("01") && DigitsValue("01") == 1;
    ParseIntOfDigits("01");
  }

  /** The month text `02` reads as two. */
  lemma ParseZeroTwo()
    ensures ParseInt("02") == Some(2)
  {
    assert "02"[..1] == "0";
    assert AllDigits("02") && DigitsValue("02") == 2;
    ParseIntOfDigits("02");
  }

  /** The year text `2024` reads as 2024. */
  lemma ParseExampleYear()
    ensures ParseInt("2024") == Some(2024)
  {
    assert "2024"[..3] == "202" && "202"[..2] == "20" && "20"[..1] == "2";
    assert AllDigits("2024") && DigitsValue("2024") == 2024;
    ParseIntOfDigits("2024");
  }

  /** `00:00:00` splits into three zero parts. */
  lemma SplitMidnight()
    ensures Split("00:00:00", ':') == ["00", "00", "00"]
  {
    assert "00:00:00" == "00" + [':'] + "00" + [':'] + "00";
    SplitThree("00", "00", "00", ':');
  }

  /** With the intended defaults, the single empty part of an empty time and
      three `00` parts both read as midnight. */
  lemma MidnightParts(p1: seq<string>, p2: seq<string>)
    requires p1 == [""] && p2 == ["00", "00", "00"]
    ensures TimeOfParts(p1) == TimeOfParts(p2) == Some((0, 0, 0))
  {
    ParseZeroZero();
  }

  /** Two times whose parts read alike give the same date arguments. */
  lemma SameTimeParts(d: string, t1: string, t2: string)
    requires TimeOfParts(Split(t1, ':')) == TimeOfParts(Split(t2, ':'))
    ensures ToDateFields(d, t1) == ToDateFields(d, t2)
  {
  }

  /** With the intended defaults a missing time is midnight. */
  lemma UntimedIsMidnight(d: string, clock: DateFields -> Millis)
    ensures ToDateFields(d, "") == ToDateFields(d, "00:00:00")
    ensures ToTimestamp(d, "", clock) == ToTimestamp(d, "00:00:00", clock)
  {
    SplitEmptyTime();
    SplitMidnight();
    MidnightParts(Split("", ':'), Split("00:00:00", ':'));
    SameTimeParts(d, "", "00:00:00");
  }

  /** A missing date is 1 January 1970 (both versions agree on the date). */
  lemma UndatedIsEpochDay()
    ensures DateOf("") == Some((1970, 0, 1))
  {
    EpochParts(Split("", '.'));
  }

  /** The single empty part of an empty date reads as 1 January 1970. */
  lemma EpochParts(ds: seq<string>)
    requires ds == [""]
    ensures DateOfParts(ds) == Some((1970, 0, 1))
  {
  }

  /** `mapToKurz` given the entry's time value: `None` when the time value is
      invalid (`toISOString` throws). The identifier is `i`, else district,
      number (else keyword) and time value joined by `-`. */
  function KurzOf(e: EinsatzApi, ts: Millis): (r: Option<EinsatzKurz>)
    ensures r.Some? <==> ts.Valid?
    ensures r.Some? ==> r.value.ts == ts.ms
    ensures r.Some? && e.i != [] ==> r.value.id == e.i
    ensures r.Some? && e.i == [] ==>
      r.value.id == e.b + "-" + (if e.n != [] then e.n else e.m) + "-" + IntToString(ts.ms)
    ensures r.Some? ==>
      (&& r.value.stichwort == e.m && r.value.alarmstufe == e.a && r.value.nummer == e.n
       && r.value.ort == e.o && r.value.ort2 == e.o2)
  {
    match ts
    case Invalid => None
    case Valid(ms) =>
      Some(EinsatzKurz(
        OrElse(e.i, e.b + "-" + OrElse(e.n, e.m) + "-" + IntToString(ms)),
        OrElse(e.m, ""), OrElse(e.a, ""), OrElse(e.n, ""), OrElse(e.o, ""), OrElse(e.o2, ""),
        ms))
  }

  /** The JSONP outcome: a failure, a payload without an `Einsatz` list (or
      `null`), a non-array `Einsatz`, or the list (an entry may be `null`). */
  datatype Feed =
    | FeedFailed
    | FeedMissing
    | FeedNotArray
    | FeedArray(entries: seq<Option<EinsatzApi>>)

  /** Every entry mapped, or `None` when one of them throws (a `null` entry,
      or an invalid time value). */
  function MapAll(es: seq<Option<EinsatzApi>>, stamp: EinsatzApi -> Millis): (r: Option<seq<EinsatzKurz>>)
    ensures r.Some? <==> forall k :: 0 <= k < |es| ==> es[k].Some? && stamp(es[k].value).Valid?
    ensures r.Some? ==>
      (&& |r.value| == |es|
       && forall k :: 0 <= k < |es| ==> Some(r.value[k]) == KurzOf(es[k].value, stamp(es[k].value)))
  {
    if es == [] then Some([])
    else
      match (es[0], MapAll(es[1..], stamp))
      case (Some(e), Some(rest)) =>
        (match KurzOf(e, stamp(e))
         case Some(x) => Some([x] + rest)
         case None => None)
      case _ => None
  }

  /** The feed with a given time-value rule: the mapped list, or the empty
      list when the request failed, the list is missing or not an array, or
      one entry throws. */
  function AktiveBy(feed: Feed, stamp: EinsatzApi -> Millis): (r: seq<EinsatzKurz>)
    ensures !feed.FeedArray? ==> r == []
    ensures feed.FeedArray? ==> r == MapAll(feed.entries, stamp).GetOr([])
  {
    match feed
    case FeedArray(es) => MapAll(es, stamp).GetOr([])
    case _ => []
  }

  /** The time value of an entry, with the intended defaults. */
  function Stamp(clock: DateFields -> Millis): EinsatzApi -> Millis {
    (e: EinsatzApi) => ToTimestamp(e.d, e.t, clock)
  }

  /** The time value of an entry, as written. */
  function StampAsWritten(clock: DateFields -> Millis): EinsatzApi -> Millis {
    (e: EinsatzApi) => ToTimestampAsWritten(e.d, e.t, clock)
  }

  /** `getAktiveEinsaetzeBezirk` with the intended time defaults. */
  function GetAktive(feed: Feed, clock: DateFields -> Millis): (r: seq<EinsatzKurz>)
    ensures !feed.FeedArray? ==> r == []
    ensures feed.FeedArray? &&
            (exists k :: 0 <= k < |feed.entries| &&
               (feed.entries[k].None? || ToTimestamp(feed.entries[k].value.d, feed.entries[k].value.t, clock).Invalid?))
      ==> r == []
    ensures feed.FeedArray? && (forall k :: 0 <= k < |feed.entries| ==>
              feed.entries[k].Some? && ToTimestamp(feed.entries[k].value.d, feed.entries[k].value.t, clock).Valid?)
      ==> |r| == |feed.entries| &&
          forall k :: 0 <= k < |r| ==>
            Some(r[k]) == KurzOf(feed.entries[k].value, ToTimestamp(feed.entries[k].value.d, feed.entries[k].value.t, clock))
  {
    AktiveBy(feed, Stamp(clock))
  }

  /** `getAktiveEinsaetzeBezirk` as written. */
  function GetAktiveAsWritten(feed: Feed, clock: DateFields -> Millis): (r: seq<EinsatzKurz>)
    ensures !feed.FeedArray? ==> r == []
    ensures feed.FeedArray? &&
            (exists k :: 0 <= k < |feed.entries| &&
               (feed.entries[k].None? || ToTimestampAsWritten(feed.entries[k].value.d, feed.entries[k].value.t, clock).Invalid?))
      ==> r == []
    ensures feed.FeedArray? && (forall k :: 0 <= k < |feed.entries| ==>
              feed.entries[k].Some? && ToTimestampAsWritten(feed.entries[k].value.d, feed.entries[k].value.t, clock).Valid?)
      ==> |r| == |feed.entries| &&
          forall k :: 0 <= k < |r| ==>
            Some(r[k]) == KurzOf(feed.entries[k].value, ToTimestampAsWritten(feed.entries[k].value.d, feed.entries[k].value.t, clock))
  {
    AktiveBy(feed, StampAsWritten(clock))
  }

  /** All or nothing: the feed lists every entry, in order, each with the
      time value the clock gives for its date and time, or it is empty. */
  lemma AktiveAllOrNothing(es: seq<Option<EinsatzApi>>, clock: DateFields -> Millis)
    ensures var r := GetAktive(FeedArray(es), clock);
      || r == []
      || (&& |r| == |es|
          && forall k :: 0 <= k < |es| ==>
               es[k].Some? && ToTimestamp(es[k].value.d, es[k].value.t, clock) == Valid(r[k].ts))
  {
  }

  /** As written, one entry without a time empties the whole feed. */
  lemma UntimedEntryEmptiesFeedAsWritten(es: seq<Option<EinsatzApi>>, k: nat, clock: DateFields -> Millis)
    requires k < |es| && es[k].Some? && es[k].value.t == ""
    ensures GetAktiveAsWritten(FeedArray(es), clock) == []
  {
    UntimedIsInvalidAsWritten(es[k].value.d, clock);
    assert StampAsWritten(clock)(es[k].value) == Invalid;
    OneFailureFailsAll(es, StampAsWritten(clock), k);
  }

  /** One entry without a valid time value fails the whole mapping. */
  lemma OneFailureFailsAll(es: seq<Option<EinsatzApi>>, stamp: EinsatzApi -> Millis, k: nat)
    requires k < |es| && es[k].Some? && stamp(es[k].value) == Invalid
    ensures AktiveBy(FeedArray(es), stamp) == []
  {
  }

  /** With the intended defaults, an entry without a time is listed when the
      same entry at midnight would be. */
  lemma UntimedEntryKept(es: seq<Option<EinsatzApi>>, k: nat, clock: DateFields -> Millis)
    requires k < |es| && es[k].Some? && es[k].value.t == ""
    ensures var e := es[k].value;
      ToTimestamp(e.d, e.t, clock) == ToTimestamp(e.d, "00:00:00", clock)
  {
    UntimedIsMidnight(es[k].value.d, clock);
  }
}
