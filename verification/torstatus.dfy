/** The gate-status panel: the recent incidents, newest first, and the
    German "since" text of an incident's age. The two-minute reload and the
    one-minute clock tick are not part of this model; the current time is an
    input. */
module Torstatus {
  import opened Base
  import opened JsText
  import opened Sorting
  import opened Lists
  import EinsatzService

  type Kurz = EinsatzService.EinsatzKurz

  /** `WEEK_MS`: despite its name, two hundred weeks in milliseconds. */
  const WeekMs: int := 200 * 7 * 24 * 60 * 60 * 1000

  const MinuteMs: int := 60000
  const HourMs: int := 3600000
  const DayMs: int := 86400000

  datatype PanelState = PanelState(einsaetze: seq<Kurz>, loading: bool, now: int)

  /** Newer first. */
  predicate NewerFirst(a: Kurz, b: Kurz) {
    a.ts >= b.ts
  }

  lemma NewerFirstIsTotalPreorder()
    ensures TotalPreorder(NewerFirst)
  {
  }

  /** The incidents no older than the cut-off, in feed order. */
  function Recent(list: seq<Kurz>, cutoff: int): (r: seq<Kurz>)
    ensures forall x :: x in r <==> x in list && x.ts >= cutoff
    ensures multiset(r) <= multiset(list)
  {
    Filter(list, (e: Kurz) => e.ts >= cutoff)
  }

  /** The subscriber of `load`: the incidents of the last two hundred weeks
      before `nowAtLoad`, newest first; loading ends. */
  function OnLoaded(s: PanelState, list: seq<Kurz>, nowAtLoad: int): (r: PanelState)
    ensures SortedBy(r.einsaetze, NewerFirst)
    ensures multiset(r.einsaetze) == multiset(Recent(list, nowAtLoad - WeekMs))
    ensures !r.loading && r.now == s.now
  {
    NewerFirstIsTotalPreorder();
    s.(einsaetze := SortBy(Recent(list, nowAtLoad - WeekMs), NewerFirst), loading := false)
  }

  /** After a load the panel lists exactly the feed's incidents of the last
      two hundred weeks, newest first, none twice more often than the feed. */
  lemma LoadKeepsRecent(s: PanelState, list: seq<Kurz>, nowAtLoad: int, x: Kurz)
    ensures var r := OnLoaded(s, list, nowAtLoad).einsaetze;
      && (x in r <==> x in list && x.ts >= nowAtLoad - WeekMs)
      && multiset(r) <= multiset(list)
      && forall i, j :: 0 <= i < j < |r| ==> r[i].ts >= r[j].ts
  {
    NewerFirstIsTotalPreorder();
    SortByMembers(Recent(list, nowAtLoad - WeekMs), NewerFirst, x);
  }

  /** The unit of an age text. */
  datatype Unit = Minutes | Hours | Days

  function UnitMs(u: Unit): int {
    match u
    case Minutes => MinuteMs
    case Hours => HourMs
    case Days => DayMs
  }

  /** The age of `ts` at `now` as a count of whole units: minutes below an
      hour, hours below a day, days otherwise; `None` for a future `ts`. */
  function Age(now: int, ts: int): (r: Option<(nat, Unit)>)
  {
    var diffMs := now - ts;
    if diffMs < 0 then None
    else
      var minutes := diffMs / MinuteMs;
      if minutes < 60 then Some((minutes, Minutes))
      else
        var hours := minutes / 60;
        if hours < 24 then Some((hours, Hours))
        else Some((hours / 24, Days))
  }

  /** The count is the whole number of units elapsed, and the unit is the
      largest one that the age reaches, up to days. */
  lemma {:induction false} AgeMeaning(now: int, ts: int)
    ensures Age(now, ts).None? <==> now < ts
    ensures Age(now, ts).Some? ==>
      var (n, u) := Age(now, ts).value;
      && n * UnitMs(u) <= now - ts < (n + 1) * UnitMs(u)
      && (u == Minutes <==> now - ts < HourMs)
      && (u == Hours <==> HourMs <= now - ts < DayMs)
      && (u == Days <==> DayMs <= now - ts)
  {
    var d := now - ts;
    if d >= 0 {
      NestedFloor(d);
    }
  }

  /** Whole minutes, then whole hours of those, are whole hours; and whole
      days of whole hours are whole days. */
  lemma NestedFloor(d: nat)
    ensures d / MinuteMs / 60 == d / HourMs
    ensures d / HourMs / 24 == d / DayMs
  {
  }

  /** The German unit word for a count: `Min` with `ute`/`uten`, `Std` with
      nothing/`n`, `Tag` with nothing/`en`. */
  function UnitWord(n: nat, u: Unit): string {
    match u
    case Minutes => if n == 1 then "Minute" else "Minuten"
    case Hours => if n == 1 then "Std" else "Stdn"
    case Days => if n == 1 then "Tag" else "Tagen"
  }

  /** `diffText`: `seit`, the count and the unit word; empty for a future
      `ts`. */
  function DiffText(now: int, ts: int): (t: string)
    ensures t == [] <==> now < ts
    ensures t != [] ==> |t| > 5 && t[..5] == "seit "
  {
    match Age(now, ts)
    case None => ""
    case Some((n, u)) => "seit " + NatToString(n) + " " + UnitWord(n, u)
  }

  /** The text reads back: the number after `seit ` is the age's count, and
      the word that follows is its unit word. */
  lemma DiffTextReadsBack(now: int, ts: int)
    requires now >= ts
    ensures var (n, u) := Age(now, ts).value;
      && ParseInt(DiffText(now, ts)[5..]) == Some(n)
      && DiffText(now, ts) == "seit " + NatToString(n) + " " + UnitWord(n, u)
  {
    var (n, u) := Age(now, ts).value;
    var t := DiffText(now, ts);
    assert t == "seit " + NatToString(n) + " " + UnitWord(n, u);
    assert t[5..] == NatToString(n) + (" " + UnitWord(n, u));
    ParseIntOfNatPrefix(n, " " + UnitWord(n, u));
  }

  /** One minute old reads `seit 1 Minute`, a day and a half `seit 1 Tag`. */
  lemma DiffTextExamples(ts: int)
    ensures DiffText(ts + 60000, ts) == "seit 1 Minute"
    ensures DiffText(ts + 129600000, ts) == "seit 1 Tag"
    ensures DiffText(ts - 1, ts) == ""
  {
  }
}
