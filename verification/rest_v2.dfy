/** The second rest-mode layout: the open incidents of the operations-diary
    feed, two per carousel page, the diary entries of an incident, the poll
    schedule and the vehicle tiles. Each response of the feed is an input;
    the HTTP request and the timers are not part of this model. Dates are
    read by `parse`, which stands for `new Date(iso).getTime()` on the feed's
    ISO texts. */
module RestV2 {
  import opened Base
  import opened JsText
  import opened Sorting
  import opened Lists

  // ---------------------------------------------------------------------------
  // Records of the feed
  // ---------------------------------------------------------------------------

  /** A JavaScript value as far as the tile helpers look at it. */
  datatype JsValue = JsNull | JsUndefined | JsNumber(n: NumValue) | JsString(s: string)

  datatype TagebuchEintrag = TagebuchEintrag(
    id: int, fzg: Option<string>, text: string,
    meldungskategorie: string, uhrzeitDe: string, datetimeIso: string)

  /** A vehicle: `km` is a number or null, `besatzung` a text or null. */
  datatype Fahrzeug = Fahrzeug(
    einsatznummer: string, rufname: string, funkrufname: string,
    status: int, besatzung: JsValue, km: JsValue)

  datatype EinsatzGruppe = EinsatzGruppe(
    einsatznummer: string, alarmstufe: string, ort: Option<string>,
    grund: string, einsatzdatumIso: string,
    tagebuch: seq<TagebuchEintrag>, fahrzeuge: seq<Fahrzeug>)

  /** `data`: the values of the `einsatz_offen` object in enumeration order,
      `None` when the property is missing or null. */
  datatype ApiData = ApiData(einsatzOffen: Option<seq<EinsatzGruppe>>)

  /** A response body; `data` is `None` when it is missing or null. */
  datatype ApiResponse = ApiResponse(ok: bool, data: Option<ApiData>)

  // ---------------------------------------------------------------------------
  // Open incidents and pages
  // ---------------------------------------------------------------------------

  /** The order of the open incidents: later date first, and for the same
      date the higher incident number (in text order) first. */
  predicate NewerGroupFirst(parse: string -> int, a: EinsatzGruppe, b: EinsatzGruppe) {
    var at := parse(a.einsatzdatumIso);
    var bt := parse(b.einsatzdatumIso);
    at > bt || (at == bt && StrLe(b.einsatznummer, a.einsatznummer))
  }

  lemma NewerGroupFirstIsTotalPreorder(parse: string -> int)
    ensures TotalPreorder((a: EinsatzGruppe, b: EinsatzGruppe) => NewerGroupFirst(parse, a, b))
  {
    var le := (a: EinsatzGruppe, b: EinsatzGruppe) => NewerGroupFirst(parse, a, b);
    forall a: EinsatzGruppe, b: EinsatzGruppe ensures le(a, b) || le(b, a) {
      StrLeTotal(a.einsatznummer, b.einsatznummer);
    }
    forall a: EinsatzGruppe, b: EinsatzGruppe, c: EinsatzGruppe | le(a, b) && le(b, c)
      ensures le(a, c)
    {
      if parse(a.einsatzdatumIso) == parse(b.einsatzdatumIso) == parse(c.einsatzdatumIso) {
        StrLeTransitive(c.einsatznummer, b.einsatznummer, a.einsatznummer);
      }
    }
  }

  /** The open incidents of the held response. */
  function Offene(payload: Option<ApiResponse>): (list: seq<EinsatzGruppe>)
    ensures payload.None? || payload.value.data.None? || payload.value.data.value.einsatzOffen.None?
            ==> list == []
  {
    if payload.None? || payload.value.data.None? || payload.value.data.value.einsatzOffen.None? then []
    else payload.value.data.value.einsatzOffen.value
  }

  /** The open incidents in their displayed order. */
  function OffeneEinsaetze(parse: string -> int, payload: Option<ApiResponse>): (list: seq<EinsatzGruppe>)
    ensures SortedBy(list, (a: EinsatzGruppe, b: EinsatzGruppe) => NewerGroupFirst(parse, a, b))
    ensures multiset(list) == multiset(Offene(payload))
  {
    NewerGroupFirstIsTotalPreorder(parse);
    SortBy(Offene(payload), (a: EinsatzGruppe, b: EinsatzGruppe) => NewerGroupFirst(parse, a, b))
  }

  /** Displayed open incidents are ordered by date, newest first, and within
      a date by incident number, highest first. */
  lemma OffeneOrder(parse: string -> int, payload: Option<ApiResponse>, i: int, j: int)
    requires 0 <= i < j < |OffeneEinsaetze(parse, payload)|
    ensures var l := OffeneEinsaetze(parse, payload);
      && parse(l[i].einsatzdatumIso) >= parse(l[j].einsatzdatumIso)
      && (parse(l[i].einsatzdatumIso) == parse(l[j].einsatzdatumIso)
          ==> StrLe(l[j].einsatznummer, l[i].einsatznummer))
  {
  }

  /** Concatenation of a list of lists. */
  function Concat<T>(pages: seq<seq<T>>): seq<T> {
    if pages == [] then [] else pages[0] + Concat(pages[1..])
  }

  /** Cuts the list into pages of two, the last page holding one incident
      when their number is odd. */
  function Pages<T>(src: seq<T>): (r: seq<seq<T>>)
    ensures |r| == (|src| + 1) / 2
    ensures forall k :: 0 <= k < |r| ==> |r[k]| == (if k == |r| - 1 && |src| % 2 == 1 then 1 else 2)
    decreases |src|
  {
    if src == [] then []
    else if |src| <= 2 then [src]
    else [src[..2]] + Pages(src[2..])
  }

  /** Reading the pages one after the other gives the list back. */
  lemma {:induction false} PagesConcat<T>(src: seq<T>)
    ensures Concat(Pages(src)) == src
    decreases |src|
  {
    if src == [] {
    } else if |src| <= 2 {
      assert Concat([src]) == src + Concat([src][1..]);
    } else {
      PagesConcat(src[2..]);
      var p := Pages(src);
      assert p[1..] == Pages(src[2..]);
      assert src == src[..2] + src[2..];
    }
  }

  // ---------------------------------------------------------------------------
  // Carousel
  // ---------------------------------------------------------------------------

  /** The carousel tick: on to the next page, round to the first after the
      last; nothing moves with a single page or none. */
  function Tick(i: nat, len: nat): (r: nat)
    ensures len > 1 ==> r < len && r % len == (i + 1) % len
    ensures len <= 1 ==> r == i
  {
    if len <= 1 then i else (i + 1) % len
  }

  /** `k` ticks. */
  function Ticks(i: nat, len: nat, k: nat): nat {
    if k == 0 then i else Tick(Ticks(i, len, k - 1), len)
  }

  /** With more than one page, the carousel visits page `(i + k) mod len`
      after `k` ticks: after `len` ticks it is back where it started. */
  lemma {:induction false} TicksRotate(i: nat, len: nat, k: nat)
    requires len > 1 && i < len
    ensures Ticks(i, len, k) == (i + k) % len
  {
    if k > 0 {
      TicksRotate(i, len, k - 1);
      var j := (i + k - 1) % len;
      assert Ticks(i, len, k) == (j + 1) % len;
      ModSucc(i + k - 1, len);
    }
  }

  lemma ModSucc(n: nat, len: nat)
    requires len > 0
    ensures ((n % len) + 1) % len == (n + 1) % len
  {
    var q := n / len;
    var r := n % len;
    assert n == q * len + r;
    if r + 1 < len {
      ModUnique(n + 1, len, q, r + 1);
      ModUnique(r + 1, len, 0, r + 1);
    } else {
      ModUnique(n + 1, len, q + 1, 0);
      ModUnique(r + 1, len, 1, 0);
    }
  }

  /** The remainder is the only one below the divisor. */
  lemma ModUnique(a: nat, len: nat, q: nat, r: nat)
    requires len > 0 && r < len && a == q * len + r
    ensures a % len == r
  {
    var q2 := a / len;
    var r2 := a % len;
    assert a == q2 * len + r2;
    if q < q2 {
      Distribute(q2, q, len);
      MulAtLeast(q2 - q, len);
    } else if q > q2 {
      Distribute(q, q2, len);
      MulAtLeast(q - q2, len);
    }
  }

  lemma MulAtLeast(k: int, len: int)
    requires k >= 1 && len > 0
    ensures k * len >= len
  {
  }

  lemma Distribute(a: int, b: int, len: int)
    ensures (a - b) * len == a * len - b * len
  {
  }

  datatype Carousel = Carousel(pageIndex: nat, running: bool)

  /** The effect on a change of the pages: an index past the last page goes
      back to the first, and the carousel runs only with more than two open
      incidents on more than one page. */
  function OnPagesChanged(c: Carousel, openCount: nat, pageCount: nat): (r: Carousel)
    ensures pageCount > 0 && c.pageIndex >= pageCount ==> r.pageIndex == 0
    ensures c.pageIndex < pageCount || pageCount == 0 ==> r.pageIndex == c.pageIndex
    ensures r.running <==> openCount > 2 && pageCount > 1
  {
    var i := if c.pageIndex >= pageCount && pageCount > 0 then 0 else c.pageIndex;
    Carousel(i, openCount > 2 && pageCount > 1)
  }

  /** For the real page count the two conditions coincide: the carousel runs
      exactly when more than two incidents are open, and afterwards the index
      names an existing page whenever there is one. */
  lemma CarouselRunsIffMoreThanTwo(c: Carousel, n: nat)
    ensures var r := OnPagesChanged(c, n, (n + 1) / 2);
      && (r.running <==> n > 2)
      && (n > 0 ==> r.pageIndex < (n + 1) / 2)
  {
  }

  // ---------------------------------------------------------------------------
  // Diary entries
  // ---------------------------------------------------------------------------

  /** Image entries are hidden, whatever the case of the category. */
  predicate IsImage(en: TagebuchEintrag) {
    Lower(OrElse(en.meldungskategorie, "")) == "zzimage"
  }

  /** The time of an entry; an entry without a time counts as the epoch. */
  function EntryTime(parse: string -> int, en: TagebuchEintrag): int {
    if en.datetimeIso == "" then 0 else parse(en.datetimeIso)
  }

  predicate NewerEntryFirst(parse: string -> int, a: TagebuchEintrag, b: TagebuchEintrag) {
    EntryTime(parse, a) >= EntryTime(parse, b)
  }

  lemma NewerEntryFirstIsTotalPreorder(parse: string -> int)
    ensures TotalPreorder((a: TagebuchEintrag, b: TagebuchEintrag) => NewerEntryFirst(parse, a, b))
  {
  }

  /** `entriesForDisplay`: the entries that are not images, newest first. */
  function EntriesForDisplay(parse: string -> int, e: EinsatzGruppe): (r: seq<TagebuchEintrag>)
    ensures SortedBy(r, (a: TagebuchEintrag, b: TagebuchEintrag) => NewerEntryFirst(parse, a, b))
    ensures multiset(r) == multiset(Filter(e.tagebuch, (en: TagebuchEintrag) => !IsImage(en)))
  {
    NewerEntryFirstIsTotalPreorder(parse);
    SortBy(Filter(e.tagebuch, (en: TagebuchEintrag) => !IsImage(en)),
           (a: TagebuchEintrag, b: TagebuchEintrag) => NewerEntryFirst(parse, a, b))
  }

  /** No image is displayed, and a displayed entry is never older than one
      displayed after it. */
  lemma EntriesNewestFirst(parse: string -> int, e: EinsatzGruppe)
    ensures var r := EntriesForDisplay(parse, e);
      forall i, j :: 0 <= i < j < |r| ==>
        && !IsImage(r[i]) && !IsImage(r[j])
        && EntryTime(parse, r[i]) >= EntryTime(parse, r[j])
  {
    var r := EntriesForDisplay(parse, e);
    var kept := Filter(e.tagebuch, (en: TagebuchEintrag) => !IsImage(en));
    forall k | 0 <= k < |r|
      ensures !IsImage(r[k])
    {
      assert r[k] in multiset(kept);
    }
    assert SortedBy(r, (a: TagebuchEintrag, b: TagebuchEintrag) => NewerEntryFirst(parse, a, b));
  }

  /** An entry is displayed exactly when it is in the diary and not an
      image, and it is displayed as often as the diary lists it. */
  lemma EntriesShown(parse: string -> int, e: EinsatzGruppe, en: TagebuchEintrag)
    ensures en in EntriesForDisplay(parse, e) <==> en in e.tagebuch && !IsImage(en)
    ensures !IsImage(en) ==> multiset(EntriesForDisplay(parse, e))[en] == multiset(e.tagebuch)[en]
  {
    var p := (x: TagebuchEintrag) => !IsImage(x);
    var kept := Filter(e.tagebuch, p);
    assert en in EntriesForDisplay(parse, e) <==> en in multiset(kept);
    if !IsImage(en) {
      FilterKeepsCount(e.tagebuch, p, en);
    }
  }

  /** Filtering keeps every copy of an element it keeps. */
  lemma {:induction false} FilterKeepsCount<A(!new)>(s: seq<A>, p: A -> bool, x: A)
    requires p(x)
    ensures multiset(Filter(s, p))[x] == multiset(s)[x]
  {
    if s != [] {
      var h, t := s[0], s[1..];
      var ft := Filter(t, p);
      FilterKeepsCount(t, p, x);
      assert s == [h] + t;
      assert multiset(s)[x] == multiset([h])[x] + multiset(t)[x];
      if p(h) {
        assert Filter(s, p) == [h] + ft;
        assert multiset([h] + ft)[x] == multiset([h])[x] + multiset(ft)[x];
      } else {
        assert Filter(s, p) == ft;
        assert h != x;
      }
    }
  }

  // ---------------------------------------------------------------------------
  // Polling
  // ---------------------------------------------------------------------------

  const FastMs := 10000
  const SlowMs := 600000
  const CarouselIntervalMs := 20000
  const DefaultApiUrl := "https://info.ff-wuerflach.at/api/einsatz.php"
  const InvalidResponseError := "Ung\U{FC}ltige API-Antwort."

  /** The feed address: the bound input, trimmed, unless that is empty. */
  function ApiUrl(input: Option<string>): (url: string)
    ensures input.None? || AllSpace(input.value) ==> url == DefaultApiUrl
    ensures input.Some? && !AllSpace(input.value) ==> url == Trim(input.value) && url != []
  {
    match input
    case None => DefaultApiUrl
    case Some(u) => OrElse(Trim(u), DefaultApiUrl)
  }

  /** The component's data state; `nextPoll` is the delay of the scheduled
      poll, if one is scheduled. */
  datatype V2RestState = V2RestState(
    loading: bool,
    error: Option<string>,
    payload: Option<ApiResponse>,
    nextPoll: Option<int>)

  /** `fetch`: nothing happens while a request is out; otherwise a request
      goes out. The flag says whether it did. */
  function Fetch(s: V2RestState): (r: (V2RestState, bool))
    ensures r.1 <==> !s.loading
    ensures r.0.loading
    ensures r.0.(loading := s.loading) == s
  {
    if s.loading then (s, false) else (s.(loading := true), true)
  }

  predicate ValidResponse(resp: Option<ApiResponse>) {
    resp.Some? && resp.value.ok && resp.value.data.Some?
  }

  /** A response arrived: a valid one is held and clears the error, anything
      else drops the held data with the invalid-response message. The next
      poll follows after ten seconds while incidents are open, after ten
      minutes otherwise. */
  function OnResponse(parse: string -> int, s: V2RestState, resp: Option<ApiResponse>): (r: V2RestState)
    ensures !r.loading
    ensures ValidResponse(resp) ==> r.payload == resp && r.error.None?
    ensures !ValidResponse(resp) ==> r.payload.None? && r.error == Some(InvalidResponseError)
    ensures r.nextPoll == Some(if |Offene(r.payload)| > 0 then FastMs else SlowMs)
  {
    var payload := if ValidResponse(resp) then resp else None;
    var error := if ValidResponse(resp) then None else Some(InvalidResponseError);
    var list := OffeneEinsaetze(parse, payload);
    V2RestState(false, error, payload, Some(if |list| > 0 then FastMs else SlowMs))
  }

  /** The request failed: the data is dropped, the message names the
      failure (or says it is unknown), and the next poll follows after ten
      minutes. */
  function OnFailure(s: V2RestState, message: Option<string>): (r: V2RestState)
    ensures !r.loading && r.payload.None? && r.nextPoll == Some(SlowMs)
    ensures r.error.Some? && StartsWith(r.error.value, "Fehler beim Laden: ")
    ensures message.Some? && message.value != [] ==> r.error.value[19..] == message.value
  {
    var text := "Fehler beim Laden: " + OrElse(message.GetOr(""), "unbekannt");
    assert text[..19] == "Fehler beim Laden: ";
    V2RestState(false, Some(text), None, Some(SlowMs))
  }

  /** Whatever the outcome, a poll ends with the flag cleared, so the next
      fetch goes out, and the next poll comes after ten seconds exactly when
      open incidents are held. */
  lemma PollCycle(parse: string -> int, s: V2RestState, resp: Option<ApiResponse>, message: Option<string>)
    requires Fetch(s).1
    ensures Fetch(OnResponse(parse, Fetch(s).0, resp)).1
    ensures Fetch(OnFailure(Fetch(s).0, message)).1
    ensures var r := OnResponse(parse, Fetch(s).0, resp);
      r.nextPoll == Some(FastMs) <==> |OffeneEinsaetze(parse, r.payload)| > 0
    ensures OnFailure(Fetch(s).0, message).nextPoll == Some(SlowMs)
  {
    var r := OnResponse(parse, Fetch(s).0, resp);
    assert |OffeneEinsaetze(parse, r.payload)| == |multiset(Offene(r.payload))|;
  }

  // ---------------------------------------------------------------------------
  // Vehicle tiles
  // ---------------------------------------------------------------------------

  /** `_isPresent`: a positive finite number, or a text that is not blank,
      not `-` or `0`, and does not read as a number at most zero. */
  function IsPresent(v: JsValue): (b: bool)
    ensures v.JsNull? || v.JsUndefined? ==> !b
    ensures v.JsNumber? ==> (b <==> v.n.Finite? && v.n.r > 0.0)
    ensures v.JsString? && (Trim(v.s) == "" || Trim(v.s) == "-" || Trim(v.s) == "0") ==> !b
    ensures v.JsString? ==>
      var t := Trim(v.s);
      var n := NumberOf(t);
      (b <==> t != [] && t != "-" && t != "0" && (n.NaN? || n.PosInf? || (n.Finite? && n.r > 0.0)))
  {
    match v
    case JsNull => false
    case JsUndefined => false
    case JsNumber(n) => n.Finite? && n.r > 0.0
    case JsString(s) => PresentText(Trim(s))
  }

  /** The text test of `_isPresent`, on the trimmed text. */
  predicate PresentText(s: string) {
    s != [] && s != "-" && s != "0" && !AtMostZero(NumberOf(s))
  }

  predicate AtMostZero(n: NumValue) {
    n.NegInf? || (n.Finite? && n.r <= 0.0)
  }

  /** A negative number written as text is absent: `"-3"` is as absent as
      `"0"`. */
  lemma NegativeTextAbsent(t: string)
    requires t != [] && AllDigits(t)
    ensures !IsPresent(JsString("-" + t))
  {
    var s := "-" + t;
    PlainDigits(t);
    assert !IsSpace(s[0]) && s[|s| - 1] == t[|t| - 1];
    TrimOfTrimmed(s);
    assert Unsigned(s) == t;
    DecimalLiteralOfDigits(t);
  }

  /** `"-3"` is absent. */
  lemma MinusThreeAbsent()
    ensures !IsPresent(JsString("-3"))
  {
    NegativeTextAbsent("3");
    assert "-" + "3" == "-3";
  }

  /** A run of digits is present exactly when its value is positive:
      `"00"` is as absent as `"0"`. */
  lemma PresentDigitText(t: string)
    requires t != [] && AllDigits(t)
    ensures IsPresent(JsString(t)) <==> DigitsValue(t) > 0
  {
    assert Trim(t) == t by {
      PlainDigits(t);
    }
    if t == "0" {
      DigitsValueOfNatToString(0);
    } else {
      PresentNonZeroDigits(t);
    }
  }

  lemma PresentNonZeroDigits(t: string)
    requires t != [] && AllDigits(t) && t != "0"
    ensures PresentText(t) <==> DigitsValue(t) > 0
  {
    NumberOfDigits(t);
    assert t != "-" by {
      assert IsDigit(t[0]);
    }
  }

  /** A whole number written as text is present exactly when it is
      positive, just like the number itself. */
  lemma PresentDigits(n: nat)
    ensures IsPresent(JsString(NatToString(n))) <==> n > 0
    ensures IsPresent(JsString(NatToString(n))) == IsPresent(JsNumber(Finite(n as real)))
  {
    PresentDigitText(NatToString(n));
    DigitsValueOfNatToString(n);
  }

  /** Leading zeros do not make a zero present. */
  lemma DoubleZeroAbsent()
    ensures !IsPresent(JsString("00"))
  {
    var t := "00";
    assert AllDigits(t);
    assert DigitsValue(t) == 0 by {
      assert t[..1] == "0" && t[..1][..0] == [];
    }
    PresentDigitText(t);
  }

  /** Surrounding blanks do not make a zero present. */
  lemma BlankZeroAbsent()
    ensures !IsPresent(JsString(" 0 "))
  {
    assert Trim(" 0 ") == "0" by {
      assert " 0 " == " " + "0 " && "0 " == "0" + " ";
      TrimStartSkips(" ", "0 ");
      TrimEndSkips("0", " ");
    }
  }

  /** Both the distance and the crew are recorded. */
  predicate IsCompleteFzg(f: Fahrzeug)
    ensures f.km.JsNull? || f.km.JsUndefined? || f.besatzung.JsNull? || f.besatzung.JsUndefined?
      ==> !IsCompleteFzg(f)
    ensures IsCompleteFzg(f) && f.km.JsNumber? ==> f.km.n.Finite? && f.km.n.r > 0.0
    ensures IsCompleteFzg(f) && f.besatzung.JsNumber? ==> f.besatzung.n.Finite? && f.besatzung.n.r > 0.0
  {
    IsPresent(f.km) && IsPresent(f.besatzung)
  }

  function TileClass(f: Fahrzeug): (c: string)
    ensures c == "tile-ok" <==> IsCompleteFzg(f)
    ensures c == "tile-ok" || c == "tile-bad"
  {
    if IsCompleteFzg(f) then "tile-ok" else "tile-bad"
  }

  /** `String(v)`; the text of a finite number is `fmt`. */
  function ValueText(v: JsValue, fmt: real -> string): string {
    match v
    case JsNull => "null"
    case JsUndefined => "undefined"
    case JsNumber(n) =>
      (match n
       case NaN => "NaN"
       case PosInf => "Infinity"
       case NegInf => "-Infinity"
       case Finite(r) => fmt(r))
    case JsString(s) => s
  }

  /** The shown value: the value's text, or `?` when it is absent. */
  function DisplayValue(v: JsValue, fmt: real -> string): (t: string)
    ensures !IsPresent(v) ==> t == "?"
    ensures IsPresent(v) ==> t == ValueText(v, fmt)
  {
    if IsPresent(v) then ValueText(v, fmt) else "?"
  }

  function DisplayName(f: Fahrzeug): (name: string)
    ensures f.funkrufname != [] ==> name == f.funkrufname
    ensures f.funkrufname == [] ==> name == f.rufname
  {
    OrElse(OrElse(f.funkrufname, f.rufname), "")
  }

  /** The bullet that separates the parts of a tile title. */
  const Dot := '\U{2022}'
  const Bullet := " \U{2022} "

  /** `tileTitle`: the name, then each value's text, or `?` where it is
      absent. Split at the bullets, a title whose name and value texts hold
      no bullet reads back as its three labelled parts. */
  function TileTitle(f: Fahrzeug, fmt: real -> string): (t: string)
    ensures var name, km, mann := DisplayName(f), DisplayValue(f.km, fmt), DisplayValue(f.besatzung, fmt);
      Dot !in name && Dot !in km && Dot !in mann ==>
        Split(t, Dot) == [name + " ", " km: " + km + " ", " Mann: " + mann]
    ensures Dot !in DisplayName(f) && !IsPresent(f.km) ==>
      |Split(t, Dot)| >= 2 && Split(t, Dot)[1] == " km: ? "
    ensures Dot !in DisplayName(f) && Dot !in DisplayValue(f.km, fmt) && !IsPresent(f.besatzung) ==>
      Split(t, Dot)[2..] == [" Mann: ?"]
  {
    var name, km, mann := DisplayName(f), DisplayValue(f.km, fmt), DisplayValue(f.besatzung, fmt);
    var t := name + Bullet + "km: " + km + Bullet + "Mann: " + mann;
    if Dot !in name && Dot !in km then
      TitlePieces(name, km, mann);
      if Dot !in mann then
        SplitWithoutSeparator(" Mann: " + mann, Dot);
        assert mann == "?" ==> " Mann: " + mann == " Mann: ?";
        t
      else t
    else t
  }

  /** The pieces of a title whose name and km text hold no bullet. */
  lemma TitlePieces(name: string, km: string, mann: string)
    requires Dot !in name && Dot !in km
    ensures var t := name + Bullet + "km: " + km + Bullet + "Mann: " + mann;
      && |Split(t, Dot)| >= 2
      && Split(t, Dot)[..2] == [name + " ", " km: " + km + " "]
      && Split(t, Dot)[2..] == Split(" Mann: " + mann, Dot)
  {
    var a, b, c := name + " ", " km: " + km + " ", " Mann: " + mann;
    assert name + Bullet + "km: " + km + Bullet + "Mann: " + mann == a + [Dot] + (b + [Dot] + c);
    SplitAfterPart(a, Dot, b + [Dot] + c);
    SplitAfterPart(b, Dot, c);
  }

  /** A tile whose vehicle lacks both values is red and its title shows a
      question mark for each. */
  lemma IncompleteTile(f: Fahrzeug, fmt: real -> string)
    requires !IsPresent(f.km) && !IsPresent(f.besatzung)
    ensures TileClass(f) == "tile-bad"
    ensures TileTitle(f, fmt) == DisplayName(f) + " \U{2022} km: ? \U{2022} Mann: ?"
  {
  }
}
