/** The first incident layout's crew panel: the `user` query limit, the
    normalised responses, the role keys of a person, the alarmed fire
    stations, the yes/no lists with the four role boxes, and the short
    elapsed-time text. The map and the timers are not part of this model. */
module AlarmV1 {
  import opened Base
  import opened JsText
  import opened Sorting
  import opened Lists
  import Lea
  import IncidentMode

  // ---------------------------------------------------------------------------
  // The `user` query limit
  // ---------------------------------------------------------------------------

  /** `readUserLimitFromRoute`: the whole part of a finite, positive
      `Number(user)`; `None` otherwise (no `user`, `NaN`, infinite, zero or
      negative). */
  function ReadUserLimit(raw: Option<string>): (limit: Option<nat>)
    ensures limit.Some? <==> raw.Some? && NumberOf(raw.value).Finite? && NumberOf(raw.value).r > 0.0
    ensures limit.Some? ==>
      limit.value as real <= NumberOf(raw.value).r < limit.value as real + 1.0
  {
    match raw
    case None => None
    case Some(t) =>
      match NumberOf(t)
      case Finite(n) => if n > 0.0 then Some(n.Floor as nat) else None
      case _ => None
  }

  /** A positive whole number limits the list to that many persons; `0`
      sets no limit. */
  lemma UserLimitOfNumber(n: nat)
    ensures ReadUserLimit(Some(NatToString(n))) == if n > 0 then Some(n) else None
  {
    NumberOfNatToString(n);
  }

  // ---------------------------------------------------------------------------
  // Responses
  // ---------------------------------------------------------------------------

  datatype Resp = Yes | No | Open

  const YesWords: seq<string> := ["ja", "yes", "y", "true", "1"]
  const NoWords: seq<string> := ["nein", "no", "n", "false", "0"]

  /** `normResp`: no response is open; the trimmed, lowercased text is yes
      or no when it is one of the listed words, open otherwise. */
  function NormResp(v: Option<string>): (r: Resp)
    ensures v.None? ==> r == Open
    ensures v.Some? ==> (r == Yes <==> Lower(Trim(v.value)) in YesWords)
    ensures v.Some? ==> (r == No <==> Lower(Trim(v.value)) in NoWords)
  {
    match v
    case None => Open
    case Some(t) =>
      var s := Lower(Trim(t));
      if s in YesWords then Yes else if s in NoWords then No else Open
  }

  /** No word is both a yes and a no. */
  lemma AnswerWordsDisjoint()
    ensures forall w :: w in YesWords ==> w !in NoWords
  {
  }

  /** Surrounding whitespace does not change a response. */
  lemma NormRespIgnoresSpace(t: string)
    ensures NormResp(Some(Trim(t))) == NormResp(Some(t))
  {
    var s := Trim(t);
    if s != [] {
      TrimOfTrimmed(s);
    }
  }

  // ---------------------------------------------------------------------------
  // Roles
  // ---------------------------------------------------------------------------

  datatype RoleKey = EL | ELMIT | ATS | C

  /** The name a function is matched by: its trimmed short name, else its
      trimmed name. */
  function FunctionName(f: Lea.LeaFunction): string {
    Trim(OrElse(f.shortname, f.name))
  }

  /** The role an exact function name stands for. */
  function RoleOfName(name: string): (r: Option<RoleKey>)
    ensures r == Some(EL) <==> name == "EL"
    ensures r == Some(ELMIT) <==> name == "EL - Mit"
    ensures r == Some(ATS) <==> name == "ATS"
    ensures r == Some(C) <==> name == "C"
  {
    if name == "EL" then Some(EL)
    else if name == "EL - Mit" then Some(ELMIT)
    else if name == "ATS" then Some(ATS)
    else if name == "C" then Some(C)
    else None
  }

  function RoleOf(f: Lea.LeaFunction): Option<RoleKey> {
    RoleOfName(FunctionName(f))
  }

  /** The roles of every function of the person, in order, repeats included. */
  function RoleList(p: Lea.LeaPerson): (keys: seq<RoleKey>)
    ensures forall k :: k in keys <==> exists i :: 0 <= i < |p.functions| && RoleOf(p.functions[i]) == Some(k)
  {
    FilterMap(p.functions, RoleOf)
  }

  /** `roleKeysForPerson`: the roles of the person's functions, each once. */
  function RoleKeysForPerson(p: Lea.LeaPerson): (keys: seq<RoleKey>)
    ensures Distinct(keys)
    ensures forall k :: k in keys <==> exists i :: 0 <= i < |p.functions| && RoleOf(p.functions[i]) == Some(k)
  {
    Dedup(RoleList(p))
  }

  /** The roles are listed in the order their first function appears. */
  lemma RoleKeysFirstOrder(p: Lea.LeaPerson)
    ensures var keys := RoleKeysForPerson(p);
      forall i, j :: 0 <= i < j < |keys| ==>
        FirstIndex(RoleList(p), keys[i]) < FirstIndex(RoleList(p), keys[j])
  {
    DedupFirstOrder(RoleList(p));
  }

  // ---------------------------------------------------------------------------
  // Stations
  // ---------------------------------------------------------------------------

  /** The organisational units of all divisions, in order. */
  function Units(divs: seq<Lea.Division>): (us: seq<Lea.OrgUnit>)
    ensures forall u :: u in us <==> exists d :: d in divs && u in d.organizationalunits
  {
    if divs == [] then []
    else
      var rest := Units(divs[1..]);
      assert forall d :: d in divs <==> d == divs[0] || d in divs[1..];
      divs[0].organizationalunits + rest
  }

  /** The label of a unit: its trimmed description, else its trimmed name. */
  function StationLabel(u: Lea.OrgUnit): string {
    Trim(OrElse(u.description, u.name))
  }

  /** A unit is a listed station: it has a label, its type is `FF` (in any
      case) and its label does not mention `info` (in any case). */
  predicate IsStation(u: Lea.OrgUnit) {
    && StationLabel(u) != []
    && Upper(u.unitType) == "FF"
    && !Contains(Lower(StationLabel(u)), "info")
  }

  function StationOf(u: Lea.OrgUnit): (r: Option<string>)
    ensures r.Some? <==> IsStation(u)
  {
    if IsStation(u) then Some(StationLabel(u)) else None
  }

  /** `computeStations`: the labels of the station units of the incident,
      each once, in string order. */
  function ComputeStations(e: Option<Lea.Einsatz>): (r: seq<string>)
    ensures SortedBy(r, StrLe)
    ensures Distinct(r)
  {
    var divs := if e.Some? then e.value.additionaldivisions else [];
    var labels := Dedup(FilterMap(Units(divs), StationOf));
    StrLeIsTotalPreorder();
    var sorted := SortBy(labels, StrLe);
    DistinctPermutation(labels, sorted);
    sorted
  }

  /** A label is listed exactly when some unit of some division of the
      incident is a station with that label. */
  lemma StationsExactly(e: Lea.Einsatz, l: string)
    ensures l in ComputeStations(Some(e)) <==>
      exists d, u :: d in e.additionaldivisions && u in d.organizationalunits && StationOf(u) == Some(l)
  {
    var us := Units(e.additionaldivisions);
    var labels := Dedup(FilterMap(us, StationOf));
    StrLeIsTotalPreorder();
    SortByMembers(labels, StrLe, l);
    assert l in labels <==> exists i :: 0 <= i < |us| && StationOf(us[i]) == Some(l);
    assert (exists i :: 0 <= i < |us| && StationOf(us[i]) == Some(l)) <==> exists u :: u in us && StationOf(u) == Some(l);
  }

  // ---------------------------------------------------------------------------
  // People and role boxes
  // ---------------------------------------------------------------------------

  datatype PersonView = PersonView(name: string, resp: Resp, roles: seq<RoleKey>, freeText: Option<string>)

  datatype RoleBox = RoleBox(key: RoleKey, title: string, yesNames: seq<string>, yesCount: nat, showNames: bool)

  datatype CrewView = CrewView(
    stations: seq<string>,
    peopleYes: seq<PersonView>,
    peopleNo: seq<PersonView>,
    boxes: seq<RoleBox>,
    showBadges: bool,
    dense: bool)

  /** Above this many yes-answers in one box, names are hidden everywhere. */
  const MaxShowNames := 6
  /** At most this many names are listed in a box. */
  const MaxListed := 5

  const BoxKeys: seq<RoleKey> := [EL, ELMIT, ATS, C]

  function BoxTitle(k: RoleKey): string {
    match k
    case EL => "EL"
    case ELMIT => "Einsatzleitung"
    case ATS => "ATS"
    case C => "C-Fahrer"
  }

  /** The persons considered: the first `limit` when a limit is set. */
  function Limited(persons: seq<Lea.LeaPerson>, limit: Option<nat>): (src: seq<Lea.LeaPerson>)
    ensures limit.None? ==> src == persons
    ensures limit.Some? ==> src == persons[..Min(limit.value, |persons|)]
  {
    match limit
    case None => persons
    case Some(n) => if n < |persons| then persons[..n] else persons
  }

  /** First and last name, trimmed. */
  function PersonName(p: Lea.LeaPerson): string {
    Trim(p.firstname.GetOr("") + " " + p.lastname.GetOr(""))
  }

  function ResponseText(p: Lea.LeaPerson): Option<string> {
    match p.response
    case None => None
    case Some(r) => r.basicresponse
  }

  /** The trimmed free text; absent when missing or blank. */
  function FreeText(p: Lea.LeaPerson): (t: Option<string>)
    ensures t.Some? ==> t.value != [] && !IsSpace(t.value[0])
  {
    if p.response.Some? && p.response.value.freetext.Some? && Trim(p.response.value.freetext.value) != [] then
      Some(Trim(p.response.value.freetext.value))
    else None
  }

  function ViewOf(p: Lea.LeaPerson): PersonView {
    PersonView(PersonName(p), NormResp(ResponseText(p)), RoleKeysForPerson(p), FreeText(p))
  }

  function Views(src: seq<Lea.LeaPerson>): (vs: seq<PersonView>)
    ensures |vs| == |src| && forall i :: 0 <= i < |src| ==> vs[i] == ViewOf(src[i])
  {
    seq(|src|, i requires 0 <= i < |src| => ViewOf(src[i]))
  }

  predicate IsYes(v: PersonView) { v.resp == Yes }
  predicate IsNo(v: PersonView) { v.resp == No }

  /** Alphabetical by name. */
  predicate ByName(a: PersonView, b: PersonView) {
    StrLe(a.name, b.name)
  }

  lemma ByNameIsTotalPreorder()
    ensures TotalPreorder(ByName)
  {
    StrLeIsTotalPreorder();
  }

  function NamesOf(vs: seq<PersonView>): (ns: seq<string>)
    ensures |ns| == |vs| && forall i :: 0 <= i < |vs| ==> ns[i] == vs[i].name
  {
    seq(|vs|, i requires 0 <= i < |vs| => vs[i].name)
  }

  /** The names collected for a role: the yes-persons carrying it, in feed
      order. */
  function CollectedNames(yes: seq<PersonView>, k: RoleKey): seq<string> {
    NamesOf(Filter(yes, (v: PersonView) => k in v.roles))
  }

  /** Some role has more yes-answers than names can be shown for. */
  predicate TooMany(yes: seq<PersonView>) {
    exists i :: 0 <= i < |BoxKeys| && |CollectedNames(yes, BoxKeys[i])| > MaxShowNames
  }

  function BoxOf(yes: seq<PersonView>, k: RoleKey): (b: RoleBox)
    ensures b.key == k && b.yesCount == |CollectedNames(yes, k)|
    ensures TooMany(yes) ==> !b.showNames && b.yesNames == []
    ensures !TooMany(yes) ==>
      var names := CollectedNames(yes, k);
      b.showNames && b.yesNames == names[..Min(MaxListed, |names|)]
  {
    var names := CollectedNames(yes, k);
    if TooMany(yes) then RoleBox(k, BoxTitle(k), [], |names|, false)
    else RoleBox(k, BoxTitle(k), if |names| > MaxListed then names[..MaxListed] else names, |names|, true)
  }

  /** The lists and boxes of a sequence of person views (in feed order). */
  function CrewOf(stations: seq<string>, vs: seq<PersonView>): (r: CrewView)
    ensures SortedBy(r.peopleYes, ByName) && SortedBy(r.peopleNo, ByName)
    ensures multiset(r.peopleYes) == multiset(Filter(vs, IsYes))
    ensures multiset(r.peopleNo) == multiset(Filter(vs, IsNo))
    ensures |r.boxes| == 4 && forall i :: 0 <= i < 4 ==> r.boxes[i] == BoxOf(Filter(vs, IsYes), BoxKeys[i])
    ensures r.showBadges <==> exists i :: 0 <= i < 4 && r.boxes[i].yesCount > MaxShowNames
    ensures forall i :: 0 <= i < 4 ==> (r.boxes[i].showNames <==> !r.showBadges)
    ensures forall i :: 0 <= i < 4 ==> |r.boxes[i].yesNames| <= MaxListed
    ensures r.dense <==> |r.peopleYes| + |r.peopleNo| >= 30
    ensures r.stations == stations
  {
    var yes := Filter(vs, IsYes);
    var no := Filter(vs, IsNo);
    ByNameIsTotalPreorder();
    var peopleYes := SortBy(yes, ByName);
    var peopleNo := SortBy(no, ByName);
    var boxes := seq(4, i requires 0 <= i < 4 => BoxOf(yes, BoxKeys[i]));
    CrewView(stations, peopleYes, peopleNo, boxes, TooMany(yes), |peopleYes| + |peopleNo| >= 30)
  }

  /** `recomputePeopleAndRoles`: the stations of the incident and the crew
      lists of the persons considered. */
  function Recompute(e: Option<Lea.Einsatz>, limit: Option<nat>): (r: CrewView)
    ensures r.stations == ComputeStations(e)
    ensures e.None? ==> r.peopleYes == [] && r.peopleNo == [] && !r.showBadges
    ensures |r.peopleYes| + |r.peopleNo| <= |Limited(if e.Some? then e.value.alarmedpersons else [], limit)|
  {
    var vs := Views(Limited(if e.Some? then e.value.alarmedpersons else [], limit));
    var r := CrewOf(ComputeStations(e), vs);
    YesNoFewerThanViews(vs);
    assert multiset(r.peopleYes) == multiset(Filter(vs, IsYes));
    assert multiset(r.peopleNo) == multiset(Filter(vs, IsNo));
    assert |r.peopleYes| == |Filter(vs, IsYes)| && |r.peopleNo| == |Filter(vs, IsNo)|;
    r
  }

  /** No view is both a yes and a no, so the two lists together are no
      longer than the views. */
  lemma {:induction false} YesNoFewerThanViews(vs: seq<PersonView>)
    ensures |Filter(vs, IsYes)| + |Filter(vs, IsNo)| <= |vs|
  {
    if vs != [] {
      YesNoFewerThanViews(vs[1..]);
    }
  }

  /** A view is among the shown persons' views exactly when it is the view
      of one of the first `limit` alarmed persons (all of them without a
      limit). */
  lemma ViewsOfLimited(ps: seq<Lea.LeaPerson>, limit: Option<nat>, v: PersonView)
    ensures v in Views(Limited(ps, limit)) <==>
      exists i :: 0 <= i < |ps| && (limit.None? || i < limit.value) && ViewOf(ps[i]) == v
  {
    var src := Limited(ps, limit);
    var vs := Views(src);
    if v in vs {
      var i :| 0 <= i < |vs| && vs[i] == v;
      assert src[i] == ps[i];
      assert 0 <= i < |ps| && (limit.None? || i < limit.value) && ViewOf(ps[i]) == v;
    }
    if exists i :: 0 <= i < |ps| && (limit.None? || i < limit.value) && ViewOf(ps[i]) == v {
      var i :| 0 <= i < |ps| && (limit.None? || i < limit.value) && ViewOf(ps[i]) == v;
      assert i < |src| && src[i] == ps[i];
      assert vs[i] == v;
    }
  }

  /** A person's view is in the yes (no) list exactly when the person is
      among the first `limit` alarmed persons (all of them without a limit)
      and answered yes (no). */
  lemma RecomputeLists(e: Lea.Einsatz, limit: Option<nat>, v: PersonView)
    ensures var r := Recompute(Some(e), limit);
      var ps := e.alarmedpersons;
      && (v in r.peopleYes <==>
            v.resp == Yes && exists i :: 0 <= i < |ps| && (limit.None? || i < limit.value) && ViewOf(ps[i]) == v)
      && (v in r.peopleNo <==>
            v.resp == No && exists i :: 0 <= i < |ps| && (limit.None? || i < limit.value) && ViewOf(ps[i]) == v)
  {
    ViewsOfLimited(e.alarmedpersons, limit, v);
    ListsHoldTheirAnswers(ComputeStations(Some(e)), Views(Limited(e.alarmedpersons, limit)), v);
  }

  lemma ListsHoldTheirAnswers(stations: seq<string>, vs: seq<PersonView>, v: PersonView)
    ensures v in CrewOf(stations, vs).peopleYes <==> v in vs && v.resp == Yes
    ensures v in CrewOf(stations, vs).peopleNo <==> v in vs && v.resp == No
  {
    var r := CrewOf(stations, vs);
    var yes := Filter(vs, IsYes);
    var no := Filter(vs, IsNo);
    assert v in r.peopleYes <==> v in multiset(r.peopleYes);
    assert v in yes <==> v in multiset(yes);
    assert v in r.peopleNo <==> v in multiset(r.peopleNo);
    assert v in no <==> v in multiset(no);
  }

  /** Each box counts the yes-answers that carry its role. */
  lemma BoxCountsYesWithRole(stations: seq<string>, vs: seq<PersonView>, i: nat)
    requires i < 4
    ensures CrewOf(stations, vs).boxes[i].yesCount ==
      Count(vs, (v: PersonView) => v.resp == Yes && BoxKeys[i] in v.roles)
  {
    var k := BoxKeys[i];
    FilterFilterCount(vs, IsYes, (v: PersonView) => k in v.roles,
                      (v: PersonView) => v.resp == Yes && k in v.roles);
  }

  /** Without badges each box lists the first names collected for its role,
      at most five of them, in feed order. */
  lemma BoxNamesArePrefix(stations: seq<string>, vs: seq<PersonView>, i: nat)
    requires i < 4
    ensures var r := CrewOf(stations, vs);
      !r.showBadges ==>
        var names := CollectedNames(Filter(vs, IsYes), BoxKeys[i]);
        r.boxes[i].yesNames == names[..Min(MaxListed, |names|)]
  {
  }

  /** A limit of zero (from a `user` value between 0 and 1) lists nobody. */
  lemma ZeroLimitListsNobody(e: Lea.Einsatz)
    ensures Recompute(Some(e), Some(0)).peopleYes == []
    ensures Recompute(Some(e), Some(0)).peopleNo == []
    ensures !Recompute(Some(e), Some(0)).showBadges && !Recompute(Some(e), Some(0)).dense
  {
  }

  // ---------------------------------------------------------------------------
  // Elapsed time
  // ---------------------------------------------------------------------------

  /** Splitting `a:b` on `:` gives back the two digit fields. */
  lemma ReadTwoFields(a: string, b: string)
    requires AllDigits(a) && AllDigits(b)
    ensures Split(a + ":" + b, ':') == [a, b]
  {
    assert !IsDigit(':');
    assert ':' !in a && ':' !in b;
    assert a + ":" + b == a + [':'] + b;
    SplitAfterPart(a, ':', b);
    SplitWithoutSeparator(b, ':');
  }

  /** `elapsedShort`: a dash without an alarm time; otherwise `h:mm:ss` from
      one hour on and `m:ss` below, of the whole seconds since the alarm
      (never negative). The fields read back as that number of seconds. */
  function ElapsedShort(now: int, e: Option<Lea.Einsatz>): (r: string)
    ensures IncidentMode.AlarmMissing(e) <==> r == IncidentMode.Dash
    ensures !IncidentMode.AlarmMissing(e) ==>
      var total := Max(0, now - e.value.alarmtime) / 1000;
      var parts := Split(r, ':');
      && (total >= 3600 <==> |parts| == 3)
      && (total < 3600 <==> |parts| == 2)
      && (forall k :: 0 <= k < |parts| ==> AllDigits(parts[k]))
      && |parts[|parts| - 1]| == 2
      && (|parts| == 3 ==> |parts[1]| == 2)
      && (parts[0] == "0" || (parts[0] != [] && parts[0][0] != '0'))
      && (|parts| == 3 ==>
            && DigitsValue(parts[0]) * 3600 + DigitsValue(parts[1]) * 60 + DigitsValue(parts[2]) == total
            && DigitsValue(parts[0]) > 0 && DigitsValue(parts[1]) < 60 && DigitsValue(parts[2]) < 60)
      && (|parts| == 2 ==>
            && DigitsValue(parts[0]) * 60 + DigitsValue(parts[1]) == total
            && DigitsValue(parts[1]) < 60)
  {
    if IncidentMode.AlarmMissing(e) then IncidentMode.Dash
    else
      var total := Max(0, now - e.value.alarmtime) / 1000;
      var p := IncidentMode.ClockParts(total);
      IncidentMode.Pad2ReadsBack(p.1);
      IncidentMode.Pad2ReadsBack(p.2);
      if p.0 > 0 then
        IncidentMode.ReadClockText(NatToString(p.0), Pad2(p.1), Pad2(p.2));
        DigitsValueOfNatToString(p.0);
        NatToString(p.0) + ":" + Pad2(p.1) + ":" + Pad2(p.2)
      else
        ReadTwoFields(NatToString(p.1), Pad2(p.2));
        DigitsValueOfNatToString(p.1);
        NatToString(p.1) + ":" + Pad2(p.2)
  }
}
