/** The developer overlay: what it shows as active, derived from the router
    URL and the root query parameters, and the navigations its buttons make.
    A navigation is described by its target path (`None` keeps the current
    one) and the query changes it merges into the current parameters. */
module HeaderControls {
  import opened Base
  import opened JsText
  import opened Url

  datatype HeaderState = HeaderState(
    show: bool,
    testActive: bool,
    restActive: Variant,
    userValue: string,
    incidentActive: Variant)

  /** The lowercased `test` value is present and not `0`. */
  predicate TestOn(q: Params) {
    var test := Lower(GetText(q, "test"));
    test != [] && test != "0"
  }

  /** `updateState`. The URL is the router's full URL, query string included,
      so its path checks also see the query text. */
  function UpdateState(url: string, q: Params): (h: HeaderState)
    ensures h.show <==> Lower(GetText(q, "dev")) == "1"
    ensures h.testActive <==> GetText(q, "test") != [] && Lower(GetText(q, "test")) != "0"
    ensures h.restActive == V2 <==> Lower(GetText(q, "rest")) == "v2"
    ensures h.userValue == GetText(q, "user")
    ensures Contains(Lower(url), "/alarm2") ==> h.incidentActive == V2
    ensures Contains(Lower(url), "/alarm") && !Contains(Lower(url), "/alarm2") ==> h.incidentActive == V1
    ensures !Contains(Lower(url), "/alarm") ==>
      (h.incidentActive == V2 <==> Lower(OrElse(GetText(q, "incident"), GetText(q, "view"))) == "v2")
  {
    var u := Lower(url);
    AlarmTwoIsAlarm(u);
    var rest := Lower(GetText(q, "rest"));
    var incident :=
      if Contains(u, "/alarm2") then V2
      else if Contains(u, "/alarm") then V1
      else if Lower(OrElse(GetText(q, "incident"), GetText(q, "view"))) == "v2" then V2
      else V1;
    HeaderState(
      Lower(GetText(q, "dev")) == "1",
      TestOn(q),
      if rest == "v2" then V2 else V1,
      Get(q, "user").GetOr(""),
      incident)
  }

  /** The text of a variant in a URL. */
  function VariantText(v: Variant): (t: string)
    ensures ExactVariant(t) == Some(v)
    ensures Lower(t) == t
  {
    match v
    case V2 => "v2"
    case V1 => "v1"
  }

  datatype Navigation = Navigation(path: Option<string>, changes: map<string, Option<string>>)

  /** `mergeCurrentQuery`: every current parameter, with the overrides
      replacing (or, as `null`, removing) same-named ones. */
  function MergeCurrentQuery(q: Params, overrides: map<string, Option<string>>): (m: map<string, Option<string>>)
    ensures m.Keys == q.Keys + overrides.Keys
    ensures forall k :: k in overrides ==> m[k] == overrides[k]
    ensures forall k :: k in q && k !in overrides ==> m[k] == Some(q[k])
  {
    map k | k in q.Keys + overrides.Keys :: if k in overrides then overrides[k] else Some(q[k])
  }

  /** Passing the current query along explicitly does not change a merging
      navigation: the result is what the overrides alone give. */
  lemma MergeCurrentQueryIsRedundant(q: Params, overrides: map<string, Option<string>>)
    ensures MergeNavigate(q, MergeCurrentQuery(q, overrides)) == MergeNavigate(q, overrides)
  {
    var a := MergeNavigate(q, MergeCurrentQuery(q, overrides));
    var b := MergeNavigate(q, overrides);
    assert forall k :: k in a <==> k in b;
  }

  /** `setIncident`: on a fixed alarm route go to the route of `v` and drop
      `incident`/`view`; elsewhere stay and set `incident`, dropping `view`. */
  function SetIncident(url: string, q: Params, v: Variant): (n: Navigation)
    ensures Contains(Lower(url), "/alarm") ==>
      && n.path == Some(if v == V2 then "/alarm2" else "/alarm")
      && n.changes == MergeCurrentQuery(q, map["incident" := None, "view" := None])
    ensures !Contains(Lower(url), "/alarm") ==>
      && n.path == None
      && n.changes == map["incident" := Some(VariantText(v)), "view" := None]
  {
    var u := Lower(url);
    AlarmTwoIsAlarm(u);
    if Contains(u, "/alarm") || Contains(u, "/alarm2") then
      Navigation(Some(if v == V2 then "/alarm2" else "/alarm"),
                 MergeCurrentQuery(q, map["incident" := None, "view" := None]))
    else
      Navigation(None, map["incident" := Some(VariantText(v)), "view" := None])
  }

  /** Every URL on the `/alarm2` route is also on the `/alarm` one. */
  lemma AlarmTwoIsAlarm(u: string)
    ensures Contains(u, "/alarm2") ==> Contains(u, "/alarm")
  {
    if Contains(u, "/alarm2") {
      assert "/alarm2" == "/alarm" + "2";
      ContainsPrefixOf(u, "/alarm", "2");
    }
  }

  /** `setRest`: stay and set `rest`. */
  function SetRest(v: Variant): (n: Navigation)
    ensures n.path == None && n.changes.Keys == {"rest"}
    ensures ExactVariant(n.changes["rest"].GetOr("")) == Some(v)
  {
    Navigation(None, map["rest" := Some(VariantText(v))])
  }

  /** `toggleTest`: remove `test` when test mode is on, else set it to `1`. */
  function ToggleTest(q: Params): (n: Navigation)
    ensures n.path == None && n.changes.Keys == {"test"}
    ensures TestOn(q) ==> n.changes["test"] == None
    ensures !TestOn(q) ==> n.changes["test"] == Some("1")
  {
    var current := Lower(OrElse(GetText(q, "test"), ""));
    Navigation(None, map["test" := if current != [] && current != "0" then None else Some("1")])
  }

  /** `submitUser`: set `user` to the trimmed field value, or remove it when
      that is empty. */
  function SubmitUser(userValue: string): (n: Navigation)
    ensures n.path == None && n.changes.Keys == {"user"}
    ensures AllSpace(userValue) <==> n.changes["user"] == None
    ensures !AllSpace(userValue) ==> n.changes["user"] == Some(Trim(userValue))
  {
    var val := Trim(userValue);
    Navigation(None, map["user" := if |val| > 0 then Some(val) else None])
  }

  /** The query after a navigation. */
  function After(q: Params, n: Navigation): Params {
    MergeNavigate(q, n.changes)
  }

  /** Every toggle flips the overlay's test indicator, whatever the URL. */
  lemma ToggleTestFlips(url: string, url2: string, q: Params)
    ensures UpdateState(url2, After(q, ToggleTest(q))).testActive == !UpdateState(url, q).testActive
  {
    var q2 := After(q, ToggleTest(q));
    if !TestOn(q) {
      assert GetText(q2, "test") == "1";
      assert Lower("1") == "1";
    }
  }

  /** After setting the rest layout the overlay shows it as active. */
  lemma SetRestShows(url: string, q: Params, v: Variant)
    ensures UpdateState(url, After(q, SetRest(v))).restActive == v
  {
    var q2 := After(q, SetRest(v));
    assert GetText(q2, "rest") == VariantText(v);
    assert Lower("v2") == "v2";
    assert Lower("v1") == "v1";
  }

  /** After submitting, the field shows the trimmed value. */
  lemma SubmitUserShows(url: string, q: Params, userValue: string)
    ensures UpdateState(url, After(q, SubmitUser(userValue))).userValue == Trim(userValue)
  {
    var t := Trim(userValue);
    var c := SubmitUser(userValue).changes["user"];
    MergeNavigateOne(q, "user", c);
    var q2 := After(q, SubmitUser(userValue));
    if c.Some? {
      assert q2 == q["user" := t];
    } else {
      assert t == [];
      assert q2 == q - {"user"};
    }
    assert GetText(q2, "user") == t;
  }

  /** Surrounding whitespace in the field makes no difference. */
  lemma SubmitIgnoresSurroundingSpace(userValue: string)
    ensures SubmitUser(Trim(userValue)) == SubmitUser(userValue)
  {
    var t := Trim(userValue);
    TrimOfTrimmed(t);
    assert Trim(t) == t;
  }

  /** Submitting what the field shows after a submit changes nothing. */
  lemma SubmitUserSettles(url: string, q: Params, userValue: string)
    ensures var q2 := After(q, SubmitUser(userValue));
      After(q2, SubmitUser(UpdateState(url, q2).userValue)) == q2
  {
    var t := Trim(userValue);
    SubmitUserShows(url, q, userValue);
    SubmitIgnoresSurroundingSpace(userValue);
    var q2 := After(q, SubmitUser(userValue));
    var c := SubmitUser(userValue).changes["user"];
    MergeNavigateOne(q, "user", c);
    MergeNavigateOne(q2, "user", c);
    if c.Some? {
      UpdateSame(q2, "user", t);
    } else {
      RemoveAbsent(q2, "user");
    }
  }

  /** On a fixed alarm route, choosing a layout lands on that layout's route
      and the overlay shows it, provided the query string that follows the
      route mentions no alarm route. */
  lemma SetIncidentOnRouteShows(url: string, q: Params, v: Variant, query: string)
    requires Contains(Lower(url), "/alarm")
    requires query == [] || query[0] == '?'
    requires !Contains(Lower(query), "/alarm")
    ensures var n := SetIncident(url, q, v);
      n.path.Some? && UpdateState(n.path.value + query, After(q, n)).incidentActive == v
  {
    var n := SetIncident(url, q, v);
    var p := n.path.value;
    RoutesAreLowercase();
    LowerAppend(p, query);
    RouteFollowedByQuery(v, Lower(query));
    ShownByRoute(p + query, After(q, n), v);
  }

  /** The two alarm routes are already lowercase. */
  lemma RoutesAreLowercase()
    ensures Lower("/alarm") == "/alarm" && Lower("/alarm2") == "/alarm2"
  {
  }

  /** A URL on the `/alarm` route shows `v2` exactly when it is on `/alarm2`. */
  lemma ShownByRoute(u: string, q: Params, v: Variant)
    requires Contains(Lower(u), "/alarm")
    requires Contains(Lower(u), "/alarm2") <==> v == V2
    ensures UpdateState(u, q).incidentActive == v
  {
  }

  /** A layout's route followed by a query string free of alarm routes is
      on the `/alarm` route, and on `/alarm2` exactly for `v2`. */
  lemma RouteFollowedByQuery(v: Variant, lq: string)
    requires lq == [] || lq[0] == '?'
    requires !Contains(lq, "/alarm")
    ensures var u := (if v == V2 then "/alarm2" else "/alarm") + lq;
      Contains(u, "/alarm") && (Contains(u, "/alarm2") <==> v == V2)
  {
    assert !Contains(lq, "/alarm2") by {
      if Contains(lq, "/alarm2") {
        assert "/alarm2" == "/alarm" + "2";
        ContainsPrefixOf(lq, "/alarm", "2");
      }
    }
    match v
    case V2 =>
      ContainsInfix([], "/alarm2", lq);
      assert [] + "/alarm2" + lq == "/alarm2" + lq;
      AlarmTwoIsAlarm("/alarm2" + lq);
    case V1 =>
      ContainsInfix([], "/alarm", lq);
      assert [] + "/alarm" + lq == "/alarm" + lq;
      AlarmNotFollowedByTwo(lq);
  }

  /** Off the fixed routes, choosing a layout sets `incident` and the overlay
      shows it, provided the URL reached mentions no alarm route. */
  lemma SetIncidentElsewhereShows(url: string, q: Params, v: Variant, newUrl: string)
    requires !Contains(Lower(url), "/alarm")
    requires !Contains(Lower(newUrl), "/alarm")
    ensures UpdateState(newUrl, After(q, SetIncident(url, q, v))).incidentActive == v
  {
    var n := SetIncident(url, q, v);
    var q2 := After(q, n);
    var t := VariantText(v);
    assert GetText(q2, "incident") == t;
    assert OrElse(t, GetText(q2, "view")) == t;
  }

  /** `/alarm` followed by a query string that does not contain `/alarm2`
      does not contain `/alarm2`. */
  lemma AlarmNotFollowedByTwo(lq: string)
    requires lq == [] || lq[0] == '?'
    requires !Contains(lq, "/alarm2")
    ensures !Contains("/alarm" + lq, "/alarm2")
  {
    var p := "/alarm2";
    var s := "/alarm" + lq;
    if |p| <= |s| {
      assert s[6] == lq[0];
      assert s[..|p|][6] != p[6];
    }
    NotContainsAfterHead("/alarm", lq, p);
  }

  /** The overlay position in pixels from the top and the right edge. */
  datatype Pos = Pos(top: int, right: int)

  /** Where a drag started: the pointer and the overlay position. */
  datatype DragStart = DragStart(x: int, y: int, top: int, right: int)

  /** A drag move: the overlay follows the pointer (right-aligned, so a move
      to the right shrinks the right offset), clamped at the top and the
      right edge. */
  function DragMove(d: DragStart, clientX: int, clientY: int): (p: Pos)
    ensures p.top >= 0 && p.right >= 0
    ensures p.top >= d.top + (clientY - d.y) && p.right >= d.right - (clientX - d.x)
    ensures d.top + (clientY - d.y) >= 0 ==> p.top == d.top + (clientY - d.y)
    ensures d.right - (clientX - d.x) >= 0 ==> p.right == d.right - (clientX - d.x)
  {
    var dx := clientX - d.x;
    var dy := clientY - d.y;
    Pos(Max(0, d.top + dy), Max(0, d.right - dx))
  }

  /** Returning the pointer to where the drag started puts the overlay back. */
  lemma DragBackRestores(d: DragStart)
    requires d.top >= 0 && d.right >= 0
    ensures DragMove(d, d.x, d.y) == Pos(d.top, d.right)
  {
  }
}
