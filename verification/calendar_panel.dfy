/** The calendar panel: its load cycle and the category column's style class
    and label. The ten-minute timer is not part of this model; each response
    is an input. */
module CalendarPanel {
  import opened Base
  import opened JsText
  import opened Sorting
  import CalendarService

  datatype PanelState = PanelState(
    timezone: string,
    events: seq<CalendarService.CalendarItem>,
    loading: bool)

  const InitialPanel := PanelState("Europe/Zurich", [], true)

  /** A reload starts: the panel shows the loading state, keeping the events. */
  function StartLoad(s: PanelState): (r: PanelState)
    ensures r.loading && r.events == s.events && r.timezone == s.timezone
  {
    s.(loading := true)
  }

  /** A response arrives: its time zone (the default when empty) and events
      replace the panel's, and loading ends. */
  function OnLoaded(s: PanelState, res: CalendarService.CalResult): (r: PanelState)
    ensures !r.loading && r.events == res.items
    ensures r.timezone == (if res.timezone != [] then res.timezone else "Europe/Zurich")
  {
    PanelState(OrElse(res.timezone, "Europe/Zurich"), res.items, false)
  }

  /** After any load the panel lists events in start order, never with a
      blank time zone. */
  lemma LoadedPanelIsOrdered(s: PanelState, res: CalendarService.CalResponse)
    ensures var r := OnLoaded(StartLoad(s), CalendarService.LoadUpcoming(res));
      && SortedBy(r.events, CalendarService.StartLe)
      && r.timezone != []
      && !r.loading
  {
  }

  /** The style class of a category: the first keyword the lowercased text
      contains decides (`übung` or `uebung`, then `besprech`, `bewerb`,
      `ausbildung`, `termin`); otherwise the default class. */
  function CatClass(cat: Option<string>): (cls: string)
    ensures var c := Lower(cat.GetOr(""));
      && (cls == "cat-uebung" <==> Contains(c, "\U{FC}bung") || Contains(c, "uebung"))
      && (cls == "cat-besprechung" <==>
            !(Contains(c, "\U{FC}bung") || Contains(c, "uebung")) && Contains(c, "besprech"))
      && (cls == "cat-bewerb" <==>
            !(Contains(c, "\U{FC}bung") || Contains(c, "uebung")) && !Contains(c, "besprech")
            && Contains(c, "bewerb"))
      && (cls == "cat-ausbildung" <==>
            !(Contains(c, "\U{FC}bung") || Contains(c, "uebung")) && !Contains(c, "besprech")
            && !Contains(c, "bewerb") && Contains(c, "ausbildung"))
      && (cls == "cat-termin" <==>
            !(Contains(c, "\U{FC}bung") || Contains(c, "uebung")) && !Contains(c, "besprech")
            && !Contains(c, "bewerb") && !Contains(c, "ausbildung") && Contains(c, "termin"))
    ensures cls in {"cat-uebung", "cat-besprechung", "cat-bewerb", "cat-ausbildung", "cat-termin", "cat-default"}
  {
    var c := Lower(cat.GetOr(""));
    if Contains(c, "\U{FC}bung") || Contains(c, "uebung") then "cat-uebung"
    else if Contains(c, "besprech") then "cat-besprechung"
    else if Contains(c, "bewerb") then "cat-bewerb"
    else if Contains(c, "ausbildung") then "cat-ausbildung"
    else if Contains(c, "termin") then "cat-termin"
    else "cat-default"
  }

  /** The class does not depend on the letter case of the category. */
  lemma CatClassIgnoresCase(c: string)
    ensures CatClass(Some(Lower(c))) == CatClass(Some(c))
  {
    LowerIdempotent(c);
  }

  /** The label of a category: the text as it is, or `Termin` when it is
      absent or blank. */
  function CatLabel(cat: Option<string>): (shown: string)
    ensures cat.Some? && !AllSpace(cat.value) ==> shown == cat.value
    ensures cat.None? || AllSpace(cat.value) ==> shown == "Termin"
    ensures !AllSpace(shown)
  {
    if cat.Some? && Trim(cat.value) != [] then cat.value
    else
      assert !IsSpace("Termin"[0]);
      "Termin"
  }

  /** A normalised event's category is shown as it is: the label never
      replaces it. */
  lemma LabelKeepsCategory(x: CalendarService.RawIcs)
    requires CalendarService.Kept(x)
    ensures var item := CalendarService.NormalizeIcsItem(Some(x)).value;
      CatLabel(Some(item.category)) == item.category
  {
    CalendarService.NormalizedFields(x);
  }

  /** The label of a missing category is styled as an appointment. */
  lemma DefaultLabelStyled()
    ensures CatClass(Some(CatLabel(None))) == "cat-termin"
  {
    assert Lower("Termin") == "termin";
    assert Contains("termin", "termin");
    NotInTermin();
  }

  /** `termin` contains none of the earlier keywords. */
  lemma NotInTermin()
    ensures !Contains("termin", "\U{FC}bung") && !Contains("termin", "uebung")
    ensures !Contains("termin", "besprech") && !Contains("termin", "bewerb")
    ensures !Contains("termin", "ausbildung")
  {
    var t := "termin";
    assert '\U{FC}' !in t && 'u' !in t && 'b' !in t && 'a' !in t;
    MissingCharNotContained(t, "\U{FC}bung", '\U{FC}');
    MissingCharNotContained(t, "uebung", 'u');
    MissingCharNotContained(t, "besprech", 'b');
    MissingCharNotContained(t, "bewerb", 'b');
    MissingCharNotContained(t, "ausbildung", 'a');
  }
}
