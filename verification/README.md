# Infoscreen decision core in Dafny

A model of the decision and normalisation logic of the fire-brigade
infoscreen (an Angular application). The screen polls incident, calendar and
gate-status feeds and shows either a rest screen or an incident screen. Each
screen has two layouts, `v1` and `v2`. Underneath the UI and network wiring
sit small deterministic rules, and this project models them:

- which layout each screen picks from the URL, the query parameters, the
  route and the bound input (`IncidentMode`, `RestMode`, `Infoscreen`,
  `HeaderControls`, `VariantPolicies`);
- the display mode with its automatic and manual parts (`ModeService`);
- the feeds: calendar items with their category and `hide` rules
  (`CalendarService`, `CalendarPanel`), short incidents with their date
  defaults (`EinsatzService`), and the recent-incident list with its German
  age text (`Torstatus`);
- the crew panel of the first incident layout: responses, roles, stations,
  yes/no lists and role boxes (`AlarmV1`);
- the coordinate input, the Street View check and the view alternation of
  the second incident layout (`AlarmV2`);
- the open-incident carousel, diary entries, poll schedule and vehicle
  tiles of the second rest layout (`RestV2`).

Shared vocabulary lives in a few modules:

- `Base`: `Option` for `null`/`undefined`, and `Millis` for a time value
  that may be `NaN`.
- `JsText`: the JavaScript string operations over `seq<char>`, i.e.
  `trim`, `toLowerCase`, `split`, `parseInt`, `Number`, `includes`.
- `Lists`, `Sorting`: filtering, `new Set` deduplication, and the stable
  `Array.prototype.sort`, modelled as insertion sort by a total preorder.
- `Url`: Angular's query map, its merging navigation and
  `URLSearchParams`.
- `Lea`: the incident records of `src/app/models/lea.interfaces.ts`.

Every component is a state value plus pure transition functions. Timers,
HTTP responses, the clock and the `Date` constructor are parameters.

## Model

| member | source | states |
|---|---|---|
| IncidentMode.NormalizeVariant | src/app/incident-mode/incident-mode.component.ts:180-188 | After trimming and lowercasing, a token means `v1` exactly when it ends in `1` and `v2` exactly when it ends in `2`. The explicit token lists add nothing to these two rules. |
| IncidentMode.PickVariant | src/app/incident-mode/incident-mode.component.ts:201-230 | Signals are taken in priority order: the first recognised query key among `view`, `incident`, `alarm`, `a`, `variant`, then the `/alarm2` path, then the input, then `v1`. |
| IncidentMode.ResolveVariantKey | src/app/incident-mode/incident-mode.component.ts:191-231 | The first recognised query value in key order wins, and unrecognised values fall through. With no query variant, an `/alarm2` anywhere in the lowercased URL (query included) gives `v2`. Otherwise the input decides, and the default is `v1`. |
| IncidentMode.SyncVariant | src/app/incident-mode/incident-mode.component.ts:234-241 | The stored variant becomes the resolved one. It counts as a change exactly when it differed. |
| IncidentMode.SyncVariantSettles | src/app/incident-mode/incident-mode.component.ts:234-241 | Re-resolving with the same URL and input changes nothing. |
| IncidentMode.ActiveAlarmView | src/app/incident-mode/incident-mode.component.ts:53-55 | The second alarm layout is rendered exactly for `v2`. |
| IncidentMode.IsActiveExclusive | src/app/incident-mode/incident-mode.component.ts:153-157 | The `v1` and `v2` buttons are never lit together. On an `/alarm2` URL only `v2` is lit. |
| IncidentMode.IsActive | src/app/incident-mode/incident-mode.component.ts:153-157 | A lit button's route occurs in the lower-cased URL. Off the alarm routes no button is lit. |
| IncidentMode.AlarmTwoIsAlarm | src/app/incident-mode/incident-mode.component.ts:155-156 | Every `/alarm2` URL also contains `/alarm`. |
| IncidentMode.OneButtonOnAlarmRoutes | src/app/incident-mode/incident-mode.component.ts:153-157 | On an alarm route exactly one button is lit. Elsewhere neither is. |
| IncidentMode.LitButtonIsResolved | src/app/incident-mode/incident-mode.component.ts:148-157 | Without a query variant, the lit button on an alarm route is the layout the route resolves to, and the other button is dark. |
| IncidentMode.GoLightsItsButton | src/app/incident-mode/incident-mode.component.ts:148-157 | After `go(v)` the button of `v` is lit and the other one is not. |
| IncidentMode.RefreshEinsatz | src/app/incident-mode/incident-mode.component.ts:159-172 | The candidate is the first listed incident, or none. It replaces the shown incident exactly when the identifier or the presence differs; otherwise the shown incident stays. |
| IncidentMode.RefreshSettles | src/app/incident-mode/incident-mode.component.ts:159-172 | A second refresh from the same list changes nothing. |
| IncidentMode.RefreshKeepsSameIdentifier | src/app/incident-mode/incident-mode.component.ts:163 | A newer copy with the same identifier does not replace the shown incident. |
| IncidentMode.ClockParts | src/app/incident-mode/incident-mode.component.ts:277-280 | Hours, minutes and seconds add back up to the total seconds. Minutes and seconds are below 60. |
| IncidentMode.Elapsed | src/app/incident-mode/incident-mode.component.ts:274-283 | Without an alarm time the result is a dash. Otherwise there are three digit fields. Minutes and seconds are exactly two digits. Hours are two digits, or longer without a leading zero. Read back, the fields give the whole seconds of max(0, now - alarmtime), with minutes and seconds below 60. |
| IncidentMode.Meldebild | src/app/incident-mode/incident-mode.component.ts:285-290 | The headline is never empty. It is `typ – text` when both trimmed parts exist, otherwise whichever exists, otherwise `ALARM`. |
| RestMode.ResolveRestVariant | src/app/rest-mode/rest-mode.component.ts:96-127 | A bound input wins. Next comes the lowercased `view`, then `rest`, each only when it is exactly `v1` or `v2`. Then the route data decides (`v2` only for exactly `v2`), and the default is `v1`. |
| RestMode.SyncRestVariant | src/app/rest-mode/rest-mode.component.ts:98-126 | The stored variant is written only when the resolved value differs. |
| RestMode.SyncRestSettles | src/app/rest-mode/rest-mode.component.ts:98-126 | Re-resolving with unchanged inputs writes nothing. |
| RestMode.ActiveRestView | src/app/rest-mode/rest-mode.component.ts:46-48 | The second rest layout is rendered exactly for `v2`. |
| RestMode.InputDecidesAlone | src/app/rest-mode/rest-mode.component.ts:98-101 | With a bound input, the query and the route data are never consulted. |
| RestMode.UnrecognisedQueryIgnored | src/app/rest-mode/rest-mode.component.ts:104-116 | A `view` or `rest` value other than exact `v1`/`v2` (such as `2`) does not change the result. |
| ModeService.NormalizePayload | src/app/mode.service.ts:62-70 | A bare array is taken as it is. Otherwise the `einsaetze` array is used, then the `data` array, and otherwise the list is empty. |
| ModeService.ShapesAgree | src/app/mode.service.ts:62-70 | The three payload shapes deliver the same list. |
| ModeService.PollList | src/app/mode.service.ts:72 | An HTTP error delivers the empty list. |
| ModeService.OnPoll | src/app/mode.service.ts:78-82 | The incidents become the delivered list. The automatic mode is `einsatz` exactly when the list is non-empty. The data source and the override are untouched. |
| ModeService.Mode | src/app/mode.service.ts:39-42 | A pinned override decides; otherwise the automatic mode does. |
| ModeService.IsEinsatz | src/app/mode.service.ts:44 | The incident screen shows exactly when it is pinned, or when there is no override and the automatic mode is `einsatz`. |
| ModeService.IsRuhe | src/app/mode.service.ts:45 | The rest screen shows exactly when it is pinned, or when there is no override and the automatic mode is `ruhe`. |
| ModeService.ExactlyOneMode | src/app/mode.service.ts:45-46 | Exactly one of `isEinsatz` and `isRuhe` holds. |
| ModeService.SetManualOverride | src/app/mode.service.ts:114-116 | The shown mode becomes the pinned one, and nothing else changes. |
| ModeService.ClearManualOverride | src/app/mode.service.ts:117-119 | The override is removed, and nothing else changes. |
| ModeService.ClearRestoresAuto | src/app/mode.service.ts:39-42 | After clearing the override and one poll, the mode is `einsatz` exactly when the poll listed an incident. |
| ModeService.OverrideSurvivesPoll | src/app/mode.service.ts:78-82 | A pinned mode survives every poll, a failed one included. |
| ModeService.ErrorShowsRuhe | src/app/mode.service.ts:72-82 | Without an override, a failed poll empties the list and shows `ruhe`. |
| ModeService.UseMockData | src/app/mode.service.ts:105-108 | The chosen source is selected. A new source is emitted only when the selection changes. |
| ModeService.UseMockDataIdempotent | src/app/mode.service.ts:105-108 | Choosing the same source twice emits once. |
| ModeService.Startup | src/app/mode.service.ts:85-101 | `test=1` selects mock data and clears the override. Any other value selects live data. `ruhe`/`einsatz` pin that mode, and other values leave the override alone. |
| Infoscreen.OnQueryChange | src/app/infoscreen/infoscreen.component.ts:27-43 | The data is mock exactly for `test=1`. `ruhe`/`einsatz` pin that mode, and every other value clears the pin. The incident layout is `v2` exactly when `incident` (else `view`) lowercases to `v2`. The rest layout is `v2` exactly when `rest` lowercases to `v2`. |
| Infoscreen.QueryChangeClearsPin | src/app/infoscreen/infoscreen.component.ts:33-35 | A query change without `ruhe`/`einsatz` clears a pinned mode, which start-up handling would have kept. |
| HeaderControls.UpdateState | src/app/shared/header-controls/header-controls/header-controls.component.ts:90-116 | `show` holds for `dev=1`. Test mode is on for a non-empty `test` other than `0`. The rest layout follows `rest`, and the user field follows `user`. An `/alarm2` URL gives `v2`, another `/alarm` URL gives `v1`, and elsewhere `incident` or `view` decides. |
| HeaderControls.VariantText | src/app/shared/header-controls/header-controls/header-controls.component.ts:132 | The text written for a variant reads back as that variant. |
| HeaderControls.MergeCurrentQuery | src/app/shared/header-controls/header-controls/header-controls.component.ts:216-221 | Every current key is kept, and overrides replace same-named keys. |
| HeaderControls.MergeCurrentQueryIsRedundant | src/app/shared/header-controls/header-controls/header-controls.component.ts:124-126 | Passing the current query into a merging navigation changes nothing. |
| HeaderControls.SetIncident | src/app/shared/header-controls/header-controls/header-controls.component.ts:119-137 | On an alarm route, the navigation goes to the variant's route and drops `incident`/`view`. Elsewhere it stays and sets `incident`. |
| HeaderControls.SetRest | src/app/shared/header-controls/header-controls/header-controls.component.ts:139-146 | The navigation sets only `rest`, to the chosen variant. |
| HeaderControls.ToggleTest | src/app/shared/header-controls/header-controls/header-controls.component.ts:148-158 | The navigation removes `test` when test mode is on and sets `1` otherwise. |
| HeaderControls.SubmitUser | src/app/shared/header-controls/header-controls/header-controls.component.ts:161-170 | The navigation removes `user` for a blank field and otherwise sets the trimmed value. |
| HeaderControls.ToggleTestFlips | src/app/shared/header-controls/header-controls/header-controls.component.ts:148-158 | Every toggle flips the test indicator. |
| HeaderControls.SetRestShows | src/app/shared/header-controls/header-controls/header-controls.component.ts:139-146 | After `setRest(v)` the overlay shows `v`. |
| HeaderControls.SubmitUserShows | src/app/shared/header-controls/header-controls/header-controls.component.ts:161-170 | After submitting, the field shows the trimmed value. |
| HeaderControls.SubmitIgnoresSurroundingSpace | src/app/shared/header-controls/header-controls/header-controls.component.ts:163 | Surrounding whitespace in the field changes nothing. |
| HeaderControls.SubmitUserSettles | src/app/shared/header-controls/header-controls/header-controls.component.ts:161-170 | Submitting the shown value again changes nothing. |
| HeaderControls.SetIncidentOnRouteShows | src/app/shared/header-controls/header-controls/header-controls.component.ts:119-128 | On an alarm route, choosing a layout lands where the overlay shows that layout. |
| HeaderControls.SetIncidentElsewhereShows | src/app/shared/header-controls/header-controls/header-controls.component.ts:129-136 | Off the alarm routes, choosing a layout makes the overlay show it. |
| HeaderControls.DragMove | src/app/shared/header-controls/header-controls/header-controls.component.ts:182-189 | The position is never negative. It follows the pointer exactly when that stays on screen, and otherwise it is clamped. |
| HeaderControls.DragBackRestores | src/app/shared/header-controls/header-controls/header-controls.component.ts:182-189 | Returning the pointer to where the drag started restores the position. |
| VariantPolicies.InputPriorityDiffers | src/app/incident-mode/incident-mode.component.ts:200-231 | When the query names another variant than the input, the incident screen follows the query and the rest screen follows the input. |
| VariantPolicies.NumericTokenOnlyForIncidentMode | src/app/infoscreen/infoscreen.component.ts:38-39 | With `?view=2`, the incident screen reads `v2` while the root screen, the overlay and the rest screen read `v1`. |
| VariantPolicies.KeyOrderDiffers | src/app/infoscreen/infoscreen.component.ts:38 | When `view` and `incident` disagree, the incident screen follows `view` and the root screen follows `incident`. |
| VariantPolicies.QueryOfAgrees | src/app/incident-mode/incident-mode.component.ts:192-195 | The URL's own query string and Angular's query map give the same value for a key. |
| Url.MergeNavigate | src/app/shared/header-controls/header-controls/header-controls.component.ts:130-135 | In a merging navigation, `null` removes a key, any other value sets it, and unmentioned keys keep their values. |
| Url.QueryString | src/app/incident-mode/incident-mode.component.ts:194 | The query string is the text after the first `?`, or empty. |
| Url.SearchGet | src/app/incident-mode/incident-mode.component.ts:195-202 | A key is found exactly when some pair has that name. Its value is the value of the first such pair. |
| Url.FirstValuesAgree | src/app/incident-mode/incident-mode.component.ts:195 | The first-value map answers like `URLSearchParams.get`. |
| CalendarService.Words | src/app/calendar.service.ts:68 | The words are non-empty runs of non-whitespace. |
| CalendarService.WordsArePieces | src/app/calendar.service.ts:68 | The words are exactly the pieces of a split at every single whitespace character, with the empty pieces filtered out, in order. |
| CalendarService.BlankHasNoWords | src/app/calendar.service.ts:68 | Blank text has no words. |
| CalendarService.WordsOfOneWord | src/app/calendar.service.ts:68 | Text without whitespace is one word. |
| CalendarService.ParseDescription | src/app/calendar.service.ts:57-75 | A description, when there is one, is never blank. |
| CalendarService.DescriptionWithHash | src/app/calendar.service.ts:61-64 | With a `#`, the category is the trimmed text before it (`Termin` if blank). The description is the trimmed text up to the next `#`, absent if blank, and text after a second `#` is dropped. |
| CalendarService.DescriptionWithoutHash | src/app/calendar.service.ts:65-75 | Empty text gives `Termin` and no description. When the split-and-filter of the text has more than two words, the result is `Termin` with the text as description. With one or two words, the text is the category. |
| CalendarService.CategoryNotBlank | src/app/calendar.service.ts:61-75 | The category is never blank. |
| CalendarService.HideFrom | src/app/calendar.service.ts:78-80 | The search finds `hide` exactly when some position from the start point on has it as a delimited word. |
| CalendarService.HasHide | src/app/calendar.service.ts:78-80 | The pattern matches exactly when some position has `hide` (any case) with the required delimiters. |
| CalendarService.NormalizeIcsItem | src/app/calendar.service.ts:50-93 | An item is produced exactly for a present, unhidden event with a valid non-zero start. |
| CalendarService.NormalizedFields | src/app/calendar.service.ts:53-92 | Each field of a kept event follows its rule: category and description from the description rules, the identifier from `uid` or else summary `_` start, a non-empty title, location and end only when given, and `allDay` as given. |
| CalendarService.KeptItems | src/app/calendar.service.ts:39-41 | An item is kept exactly when some raw event normalises to it. |
| CalendarService.LoadUpcoming | src/app/calendar.service.ts:33-47 | The time zone is defaulted. The items are exactly the kept events of a bare array or of `items`, sorted by start. A failure gives no events. |
| CalendarService.LoadUpcomingMembers | src/app/calendar.service.ts:38-42 | An event is listed exactly when some raw event normalises to it. |
| CalendarService.UpcomingAreDated | src/app/calendar.service.ts:41 | Every listed event has a non-zero start. |
| CalendarPanel.StartLoad | src/app/calendar-panel/calendar-panel.component.ts:24 | A reload shows the loading state and keeps the events. |
| CalendarPanel.OnLoaded | src/app/calendar-panel/calendar-panel.component.ts:25-29 | The events and the time zone (defaulted) are replaced, and loading ends. |
| CalendarPanel.LoadedPanelIsOrdered | src/app/calendar-panel/calendar-panel.component.ts:23-30 | After any load, the events are in start order and the time zone is not blank. |
| CalendarPanel.CatClass | src/app/calendar-panel/calendar-panel.component.ts:33-41 | Each class is chosen exactly when its keyword is the first one the lowercased category contains, in the order übung/uebung, besprech, bewerb, ausbildung, termin. The result is one of six classes. |
| CalendarPanel.CatClassIgnoresCase | src/app/calendar-panel/calendar-panel.component.ts:34 | Letter case does not change the class. |
| CalendarPanel.CatLabel | src/app/calendar-panel/calendar-panel.component.ts:43-45 | A non-blank category is shown untrimmed. A missing or blank one shows `Termin`. |
| CalendarPanel.LabelKeepsCategory | src/app/calendar-panel/calendar-panel.component.ts:44 | A normalised event's category is shown as it is. |
| CalendarPanel.DefaultLabelStyled | src/app/calendar-panel/calendar-panel.component.ts:39-44 | The default label is styled as `cat-termin`. |
| Torstatus.Recent | src/app/torstatus-panel/torstatus-panel.component.ts:31-32 | An incident is kept exactly when it is no older than the cut-off. |
| Torstatus.OnLoaded | src/app/torstatus-panel/torstatus-panel.component.ts:27-36 | The list becomes the recent incidents of the last 200 weeks, newest first, and loading ends. |
| Torstatus.LoadKeepsRecent | src/app/torstatus-panel/torstatus-panel.component.ts:5-33 | Exactly the feed's incidents from the last 200 weeks are listed, no more often than in the feed, with timestamps descending. |
| Torstatus.AgeMeaning | src/app/torstatus-panel/torstatus-panel.component.ts:39-47 | The count is the number of whole units elapsed, in the largest unit reached: minutes under an hour, hours under a day, days otherwise. A future time has no age. |
| Torstatus.DiffText | src/app/torstatus-panel/torstatus-panel.component.ts:39-48 | The text is empty exactly for a future time, and otherwise starts with `seit `. |
| Torstatus.DiffTextReadsBack | src/app/torstatus-panel/torstatus-panel.component.ts:42-47 | The number in the text reads back as the age's count, followed by its unit word. |
| Torstatus.DiffTextExamples | src/app/torstatus-panel/torstatus-panel.component.ts:41-47 | One minute reads `seit 1 Minute`. A day and a half reads `seit 1 Tag`. A future time gives empty text. |
| EinsatzService.DatePart | src/app/einsatz.service.ts:69-71 | A missing or empty date part gives the default, and any other part is parsed. |
| EinsatzService.DatePartAgrees | src/app/einsatz.service.ts:69-71 | A date part equals `parseInt(part \|\| text)` with the default text. |
| EinsatzService.DestructuredPart | src/app/einsatz.service.ts:68-74 | Only a missing time part takes the default. An empty part is parsed. |
| EinsatzService.DestructuredPartAgrees | src/app/einsatz.service.ts:68-74 | A time part equals `parseInt` of the part destructured with its default text. |
| EinsatzService.DateOfParts | src/app/einsatz.service.ts:69-71 | The date reads exactly when its three parts read. The month becomes an index. |
| EinsatzService.DateOfFollowsDefaults | src/app/einsatz.service.ts:67-71 | Day, month and year use the service's default texts `1`, `1` and `1970`. |
| EinsatzService.TimeFollowsDefaultsAsWritten | src/app/einsatz.service.ts:68-74 | As written, time parts default to `00` only when missing. |
| EinsatzService.TimeOfPartsAsWritten | src/app/einsatz.service.ts:68-74 | As written, the time reads exactly when all three destructured parts read. |
| EinsatzService.TimeOfParts | src/app/einsatz.service.ts:68-74 | With the intended defaults, the time reads exactly when all three defaulted parts read. |
| EinsatzService.Fields | src/app/einsatz.service.ts:76 | The `Date` arguments exist exactly when both date and time read. |
| EinsatzService.ToTimestampAsWritten | src/app/einsatz.service.ts:65-77 | As written, the result is invalid when an argument is `NaN`, and otherwise it is the clock's value. |
| EinsatzService.ToTimestamp | src/app/einsatz.service.ts:65-77 | With the intended defaults, the result is invalid when an argument is `NaN`, and otherwise it is the clock's value. |
| EinsatzService.CorrectionKeepsReadTimes | src/app/einsatz.service.ts:68 | Wherever the time as written reads, the corrected reading agrees. |
| EinsatzService.CorrectionKeepsReadDates | src/app/einsatz.service.ts:67-76 | Wherever the date arguments as written exist, the corrected ones are the same. |
| EinsatzService.UntimedIsInvalidAsWritten | src/app/einsatz.service.ts:68-76 | As written, an empty time never gives a time value. |
| EinsatzService.UntimedExampleAsWritten | src/app/einsatz.service.ts:67-76 | As written, `01.02.2024` at `00:00:00` reads, but the same date with an empty time does not. |
| EinsatzService.DateOfThreeParts | src/app/einsatz.service.ts:67-71 | A date of three non-empty parts reads each part as a number. |
| EinsatzService.DateOfExample | src/app/einsatz.service.ts:67-71 | `01.02.2024` is 1 February 2024. |
| EinsatzService.UntimedIsMidnight | src/app/einsatz.service.ts:68 | With the intended defaults, an empty time is midnight. |
| EinsatzService.UndatedIsEpochDay | src/app/einsatz.service.ts:67-71 | An empty date is 1 January 1970. |
| EinsatzService.KurzOf | src/app/einsatz.service.ts:49-61 | A record exists exactly for a valid time value. Its identifier is `i`, or else district, number (or keyword) and time joined by `-`. The text fields are copied. |
| EinsatzService.MapAll | src/app/einsatz.service.ts:43 | Mapping succeeds exactly when every entry is present and timed. It then keeps length and order. |
| EinsatzService.AktiveBy | src/app/einsatz.service.ts:37-47 | A failure, a missing list or a non-array gives the empty list. Otherwise the result is the mapped list, or empty when one entry throws. |
| EinsatzService.GetAktive | src/app/einsatz.service.ts:37-47 | A non-array feed gives the empty list. So does a feed with a missing entry or an entry whose date and time give no valid time value. Otherwise every entry is mapped, in order, to its record. |
| EinsatzService.GetAktiveAsWritten | src/app/einsatz.service.ts:37-47 | The same as `GetAktive`, but with the time value parsed as the code is written. |
| EinsatzService.AktiveAllOrNothing | src/app/einsatz.service.ts:37-47 | The feed is either empty or lists every entry in order with its own time value. |
| EinsatzService.OneFailureFailsAll | src/app/einsatz.service.ts:43-45 | One entry without a valid time value empties the whole feed. |
| EinsatzService.UntimedEntryEmptiesFeedAsWritten | src/app/einsatz.service.ts:43-68 | As written, one entry with an empty time empties the whole feed. |
| EinsatzService.UntimedEntryKept | src/app/einsatz.service.ts:68 | With the intended defaults, an untimed entry is timed like midnight. |
| AlarmV1.ReadUserLimit | src/app/incident-mode/alarm-v1/alarm-v1.component.ts:103-107 | A limit exists exactly for a finite, positive `Number(user)`, and it is that number's floor. |
| AlarmV1.UserLimitOfNumber | src/app/incident-mode/alarm-v1/alarm-v1.component.ts:103-107 | A written positive whole number is the limit, and `0` sets none. |
| AlarmV1.NormResp | src/app/incident-mode/alarm-v1/alarm-v1.component.ts:122-128 | No response is open. A trimmed, lowercased yes-word is yes and a no-word is no; anything else is open. |
| AlarmV1.AnswerWordsDisjoint | src/app/incident-mode/alarm-v1/alarm-v1.component.ts:125-126 | No word is both a yes and a no. |
| AlarmV1.NormRespIgnoresSpace | src/app/incident-mode/alarm-v1/alarm-v1.component.ts:124 | Surrounding whitespace does not change a response. |
| AlarmV1.RoleOfName | src/app/incident-mode/alarm-v1/alarm-v1.component.ts:135-138 | Each role is taken exactly for its exact name. |
| AlarmV1.RoleList | src/app/incident-mode/alarm-v1/alarm-v1.component.ts:133-139 | A role is listed exactly when one of the person's functions names it. |
| AlarmV1.RoleKeysForPerson | src/app/incident-mode/alarm-v1/alarm-v1.component.ts:130-141 | The roles are listed without repetition, exactly those some function names. |
| AlarmV1.RoleKeysFirstOrder | src/app/incident-mode/alarm-v1/alarm-v1.component.ts:140 | Roles appear in the order of their first function. |
| AlarmV1.Units | src/app/incident-mode/alarm-v1/alarm-v1.component.ts:145-149 | The units are exactly the units of some division. |
| AlarmV1.StationOf | src/app/incident-mode/alarm-v1/alarm-v1.component.ts:150-153 | A unit gives a station exactly when it has a label, type `FF` and no `info` in its label. |
| AlarmV1.ComputeStations | src/app/incident-mode/alarm-v1/alarm-v1.component.ts:144-157 | Stations are sorted and listed without repetition. |
| AlarmV1.StationsExactly | src/app/incident-mode/alarm-v1/alarm-v1.component.ts:144-157 | A label is listed exactly when some unit of some division is a station with that label. |
| AlarmV1.Limited | src/app/incident-mode/alarm-v1/alarm-v1.component.ts:175-176 | With a limit, only the first persons up to the limit are considered. |
| AlarmV1.FreeText | src/app/incident-mode/alarm-v1/alarm-v1.component.ts:183 | The free text is absent or starts with a non-space. |
| AlarmV1.CrewOf | src/app/incident-mode/alarm-v1/alarm-v1.component.ts:159-220 | The yes/no lists are name-sorted rearrangements of the yes/no views. Each box counts its role. Badges show exactly when some box exceeds six, and then no box shows names. A box lists at most five names. `dense` holds from 30 shown persons. |
| AlarmV1.Recompute | src/app/incident-mode/alarm-v1/alarm-v1.component.ts:159-220 | The stations are recomputed. Without an incident both lists are empty and no badges show. The two lists together are no longer than the shown persons. |
| AlarmV1.YesNoFewerThanViews | src/app/incident-mode/alarm-v1/alarm-v1.component.ts:181-187 | No view is counted both as a yes and as a no. |
| AlarmV1.ViewsOfLimited | src/app/incident-mode/alarm-v1/alarm-v1.component.ts:174-175 | The shown views are exactly those of the first `limit` alarmed persons, or of all of them without a limit. |
| AlarmV1.RecomputeLists | src/app/incident-mode/alarm-v1/alarm-v1.component.ts:159-220 | A person is in the yes (no) list exactly when they are among the first `limit` alarmed persons and answered yes (no). |
| AlarmV1.ListsHoldTheirAnswers | src/app/incident-mode/alarm-v1/alarm-v1.component.ts:181-187 | A person is in the yes (no) list exactly when they answered yes (no). Open answers appear in neither. |
| AlarmV1.BoxCountsYesWithRole | src/app/incident-mode/alarm-v1/alarm-v1.component.ts:189-202 | A box's count is the number of yes-answers carrying its role. |
| AlarmV1.BoxNamesArePrefix | src/app/incident-mode/alarm-v1/alarm-v1.component.ts:208-216 | Without badges, a box lists the first five collected names, in source order. |
| AlarmV1.ZeroLimitListsNobody | src/app/incident-mode/alarm-v1/alarm-v1.component.ts:176 | A zero limit lists nobody. |
| AlarmV1.ElapsedShort | src/app/incident-mode/alarm-v1/alarm-v1.component.ts:111-120 | Without an alarm time the result is a dash. Three fields appear from one hour on, and two below. Every field after the first is exactly two digits. The first field is `0` or has no leading zero. Read back, the fields give the elapsed whole seconds. |
| AlarmV2.CoordValue | src/app/incident-mode/alarm-v2/alarm-v2.component.ts:144 | A leading minus means a negative value, or zero. |
| AlarmV2.Blanks | src/app/incident-mode/alarm-v2/alarm-v2.component.ts:142 | A text is cut into leading blanks, its trimmed core and trailing blanks, which glue back to the text. |
| AlarmV2.MatchCoords | src/app/incident-mode/alarm-v2/alarm-v2.component.ts:142 | A match is a well-formed cut of exactly the input. |
| AlarmV2.MatchCoordsComplete | src/app/incident-mode/alarm-v2/alarm-v2.component.ts:142 | Every text of the pattern's shape matches, with that cut. |
| AlarmV2.ParseCoords | src/app/incident-mode/alarm-v2/alarm-v2.component.ts:142-144 | Values are read exactly when the pattern matches. |
| AlarmV2.Coords | src/app/incident-mode/alarm-v2/alarm-v2.component.ts:116-118 | Coordinates exist exactly when both `x` and `y` are present. |
| AlarmV2.CoordsVerdict | src/app/incident-mode/alarm-v2/alarm-v2.component.ts:140-147 | The checks run in order: no incident, then a bad format, then out-of-range values give the matching message. Otherwise both values are accepted. |
| AlarmV2.ApplyCoords | src/app/incident-mode/alarm-v2/alarm-v2.component.ts:140-153 | A rejection changes only the message. Acceptance stores latitude as `x` and longitude as `y` and rewrites the input text. |
| AlarmV2.ApplyCoordsKeepsIncident | src/app/incident-mode/alarm-v2/alarm-v2.component.ts:148-150 | Acceptance changes only the two coordinates of the incident. |
| AlarmV2.TypedCoordsStored | src/app/incident-mode/alarm-v2/alarm-v2.component.ts:142-152 | A typed pair inside the ranges is stored as typed. |
| AlarmV2.TypedCoordsOutOfRange | src/app/incident-mode/alarm-v2/alarm-v2.component.ts:145-146 | A typed pair out of range is refused, and the location is left alone. |
| AlarmV2.StatusOf | src/app/incident-mode/alarm-v2/alarm-v2.component.ts:241-251 | `OK` gives ok and `ZERO_RESULTS` gives none; every other answer is an error. |
| AlarmV2.UpdateAlternateTimer | src/app/incident-mode/alarm-v2/alarm-v2.component.ts:421-451 | Street View shows, and the interval runs, exactly with a key and an `ok` status. Nothing else changes. |
| AlarmV2.AltTick | src/app/incident-mode/alarm-v2/alarm-v2.component.ts:430-447 | A tick swaps the views while the status is ok. Otherwise the map stays for good. |
| AlarmV2.AltTickPeriodTwo | src/app/incident-mode/alarm-v2/alarm-v2.component.ts:439-441 | Two ticks bring the same view back. |
| AlarmV2.CheckStart | src/app/incident-mode/alarm-v2/alarm-v2.component.ts:213-229 | A request goes out exactly with coordinates, a key, and no settled answer for the same key and place. Without coordinates the status is unknown; without a key it is an error. |
| AlarmV2.OnMetadata | src/app/incident-mode/alarm-v2/alarm-v2.component.ts:241-254 | The answer sets the final status, and Street View shows exactly with a key and an `OK` answer. |
| AlarmV2.SettledCheckIsKept | src/app/incident-mode/alarm-v2/alarm-v2.component.ts:222-226 | A settled answer is not asked again for the same key and place. |
| AlarmV2.FailedCheckIsRetried | src/app/incident-mode/alarm-v2/alarm-v2.component.ts:222-229 | A failed check is asked again. |
| AlarmV2.OnEinsatzChange | src/app/incident-mode/alarm-v2/alarm-v2.component.ts:97-110 | The input shows the new coordinates, or is empty. The error clears, and Street View shows only with a key and an ok status. |
| AlarmV2.AfterViewInit | src/app/incident-mode/alarm-v2/alarm-v2.component.ts:82-87 | With coordinates but no key, the map is shown at once; otherwise nothing changes. |
| AlarmV2.SaveCoords | src/app/incident-mode/alarm-v2/alarm-v2.component.ts:126-138 | A refused input only clears, then sets, the message. An accepted one forgets the remembered check and route keys. |
| AlarmV2.SaveHidesStreetViewUntilAnswer | src/app/incident-mode/alarm-v2/alarm-v2.component.ts:126-138 | After an accepted input, Street View is hidden. A fresh check starts exactly when a key exists; without one the status is an error. |
| AlarmV2.BuildSvUrls | src/app/incident-mode/alarm-v2/alarm-v2.component.ts:187-206 | There are no images without a key or coordinates. Otherwise there is one image per heading, in order, with the place, size, key and fixed parameters. |
| AlarmV2.BuildSvUrlsLoop | src/app/incident-mode/alarm-v2/alarm-v2.component.ts:207-210 | The loop is the tiles twice over. |
| AlarmV2.LoopShowsEachHeadingTwice | src/app/incident-mode/alarm-v2/alarm-v2.component.ts:187-210 | The loop has eight tiles, with each heading at `i` and at `i + 4`. |
| RestV2.Offene | src/app/rest-mode/rest-v2/rest-v2.component.ts:100-101 | Missing data gives no open incidents. |
| RestV2.OffeneEinsaetze | src/app/rest-mode/rest-v2/rest-v2.component.ts:99-109 | The open incidents are a rearrangement of the data, sorted by date and then by number. |
| RestV2.OffeneOrder | src/app/rest-mode/rest-v2/rest-v2.component.ts:103-108 | Later dates come first, and within a date the higher number comes first. |
| RestV2.Pages | src/app/rest-mode/rest-v2/rest-v2.component.ts:112-119 | There are ceil(n/2) pages of two, with a last page of one when n is odd. |
| RestV2.PagesConcat | src/app/rest-mode/rest-v2/rest-v2.component.ts:112-119 | The pages concatenate back to the list. |
| RestV2.Tick | src/app/rest-mode/rest-v2/rest-v2.component.ts:225-230 | With more than one page the index advances modulo the page count; otherwise it stays. |
| RestV2.TicksRotate | src/app/rest-mode/rest-v2/rest-v2.component.ts:225-230 | After k ticks the index is (i + k) mod len. |
| RestV2.OnPagesChanged | src/app/rest-mode/rest-v2/rest-v2.component.ts:132-145 | An index past the end goes back to the first page. The carousel runs exactly with more than two incidents and more than one page. |
| RestV2.CarouselRunsIffMoreThanTwo | src/app/rest-mode/rest-v2/rest-v2.component.ts:132-145 | For real page counts, the carousel runs exactly with more than two incidents, and the index is valid. |
| RestV2.EntriesForDisplay | src/app/rest-mode/rest-v2/rest-v2.component.ts:162-171 | The non-image entries are shown newest first, as a rearrangement. |
| RestV2.EntriesNewestFirst | src/app/rest-mode/rest-v2/rest-v2.component.ts:165-170 | No image is shown, and no entry is older than one shown after it. |
| RestV2.EntriesShown | src/app/rest-mode/rest-v2/rest-v2.component.ts:162-171 | An entry is shown exactly when it is a non-image diary entry, as often as the diary lists it. |
| RestV2.ApiUrl | src/app/rest-mode/rest-v2/rest-v2.component.ts:174-176 | The address is the trimmed input, unless that is blank; then it is the default. |
| RestV2.Fetch | src/app/rest-mode/rest-v2/rest-v2.component.ts:192-195 | A request goes out exactly when none is in flight. |
| RestV2.OnResponse | src/app/rest-mode/rest-v2/rest-v2.component.ts:199-208 | A valid response is held and clears the error; anything else drops the data with the invalid-response message. The next poll is fast exactly when incidents are open. |
| RestV2.OnFailure | src/app/rest-mode/rest-v2/rest-v2.component.ts:210-218 | A failure drops the data and names the failure, and the next poll is slow. |
| RestV2.PollCycle | src/app/rest-mode/rest-v2/rest-v2.component.ts:185-219 | Every poll ends ready for the next fetch. The delay is fast exactly when open incidents are held. |
| RestV2.IsPresent | src/app/rest-mode/rest-v2/rest-v2.component.ts:242-252 | Null and undefined are absent. A number is present exactly when it is finite and positive. Text is present exactly when its trimmed form is not empty, `-` or `0`, and `Number` of it is NaN, +Infinity or a positive finite value. |
| RestV2.NegativeTextAbsent | src/app/rest-mode/rest-v2/rest-v2.component.ts:249-250 | A minus sign followed by digits is text that is absent. |
| RestV2.MinusThreeAbsent | src/app/rest-mode/rest-v2/rest-v2.component.ts:249-250 | The text `-3` is absent. |
| RestV2.IsCompleteFzg | src/app/rest-mode/rest-v2/rest-v2.component.ts:263-266 | A vehicle with null or undefined km or crew is incomplete. On a complete vehicle, a numeric km or crew is finite and positive. |
| RestV2.TileTitle | src/app/rest-mode/rest-v2/rest-v2.component.ts:276-285 | Split at its bullets, a title whose name and value texts hold no bullet reads back as the name, `km:` with the km text, and `Mann:` with the crew text. An absent km reads back as `?`, and so does an absent crew. |
| RestV2.PresentDigitText | src/app/rest-mode/rest-v2/rest-v2.component.ts:245-251 | A digit text is present exactly when its value is positive. |
| RestV2.PresentDigits | src/app/rest-mode/rest-v2/rest-v2.component.ts:242-252 | A whole number counts the same as a number and as text. |
| RestV2.DoubleZeroAbsent | src/app/rest-mode/rest-v2/rest-v2.component.ts:248-250 | `00` is absent. |
| RestV2.BlankZeroAbsent | src/app/rest-mode/rest-v2/rest-v2.component.ts:245-247 | ` 0 ` is absent. |
| RestV2.TileClass | src/app/rest-mode/rest-v2/rest-v2.component.ts:264-271 | A tile is `tile-ok` exactly when both values are present, and `tile-bad` otherwise. |
| RestV2.DisplayValue | src/app/rest-mode/rest-v2/rest-v2.component.ts:277-282 | An absent value shows `?`, and a present one shows its text. |
| RestV2.DisplayName | src/app/rest-mode/rest-v2/rest-v2.component.ts:274-276 | The radio name is used, else the call name. |
| RestV2.IncompleteTile | src/app/rest-mode/rest-v2/rest-v2.component.ts:264-285 | A vehicle lacking both values is red, and its title shows `?` twice. |
| Lists.Dedup | src/app/incident-mode/alarm-v1/alarm-v1.component.ts:140 | `Array.from(new Set(s))` holds exactly the elements of `s`, without repetition. |
| Lists.DedupFirstOrder | src/app/incident-mode/alarm-v1/alarm-v1.component.ts:140 | Deduplicated elements keep the order of their first occurrences. |
| Sorting.SortBy | src/app/calendar.service.ts:42 | The result is a sorted rearrangement of the input, and the sort is stable: for every element, the elements tied with it come out in their input order. |
| Sorting.InsertKeepsTies | src/app/calendar.service.ts:42 | Inserting an element appends it to the elements it ties with, and leaves every other tie class unchanged. |

## Left out

- HTTP, JSONP, `timer`/`setInterval`/`setTimeout`, signals, effects and change detection. Each response, tick and query change is an input to a transition function.
- Leaflet, Google Street View metadata fetches, Directions, Geocoder, script loading, ResizeObserver and iframe reloads are foreign calls, and are not modelled. The metadata request's answer is an input (`AlarmV2.MetaOutcome`).
- Tile sizing (`fitWithin640`, `recalcSizes`) and ETA rounding are floating-point layout arithmetic. Tile width, height and the cache buster are parameters.
- The Street View URL text: `URLSearchParams.toString` encoding is not modelled. An image is the structured list of its query parameters (`AlarmV2.SvImage`).
- The check signature text `key|lat,lon` is modelled as the structured `AlarmV2.CheckKey`. The two are equal exactly when their parts are.
- The text of a JavaScript number (`${lat}` and `String(km)`) is the parameter `fmt`. `parseFloat` on the accepted pattern is an exact decimal (`AlarmV2.CoordValue`).
- JavaScript `Date`: `new Date(text)`, `new Date(y, m, d, h, mi, s)` with the local time zone, `getTime` and `toISOString`. Parsed start times arrive with the raw event. The constructor is the parameter `clock`, and the ISO text is not modelled.
- `localeCompare(…, 'de')` is modelled as code-point order (`JsText.StrLe`), a total order. German collation is not modelled.
- `toLowerCase` covers ASCII and the Latin-1 capitals. `toUpperCase` covers ASCII. Other Unicode case mappings are not modelled.
- `Number(s)` reads decimal literals and `Infinity`. Exponents, hexadecimal, binary and octal literals are read as `NaN`.
- `URLSearchParams` and Angular's query map decode `+` as a space, but percent escapes are not decoded.
- `Object.values` enumeration order is taken as given: the feed's open incidents arrive as a sequence.
- The header overlay's position persistence in `sessionStorage` and the mouse listener wiring are I/O. Only the clamped position arithmetic is modelled.
- Debug logging and the `?dev=1` debug flag of the incident screen are not modelled.
- The first rest layout, the route table and the application bootstrap hold no decision logic, and are not modelled.
- The race between a typed coordinate correction and a fetch that completes later is concurrency, and is not modelled.
- The alarm-v1 map and its timers are not modelled.
- RestV2.TileTitle: the read-back of the title at its bullets is stated only for names and value texts without a bullet. A `•` inside a vehicle name or a value text would add pieces to the split.
- AlarmV2.ApplyCoords: updates only the component's copy of the incident. In the component, `x` and `y` are written into the incident object itself (`src/app/incident-mode/alarm-v2/alarm-v2.component.ts:148-150`). The incident screen passes on that same object while the incident id stays the same (`src/app/incident-mode/incident-mode.component.ts:159-172`), and the mode service's list holds it too. So the new coordinates also reach the screen's selection and the service's list until the next poll replaces them. Object identity and aliasing are not modelled.
- EinsatzService.KurzOf: takes every field the feed's interface declares as required to be a string. A field missing at run time is written as `undefined` by the template `${e.b}-${e.n || e.m}-${ts}` (`src/app/einsatz.service.ts:52`). The model has no missing required field, so it never produces that text.
- The start-up reading of `window.location.search` is a parameter (`search`). The `try`/`catch` around it (no `window`) is not modelled.

## Findings

| source | as written | input that shows it | evidently intended | confidence | as-written member | corrected member |
|---|---|---|---|---|---|---|
| src/app/einsatz.service.ts:68 | An empty time text splits into one empty part. The destructuring default `'00'` applies only to missing parts, so `parseInt('', 10)` is `NaN` and the `Date` is invalid. `toISOString` then throws inside the mapping, and `catchError` replaces the whole feed with the empty list. | An entry with `d = "01.02.2024"` and `t = ""` | An entry without a time is read as midnight, like the date parts, which default when missing or empty. | not executed | EinsatzService.UntimedExampleAsWritten | EinsatzService.UntimedIsMidnight |

The as-written side is `EinsatzService.DateFieldsAsWritten`, used by
`EinsatzService.ToTimestampAsWritten`. `EinsatzService.UntimedIsInvalidAsWritten`
and `EinsatzService.UntimedEntryEmptiesFeedAsWritten` show that one untimed
entry empties the feed. The corrected side is `EinsatzService.ToDateFields`,
used by `EinsatzService.ToTimestamp` and `EinsatzService.GetAktive`.
`EinsatzService.UntimedEntryKept` and `EinsatzService.CorrectionKeepsReadDates`
show that the correction only adds readings.
