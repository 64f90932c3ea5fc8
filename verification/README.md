# GridVision relay and dashboard handlers in Dafny

GridVision is a microgrid dashboard. Sensor boards ("NodeMCU" devices)
and browser dashboards connect to one WebSocket relay. The relay classifies
every message. A device announcement registers the device. A `BROWSER`
announcement registers a viewer. Device telemetry is enriched with the
verdict of an anomaly service and two synthetic readings, then sent to
every viewer. Anything else is a command, forwarded verbatim to every
device. The dashboard pages keep small in-memory lists and maps, and
change them through their handlers: power lines, users, devices, and the
applications enable map that the footer also reads.

This project models that core as pure functions over immutable data and
proves what the code promises about it.

- `relay.dfy` (`Relay`): the relay of `server.js` as a state machine.
  - `Step` handles one inbound text and `Close` one disconnect.
  - Each returns the next state and the ordered list of sends.
  - The device map and the viewer set are ordered sequences, because
    JavaScript `Map`/`Set` iterate in insertion order.
  - `Valid` is the invariant every reachable state keeps.
- `live_data.dfy` (`LiveData`): the dashboard hook `useLiveData`. It
  covers its announcement and how it turns a relayed object into the
  displayed readings.
- `distribution.dfy` (`Distribution`): the line list of the distribution
  page and its handlers. It includes the search for a fresh line id.
- `fresh_ids.dfy` (`FreshIds`): the generic "first free numbered
  candidate" search. Its termination argument is that each failed
  candidate uses up a distinct id of the list.
- `line_panel.dfy` (`LinePanel`): which controls the line control panel
  offers, and which handler calls they make.
- `schedule_card.dfy` (`ScheduleCard`): which action buttons a schedule
  row shows.
- `users.dfy` (`Users`), `devices.dfy` (`DeviceSettings`): the user and
  device settings pages.
- `applications.dfy` (`Applications`): the application enable map, its
  handlers and the card predicates.
- `footer.dfy` (`Footer`): the dashboard footer and the sticky footer.
  It covers the active-tab choice, the stored flags merged over the
  defaults, and which tabs are links.
- `text.dfy`, `lists.dfy`, `json.dfy`, `wrappers.dfy`: the JavaScript
  operations the handlers are built from. These are `startsWith`,
  `split`, `padStart`, decimal formatting, `filter`, conditional `map`,
  object spread and `??`.

Inputs that come from outside are parameters of the operations:
- what `JSON.parse` makes of a text (`None` when it throws);
- the anomaly service's reply (`None` when the request fails);
- the two random readings;
- what browser storage holds.

Three details of the code worth knowing:
- The relay checks the announcement prefixes on every message, whoever
  sends it. So a device that sends `BROWSER` also becomes a viewer, and a
  viewer that sends `NODEMCU:x` becomes a device.
- The fallback verdict uses the key `system_status`, not `status`.
- The distribution page's starting lines show a tenth of the current its
  handlers derive from the same power: 62.5 A for 150 kW, where the
  handlers give power / 240 × 1000 = 625 A. `Distribution.HandlersKeepConsistent`
  is therefore a preservation property from consistent lines, and
  `Distribution.SeedCurrentsOutOfStep` shows that the first slider move
  on `Main Building` makes its current ten times larger.

## Model

| member | source | states |
|---|---|---|
| `Relay.Step` | server.js:29-73 | The message handler as a whole. Its cases are characterised by `Relay.DeviceRegistration`, `Relay.ViewerRegistration`, `Relay.TelemetryFanOut`, `Relay.UnreachableVerdict`, `Relay.NonJsonDropped` and `Relay.CommandForwarded`, and its invariant by `Relay.StepPreservesValid`. |
| `Relay.Close` | server.js:76-84 | The close handler. It is characterised by `Relay.CloseIsIdentityChecked`, `Relay.RemoveConnLookup` and `Relay.ClosePreservesValid`. |
| `Relay.SetDevice` | server.js:35 | `Map.set`: the looked-up value of the id becomes the connection and every other id keeps its value. An existing id keeps its position and a new id is appended. Unique ids stay unique. |
| `Relay.RemoveConn` | server.js:77-82 | The close loop keeps exactly the entries whose connection is not the closing one. Their order is kept, and unique ids stay unique. |
| `Relay.RemoveConnLookup` | server.js:77-82 | After a close, an id maps to nothing if it mapped to the closing connection, and otherwise to what it mapped to before. |
| `Relay.AddViewer` | server.js:41 | `Set.add`: the viewer is appended only when absent. Membership grows by exactly that connection, and no duplicates appear. |
| `Relay.RemoveViewer` | server.js:83 | `Set.delete`: exactly that connection leaves. The rest keep their order, and no duplicates appear. |
| `Relay.AnnouncedId` | server.js:33 | `split(':')[1]` of a `NODEMCU:` message is the text after the prefix up to the next colon, or to the end. It never contains a colon. |
| `Relay.VerdictOrFallback` | server.js:50-57 | The service reply when there is one. Otherwise exactly `system_status: unknown` and the fixed explanation. |
| `Relay.Enrich` | server.js:60-65 | The outbound object holds the sensor, verdict and synthetic keys. The synthetic readings win over the verdict, and the verdict wins over the sensor. |
| `Relay.InitialValid` | server.js:14-15 | The empty registries satisfy the invariant. |
| `Relay.StepPreservesValid` | server.js:29-73 | Every message keeps the invariant: ids unique, viewers without duplicates, every registered connection flagged. |
| `Relay.ClosePreservesValid` | server.js:76-84 | Every close keeps the invariant. |
| `Relay.RunPreservesValid` | server.js:28-84 | Any sequence of messages and closes from a valid state ends in a valid state, and the flagged set only grows. |
| `Relay.DeviceRegistration` | server.js:32-37 | A `NODEMCU:` message flags the sender and maps the id to it, replacing any earlier connection. Other ids and the viewers are untouched, and nothing is sent. |
| `Relay.ViewerRegistration` | server.js:40-44 | `BROWSER` adds the sender to the viewers and changes nothing else. Nothing is sent, and a repeat is a no-op. |
| `Relay.FlagNeverCleared` | server.js:34 | No message or close removes a device flag. |
| `Relay.TelemetryFanOut` | server.js:47-66 | Parseable telemetry from a flagged sender goes to each viewer exactly once, in viewer order, and to nobody else. The registries do not change. |
| `Relay.UnreachableVerdict` | server.js:50-66 | With the service unreachable, each viewer gets status `unknown`, the fixed explanation, and every other sensor field unchanged. |
| `Relay.NonJsonDropped` | server.js:67-69 | Unparseable device text sends nothing and changes nothing. |
| `Relay.CommandForwarded` | server.js:70-73 | Text from an unflagged sender goes verbatim to every device entry, in map order. A connection gets one copy per id it holds, and nothing is sent when there are no devices. |
| `Relay.CloseIsIdentityChecked` | server.js:76-84 | A close removes exactly the entries and the viewer with that very connection. Flags stay, and no entry for it remains. |
| `Relay.ReconnectSurvivesStaleClose` | server.js:78 | A device that re-registers its id on a new connection keeps the id when the old connection closes later. Commands then reach only the new one. |
| `Relay.ClosedViewerMissesTelemetry` | server.js:83 | A viewer that closed gets no later telemetry, and every remaining viewer still gets one copy. |
| `Text.Split` | server.js:33 | `split` on one character gives at least one piece and no piece contains the separator. It is a single piece iff the separator is absent, and joining the pieces gives the text back. |
| `Text.SplitAfterTag` | server.js:33 | After a colon-free tag and a colon, piece 1 is the remainder up to its first colon. |
| `Text.SplitJoin` | server.js:33 | `split` undoes `join` for separator-free pieces. |
| `Text.NatToDecimal` | app/settings/users/page.tsx:61 | `String(n)` consists only of digits, has no leading zero, and reads back as `n`. |
| `Text.PadStart` | app/settings/users/page.tsx:61 | `padStart` has length max(width, length) and keeps the text as its suffix, preceded only by the fill character. |
| `Text.PaddedDecimalValue` | app/settings/users/page.tsx:61 | A zero-padded numeral still denotes the same number. |
| `Lists.Filter` | app/distribution/page.tsx:248 | `filter` keeps exactly the elements that pass, each as often as before, in their original order. |
| `Lists.FilterAppend` | app/distribution/page.tsx:248 | Filtering a list extended by one element filters the list and then that element. |
| `Lists.MapWhere` | app/settings/users/page.tsx:74 | The conditional `map` replaces each selected element by its image and leaves every other element in place. |
| `Json.Spread` | server.js:65 | Object spread has the union of the keys, and the later object wins. |
| `Json.Defined` | hooks/useLiveData.ts:24-27 | What `??` sees: a value iff the field is present and not `null`. |
| `LiveData.OnMessage` | hooks/useLiveData.ts:20-32 | An unparseable message keeps the state. Otherwise each reading is the message's non-null field or `undefined`, and the explanation is the field or `""`. |
| `LiveData.MissingFieldIsForgotten` | hooks/useLiveData.ts:24 | A reading missing from a message shows as `undefined`, and the new state does not depend on the old one. |
| `LiveData.AnnouncementRegistersViewer` | hooks/useLiveData.ts:17 | The hook's announcement makes its connection a relay viewer and nothing is sent back. |
| `LiveData.RelayedTelemetryDisplay` | hooks/useLiveData.ts:22-27 | Relayed telemetry shows the device's readings unless the verdict overrides that field. With the service unreachable it shows the fixed explanation. |
| `LiveData.OnMessageKeeping` | hooks/useLiveData.ts:24-26 | Corrected handler: a reading missing from a message falls back to the reading shown before. |
| `LiveData.KeepingRemembersReadings` | hooks/useLiveData.ts:24-26 | With the corrected handler a missing reading survives. A message carrying all readings shows the same as the handler as written. |
| `LiveData.SecondMessageBlanksVoltage` | hooks/useLiveData.ts:24 | A voltage followed by a message without one shows `undefined` as written, and the old voltage when corrected. |
| `FreshIds.LeastFree` | app/distribution/page.tsx:174-180 | The search ends. Its result is at least the start, its candidate is free, and every candidate before it is taken. |
| `Distribution.CounterOfCandidate` | app/distribution/page.tsx:175 | `L{n}00` reads back as `n`, so different counters give different ids. |
| `Distribution.GenerateLineId` | app/distribution/page.tsx:172-183 | The generated id is in no line and is `L{n}00` for the least `n` from 1 whose id is free. |
| `Distribution.ToggleLine` | app/distribution/page.tsx:185-200 | Lines with the id switch on (supply voltage, current from the kept power, online) or off (power, voltage and current zero, offline). Name, maximum and id stay, and other lines are untouched. |
| `Distribution.PowerAdjust` | app/distribution/page.tsx:202-214 | Lines with the id take the new power and the matching current. Nothing else changes. |
| `Distribution.EditLine` | app/distribution/page.tsx:233-245 | Lines with the id take the new name and "Just updated". Nothing else changes. |
| `Distribution.RemoveLine` | app/distribution/page.tsx:247-249 | Exactly the lines without the id remain, each as often as before, in order. |
| `Distribution.AddLine` | app/distribution/page.tsx:216-231 | One line is appended with a fresh id, the given name, inactive, unpowered, offline, maximum 200 and last updated "Just created". |
| `Distribution.RemoveUndoesAdd` | app/distribution/page.tsx:247-249 | Removing the line just added gives back the earlier list. |
| `Distribution.OffThenOnLosesPower` | app/distribution/page.tsx:192 | Switching a line off and on again leaves it online with zero power and current. |
| `Distribution.ToggleIdempotent` | app/distribution/page.tsx:185-200 | Repeating a toggle with the same value changes nothing. |
| `Distribution.HandlersKeepConsistent` | app/distribution/page.tsx:185-231 | Every handler keeps each line's current equal to power / 240 × 1000. |
| `Distribution.SeedCurrentsOutOfStep` | app/distribution/page.tsx:58-103 | The two active starting lines break that rule and the two inactive ones keep it. Setting `Main Building` to its own power multiplies its current by ten. |
| `LinePanel.SwitchDisabled` | components/line-control-panel.tsx:78 | The switch is disabled for a faulty line or one under maintenance. `LinePanel.PanelKeepsFaultsAndMaintenance` shows such a line is never changed by the panel. |
| `LinePanel.SliderShown` | components/line-control-panel.tsx:100 | The slider is shown for an active online line. `LinePanel.SwitchControlsSlider` ties it to the switch. |
| `LinePanel.SliderValue` | components/line-control-panel.tsx:106-110 | A slider position is a multiple of 5 from 0 to the line's maximum. `LinePanel.CommandTargetsOwnRow` shows every adjustment stays in that range. |
| `LinePanel.SwitchFlipChangesOwnRow` | components/line-control-panel.tsx:75-79 | With distinct ids, the callback of a usable switch can be issued. Dispatched to the page, it sets only that row's activity to the new position and shows its slider iff that position is on. |
| `LinePanel.SlideChangesOwnRow` | components/line-control-panel.tsx:106-110 | With distinct ids, the callback of a shown slider at one of its positions can be issued. Dispatched to the page, it gives only that row the first reported value as power, with the current in step. |
| `LinePanel.CommandTargetsOwnRow` | components/line-control-panel.tsx:75-112 | With distinct ids, whatever a row issues changes only that row. The switch sets its activity, and the slider keeps power within 0 and the maximum. |
| `LinePanel.PanelKeepsFaultsAndMaintenance` | components/line-control-panel.tsx:78 | No control changes a line that is faulty or under maintenance. |
| `LinePanel.SwitchControlsSlider` | components/line-control-panel.tsx:100 | After a switch flip the slider is shown iff the switch is on. |
| `ScheduleCard.Offered` | components/distribution-schedule-card.tsx:84-103 | Edit iff the handler is given. Start iff scheduled, pause iff active, stop iff active or paused, each only with its handler. |
| `ScheduleCard.LifecycleActions` | components/distribution-schedule-card.tsx:89-103 | Per status, the only buttons a row can offer. |
| `ScheduleCard.PageShowsNoActions` | app/distribution/page.tsx:267 | The distribution page passes no handlers, so no row shows a button. |
| `Users.UserId` | app/settings/users/page.tsx:61 | `U` followed by the number padded to three digits. `Users.UserNumberOfId` and `Users.UserIdShape` characterise it. |
| `Users.UserNumberOfId` | app/settings/users/page.tsx:61 | The number in `U` + padded count reads back as the count. |
| `Users.UserIdShape` | app/settings/users/page.tsx:61 | A user id is `U` followed by at least three digits. |
| `Users.NameFromEmail` | app/settings/users/page.tsx:62 | The name is the email up to its first `@`, and contains no `@`. |
| `Users.NameIsLocalPart` | app/settings/users/page.tsx:62 | For `local@domain` the name is `local`. |
| `Users.AddNumbered` | app/settings/users/page.tsx:58-71 | With an empty email nothing changes. Otherwise one user is appended: id `U` and the number padded to three digits, the email, the derived name, the chosen type, active, last login "Never". The form is cleared. |
| `Users.AddUser` | app/settings/users/page.tsx:58-71 | With an empty email nothing changes. Otherwise the earlier users stay and the new one's id is `U` followed by one past the current count, padded to three digits. |
| `Users.UpdateUserType` | app/settings/users/page.tsx:73-76 | Users with the id get the new type, nothing else changes, and editing is cleared. |
| `Users.RemoveUser` | app/settings/users/page.tsx:78-80 | Exactly the users without the id remain, each as often as before, in order. |
| `Users.NewIdDependsOnCountOnly` | app/settings/users/page.tsx:61 | Two lists of equal length get the same new id, whatever ids they hold. |
| `Users.ThirdId` | app/settings/users/page.tsx:61 | Number 3 becomes `U003`. |
| `Users.RemoveFirstSeed` | app/settings/users/page.tsx:24-49 | Removing `U001` from the starting users leaves the other two. |
| `Users.AddToTwo` | app/settings/users/page.tsx:58-71 | Adding to those two appends user `U003`. |
| `Users.RemoveDuplicated` | app/settings/users/page.tsx:78-80 | Removing an id held by two users deletes both. |
| `Users.AddAfterRemoveDuplicatesId` | app/settings/users/page.tsx:61 | Removing `U001` and adding gives a second user with id `U003`. |
| `Users.RemoveAfterDuplicateDeletesBoth` | app/settings/users/page.tsx:79 | After that, removing `U003` deletes both users. |
| `Users.AddUserFreshId` | app/settings/users/page.tsx:61 | Corrected add: the least number from count + 1 whose id is free. It equals `AddUser` when that id is free, and distinct ids stay distinct. |
| `Users.AddNumberedKeepsDistinct` | app/settings/users/page.tsx:58-71 | Adding a user whose number gives a free id keeps the ids of the list distinct. |
| `Users.FreshIdKeepsIdsDistinct` | app/settings/users/page.tsx:68 | Appending a user with a free id keeps all ids distinct. |
| `DeviceSettings.AddDevice` | app/settings/devices/page.tsx:36-48 | Without both a name and an id nothing changes. Otherwise the entered device is appended offline and never seen, and the form resets to empty with type sensor. |
| `DeviceSettings.RemoveDevice` | app/settings/devices/page.tsx:50-52 | Exactly the devices without the id remain, each as often as before, in order. |
| `DeviceSettings.AddAllowsDuplicateId` | app/settings/devices/page.tsx:37-45 | Adding under an id already present gives two devices with it. |
| `DeviceSettings.RemoveUndoesAdd` | app/settings/devices/page.tsx:36-52 | Removing a freshly added id gives back the earlier list. |
| `Applications.Load` | app/applications/page.tsx:78-102 | The stored map when there is one. Otherwise, with nothing stored or a failed read, exactly the four ids, all true. |
| `Applications.Toggle` | app/applications/page.tsx:115-117 | The key is negated, a missing key becoming true. Other keys are unchanged. |
| `Applications.EnableAll` | app/applications/page.tsx:119-125 | Exactly the four ids, all true. |
| `Applications.DisableAll` | app/applications/page.tsx:127-133 | Exactly the four ids, all false. |
| `Applications.EnabledCount` | app/applications/page.tsx:175 | The number of true values, never more than the number of keys. |
| `Applications.IsEnabled` | app/applications/page.tsx:243 | A card's switch shows on when its key is true or missing. `Applications.ToggleDisplay`, `Applications.NoCascade` and `Applications.MissingKeysDisagree` characterise it. |
| `Applications.DependenciesEnabled` | app/applications/page.tsx:245 | Every dependency's key is present and true. `Applications.DependentOutlivesDependency` and `Applications.MissingKeysDisagree` characterise it. |
| `Applications.SwitchDisabled` | app/applications/page.tsx:275 | The switch is unusable when the application is off and a dependency is off. `Applications.TurningOffNeverBlocked` and `Applications.GenerationNeverBlocked` characterise it. |
| `Applications.DetailsFollowSwitch` | app/applications/page.tsx:318 | "View Details" is disabled iff the switch shows off. An unusable switch implies disabled details, and toggling a present key flips them. |
| `Applications.DefaultsEnableEverything` | app/applications/page.tsx:84-98 | Without stored state every card is enabled, has its dependencies met, and has a usable switch. |
| `Applications.ToggleDisplay` | app/applications/page.tsx:243 | Toggling a missing key leaves the card enabled. Toggling a present key flips the card. |
| `Applications.ToggleTwice` | app/applications/page.tsx:116 | Two toggles restore a present key, and leave a missing key stored as false. |
| `Applications.TurningOffNeverBlocked` | app/applications/page.tsx:275 | An enabled application's switch is never disabled. |
| `Applications.NoCascade` | app/applications/page.tsx:115-117 | A toggle does not change any other card's switch. |
| `Applications.DependentOutlivesDependency` | app/applications/page.tsx:245 | With generation off, storage stays enabled while its dependency check fails. |
| `Applications.MissingKeysDisagree` | app/applications/page.tsx:243-245 | A missing key counts as enabled for the switch and as disabled for a dependency. |
| `Applications.GenerationNeverBlocked` | app/applications/page.tsx:35 | Generation has no dependencies, so its switch is never disabled. |
| `Applications.CountsAfterBulk` | app/applications/page.tsx:175 | The count is 4 after enable-all and 0 after disable-all. |
| `Applications.ToggleCount` | app/applications/page.tsx:175 | Toggling a present key moves the count down by one if it was on, and up by one if it was off. |
| `Footer.ActiveTab` | components/sticky-footer.tsx:6-11 | Storage iff the path starts with `/storage`, then consumption, then distribution by prefix. Otherwise generation. |
| `Footer.CurrentPath` | components/sticky-footer.tsx:14 | A missing or empty path counts as `/dashboard`. |
| `Footer.StickyActiveTab` | components/sticky-footer.tsx:13-15 | A missing or empty path highlights generation. Any other path highlights the tab its prefix picks. |
| `Footer.StickyTabs` | components/sticky-footer.tsx:6-15 | A missing or empty path gives generation. Any path with a tab's prefix gives that tab. |
| `Footer.Merged` | components/dashboard-footer.tsx:23-41 | Every tab has a flag. Stored flags win, and tabs storage lacks stay enabled. A missing or failed read gives the defaults. |
| `Footer.Render` | components/dashboard-footer.tsx:50-79 | A tab is a link to its page iff its flag is true, and highlighted iff it is the active tab (generation by default). |
| `Footer.ExactlyOneHighlighted` | components/dashboard-footer.tsx:52 | Exactly one tab is highlighted. |
| `Footer.TabsAreApplications` | components/dashboard-footer.tsx:14-19 | The footer's tabs are the four applications with the same ids and pages, in order. |
| `Footer.FooterAgreesWithSwitches` | components/dashboard-footer.tsx:33-37 | The footer's flag for a tab equals what the applications page shows for that switch. |
| `Footer.BulkActionsReachFooter` | components/dashboard-footer.tsx:70-78 | After a stored disable-all every tab is inert. After a stored enable-all every tab is a link. |

## Left out

- Network plumbing of the relay: the HTTP server, the listen address, logging and `getLocalIP`. They decide nothing about routing.
- The HTTP request to the anomaly service is left out. Its reply, or its failure, is an input of `Relay.Step`.
- Asynchronous interleaving in the relay is not modelled. The handler awaits the service before sending, so other messages can be handled in between, and a close can land before the send. The model treats each message as one atomic step.
- `Math.random` and `toFixed` are left out. The two synthetic readings are an input.
- JSON text is not parsed or printed. `JSON.parse` is an input, `None` when it throws.
  - `Relay.Step` assumes a parseable device message is an object. A JSON array or scalar would be spread differently.
  - `LiveData.RelayedTelemetryDisplay` assumes `JSON.parse(JSON.stringify(o))` gives `o` back. That holds for the strings, numbers, booleans and nulls modelled here.
- Numbers are exact reals. Floating-point rounding in `power / 240 * 1000` is not modelled.
- Browser storage and React are left out. The value read from `enabledApps` is an input: nothing stored (no entry or an empty one), a failed read, or a map of booleans.
  - Stored values that are not booleans are not modelled.
  - The write-back of the map after every change is not modelled. The footer lemmas take the stored value as the map the applications page last held.
- Presentation is left out: colours, icons, badges, the loading screen, and the static charts and timelines of the distribution page.
- `useLineWebSocket` and the context pages (login, profile and the other dashboards) are not part of this model.
- The page passes `onAddLine`, `onEditLine` and `onRemoveLine` to the line control panel, but the panel declares and uses only `onToggleLine` and `onPowerAdjust`. So `Distribution.AddLine`, `Distribution.EditLine` and `Distribution.RemoveLine` model handlers that no control reaches.
- LinePanel.OnSlide: requires a non-empty value list. The slider has one thumb and always reports exactly one value, so `value[0]` is always defined.
- Line control panel: the slider's values are modelled as the positions Radix offers (0 to the maximum in steps of 5), not the component's internals.

## Findings

| source | as written | input that shows it | evidently intended | confidence | as-written member | corrected member |
|---|---|---|---|---|---|---|
| app/settings/users/page.tsx:61 | The new user id is numbered from the current user count plus one. | Start from U001, U002, U003. Remove U001, then add any email. The new user gets U003, which Mike Johnson still holds, and removing U003 then deletes both. | New users get an id no current user holds. | medium, not executed | `Users.AddAfterRemoveDuplicatesId` | `Users.AddUserFreshId` |
| hooks/useLiveData.ts:24-26 | `?? data.Voltage` reads `data` from the first render. The effect runs once, so the fallback is always `undefined`. | A message with `supply_voltage` 230, then a message without it. The voltage shown becomes `undefined`. | A missing reading keeps the previously shown value. | medium, not executed | `LiveData.SecondMessageBlanksVoltage` | `LiveData.OnMessageKeeping` |
