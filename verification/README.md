# Windows Bluetooth adapter: discovery sessions, adapter state and device polling

This is a Dafny model of the core of Chromium's Windows Bluetooth adapter
(`BluetoothAdapterWin`). The adapter sits between callers on the UI thread
and a device-management task manager that talks to the radio. The model
covers three parts:

- **Discovery sessions** (`discovery.dfy`). Callers add and remove discovery
  sessions independently of each other. The adapter keeps:
  - one status: not discovering, starting, discovering or stopping;
  - a FIFO queue of pending start requests and one of pending stop requests;
  - the number of sessions that currently hold discovery open.

  It issues at most one start or stop command to the hardware at a time. The
  hardware's completion (`DiscoveryStarted(success)` / `DiscoveryStopped()`)
  answers every request that waited on it and replays what was queued in the
  meantime. Observers hear a discovering-changed notification only when the
  visible flag flips. Each operation is a pure step that returns the new
  session record and its effects, split by channel:
  - continuations run on the caller's stack;
  - continuations posted to the UI task runner;
  - commands posted to the device-management task runner;
  - observer notifications.

  `discovery_properties.dfy` proves the coordinator's invariants for one step
  and along whole traces. `discovery_scenarios.dfy` replays the unit tests'
  discovery scenarios on a model of the test fixture, for any number of
  sessions where the test uses a fixed count.
- **Adapter state** (`adapter_status.dfy`). A report from the task manager
  replaces the adapter's name, address and power flag. The adapter is present
  exactly when the address is non-empty. Present-changed and powered-changed
  notifications fire only on a change. The first report initialises the
  adapter and runs the init callback.
- **Device polling** (`device_roster.dfy`). Each poll brings the full list of
  devices the radio knows. The adapter keeps one record per address. It drops
  every known address the list lacks, which is a device-removed event. It then
  walks the list in order:
  - an address new to the roster is inserted, which is a device-added event;
  - a known address whose record differs field by field is updated, which is
    a device-changed event.

  `roster_properties.dfy` states what a poll promises against independent
  definitions:
  - the snapshot read as a map, with later entries winning;
  - the per-device difference from the old roster.

  `roster_scenarios.dfy` replays the seven polls of the unit test.

The implementation file `device/bluetooth/bluetooth_adapter_win.cc` is not
part of this model. The behaviour is taken from the adapter's unit test
`device/bluetooth/bluetooth_adapter_win_unittest.cc`. Every scenario there is
replayed, and each one's observable results hold in the model: the callback
counters, the number of tasks pending on each runner, the discovering-changed
count and the values of `IsDiscovering` and `IsPresent`.

The tests do not pin down everything the model decides. The model makes the
following choices, which the tests do not decide:

- A stop request while other sessions remain is answered through the UI
  runner, not synchronously. The test runs the UI runner before it reads the
  counter, so both would pass it.
- A stop request made while a stop command is in flight is queued and then
  succeeds when the hardware confirms the stop.
- A start request made while a stop command is in flight is queued and
  replayed as one start command when the stop completes.
- When a start succeeds with stop requests queued, the tests only cover one
  start and one stop, and more starts than stops. In the model, with at
  least as many stops as starts the start is followed by one stop command.
  With fewer stops, every queued stop succeeds and the difference stays open
  as sessions.
- After a failed start the session count is 0.
- In a poll, removals are decided before the list is walked. The sets of new
  and changed addresses are fixed before the walk. An address listed twice
  is visited twice.

## Model

| member | source | states |
|---|---|---|
| `Discovery.IsDiscovering` | device/bluetooth/bluetooth_adapter_win_unittest.cc:227-391 | The adapter reports discovering exactly when it is neither idle nor starting. A stop in flight still counts and a start in flight does not. |
| `Discovery.MaybePostStart` | device/bluetooth/bluetooth_adapter_win_unittest.cc:227-242 | A start command is posted exactly when start requests wait and the adapter is idle; the adapter then becomes "starting". Otherwise nothing happens. |
| `Discovery.MaybePostStop` | device/bluetooth/bluetooth_adapter_win_unittest.cc:362-391 | While discovering with fewer queued stops than open sessions, every queued stop succeeds through the UI runner and the session count drops by that many. Otherwise the last session is leaving and exactly one stop command is posted. Outside "discovering" nothing happens. |
| `Discovery.AddDiscoverySession` | device/bluetooth/bluetooth_adapter_win_unittest.cc:257-319 | While discovering, the caller joins at once: its success callback runs synchronously, the session count grows by one, and no command or notification is produced. Otherwise the request is queued at the back, and a start command is posted only from "not discovering". |
| `Discovery.RemoveDiscoverySession` | device/bluetooth/bluetooth_adapter_win_unittest.cc:362-464 | With no discovery at all, the error callback runs synchronously and nothing else changes. While a start or stop is in flight, the request only joins the stop queue. While discovering with more sessions than pending stops, every pending stop succeeds through the UI runner and the count drops by that many, with no command. When the last session leaves, the adapter is "stopping" and exactly one stop command is posted. The visible discovering flag never changes. |
| `Discovery.DiscoveryStarted` | device/bluetooth/bluetooth_adapter_win_unittest.cc:244-508 | Every queued start request is answered first, in order, with the reported outcome. On success discovery becomes visible with one notification and no new start command. With fewer queued stops than starts, the adapter is discovering with starts minus stops sessions, posts no command, and answers the starts and then every stop. With at least as many stops, it holds one session per start while one stop command is posted. On failure the adapter returns to idle without a notification, and queued stop requests succeed after the start errors. |
| `Discovery.DiscoveryStopped` | device/bluetooth/bluetooth_adapter_win_unittest.cc:434-445 | Every queued stop succeeds in order, and no session remains. Observers hear "false" only if discovery had been visible. If start requests wait, exactly one start command is posted and the adapter becomes "starting". |
| `DiscoveryProperties.StepKeepsSingleFlight` | device/bluetooth/bluetooth_adapter_win_unittest.cc:257-276 | From any state satisfying the invariant `Valid`, each request or admissible completion leads to a state satisfying it. The commands outstanding afterwards are exactly the one the new state waits for, so no step posts a second command while one is in flight. |
| `DiscoveryProperties.StepNotifiesOnlyFlips` | device/bluetooth/bluetooth_adapter_win_unittest.cc:342-360 | A step notifies observers exactly when the visible discovering flag flips, once, with the new value. |
| `DiscoveryProperties.StepAnswersEachRequestOnce` | device/bluetooth/bluetooth_adapter_win_unittest.cc:466-489 | Every start and every stop request is either still queued or answered by the step, never both and never twice. A completion answers its whole queue in arrival order. |
| `DiscoveryProperties.StartResultsAnswer` | device/bluetooth/bluetooth_adapter_win_unittest.cc:278-292 | The start callbacks produced for a queue answer exactly that queue, in order, and no stop request. |
| `DiscoveryProperties.StopResultsAnswer` | device/bluetooth/bluetooth_adapter_win_unittest.cc:362-391 | The stop callbacks produced for a queue answer exactly that queue, in order, and no start request. |
| `DiscoveryProperties.StartCompletionAnswers` | device/bluetooth/bluetooth_adapter_win_unittest.cc:491-508 | A start completion answers the whole start queue in order. The stops it answers, followed by the stops still queued, are exactly the stop queue it met. |
| `DiscoveryProperties.AlternatingStep` | device/bluetooth/bluetooth_adapter_win_unittest.cc:342-360 | Appending the new flag only when it differs keeps the notification history alternating, starting with "true" and ending at the visible flag. |
| `DiscoveryProperties.DeliverKeepsCoherent` | device/bluetooth/bluetooth_adapter_win_unittest.cc:418-432 | Coordinator plus hardware queue plus notification history stay coherent under any input the hardware protocol admits. |
| `DiscoveryProperties.TracesKeepSingleFlight` | device/bluetooth/bluetooth_adapter_win_unittest.cc:393-416 | Along every admissible trace from a coherent world, the hardware never holds more than one unanswered command, and it is the one the coordinator waits for. The notifications alternate. |
| `DiscoveryProperties.SingleFlightFromConstruction` | device/bluetooth/bluetooth_adapter_win_unittest.cc:257-276 | From the constructed adapter, every admissible trace reaches a state satisfying `Valid` with at most one command in flight. |
| `DiscoveryScenarios.Run` | device/bluetooth/bluetooth_adapter_win_unittest.cc:138-152 | Running one continuation raises exactly the counter of its own kind, by one, and touches neither the adapter nor the task queues. |
| `DiscoveryScenarios.RunUi` | device/bluetooth/bluetooth_adapter_win_unittest.cc:237-238 | Running the UI runner empties it and runs one callback per pending task, leaving the adapter and the device-management runner alone. |
| `DiscoveryScenarios.ClearUi` | device/bluetooth/bluetooth_adapter_win_unittest.cc:346 | Clearing the UI runner drops its tasks without running a callback. |
| `DiscoveryScenarios.ClearBluetooth` | device/bluetooth/bluetooth_adapter_win_unittest.cc:228 | Clearing the device-management runner drops its commands and leaves the adapter untouched. |
| `DiscoveryScenarios.AddSession` | device/bluetooth/bluetooth_adapter_win_unittest.cc:154-158 | The fixture's add call takes one adapter step with a fresh token. Its posts are appended to the two runners, its notifications counted, and the callbacks it answers at once are run. |
| `DiscoveryScenarios.RemoveSession` | device/bluetooth/bluetooth_adapter_win_unittest.cc:160-164 | The same for the fixture's remove call. |
| `DiscoveryScenarios.AddWhenIdle` | device/bluetooth/bluetooth_adapter_win_unittest.cc:227-235 | From an idle adapter, a start request is queued and exactly one start command is posted. No callback runs. |
| `DiscoveryScenarios.AddWhileStarting` | device/bluetooth/bluetooth_adapter_win_unittest.cc:257-268 | While a start is in flight, a start request only joins the start queue. |
| `DiscoveryScenarios.RemoveWhileStarting` | device/bluetooth/bluetooth_adapter_win_unittest.cc:456-464 | While a start is in flight, a stop request only joins the stop queue. |
| `DiscoveryScenarios.AddWhileDiscovering` | device/bluetooth/bluetooth_adapter_win_unittest.cc:294-319 | While discovering, a start request joins at once and its success callback runs synchronously. |
| `DiscoveryScenarios.RemoveWhileShared` | device/bluetooth/bluetooth_adapter_win_unittest.cc:371-379 | With more than one session open, a stop request lowers the count and posts its success to the UI runner, with no command. |
| `DiscoveryScenarios.RemoveLast` | device/bluetooth/bluetooth_adapter_win_unittest.cc:380-385 | Removing the last session posts one stop command and queues the request, and the adapter still reports discovering. |
| `DiscoveryScenarios.StartConfirmed` | device/bluetooth/bluetooth_adapter_win_unittest.cc:236-241 | A successful start with no stop queued opens one session per queued start, posts their successes to the UI runner and notifies once. |
| `DiscoveryScenarios.StartRejected` | device/bluetooth/bluetooth_adapter_win_unittest.cc:491-508 | A failed start makes the adapter idle. It posts the start errors and then the queued stops' successes to the UI runner, with no command and no notification. |
| `DiscoveryScenarios.StopConfirmed` | device/bluetooth/bluetooth_adapter_win_unittest.cc:354-359 | A confirmed stop with no start queued makes the adapter idle, posts every queued stop's success and notifies once, with no command. |
| `DiscoveryScenarios.RunAll` | device/bluetooth/bluetooth_adapter_win_unittest.cc:138-152 | Running callbacks changes only the four callback counters of the fixture, never the adapter or the task queues. |
| `DiscoveryScenarios.StartBurst` | device/bluetooth/bluetooth_adapter_win_unittest.cc:257-276 | From a fresh adapter, n start requests queue in order behind exactly one start command. |
| `DiscoveryScenarios.OneStartConfirmed` | device/bluetooth/bluetooth_adapter_win_unittest.cc:236-241 | A successful start over one queued start request runs its success callback, leaves one session open and notifies once. |
| `DiscoveryScenarios.BurstConfirmed` | device/bluetooth/bluetooth_adapter_win_unittest.cc:270-275 | A successful start over n queued start requests runs n success callbacks, leaves n sessions open and notifies once. |
| `DiscoveryScenarios.MultipleStartDiscoveries` | device/bluetooth/bluetooth_adapter_win_unittest.cc:227-276 | For any n >= 1 start requests, one start command is pending after the k-th of them, for every k, and no callback runs before the hardware answers. A successful start then runs n success callbacks, makes the adapter discovering, and notifies once. |
| `DiscoveryScenarios.MultipleStartDiscoveriesFailure` | device/bluetooth/bluetooth_adapter_win_unittest.cc:244-255 | For any n >= 1 start requests, a failed start runs n error callbacks and no success callback. The adapter is not discovering and observers hear nothing. |
| `DiscoveryScenarios.AddsWhileDiscovering` | device/bluetooth/bluetooth_adapter_win_unittest.cc:294-319 | While discovering, n further start requests each run their success callback at once and only raise the session count. |
| `DiscoveryScenarios.MultipleStartDiscoveriesAfterDiscovering` | device/bluetooth/bluetooth_adapter_win_unittest.cc:294-319 | Once discovering, after any k further start requests, 1 + k success callbacks have run synchronously, nothing is posted to either runner, and the notification count stays at one. |
| `DiscoveryScenarios.StartDiscoveryAfterDiscoveringFailure` | device/bluetooth/bluetooth_adapter_win_unittest.cc:321-340 | After a failed start, the adapter is idle again, and a new start request is served normally. |
| `DiscoveryScenarios.RemovesWhileShared` | device/bluetooth/bluetooth_adapter_win_unittest.cc:362-391 | While more sessions remain, each stop request succeeds after one UI-runner turn and touches no hardware. |
| `DiscoveryScenarios.MultipleStopDiscoveries` | device/bluetooth/bluetooth_adapter_win_unittest.cc:342-391 | With n sessions open, each of the first n-1 stop requests posts nothing, and after the k-th of them k stop callbacks have run. The last posts one stop command while discovery stays visible, and its callback has not run before the hardware confirms. The confirmation posts no command. After it, all n stop callbacks have run and observers have heard two notifications. |
| `DiscoveryScenarios.LastStop` | device/bluetooth/bluetooth_adapter_win_unittest.cc:350-360 | With one session left, the stop request posts one stop command and no callback runs until the hardware confirms. The confirmation posts nothing, runs the stop callback and notifies a second time. |
| `DiscoveryScenarios.StartDiscoveryAndStartDiscoveryAndStopDiscoveries` | device/bluetooth/bluetooth_adapter_win_unittest.cc:393-416 | With two sessions, the first stop posts nothing and the second posts exactly one stop command. |
| `DiscoveryScenarios.StartDiscoveryAndStopDiscoveryAndStartDiscovery` | device/bluetooth/bluetooth_adapter_win_unittest.cc:418-432 | Start, stop and start again, each confirmed by the hardware: the adapter is discovering, then not, then discovering again. |
| `DiscoveryScenarios.StartDiscoveryBeforeDiscoveryStopped` | device/bluetooth/bluetooth_adapter_win_unittest.cc:434-445 | A start request made while the stop is in flight is replayed on the stop's completion as one start command. |
| `DiscoveryScenarios.StopDiscoveryWithoutStartDiscovery` | device/bluetooth/bluetooth_adapter_win_unittest.cc:447-454 | A stop request on a fresh adapter runs its error callback synchronously and posts nothing. |
| `DiscoveryScenarios.StopDiscoveryBeforeDiscoveryStarted` | device/bluetooth/bluetooth_adapter_win_unittest.cc:456-464 | A stop request made while the only start is in flight makes the successful start post one stop command. |
| `DiscoveryScenarios.StartAndStopBeforeDiscoveryStarted` | device/bluetooth/bluetooth_adapter_win_unittest.cc:466-489 | For any counts of starts greater than stops made before the hardware answers, a successful start posts no command. All start callbacks and all stop callbacks then run. |
| `DiscoveryScenarios.RemovesWhileStarting` | device/bluetooth/bluetooth_adapter_win_unittest.cc:466-489 | While a start is in flight, stop requests only join the stop queue in order. |
| `DiscoveryScenarios.StopDiscoveryBeforeDiscoveryStartedAndFailed` | device/bluetooth/bluetooth_adapter_win_unittest.cc:491-508 | A stop request queued behind a start that fails succeeds, after the start's error callback. Observers hear nothing. |
| `AdapterStatus.IsPresent` | device/bluetooth/bluetooth_adapter_win_unittest.cc:179-191 | The adapter is present exactly when its address is non-empty. Name and power play no part. |
| `AdapterStatus.AdapterStateChanged` | device/bluetooth/bluetooth_adapter_win_unittest.cc:179-225 | The report replaces name, address and power and marks the adapter initialised. The adapter is present iff the address is non-empty. Exactly one present-changed notification fires iff presence flipped, and exactly one powered-changed iff power flipped, each carrying the new value. The init callback runs iff the adapter was not initialised. |
| `AdapterStatus.NotificationsCountEdges` | device/bluetooth/bluetooth_adapter_win_unittest.cc:193-216 | Over any sequence of reports, observers hear one present-changed notification per change of presence and one powered-changed notification per change of power. The init callback runs once if any report arrived at an uninitialised adapter, and never again. |
| `AdapterStatus.RepeatedReportIsSilent` | device/bluetooth/bluetooth_adapter_win_unittest.cc:193-204 | Repeating a report changes nothing and notifies nobody. |
| `AdapterStatus.AdapterNotPresent` | device/bluetooth/bluetooth_adapter_win_unittest.cc:179-183 | A default-constructed report leaves the adapter not present. |
| `AdapterStatus.AdapterPresent` | device/bluetooth/bluetooth_adapter_win_unittest.cc:185-191 | A report carrying the adapter's address and name makes it present. |
| `AdapterStatus.AdapterPresentChanged` | device/bluetooth/bluetooth_adapter_win_unittest.cc:193-204 | Present, present again, then empty: the counter reads 1, 1, 2. |
| `AdapterStatus.AdapterPoweredChanged` | device/bluetooth/bluetooth_adapter_win_unittest.cc:206-216 | Powered, powered again, then unpowered: the counter reads 1, 1, 2. |
| `AdapterStatus.AdapterInitialized` | device/bluetooth/bluetooth_adapter_win_unittest.cc:218-225 | The adapter is uninitialised before any report. Even an empty report initialises it and runs the callback. |
| `DeviceRoster.IsEqual` | device/bluetooth/bluetooth_adapter_win_unittest.cc:532-583 | The change test compares every field, service records included, so two records compare equal exactly when they are the same record. |
| `DeviceRoster.Visit` | device/bluetooth/bluetooth_adapter_win_unittest.cc:510-583 | An address in the added set is inserted with one added event. A known address whose record differs is replaced with one changed event. Anything else leaves the roster as it was and produces no event. |
| `DeviceRoster.Walk` | device/bluetooth/bluetooth_adapter_win_unittest.cc:510-583 | Walking a snapshot adds exactly its addresses to the roster, leaves every other entry alone, and names only snapshot addresses in its events. |
| `DeviceRoster.DevicesPolled` | device/bluetooth/bluetooth_adapter_win_unittest.cc:510-583 | After a poll the roster holds exactly the polled addresses. An address is reported removed iff the roster lost it. Every event names a device the roster now holds. |
| `RosterProperties.OverlayIsUnion` | device/bluetooth/bluetooth_adapter_win_unittest.cc:510-583 | Writing a snapshot over a roster is the roster overridden by the snapshot read alone as a map. |
| `RosterProperties.OverlayLastWins` | device/bluetooth/bluetooth_adapter_win_unittest.cc:510-583 | For an address listed more than once, the last entry is the one stored. |
| `RosterProperties.SnapshotOfDistinct` | device/bluetooth/bluetooth_adapter_win_unittest.cc:510-583 | With distinct addresses every entry is stored as reported, and nothing else is. |
| `RosterProperties.WalkStoresOverlay` | device/bluetooth/bluetooth_adapter_win_unittest.cc:510-583 | The walk stores the snapshot written over the kept roster, in order. |
| `RosterProperties.PollStoresSnapshot` | device/bluetooth/bluetooth_adapter_win_unittest.cc:510-583 | After any poll, even one listing an address twice, the roster is exactly the snapshot read as a map. Nothing of the old roster survives. |
| `RosterProperties.WalkMatchesExpected` | device/bluetooth/bluetooth_adapter_win_unittest.cc:510-583 | With distinct addresses, the walk's events equal the reference sequence: one event per device, judged against the roster before the poll, in snapshot order. |
| `RosterProperties.ExpectedMembers` | device/bluetooth/bluetooth_adapter_win_unittest.cc:525-546 | With distinct addresses, in the reference sequence added events name exactly the addresses new to the roster. Changed events name exactly the known addresses whose record differs. |
| `RosterProperties.ExpectedOncePerAddress` | device/bluetooth/bluetooth_adapter_win_unittest.cc:510-583 | With distinct addresses, no address is named by two events. |
| `RosterProperties.PollEventsAreExpected` | device/bluetooth/bluetooth_adapter_win_unittest.cc:510-583 | With distinct addresses, a poll's events are exactly the reference sequence. |
| `RosterProperties.PollReportsDifference` | device/bluetooth/bluetooth_adapter_win_unittest.cc:510-583 | With distinct addresses, a device is reported added iff it is new, changed iff it was known and its record differs, and removed iff it is gone. No address appears in two events. |
| `RosterProperties.PollIsIdempotent` | device/bluetooth/bluetooth_adapter_win_unittest.cc:510-583 | With distinct addresses, polling the same list a second time changes nothing and reports nothing. |
| `RosterProperties.PollOfDuplicateNeverSettles` | device/bluetooth/bluetooth_adapter_win_unittest.cc:510-583 | A list naming one address with two different records stores the later record, and every further poll of the same list reports that address changed twice and removes nothing. |
| `RosterProperties.PollAfterSnapshot` | device/bluetooth/bluetooth_adapter_win_unittest.cc:510-583 | With distinct addresses, polling one list against the roster another left removes exactly the addresses that vanished. It stores the new list and reports the reference events. |
| `RosterProperties.ChangingOneDevice` | device/bluetooth/bluetooth_adapter_win_unittest.cc:532-538 | With distinct addresses, editing one device under its own address yields exactly one changed event and no removal. |
| `RosterProperties.ReaddressingOneDevice` | device/bluetooth/bluetooth_adapter_win_unittest.cc:540-546 | With distinct addresses, giving one device a fresh address removes the old address and adds the new one, with no changed event. |
| `RosterProperties.DroppingOneDevice` | device/bluetooth/bluetooth_adapter_win_unittest.cc:548-554 | With distinct addresses, dropping one device from the list removes exactly its address and reports nothing else. |
| `RosterProperties.AddingOneDevice` | device/bluetooth/bluetooth_adapter_win_unittest.cc:525-530 | With distinct addresses, appending a device with a new address yields exactly one added event and no removal. |
| `RosterScenarios.MakeDeviceState` | device/bluetooth/bluetooth_adapter_win_unittest.cc:30-38 | A test device carries the given name and address, class 0, not authenticated, not connected and no service records. |
| `RosterScenarios.EditObserved` | device/bluetooth/bluetooth_adapter_win_unittest.cc:510-583 | For any three devices and edits related as the test relates them, each of the seven polls is observed as the test expects, against the roster the previous poll left. The counts are 3 added; 1 changed; 1 added and 1 removed; 1 removed; then 1 changed for each service-record edit. |
| `RosterScenarios.DevicesPolledScenario` | device/bluetooth/bluetooth_adapter_win_unittest.cc:510-583 | On the test's own devices, addresses and audio service record, every poll stores the list and meets the test's expected counters. Two devices sharing the name "phone" stay distinct. |

## Left out

- Task runners and threading: continuations posted to the UI runner and commands posted to the device-management runner are recorded in order as effects. Thread hopping, weak pointers and callback lifetimes are not modelled. Tasks that constructing the adapter may post are not modelled either: the fixture `Fresh` starts with both runners empty, and the tests clear the device-management runner before they count its tasks.
- The device-management task manager (`BluetoothTaskManagerWin`) and the Win32 radio calls are not part of this model. The hardware is played by the inputs `DiscoveryStarted(success)` / `DiscoveryStopped()` and by the reports passed to `AdapterStateChanged` and `DevicesPolled`.
- Observer registration (`AddObserver` / `RemoveObserver`): every notification is assumed to reach the one registered observer, as in the test fixture.
- SDP decoding and service-UUID extraction from `sdp_bytes`: service records are compared as an ordered list of (name, bytes) pairs. A record's UUID is not derived.
- Address canonicalisation: addresses are compared as given strings.
- Device fields the test never sets, such as `visible`, are not modelled. The class of device is a 32-bit unsigned value, compared but never interpreted.
- Device-removed events are modelled as a set of addresses, without the order in which observers would hear them.
- `DiscoveryStarted`: on a failed start the session count is modelled as reset to 0. This value is never read before a later successful start overwrites it, so no test can observe it.
- `DeviceRoster.DevicesPolled`: when one list names an address twice, each entry is visited in order. An address that was new gets an added event for every entry, and the last entry is stored. `PollReportsDifference` therefore requires distinct addresses, while `PollStoresSnapshot` holds for any list.
- `RosterProperties.PollIsIdempotent`: stated for lists with distinct addresses only. A list naming one address with two different records is reported as changed again on every poll (`PollOfDuplicateNeverSettles`).
- `RosterProperties.ExpectedMembers`, `PollAfterSnapshot`, `ChangingOneDevice`, `ReaddressingOneDevice`, `DroppingOneDevice` and `AddingOneDevice` are stated for lists with distinct addresses, for the same reason.
- Other platforms' adapters, pairing, GATT and the discovery-filter API are outside this model.
