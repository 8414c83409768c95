/**
 The adapter-state report of the Windows Bluetooth adapter.

 The device-management side periodically reports the radio's name, address
 and power flag. The adapter is present exactly when the reported address is
 non-empty. Observers hear a present-changed or powered-changed notification
 only when that value differs from the previous report, and the first report
 of any kind completes initialisation and runs the init callback.
 */
module AdapterStatus {

  /** One report: the task manager's adapter state; default-constructed it is all empty and unpowered. */
  datatype AdapterState = AdapterState(name: string, address: string, powered: bool)

  const EmptyState := AdapterState("", "", false)

  /** What the adapter retains of the radio. */
  datatype Adapter = Adapter(name: string, address: string, powered: bool, initialized: bool)

  /** The adapter as constructed: nothing reported yet. */
  const Unreported := Adapter("", "", false, false)

  datatype Notification =
    | PresentChanged(present: bool)
    | PoweredChanged(powered: bool)
    | InitCallback

  datatype Reported = Reported(adapter: Adapter, notifications: seq<Notification>)

  /** Presence hangs on the address alone: name and power flag play no part. */
  predicate IsPresent(a: Adapter): (r: bool)
    ensures r <==> |a.address| > 0
  {
    a.address != ""
  }

  datatype Kind = PresentKind | PoweredKind | InitKind

  function KindOf(n: Notification): Kind
  {
    match n
    case PresentChanged(_) => PresentKind
    case PoweredChanged(_) => PoweredKind
    case InitCallback => InitKind
  }

  /** How many notifications of kind `k` `ns` holds. */
  function Count(ns: seq<Notification>, k: Kind): nat
  {
    if ns == [] then 0 else (if KindOf(ns[0]) == k then 1 else 0) + Count(ns[1..], k)
  }

  /**
   Takes in one report. Name, address and power flag are replaced
   unconditionally; each of presence and power notifies observers, with its
   new value, exactly when it differs from before; the first report runs the
   init callback.
   */
  function AdapterStateChanged(a: Adapter, state: AdapterState): (r: Reported)
    ensures r.adapter == Adapter(state.name, state.address, state.powered, true)
    ensures IsPresent(r.adapter) <==> state.address != ""
    ensures Count(r.notifications, PresentKind) == (if IsPresent(a) != IsPresent(r.adapter) then 1 else 0)
    ensures Count(r.notifications, PoweredKind) == (if a.powered != state.powered then 1 else 0)
    ensures Count(r.notifications, InitKind) == (if a.initialized then 0 else 1)
    ensures forall n :: n in r.notifications ==>
              n == PresentChanged(IsPresent(r.adapter)) || n == PoweredChanged(state.powered) || n == InitCallback
  {
    var isPresent := state.address != "";
    var present := if IsPresent(a) != isPresent then [PresentChanged(isPresent)] else [];
    var powered := if a.powered != state.powered then [PoweredChanged(state.powered)] else [];
    var init := if a.initialized then [] else [InitCallback];
    CountAppend(present, powered);
    CountAppend(present + powered, init);
    Reported(Adapter(state.name, state.address, state.powered, true), present + powered + init)
  }

  lemma {:induction false} CountAppend(a: seq<Notification>, b: seq<Notification>)
    ensures forall k :: Count(a + b, k) == Count(a, k) + Count(b, k)
    decreases |a|
  {
    if a == [] {
      assert a + b == b;
    } else {
      assert (a + b)[0] == a[0] && (a + b)[1..] == a[1..] + b;
      CountAppend(a[1..], b);
    }
  }

  /** Takes in the reports in order, collecting every notification. */
  function ReportAll(a: Adapter, states: seq<AdapterState>): Reported
    decreases |states|
  {
    if states == [] then Reported(a, [])
    else
      var first := AdapterStateChanged(a, states[0]);
      var rest := ReportAll(first.adapter, states[1..]);
      Reported(rest.adapter, first.notifications + rest.notifications)
  }

  /** How often a flag differs from the one before it, starting from `previous`. */
  function Flips(previous: bool, values: seq<bool>): nat
    decreases |values|
  {
    if values == [] then 0
    else (if values[0] != previous then 1 else 0) + Flips(values[0], values[1..])
  }

  function Presences(states: seq<AdapterState>): (r: seq<bool>)
    ensures |r| == |states|
    ensures forall i :: 0 <= i < |states| ==> r[i] == (states[i].address != "")
  {
    seq(|states|, i requires 0 <= i < |states| => states[i].address != "")
  }

  function Powers(states: seq<AdapterState>): (r: seq<bool>)
    ensures |r| == |states|
    ensures forall i :: 0 <= i < |states| ==> r[i] == states[i].powered
  {
    seq(|states|, i requires 0 <= i < |states| => states[i].powered)
  }

  /**
   Over any sequence of reports, observers hear exactly one present-changed
   notification per change of presence and one powered-changed notification
   per change of the power flag; the init callback runs once if the adapter
   was not initialised and at least one report arrived, and never again.
   */
  lemma {:induction false} NotificationsCountEdges(a: Adapter, states: seq<AdapterState>)
    ensures var r := ReportAll(a, states);
            && Count(r.notifications, PresentKind) == Flips(IsPresent(a), Presences(states))
            && Count(r.notifications, PoweredKind) == Flips(a.powered, Powers(states))
            && Count(r.notifications, InitKind) == (if states != [] && !a.initialized then 1 else 0)
    decreases |states|
  {
    if states != [] {
      var first := AdapterStateChanged(a, states[0]);
      var rest := ReportAll(first.adapter, states[1..]);
      NotificationsCountEdges(first.adapter, states[1..]);
      CountAppend(first.notifications, rest.notifications);
      assert ReportAll(a, states).notifications == first.notifications + rest.notifications;
      PresencesTail(states);
      PowersTail(states);
    }
  }

  lemma PresencesTail(states: seq<AdapterState>)
    requires states != []
    ensures Presences(states)[0] == (states[0].address != "")
    ensures Presences(states)[1..] == Presences(states[1..])
  {
  }

  lemma PowersTail(states: seq<AdapterState>)
    requires states != []
    ensures Powers(states)[0] == states[0].powered
    ensures Powers(states)[1..] == Powers(states[1..])
  {
  }

  /** Repeating a report changes nothing and notifies nobody. */
  lemma RepeatedReportIsSilent(a: Adapter, state: AdapterState)
    ensures var once := AdapterStateChanged(a, state).adapter;
            AdapterStateChanged(once, state) == Reported(once, [])
  {
  }

  /** A default-constructed report leaves the adapter not present. */
  lemma AdapterNotPresent()
    ensures !IsPresent(AdapterStateChanged(Unreported, EmptyState).adapter)
  {
  }

  /** A report with an address makes the adapter present. */
  lemma AdapterPresent()
    ensures IsPresent(AdapterStateChanged(Unreported,
                      AdapterState("Bluetooth Adapter Name", "A1:B2:C3:D4:E5:F6", false)).adapter)
  {
  }

  /** Present, present again, then empty: one, still one, then two present-changed notifications. */
  lemma AdapterPresentChanged()
    ensures var state := AdapterState("Bluetooth Adapter Name", "A1:B2:C3:D4:E5:F6", false);
            && Count(ReportAll(Unreported, [state]).notifications, PresentKind) == 1
            && Count(ReportAll(Unreported, [state, state]).notifications, PresentKind) == 1
            && Count(ReportAll(Unreported, [state, state, EmptyState]).notifications, PresentKind) == 2
  {
    var state := AdapterState("Bluetooth Adapter Name", "A1:B2:C3:D4:E5:F6", false);
    NotificationsCountEdges(Unreported, [state]);
    NotificationsCountEdges(Unreported, [state, state]);
    NotificationsCountEdges(Unreported, [state, state, EmptyState]);
    assert Presences([state]) == [true];
    assert Presences([state, state]) == [true, true];
    assert Presences([state, state, EmptyState]) == [true, true, false];
    FlipsOfOnOnOff();
  }

  /** Powered, powered again, then unpowered: one, still one, then two powered-changed notifications. */
  lemma AdapterPoweredChanged()
    ensures var on := EmptyState.(powered := true);
            && Count(ReportAll(Unreported, [on]).notifications, PoweredKind) == 1
            && Count(ReportAll(Unreported, [on, on]).notifications, PoweredKind) == 1
            && Count(ReportAll(Unreported, [on, on, EmptyState]).notifications, PoweredKind) == 2
  {
    var on := EmptyState.(powered := true);
    NotificationsCountEdges(Unreported, [on]);
    NotificationsCountEdges(Unreported, [on, on]);
    NotificationsCountEdges(Unreported, [on, on, EmptyState]);
    assert Powers([on]) == [true];
    assert Powers([on, on]) == [true, true];
    assert Powers([on, on, EmptyState]) == [true, true, false];
    FlipsOfOnOnOff();
  }

  lemma FlipsOfOnOnOff()
    ensures Flips(false, [true]) == 1
    ensures Flips(false, [true, true]) == 1
    ensures Flips(false, [true, true, false]) == 2
  {
    assert [true, true, false][1..] == [true, false];
    assert [true, false][1..] == [false];
    assert [true, true][1..] == [true];
    assert [true][1..] == [];
  }

  /** Not initialised before any report; any report, even an empty one, initialises and runs the callback. */
  lemma AdapterInitialized()
    ensures !Unreported.initialized
    ensures var r := AdapterStateChanged(Unreported, EmptyState);
            r.adapter.initialized && InitCallback in r.notifications
  {
  }
}
