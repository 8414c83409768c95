/**
 The discovery scenarios of the adapter's unit tests, replayed on the model.

 `Bench` is the test fixture: the adapter's session record, the pending tasks
 of the caller-facing ("ui") and device-management ("bluetooth") task
 runners, the four callback counters and the observer's discovering-changed
 counter. Tests step the task runners by hand; so do these lemmas, with
 `RunUi` and the two `Clear` functions. The hardware is played by calling
 `Started` and `Stopped` directly, as the tests do.
 */
module DiscoveryScenarios {
  import opened Discovery

  datatype Bench = Bench(
    session: Session,
    nextId: RequestId,
    ui: seq<Continuation>,
    bluetooth: seq<Command>,
    startCallbacks: nat,
    startErrorCallbacks: nat,
    stopCallbacks: nat,
    stopErrorCallbacks: nat,
    discoveringChanged: nat)

  /**
   A freshly constructed adapter with an observer attached, all counters at
   zero and both task runners empty. Tasks that construction itself may post
   are not modelled; the tests clear the device-management runner before they
   count its tasks.
   */
  const Fresh := Bench(Idle, 0, [], [], 0, 0, 0, 0, 0)

  predicate ReportsDiscovering(b: Bench)
  {
    IsDiscovering(b.session)
  }

  /** How many of the test's callbacks have run, of all four kinds. */
  function Callbacks(b: Bench): nat
  {
    b.startCallbacks + b.startErrorCallbacks + b.stopCallbacks + b.stopErrorCallbacks
  }

  /** Runs one continuation: the test's callbacks only count. */
  function Run(b: Bench, c: Continuation): (r: Bench)
    ensures r.session == b.session && r.nextId == b.nextId
    ensures r.ui == b.ui && r.bluetooth == b.bluetooth && r.discoveringChanged == b.discoveringChanged
    ensures Callbacks(r) == Callbacks(b) + 1
    ensures r.startCallbacks == b.startCallbacks + (if c.StartSucceeded? then 1 else 0)
    ensures r.startErrorCallbacks == b.startErrorCallbacks + (if c.StartFailed? then 1 else 0)
    ensures r.stopCallbacks == b.stopCallbacks + (if c.StopSucceeded? then 1 else 0)
    ensures r.stopErrorCallbacks == b.stopErrorCallbacks + (if c.StopFailed? then 1 else 0)
  {
    match c
    case StartSucceeded(_) => b.(startCallbacks := b.startCallbacks + 1)
    case StartFailed(_) => b.(startErrorCallbacks := b.startErrorCallbacks + 1)
    case StopSucceeded(_) => b.(stopCallbacks := b.stopCallbacks + 1)
    case StopFailed(_) => b.(stopErrorCallbacks := b.stopErrorCallbacks + 1)
  }

  /** Runs continuations in order; running them changes nothing but the counters. */
  function RunAll(b: Bench, cs: seq<Continuation>): (r: Bench)
    ensures r.session == b.session && r.nextId == b.nextId
    ensures r.ui == b.ui && r.bluetooth == b.bluetooth && r.discoveringChanged == b.discoveringChanged
    ensures Callbacks(r) == Callbacks(b) + |cs|
    decreases |cs|
  {
    if cs == [] then b else RunAll(Run(b, cs[0]), cs[1..])
  }

  /** Takes in one step of the adapter: posts land on the task runners, the rest happens now. */
  function Absorb(b: Bench, o: Outcome): Bench
  {
    RunAll(b.(session := o.session,
              ui := b.ui + o.effects.toUi,
              bluetooth := b.bluetooth + o.effects.commands,
              discoveringChanged := b.discoveringChanged + |o.effects.changes|),
           o.effects.ranNow)
  }

  /**
   `CallAddDiscoverySession`, with a fresh request token: the adapter takes
   the step, its posts join the runners, and what it answers at once runs.
   */
  function AddSession(b: Bench): (r: Bench)
    ensures var o := AddDiscoverySession(b.session, b.nextId);
            && r.session == o.session && r.nextId == b.nextId + 1
            && r.ui == b.ui + o.effects.toUi && r.bluetooth == b.bluetooth + o.effects.commands
            && r.discoveringChanged == b.discoveringChanged + |o.effects.changes|
            && Callbacks(r) == Callbacks(b) + |o.effects.ranNow|
  {
    Absorb(b.(nextId := b.nextId + 1), AddDiscoverySession(b.session, b.nextId))
  }

  /** `CallRemoveDiscoverySession`, with a fresh request token. */
  function RemoveSession(b: Bench): (r: Bench)
    ensures var o := RemoveDiscoverySession(b.session, b.nextId);
            && r.session == o.session && r.nextId == b.nextId + 1
            && r.ui == b.ui + o.effects.toUi && r.bluetooth == b.bluetooth + o.effects.commands
            && r.discoveringChanged == b.discoveringChanged + |o.effects.changes|
            && Callbacks(r) == Callbacks(b) + |o.effects.ranNow|
  {
    Absorb(b.(nextId := b.nextId + 1), RemoveDiscoverySession(b.session, b.nextId))
  }

  function Started(b: Bench, success: bool): Bench
  {
    Absorb(b, DiscoveryStarted(b.session, success))
  }

  function Stopped(b: Bench): Bench
  {
    Absorb(b, DiscoveryStopped(b.session))
  }

  /** `ui_task_runner_->RunPendingTasks()`: every pending task runs, in order, and the queue empties. */
  function RunUi(b: Bench): (r: Bench)
    ensures r.ui == [] && r.session == b.session && r.bluetooth == b.bluetooth
    ensures r.discoveringChanged == b.discoveringChanged
    ensures Callbacks(r) == Callbacks(b) + |b.ui|
  {
    RunAll(b.(ui := []), b.ui)
  }

  /** `ui_task_runner_->ClearPendingTasks()`: the pending tasks are dropped without running. */
  function ClearUi(b: Bench): (r: Bench)
    ensures r.ui == [] && Callbacks(r) == Callbacks(b)
    ensures r.session == b.session && r.bluetooth == b.bluetooth
  {
    b.(ui := [])
  }

  /** `bluetooth_task_runner_->ClearPendingTasks()`: the posted commands are dropped, the adapter untouched. */
  function ClearBluetooth(b: Bench): (r: Bench)
    ensures r.bluetooth == [] && Callbacks(r) == Callbacks(b)
    ensures r.session == b.session && r.ui == b.ui
  {
    b.(bluetooth := [])
  }

  function AddSessions(b: Bench, n: nat): Bench
    decreases n
  {
    if n == 0 then b else AddSessions(AddSession(b), n - 1)
  }

  function RemoveSessions(b: Bench, n: nat): Bench
    decreases n
  {
    if n == 0 then b else RemoveSessions(RemoveSession(b), n - 1)
  }

  /** Removes a session and runs the ui tasks, `n` times. */
  function RemoveAndRun(b: Bench, n: nat): Bench
    decreases n
  {
    if n == 0 then b else RemoveAndRun(RunUi(RemoveSession(b)), n - 1)
  }

  /** The request tokens `first`, `first + 1`, ..., `n` of them. */
  function Tokens(first: RequestId, n: nat): (r: seq<RequestId>)
    ensures |r| == n
    decreases n
  {
    if n == 0 then [] else [first] + Tokens(first + 1, n - 1)
  }

  /** From idle, a start request is queued and the start command posted. */
  lemma AddWhenIdle(b: Bench)
    requires b.session == Idle
    ensures AddSession(b)
            == b.(session := Idle.(status := DiscoveryStarting, startRequests := [b.nextId]),
                  nextId := b.nextId + 1, bluetooth := b.bluetooth + [StartDiscovery])
  {
    var o := AddDiscoverySession(b.session, b.nextId);
    assert o == Outcome(Idle.(status := DiscoveryStarting, startRequests := [b.nextId]),
                        PostCommand(StartDiscovery));
  }

  /** While a start is in flight, a start request only joins the start queue. */
  lemma AddWhileStarting(b: Bench)
    requires b.session.status == DiscoveryStarting
    ensures AddSession(b)
            == b.(session := b.session.(startRequests := b.session.startRequests + [b.nextId]),
                  nextId := b.nextId + 1)
  {
    var o := AddDiscoverySession(b.session, b.nextId);
    assert o == Outcome(b.session.(startRequests := b.session.startRequests + [b.nextId]), NoEffects);
  }

  /** While a start is in flight, a stop request only joins the stop queue. */
  lemma RemoveWhileStarting(b: Bench)
    requires b.session.status == DiscoveryStarting
    ensures RemoveSession(b)
            == b.(session := b.session.(stopRequests := b.session.stopRequests + [b.nextId]),
                  nextId := b.nextId + 1)
  {
    var o := RemoveDiscoverySession(b.session, b.nextId);
    assert o == Outcome(b.session.(stopRequests := b.session.stopRequests + [b.nextId]), NoEffects);
  }

  /** While discovering, a start request joins at once and its success callback runs. */
  lemma AddWhileDiscovering(b: Bench)
    requires b.session.status == Discovering
    ensures AddSession(b)
            == b.(session := b.session.(listeners := b.session.listeners + 1),
                  nextId := b.nextId + 1, startCallbacks := b.startCallbacks + 1)
  {
    var o := AddDiscoverySession(b.session, b.nextId);
    assert o == Outcome(b.session.(listeners := b.session.listeners + 1),
                        Effects([StartSucceeded(b.nextId)], [], [], []));
    RunOne(b.(session := o.session, nextId := b.nextId + 1), StartSucceeded(b.nextId));
  }

  /** While more than one session is open, a stop request succeeds through the ui runner. */
  lemma RemoveWhileShared(b: Bench)
    requires b.session == Idle.(status := Discovering, listeners := b.session.listeners)
    requires b.session.listeners > 1
    ensures RemoveSession(b)
            == b.(session := b.session.(listeners := b.session.listeners - 1),
                  nextId := b.nextId + 1, ui := b.ui + [StopSucceeded(b.nextId)])
  {
    var o := RemoveDiscoverySession(b.session, b.nextId);
    assert [b.nextId] == [] + [b.nextId];
    assert o.effects == PostToUi([StopSucceeded(b.nextId)]);
  }

  /** Removing the last session posts the stop command; the adapter still reports discovering. */
  lemma RemoveLast(b: Bench)
    requires b.session == Idle.(status := Discovering, listeners := 1)
    ensures RemoveSession(b)
            == b.(session := Idle.(status := DiscoveryStopping, stopRequests := [b.nextId], listeners := 1),
                  nextId := b.nextId + 1, bluetooth := b.bluetooth + [StopDiscovery])
  {
    var o := RemoveDiscoverySession(b.session, b.nextId);
    assert o == Outcome(Idle.(status := DiscoveryStopping, stopRequests := [b.nextId], listeners := 1),
                        PostCommand(StopDiscovery));
  }

  /** A confirmed stop with no start queued: the queued stops succeed and the adapter is idle. */
  lemma StopConfirmed(b: Bench)
    requires b.session.status == DiscoveryStopping && b.session.startRequests == []
    ensures Stopped(b)
            == b.(session := Idle, ui := b.ui + StopResults(b.session.stopRequests),
                  discoveringChanged := b.discoveringChanged + 1)
  {
    var o := DiscoveryStopped(b.session);
    assert o == Outcome(Idle, Effects([], StopResults(b.session.stopRequests), [], [false]));
  }

  /** A confirmed start with no stop queued: every start request becomes a session. */
  lemma StartConfirmed(b: Bench)
    requires b.session.status == DiscoveryStarting && b.session.startRequests != []
    requires b.session.stopRequests == []
    ensures Started(b, true)
            == b.(session := Idle.(status := Discovering, listeners := |b.session.startRequests|),
                  ui := b.ui + StartResults(b.session.startRequests, true),
                  discoveringChanged := b.discoveringChanged + 1)
  {
    var o := DiscoveryStarted(b.session, true);
    assert o.session == Idle.(status := Discovering, listeners := |b.session.startRequests|);
    assert o.effects == Effects([], StartResults(b.session.startRequests, true), [], [true]);
  }

  /** A failed start answers the queued starts with errors and the queued stops with success. */
  lemma StartRejected(b: Bench)
    requires b.session.status == DiscoveryStarting
    ensures Started(b, false)
            == b.(session := Idle,
                  ui := b.ui + (StartResults(b.session.startRequests, false)
                                + StopResults(b.session.stopRequests)))
  {
    var o := DiscoveryStarted(b.session, false);
    assert o.effects == Effects([], StartResults(b.session.startRequests, false)
                                     + StopResults(b.session.stopRequests), [], []);
  }

  lemma RunOne(b: Bench, c: Continuation)
    ensures RunAll(b, [c]) == Run(b, c)
  {
    assert [c][1..] == [];
  }

  lemma {:induction false} RunStartResults(b: Bench, ids: seq<RequestId>, success: bool)
    ensures RunAll(b, StartResults(ids, success))
            == if success then b.(startCallbacks := b.startCallbacks + |ids|)
               else b.(startErrorCallbacks := b.startErrorCallbacks + |ids|)
    decreases |ids|
  {
    if ids != [] {
      RunStartResults(Run(b, StartResults(ids, success)[0]), ids[1..], success);
    }
  }

  lemma {:induction false} RunStopResults(b: Bench, ids: seq<RequestId>)
    ensures RunAll(b, StopResults(ids)) == b.(stopCallbacks := b.stopCallbacks + |ids|)
    decreases |ids|
  {
    if ids != [] {
      RunStopResults(Run(b, StopSucceeded(ids[0])), ids[1..]);
    }
  }

  /** Start requests made while a start is in flight only join its queue. */
  lemma {:induction false} AddsWhileStarting(b: Bench, n: nat)
    requires b.session.status == DiscoveryStarting
    ensures AddSessions(b, n)
            == b.(session := b.session.(startRequests := b.session.startRequests + Tokens(b.nextId, n)),
                  nextId := b.nextId + n)
    decreases n
  {
    if n == 0 {
      assert b.session.startRequests + [] == b.session.startRequests;
    } else {
      AddWhileStarting(b);
      var b1 := AddSession(b);
      AddsWhileStarting(b1, n - 1);
      assert b.session.startRequests + [b.nextId] + Tokens(b.nextId + 1, n - 1)
             == b.session.startRequests + Tokens(b.nextId, n);
    }
  }

  /** `n` start requests from a fresh adapter queue behind one start command. */
  lemma StartBurst(n: nat)
    requires n >= 1
    ensures AddSessions(Fresh, n)
            == Fresh.(session := Idle.(status := DiscoveryStarting, startRequests := Tokens(0, n)),
                      nextId := n, bluetooth := [StartDiscovery])
  {
    AddWhenIdle(Fresh);
    AddsWhileStarting(AddSession(Fresh), n - 1);
  }

  /**
   N start requests made before the hardware answers post exactly one start
   command (after the `k`-th of them, too) and nothing to the ui runner; a
   successful start then runs all N success callbacks, the adapter is
   discovering, and observers heard one discovering-changed event.
   */
  lemma MultipleStartDiscoveries(n: nat, k: nat)
    requires 1 <= k <= n
    ensures |AddSessions(ClearBluetooth(Fresh), k).bluetooth| == 1
    ensures var queued := AddSessions(ClearBluetooth(Fresh), n);
            && queued.ui == [] && !ReportsDiscovering(queued) && queued.startCallbacks == 0
            && var done := RunUi(Started(queued, true));
               && ReportsDiscovering(done)
               && done.startCallbacks == n
               && done.discoveringChanged == 1
  {
    assert ClearBluetooth(Fresh) == Fresh;
    StartBurst(k);
    StartBurst(n);
    BurstConfirmed(AddSessions(Fresh, n), n);
  }

  /** A successful start answers a burst of `n` queued start requests. */
  lemma BurstConfirmed(b: Bench, n: nat)
    requires n >= 1
    requires b == Fresh.(session := Idle.(status := DiscoveryStarting, startRequests := Tokens(0, n)),
                         nextId := n, bluetooth := [StartDiscovery])
    ensures RunUi(Started(b, true))
            == b.(session := Idle.(status := Discovering, listeners := n),
                  startCallbacks := n, discoveringChanged := 1)
  {
    StartConfirmed(b);
    var started := Started(b, true);
    assert started.ui == StartResults(Tokens(0, n), true);
    RunStartResults(started.(ui := []), Tokens(0, n), true);
  }

  /**
   N start requests answered by a failed start run all N error callbacks;
   the adapter is not discovering and observers heard nothing.
   */
  lemma MultipleStartDiscoveriesFailure(n: nat)
    requires n >= 1
    ensures var done := RunUi(Started(AddSessions(Fresh, n), false));
            && !ReportsDiscovering(done)
            && done.startErrorCallbacks == n
            && done.startCallbacks == 0
            && done.discoveringChanged == 0
  {
    StartBurst(n);
    StartRejected(AddSessions(Fresh, n));
    var started := Started(AddSessions(Fresh, n), false);
    assert started.ui == StartResults(Tokens(0, n), false) + [];
    RunStartResults(started.(ui := []), Tokens(0, n), false);
  }

  /** The fixture once one start request has been confirmed and its callback run. */
  function DiscoveringBench(): Bench
  {
    RunUi(Started(AddSession(Fresh), true))
  }

  lemma DiscoveringBenchState()
    ensures DiscoveringBench()
            == Fresh.(session := Idle.(status := Discovering, listeners := 1), nextId := 1,
                      bluetooth := [StartDiscovery], startCallbacks := 1, discoveringChanged := 1)
  {
    AddWhenIdle(Fresh);
    OneStartConfirmed(AddSession(Fresh));
  }

  /** A successful start over the one queued start request. */
  lemma OneStartConfirmed(b: Bench)
    requires b == Fresh.(session := Idle.(status := DiscoveryStarting, startRequests := [0]),
                         nextId := 1, bluetooth := [StartDiscovery])
    ensures RunUi(Started(b, true))
            == b.(session := Idle.(status := Discovering, listeners := 1),
                  startCallbacks := 1, discoveringChanged := 1)
  {
    StartConfirmed(b);
    var started := Started(b, true);
    assert started.ui == [StartSucceeded(0)];
    RunOne(started.(ui := []), StartSucceeded(0));
  }

  /** Start requests made while discovering join at once. */
  lemma {:induction false} AddsWhileDiscovering(b: Bench, n: nat)
    requires b.session.status == Discovering
    ensures AddSessions(b, n)
            == b.(session := b.session.(listeners := b.session.listeners + n),
                  nextId := b.nextId + n, startCallbacks := b.startCallbacks + n)
    decreases n
  {
    if n > 0 {
      AddWhileDiscovering(b);
      AddsWhileDiscovering(AddSession(b), n - 1);
    }
  }

  /**
   While already discovering, every further start request runs its success
   callback at once, posts nothing to either task runner and leaves the
   discovering-changed count at one: after `k` more requests, `1 + k`
   success callbacks have run.
   */
  lemma MultipleStartDiscoveriesAfterDiscovering(k: nat)
    ensures var b := AddSessions(ClearBluetooth(DiscoveringBench()), k);
            && ReportsDiscovering(b)
            && b.bluetooth == [] && b.ui == []
            && b.startCallbacks == 1 + k
            && b.discoveringChanged == 1
  {
    var b := ClearBluetooth(DiscoveringBench());
    assert b == Fresh.(session := Idle.(status := Discovering, listeners := 1), nextId := 1,
                       startCallbacks := 1, discoveringChanged := 1) by {
      DiscoveringBenchState();
    }
    AddsWhileDiscovering(b, k);
  }

  /** After a failed start, a new start request is served normally. */
  lemma StartDiscoveryAfterDiscoveringFailure()
    ensures var failed := RunUi(Started(AddSession(Fresh), false));
            && !ReportsDiscovering(failed) && failed.startErrorCallbacks == 1
            && var done := RunUi(Started(AddSession(failed), true));
               ReportsDiscovering(done) && done.startCallbacks == 1
  {
    AddWhenIdle(Fresh);
    var b1 := AddSession(Fresh);
    StartRejected(b1);
    var b2 := Started(b1, false);
    assert b2.ui == StartResults([0], false) + [];
    RunStartResults(b2.(ui := []), [0], false);
    var failed := RunUi(b2);
    AddWhenIdle(failed);
    var b3 := AddSession(failed);
    StartConfirmed(b3);
    var b4 := Started(b3, true);
    RunStartResults(b4.(ui := []), [1], true);
  }

  /** Stop requests made while more sessions remain succeed at once and touch no hardware. */
  lemma {:induction false} RemovesWhileShared(b: Bench, n: nat)
    requires b.session == Idle.(status := Discovering, listeners := b.session.listeners)
    requires n < b.session.listeners && b.ui == []
    ensures RemoveAndRun(b, n)
            == b.(session := b.session.(listeners := b.session.listeners - n),
                  nextId := b.nextId + n, stopCallbacks := b.stopCallbacks + n)
    decreases n
  {
    if n > 0 {
      RemoveWhileShared(b);
      var b1 := RemoveSession(b);
      assert b1.ui == [StopSucceeded(b.nextId)];
      RunOne(b1.(ui := []), StopSucceeded(b.nextId));
      RemovesWhileShared(RunUi(b1), n - 1);
    }
  }

  /** The fixture once `n` start requests have been confirmed and both runners cleared. */
  function SharedBench(n: nat): Bench
  {
    ClearBluetooth(ClearUi(Started(AddSessions(Fresh, n), true)))
  }

  lemma SharedBenchState(n: nat)
    requires n >= 1
    ensures SharedBench(n)
            == Fresh.(session := Idle.(status := Discovering, listeners := n), nextId := n,
                      discoveringChanged := 1)
  {
    StartBurst(n);
  }

  /**
   With N sessions open, the first N - 1 stop requests post no command and
   each runs its callback; the last posts exactly one stop command while the
   adapter still reports discovering. Once the hardware confirms, the adapter
   is idle, all N stop callbacks ran, and observers heard two
   discovering-changed events.
   */
  lemma MultipleStopDiscoveries(n: nat, k: nat)
    requires k < n
    ensures k < n - 1 ==> RemoveSession(RemoveAndRun(SharedBench(n), k)).bluetooth == []
    ensures RemoveAndRun(SharedBench(n), k).stopCallbacks == k
    ensures var last := RemoveSession(RemoveAndRun(SharedBench(n), n - 1));
            && |last.bluetooth| == 1
            && ReportsDiscovering(last)
            && last.stopCallbacks == n - 1
            && Stopped(ClearBluetooth(last)).bluetooth == []
            && var done := RunUi(Stopped(last));
               && !ReportsDiscovering(done)
               && done.stopCallbacks == n
               && done.discoveringChanged == 2
  {
    SharedBenchState(n);
    var b := SharedBench(n);
    RemovesWhileShared(b, k);
    if k < n - 1 {
      RemoveWhileShared(RemoveAndRun(b, k));
    }
    RemovesWhileShared(b, n - 1);
    LastStop(RemoveAndRun(b, n - 1), n);
  }

  /** The last of N stop requests, and the hardware's confirmation. */
  lemma LastStop(before: Bench, n: nat)
    requires n >= 1
    requires before == Fresh.(session := Idle.(status := Discovering, listeners := 1),
                              nextId := n + n - 1, stopCallbacks := n - 1, discoveringChanged := 1)
    ensures var last := RemoveSession(before);
            && |last.bluetooth| == 1
            && ReportsDiscovering(last)
            && last.stopCallbacks == n - 1
            && Stopped(ClearBluetooth(last)).bluetooth == []
            && var done := RunUi(Stopped(last));
               && !ReportsDiscovering(done)
               && done.stopCallbacks == n
               && done.discoveringChanged == 2
  {
    RemoveLast(before);
    var last := RemoveSession(before);
    StopConfirmed(last);
    StopConfirmed(ClearBluetooth(last));
    var stopped := Stopped(last);
    assert stopped.ui == StopResults([n + n - 1]);
    RunStopResults(stopped.(ui := []), [n + n - 1]);
  }

  /**
   With two sessions open, the first stop request posts nothing and the
   second posts exactly one stop command.
   */
  lemma StartDiscoveryAndStartDiscoveryAndStopDiscoveries()
    ensures var b := ClearBluetooth(ClearUi(AddSession(Started(AddSession(Fresh), true))));
            && RemoveSession(b).bluetooth == []
            && |RemoveSession(RemoveSession(b)).bluetooth| == 1
  {
    var b1 := Started(AddSession(Fresh), true);
    assert b1.session == Idle.(status := Discovering, listeners := 1);
  }

  /** Start, stop and start again, each confirmed by the hardware. */
  lemma StartDiscoveryAndStopDiscoveryAndStartDiscovery()
    ensures var b1 := Started(AddSession(Fresh), true);
            && ReportsDiscovering(b1)
            && var b2 := Stopped(RemoveSession(b1));
               && !ReportsDiscovering(b2)
               && ReportsDiscovering(Started(AddSession(b2), true))
  {
    var b1 := Started(AddSession(Fresh), true);
    assert b1.session == Idle.(status := Discovering, listeners := 1);
    var b2 := Stopped(RemoveSession(b1));
    assert b2.session == Idle;
  }

  /** A start request made while the stop is in flight is replayed by posting one start command. */
  lemma StartDiscoveryBeforeDiscoveryStopped()
    ensures var b := ClearBluetooth(AddSession(RemoveSession(Started(AddSession(Fresh), true))));
            Stopped(b).bluetooth == [StartDiscovery]
  {
    var b1 := Started(AddSession(Fresh), true);
    assert b1.session == Idle.(status := Discovering, listeners := 1);
  }

  /** A stop request with no session and no start pending runs its error callback at once. */
  lemma StopDiscoveryWithoutStartDiscovery()
    ensures RemoveSession(Fresh).stopErrorCallbacks == 1
    ensures RemoveSession(Fresh).bluetooth == [] && RemoveSession(Fresh).ui == []
  {
  }

  /** A stop request made while the start is in flight makes the successful start post one stop command. */
  lemma StopDiscoveryBeforeDiscoveryStarted()
    ensures var b := ClearBluetooth(RemoveSession(AddSession(Fresh)));
            Started(b, true).bluetooth == [StopDiscovery]
  {
  }

  /**
   `starts` start requests and fewer stop requests, all made before the
   start completes, net out: the successful start posts no command and every
   start and stop callback runs.
   */
  lemma StartAndStopBeforeDiscoveryStarted(starts: nat, stops: nat)
    requires stops < starts
    ensures var b := ClearBluetooth(RemoveSessions(AddSessions(Fresh, starts), stops));
            && Started(b, true).bluetooth == []
            && RunUi(Started(b, true)).startCallbacks == starts
            && RunUi(Started(b, true)).stopCallbacks == stops
  {
    StartBurst(starts);
    var b0 := AddSessions(Fresh, starts);
    RemovesWhileStarting(b0, stops);
    var b := ClearBluetooth(RemoveSessions(b0, stops));
    assert b.session == Idle.(status := DiscoveryStarting, startRequests := Tokens(0, starts),
                              stopRequests := Tokens(starts, stops));
    assert b.ui == [];
    var s1 := b.session.(status := Discovering, startRequests := [], listeners := starts);
    assert MaybePostStop(s1).effects == PostToUi(StopResults(Tokens(starts, stops)));
    var started := Started(b, true);
    assert started.ui == StartResults(Tokens(0, starts), true) + StopResults(Tokens(starts, stops));
    RunStartResults(started.(ui := []), Tokens(0, starts), true);
    RunAllAppend(started.(ui := []), StartResults(Tokens(0, starts), true), StopResults(Tokens(starts, stops)));
    RunStopResults(RunAll(started.(ui := []), StartResults(Tokens(0, starts), true)), Tokens(starts, stops));
  }

  /** Stop requests made while a start is in flight only join the stop queue. */
  lemma {:induction false} RemovesWhileStarting(b: Bench, n: nat)
    requires b.session.status == DiscoveryStarting
    ensures RemoveSessions(b, n)
            == b.(session := b.session.(stopRequests := b.session.stopRequests + Tokens(b.nextId, n)),
                  nextId := b.nextId + n)
    decreases n
  {
    if n == 0 {
      assert b.session.stopRequests + [] == b.session.stopRequests;
    } else {
      RemoveWhileStarting(b);
      var b1 := RemoveSession(b);
      RemovesWhileStarting(b1, n - 1);
      assert b.session.stopRequests + [b.nextId] + Tokens(b.nextId + 1, n - 1)
             == b.session.stopRequests + Tokens(b.nextId, n);
    }
  }

  lemma {:induction false} RunAllAppend(b: Bench, a: seq<Continuation>, c: seq<Continuation>)
    ensures RunAll(b, a + c) == RunAll(RunAll(b, a), c)
    decreases |a|
  {
    if a == [] {
      assert a + c == c;
    } else {
      assert (a + c)[0] == a[0] && (a + c)[1..] == a[1..] + c;
      RunAllAppend(Run(b, a[0]), a[1..], c);
    }
  }

  /**
   A stop request queued behind a start that fails: the start's error
   callback and the stop's success callback each run once, and observers
   hear nothing.
   */
  lemma StopDiscoveryBeforeDiscoveryStartedAndFailed()
    ensures var done := RunUi(Started(ClearUi(RemoveSession(AddSession(Fresh))), false));
            && done.startErrorCallbacks == 1
            && done.stopCallbacks == 1
            && done.discoveringChanged == 0
  {
    AddWhenIdle(Fresh);
    RemoveWhileStarting(AddSession(Fresh));
    var b := ClearUi(RemoveSession(AddSession(Fresh)));
    assert b.session == Idle.(status := DiscoveryStarting, startRequests := [0], stopRequests := [1]);
    StartRejected(b);
    var failed := Started(b, false);
    assert failed.ui == StartResults([0], false) + StopResults([1]);
    RunAllAppend(failed.(ui := []), StartResults([0], false), StopResults([1]));
    RunStartResults(failed.(ui := []), [0], false);
    RunStopResults(RunAll(failed.(ui := []), StartResults([0], false)), [1]);
  }
}
