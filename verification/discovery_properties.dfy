/**
 Invariants of the discovery coordinator, stated per step and along whole
 traces of caller requests and hardware completions.

 The hardware is modelled as the queue of commands it has been given and not
 yet answered; it answers only the oldest of them. Under that protocol the
 coordinator keeps at most one command outstanding, notifies observers only
 when the visible discovering flag flips, and answers every request exactly
 once.
 */
module DiscoveryProperties {
  import opened Discovery

  datatype Input =
    | AddSession(id: RequestId)
    | RemoveSession(id: RequestId)
    | StartCompleted(success: bool)   // DiscoveryStarted(success)
    | StopCompleted                   // DiscoveryStopped()

  predicate IsCompletion(i: Input)
  {
    i.StartCompleted? || i.StopCompleted?
  }

  function Handle(s: Session, i: Input): Outcome
  {
    match i
    case AddSession(id) => AddDiscoverySession(s, id)
    case RemoveSession(id) => RemoveDiscoverySession(s, id)
    case StartCompleted(ok) => DiscoveryStarted(s, ok)
    case StopCompleted => DiscoveryStopped(s)
  }

  /** The command the coordinator is waiting on, as a queue of length at most one. */
  function InFlight(s: Session): (r: seq<Command>)
    ensures |r| <= 1
  {
    match s.status
    case DiscoveryStarting => [StartDiscovery]
    case DiscoveryStopping => [StopDiscovery]
    case _ => []
  }

  /** A completion is delivered only while the matching command is outstanding. */
  predicate Enabled(s: Session, i: Input)
  {
    match i
    case StartCompleted(_) => s.status == DiscoveryStarting
    case StopCompleted => s.status == DiscoveryStopping
    case _ => true
  }

  /**
   The invariant of the coordinator: `Idle` satisfies it and every enabled
   step keeps it, so every state reachable from `Idle` satisfies it. While
   stopping, the queued stops cover every open session.
   */
  predicate Valid(s: Session)
  {
    match s.status
    case NotDiscovering => s.startRequests == [] && s.stopRequests == [] && s.listeners == 0
    case DiscoveryStarting => s.startRequests != [] && s.listeners == 0
    case Discovering => s.startRequests == [] && s.stopRequests == [] && s.listeners > 0
    case DiscoveryStopping => s.stopRequests != [] && 0 < s.listeners <= |s.stopRequests|
  }

  /**
   Single flight, one step at a time: the commands outstanding after the step
   (those outstanding before, less the one just answered, plus those posted)
   are exactly the one command the new state waits for.
   */
  lemma StepKeepsSingleFlight(s: Session, i: Input)
    requires Valid(s) && Enabled(s, i)
    ensures Valid(Handle(s, i).session)
    ensures (if IsCompletion(i) then [] else InFlight(s)) + Handle(s, i).effects.commands
            == InFlight(Handle(s, i).session)
    ensures |Handle(s, i).effects.commands| <= 1
    ensures !IsCompletion(i) && InFlight(s) != [] ==> Handle(s, i).effects.commands == []
  {
  }

  /**
   Edge-triggered notification: a step notifies observers exactly when the
   visible discovering flag flips, once, with the new value.
   */
  lemma StepNotifiesOnlyFlips(s: Session, i: Input)
    requires Enabled(s, i)
    ensures var r := Handle(s, i);
            r.effects.changes
            == (if IsDiscovering(s) != IsDiscovering(r.session) then [IsDiscovering(r.session)] else [])
  {
  }

  /** The request id a continuation answers, if it answers a start request. */
  function StartIdOf(c: Continuation): seq<RequestId>
  {
    if c.StartSucceeded? || c.StartFailed? then [c.id] else []
  }

  /** The request id a continuation answers, if it answers a stop request. */
  function StopIdOf(c: Continuation): seq<RequestId>
  {
    if c.StopSucceeded? || c.StopFailed? then [c.id] else []
  }

  /** The request ids answered by start continuations, in order. */
  function StartIds(cs: seq<Continuation>): seq<RequestId>
  {
    if cs == [] then [] else StartIdOf(cs[0]) + StartIds(cs[1..])
  }

  /** The request ids answered by stop continuations, in order. */
  function StopIds(cs: seq<Continuation>): seq<RequestId>
  {
    if cs == [] then [] else StopIdOf(cs[0]) + StopIds(cs[1..])
  }

  lemma {:induction false} StartIdsAppend(a: seq<Continuation>, b: seq<Continuation>)
    ensures StartIds(a + b) == StartIds(a) + StartIds(b)
  {
    if a == [] {
      assert a + b == b;
    } else {
      var c := a + b;
      assert c[0] == a[0] && c[1..] == a[1..] + b;
      StartIdsAppend(a[1..], b);
      assert StartIds(c) == StartIdOf(a[0]) + (StartIds(a[1..]) + StartIds(b));
    }
  }

  lemma {:induction false} StopIdsAppend(a: seq<Continuation>, b: seq<Continuation>)
    ensures StopIds(a + b) == StopIds(a) + StopIds(b)
  {
    if a == [] {
      assert a + b == b;
    } else {
      var c := a + b;
      assert c[0] == a[0] && c[1..] == a[1..] + b;
      StopIdsAppend(a[1..], b);
      assert StopIds(c) == StopIdOf(a[0]) + (StopIds(a[1..]) + StopIds(b));
    }
  }

  /** Start results answer exactly the given start requests, in order. */
  lemma {:induction false} StartResultsAnswer(ids: seq<RequestId>, success: bool)
    ensures StartIds(StartResults(ids, success)) == ids
    ensures StopIds(StartResults(ids, success)) == []
  {
    if ids != [] {
      StartResultsAnswer(ids[1..], success);
    }
  }

  /** Stop results answer exactly the given stop requests, in order. */
  lemma {:induction false} StopResultsAnswer(ids: seq<RequestId>)
    ensures StopIds(StopResults(ids)) == ids
    ensures StartIds(StopResults(ids)) == []
  {
    if ids != [] {
      StopResultsAnswer(ids[1..]);
    }
  }

  /** The request a step brings in, if any. */
  function Arriving(i: Input, start: bool): multiset<RequestId>
  {
    match i
    case AddSession(id) => if start then multiset{id} else multiset{}
    case RemoveSession(id) => if start then multiset{} else multiset{id}
    case _ => multiset{}
  }

  /**
   Exactly-once answering: every request is either still queued or answered
   by this step, never both and never twice, for start and stop requests
   separately. A completion answers its whole queue in arrival order.
   */
  lemma StepAnswersEachRequestOnce(s: Session, i: Input)
    ensures var r := Handle(s, i);
            multiset(r.session.startRequests) + multiset(StartIds(Resolved(r.effects)))
            == multiset(s.startRequests) + Arriving(i, true)
    ensures var r := Handle(s, i);
            multiset(r.session.stopRequests) + multiset(StopIds(Resolved(r.effects)))
            == multiset(s.stopRequests) + Arriving(i, false)
    ensures i.StartCompleted? ==> StartIds(Resolved(Handle(s, i).effects)) == s.startRequests
    ensures i.StopCompleted? ==> StopIds(Resolved(Handle(s, i).effects)) == s.stopRequests
  {
    match i
    case AddSession(id) =>
      AddAnswers(s, id);
    case RemoveSession(id) =>
      RemoveAnswers(s, id);
    case StartCompleted(ok) =>
      StartCompletionAccounts(s, ok);
    case StopCompleted =>
      StopCompletionAccounts(s);
  }

  lemma StartCompletionAccounts(s: Session, success: bool)
    ensures var r := DiscoveryStarted(s, success);
            && multiset(r.session.startRequests) + multiset(StartIds(Resolved(r.effects)))
               == multiset(s.startRequests)
            && multiset(r.session.stopRequests) + multiset(StopIds(Resolved(r.effects)))
               == multiset(s.stopRequests)
            && StartIds(Resolved(r.effects)) == s.startRequests
  {
    var r := DiscoveryStarted(s, success);
    StartCompletionAnswers(s, success);
    assert multiset(StopIds(Resolved(r.effects)) + r.session.stopRequests) == multiset(s.stopRequests);
  }

  lemma StopCompletionAccounts(s: Session)
    ensures var r := DiscoveryStopped(s);
            && multiset(r.session.startRequests) + multiset(StartIds(Resolved(r.effects)))
               == multiset(s.startRequests)
            && multiset(r.session.stopRequests) + multiset(StopIds(Resolved(r.effects)))
               == multiset(s.stopRequests)
            && StopIds(Resolved(r.effects)) == s.stopRequests
  {
    var r := DiscoveryStopped(s);
    assert Resolved(r.effects) == StopResults(s.stopRequests);
    StopResultsAnswer(s.stopRequests);
  }

  lemma AddAnswers(s: Session, id: RequestId)
    ensures var r := AddDiscoverySession(s, id);
            && multiset(r.session.startRequests) + multiset(StartIds(Resolved(r.effects)))
               == multiset(s.startRequests) + multiset{id}
            && multiset(r.session.stopRequests) + multiset(StopIds(Resolved(r.effects)))
               == multiset(s.stopRequests)
  {
    var r := AddDiscoverySession(s, id);
    if s.status == Discovering {
      assert Resolved(r.effects) == [StartSucceeded(id)];
      assert StartIds([StartSucceeded(id)]) == [id];
    } else {
      assert Resolved(r.effects) == [];
    }
  }

  lemma RemoveAnswers(s: Session, id: RequestId)
    ensures var r := RemoveDiscoverySession(s, id);
            && multiset(r.session.stopRequests) + multiset(StopIds(Resolved(r.effects)))
               == multiset(s.stopRequests) + multiset{id}
            && multiset(r.session.startRequests) + multiset(StartIds(Resolved(r.effects)))
               == multiset(s.startRequests)
  {
    var r := RemoveDiscoverySession(s, id);
    var s1 := s.(stopRequests := s.stopRequests + [id]);
    if s.status == NotDiscovering {
      assert Resolved(r.effects) == [StopFailed(id)];
      assert StopIds([StopFailed(id)]) == [id];
    } else if s.status == Discovering && |s1.stopRequests| < s1.listeners {
      assert Resolved(r.effects) == StopResults(s1.stopRequests);
      StopResultsAnswer(s1.stopRequests);
    } else {
      assert Resolved(r.effects) == [];
    }
  }

  /**
   A start completion answers every queued start request in order; a
   confirmed start answers the queued stops too when they do not close every
   session, and a failed one always does.
   */
  lemma StartCompletionAnswers(s: Session, success: bool)
    ensures var r := DiscoveryStarted(s, success);
            && StartIds(Resolved(r.effects)) == s.startRequests
            && StopIds(Resolved(r.effects)) + r.session.stopRequests == s.stopRequests
  {
    if success {
      StartConfirmedAnswers(s);
    } else {
      StartRejectedAnswers(s);
    }
  }

  lemma StartConfirmedAnswers(s: Session)
    ensures var r := DiscoveryStarted(s, true);
            && StartIds(Resolved(r.effects)) == s.startRequests
            && StopIds(Resolved(r.effects)) + r.session.stopRequests == s.stopRequests
  {
    StartConfirmedResolves(s);
    ReplayAnswers(s.startRequests, s.(status := Discovering, startRequests := [], listeners := |s.startRequests|));
  }

  /**
   Start successes followed by the stops `MaybePostStop` replays answer the
   start requests, and the stops answered or still queued are the stop queue.
   */
  lemma ReplayAnswers(ids: seq<RequestId>, t: Session)
    requires t.status == Discovering
    ensures var next := MaybePostStop(t);
            && StartIds(StartResults(ids, true) + next.effects.toUi) == ids
            && StopIds(StartResults(ids, true) + next.effects.toUi) + next.session.stopRequests == t.stopRequests
  {
    var started := StartResults(ids, true);
    var next := MaybePostStop(t);
    var replayed := next.effects.toUi;
    StartResultsAnswer(ids, true);
    StartIdsAppend(started, replayed);
    StopIdsAppend(started, replayed);
    if |t.stopRequests| < t.listeners {
      assert replayed == StopResults(t.stopRequests) && next.session.stopRequests == [];
      StopResultsAnswer(t.stopRequests);
      assert ids + [] == ids;
      assert [] + t.stopRequests + [] == t.stopRequests;
    } else {
      assert replayed == [] && next.session.stopRequests == t.stopRequests;
      assert ids + [] == ids;
      assert [] + [] + t.stopRequests == t.stopRequests;
    }
  }

  /** A confirmed start answers the start queue, then whatever the replayed stops answer. */
  lemma StartConfirmedResolves(s: Session)
    ensures var next := MaybePostStop(s.(status := Discovering, startRequests := [], listeners := |s.startRequests|));
            && Resolved(DiscoveryStarted(s, true).effects) == StartResults(s.startRequests, true) + next.effects.toUi
            && DiscoveryStarted(s, true).session == next.session
  {
    var r := DiscoveryStarted(s, true);
    var next := MaybePostStop(s.(status := Discovering, startRequests := [], listeners := |s.startRequests|));
    var started := StartResults(s.startRequests, true);
    assert r.effects.ranNow == [] && next.effects.ranNow == [];
    assert r.effects.toUi == started + [] + next.effects.toUi;
    assert started + [] == started;
  }

  lemma StartRejectedAnswers(s: Session)
    ensures var r := DiscoveryStarted(s, false);
            && StartIds(Resolved(r.effects)) == s.startRequests
            && StopIds(Resolved(r.effects)) + r.session.stopRequests == s.stopRequests
  {
    var r := DiscoveryStarted(s, false);
    var started, stopped := StartResults(s.startRequests, false), StopResults(s.stopRequests);
    assert Resolved(r.effects) == started + stopped && r.session.stopRequests == [] by {
      StartRejectedResolves(s);
    }
    assert StartIds(started + stopped) == s.startRequests by {
      StartResultsAnswer(s.startRequests, false);
      StopResultsAnswer(s.stopRequests);
      StartIdsAppend(started, stopped);
      assert s.startRequests + [] == s.startRequests;
    }
    assert StopIds(started + stopped) == s.stopRequests by {
      StartResultsAnswer(s.startRequests, false);
      StopResultsAnswer(s.stopRequests);
      StopIdsAppend(started, stopped);
      assert [] + s.stopRequests == s.stopRequests;
    }
    assert s.stopRequests + [] == s.stopRequests;
  }

  /** A failed start answers the start queue with errors, then the stop queue with successes. */
  lemma StartRejectedResolves(s: Session)
    ensures DiscoveryStarted(s, false).session.stopRequests == []
    ensures Resolved(DiscoveryStarted(s, false).effects)
            == StartResults(s.startRequests, false) + StopResults(s.stopRequests)
  {
    var r := DiscoveryStarted(s, false);
    var answered := r.effects.toUi;
    assert r.effects.ranNow == [];
    assert Resolved(r.effects) == [] + answered;
    assert [] + answered == answered;
  }

  /**
   The coordinator together with the hardware: `hardware` holds the commands
   posted and not yet answered, `changes` every discovering-changed
   notification so far.
   */
  datatype World = World(session: Session, hardware: seq<Command>, changes: seq<bool>)

  const Initial := World(Idle, [], [])

  /** The hardware answers only the oldest command it was given, with its own kind. */
  predicate Answers(hardware: seq<Command>, i: Input)
  {
    match i
    case StartCompleted(_) => hardware != [] && hardware[0] == StartDiscovery
    case StopCompleted => hardware != [] && hardware[0] == StopDiscovery
    case _ => true
  }

  function Deliver(w: World, i: Input): World
  {
    var r := Handle(w.session, i);
    var remaining := if IsCompletion(i) && w.hardware != [] then w.hardware[1..] else w.hardware;
    World(r.session, remaining + r.effects.commands, w.changes + r.effects.changes)
  }

  /** Every input of the trace is one the hardware protocol allows at its point. */
  predicate Admissible(w: World, inputs: seq<Input>)
    decreases |inputs|
  {
    inputs == [] || (Answers(w.hardware, inputs[0]) && Admissible(Deliver(w, inputs[0]), inputs[1..]))
  }

  function DeliverAll(w: World, inputs: seq<Input>): World
    decreases |inputs|
  {
    if inputs == [] then w else DeliverAll(Deliver(w, inputs[0]), inputs[1..])
  }

  /** Discovering-changed notifications so far alternate and end at the visible flag. */
  predicate Alternating(changes: seq<bool>, discovering: bool)
  {
    && (changes == [] ==> !discovering)
    && (changes != [] ==> changes[0] && changes[|changes| - 1] == discovering)
    && forall k :: 0 < k < |changes| ==> changes[k] != changes[k - 1]
  }

  predicate Coherent(w: World)
  {
    && Valid(w.session)
    && w.hardware == InFlight(w.session)
    && Alternating(w.changes, IsDiscovering(w.session))
  }

  lemma DeliverKeepsCoherent(w: World, i: Input)
    requires Coherent(w) && Answers(w.hardware, i)
    ensures Coherent(Deliver(w, i))
  {
    var r := Handle(w.session, i);
    assert Enabled(w.session, i);
    StepKeepsSingleFlight(w.session, i);
    StepNotifiesOnlyFlips(w.session, i);
    AlternatingStep(w.changes, IsDiscovering(w.session), IsDiscovering(r.session));
  }

  lemma AlternatingStep(changes: seq<bool>, before: bool, after: bool)
    requires Alternating(changes, before)
    ensures Alternating(changes + (if before != after then [after] else []), after)
  {
    if before != after {
      var c := changes + [after];
      forall k | 0 < k < |c|
        ensures c[k] != c[k - 1]
      {
        if k < |changes| {
          assert c[k] == changes[k] && c[k - 1] == changes[k - 1];
        }
      }
    } else {
      assert changes + [] == changes;
    }
  }

  /**
   Along every admissible trace from the constructed adapter: the hardware
   never holds more than one unanswered command, it is the one the
   coordinator waits for, and observers have seen discovering-changed
   notifications that alternate, start with `true` and end at the current
   visible flag.
   */
  lemma {:induction false} TracesKeepSingleFlight(w: World, inputs: seq<Input>)
    requires Coherent(w) && Admissible(w, inputs)
    ensures Coherent(DeliverAll(w, inputs))
    ensures |DeliverAll(w, inputs).hardware| <= 1
    decreases |inputs|
  {
    if inputs != [] {
      DeliverKeepsCoherent(w, inputs[0]);
      TracesKeepSingleFlight(Deliver(w, inputs[0]), inputs[1..]);
    }
  }

  /** The same, from the adapter as constructed. */
  lemma SingleFlightFromConstruction(inputs: seq<Input>)
    requires Admissible(Initial, inputs)
    ensures Valid(DeliverAll(Initial, inputs).session)
    ensures |DeliverAll(Initial, inputs).hardware| <= 1
    ensures DeliverAll(Initial, inputs).hardware == InFlight(DeliverAll(Initial, inputs).session)
  {
    TracesKeepSingleFlight(Initial, inputs);
  }
}
