/**
 The discovery-session coordinator of the Windows Bluetooth adapter.

 Callers add and remove discovery sessions without knowing about each other.
 The adapter keeps one status, two FIFO queues of pending requests (start and
 stop) and the number of sessions that currently hold discovery open. At most
 one hardware start/stop command is outstanding: a command is posted only on
 the transition into `DiscoveryStarting` or `DiscoveryStopping`, and the
 hardware's completion (`DiscoveryStarted` / `DiscoveryStopped`) resolves every
 request that waited on it and replays what was queued meanwhile.

 Every operation is a pure step that returns the new session record together
 with the effects it produced, in the order it produced them.
 */
module Discovery {

  /** The opaque token of one caller's request; it names its continuation. */
  type RequestId = nat

  datatype Status =
    | NotDiscovering
    | DiscoveryStarting   // a start command is outstanding
    | Discovering
    | DiscoveryStopping   // a stop command is outstanding

  datatype Session = Session(
    status: Status,
    startRequests: seq<RequestId>,  // start requests waiting for the hardware, oldest first
    stopRequests: seq<RequestId>,   // stop requests waiting for the hardware, oldest first
    listeners: nat)                 // sessions that currently hold discovery open

  /** The adapter as constructed: idle, nothing queued, no session. */
  const Idle := Session(NotDiscovering, [], [], 0)

  datatype Command = StartDiscovery | StopDiscovery

  /** The success or error continuation of one request. */
  datatype Continuation =
    | StartSucceeded(id: RequestId)
    | StartFailed(id: RequestId)
    | StopSucceeded(id: RequestId)
    | StopFailed(id: RequestId)

  /**
   What one step produced, per channel, each in the order it was produced.
   Continuations either run on the caller's own stack or are posted to the
   caller-facing task runner; commands are posted to the device-management
   task runner; `changes` are the discovering-changed observer notifications.
   */
  datatype Effects = Effects(
    ranNow: seq<Continuation>,
    toUi: seq<Continuation>,
    commands: seq<Command>,
    changes: seq<bool>)

  const NoEffects := Effects([], [], [], [])

  /** The effects of `a` followed by those of `b`. */
  function Then(a: Effects, b: Effects): Effects
  {
    Effects(a.ranNow + b.ranNow, a.toUi + b.toUi, a.commands + b.commands, a.changes + b.changes)
  }

  function PostToUi(cs: seq<Continuation>): Effects
  {
    Effects([], cs, [], [])
  }

  function PostCommand(cmd: Command): Effects
  {
    Effects([], [], [cmd], [])
  }

  function Notify(discovering: bool): Effects
  {
    Effects([], [], [], [discovering])
  }

  /** Every continuation a step answered, whether run now or posted. */
  function Resolved(e: Effects): seq<Continuation>
  {
    e.ranNow + e.toUi
  }

  datatype Outcome = Outcome(session: Session, effects: Effects)

  /** What the adapter reports to its clients: a stop in progress still counts. */
  predicate IsDiscovering(s: Session): (r: bool)
    ensures r <==> s.status !in {NotDiscovering, DiscoveryStarting}
  {
    s.status == Discovering || s.status == DiscoveryStopping
  }

  /** One continuation per start request, all of the same outcome. */
  function StartResults(ids: seq<RequestId>, success: bool): (r: seq<Continuation>)
    ensures |r| == |ids|
  {
    if ids == [] then []
    else [if success then StartSucceeded(ids[0]) else StartFailed(ids[0])] + StartResults(ids[1..], success)
  }

  /** One success continuation per stop request. */
  function StopResults(ids: seq<RequestId>): (r: seq<Continuation>)
    ensures |r| == |ids|
  {
    if ids == [] then [] else [StopSucceeded(ids[0])] + StopResults(ids[1..])
  }

  /** Issues the start command when requests wait and nothing is in flight. */
  function MaybePostStart(s: Session): (r: Outcome)
    ensures r.effects == NoEffects || r.effects == PostCommand(StartDiscovery)
    ensures r.effects != NoEffects <==> s.status == NotDiscovering && s.startRequests != []
    ensures r.effects != NoEffects ==> r.session == s.(status := DiscoveryStarting)
    ensures r.effects == NoEffects ==> r.session == s
  {
    if s.status == NotDiscovering && s.startRequests != [] then
      Outcome(s.(status := DiscoveryStarting), PostCommand(StartDiscovery))
    else
      Outcome(s, NoEffects)
  }

  /**
   While discovering, answers queued stop requests: if fewer stops wait than
   sessions are open they succeed at once and only the count drops; otherwise
   the last session is going away and the stop command is issued.
   */
  function MaybePostStop(s: Session): (r: Outcome)
    ensures s.status != Discovering ==> r == Outcome(s, NoEffects)
    ensures r.effects.ranNow == [] && r.effects.changes == []
    ensures r.session.startRequests == s.startRequests
    ensures s.status == Discovering && |s.stopRequests| < s.listeners ==>
              && r.session == s.(stopRequests := [], listeners := s.listeners - |s.stopRequests|)
              && r.session.listeners + |s.stopRequests| == s.listeners
              && r.effects == PostToUi(StopResults(s.stopRequests))
    ensures s.status == Discovering && s.listeners <= |s.stopRequests| ==>
              && r.session == s.(status := DiscoveryStopping)
              && r.effects == PostCommand(StopDiscovery)
  {
    if s.status != Discovering then
      Outcome(s, NoEffects)
    else if |s.stopRequests| < s.listeners then
      Outcome(s.(stopRequests := [], listeners := s.listeners - |s.stopRequests|),
              PostToUi(StopResults(s.stopRequests)))
    else
      Outcome(s.(status := DiscoveryStopping), PostCommand(StopDiscovery))
  }

  /**
   A caller asks for discovery. While discovering it joins at once and its
   success continuation runs synchronously; otherwise it is queued and a start
   command is posted unless one is already in flight.
   */
  function AddDiscoverySession(s: Session, id: RequestId): (r: Outcome)
    ensures IsDiscovering(r.session) == IsDiscovering(s)
    ensures r.effects.commands == [] || (s.status == NotDiscovering && r.effects.commands == [StartDiscovery])
    ensures r.effects.changes == [] && r.effects.toUi == []
    ensures s.status == Discovering ==>
              r.effects.ranNow == [StartSucceeded(id)] && r.session.listeners == s.listeners + 1
    ensures s.status != Discovering ==>
              r.effects.ranNow == [] && r.session.startRequests == s.startRequests + [id]
  {
    if s.status == Discovering then
      Outcome(s.(listeners := s.listeners + 1), Effects([StartSucceeded(id)], [], [], []))
    else
      MaybePostStart(s.(startRequests := s.startRequests + [id]))
  }

  /**
   A caller gives up its session. With no discovery at all the error
   continuation runs synchronously; otherwise the request is queued and
   answered by `MaybePostStop` when discovery is established.
   */
  function RemoveDiscoverySession(s: Session, id: RequestId): (r: Outcome)
    ensures IsDiscovering(r.session) == IsDiscovering(s)
    ensures r.effects.commands == [] || (s.status == Discovering && r.effects.commands == [StopDiscovery])
    ensures r.effects.changes == []
    ensures s.status == NotDiscovering ==> r == Outcome(s, Effects([StopFailed(id)], [], [], []))
    ensures s.status != NotDiscovering ==> r.session.startRequests == s.startRequests && r.effects.ranNow == []
    ensures s.status == DiscoveryStarting || s.status == DiscoveryStopping ==>
              r == Outcome(s.(stopRequests := s.stopRequests + [id]), NoEffects)
    ensures s.status == Discovering && |s.stopRequests| + 1 < s.listeners ==>
              && r.session == s.(stopRequests := [], listeners := s.listeners - (|s.stopRequests| + 1))
              && r.effects.commands == []
              && r.effects.toUi == StopResults(s.stopRequests + [id])
    ensures s.status == Discovering && s.listeners <= |s.stopRequests| + 1 ==>
              && r.session == s.(status := DiscoveryStopping, stopRequests := s.stopRequests + [id])
              && r.effects == PostCommand(StopDiscovery)
  {
    if s.status == NotDiscovering then
      Outcome(s, Effects([StopFailed(id)], [], [], []))
    else
      MaybePostStop(s.(stopRequests := s.stopRequests + [id]))
  }

  /**
   The hardware reports on the start command. Every queued start request is
   answered, in arrival order, with the reported outcome. On success each of
   them becomes a session, observers learn that discovery began, and queued
   stops are replayed; on failure queued stops are answered as if discovery
   had stopped, and observers hear nothing.
   */
  function DiscoveryStarted(s: Session, success: bool): (r: Outcome)
    ensures r.session.startRequests == [] && r.effects.ranNow == []
    ensures |s.startRequests| <= |r.effects.toUi|
    ensures r.effects.toUi[..|s.startRequests|] == StartResults(s.startRequests, success)
    ensures success ==> IsDiscovering(r.session) && r.effects.changes == [true]
    ensures success ==> StartDiscovery !in r.effects.commands
    ensures success && |s.stopRequests| < |s.startRequests| ==>
              && r.session == Session(Discovering, [], [], |s.startRequests| - |s.stopRequests|)
              && r.effects.commands == []
              && r.effects.toUi == StartResults(s.startRequests, true) + StopResults(s.stopRequests)
    ensures success && |s.startRequests| <= |s.stopRequests| ==>
              && r.session == s.(status := DiscoveryStopping, startRequests := [], listeners := |s.startRequests|)
              && r.effects.commands == [StopDiscovery]
              && r.effects.toUi == StartResults(s.startRequests, true)
    ensures !success ==> r.session == Idle && r.effects.commands == [] && r.effects.changes == []
    ensures !success ==> r.effects.toUi == StartResults(s.startRequests, false) + StopResults(s.stopRequests)
  {
    var answered := PostToUi(StartResults(s.startRequests, success));
    if success then
      var next := MaybePostStop(s.(status := Discovering, startRequests := [], listeners := |s.startRequests|));
      Outcome(next.session, Then(Then(answered, Notify(true)), next.effects))
    else
      var s1 := s.(status := NotDiscovering, startRequests := [], listeners := 0);
      if s.stopRequests != [] then
        var next := DiscoveryStopped(s1);
        Outcome(next.session, Then(answered, next.effects))
      else
        assert s1 == Idle;
        Outcome(s1, answered)
  }

  /**
   The hardware reports that discovery stopped. Every queued stop request
   succeeds, in arrival order, no session remains, observers learn of the
   change if discovery had been visible, and queued starts are replayed.
   */
  function DiscoveryStopped(s: Session): (r: Outcome)
    ensures r.session.status == (if s.startRequests != [] then DiscoveryStarting else NotDiscovering)
    ensures r.session.startRequests == s.startRequests
    ensures r.session.stopRequests == [] && r.session.listeners == 0
    ensures r.effects.ranNow == [] && r.effects.toUi == StopResults(s.stopRequests)
    ensures r.effects.commands == (if s.startRequests != [] then [StartDiscovery] else [])
    ensures r.effects.changes == (if IsDiscovering(s) then [false] else [])
  {
    var answered := PostToUi(StopResults(s.stopRequests));
    var notice := if IsDiscovering(s) then Notify(false) else NoEffects;
    var next := MaybePostStart(s.(status := NotDiscovering, stopRequests := [], listeners := 0));
    Outcome(next.session, Then(Then(answered, notice), next.effects))
  }
}
