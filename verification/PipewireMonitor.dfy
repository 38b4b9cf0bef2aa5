/** The microphone and camera monitor (src/agents/gnoblin-pipewire-monitor.c) and its stop protocol across threads. */
module PipewireMonitor {

  datatype Report = Report(available: bool, microphone: bool, camera: bool)

  const NOTHING := Report(false, false, false)

  datatype Node = Node(microphone: bool, camera: bool, running: bool)

  /** What came of an attempt to connect; `synced` is whether the first round trip could be asked for. */
  datatype Attempt = Failed | Connected(synced: bool)

  /** `running` callbacks are between their two critical sections; `stoppers` wait on the condition in a stop. */
  datatype State = State(
    listening: bool, started: bool, stopping: bool, running: nat, stoppers: set<int>,
    connected: bool, lost: bool, nodes: map<nat, Node>, flags: Report, queue: seq<Report>, delivered: seq<Report>)

  /** Start, stop, retry and the callback run on any thread; the node and core events run on the PipeWire thread. */
  datatype Event =
    | Start(attempt: Attempt)
    | StopEnter(t: int, owner: bool)
    | StopResume(t: int)
    | Retry(attempt: Attempt)
    | Dispatch
    | CallbackEnd
    | NodeAdded(id: nat, microphone: bool, camera: bool, observed: bool)
    | NodeInfo(id: nat, active: bool)
    | NodeGone(id: nat)
    | CoreInfo
    | CoreDone(initial: bool)
    | CoreError

  function Initial(listening: bool): State {
    State(listening, false, false, 0, {}, false, false, map[], NOTHING, [], [])
  }

  predicate Possible(s: State, e: Event) {
    match e
    case Start(_) => true
    case StopEnter(t, _) => t !in s.stoppers
    case StopResume(t) => t in s.stoppers
    case Retry(_) => true
    case Dispatch => |s.queue| > 0
    case CallbackEnd => s.running > 0
    case NodeAdded(id, microphone, camera, _) => s.connected && id !in s.nodes && (microphone || camera)
    case NodeInfo(id, _) => s.connected && id in s.nodes
    case NodeGone(_) => s.connected
    case CoreInfo => s.connected
    case CoreDone(_) => s.connected
    case CoreError => s.connected
  }

  // The steps.

  predicate AnyRunning(nodes: map<nat, Node>, microphone: bool) {
    exists id :: id in nodes && nodes[id].running && if microphone then nodes[id].microphone else nodes[id].camera
  }

  function Activity(available: bool, nodes: map<nat, Node>): Report {
    Report(available, available && AnyRunning(nodes, true), available && AnyRunning(nodes, false))
  }

  function Queue(s: State, r: Report): State {
    if s.flags == r then s else s.(flags := r, queue := s.queue + [r])
  }

  function Update(s: State): State {
    Queue(s, Activity(s.flags.available, s.nodes))
  }

  function Remove(s: State, id: nat): State {
    if id !in s.nodes then s else Update(s.(nodes := s.nodes - {id}))
  }

  function Connect(s: State, attempt: Attempt): State {
    s.(connected := attempt.Connected?, lost := attempt.Connected? && !attempt.synced, nodes := map[])
  }

  /** The rest of a stop, once it does not wait any more. */
  function Finish(s: State): State {
    s.(stopping := false, connected := false, lost := false, nodes := map[], flags := NOTHING)
  }

  function Step(s: State, e: Event): State
    requires Possible(s, e)
  {
    match e
    case Start(attempt) =>
      if s.started || s.stopping then s
      else Connect(s.(started := true, queue := s.queue + [s.flags]), attempt)
    case StopEnter(t, owner) =>
      if !s.started then s
      else
        var s' := s.(started := false, stopping := true);
        if !owner && s.running > 0 then s'.(stoppers := s.stoppers + {t}) else Finish(s')
    case StopResume(t) =>
      if s.running > 0 then s else Finish(s.(stoppers := s.stoppers - {t}))
    case Retry(attempt) =>
      if s.started && (!s.connected || s.lost) then
        Connect(Queue(s.(connected := false, nodes := map[]), NOTHING), attempt)
      else s
    case Dispatch =>
      var s' := s.(queue := s.queue[1..]);
      if s.started && s.listening then
        s'.(running := s.running + 1, delivered := s.delivered + [s.queue[0]])
      else s'
    case CallbackEnd => s.(running := s.running - 1)
    case NodeAdded(id, microphone, camera, observed) =>
      var s' := s.(nodes := s.nodes[id := Node(microphone, camera, false)]);
      if observed then s' else Remove(Queue(s'.(lost := true), NOTHING), id)
    case NodeInfo(id, active) =>
      Update(s.(nodes := s.nodes[id := s.nodes[id].(running := active)]))
    case NodeGone(id) => Remove(s, id)
    case CoreInfo => s.(lost := false)
    case CoreDone(initial) =>
      if !s.lost && initial then Queue(s, Activity(true, s.nodes)) else s
    case CoreError => Queue(s.(lost := true), NOTHING).(nodes := map[])
  }

  // What every step keeps.

  predicate Sound(r: Report) {
    r.available || r == NOTHING
  }

  /** One stop at a time waits, and nothing can start the monitor behind its back. */
  ghost predicate Exclusive(s: State) {
    && (s.stopping <==> s.stoppers != {})
    && (s.started ==> !s.stopping)
    && (forall t :: t in s.stoppers ==> s.stoppers == {t})
  }

  /** The flags say what the nodes do, and nothing is connected or claimed outside start and stop. */
  ghost predicate Truthful(s: State) {
    && s.flags == Activity(s.flags.available, s.nodes)
    && (!s.started && !s.stopping ==> !s.connected && s.flags == NOTHING)
    && (!s.connected ==> s.nodes == map[])
  }

  ghost predicate SoundReports(s: State) {
    && (forall r :: r in s.queue ==> Sound(r))
    && (forall r :: r in s.delivered ==> Sound(r))
  }

  /** The last report, delivered or on its way, is the current one. */
  ghost predicate UpToDate(s: State) {
    s.started && s.listening ==>
      if |s.queue| > 0 then s.queue[|s.queue| - 1] == s.flags
      else |s.delivered| > 0 && s.delivered[|s.delivered| - 1] == s.flags
  }

  ghost predicate Valid(s: State) {
    Exclusive(s) && Truthful(s) && SoundReports(s) && UpToDate(s)
  }

  lemma InitialIsValid(listening: bool)
    ensures Valid(Initial(listening))
  {
  }

  lemma StepKeepsExclusive(s: State, e: Event)
    requires Possible(s, e) && Exclusive(s)
    ensures Exclusive(Step(s, e))
  {
    if e.StopResume? {
      assert s.stoppers == {e.t};
      assert s.stoppers - {e.t} == {};
    }
  }

  lemma StepKeepsTruthful(s: State, e: Event)
    requires Possible(s, e) && Exclusive(s) && Truthful(s)
    ensures Truthful(Step(s, e))
  {
    match e
    case NodeAdded(id, microphone, camera, observed) =>
      var nodes := s.nodes[id := Node(microphone, camera, false)];
      assert nodes - {id} == s.nodes;
      assert forall m :: AnyRunning(nodes, m) == AnyRunning(s.nodes, m) by {
        assert forall i :: i in s.nodes ==> nodes[i] == s.nodes[i];
      }
    case _ =>
  }

  lemma QueueKeepsReports(s: State, r: Report)
    requires SoundReports(s) && Sound(r)
    ensures SoundReports(Queue(s, r)) && (UpToDate(s) ==> UpToDate(Queue(s, r)))
  {
  }

  lemma ActivityIsSound(available: bool, nodes: map<nat, Node>)
    ensures Sound(Activity(available, nodes))
  {
  }

  /** Steps that queue no report, apart from the first one of a start. */
  predicate IsQuiet(e: Event) {
    e.Start? || e.StopEnter? || e.StopResume? || e.CallbackEnd? || e.CoreInfo?
  }

  lemma QuietKeepsReports(s: State, e: Event)
    requires Possible(s, e) && Exclusive(s) && Truthful(s) && SoundReports(s) && UpToDate(s) && IsQuiet(e)
    ensures SoundReports(Step(s, e)) && UpToDate(Step(s, e))
  {
  }

  /** The nodes and the connection do not matter. */
  lemma UnreportedKeepsReports(s: State, connected: bool, lost: bool, nodes: map<nat, Node>)
    requires SoundReports(s) && UpToDate(s)
    ensures var s' := s.(connected := connected, lost := lost, nodes := nodes); SoundReports(s') && UpToDate(s')
  {
  }

  lemma UpdateKeepsReports(s: State)
    requires SoundReports(s) && UpToDate(s)
    ensures SoundReports(Update(s)) && UpToDate(Update(s))
  {
    ActivityIsSound(s.flags.available, s.nodes);
    QueueKeepsReports(s, Activity(s.flags.available, s.nodes));
  }

  lemma RemoveKeepsReports(s: State, id: nat)
    requires SoundReports(s) && UpToDate(s)
    ensures SoundReports(Remove(s, id)) && UpToDate(Remove(s, id))
  {
    hide SoundReports, UpToDate;
    UnreportedKeepsReports(s, s.connected, s.lost, s.nodes - {id});
    UpdateKeepsReports(s.(nodes := s.nodes - {id}));
  }

  /** Reports are only ever added by Queue. */
  lemma StepKeepsReports(s: State, e: Event)
    requires Possible(s, e) && Exclusive(s) && Truthful(s) && SoundReports(s) && UpToDate(s)
    ensures SoundReports(Step(s, e)) && UpToDate(Step(s, e))
  {
    hide Exclusive, Truthful, SoundReports, UpToDate;
    match e
    case NodeAdded(id, microphone, camera, observed) => AddingKeepsReports(s, id, microphone, camera, observed);
    case Dispatch => DispatchKeepsReports(s);
    case NodeInfo(id, active) =>
      var nodes := s.nodes[id := s.nodes[id].(running := active)];
      UnreportedKeepsReports(s, s.connected, s.lost, nodes);
      UpdateKeepsReports(s.(nodes := nodes));
    case NodeGone(id) => RemoveKeepsReports(s, id);
    case CoreDone(initial) =>
      ActivityIsSound(true, s.nodes);
      QueueKeepsReports(s, Activity(true, s.nodes));
    case CoreError => ErrorKeepsReports(s);
    case Retry(attempt) => RetryKeepsReports(s, attempt);
    case _ => QuietKeepsReports(s, e);
  }

  lemma ErrorKeepsReports(s: State)
    requires Possible(s, CoreError) && SoundReports(s) && UpToDate(s)
    ensures SoundReports(Step(s, CoreError)) && UpToDate(Step(s, CoreError))
  {
    hide SoundReports, UpToDate;
    var s' := s.(lost := true);
    UnreportedKeepsReports(s, s.connected, true, s.nodes);
    QueueKeepsReports(s', NOTHING);
    UnreportedKeepsReports(Queue(s', NOTHING), s.connected, true, map[]);
  }

  lemma RetryKeepsReports(s: State, attempt: Attempt)
    requires Possible(s, Retry(attempt)) && SoundReports(s) && UpToDate(s)
    ensures SoundReports(Step(s, Retry(attempt))) && UpToDate(Step(s, Retry(attempt)))
  {
    hide SoundReports, UpToDate;
    var s' := s.(connected := false, nodes := map[]);
    UnreportedKeepsReports(s, false, s.lost, map[]);
    QueueKeepsReports(s', NOTHING);
    UnreportedKeepsReports(Queue(s', NOTHING), attempt.Connected?, attempt.Connected? && !attempt.synced, map[]);
  }

  lemma AddingKeepsReports(s: State, id: nat, microphone: bool, camera: bool, observed: bool)
    requires Possible(s, NodeAdded(id, microphone, camera, observed)) && SoundReports(s) && UpToDate(s)
    ensures var s' := Step(s, NodeAdded(id, microphone, camera, observed)); SoundReports(s') && UpToDate(s')
  {
    hide SoundReports, UpToDate;
    var nodes := s.nodes[id := Node(microphone, camera, false)];
    UnreportedKeepsReports(s, s.connected, s.lost, nodes);
    UnreportedKeepsReports(s, s.connected, true, nodes);
    QueueKeepsReports(s.(nodes := nodes, lost := true), NOTHING);
    RemoveKeepsReports(Queue(s.(nodes := nodes, lost := true), NOTHING), id);
  }

  lemma DispatchKeepsReports(s: State)
    requires Possible(s, Dispatch) && SoundReports(s) && UpToDate(s)
    ensures SoundReports(Step(s, Dispatch)) && UpToDate(Step(s, Dispatch))
  {
    assert s.queue[0] in s.queue;
    assert forall r :: r in s.queue[1..] ==> r in s.queue;
  }

  lemma StepKeepsValid(s: State, e: Event)
    requires Possible(s, e) && Valid(s)
    ensures Valid(Step(s, e))
  {
    StepKeepsExclusive(s, e);
    StepKeepsTruthful(s, e);
    StepKeepsReports(s, e);
  }

  // Whole runs, in every interleaving.

  predicate CanRun(s: State, events: seq<Event>)
    decreases |events|
  {
    |events| > 0 ==> Possible(s, events[0]) && CanRun(Step(s, events[0]), events[1..])
  }

  function Run(s: State, events: seq<Event>): State
    requires CanRun(s, events)
    decreases |events|
  {
    if |events| == 0 then s else Run(Step(s, events[0]), events[1..])
  }

  lemma {:induction false} RunKeepsValid(s: State, events: seq<Event>)
    requires Valid(s) && CanRun(s, events)
    ensures Valid(Run(s, events))
    decreases |events|
  {
    if |events| > 0 {
      StepKeepsValid(s, events[0]);
      RunKeepsValid(Step(s, events[0]), events[1..]);
    }
  }

  lemma StepKeepsListening(s: State, e: Event)
    requires Possible(s, e)
    ensures Step(s, e).listening == s.listening
  {
  }

  lemma {:induction false} ListeningStays(s: State, events: seq<Event>)
    requires CanRun(s, events)
    ensures Run(s, events).listening == s.listening
    decreases |events|
  {
    if |events| > 0 {
      StepKeepsListening(s, events[0]);
      ListeningStays(Step(s, events[0]), events[1..]);
    }
  }

  /** Every callback of every run gets a report in which an unavailable server is not active. */
  lemma NeverActiveWhenUnavailable(listening: bool, events: seq<Event>)
    requires CanRun(Initial(listening), events)
    ensures forall r :: r in Run(Initial(listening), events).delivered ==> r.available || (!r.microphone && !r.camera)
  {
    InitialIsValid(listening);
    RunKeepsValid(Initial(listening), events);
  }

  /** Once the queue is empty, the listener has been told exactly what the nodes do. */
  lemma ListenerCatchesUp(events: seq<Event>)
    requires CanRun(Initial(true), events)
    requires Run(Initial(true), events).started && Run(Initial(true), events).queue == []
    ensures var s := Run(Initial(true), events);
      && |s.delivered| > 0
      && var last := s.delivered[|s.delivered| - 1];
      && last.available == s.flags.available
      && (last.available ==>
           && (last.microphone <==> exists id :: id in s.nodes && s.nodes[id].running && s.nodes[id].microphone)
           && (last.camera <==> exists id :: id in s.nodes && s.nodes[id].running && s.nodes[id].camera))
  {
    InitialIsValid(true);
    RunKeepsValid(Initial(true), events);
    ListeningStays(Initial(true), events);
  }

  /** Whether the server counts as available: from the first answer on a connection that is not lost, until the
      connection is lost or made again, a node cannot be observed, or a stop ends. */
  lemma AvailableIff(s: State, e: Event)
    requires Valid(s) && Possible(s, e)
    ensures Step(s, e).flags.available <==>
      || (e == CoreDone(true) && !s.lost)
      || (&& s.flags.available && !e.CoreError? && (e.NodeAdded? ==> e.observed)
          && (e.Retry? && s.started ==> s.connected && !s.lost)
          && !(e.StopEnter? && s.started && (e.owner || s.running == 0))
          && !(e.StopResume? && s.running == 0))
  {
    if e.StopResume? {
      assert s.stoppers == {e.t};
    }
  }

  // The stop protocol.

  /** The call of stop by `t` that `e` belongs to found the monitor started, does not own the context, and ends here. */
  ghost predicate WaitingStopReturns(s: State, e: Event, t: int)
    requires Possible(s, e)
  {
    && ((e == StopEnter(t, false) && s.started) || e == StopResume(t))
    && t !in Step(s, e).stoppers
  }

  /** Nothing of the monitor runs, and the context can no longer call the listener. */
  ghost predicate Quiet(s: State) {
    !s.started && !s.stopping && s.running == 0 && !s.connected && s.flags == NOTHING
  }

  lemma {:induction false} QuietStays(s: State, events: seq<Event>)
    requires Quiet(s) && CanRun(s, events) && forall e :: e in events ==> !e.Start?
    ensures Quiet(Run(s, events)) && Run(s, events).delivered == s.delivered
    decreases |events|
  {
    if |events| > 0 {
      QuietStays(Step(s, events[0]), events[1..]);
    }
  }

  /** Such a stop returns only when no callback runs, and until the next start none begins. */
  lemma StopIsQuiet(s: State, e: Event, t: int, events: seq<Event>)
    requires Valid(s) && Possible(s, e) && WaitingStopReturns(s, e, t)
    requires CanRun(Step(s, e), events) && forall x :: x in events ==> !x.Start?
    ensures Quiet(Step(s, e)) && Quiet(Run(Step(s, e), events))
    ensures Run(Step(s, e), events).delivered == Step(s, e).delivered
  {
    QuietStays(Step(s, e), events);
  }

  /** While a stop waits, start is refused, retry does nothing, and callbacks end but none begins. */
  lemma NothingStartsDuringStop(s: State, e: Event)
    requires Valid(s) && Possible(s, e) && s.stopping
    ensures e.Start? || e.Retry? ==> Step(s, e) == s
    ensures Step(s, e).running <= s.running && Step(s, e).delivered == s.delivered
    ensures Step(s, e).stopping ==> Step(s, e).stoppers == s.stoppers
  {
    if e.StopResume? {
      assert s.stoppers == {e.t};
      assert s.stoppers - {e.t} == {};
    }
  }

  function Ends(events: seq<Event>): nat {
    if |events| == 0 then 0 else (if events[0].CallbackEnd? then 1 else 0) + Ends(events[1..])
  }

  /** A waiting stop returns as soon as it runs after the callbacks that ran when it began have ended. */
  lemma {:induction false} StopReturns(s: State, events: seq<Event>, t: int)
    requires Valid(s) && CanRun(s, events) && s.stoppers == {t} && forall e :: e in events ==> !e.StopResume?
    requires Ends(events) >= s.running
    ensures Possible(Run(s, events), StopResume(t))
    ensures Quiet(Step(Run(s, events), StopResume(t)))
    decreases |events|
  {
    if |events| > 0 {
      StepKeepsValid(s, events[0]);
      NothingStartsDuringStop(s, events[0]);
      StopReturns(Step(s, events[0]), events[1..], t);
    }
  }

  /** A stop from the thread that owns the context does not wait: it can return inside a callback. */
  lemma OwnerStopReturnsInsideCallback()
    ensures exists events ::
      && CanRun(Initial(true), events)
      && var s := Run(Initial(true), events);
      && s.started && s.running == 1 && Possible(s, StopEnter(0, true))
      && !Step(s, StopEnter(0, true)).stopping && Step(s, StopEnter(0, true)).running == 1
  {
    var events := [Start(Failed), Dispatch];
    assert events[1..] == [Dispatch] && events[1..][1..] == [];
    var s1 := Step(Initial(true), events[0]);
    var s2 := Step(s1, events[1]);
    assert CanRun(s2, []) && Run(s2, []) == s2;
    assert CanRun(s1, [Dispatch]) && Run(s1, [Dispatch]) == s2;
    assert CanRun(Initial(true), events) && Run(Initial(true), events) == s2;
  }

  // The monitor itself. Each method is one critical section, or one event on the PipeWire thread.

  class Monitor {
    const listening: bool
    var started: bool
    var stopping: bool
    var callbacksRunning: nat
    var stoppers: set<int>
    var loopStarted: bool
    var connectionLost: bool
    var nodes: map<nat, Node>
    var flags: Report
    var queue: seq<Report>
    ghost var delivered: seq<Report>

    ghost function Abs(): State
      reads this
    {
      State(listening, started, stopping, callbacksRunning, stoppers, loopStarted, connectionLost, nodes, flags, queue,
            delivered)
    }

    constructor (listening: bool)
      ensures Abs() == Initial(listening)
    {
      this.listening := listening;
      started, stopping, callbacksRunning, stoppers := false, false, 0, {};
      loopStarted, connectionLost, nodes, flags, queue, delivered := false, false, map[], NOTHING, [], [];
    }

    /** The callback begins unless the monitor has been stopped in the meantime. */
    method NotifyOnContext() returns (deliver: bool)
      requires Possible(Abs(), Dispatch)
      modifies this
      ensures Abs() == Step(old(Abs()), Dispatch)
      ensures deliver == (started && listening)
    {
      deliver := started && listening;
      if deliver {
        callbacksRunning := callbacksRunning + 1;
        delivered := delivered + [queue[0]];
      }
      queue := queue[1..];
    }

    method CallbackEnds()
      requires Possible(Abs(), CallbackEnd)
      modifies this
      ensures Abs() == Step(old(Abs()), CallbackEnd)
    {
      callbacksRunning := callbacksRunning - 1;
    }

    method QueueNotification(available: bool, microphone: bool, camera: bool)
      modifies this
      ensures Abs() == Queue(old(Abs()), Report(available, microphone, camera))
    {
      if flags.available == available && flags.microphone == microphone && flags.camera == camera {
        return;
      }
      flags := Report(available, microphone, camera);
      queue := queue + [flags];
    }

    method AnyNodeRunning(microphone: bool) returns (r: bool)
      ensures r == AnyRunning(nodes, microphone)
    {
      var left := nodes.Keys;
      while left != {}
        invariant left <= nodes.Keys
        invariant forall id :: id in nodes && id !in left ==>
          !(nodes[id].running && if microphone then nodes[id].microphone else nodes[id].camera)
        decreases |left|
      {
        var id :| id in left;
        if nodes[id].running && (if microphone then nodes[id].microphone else nodes[id].camera) {
          return true;
        }
        left := left - {id};
      }
      r := false;
    }

    method UpdateActivity()
      modifies this
      ensures Abs() == Update(old(Abs()))
    {
      var microphone := AnyNodeRunning(true);
      var camera := AnyNodeRunning(false);
      QueueNotification(flags.available, flags.available && microphone, flags.available && camera);
    }

    method OnNodeInfo(id: nat, active: bool)
      requires Possible(Abs(), NodeInfo(id, active))
      modifies this
      ensures Abs() == Step(old(Abs()), NodeInfo(id, active))
    {
      nodes := nodes[id := nodes[id].(running := active)];
      UpdateActivity();
    }

    method RemoveNode(id: nat)
      modifies this
      ensures Abs() == Remove(old(Abs()), id)
    {
      if id !in nodes {
        return;
      }
      nodes := nodes - {id};
      UpdateActivity();
    }

    method OnGlobal(id: nat, microphone: bool, camera: bool, observed: bool)
      requires Possible(Abs(), NodeAdded(id, microphone, camera, observed))
      modifies this
      ensures Abs() == Step(old(Abs()), NodeAdded(id, microphone, camera, observed))
    {
      nodes := nodes[id := Node(microphone, camera, false)];
      if !observed {
        connectionLost := true;
        QueueNotification(false, false, false);
        RemoveNode(id);
      }
    }

    method OnCoreInfo()
      requires Possible(Abs(), CoreInfo)
      modifies this
      ensures Abs() == Step(old(Abs()), CoreInfo)
    {
      connectionLost := false;
    }

    method OnCoreDone(initial: bool)
      requires Possible(Abs(), CoreDone(initial))
      modifies this
      ensures Abs() == Step(old(Abs()), CoreDone(initial))
    {
      if !connectionLost && initial {
        var microphone := AnyNodeRunning(true);
        var camera := AnyNodeRunning(false);
        QueueNotification(true, microphone, camera);
      }
    }

    method OnCoreError()
      requires Possible(Abs(), CoreError)
      modifies this
      ensures Abs() == Step(old(Abs()), CoreError)
    {
      connectionLost := true;
      QueueNotification(false, false, false);
      nodes := map[];
    }

    method DisconnectPipewire()
      modifies this
      ensures Abs() == old(Abs()).(connected := false, nodes := map[])
    {
      loopStarted := false;
      nodes := map[];
    }

    method ConnectPipewire(attempt: Attempt)
      modifies this
      ensures Abs() == Connect(old(Abs()), attempt)
    {
      connectionLost := false;
      nodes := map[];
      match attempt
      case Failed =>
        DisconnectPipewire();
      case Connected(synced) =>
        if !synced {
          connectionLost := true;
        }
        loopStarted := true;
    }

    method RetryConnection(attempt: Attempt) returns (again: bool)
      modifies this
      ensures Abs() == Step(old(Abs()), Retry(attempt)) && again == started
    {
      if !started {
        return false;
      }
      if !loopStarted || connectionLost {
        DisconnectPipewire();
        QueueNotification(false, false, false);
        ConnectPipewire(attempt);
      }
      again := true;
    }

    method Start(attempt: Attempt) returns (ok: bool)
      modifies this
      ensures Abs() == Step(old(Abs()), Event.Start(attempt))
      ensures ok == (!old(started) && !old(stopping))
    {
      if started || stopping {
        return false;
      }
      started := true;
      queue := queue + [flags];
      ConnectPipewire(attempt);
      ok := true;
    }

    /** The call of `t`, up to its first wait or its return. */
    method Stop(t: int, owner: bool) returns (done: bool)
      requires Possible(Abs(), StopEnter(t, owner))
      modifies this
      ensures Abs() == Step(old(Abs()), StopEnter(t, owner)) && done == (t !in stoppers)
    {
      if !started {
        return true;
      }
      started := false;
      stopping := true;
      if !owner && callbacksRunning > 0 {
        stoppers := stoppers + {t};
        return false;
      }
      FinishStop();
      done := true;
    }

    /** The call of `t`, from a wakeup to its next wait or its return. */
    method ResumeStop(t: int) returns (done: bool)
      requires Possible(Abs(), StopResume(t))
      modifies this
      ensures Abs() == Step(old(Abs()), StopResume(t)) && done == (t !in stoppers)
    {
      if callbacksRunning > 0 {
        return false;
      }
      stoppers := stoppers - {t};
      FinishStop();
      done := true;
    }

    method FinishStop()
      modifies this
      ensures Abs() == Finish(old(Abs()))
    {
      DisconnectPipewire();
      connectionLost := false;
      flags := NOTHING;
      stopping := false;
    }
  }
}
