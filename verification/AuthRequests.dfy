/** Polkit requests between the agent (src/agents/gnoblin-auth-agent.c) and the control that announces them to clients
    (src/agents/gnoblin-control-auth.c): two tables that mirror each other, with callbacks from one into the other. */
module AuthRequests {
  import opened Options

  const MAX_PENDING: nat := 8
  const UNCLAIMED: nat := 15
  const ANSWER: nat := 120

  datatype Outcome = Authorized | Denied | Cancelled

  /** What polkit gets: the end of a session, a cancellation, or a refusal to take the request at all. */
  datatype Answer = Completed | CancelledError | Refused

  /** `attached` is whether the request still points at its agent, `cancellable` whether it still listens to polkit's
      cancellable, `cancelled` whether that was cancelled meanwhile, `silent` whether it ended when the control was
      stopping, and `task` whether polkit waits for its answer. */
  datatype Request = Request(id: nat, identities: nat, begun: bool, session: bool, prompt: bool, finished: bool,
                             attached: bool, cancellable: bool, cancelled: bool, silent: bool, task: bool)

  datatype Agent = Agent(nextId: nat, requests: map<nat, nat>)

  /** The control's entry for a request, under the id of the request. */
  datatype Pending = Pending(request: nat, timer: Option<nat>, outcome: Outcome, begun: bool, recipients: set<nat>)

  datatype Timer = Timer(id: nat, seconds: nat)

  /** What the world saw of one request: announcements, ends, and answers to polkit. */
  datatype Story = Story(requested: nat, finished: seq<Outcome>, answers: seq<Answer>)

  /** Requests are numbered as they come; ids start again with every agent. A control that is stopping publishes nothing
      any more. */
  datatype State = State(
    stopping: bool, agent: Option<Agent>, requests: map<nat, Request>, count: nat, pending: map<nat, Pending>,
    timers: map<nat, Timer>, armed: nat, idles: multiset<nat>, stories: map<nat, Story>)

  const INITIAL := State(false, None, map[], 0, map[], map[], 0, multiset{}, map[])

  // The steps of request_finish, and of the table that mirrors it.

  /** The answer that goes with a published end. */
  function AnswerFor(outcome: Outcome): Answer {
    if outcome == Cancelled then CancelledError else Completed
  }

  /** What polkit gets: a task whose cancellable was cancelled reports that, whatever it returns. */
  function Given(cancelled: bool, answer: Answer): Answer {
    if cancelled then CancelledError else answer
  }

  /** The request leaves its session, its cancellable and its agent. */
  function Detach(s: State, h: nat): State
    requires h in s.requests
  {
    var r := s.requests[h];
    var agent := if r.attached && s.agent.Some? then Some(s.agent.value.(requests := s.agent.value.requests - {r.id}))
                 else s.agent;
    s.(agent := agent, requests := s.requests[h := r.(finished := true, prompt := false, session := false,
                                                      cancellable := false, attached := false, silent := s.stopping)])
  }

  function StoryOf(s: State, h: nat): Story {
    if h in s.stories then s.stories[h] else Story(0, [], [])
  }

  function Publish(s: State, h: nat, outcome: Outcome): State {
    var story := StoryOf(s, h);
    if s.stopping then s else s.(stories := s.stories[h := story.(finished := story.finished + [outcome])])
  }

  function AnswerTask(s: State, h: nat, answer: Answer): State
    requires h in s.requests
  {
    var story := StoryOf(s, h);
    if s.requests[h].task then
      s.(requests := s.requests[h := s.requests[h].(task := false)],
         stories := s.stories[h := story.(answers := story.answers + [Given(s.requests[h].cancelled, answer)])])
    else s
  }

  /** The entry and its timer go. */
  function Unlist(s: State, id: nat): State
    requires id in s.pending
  {
    s.(pending := s.pending - {id},
       timers := if s.pending[id].timer.Some? then s.timers - {s.pending[id].timer.value} else s.timers)
  }

  /** The end of a request, with the callback that removes and publishes its entry. */
  function Finish(s: State, h: nat, outcome: Outcome): State
    requires h in s.requests
  {
    var r := s.requests[h];
    if r.finished then s
    else
      var s' := Detach(s, h);
      var s'' := if r.attached && r.id in s.pending then Publish(Unlist(s', r.id), s.pending[r.id].request, outcome)
                 else s';
      AnswerTask(s'', h, AnswerFor(outcome))
  }

  /** The removal of an entry that something else than the end of its request set off. */
  function Remove(s: State, id: nat): State
    requires id in s.pending && s.pending[id].request in s.requests
  {
    var p := s.pending[id];
    Publish(Finish(Unlist(s, id), p.request, Cancelled), p.request, p.outcome)
  }

  /** A new timer in place of the old one. */
  function Arm(s: State, id: nat, seconds: nat): State
    requires id in s.pending
  {
    var p := s.pending[id];
    var timers := if p.timer.Some? then s.timers - {p.timer.value} else s.timers;
    s.(pending := s.pending[id := p.(timer := Some(s.armed))], timers := timers[s.armed := Timer(id, seconds)],
       armed := s.armed + 1)
  }

  // Events.

  datatype Call = Begin(identity: Option<int>) | Respond(response: Option<string>) | Cancel

  datatype Event =
    | Start
    | Initiate(identities: nat, cancellable: bool, ready: bool)
    | CancelSignal(h: nat)
    | CancelIdle(h: nat)
    | SessionPrompt(h: nat)
    | SessionCompleted(h: nat, gained: bool)
    | Timeout(t: nat)
    | Recipient(id: int, client: nat)
    | Operation(call: Call, id: int, client: nat)
    | ControlStops
    | Stop(order: seq<nat>)

  /** What the environment can do: signals come only while their handlers are connected, timers fire only when armed. */
  ghost predicate Possible(s: State, e: Event) {
    match e
    case Start => s.agent.None? && !s.stopping
    case Initiate(_, _, _) => true
    case CancelSignal(h) => h in s.requests && s.requests[h].cancellable
    case CancelIdle(h) => h in s.idles && h in s.requests
    case SessionPrompt(h) => h in s.requests && s.requests[h].session
    case SessionCompleted(h, _) => h in s.requests && s.requests[h].session
    case Timeout(t) =>
      t in s.timers && s.timers[t].id in s.pending && s.pending[s.timers[t].id].request in s.requests
    case Recipient(_, _) => true
    case Operation(_, _, _) => true
    case ControlStops => true
    case Stop(order) =>
      s.agent.Some? && IsOrder(order, s.agent.value.requests) && forall h :: h in order ==> h in s.requests
  }

  /** The requests of a table, each once. */
  ghost predicate IsOrder(order: seq<nat>, table: map<nat, nat>) {
    && (forall i, j :: 0 <= i < j < |order| ==> order[i] != order[j])
    && (forall h :: h in order <==> h in table.Values)
  }

  /** The request is made and entered in the agent's table. */
  function Enter(s: State, identities: nat, cancellable: bool): State
    requires s.agent.Some?
  {
    var agent := s.agent.value;
    var id := agent.nextId + 1;
    s.(agent := Some(Agent(id, agent.requests[id := s.count])),
       requests := s.requests[s.count := Request(id, identities, false, false, false, false, true, cancellable, false,
                                                 false, true)],
       count := s.count + 1)
  }

  /** The entry is made, its timer armed, and the request announced. */
  function List(s: State, h: nat): State
    requires h in s.requests
  {
    var id := s.requests[h].id;
    var s' := s.(pending := s.pending[id := Pending(h, None, Cancelled, false, {})]);
    var story := StoryOf(s, h);
    Arm(s', id, UNCLAIMED).(stories := s.stories[h := story.(requested := story.requested + 1)])
  }

  /** An agent that cannot take the request answers polkit at once. */
  function RefusedOutright(s: State): State {
    s.(stories := s.stories[s.count := Story(0, [], [Refused])], count := s.count + 1)
  }

  function Initiated(s: State, identities: nat, cancellable: bool, ready: bool): State {
    if s.agent.None? || identities == 0 then
      RefusedOutright(s)
    else
      var s' := Enter(s, identities, cancellable);
      if s.stopping || !ready || |s.pending| >= MAX_PENDING then Finish(s', s.count, Cancelled) else List(s', s.count)
  }

  datatype Error =
    | BadRequestId | NotPending | NotRecipient | BadIdentity | Closed | AlreadyStarted | OutOfRange | NoResponse
    | NoPrompt

  /** The index of the identity as a guint. */
  function IdentityIndex(identity: Option<int>): nat {
    if identity.None? then 0 else (identity.value - 1) % 0x1_0000_0000
  }

  function OperationError(s: State, call: Call, id: int, client: nat): Option<Error> {
    if id <= 0 then Some(BadRequestId)
    else if id !in s.pending || s.pending[id].request !in s.requests then Some(NotPending)
    else if client != 0 && client !in s.pending[id].recipients then Some(NotRecipient)
    else
      var r := s.requests[s.pending[id].request];
      match call
      case Begin(identity) =>
        if identity.Some? && identity.value < 1 then Some(BadIdentity)
        else if r.finished then Some(Closed)
        else if r.begun then Some(AlreadyStarted)
        else if IdentityIndex(identity) >= r.identities then Some(OutOfRange)
        else None
      case Respond(response) =>
        if response.None? then Some(NoResponse)
        else if r.finished then Some(Closed)
        else if !r.session || !r.prompt then Some(NoPrompt)
        else None
      case Cancel => None
  }

  function Operated(s: State, call: Call, id: int, client: nat): State {
    if OperationError(s, call, id, client).Some? then s
    else
      var h := s.pending[id].request;
      var r := s.requests[h];
      match call
      case Begin(_) =>
        var s' := s.(requests := s.requests[h := r.(begun := true, session := true)],
                     pending := s.pending[id := s.pending[id].(begun := true)]);
        Arm(s', id, ANSWER)
      case Respond(_) => Arm(s.(requests := s.requests[h := r.(prompt := false)]), id, ANSWER)
      case Cancel => Finish(s, h, Cancelled)
  }

  /** A prompt of a request that has no entry cancels it. */
  function Prompted(s: State, h: nat): State
    requires h in s.requests
  {
    var r := s.requests[h];
    if r.finished || !r.attached then s
    else
      var s' := s.(requests := s.requests[h := r.(prompt := true)]);
      if r.id in s.pending then Arm(s', r.id, ANSWER) else Finish(s', h, Cancelled)
  }

  function FinishAll(s: State, order: seq<nat>): (r: State)
    requires forall h :: h in order ==> h in s.requests
    ensures r.requests.Keys == s.requests.Keys
    decreases |order|
  {
    if |order| == 0 then s
    else
      FinishKeepsKeys(FinishAll(s, order[..|order| - 1]), order[|order| - 1]);
      Finish(FinishAll(s, order[..|order| - 1]), order[|order| - 1], Cancelled)
  }

  lemma FinishKeepsKeys(s: State, h: nat)
    requires h in s.requests
    ensures Finish(s, h, Cancelled).requests.Keys == s.requests.Keys
  {
  }

  // What holds between steps.

  function Table(s: State): map<nat, nat> {
    if s.agent.None? then map[] else s.agent.value.requests
  }

  /** The two tables hold the same requests under the same ids, and those are the requests that are not finished. */
  ghost predicate Mirrored(table: map<nat, nat>, requests: map<nat, Request>, pending: map<nat, Pending>) {
    && table.Keys == pending.Keys
    && (forall id :: id in pending ==>
         && pending[id].request == table[id] && table[id] in requests
         && requests[table[id]].id == id && !requests[table[id]].finished
         && requests[table[id]].begun == pending[id].begun)
    && (forall h :: h in requests && !requests[h].finished ==> requests[h].id in table && table[requests[h].id] == h)
  }

  ghost predicate Fields(r: Request) {
    && r.attached == !r.finished && r.task == !r.finished
    && (r.session ==> r.begun && !r.finished) && (r.prompt ==> r.session) && (r.cancellable ==> !r.finished)
  }

  ghost predicate Numbered(s: State) {
    && (forall h :: h in s.requests ==> h < s.count && Fields(s.requests[h]))
    && (forall h :: h in s.stories ==> h < s.count)
    && (forall h :: h in s.idles ==> h in s.requests)
    && (s.agent.Some? ==> forall id :: id in s.pending ==> 0 < id <= s.agent.value.nextId)
  }

  /** Each entry has one armed timer of its own, and no other timer is armed. */
  ghost predicate Timed(pending: map<nat, Pending>, timers: map<nat, Timer>, armed: nat) {
    && (forall id :: id in pending ==>
         && pending[id].timer.Some? && pending[id].timer.value in timers
         && timers[pending[id].timer.value] == Timer(id, if pending[id].begun then ANSWER else UNCLAIMED)
         && pending[id].outcome == Cancelled)
    && (forall t :: t in timers ==> t < armed && timers[t].id in pending && pending[timers[t].id].timer == Some(t))
  }

  /** What the world may have seen of a request that is still going on, and of one that ended. */
  predicate Open(story: Story) {
    story == Story(1, [], [])
  }

  function Ending(silent: bool, cancelled: bool, outcome: Outcome): Story {
    Story(1, if silent then [] else [outcome], [Given(cancelled, AnswerFor(outcome))])
  }

  predicate Over(r: Request, story: Story) {
    || story == Ending(r.silent, r.cancelled, Authorized)
    || story == Ending(r.silent, r.cancelled, Denied)
    || story == Ending(r.silent, r.cancelled, Cancelled)
    || story == Story(0, [], [CancelledError])
  }

  /** The story of every request so far. The agent keeps no record of those that it refused outright. */
  ghost predicate Told(count: nat, requests: map<nat, Request>, stories: map<nat, Story>) {
    forall h: nat :: h < count ==>
      h in stories && if h !in requests then stories[h] == Story(0, [], [Refused])
                      else if !requests[h].finished then Open(stories[h]) else Over(requests[h], stories[h])
  }

  ghost predicate Valid(s: State) {
    && Mirrored(Table(s), s.requests, s.pending) && |s.pending| <= MAX_PENDING && Numbered(s)
    && Timed(s.pending, s.timers, s.armed) && Told(s.count, s.requests, s.stories)
  }

  lemma InitialIsValid()
    ensures Valid(INITIAL)
  {
  }

  // Entries come and go in both tables at once.

  lemma DropKeepsMirrored(table: map<nat, nat>, requests: map<nat, Request>, pending: map<nat, Pending>, h: nat,
                          r: Request)
    requires Mirrored(table, requests, pending) && h in requests && !requests[h].finished
    requires r.finished && r.id == requests[h].id
    ensures Mirrored(table - {r.id}, requests[h := r], pending - {r.id})
  {
  }

  lemma AddKeepsMirrored(table: map<nat, nat>, requests: map<nat, Request>, pending: map<nat, Pending>, h: nat,
                         r: Request, p: Pending)
    requires Mirrored(table, requests, pending) && h !in requests && r.id !in pending
    requires !r.finished && p.request == h && p.begun == r.begun
    ensures Mirrored(table[r.id := h], requests[h := r], pending[r.id := p])
  {
  }

  lemma ChangeKeepsMirrored(table: map<nat, nat>, requests: map<nat, Request>, pending: map<nat, Pending>, id: nat,
                            r: Request, p: Pending)
    requires Mirrored(table, requests, pending) && id in pending
    requires !r.finished && r.id == id && p.request == pending[id].request && p.begun == r.begun
    ensures Mirrored(table, requests[p.request := r], pending[id := p])
  {
    assert pending[id := p].Keys == pending.Keys;
  }

  lemma DropKeepsTimed(pending: map<nat, Pending>, timers: map<nat, Timer>, armed: nat, id: nat)
    requires Timed(pending, timers, armed) && id in pending
    ensures Timed(pending - {id}, timers - {pending[id].timer.value}, armed)
  {
  }

  lemma AddKeepsTimed(pending: map<nat, Pending>, timers: map<nat, Timer>, armed: nat, id: nat, h: nat)
    requires Timed(pending, timers, armed) && id !in pending
    ensures Timed(pending[id := Pending(h, Some(armed), Cancelled, false, {})], timers[armed := Timer(id, UNCLAIMED)],
                  armed + 1)
  {
  }

  lemma ArmKeepsTimed(pending: map<nat, Pending>, timers: map<nat, Timer>, armed: nat, id: nat, begun: bool)
    requires Timed(pending, timers, armed) && id in pending
    ensures var p := pending[id];
      Timed(pending[id := p.(timer := Some(armed), begun := begun)],
            (timers - {p.timer.value})[armed := Timer(id, if begun then ANSWER else UNCLAIMED)], armed + 1)
  {
  }

  lemma ChangeKeepsTimed(pending: map<nat, Pending>, timers: map<nat, Timer>, armed: nat, id: nat, recipients: set<nat>)
    requires Timed(pending, timers, armed) && id in pending
    ensures Timed(pending[id := pending[id].(recipients := recipients)], timers, armed)
  {
  }

  lemma TellEnd(count: nat, requests: map<nat, Request>, stories: map<nat, Story>, h: nat, r: Request, story: Story)
    requires Told(count, requests, stories) && h in requests && r.finished && Over(r, story)
    ensures Told(count, requests[h := r], stories[h := story])
  {
  }

  lemma TellNew(count: nat, requests: map<nat, Request>, stories: map<nat, Story>, r: Request, story: Story)
    requires Told(count, requests, stories) && if r.finished then Over(r, story) else Open(story)
    ensures Told(count + 1, requests[count := r], stories[count := story])
  {
  }

  lemma TellSame(count: nat, requests: map<nat, Request>, stories: map<nat, Story>, h: nat, r: Request)
    requires Told(count, requests, stories) && h in requests && r.finished == requests[h].finished
    requires r.finished ==> r.cancelled == requests[h].cancelled && r.silent == requests[h].silent
    ensures Told(count, requests[h := r], stories)
  {
  }

  // The end of a request.

  function Ended(r: Request, silent: bool): Request {
    r.(finished := true, prompt := false, session := false, cancellable := false, attached := false, task := false,
       silent := silent)
  }

  /** What is known of a request that is not finished. */
  ghost predicate Live(s: State, h: nat) {
    && h in s.requests && s.agent.Some?
    && var r := s.requests[h];
    && !r.finished && r.attached && r.task && r.id in s.pending && s.pending[r.id].request == h
    && s.pending[r.id].timer.Some? && s.pending[r.id].outcome == Cancelled
    && h in s.stories && Open(s.stories[h])
  }

  lemma UnfinishedIsLive(s: State, h: nat)
    requires Valid(s) && h in s.requests && !s.requests[h].finished
    ensures Live(s, h)
  {
    assert h < s.count;
  }

  /** The state after the end of a live request. */
  function AfterEnd(s: State, h: nat, outcome: Outcome): State
    requires h in s.requests && s.agent.Some? && s.requests[h].id in s.pending
      && s.pending[s.requests[h].id].timer.Some?
  {
    var id := s.requests[h].id;
    s.(agent := Some(s.agent.value.(requests := s.agent.value.requests - {id})),
       requests := s.requests[h := Ended(s.requests[h], s.stopping)], pending := s.pending - {id},
       timers := s.timers - {s.pending[id].timer.value},
       stories := s.stories[h := Ending(s.stopping, s.requests[h].cancelled, outcome)])
  }

  lemma FinishIs(s: State, h: nat, outcome: Outcome)
    requires Live(s, h)
    ensures Finish(s, h, outcome) == AfterEnd(s, h, outcome)
  {
    var a, b := Finish(s, h, outcome), AfterEnd(s, h, outcome);
    var answer := Given(s.requests[h].cancelled, AnswerFor(outcome));
    assert [] + [outcome] == [outcome] && [] + [answer] == [answer];
    assert a.stories == b.stories;
    assert a.requests == b.requests;
  }

  lemma EndKeepsNumbered(s: State, h: nat, outcome: Outcome)
    requires Numbered(s) && Live(s, h)
    ensures Numbered(AfterEnd(s, h, outcome))
  {
  }

  lemma FewerPending(pending: map<nat, Pending>, id: nat)
    requires id in pending
    ensures |pending - {id}| == |pending| - 1
  {
    assert (pending - {id}).Keys == pending.Keys - {id};
  }

  lemma EndKeepsValid(s: State, h: nat, outcome: Outcome)
    requires Valid(s) && Live(s, h)
    ensures Valid(AfterEnd(s, h, outcome))
  {
    var r := s.requests[h];
    EndKeepsNumbered(s, h, outcome);
    DropKeepsMirrored(Table(s), s.requests, s.pending, h, Ended(r, s.stopping));
    DropKeepsTimed(s.pending, s.timers, s.armed, r.id);
    TellEnd(s.count, s.requests, s.stories, h, Ended(r, s.stopping), Ending(s.stopping, r.cancelled, outcome));
    FewerPending(s.pending, r.id);
  }

  /** Whatever ends a request, the entry, the timer and the request go together, and the story gets its one end. */
  lemma FinishKeepsValid(s: State, h: nat, outcome: Outcome)
    requires Valid(s) && h in s.requests
    ensures Valid(Finish(s, h, outcome)) && Finish(s, h, outcome).requests[h].finished
    ensures !s.requests[h].finished ==>
      Finish(s, h, outcome).stories[h] == Ending(s.stopping, s.requests[h].cancelled, outcome)
  {
    if !s.requests[h].finished {
      UnfinishedIsLive(s, h);
      EndKeepsValid(s, h, outcome);
      FinishIs(s, h, outcome);
    }
  }

  /** Removing the entry first ends the request in the same way as ending the request, which removes the entry. */
  lemma RemoveIs(s: State, h: nat)
    requires Live(s, h)
    ensures Remove(s, s.requests[h].id) == AfterEnd(s, h, Cancelled)
  {
    var id := s.requests[h].id;
    var a, b := Remove(s, id), AfterEnd(s, h, Cancelled);
    assert [] + [Cancelled] == [Cancelled] && [] + [CancelledError] == [CancelledError];
    assert a.stories == b.stories;
    assert a.requests == b.requests;
  }

  // The other steps.

  function NewRequest(s: State, identities: nat, cancellable: bool): Request
    requires s.agent.Some?
  {
    Request(s.agent.value.nextId + 1, identities, false, false, false, false, true, cancellable, false, false, true)
  }

  lemma TellRefused(count: nat, requests: map<nat, Request>, stories: map<nat, Story>)
    requires Told(count, requests, stories) && count !in requests
    ensures Told(count + 1, requests, stories[count := Story(0, [], [Refused])])
  {
  }

  lemma RefusalKeepsNumbered(s: State)
    requires Numbered(s)
    ensures Numbered(RefusedOutright(s)) && s.count !in s.requests
  {
  }

  lemma RefusalKeepsValid(s: State)
    requires Valid(s)
    ensures Valid(RefusedOutright(s))
  {
    RefusalKeepsNumbered(s);
    TellRefused(s.count, s.requests, s.stories);
  }

  /** Nothing is known of the request that comes next, nor of its id. */
  ghost predicate NextIsFresh(s: State) {
    && s.agent.Some? && s.agent.value.nextId + 1 !in s.pending && s.agent.value.nextId + 1 !in s.agent.value.requests
    && s.count !in s.requests && s.count !in s.stories
  }

  lemma ValidNextIsFresh(s: State)
    requires Valid(s) && s.agent.Some?
    ensures NextIsFresh(s)
  {
    hide Timed, Told;
  }

  /** The state after a request that the control does not take. */
  function TurnedAway(s: State, identities: nat, cancellable: bool): State
    requires s.agent.Some?
  {
    var r := NewRequest(s, identities, cancellable);
    s.(agent := Some(Agent(r.id, s.agent.value.requests)), requests := s.requests[s.count := Ended(r, s.stopping)],
       count := s.count + 1, stories := s.stories[s.count := Story(0, [], [CancelledError])])
  }

  /** A request that the control does not take is cancelled before it is announced. */
  lemma TurnedAwayIs(s: State, identities: nat, cancellable: bool)
    requires NextIsFresh(s)
    ensures Finish(Enter(s, identities, cancellable), s.count, Cancelled) == TurnedAway(s, identities, cancellable)
  {
    var s' := Enter(s, identities, cancellable);
    var id := s.agent.value.nextId + 1;
    assert s'.agent.value.requests - {id} == s.agent.value.requests;
    assert [] + [CancelledError] == [CancelledError];
    assert Finish(s', s.count, Cancelled).requests == TurnedAway(s, identities, cancellable).requests;
  }

  lemma TurnedAwayKeepsNumbered(s: State, identities: nat, cancellable: bool)
    requires Numbered(s) && s.agent.Some?
    ensures Numbered(TurnedAway(s, identities, cancellable))
  {
  }

  lemma TurnedAwayKeepsValid(s: State, identities: nat, cancellable: bool)
    requires Valid(s) && s.agent.Some?
    ensures Valid(TurnedAway(s, identities, cancellable))
  {
    hide Mirrored, Timed, Told, Numbered;
    var r := Ended(NewRequest(s, identities, cancellable), s.stopping);
    NextIsNumber(s);
    TellNew(s.count, s.requests, s.stories, r, Story(0, [], [CancelledError]));
    IgnoreEnded(Table(s), s.requests, s.pending, s.count, r);
    TurnedAwayKeepsNumbered(s, identities, cancellable);
  }

  lemma NextIsNumber(s: State)
    requires Numbered(s)
    ensures s.count !in s.requests && s.count !in s.stories
  {
  }

  lemma IgnoreEnded(table: map<nat, nat>, requests: map<nat, Request>, pending: map<nat, Pending>, h: nat, r: Request)
    requires Mirrored(table, requests, pending) && h !in requests && r.finished
    ensures Mirrored(table, requests[h := r], pending)
  {
  }

  /** The state after a request that the control takes. */
  function Listed(s: State, identities: nat, cancellable: bool): State
    requires s.agent.Some?
  {
    var r := NewRequest(s, identities, cancellable);
    s.(agent := Some(Agent(r.id, s.agent.value.requests[r.id := s.count])),
       requests := s.requests[s.count := r], count := s.count + 1,
       pending := s.pending[r.id := Pending(s.count, Some(s.armed), Cancelled, false, {})],
       timers := s.timers[s.armed := Timer(r.id, UNCLAIMED)], armed := s.armed + 1,
       stories := s.stories[s.count := Story(1, [], [])])
  }

  lemma ListIs(s: State, identities: nat, cancellable: bool)
    requires NextIsFresh(s)
    ensures List(Enter(s, identities, cancellable), s.count) == Listed(s, identities, cancellable)
  {
    assert List(Enter(s, identities, cancellable), s.count).pending == Listed(s, identities, cancellable).pending;
  }

  lemma ListKeepsValid(s: State, identities: nat, cancellable: bool)
    requires Valid(s) && s.agent.Some? && |s.pending| < MAX_PENDING
    ensures Valid(Listed(s, identities, cancellable))
  {
    hide Mirrored, Timed, Told, Numbered;
    var r := NewRequest(s, identities, cancellable);
    ValidNextIsFresh(s);
    AddKeepsMirrored(Table(s), s.requests, s.pending, s.count, r,
      Pending(s.count, Some(s.armed), Cancelled, false, {}));
    AddKeepsTimed(s.pending, s.timers, s.armed, r.id, s.count);
    TellNew(s.count, s.requests, s.stories, r, Story(1, [], []));
    ListKeepsNumbered(s, identities, cancellable);
  }

  lemma ListKeepsNumbered(s: State, identities: nat, cancellable: bool)
    requires Numbered(s) && s.agent.Some?
    ensures Numbered(Listed(s, identities, cancellable))
  {
  }

  /** What becomes of a request that the agent takes from polkit. */
  lemma InitiatedIs(s: State, identities: nat, cancellable: bool, ready: bool)
    requires NextIsFresh(s) && identities > 0
    ensures Initiated(s, identities, cancellable, ready) ==
      if s.stopping || !ready || |s.pending| >= MAX_PENDING then TurnedAway(s, identities, cancellable)
      else Listed(s, identities, cancellable)
  {
    if s.stopping || !ready || |s.pending| >= MAX_PENDING {
      TurnedAwayIs(s, identities, cancellable);
    } else {
      ListIs(s, identities, cancellable);
    }
  }

  /** A live request changes, and a new timer is armed for it. */
  function Rearmed(s: State, h: nat, r: Request, begun: bool): State
    requires h in s.requests && r.id in s.pending && s.pending[r.id].timer.Some?
  {
    var p := s.pending[r.id];
    s.(requests := s.requests[h := r], pending := s.pending[r.id := p.(timer := Some(s.armed), begun := begun)],
       timers := (s.timers - {p.timer.value})[s.armed := Timer(r.id, if begun then ANSWER else UNCLAIMED)],
       armed := s.armed + 1)
  }

  lemma RearmedKeepsValid(s: State, h: nat, r: Request, begun: bool)
    requires Valid(s) && Live(s, h) && r.id == s.requests[h].id && !r.finished && Fields(r) && r.begun == begun
    requires r.cancelled == s.requests[h].cancelled
    ensures Valid(Rearmed(s, h, r, begun))
  {
    var p := s.pending[r.id];
    ChangeKeepsMirrored(Table(s), s.requests, s.pending, r.id, r, p.(timer := Some(s.armed), begun := begun));
    ArmKeepsTimed(s.pending, s.timers, s.armed, r.id, begun);
    TellSame(s.count, s.requests, s.stories, h, r);
    RearmedKeepsNumbered(s, h, r, begun);
    assert s.pending[r.id := p.(timer := Some(s.armed), begun := begun)].Keys == s.pending.Keys;
  }

  lemma RearmedKeepsNumbered(s: State, h: nat, r: Request, begun: bool)
    requires Numbered(s) && Live(s, h) && r.id == s.requests[h].id && Fields(r)
    ensures Numbered(Rearmed(s, h, r, begun))
  {
  }

  function WithRecipients(s: State, id: nat, recipients: set<nat>): State
    requires id in s.pending
  {
    s.(pending := s.pending[id := s.pending[id].(recipients := recipients)])
  }

  lemma RecipientKeepsNumbered(s: State, id: nat, recipients: set<nat>)
    requires Numbered(s) && id in s.pending
    ensures Numbered(WithRecipients(s, id, recipients)) && |WithRecipients(s, id, recipients).pending| == |s.pending|
  {
    assert WithRecipients(s, id, recipients).pending.Keys == s.pending.Keys;
  }

  lemma RecipientKeepsMirrored(table: map<nat, nat>, requests: map<nat, Request>, pending: map<nat, Pending>, id: nat,
                               recipients: set<nat>)
    requires Mirrored(table, requests, pending) && id in pending
    ensures Mirrored(table, requests, pending[id := pending[id].(recipients := recipients)])
  {
    assert pending[id := pending[id].(recipients := recipients)].Keys == pending.Keys;
  }

  lemma RecipientKeepsValid(s: State, id: nat, recipients: set<nat>)
    requires Valid(s) && id in s.pending
    ensures Valid(WithRecipients(s, id, recipients))
  {
    RecipientKeepsNumbered(s, id, recipients);
    RecipientKeepsMirrored(Table(s), s.requests, s.pending, id, recipients);
    ChangeKeepsTimed(s.pending, s.timers, s.armed, id, recipients);
  }

  lemma PendingIsLive(s: State, id: nat)
    requires Valid(s) && id in s.pending
    ensures Live(s, s.pending[id].request) && s.requests[s.pending[id].request].id == id
  {
    UnfinishedIsLive(s, s.pending[id].request);
  }

  // One step, and whole runs.

  /** The timer is gone by the time its callback runs. */
  function Fired(s: State, t: nat): State
    requires t in s.timers && s.timers[t].id in s.pending
  {
    var id := s.timers[t].id;
    s.(timers := s.timers - {t}, pending := s.pending[id := s.pending[id].(timer := None)])
  }

  /** Polkit's cancellable is cancelled: the request is to be cancelled from the main loop. */
  function Signalled(s: State, h: nat): State
    requires h in s.requests
  {
    s.(idles := s.idles + multiset{h}, requests := s.requests[h := s.requests[h].(cancelled := true)])
  }

  function Step(s: State, e: Event): State
    requires Possible(s, e)
  {
    match e
    case Start => s.(agent := Some(Agent(0, map[])))
    case Initiate(identities, cancellable, ready) => Initiated(s, identities, cancellable, ready)
    case CancelSignal(h) => Signalled(s, h)
    case CancelIdle(h) => Finish(s.(idles := s.idles - multiset{h}), h, Cancelled)
    case SessionPrompt(h) => Prompted(s, h)
    case SessionCompleted(h, gained) => Finish(s, h, if gained then Authorized else Denied)
    case Timeout(t) => Remove(Fired(s, t), s.timers[t].id)
    case Recipient(id, client) =>
      if id > 0 && id in s.pending then
        WithRecipients(s, id, s.pending[id].recipients + {client})
      else s
    case Operation(call, id, client) => Operated(s, call, id, client)
    case ControlStops => s.(stopping := true)
    case Stop(order) => FinishAll(s, order).(agent := None)
  }

  /** An agent can be stopped in every order of its requests. */
  lemma StopIsPossibleIff(s: State, order: seq<nat>)
    requires Valid(s)
    ensures Possible(s, Stop(order)) <==> s.agent.Some? && IsOrder(order, s.agent.value.requests)
  {
    if s.agent.Some? && IsOrder(order, s.agent.value.requests) {
      forall h | h in order ensures h in s.requests {
        assert h in s.agent.value.requests.Values;
      }
    }
  }

  lemma {:induction false} SomeOrder(requests: set<nat>) returns (order: seq<nat>)
    ensures (forall i, j :: 0 <= i < j < |order| ==> order[i] != order[j]) && forall h :: h in order <==> h in requests
    decreases |requests|
  {
    if requests == {} {
      order := [];
    } else {
      var h :| h in requests;
      order := SomeOrder(requests - {h});
      order := order + [h];
    }
  }

  lemma StopIsPossible(s: State)
    requires Valid(s) && s.agent.Some?
    ensures exists order :: Possible(s, Stop(order))
  {
    var order := SomeOrder(s.agent.value.requests.Values);
    StopIsPossibleIff(s, order);
  }

  lemma {:induction false} FinishAllKeepsValid(s: State, order: seq<nat>)
    requires Valid(s) && forall h :: h in order ==> h in s.requests
    ensures var s' := FinishAll(s, order);
      Valid(s') && (s'.agent.Some? <==> s.agent.Some?)
    decreases |order|
  {
    if |order| > 0 {
      var most, last := order[..|order| - 1], order[|order| - 1];
      FinishAllKeepsValid(s, most);
      OneMoreKeepsValid(FinishAll(s, most), last);
    }
  }

  lemma {:induction false} FinishAllFinishes(s: State, order: seq<nat>, h: nat)
    requires Valid(s) && (forall k :: k in order ==> k in s.requests)
    requires h in s.requests && (h in order || s.requests[h].finished)
    ensures FinishAll(s, order).requests[h].finished
    decreases |order|
  {
    hide Valid;
    if |order| > 0 {
      var most, last := order[..|order| - 1], order[|order| - 1];
      FinishAllKeepsValid(s, most);
      OneMoreKeepsValid(FinishAll(s, most), last);
      if h != last {
        InMost(order, h);
        FinishAllFinishes(s, most, h);
      }
    }
  }

  lemma InMost(order: seq<nat>, h: nat)
    requires |order| > 0 && h != order[|order| - 1]
    ensures h in order ==> h in order[..|order| - 1]
  {
    assert order == order[..|order| - 1] + [order[|order| - 1]];
  }

  lemma OneMoreKeepsValid(s: State, h: nat)
    requires Valid(s) && h in s.requests
    ensures var s' := Finish(s, h, Cancelled);
      && Valid(s') && s'.requests.Keys == s.requests.Keys && (s'.agent.Some? <==> s.agent.Some?)
      && s'.requests[h].finished && forall k :: k in s.requests && s.requests[k].finished ==> s'.requests[k].finished
  {
    FinishKeepsValid(s, h, Cancelled);
    if !s.requests[h].finished {
      UnfinishedIsLive(s, h);
    }
    EndKeepsOthers(s, h, Cancelled);
  }

  lemma EndKeepsOthers(s: State, h: nat, outcome: Outcome)
    requires Live(s, h) || (h in s.requests && s.requests[h].finished)
    ensures var s' := Finish(s, h, outcome);
      && s'.requests.Keys == s.requests.Keys && (s'.agent.Some? <==> s.agent.Some?)
      && s'.requests[h].finished && forall k :: k in s.requests && k != h ==> s'.requests[k] == s.requests[k]
  {
    if !s.requests[h].finished {
      FinishIs(s, h, outcome);
    }
  }

  /** Stopping ends every request, so that nothing is left in either table, and no timer. */
  lemma StopKeepsValid(s: State, order: seq<nat>)
    requires Valid(s) && Possible(s, Stop(order))
    ensures var s' := Step(s, Stop(order));
      Valid(s') && s'.pending == map[] && s'.timers == map[] && forall h :: h in s'.requests ==> s'.requests[h].finished
  {
    FinishAllKeepsValid(s, order);
    var s' := FinishAll(s, order);
    forall h | h in s'.requests ensures s'.requests[h].finished {
      if !s.requests[h].finished {
        assert s.agent.value.requests[s.requests[h].id] == h;
      }
      FinishAllFinishes(s, order, h);
    }
    EmptyAfterAll(s');
  }

  lemma EmptyAfterAll(s: State)
    requires Valid(s) && forall h :: h in s.requests ==> s.requests[h].finished
    ensures s.pending == map[] && s.timers == map[] && Table(s) == map[] && Valid(s.(agent := None))
  {
    if id :| id in s.pending {
      PendingIsLive(s, id);
    }
  }

  lemma TimeoutIs(s: State, t: nat)
    requires Valid(s) && t in s.timers
    ensures s.timers[t].id in s.pending
    ensures var h := s.pending[s.timers[t].id].request;
      Live(s, h) && s.requests[h].id == s.timers[t].id
      && Remove(Fired(s, t), s.timers[t].id) == AfterEnd(s, h, Cancelled)
  {
    var id := s.timers[t].id;
    PendingIsLive(s, id);
    var h := s.pending[id].request;
    FiredIs(s, t, h);
  }

  lemma FiredIs(s: State, t: nat, h: nat)
    requires Live(s, h) && t in s.timers && s.timers[t].id == s.requests[h].id
    requires s.pending[s.requests[h].id].timer == Some(t)
    ensures Remove(Fired(s, t), s.timers[t].id) == AfterEnd(s, h, Cancelled)
  {
    var a, b := Remove(Fired(s, t), s.timers[t].id), AfterEnd(s, h, Cancelled);
    assert [] + [Cancelled] == [Cancelled] && [] + [CancelledError] == [CancelledError];
    assert a.stories == b.stories;
    assert a.requests == b.requests;
    assert a.pending == b.pending;
  }

  lemma PromptedKeepsValid(s: State, h: nat)
    requires Valid(s) && h in s.requests && s.requests[h].session
    ensures Valid(Prompted(s, h))
  {
    UnfinishedIsLive(s, h);
    var r := s.requests[h].(prompt := true);
    RearmedKeepsValid(s, h, r, true);
    assert s.pending[r.id].begun;
    assert Prompted(s, h).pending == Rearmed(s, h, r, true).pending;
  }

  /** What a begin or a response comes to. */
  function Submitted(r: Request, call: Call): Request {
    if call.Respond? then r.(prompt := false) else r.(begun := true, session := true)
  }

  lemma OperatedIs(s: State, call: Call, id: nat, client: nat)
    requires !call.Cancel? && OperationError(s, call, id, client).None? && Live(s, s.pending[id].request)
    requires s.requests[s.pending[id].request].id == id && (call.Respond? ==> s.pending[id].begun)
    ensures var h := s.pending[id].request;
      Operated(s, call, id, client) == Rearmed(s, h, Submitted(s.requests[h], call), true)
  {
    var h := s.pending[id].request;
    var a, b := Operated(s, call, id, client), Rearmed(s, h, Submitted(s.requests[h], call), true);
    assert a.pending == b.pending;
  }

  lemma OperatedKeepsValid(s: State, call: Call, id: int, client: nat)
    requires Valid(s)
    ensures Valid(Operated(s, call, id, client))
  {
    hide Valid;
    if OperationError(s, call, id, client).None? {
      PendingIsLive(s, id);
      var h := s.pending[id].request;
      if call.Cancel? {
        FinishKeepsValid(s, h, Cancelled);
      } else {
        SubmittedFits(s, h, call);
        RearmedKeepsValid(s, h, Submitted(s.requests[h], call), true);
        OperatedIs(s, call, id, client);
      }
    }
  }

  lemma SubmittedFits(s: State, h: nat, call: Call)
    requires Valid(s) && Live(s, h) && (call.Respond? ==> s.requests[h].session)
    ensures Fields(Submitted(s.requests[h], call)) && Submitted(s.requests[h], call).begun
    ensures call.Respond? ==> s.pending[s.requests[h].id].begun
  {
  }

  lemma InitiatedKeepsValid(s: State, identities: nat, cancellable: bool, ready: bool)
    requires Valid(s)
    ensures Valid(Initiated(s, identities, cancellable, ready))
  {
    hide Valid;
    if s.agent.None? || identities == 0 {
      RefusalKeepsValid(s);
    } else {
      ValidNextIsFresh(s);
      InitiatedIs(s, identities, cancellable, ready);
      if s.stopping || !ready || |s.pending| >= MAX_PENDING {
        TurnedAwayKeepsValid(s, identities, cancellable);
      } else {
        ListKeepsValid(s, identities, cancellable);
      }
    }
  }

  lemma IdlesKeepValid(s: State, idles: multiset<nat>)
    requires Valid(s) && forall h :: h in idles ==> h in s.requests
    ensures Valid(s.(idles := idles))
  {
  }

  lemma IdleKeepsValid(s: State, h: nat)
    requires Valid(s) && Possible(s, CancelIdle(h))
    ensures Valid(Finish(s.(idles := s.idles - multiset{h}), h, Cancelled))
  {
    IdlesKeepValid(s, s.idles - multiset{h});
    FinishKeepsValid(s.(idles := s.idles - multiset{h}), h, Cancelled);
  }

  lemma StoppingKeepsValid(s: State)
    requires Valid(s)
    ensures Valid(s.(stopping := true))
  {
  }

  lemma SignalKeepsValid(s: State, h: nat)
    requires Valid(s) && Possible(s, CancelSignal(h))
    ensures Valid(Signalled(s, h))
  {
    var r := s.requests[h].(cancelled := true);
    TellSame(s.count, s.requests, s.stories, h, r);
    SameKeepsMirrored(Table(s), s.requests, s.pending, h, r);
    SignalKeepsNumbered(s, h);
  }

  lemma SignalKeepsNumbered(s: State, h: nat)
    requires Numbered(s) && h in s.requests
    ensures Numbered(Signalled(s, h))
  {
  }

  lemma SameKeepsMirrored(table: map<nat, nat>, requests: map<nat, Request>, pending: map<nat, Pending>, h: nat,
                          r: Request)
    requires Mirrored(table, requests, pending) && h in requests
    requires r.id == requests[h].id && r.finished == requests[h].finished && r.begun == requests[h].begun
    ensures Mirrored(table, requests[h := r], pending)
  {
  }

  lemma StartKeepsValid(s: State)
    requires Valid(s) && s.agent.None?
    ensures Valid(s.(agent := Some(Agent(0, map[]))))
  {
  }

  lemma StepKeepsValid(s: State, e: Event)
    requires Valid(s) && Possible(s, e)
    ensures Valid(Step(s, e))
  {
    hide Valid;
    match e
    case Start => StartKeepsValid(s);
    case Initiate(identities, cancellable, ready) => InitiatedKeepsValid(s, identities, cancellable, ready);
    case CancelSignal(h) => SignalKeepsValid(s, h);
    case CancelIdle(h) => IdleKeepsValid(s, h);
    case SessionPrompt(h) => PromptedKeepsValid(s, h);
    case SessionCompleted(h, gained) => FinishKeepsValid(s, h, if gained then Authorized else Denied);
    case Timeout(t) =>
      TimeoutIs(s, t);
      EndKeepsValid(s, s.pending[s.timers[t].id].request, Cancelled);
    case Recipient(id, client) =>
      if id > 0 && id in s.pending {
        RecipientKeepsValid(s, id, s.pending[id].recipients + {client});
      }
    case Operation(call, id, client) => OperatedKeepsValid(s, call, id, client);
    case ControlStops => StoppingKeepsValid(s);
    case Stop(order) => StopKeepsValid(s, order);
  }

  ghost predicate CanRun(s: State, events: seq<Event>)
    decreases |events|
  {
    |events| > 0 ==> Possible(s, events[0]) && CanRun(Step(s, events[0]), events[1..])
  }

  ghost function Run(s: State, events: seq<Event>): State
    requires CanRun(s, events)
    decreases |events|
  {
    if |events| == 0 then s else Run(Step(s, events[0]), events[1..])
  }

  lemma {:induction false} RunKeepsValid(s: State, events: seq<Event>)
    requires Valid(s) && CanRun(s, events)
    ensures Valid(Run(s, events))
    decreases |events|
  {
    if |events| > 0 {
      StepKeepsValid(s, events[0]);
      RunKeepsValid(Step(s, events[0]), events[1..]);
    }
  }

  /** The request has ended. */
  predicate HasEnded(s: State, h: nat) {
    h in s.requests && s.requests[h].finished
  }

  /** In the run from `s` on the control stops before the request has ended. */
  ghost predicate StopsBefore(s: State, events: seq<Event>, h: nat)
    requires CanRun(s, events)
    decreases |events|
  {
    && !HasEnded(s, h) && |events| > 0
    && (events[0].ControlStops? || StopsBefore(Step(s, events[0]), events[1..], h))
  }

  /** In every run a request that was announced was announced once. While it goes on it has an entry and an armed timer,
      and neither an end nor an answer. Then it has exactly one answer to polkit, and exactly one published end unless
      the control stopped before. The answer is the one for that end unless polkit cancelled the request before. */
  lemma ExactlyOnce(events: seq<Event>, h: nat)
    requires CanRun(INITIAL, events)
    requires h in Run(INITIAL, events).stories && Run(INITIAL, events).stories[h].requested > 0
    ensures var s := Run(INITIAL, events); var story := s.stories[h];
      && story.requested == 1 && h in s.requests
      && if !HasEnded(s, h) then
           && story.finished == [] && story.answers == []
           && s.requests[h].id in s.pending && s.pending[s.requests[h].id].request == h
           && s.pending[s.requests[h].id].timer.Some? && s.pending[s.requests[h].id].timer.value in s.timers
         else
           && |story.answers| == 1
           && (if StopsBefore(INITIAL, events, h) then story.finished == [] else |story.finished| == 1)
           && (story.finished != [] ==>
                story.answers == [Given(CancelSignal(h) in events, AnswerFor(story.finished[0]))])
  {
    hide Valid;
    InitialIsValid();
    RunKeepsValid(INITIAL, events);
    var s := Run(INITIAL, events);
    StoryIs(s, h);
    if HasEnded(s, h) {
      CancelledIffSignalled(INITIAL, events, h);
      SilentIffStoppedBefore(INITIAL, events, h);
    }
  }

  /** What a valid state says about one announced request. */
  lemma StoryIs(s: State, h: nat)
    requires Valid(s) && h in s.stories && s.stories[h].requested > 0
    ensures s.stories[h].requested == 1 && h in s.requests
    ensures var r, story := s.requests[h], s.stories[h];
      if !r.finished then
        && story.finished == [] && story.answers == []
        && r.id in s.pending && s.pending[r.id].request == h
        && s.pending[r.id].timer.Some? && s.pending[r.id].timer.value in s.timers
      else
        && |story.answers| == 1
        && if r.silent then story.finished == []
           else |story.finished| == 1 && story.answers == [Given(r.cancelled, AnswerFor(story.finished[0]))]
  {
    assert h < s.count;
    if h in s.requests && !s.requests[h].finished {
      UnfinishedIsLive(s, h);
    }
  }

  /** An announced request that ended has one published end if and only if the control was not stopping then. */
  lemma PublishedOnceIff(events: seq<Event>, h: nat)
    requires CanRun(INITIAL, events) && HasEnded(Run(INITIAL, events), h)
    requires h in Run(INITIAL, events).stories && Run(INITIAL, events).stories[h].requested > 0
    ensures |Run(INITIAL, events).stories[h].finished| == 1 <==> !StopsBefore(INITIAL, events, h)
    ensures |Run(INITIAL, events).stories[h].answers| == 1
  {
    ExactlyOnce(events, h);
  }

  /** A published end and the answer match if and only if the end is a cancellation or polkit did not cancel the request
      before it ended. */
  lemma AnswerMatchesIff(events: seq<Event>, h: nat)
    requires CanRun(INITIAL, events) && HasEnded(Run(INITIAL, events), h)
    requires h in Run(INITIAL, events).stories && Run(INITIAL, events).stories[h].requested > 0
    ensures var story := Run(INITIAL, events).stories[h];
      story.finished != [] ==>
        (story.answers == [AnswerFor(story.finished[0])] <==>
         story.finished[0] == Cancelled || CancelSignal(h) !in events)
  {
    ExactlyOnce(events, h);
  }

  // Polkit's cancellation is remembered, and comes only before the end. So is whether the end was silent.

  /** What one step, in which nothing is signalled and the control goes on as it is, makes of the requests. */
  ghost predicate Carries(stopping: bool, requests: map<nat, Request>, requests': map<nat, Request>) {
    && requests.Keys <= requests'.Keys
    && forall k :: k in requests' ==>
         && (requests'[k].cancelled <==> k in requests && requests[k].cancelled)
         && (if k in requests && requests[k].finished then
               requests'[k].finished && requests'[k].silent == requests[k].silent
             else
               requests'[k].finished ==> requests'[k].silent == stopping)
  }

  lemma FinishCarries(s: State, h: nat, outcome: Outcome)
    requires h in s.requests && (s.requests[h].finished || Live(s, h))
    ensures Carries(s.stopping, s.requests, Finish(s, h, outcome).requests)
    ensures Finish(s, h, outcome).stopping == s.stopping
  {
    if !s.requests[h].finished {
      FinishIs(s, h, outcome);
    }
  }

  lemma EndsOrIsLive(s: State, h: nat)
    requires Valid(s) && h in s.requests
    ensures s.requests[h].finished || Live(s, h)
  {
    if !s.requests[h].finished {
      UnfinishedIsLive(s, h);
    }
  }

  lemma CarriesOn(stopping: bool, a: map<nat, Request>, b: map<nat, Request>, c: map<nat, Request>)
    requires Carries(stopping, a, b) && Carries(stopping, b, c)
    ensures Carries(stopping, a, c)
  {
  }

  lemma {:induction false} FinishAllCarries(s: State, order: seq<nat>)
    requires Valid(s) && forall h :: h in order ==> h in s.requests
    ensures Carries(s.stopping, s.requests, FinishAll(s, order).requests) && FinishAll(s, order).stopping == s.stopping
    decreases |order|
  {
    hide Valid;
    if |order| > 0 {
      var most, last := order[..|order| - 1], order[|order| - 1];
      FinishAllCarries(s, most);
      FinishAllKeepsValid(s, most);
      var now := FinishAll(s, most);
      EndsOrIsLive(now, last);
      FinishCarries(now, last, Cancelled);
      CarriesOn(s.stopping, s.requests, now.requests, FinishAll(s, order).requests);
    }
  }

  lemma NewCarries(stopping: bool, requests: map<nat, Request>, h: nat, r: Request)
    requires h !in requests && !r.cancelled && (r.finished ==> r.silent == stopping)
    ensures Carries(stopping, requests, requests[h := r])
  {
  }

  lemma InitiatedCarries(s: State, identities: nat, cancellable: bool, ready: bool)
    requires Valid(s)
    ensures var s' := Initiated(s, identities, cancellable, ready);
      Carries(s.stopping, s.requests, s'.requests) && s'.stopping == s.stopping
  {
    hide Valid, Carries;
    if s.agent.Some? && identities > 0 {
      var r := NewRequest(s, identities, cancellable);
      ValidNextIsFresh(s);
      InitiatedIs(s, identities, cancellable, ready);
      NewCarries(s.stopping, s.requests, s.count, r);
      NewCarries(s.stopping, s.requests, s.count, Ended(r, s.stopping));
    } else {
      SameCarries(s.stopping, s.requests);
    }
  }

  lemma SameCarries(stopping: bool, requests: map<nat, Request>)
    ensures Carries(stopping, requests, requests)
  {
  }

  lemma OperatedCarries(s: State, call: Call, id: int, client: nat)
    requires Valid(s)
    ensures var s' := Operated(s, call, id, client);
      Carries(s.stopping, s.requests, s'.requests) && s'.stopping == s.stopping
  {
    hide Valid;
    if OperationError(s, call, id, client).None? {
      PendingIsLive(s, id);
      if call.Cancel? {
        FinishCarries(s, s.pending[id].request, Cancelled);
      }
    }
  }

  lemma PromptedCarries(s: State, h: nat)
    requires Valid(s) && Possible(s, SessionPrompt(h))
    ensures Carries(s.stopping, s.requests, Prompted(s, h).requests) && Prompted(s, h).stopping == s.stopping
  {
    hide Mirrored, Timed, Told;
    UnfinishedIsLive(s, h);
  }

  lemma IdleCarries(s: State, h: nat)
    requires Valid(s) && Possible(s, CancelIdle(h))
    ensures var s' := Step(s, CancelIdle(h)); Carries(s.stopping, s.requests, s'.requests) && s'.stopping == s.stopping
  {
    EndsOrIsLive(s, h);
    FinishCarries(s.(idles := s.idles - multiset{h}), h, Cancelled);
  }

  lemma CompletedCarries(s: State, h: nat, gained: bool)
    requires Valid(s) && Possible(s, SessionCompleted(h, gained))
    ensures var s' := Step(s, SessionCompleted(h, gained));
      Carries(s.stopping, s.requests, s'.requests) && s'.stopping == s.stopping
  {
    EndsOrIsLive(s, h);
    FinishCarries(s, h, if gained then Authorized else Denied);
  }

  lemma TimeoutCarries(s: State, t: nat)
    requires Valid(s) && Possible(s, Timeout(t))
    ensures var s' := Step(s, Timeout(t)); Carries(s.stopping, s.requests, s'.requests) && s'.stopping == s.stopping
  {
    hide Valid;
    TimeoutIs(s, t);
  }

  lemma StepCarries(s: State, e: Event)
    requires Valid(s) && Possible(s, e) && !e.CancelSignal? && !e.ControlStops?
    ensures Carries(s.stopping, s.requests, Step(s, e).requests) && Step(s, e).stopping == s.stopping
  {
    hide Valid;
    match e
    case Start =>
    case Initiate(identities, cancellable, ready) => InitiatedCarries(s, identities, cancellable, ready);
    case CancelIdle(h) => IdleCarries(s, h);
    case SessionPrompt(h) => PromptedCarries(s, h);
    case SessionCompleted(h, gained) => CompletedCarries(s, h, gained);
    case Timeout(t) => TimeoutCarries(s, t);
    case Recipient(_, _) =>
    case Operation(call, id, client) => OperatedCarries(s, call, id, client);
    case Stop(order) => FinishAllCarries(s, order);
  }

  /** One step, as far as one request is concerned. */
  lemma StepOf(s: State, e: Event, h: nat)
    requires Valid(s) && Possible(s, e)
    ensures Step(s, e).stopping == (s.stopping || e.ControlStops?)
    ensures h in s.requests ==> h in Step(s, e).requests
    ensures h in Step(s, e).requests ==>
      && (Step(s, e).requests[h].cancelled <==> (h in s.requests && s.requests[h].cancelled) || e == CancelSignal(h))
      && (HasEnded(s, h) ==> HasEnded(Step(s, e), h) && Step(s, e).requests[h].silent == s.requests[h].silent)
      && (!HasEnded(s, h) && HasEnded(Step(s, e), h) ==> Step(s, e).requests[h].silent == s.stopping)
  {
    hide Valid;
    if !e.CancelSignal? && !e.ControlStops? {
      StepCarries(s, e);
      CarriedOne(s.stopping, s.requests, Step(s, e).requests, h);
    }
  }

  lemma CarriedOne(stopping: bool, requests: map<nat, Request>, requests': map<nat, Request>, h: nat)
    requires Carries(stopping, requests, requests')
    ensures h in requests ==> h in requests'
    ensures h in requests' ==>
      && (requests'[h].cancelled <==> h in requests && requests[h].cancelled)
      && (h in requests && requests[h].finished ==> requests'[h].finished && requests'[h].silent == requests[h].silent)
      && (!(h in requests && requests[h].finished) && requests'[h].finished ==> requests'[h].silent == stopping)
  {
  }

  lemma {:induction false} CancelledIffSignalled(s: State, events: seq<Event>, h: nat)
    requires Valid(s) && CanRun(s, events) && h in Run(s, events).requests
    ensures Run(s, events).requests[h].cancelled <==>
      (h in s.requests && s.requests[h].cancelled) || CancelSignal(h) in events
    decreases |events|
  {
    hide Valid;
    if |events| > 0 {
      var e, s' := events[0], Step(s, events[0]);
      StepKeepsValid(s, e);
      StepOf(s, e, h);
      CancelledIffSignalled(s', events[1..], h);
      assert CancelSignal(h) in events <==> e == CancelSignal(h) || CancelSignal(h) in events[1..];
    }
  }

  lemma {:induction false} SilentIffStoppedBefore(s: State, events: seq<Event>, h: nat)
    requires Valid(s) && CanRun(s, events) && HasEnded(Run(s, events), h)
    ensures HasEnded(s, h) ==> Run(s, events).requests[h].silent == s.requests[h].silent
    ensures !HasEnded(s, h) ==> (Run(s, events).requests[h].silent <==> s.stopping || StopsBefore(s, events, h))
    decreases |events|
  {
    hide Valid;
    if |events| > 0 {
      var e, s' := events[0], Step(s, events[0]);
      StepKeepsValid(s, e);
      StepOf(s, e, h);
      SilentIffStoppedBefore(s', events[1..], h);
    }
  }

  /** Polkit cancels, and the session ends well before the main loop gets to the cancellation: clients are told that the
      request was authorized, and polkit that it was cancelled. */
  lemma AuthorizedButCancelled(s: State, h: nat)
    requires Valid(s) && !s.stopping && h in s.requests && s.requests[h].session && s.requests[h].cancellable
    ensures var events := [CancelSignal(h), SessionCompleted(h, true)];
      && CanRun(s, events) && h in Run(s, events).stories
      && Run(s, events).stories[h] == Story(1, [Authorized], [CancelledError])
  {
    UnfinishedIsLive(s, h);
    SignalKeepsValid(s, h);
    FinishKeepsValid(Signalled(s, h), h, Authorized);
    RunTwo(s, CancelSignal(h), SessionCompleted(h, true));
  }

  lemma RunTwo(s: State, e: Event, e': Event)
    requires Possible(s, e) && Possible(Step(s, e), e')
    ensures CanRun(s, [e, e']) && Run(s, [e, e']) == Step(Step(s, e), e')
  {
    var s' := Step(s, e);
    assert [e, e'][1..] == [e'] && [e'][1..] == [];
    assert CanRun(Step(s', e'), []) && Run(Step(s', e'), []) == Step(s', e');
    assert CanRun(s', [e']) && Run(s', [e']) == Step(s', e');
  }

  lemma {:induction false} RunConcat(s: State, a: seq<Event>, b: seq<Event>)
    requires CanRun(s, a) && CanRun(Run(s, a), b)
    ensures CanRun(s, a + b) && Run(s, a + b) == Run(Run(s, a), b)
    decreases |a|
  {
    hide Step, Possible;
    if |a| == 0 {
      assert a + b == b;
    } else {
      RunConcat(Step(s, a[0]), a[1..], b);
      assert (a + b)[1..] == a[1..] + b;
    }
  }

  /** The first agent has its first request, which the control has announced. */
  function FirstListed(): State {
    Listed(INITIAL.(agent := Some(Agent(0, map[]))), 1, true)
  }

  lemma FirstListedIsReached()
    ensures CanRun(INITIAL, [Start, Initiate(1, true, true)])
    ensures Run(INITIAL, [Start, Initiate(1, true, true)]) == FirstListed() && Valid(FirstListed())
  {
    hide Valid, Run, CanRun;
    InitialIsValid();
    RunTwo(INITIAL, Start, Initiate(1, true, true));
    InitiatedIs(INITIAL.(agent := Some(Agent(0, map[]))), 1, true, true);
    RunKeepsValid(INITIAL, [Start, Initiate(1, true, true)]);
  }

  /** That happens: with the first request of a session that a client takes on. */
  lemma AuthorizedButCancelledIsReached() returns (events: seq<Event>)
    ensures CanRun(INITIAL, events) && 0 in Run(INITIAL, events).stories
    ensures Run(INITIAL, events).stories[0] == Story(1, [Authorized], [CancelledError])
  {
    hide Valid, Run, CanRun;
    var s, begin := FirstListed(), Operation(Begin(None), 1, 0);
    FirstListedIsReached();
    StepKeepsValid(s, begin);
    RunOne(s, begin);
    RunConcat(INITIAL, [Start, Initiate(1, true, true)], [begin]);
    AuthorizedButCancelled(Step(s, begin), 0);
    events := [Start, Initiate(1, true, true)] + [begin];
    RunConcat(INITIAL, events, [CancelSignal(0), SessionCompleted(0, true)]);
    events := events + [CancelSignal(0), SessionCompleted(0, true)];
  }

  lemma RunOne(s: State, e: Event)
    requires Possible(s, e)
    ensures CanRun(s, [e]) && Run(s, [e]) == Step(s, e)
  {
    assert [e][1..] == [] && CanRun(Step(s, e), []) && Run(Step(s, e), []) == Step(s, e);
  }

  /** When the control stops, and then its agent, every announced request that is still going on gets its answer, and
      nobody is told of its end. */
  lemma ShutdownIsSilent(s: State, order: seq<nat>, h: nat)
    requires Valid(s) && Possible(s, Stop(order)) && h in s.requests && !s.requests[h].finished
    ensures var events := [ControlStops, Stop(order)];
      && CanRun(s, events) && h in Run(s, events).stories
      && Run(s, events).stories[h].requested == 1 && Run(s, events).stories[h].finished == []
      && |Run(s, events).stories[h].answers| == 1
  {
    hide Run, CanRun, Told, Timed, Mirrored;
    var s' := s.(stopping := true);
    UnfinishedIsLive(s, h);
    StoppingKeepsValid(s);
    RunTwo(s, ControlStops, Stop(order));
    StoriesStay(s', order, h);
    StopEndsAll(s', order, h);
  }

  /** That happens to the first request of a session. */
  lemma ShutdownIsReached()
    ensures var events := [Start, Initiate(1, true, true)] + [ControlStops, Stop([0])];
      && CanRun(INITIAL, events) && 0 in Run(INITIAL, events).stories
      && Run(INITIAL, events).stories[0].requested == 1 && Run(INITIAL, events).stories[0].finished == []
  {
    hide Valid, Run, CanRun;
    FirstListedIsReached();
    var table := FirstListed().agent.value.requests;
    assert table == map[1 := 0];
    assert forall h :: h in table.Values <==> h == 0 by {
      assert table[1] == 0;
    }
    StopIsPossibleIff(FirstListed(), [0]);
    ShutdownIsSilent(FirstListed(), [0], 0);
    RunConcat(INITIAL, [Start, Initiate(1, true, true)], [ControlStops, Stop([0])]);
  }

  /** An ended request. */
  predicate Settled(s: State, h: nat) {
    h < s.count && (h in s.requests ==> s.requests[h].finished)
  }

  /** After a stop every request that was ever announced has its one answer, and its one end unless it is silent. */
  lemma StopEndsAll(s: State, order: seq<nat>, h: nat)
    requires Valid(s) && Possible(s, Stop(order))
    requires h in Step(s, Stop(order)).stories && Step(s, Stop(order)).stories[h].requested > 0
    ensures h in Step(s, Stop(order)).requests
    ensures var s' := Step(s, Stop(order)); var r, story := s'.requests[h], s'.stories[h];
      && |story.answers| == 1
      && (if r.silent then story.finished == []
          else |story.finished| == 1 && story.answers == [Given(r.cancelled, AnswerFor(story.finished[0]))])
      && (!HasEnded(s, h) ==> r.silent == s.stopping)
  {
    hide Valid;
    StopKeepsValid(s, order);
    StoryIs(Step(s, Stop(order)), h);
    FinishAllCarries(s, order);
  }

  lemma {:induction false} StoriesStay(s: State, order: seq<nat>, h: nat)
    requires Valid(s) && (forall k :: k in order ==> k in s.requests) && h in s.stories
    ensures h in FinishAll(s, order).stories && FinishAll(s, order).stories[h].requested == s.stories[h].requested
    decreases |order|
  {
    hide Valid;
    if |order| > 0 {
      var most, last := order[..|order| - 1], order[|order| - 1];
      StoriesStay(s, most, h);
      FinishAllKeepsValid(s, most);
      EndsOrIsLive(FinishAll(s, most), last);
      StoryStays(FinishAll(s, most), last, h);
    }
  }

  lemma StoryStays(s: State, k: nat, h: nat)
    requires k in s.requests && (s.requests[k].finished || Live(s, k)) && h in s.stories
    ensures var s' := Finish(s, k, Cancelled); h in s'.stories && s'.stories[h].requested == s.stories[h].requested
  {
    if !s.requests[k].finished {
      FinishIs(s, k, Cancelled);
    }
  }

  /** Nobody has to act for a request to end: its own timer cancels it. */
  lemma TimerEndsRequest(s: State, id: nat)
    requires Valid(s) && id in s.pending
    ensures s.pending[id].timer.Some? && Possible(s, Timeout(s.pending[id].timer.value))
    ensures var s' := Step(s, Timeout(s.pending[id].timer.value));
      && s'.pending == s.pending - {id}
      && s'.stories[s.pending[id].request] == Story(1, if s.stopping then [] else [Cancelled], [CancelledError])
  {
    PendingIsLive(s, id);
    TimeoutIs(s, s.pending[id].timer.value);
  }

  lemma FinishKeepsSettled(s: State, h: nat, outcome: Outcome, k: nat)
    requires Valid(s) && h in s.requests && Settled(s, k) && k in s.stories
    ensures var s' := Finish(s, h, outcome); Settled(s', k) && k in s'.stories && s'.stories[k] == s.stories[k]
  {
    if !s.requests[h].finished {
      UnfinishedIsLive(s, h);
      FinishIs(s, h, outcome);
    }
  }

  lemma {:induction false} FinishAllKeepsSettled(s: State, order: seq<nat>, k: nat)
    requires Valid(s) && (forall h :: h in order ==> h in s.requests) && Settled(s, k) && k in s.stories
    ensures var s' := FinishAll(s, order); Settled(s', k) && k in s'.stories && s'.stories[k] == s.stories[k]
    decreases |order|
  {
    if |order| > 0 {
      var most := order[..|order| - 1];
      FinishAllKeepsSettled(s, most, k);
      FinishAllKeepsValid(s, most);
      FinishKeepsSettled(FinishAll(s, most), order[|order| - 1], Cancelled, k);
    }
  }

  /** The story of an ended request is the same afterwards. */
  ghost predicate LeavesAlone(s: State, s': State, k: nat) {
    Settled(s, k) && k in s.stories ==> Settled(s', k) && k in s'.stories && s'.stories[k] == s.stories[k]
  }

  lemma TimeoutLeavesAlone(s: State, t: nat, k: nat)
    requires Valid(s) && Possible(s, Timeout(t))
    ensures LeavesAlone(s, Step(s, Timeout(t)), k)
  {
    TimeoutIs(s, t);
  }

  lemma PromptLeavesAlone(s: State, h: nat, k: nat)
    requires Valid(s) && Possible(s, SessionPrompt(h))
    ensures LeavesAlone(s, Prompted(s, h), k)
  {
    UnfinishedIsLive(s, h);
  }

  lemma IdleLeavesAlone(s: State, h: nat, k: nat)
    requires Valid(s) && Possible(s, CancelIdle(h))
    ensures LeavesAlone(s, Step(s, CancelIdle(h)), k)
  {
    if Settled(s, k) && k in s.stories {
      IdlesKeepValid(s, s.idles - multiset{h});
      FinishKeepsSettled(s.(idles := s.idles - multiset{h}), h, Cancelled, k);
    }
  }

  lemma StepKeepsSettled(s: State, e: Event, k: nat)
    requires Valid(s) && Possible(s, e) && Settled(s, k) && k in s.stories
    ensures LeavesAlone(s, Step(s, e), k)
  {
    hide Valid;
    match e
    case Start =>
    case Initiate(_, _, _) => InitiatedKeepsSettled(s, e, k);
    case CancelSignal(_) =>
    case CancelIdle(h) => IdleLeavesAlone(s, h, k);
    case SessionPrompt(h) => PromptLeavesAlone(s, h, k);
    case SessionCompleted(h, gained) => FinishKeepsSettled(s, h, if gained then Authorized else Denied, k);
    case Timeout(t) => TimeoutLeavesAlone(s, t, k);
    case Recipient(_, _) =>
    case Operation(call, id, client) => OperatedKeepsSettled(s, call, id, client, k);
    case ControlStops =>
    case Stop(order) => FinishAllKeepsSettled(s, order, k);
  }

  lemma InitiatedKeepsSettled(s: State, e: Event, k: nat)
    requires Valid(s) && e.Initiate? && Settled(s, k) && k in s.stories
    ensures var s' := Step(s, e); Settled(s', k) && k in s'.stories && s'.stories[k] == s.stories[k]
  {
    hide Valid;
    if s.agent.Some? && e.identities > 0 {
      ValidNextIsFresh(s);
      InitiatedIs(s, e.identities, e.cancellable, e.ready);
    }
  }

  lemma OperatedKeepsSettled(s: State, call: Call, id: int, client: nat, k: nat)
    requires Valid(s) && Settled(s, k) && k in s.stories
    ensures var s' := Operated(s, call, id, client); Settled(s', k) && k in s'.stories && s'.stories[k] == s.stories[k]
  {
    hide Valid;
    if OperationError(s, call, id, client).None? {
      PendingIsLive(s, id);
      if call.Cancel? {
        FinishKeepsSettled(s, s.pending[id].request, Cancelled, k);
      }
    }
  }

  /** An end is final: no later event publishes another one or answers polkit again. */
  lemma {:induction false} StoryIsFinal(s: State, events: seq<Event>, k: nat)
    requires Valid(s) && CanRun(s, events) && Settled(s, k) && k in s.stories
    ensures k in Run(s, events).stories && Run(s, events).stories[k] == s.stories[k]
    decreases |events|
  {
    if |events| > 0 {
      StepKeepsValid(s, events[0]);
      StepKeepsSettled(s, events[0], k);
      StoryIsFinal(Step(s, events[0]), events[1..], k);
    }
  }

  // The code, with its callbacks. Pointers are numbers, and what the world sees is recorded in the stories.

  class Control {
    var stopping: bool
    var agent: Option<Agent>
    var requests: map<nat, Request>
    var count: nat
    var pending: map<nat, Pending>
    var timers: map<nat, Timer>
    var armed: nat
    var idles: multiset<nat>
    ghost var stories: map<nat, Story>

    ghost function Abs(): State
      reads this
    {
      State(stopping, agent, requests, count, pending, timers, armed, idles, stories)
    }

    constructor ()
      ensures Abs() == INITIAL
    {
      stopping, agent, requests, count, pending, timers, armed := false, None, map[], 0, map[], map[], 0;
      idles, stories := multiset{}, map[];
    }

    method PublishFinished(h: nat, outcome: Outcome)
      modifies this
      ensures Abs() == Publish(old(Abs()), h, outcome)
    {
      if stopping {
        return;
      }
      ghost var story := StoryOf(Abs(), h);
      stories := stories[h := story.(finished := story.finished + [outcome])];
    }

    method ReturnTask(h: nat, outcome: Outcome)
      requires h in requests
      modifies this
      ensures Abs() == AnswerTask(old(Abs()), h, AnswerFor(outcome))
    {
      if requests[h].task {
        stories := AnswerTask(Abs(), h, if outcome == Cancelled then CancelledError else Completed).stories;
        requests := requests[h := requests[h].(task := false)];
      }
    }

    /** If the entry of the request is still listed, it is the entry of this request. */
    ghost predicate Linked(h: nat)
      requires h in requests
      reads this
    {
      requests[h].id in pending ==> pending[requests[h].id].request == h
    }

    /** The private channel to the supervisor is lost, or the compositor is about to stop. */
    method Abort()
      modifies this
      ensures Abs() == Step(old(Abs()), ControlStops)
    {
      stopping := true;
    }

    method DetachRequest(h: nat)
      requires h in requests
      modifies this
      ensures Abs() == Detach(old(Abs()), h)
    {
      var request := requests[h];
      requests := requests[h := request.(finished := true, prompt := false, session := false, cancellable := false,
                                         attached := false, silent := stopping)];
      if request.attached && agent.Some? {
        agent := Some(agent.value.(requests := agent.value.requests - {request.id}));
      }
    }

    method RequestFinish(h: nat, outcome: Outcome)
      requires h in requests && (requests[h].finished || Linked(h))
      modifies this
      ensures Abs() == Finish(old(Abs()), h, outcome)
      decreases if requests[h].finished then 0 else 1, 0
    {
      var request := requests[h];
      if request.finished {
        return;
      }
      DetachRequest(h);
      if request.attached {
        AuthFinished(h, outcome);
      }
      ReturnTask(h, outcome);
    }

    /** The callback that the agent calls when a request ends. */
    method AuthFinished(h: nat, outcome: Outcome)
      requires h in requests && requests[h].finished && Linked(h)
      modifies this
      ensures var s, id := old(Abs()), old(requests)[h].id;
        Abs() == if id in s.pending then Publish(Unlist(s, id), s.pending[id].request, outcome) else s
      decreases 0, 3
    {
      var id := requests[h].id;
      if id !in pending {
        return;
      }
      pending := pending[id := pending[id].(outcome := outcome)];
      RemovePending(id);
      assert old(pending)[id := old(pending)[id].(outcome := outcome)] - {id} == old(pending) - {id};
    }

    /** Removing an entry from the table frees it, after it has left the table. */
    method RemovePending(id: nat)
      requires id in pending && pending[id].request in requests && requests[pending[id].request].id == id
      modifies this
      ensures Abs() == Remove(old(Abs()), id)
      decreases if requests[pending[id].request].finished then 0 else 1, 2
    {
      var entry := pending[id];
      pending := pending - {id};
      PendingFree(id, entry);
    }

    method PendingFree(id: nat, entry: Pending)
      requires entry.request in requests && requests[entry.request].id == id && id !in pending
      modifies this
      ensures var s := old(Abs());
        var s' := s.(timers := if entry.timer.Some? then s.timers - {entry.timer.value} else s.timers);
        Abs() == Publish(Finish(s', entry.request, Cancelled), entry.request, entry.outcome)
      decreases if requests[entry.request].finished then 0 else 1, 1
    {
      if entry.timer.Some? {
        timers := timers - {entry.timer.value};
      }
      RequestFinish(entry.request, Cancelled);
      PublishFinished(entry.request, entry.outcome);
    }

    method ArmTimer(id: nat, seconds: nat)
      requires id in pending
      modifies this
      ensures Abs() == Arm(old(Abs()), id, seconds)
    {
      var entry := pending[id];
      if entry.timer.Some? {
        timers := timers - {entry.timer.value};
      }
      timers := timers[armed := Timer(id, seconds)];
      pending := pending[id := entry.(timer := Some(armed))];
      armed := armed + 1;
    }

    /** The callback that the agent calls for a new request. */
    method AuthStarted(h: nat, ready: bool)
      requires h in requests && requests[h].id !in pending
      modifies this
      ensures Abs() == if old(stopping) || !ready || |old(pending)| >= MAX_PENDING then Finish(old(Abs()), h, Cancelled)
                       else List(old(Abs()), h)
    {
      if stopping || !ready || |pending| >= MAX_PENDING {
        RequestFinish(h, Cancelled);
        return;
      }
      var id := requests[h].id;
      pending := pending[id := Pending(h, None, Cancelled, false, {})];
      ArmTimer(id, UNCLAIMED);
      ghost var story := StoryOf(Abs(), h);
      stories := stories[h := story.(requested := story.requested + 1)];
    }

    /** What polkit calls. */
    method InitiateAuthentication(identities: nat, cancellable: bool, ready: bool)
      requires agent.Some? ==> agent.value.nextId + 1 !in pending
      modifies this
      ensures Abs() == Initiated(old(Abs()), identities, cancellable, ready)
    {
      var h := count;
      count := count + 1;
      if agent.None? || identities == 0 {
        stories := stories[h := Story(0, [], [Refused])];
        return;
      }
      var id := agent.value.nextId + 1;
      agent := Some(Agent(id, agent.value.requests[id := h]));
      requests := requests[h := Request(id, identities, false, false, false, false, true, cancellable, false, false,
                                        true)];
      AuthStarted(h, ready);
    }

    /** The callback that the agent calls for a prompt. */
    method AuthPrompt(h: nat)
      requires h in requests && Linked(h)
      modifies this
      ensures var s, id := old(Abs()), old(requests)[h].id;
        Abs() == if id in s.pending then Arm(s, id, ANSWER) else Finish(s, h, Cancelled)
    {
      var id := requests[h].id;
      if id !in pending {
        RequestFinish(h, Cancelled);
        return;
      }
      ArmTimer(id, ANSWER);
    }

    method OnSessionRequest(h: nat)
      requires h in requests && Linked(h)
      modifies this
      ensures Abs() == Prompted(old(Abs()), h)
    {
      if requests[h].finished || !requests[h].attached {
        return;
      }
      requests := requests[h := requests[h].(prompt := true)];
      AuthPrompt(h);
    }

    method OnSessionCompleted(h: nat, gained: bool)
      requires h in requests && Linked(h)
      modifies this
      ensures Abs() == Finish(old(Abs()), h, if gained then Authorized else Denied)
    {
      RequestFinish(h, if gained then Authorized else Denied);
    }

    method OnTimeout(t: nat)
      requires Possible(Abs(), Timeout(t)) && requests[pending[timers[t].id].request].id == timers[t].id
      modifies this
      ensures Abs() == Step(old(Abs()), Timeout(t))
    {
      var id := timers[t].id;
      timers := timers - {t};
      pending := pending[id := pending[id].(timer := None)];
      RemovePending(id);
    }

    /** Polkit may call this on any thread, so it only queues the cancellation. */
    method OnCancelled(h: nat)
      requires h in requests
      modifies this
      ensures Abs() == Signalled(old(Abs()), h)
    {
      requests := requests[h := requests[h].(cancelled := true)];
      idles := idles + multiset{h};
    }

    method OnCancelIdle(h: nat)
      requires Possible(Abs(), CancelIdle(h)) && (requests[h].finished || Linked(h))
      modifies this
      ensures Abs() == Step(old(Abs()), CancelIdle(h))
    {
      idles := idles - multiset{h};
      RequestFinish(h, Cancelled);
    }

    method NoteRecipient(id: int, client: nat)
      modifies this
      ensures Abs() == Step(old(Abs()), Recipient(id, client))
    {
      if id > 0 && id in pending {
        pending := pending[id := pending[id].(recipients := pending[id].recipients + {client})];
      }
    }

    method RequestBegin(h: nat, index: nat) returns (error: Option<Error>)
      requires h in requests
      modifies this
      ensures var r := old(requests)[h];
        error == if r.finished then Some(Closed) else if r.begun then Some(AlreadyStarted)
                 else if index >= r.identities then Some(OutOfRange) else None
      ensures var r := old(requests)[h];
        Abs() == if error.Some? then old(Abs())
                 else old(Abs()).(requests := old(requests)[h := r.(begun := true, session := true)])
    {
      var request := requests[h];
      if request.finished {
        return Some(Closed);
      }
      if request.begun {
        return Some(AlreadyStarted);
      }
      if index >= request.identities {
        return Some(OutOfRange);
      }
      requests := requests[h := request.(begun := true, session := true)];
      error := None;
    }

    method RequestRespond(h: nat) returns (error: Option<Error>)
      requires h in requests
      modifies this
      ensures var r := old(requests)[h];
        error == if r.finished then Some(Closed) else if !r.session || !r.prompt then Some(NoPrompt) else None
      ensures Abs() == if error.Some? then old(Abs())
                       else old(Abs()).(requests := old(requests)[h := old(requests)[h].(prompt := false)])
    {
      var request := requests[h];
      if request.finished {
        return Some(Closed);
      }
      if !request.session || !request.prompt {
        return Some(NoPrompt);
      }
      requests := requests[h := request.(prompt := false)];
      error := None;
    }

    /** What clients call. */
    method AuthOperation(call: Call, id: int, client: nat) returns (error: Option<Error>)
      requires forall i :: i in pending ==> pending[i].request in requests && requests[pending[i].request].id == i
      modifies this
      ensures error == OperationError(old(Abs()), call, id, client)
      ensures Abs() == Operated(old(Abs()), call, id, client)
      ensures error == Some(NotRecipient) <==>
        id > 0 && id in old(pending) && client != 0 && client !in old(pending)[id].recipients
      ensures error.None? <==>
        && id > 0 && id in old(pending) && (client == 0 || client in old(pending)[id].recipients)
        && var r := old(requests)[old(pending)[id].request];
          match call
          case Begin(None) => !r.finished && !r.begun && r.identities > 0
          case Begin(Some(n)) => n >= 1 && !r.finished && !r.begun && (n - 1) % 0x1_0000_0000 < r.identities
          case Respond(response) => response.Some? && !r.finished && r.session && r.prompt
          case Cancel => true
    {
      if id <= 0 {
        return Some(BadRequestId);
      }
      if id !in pending {
        return Some(NotPending);
      }
      if client != 0 && client !in pending[id].recipients {
        return Some(NotRecipient);
      }
      var h := pending[id].request;
      match call {
        case Begin(identity) =>
          if identity.Some? && identity.value < 1 {
            return Some(BadIdentity);
          }
          error := RequestBegin(h, IdentityIndex(identity));
          if error.Some? {
            return;
          }
          pending := pending[id := pending[id].(begun := true)];
          ArmTimer(id, ANSWER);
        case Respond(response) =>
          if response.None? {
            return Some(NoResponse);
          }
          error := RequestRespond(h);
          if error.Some? {
            return;
          }
          ArmTimer(id, ANSWER);
        case Cancel =>
          RequestFinish(h, Cancelled);
          error := None;
      }
    }

    /** Ends every request of a snapshot of the agent's table, in any order; then the agent goes. */
    method AuthStop(order: seq<nat>)
      requires Valid(Abs()) && Possible(Abs(), Stop(order))
      modifies this
      ensures Abs() == Step(old(Abs()), Stop(order)) && Valid(Abs())
      ensures pending == map[] && timers == map[]
    {
      hide Valid;
      StopKeepsValid(Abs(), order);
      CancelAll(order);
      agent := None;
      // Nothing is left for clear_pending_auth.
    }

    method CancelAll(order: seq<nat>)
      requires Valid(Abs()) && forall h :: h in order ==> h in requests
      modifies this
      ensures Abs() == FinishAll(old(Abs()), order)
    {
      ghost var first, now := Abs(), Abs();
      for i := 0 to |order|
        invariant Abs() == now && now == FinishAll(first, order[..i])
      {
        FinishOneMore(first, order, i);
        CancelNext(order[i], now);
        now := Finish(now, order[i], Cancelled);
      }
      assert order[..|order|] == order;
    }

    method CancelNext(h: nat, ghost now: State)
      requires Abs() == now && Valid(now) && h in now.requests
      modifies this
      ensures Abs() == Finish(now, h, Cancelled)
    {
      if !requests[h].finished {
        UnfinishedIsLive(now, h);
      }
      RequestFinish(h, Cancelled);
    }
  }

  lemma FinishOneMore(s: State, order: seq<nat>, i: nat)
    requires Valid(s) && i < |order| && forall h :: h in order ==> h in s.requests
    ensures var now := FinishAll(s, order[..i]);
      Valid(now) && order[i] in now.requests && FinishAll(s, order[..i + 1]) == Finish(now, order[i], Cancelled)
  {
    FinishAllKeepsValid(s, order[..i]);
    assert order[..i + 1][..i] == order[..i] && order[..i + 1][i] == order[i];
  }
}
