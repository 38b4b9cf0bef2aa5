/** What clients can do to a request, told by what came before in the run (src/agents/gnoblin-control-auth.c,
    gnoblin_control_auth_operation). */
module AuthClients {
  import opened Options
  import opened AuthRequests

  // What steps make of the entries, and of what the requests remember.

  /** Entries may go, and requests may end, but what stays is as it was. */
  ghost predicate Fewer(pending: map<nat, Pending>, requests: map<nat, Request>, pending': map<nat, Pending>,
                        requests': map<nat, Request>) {
    && (forall id :: id in pending' ==>
         id in pending && pending'[id].request == pending[id].request
         && pending'[id].recipients == pending[id].recipients)
    && (forall id :: id in pending && id !in pending' ==>
         pending[id].request in requests' && requests'[pending[id].request].finished)
    && requests'.Keys == requests.Keys
    && (forall h :: h in requests' ==>
         && requests'[h].begun == requests[h].begun
         && (!requests'[h].finished ==> !requests[h].finished && requests'[h].prompt == requests[h].prompt))
  }

  ghost predicate FewerIn(s: State, s': State) {
    Fewer(s.pending, s.requests, s'.pending, s'.requests)
  }

  lemma FinishIsFewer(s: State, h: nat, outcome: Outcome)
    requires Valid(s) && h in s.requests
    ensures FewerIn(s, Finish(s, h, outcome))
  {
    hide Valid;
    if !s.requests[h].finished {
      UnfinishedIsLive(s, h);
      FinishIs(s, h, outcome);
      assert AfterEnd(s, h, outcome).requests.Keys == s.requests.Keys;
    }
  }

  lemma TimeoutIsFewer(s: State, t: nat)
    requires Valid(s) && Possible(s, Timeout(t))
    ensures FewerIn(s, Step(s, Timeout(t)))
  {
    hide Valid;
    TimeoutIs(s, t);
    var h := s.pending[s.timers[t].id].request;
    assert AfterEnd(s, h, Cancelled).requests.Keys == s.requests.Keys;
  }

  lemma {:induction false} FinishAllIsFewer(s: State, order: seq<nat>)
    requires Valid(s) && forall h :: h in order ==> h in s.requests
    ensures FewerIn(s, FinishAll(s, order))
    decreases |order|
  {
    hide Valid, Finish;
    if |order| > 0 {
      var most := order[..|order| - 1];
      FinishAllIsFewer(s, most);
      FinishAllKeepsValid(s, most);
      FinishIsFewer(FinishAll(s, most), order[|order| - 1], Cancelled);
    }
  }

  /** The client asked for something, and the control did it. */
  ghost predicate Takes(s: State, e: Event, h: nat)
    requires Possible(s, e)
  {
    && e.Operation? && Step(s, e) != s
    && e.id > 0 && e.id in s.pending && s.pending[e.id].request == h
  }

  ghost predicate Begins(s: State, e: Event, h: nat)
    requires Possible(s, e)
  {
    Takes(s, e, h) && e.call.Begin?
  }

  ghost predicate Responds(s: State, e: Event, h: nat)
    requires Possible(s, e)
  {
    Takes(s, e, h) && e.call.Respond?
  }

  /** A listed client, or the one that needs no listing. */
  predicate MayOperate(s: State, id: int, client: nat) {
    id > 0 && id in s.pending && (client == 0 || client in s.pending[id].recipients)
  }

  /** What a begin, a response or a cancel needs. */
  ghost predicate Accepted(s: State, call: Call, id: int, client: nat) {
    && MayOperate(s, id, client) && s.pending[id].request in s.requests
    && var r := s.requests[s.pending[id].request];
      match call
      case Begin(None) => !r.begun && r.identities > 0
      case Begin(Some(n)) => !r.begun && n >= 1 && (n - 1) % 0x1_0000_0000 < r.identities
      case Respond(response) => response.Some? && r.prompt
      case Cancel => true
  }

  lemma ListedRequest(s: State, id: nat)
    requires Valid(s) && id in s.pending
    ensures Live(s, s.pending[id].request) && s.requests[s.pending[id].request].id == id
    ensures Fields(s.requests[s.pending[id].request])
    ensures s.requests[s.pending[id].request].begun == s.pending[id].begun
    ensures id > 0
  {
    PendingIsLive(s, id);
  }

  lemma ErrorIff(s: State, call: Call, id: int, client: nat)
    requires Valid(s)
    ensures OperationError(s, call, id, client).None? <==> Accepted(s, call, id, client)
  {
    hide Valid;
    if id > 0 && id in s.pending {
      ListedRequest(s, id);
    }
  }

  lemma CancelIs(s: State, id: int, client: nat)
    requires Valid(s) && Accepted(s, Cancel, id, client)
    ensures Step(s, Operation(Cancel, id, client)) == AfterEnd(s, s.pending[id].request, Cancelled)
  {
    hide Valid, AfterEnd, Finish, OperationError, Live;
    ListedRequest(s, id);
    ErrorIff(s, Cancel, id, client);
    FinishIs(s, s.pending[id].request, Cancelled);
  }

  lemma SubmissionIs(s: State, call: Call, id: int, client: nat)
    requires Valid(s) && Accepted(s, call, id, client) && !call.Cancel?
    ensures var h := s.pending[id].request;
      && Live(s, h) && s.requests[h].id == id
      && Step(s, Operation(call, id, client)) == Rearmed(s, h, Submitted(s.requests[h], call), true)
  {
    hide Valid, Rearmed, Operated, OperationError, Live, Submitted;
    ListedRequest(s, id);
    ErrorIff(s, call, id, client);
    OperatedIs(s, call, id, client);
  }

  /** What an operation that is not refused does. */
  lemma OperationIs(s: State, call: Call, id: int, client: nat)
    requires Valid(s) && Accepted(s, call, id, client)
    ensures var h := s.pending[id].request;
      && Live(s, h) && s.requests[h].id == id
      && Step(s, Operation(call, id, client)) ==
        if call.Cancel? then AfterEnd(s, h, Cancelled) else Rearmed(s, h, Submitted(s.requests[h], call), true)
  {
    hide Valid, Step, AfterEnd, Rearmed, Live, Submitted;
    ListedRequest(s, id);
    if call.Cancel? {
      CancelIs(s, id, client);
    } else {
      SubmissionIs(s, call, id, client);
    }
  }

  /** An operation does something if and only if the client may operate on the request and the request allows it, and an
      operation that does nothing is refused. */
  lemma OperationTakesEffectIff(s: State, call: Call, id: int, client: nat)
    requires Valid(s)
    ensures Step(s, Operation(call, id, client)) != s <==> Accepted(s, call, id, client)
    ensures OperationError(s, call, id, client).Some? <==> !Accepted(s, call, id, client)
  {
    hide Valid, Accepted;
    ErrorIff(s, call, id, client);
    if Accepted(s, call, id, client) {
      OperationIs(s, call, id, client);
      assert call.Cancel? ==> id !in Step(s, Operation(call, id, client)).pending;
    }
  }

  // One step, as far as one entry or one request is concerned.

  /** A client becomes a recipient exactly when it is noted as one, and stays one as long as the entry does. An entry
      goes only with the end of its request. */
  ghost predicate RecipientsStep(s: State, e: Event, s': State, id: nat, client: nat) {
    && (id in s'.pending ==>
         (client in s'.pending[id].recipients <==>
           && id in s.pending && (client in s.pending[id].recipients || e == Recipient(id, client))))
    && (id in s.pending ==>
         if id in s'.pending then s'.pending[id].request == s.pending[id].request
         else HasEnded(s', s.pending[id].request))
  }

  /** A request is begun exactly by a begin, and waits for a response exactly from a prompt to a response. */
  ghost predicate RequestStep(s: State, e: Event, s': State, h: nat)
    requires Possible(s, e)
  {
    h in s'.requests ==>
      && (s'.requests[h].begun <==> (h in s.requests && s.requests[h].begun) || Begins(s, e, h))
      && (!s'.requests[h].finished ==>
           (s'.requests[h].prompt <==>
             e == SessionPrompt(h) || (h in s.requests && s.requests[h].prompt && !Responds(s, e, h))))
  }

  lemma FewerSteps(s: State, e: Event, s': State, id: nat, client: nat, h: nat)
    requires Possible(s, e) && FewerIn(s, s')
    requires !e.Recipient? && !e.SessionPrompt? && (e.Operation? ==> e.call.Cancel?)
    ensures RecipientsStep(s, e, s', id, client) && RequestStep(s, e, s', h)
  {
    hide Step, Possible;
  }

  /** A step that enters a new request, and perhaps lists it. */
  lemma NewSteps(s: State, e: Event, s': State, r: Request, id: nat, client: nat, h: nat)
    requires Possible(s, e) && e.Initiate? && s.count !in s.requests && !r.begun && !r.prompt
    requires s'.requests == s.requests || s'.requests == s.requests[s.count := r]
    requires s'.pending == s.pending
      || (r.id !in s.pending && exists p :: s'.pending == s.pending[r.id := p] && p.recipients == {})
    ensures RecipientsStep(s, e, s', id, client) && RequestStep(s, e, s', h)
  {
    hide Step, Possible;
  }

  lemma ListedSteps(s: State, e: Event, id: nat, client: nat, h: nat)
    requires Valid(s) && e.Initiate?
    ensures RecipientsStep(s, e, Step(s, e), id, client) && RequestStep(s, e, Step(s, e), h)
  {
    hide Valid, RecipientsStep, RequestStep;
    if s.agent.Some? && e.identities > 0 {
      ValidNextIsFresh(s);
      InitiatedIs(s, e.identities, e.cancellable, e.ready);
      var r := NewRequest(s, e.identities, e.cancellable);
      var p := Pending(s.count, Some(s.armed), Cancelled, false, {});
      assert Listed(s, e.identities, e.cancellable).pending == s.pending[r.id := p];
      NewSteps(s, e, Step(s, e), if Step(s, e).pending == s.pending then Ended(r, s.stopping) else r, id, client, h);
    } else {
      NextIsFree(s);
      NewSteps(s, e, Step(s, e), Request(0, 0, false, false, false, false, false, false, false, false, false), id,
        client, h);
    }
  }

  lemma NextIsFree(s: State)
    requires Valid(s)
    ensures s.count !in s.requests
  {
    NextIsNumber(s);
  }

  /** A step that only changes one listed request and arms its timer again. */
  lemma RearmedSteps(s: State, e: Event, h': nat, r: Request, id: nat, client: nat, h: nat)
    requires Possible(s, e) && Live(s, h') && r.id == s.requests[h'].id && !e.Recipient?
    requires Step(s, e) == Rearmed(s, h', r, true)
    requires r.begun <==> s.requests[h'].begun || Begins(s, e, h')
    requires r.prompt <==> e == SessionPrompt(h') || (s.requests[h'].prompt && !Responds(s, e, h'))
    requires forall k :: k != h' ==> e != SessionPrompt(k) && !Takes(s, e, k)
    ensures RecipientsStep(s, e, Step(s, e), id, client) && RequestStep(s, e, Step(s, e), h)
  {
    hide Step, Possible, Takes;
  }

  lemma PromptIs(s: State, h: nat)
    requires Valid(s) && Possible(s, SessionPrompt(h))
    ensures Live(s, h) && Step(s, SessionPrompt(h)) == Rearmed(s, h, s.requests[h].(prompt := true), true)
  {
    assert Fields(s.requests[h]);
    UnfinishedIsLive(s, h);
    var r := s.requests[h].(prompt := true);
    assert s.pending[r.id].begun;
    assert Prompted(s, h).pending == Rearmed(s, h, r, true).pending;
  }

  lemma PromptSteps(s: State, h': nat, id: nat, client: nat, h: nat)
    requires Valid(s) && Possible(s, SessionPrompt(h'))
    ensures var e := SessionPrompt(h');
      RecipientsStep(s, e, Step(s, e), id, client) && RequestStep(s, e, Step(s, e), h)
  {
    hide Valid, Rearmed, RecipientsStep, RequestStep;
    PromptIs(s, h');
    RearmedSteps(s, SessionPrompt(h'), h', s.requests[h'].(prompt := true), id, client, h);
  }

  lemma OperationSteps(s: State, call: Call, id': int, client': nat, id: nat, client: nat, h: nat)
    requires Valid(s) && Accepted(s, call, id', client')
    ensures var e := Operation(call, id', client');
      RecipientsStep(s, e, Step(s, e), id, client) && RequestStep(s, e, Step(s, e), h)
  {
    hide Valid, Rearmed, RecipientsStep, RequestStep, AfterEnd, OperationError;
    var e, h' := Operation(call, id', client'), s.pending[id'].request;
    OperationTakesEffectIff(s, call, id', client');
    OperationIs(s, call, id', client');
    if call.Cancel? {
      CancelIsFewer(s, h');
      FewerSteps(s, e, Step(s, e), id, client, h);
    } else {
      hide Step;
      RearmedSteps(s, e, h', Submitted(s.requests[h'], call), id, client, h);
    }
  }

  lemma CancelIsFewer(s: State, h: nat)
    requires Live(s, h)
    ensures FewerIn(s, AfterEnd(s, h, Cancelled))
  {
    assert AfterEnd(s, h, Cancelled).requests.Keys == s.requests.Keys;
  }

  lemma SameSteps(s: State, e: Event, id: nat, client: nat, h: nat)
    requires Possible(s, e) && Step(s, e) == s && !e.Recipient? && !e.SessionPrompt?
    ensures RecipientsStep(s, e, s, id, client) && RequestStep(s, e, s, h)
  {
    hide Step, Possible;
  }

  lemma NotedSteps(s: State, e: Event, s': State, id: nat, client: nat, h: nat)
    requires Possible(s, e) && e.Recipient? && s'.requests == s.requests && (id in s.pending ==> id > 0)
    requires s'.pending == if e.id > 0 && e.id in s.pending
      then s.pending[e.id := s.pending[e.id].(recipients := s.pending[e.id].recipients + {e.client})] else s.pending
    ensures RecipientsStep(s, e, s', id, client) && RequestStep(s, e, s', h)
  {
    hide Step, Possible;
  }

  lemma RecipientSteps(s: State, e: Event, id: nat, client: nat, h: nat)
    requires Valid(s) && e.Recipient?
    ensures RecipientsStep(s, e, Step(s, e), id, client) && RequestStep(s, e, Step(s, e), h)
  {
    hide Valid, Live, Fields, RecipientsStep, RequestStep, Initiated, Operated, Prompted, Finish, FinishAll, Remove;
    if id in s.pending {
      ListedRequest(s, id);
    }
    NotedSteps(s, e, Step(s, e), id, client, h);
  }

  /** What neither ends a request nor is about clients and prompts. */
  lemma OthersAreFewer(s: State, e: Event)
    requires Possible(s, e) && (e.Start? || e.CancelSignal? || e.ControlStops?)
    ensures FewerIn(s, Step(s, e))
  {
  }

  lemma IdleIsFewer(s: State, h: nat)
    requires Valid(s) && Possible(s, CancelIdle(h))
    ensures FewerIn(s, Step(s, CancelIdle(h)))
  {
    IdlesKeepValid(s, s.idles - multiset{h});
    hide Valid, Finish;
    FinishIsFewer(s.(idles := s.idles - multiset{h}), h, Cancelled);
  }

  lemma EntryStep(s: State, e: Event, id: nat, client: nat, h: nat)
    requires Valid(s) && Possible(s, e)
    ensures RecipientsStep(s, e, Step(s, e), id, client) && RequestStep(s, e, Step(s, e), h)
  {
    hide Valid, RecipientsStep, RequestStep, Finish, FinishAll, Accepted;
    match e
    case Initiate(_, _, _) => ListedSteps(s, e, id, client, h);
    case SessionPrompt(h') => PromptSteps(s, h', id, client, h);
    case Recipient(_, _) => RecipientSteps(s, e, id, client, h);
    case Operation(call, id', client') =>
      OperationTakesEffectIff(s, call, id', client');
      if Accepted(s, call, id', client') {
        OperationSteps(s, call, id', client', id, client, h);
      } else {
        SameSteps(s, e, id, client, h);
      }
    case CancelIdle(h') =>
      IdleIsFewer(s, h');
      FewerSteps(s, e, Step(s, e), id, client, h);
    case SessionCompleted(h', gained) =>
      FinishIsFewer(s, h', if gained then Authorized else Denied);
      FewerSteps(s, e, Step(s, e), id, client, h);
    case Timeout(t) =>
      TimeoutIsFewer(s, t);
      FewerSteps(s, e, Step(s, e), id, client, h);
    case Stop(order) =>
      FinishAllIsFewer(s, order);
      FewerSteps(s, e, Step(s, e), id, client, h);
    case _ =>
      OthersAreFewer(s, e);
      FewerSteps(s, e, Step(s, e), id, client, h);
  }

  // Whole runs.

  /** At some point of the run the client is noted for request `h`, which is listed as `id` then. */
  ghost predicate Noted(s: State, events: seq<Event>, id: nat, h: nat, client: nat)
    requires CanRun(s, events)
    decreases |events|
  {
    && |events| > 0
    && ((events[0] == Recipient(id, client) && id in s.pending && s.pending[id].request == h)
        || Noted(Step(s, events[0]), events[1..], id, h, client))
  }

  lemma {:induction false} EndedStays(s: State, events: seq<Event>, h: nat)
    requires Valid(s) && CanRun(s, events) && HasEnded(s, h)
    ensures HasEnded(Run(s, events), h)
    decreases |events|
  {
    hide Valid, Step, Possible, HasEnded;
    if |events| > 0 {
      StepKeepsValid(s, events[0]);
      EndedStaysOnce(s, events[0], h);
      EndedStays(Step(s, events[0]), events[1..], h);
    }
  }

  lemma EndedStaysOnce(s: State, e: Event, h: nat)
    requires Valid(s) && Possible(s, e) && HasEnded(s, h)
    ensures HasEnded(Step(s, e), h)
  {
    hide Valid, Step, Possible;
    StepOf(s, e, h);
  }

  /** An entry that is there at the end of the run is there from the moment it is seen. */
  lemma EntryStays(s: State, e: Event, events: seq<Event>, id: nat)
    requires Valid(s) && Possible(s, e) && CanRun(Step(s, e), events)
    requires var s' := Run(Step(s, e), events);
      id in s.pending && id in s'.pending && s'.pending[id].request == s.pending[id].request
    ensures id in Step(s, e).pending && Step(s, e).pending[id].request == s.pending[id].request
  {
    hide Valid, Step, Possible, RequestStep, HasEnded, Live;
    StepKeepsValid(s, e);
    RunKeepsValid(Step(s, e), events);
    EntryStep(s, e, id, 0, 0);
    if id !in Step(s, e).pending {
      EndedStays(Step(s, e), events, s.pending[id].request);
      ListedHasNotEnded(Run(Step(s, e), events), id);
    }
  }

  lemma ListedHasNotEnded(s: State, id: nat)
    requires Valid(s) && id in s.pending
    ensures !HasEnded(s, s.pending[id].request)
  {
    hide Valid;
    PendingIsLive(s, id);
  }

  lemma {:induction false} RecipientsFrom(s: State, events: seq<Event>, id: nat, client: nat)
    requires Valid(s) && CanRun(s, events) && id in Run(s, events).pending
    ensures var p := Run(s, events).pending[id];
      client in p.recipients <==>
        || (id in s.pending && s.pending[id].request == p.request && client in s.pending[id].recipients)
        || Noted(s, events, id, p.request, client)
    decreases |events|
  {
    hide Valid, Step, Possible, RequestStep, HasEnded;
    if |events| > 0 {
      var s' := Step(s, events[0]);
      StepKeepsValid(s, events[0]);
      EntryStep(s, events[0], id, client, 0);
      RecipientsFrom(s', events[1..], id, client);
      if id in s.pending && s.pending[id].request == Run(s, events).pending[id].request {
        EntryStays(s, events[0], events[1..], id);
      }
    }
  }

  /** In every run, a client may operate on a request exactly when it was noted for it since it was listed. */
  lemma RecipientsAreNoted(events: seq<Event>, id: nat, client: nat)
    requires CanRun(INITIAL, events) && id in Run(INITIAL, events).pending
    ensures var p := Run(INITIAL, events).pending[id];
      client in p.recipients <==> Noted(INITIAL, events, id, p.request, client)
  {
    InitialIsValid();
    RecipientsFrom(INITIAL, events, id, client);
  }

  /** How often a begin of the request did something. */
  ghost function Beginnings(s: State, events: seq<Event>, h: nat): nat
    requires CanRun(s, events)
    decreases |events|
  {
    if |events| == 0 then 0
    else (if Begins(s, events[0], h) then 1 else 0) + Beginnings(Step(s, events[0]), events[1..], h)
  }

  predicate HasBegun(s: State, h: nat) {
    h in s.requests && s.requests[h].begun
  }

  /** A begin of a request that has begun does nothing. */
  lemma BeginsOnce(s: State, e: Event, h: nat)
    requires Valid(s) && Possible(s, e)
    ensures HasBegun(Step(s, e), h) <==> HasBegun(s, h) || Begins(s, e, h)
    ensures !(HasBegun(s, h) && Begins(s, e, h))
  {
    hide Valid, RecipientsStep;
    EntryStep(s, e, 0, 0, h);
    StepOf(s, e, h);
    if Begins(s, e, h) {
      OperationTakesEffectIff(s, e.call, e.id, e.client);
      OperationIs(s, e.call, e.id, e.client);
    }
  }

  lemma {:induction false} BeginningsFrom(s: State, events: seq<Event>, h: nat)
    requires Valid(s) && CanRun(s, events)
    ensures Beginnings(s, events, h) + (if HasBegun(s, h) then 1 else 0) == if HasBegun(Run(s, events), h) then 1 else 0
    decreases |events|
  {
    hide Valid, Step, Possible, HasBegun, Begins;
    if |events| > 0 {
      StepKeepsValid(s, events[0]);
      BeginsOnce(s, events[0], h);
      BeginningsFrom(Step(s, events[0]), events[1..], h);
    }
  }

  /** In every run a request is begun at most once. */
  lemma BegunAtMostOnce(events: seq<Event>, h: nat)
    requires CanRun(INITIAL, events)
    ensures Beginnings(INITIAL, events, h) <= 1
    ensures Beginnings(INITIAL, events, h) == 1 <==> HasBegun(Run(INITIAL, events), h)
  {
    InitialIsValid();
    BeginningsFrom(INITIAL, events, h);
  }

  /** Whether a prompt of the request waits for its response: it came after the last response that did something. */
  ghost predicate Waits(s: State, events: seq<Event>, h: nat, waiting: bool)
    requires CanRun(s, events)
    decreases |events|
  {
    if |events| == 0 then waiting
    else
      Waits(Step(s, events[0]), events[1..], h,
        events[0] == SessionPrompt(h) || (waiting && !Responds(s, events[0], h)))
  }

  ghost predicate Prompts(s: State, h: nat) {
    h in s.requests && s.requests[h].prompt
  }

  lemma PromptsStep(s: State, e: Event, h: nat)
    requires Valid(s) && Possible(s, e) && !HasEnded(Step(s, e), h)
    ensures Prompts(Step(s, e), h) <==> e == SessionPrompt(h) || (Prompts(s, h) && !Responds(s, e, h))
  {
    hide Valid, Step, RecipientsStep;
    EntryStep(s, e, 0, 0, h);
    StepOf(s, e, h);
  }

  lemma {:induction false} WaitsFrom(s: State, events: seq<Event>, h: nat)
    requires Valid(s) && CanRun(s, events) && !HasEnded(Run(s, events), h)
    ensures Prompts(Run(s, events), h) <==> Waits(s, events, h, Prompts(s, h))
    decreases |events|
  {
    hide Valid, Step, Possible, HasEnded, Prompts, Responds;
    if |events| > 0 {
      StepKeepsValid(s, events[0]);
      if HasEnded(Step(s, events[0]), h) {
        EndedStays(Step(s, events[0]), events[1..], h);
      }
      PromptsStep(s, events[0], h);
      WaitsFrom(Step(s, events[0]), events[1..], h);
    }
  }

  /** In every run, what an operation needs, told by the events before it: the client was noted for the request since
      it was listed, a begin is the first one, and a response answers a prompt that came after the last response. An
      operation that lacks any of this is refused and changes nothing, and a cancel needs no more than the client. */
  lemma OperationNeedsEvents(events: seq<Event>, call: Call, id: int, client: nat)
    requires CanRun(INITIAL, events)
    ensures var s := Run(INITIAL, events);
      var s' := Step(s, Operation(call, id, client));
      && (s' == s <==> OperationError(s, call, id, client).Some?)
      && (s' != s <==>
        && id > 0 && id in s.pending
        && var h := s.pending[id].request;
          && (client == 0 || Noted(INITIAL, events, id, h, client))
          && h in s.requests
          && match call
             case Begin(None) => Beginnings(INITIAL, events, h) == 0 && s.requests[h].identities > 0
             case Begin(Some(n)) =>
               Beginnings(INITIAL, events, h) == 0 && 1 <= n && (n - 1) % 0x1_0000_0000 < s.requests[h].identities
             case Respond(response) => response.Some? && Waits(INITIAL, events, h, false)
             case Cancel => true)
  {
    hide Valid, Step, OperationError;
    InitialIsValid();
    RunKeepsValid(INITIAL, events);
    var s := Run(INITIAL, events);
    OperationTakesEffectIff(s, call, id, client);
    if id > 0 && id in s.pending {
      ListedRequest(s, id);
      var h := s.pending[id].request;
      RecipientsAreNoted(events, id, client);
      BegunAtMostOnce(events, h);
      WaitsFrom(INITIAL, events, h);
    }
  }

  /** A cancel ends the request, whoever of the recipients sends it. */
  lemma CancelEndsRequest(s: State, id: nat, client: nat)
    requires Valid(s) && id in s.pending && (client == 0 || client in s.pending[id].recipients)
    ensures var h := s.pending[id].request; var s' := Step(s, Operation(Cancel, id, client));
      && HasEnded(s', h) && id !in s'.pending && h in s'.stories
      && s'.stories[h] == Story(1, if s.stopping then [] else [Cancelled], [CancelledError])
  {
    hide Valid;
    ListedRequest(s, id);
    CancelIs(s, id, client);
  }

  /** What the world sees of the end of a request that goes on: which end, and which answer. */
  lemma EndIs(s: State, e: Event, h: nat)
    requires Valid(s) && Possible(s, e) && h in s.requests && !s.requests[h].finished
    ensures
      var cancels := e == CancelIdle(h) || (e.Timeout? && s.timers[e.t].id == s.requests[h].id);
      var answer := if s.requests[h].cancelled || cancels then CancelledError else Completed;
      var outcome := if cancels then Cancelled else if e == SessionCompleted(h, true) then Authorized else Denied;
      cancels || (e.SessionCompleted? && e.h == h) ==>
        && HasEnded(Step(s, e), h) && h in Step(s, e).stories
        && Step(s, e).stories[h] == Story(1, if s.stopping then [] else [outcome], [answer])
  {
    hide Valid, Finish, FinishAll, Remove;
    UnfinishedIsLive(s, h);
    if e == CancelIdle(h) {
      FinishIs(s.(idles := s.idles - multiset{h}), h, Cancelled);
    } else if e.SessionCompleted? && e.h == h {
      FinishIs(s, h, if e.gained then Authorized else Denied);
    } else if e.Timeout? {
      TimeoutIs(s, e.t);
    }
  }

  /** What becomes of a request from polkit: refused by the agent, cancelled unannounced, or listed and announced. */
  lemma ArrivalIs(s: State, identities: nat, cancellable: bool, ready: bool)
    requires Valid(s)
    ensures var s' := Step(s, Initiate(identities, cancellable, ready));
      && s.count in s'.stories
      && if s.agent.None? || identities == 0 then
           s'.stories[s.count] == Story(0, [], [Refused]) && s'.pending == s.pending
         else if s.stopping || !ready || |s.pending| >= 8 then
           s'.stories[s.count] == Story(0, [], [CancelledError]) && s'.pending == s.pending
         else
           var id := s.agent.value.nextId + 1;
           && s'.stories[s.count] == Story(1, [], []) && id !in s.pending
           && s'.pending == s.pending[id := Pending(s.count, Some(s.armed), Cancelled, false, {})]
           && s'.timers == s.timers[s.armed := Timer(id, 15)]
  {
    hide Valid, Finish;
    if s.agent.Some? && identities > 0 {
      ValidNextIsFresh(s);
      InitiatedIs(s, identities, cancellable, ready);
    }
  }

  /** In every run at most eight requests are listed, with 15 seconds to begin and 120 from then on. */
  lemma LimitsHold(events: seq<Event>, id: nat)
    requires CanRun(INITIAL, events)
    ensures var s := Run(INITIAL, events);
      && |s.pending| <= 8
      && (id in s.pending ==>
           && s.pending[id].timer.Some? && s.pending[id].timer.value in s.timers
           && s.timers[s.pending[id].timer.value] ==
                Timer(id, if Beginnings(INITIAL, events, s.pending[id].request) == 0 then 15 else 120))
  {
    InitialIsValid();
    RunKeepsValid(INITIAL, events);
    var s := Run(INITIAL, events);
    if id in s.pending {
      ListedRequest(s, id);
      BegunAtMostOnce(events, s.pending[id].request);
    }
  }
}
