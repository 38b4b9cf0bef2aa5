/** The priority semaphore of the pipeline driver (scripts/run-pipeline.py, PrioritySlots). */
module PrioritySlots {
  import opened Sets

  datatype Ticket = Ticket(priority: int, order: nat)

  predicate Less(a: Ticket, b: Ticket) {
    a.priority < b.priority || (a.priority == b.priority && a.order < b.order)
  }

  /** The top of the heap. */
  predicate IsLeast(waiting: set<Ticket>, ticket: Ticket) {
    ticket in waiting && forall x :: x in waiting ==> !Less(x, ticket)
  }

  /** A thread inside acquire sleeps on the condition or was woken and competes for the lock. */
  datatype Phase = Asleep(ticket: Ticket) | Awake(ticket: Ticket) | Holding

  /** A ticket that got a slot, and how many tickets had been drawn by then. */
  datatype Grant = Grant(ticket: Ticket, drawn: nat)

  datatype State = State(free: int, waiting: set<Ticket>, order: nat, threads: map<int, Phase>, grants: seq<Grant>)

  /** One critical section of one thread, or a wakeup that nobody asked for. */
  datatype Event = Arrive(t: int, priority: int) | Resume(t: int) | Stir(t: int) | Release(t: int)

  function Initial(count: int): State {
    State(count, {}, 0, map[], [])
  }

  predicate Possible(s: State, e: Event) {
    match e
    case Arrive(t, _) => t !in s.threads
    case Resume(t) => t in s.threads && s.threads[t].Awake?
    case Stir(t) => t in s.threads && s.threads[t].Asleep?
    case Release(t) => t in s.threads && s.threads[t].Holding?
  }

  function Woken(p: Phase): Phase {
    if p.Asleep? then Awake(p.ticket) else p
  }

  function NotifyAll(threads: map<int, Phase>): map<int, Phase> {
    map t | t in threads :: Woken(threads[t])
  }

  /** The guard of the loop in acquire, and what follows it. */
  function Check(s: State, t: int, ticket: Ticket): State {
    if s.free == 0 || !IsLeast(s.waiting, ticket) then
      s.(threads := s.threads[t := Asleep(ticket)])
    else
      State(s.free - 1, s.waiting - {ticket}, s.order, NotifyAll(s.threads[t := Holding]),
            s.grants + [Grant(ticket, s.order)])
  }

  function Draw(s: State, t: int, ticket: Ticket): State {
    s.(order := s.order + 1, waiting := s.waiting + {ticket}, threads := s.threads[t := Awake(ticket)])
  }

  function Step(s: State, e: Event): State
    requires Possible(s, e)
  {
    match e
    case Arrive(t, priority) =>
      var ticket := Ticket(priority, s.order + 1);
      Check(Draw(s, t, ticket), t, ticket)
    case Resume(t) => Check(s, t, s.threads[t].ticket)
    case Stir(t) => s.(threads := s.threads[t := Woken(s.threads[t])])
    case Release(t) => s.(free := s.free + 1, threads := NotifyAll(s.threads - {t}))
  }

  // What every step keeps.

  function Holders(threads: map<int, Phase>): set<int> {
    set t | t in threads && threads[t].Holding?
  }

  ghost predicate InQueue(threads: map<int, Phase>, k: Ticket) {
    exists t :: t in threads && !threads[t].Holding? && threads[t].ticket == k
  }

  predicate SameOrder(p: Phase, q: Phase) {
    !p.Holding? && !q.Holding? && p.ticket.order == q.ticket.order
  }

  /** The tickets in the heap are exactly those of the threads inside acquire, each with one of its own. */
  ghost predicate Queued(s: State) {
    && (forall t :: t in s.threads && !s.threads[t].Holding? ==> s.threads[t].ticket in s.waiting)
    && (forall k :: k in s.waiting ==> k.order <= s.order && InQueue(s.threads, k))
    && (forall t, u :: t in s.threads && u in s.threads && SameOrder(s.threads[t], s.threads[u]) ==> t == u)
  }

  /** While a slot is free, the first in line is not asleep. */
  ghost predicate NoLostWakeup(s: State) {
    s.free != 0 ==> forall t :: t in s.threads && s.threads[t].Asleep? ==> !IsLeast(s.waiting, s.threads[t].ticket)
  }

  /** A grant goes before every ticket that is larger or was not drawn yet. */
  ghost predicate Before(g: Grant, k: Ticket) {
    Less(g.ticket, k) || k.order > g.drawn
  }

  ghost predicate Fair(s: State) {
    && (forall i :: 0 <= i < |s.grants| ==> s.grants[i].ticket.order <= s.grants[i].drawn <= s.order)
    && (forall i, k :: 0 <= i < |s.grants| && k in s.waiting ==> Before(s.grants[i], k))
    && (forall i, j :: 0 <= i < j < |s.grants| ==> Before(s.grants[i], s.grants[j].ticket))
  }

  ghost predicate Valid(s: State, count: int) {
    s.free + |Holders(s.threads)| == count && Queued(s) && NoLostWakeup(s) && Fair(s)
  }

  lemma NotifyAllHolders(threads: map<int, Phase>)
    ensures Holders(NotifyAll(threads)) == Holders(threads)
  {
    assert forall t :: t in Holders(NotifyAll(threads)) <==> t in Holders(threads);
  }

  lemma CheckBalances(s: State, t: int, ticket: Ticket)
    requires t in s.threads && s.threads[t].Awake?
    ensures Check(s, t, ticket).free + |Holders(Check(s, t, ticket).threads)| == s.free + |Holders(s.threads)|
  {
    if s.free == 0 || !IsLeast(s.waiting, ticket) {
      assert Holders(s.threads[t := Asleep(ticket)]) == Holders(s.threads);
    } else {
      assert Holders(s.threads[t := Holding]) == Holders(s.threads) + {t};
      NotifyAllHolders(s.threads[t := Holding]);
    }
  }

  lemma CheckQueues(s: State, t: int)
    requires Queued(s) && t in s.threads && s.threads[t].Awake?
    ensures Queued(Check(s, t, s.threads[t].ticket))
  {
    var ticket := s.threads[t].ticket;
    var s' := Check(s, t, ticket);
    forall k | k in s'.waiting ensures InQueue(s'.threads, k) {
      assert InQueue(s.threads, k);
      var u :| u in s.threads && !s.threads[u].Holding? && s.threads[u].ticket == k;
      assert u in s'.threads && !s'.threads[u].Holding? && s'.threads[u].ticket == k;
    }
  }

  lemma CheckLosesNoWakeup(s: State, t: int)
    requires NoLostWakeup(s) && t in s.threads && s.threads[t].Awake?
    ensures NoLostWakeup(Check(s, t, s.threads[t].ticket))
  {
  }

  lemma CheckIsFair(s: State, t: int)
    requires Queued(s) && Fair(s) && t in s.threads && s.threads[t].Awake?
    ensures Fair(Check(s, t, s.threads[t].ticket))
  {
    var ticket := s.threads[t].ticket;
    if s.free != 0 && IsLeast(s.waiting, ticket) {
      forall k | k in s.waiting - {ticket} ensures Less(ticket, k) {
        assert InQueue(s.threads, k);
      }
    }
  }

  lemma CheckKeepsValid(s: State, t: int, count: int)
    requires Valid(s, count) && t in s.threads && s.threads[t].Awake?
    ensures Valid(Check(s, t, s.threads[t].ticket), count)
  {
    CheckBalances(s, t, s.threads[t].ticket);
    CheckQueues(s, t);
    CheckLosesNoWakeup(s, t);
    CheckIsFair(s, t);
  }

  lemma DrawKeepsValid(s: State, t: int, ticket: Ticket, count: int)
    requires Valid(s, count) && t !in s.threads && ticket.order == s.order + 1
    ensures Valid(Draw(s, t, ticket), count)
  {
    var s' := Draw(s, t, ticket);
    assert Holders(s'.threads) == Holders(s.threads);
    forall k | k in s'.waiting ensures InQueue(s'.threads, k) {
      if k == ticket {
        assert s'.threads[t].ticket == k;
      } else {
        assert InQueue(s.threads, k);
        var u :| u in s.threads && !s.threads[u].Holding? && s.threads[u].ticket == k;
        assert s'.threads[u] == s.threads[u];
      }
    }
    assert NoLostWakeup(s') by {
      assert forall u :: u in s.threads && s.threads[u].Asleep? && IsLeast(s'.waiting, s.threads[u].ticket) ==>
        IsLeast(s.waiting, s.threads[u].ticket);
    }
  }

  lemma StirKeepsValid(s: State, t: int, count: int)
    requires Valid(s, count) && t in s.threads && s.threads[t].Asleep?
    ensures Valid(Step(s, Stir(t)), count)
  {
    var s' := Step(s, Stir(t));
    assert Holders(s'.threads) == Holders(s.threads);
    forall k | k in s'.waiting ensures InQueue(s'.threads, k) {
      assert InQueue(s.threads, k);
      var u :| u in s.threads && !s.threads[u].Holding? && s.threads[u].ticket == k;
      assert s'.threads[u].ticket == k;
    }
  }

  lemma ReleaseQueues(s: State, t: int)
    requires Queued(s) && t in s.threads && s.threads[t].Holding?
    ensures Queued(Step(s, Release(t)))
  {
    var s' := Step(s, Release(t));
    forall k | k in s'.waiting ensures InQueue(s'.threads, k) {
      assert InQueue(s.threads, k);
      var u :| u in s.threads && !s.threads[u].Holding? && s.threads[u].ticket == k;
      assert u in s'.threads && s'.threads[u].ticket == k;
    }
  }

  lemma ReleaseKeepsValid(s: State, t: int, count: int)
    requires Valid(s, count) && t in s.threads && s.threads[t].Holding?
    ensures Valid(Step(s, Release(t)), count)
  {
    assert Holders(s.threads - {t}) == Holders(s.threads) - {t};
    NotifyAllHolders(s.threads - {t});
    ReleaseQueues(s, t);
  }

  lemma StepKeepsValid(s: State, e: Event, count: int)
    requires Valid(s, count) && Possible(s, e)
    ensures Valid(Step(s, e), count)
  {
    match e
    case Arrive(t, priority) =>
      var ticket := Ticket(priority, s.order + 1);
      DrawKeepsValid(s, t, ticket, count);
      CheckKeepsValid(Draw(s, t, ticket), t, count);
    case Resume(t) => CheckKeepsValid(s, t, count);
    case Stir(t) => StirKeepsValid(s, t, count);
    case Release(t) => ReleaseKeepsValid(s, t, count);
  }

  // Whole runs, in every interleaving.

  predicate CanRun(s: State, events: seq<Event>)
    decreases |events|
  {
    |events| > 0 ==> Possible(s, events[0]) && CanRun(Step(s, events[0]), events[1..])
  }

  function Run(s: State, events: seq<Event>): State
    requires CanRun(s, events)
    decreases |events|
  {
    if |events| == 0 then s else Run(Step(s, events[0]), events[1..])
  }

  lemma {:induction false} RunKeepsValid(s: State, events: seq<Event>, count: int)
    requires Valid(s, count) && CanRun(s, events)
    ensures Valid(Run(s, events), count)
    decreases |events|
  {
    if |events| > 0 {
      StepKeepsValid(s, events[0], count);
      RunKeepsValid(Step(s, events[0]), events[1..], count);
    }
  }

  lemma InitialIsValid(count: int)
    ensures Valid(Initial(count), count)
  {
    assert Holders(Initial(count).threads) == {};
  }

  /** Slots are conserved. Of two grants the later one has the larger priority number, or the same and came later, or
      was drawn after the earlier grant. */
  lemma SlotsAreConservedAndFair(count: int, events: seq<Event>)
    requires CanRun(Initial(count), events)
    ensures var s := Run(Initial(count), events);
      && s.free + |Holders(s.threads)| == count
      && forall i, j :: 0 <= i < j < |s.grants| ==>
          var a, b := s.grants[i].ticket, s.grants[j].ticket;
          a.priority < b.priority || (a.priority == b.priority && a.order < b.order) || b.order > s.grants[i].drawn
  {
    InitialIsValid(count);
    RunKeepsValid(Initial(count), events, count);
    var s := Run(Initial(count), events);
    forall i, j | 0 <= i < j < |s.grants|
      ensures Less(s.grants[i].ticket, s.grants[j].ticket) || s.grants[j].ticket.order > s.grants[i].drawn
    {
      assert Before(s.grants[i], s.grants[j].ticket);
    }
  }

  /** A thread that runs gets a slot if and only if one is free and it has the smallest priority number that waits, and
      of those came first; otherwise it goes back to sleep. */
  lemma SlotGoesToFirst(s: State, t: int, count: int)
    requires Valid(s, count) && Possible(s, Resume(t))
    ensures var ticket, s' := s.threads[t].ticket, Step(s, Resume(t));
      var first := forall k :: k in s.waiting && k != ticket ==>
        ticket.priority < k.priority || (ticket.priority == k.priority && ticket.order < k.order);
      if s.free != 0 && first then
        && s'.threads[t] == Holding && s'.free == s.free - 1 && s'.waiting == s.waiting - {ticket}
        && s'.grants == s.grants + [Grant(ticket, s.order)]
      else
        && s'.threads[t] == Asleep(ticket) && s'.free == s.free && s'.waiting == s.waiting && s'.grants == s.grants
  {
    var ticket := s.threads[t].ticket;
    forall k | k in s.waiting && k.order == ticket.order ensures k == ticket {
      assert InQueue(s.threads, k);
      var u :| u in s.threads && !s.threads[u].Holding? && s.threads[u].ticket == k;
      assert SameOrder(s.threads[u], s.threads[t]);
    }
  }

  /** Within one priority the slots are given in the order of arrival. */
  lemma FirstComeFirstServed(count: int, events: seq<Event>, i: nat, j: nat)
    requires CanRun(Initial(count), events)
    requires i < j < |Run(Initial(count), events).grants|
    requires Run(Initial(count), events).grants[i].ticket.priority
      == Run(Initial(count), events).grants[j].ticket.priority
    ensures Run(Initial(count), events).grants[i].ticket.order < Run(Initial(count), events).grants[j].ticket.order
  {
    InitialIsValid(count);
    RunKeepsValid(Initial(count), events, count);
    var s := Run(Initial(count), events);
    assert Before(s.grants[i], s.grants[j].ticket);
  }

  // Progress.

  function AwakeThreads(threads: map<int, Phase>): set<int> {
    set t | t in threads && threads[t].Awake?
  }

  lemma {:induction false} LeastExists(waiting: set<Ticket>)
    requires waiting != {}
    ensures exists k :: IsLeast(waiting, k)
    decreases |waiting|
  {
    var k :| k in waiting;
    if waiting == {k} {
      assert IsLeast(waiting, k);
    } else {
      LeastExists(waiting - {k});
      var m :| IsLeast(waiting - {k}, m);
      var r := if Less(k, m) then k else m;
      forall x | x in waiting ensures !Less(x, r) {
        assert x == k || x in waiting - {k};
      }
      assert IsLeast(waiting, r);
    }
  }

  /** While a slot is free and somebody waits, a thread that is already awake gets it as soon as it runs. */
  lemma FreeSlotIsTaken(s: State, count: int)
    requires Valid(s, count) && s.free != 0 && s.waiting != {}
    ensures exists t :: t in AwakeThreads(s.threads) && Step(s, Resume(t)).threads[t].Holding?
  {
    LeastExists(s.waiting);
    var k :| IsLeast(s.waiting, k);
    assert InQueue(s.threads, k);
    var t :| t in s.threads && !s.threads[t].Holding? && s.threads[t].ticket == k;
    assert t in AwakeThreads(s.threads) && Step(s, Resume(t)).threads[t].Holding?;
  }

  /** A thread that runs after a wakeup either takes a ticket out of the heap or goes back to sleep for good. */
  lemma ResumeSettles(s: State, t: int)
    requires Possible(s, Resume(t))
    ensures var s' := Step(s, Resume(t));
      (s'.waiting < s.waiting) || (s'.waiting == s.waiting && AwakeThreads(s'.threads) == AwakeThreads(s.threads) - {t})
  {
  }

  lemma Settled(s: State, count: int)
    requires Valid(s, count) && AwakeThreads(s.threads) == {}
    ensures s.free == 0 || s.waiting == {}
  {
    if s.free != 0 && s.waiting != {} {
      FreeSlotIsTaken(s, count);
    }
  }

  /** Woken threads may run in any order: the run ends, and then no slot is free or nobody waits. */
  ghost function Settle(s: State, choice: State -> int, count: int): (r: State)
    requires Valid(s, count)
    requires forall x: State :: AwakeThreads(x.threads) != {} ==> choice(x) in AwakeThreads(x.threads)
    ensures Valid(r, count) && (r.free == 0 || r.waiting == {})
    decreases |s.waiting|, |AwakeThreads(s.threads)|
  {
    if AwakeThreads(s.threads) == {} then
      Settled(s, count);
      s
    else
      var t := choice(s);
      var s' := Step(s, Resume(t));
      StepKeepsValid(s, Resume(t), count);
      ResumeShrinks(s, t);
      Settle(s', choice, count)
  }

  lemma ResumeShrinks(s: State, t: int)
    requires Possible(s, Resume(t))
    ensures var s' := Step(s, Resume(t));
      |s'.waiting| < |s.waiting|
      || (|s'.waiting| == |s.waiting| && |AwakeThreads(s'.threads)| < |AwakeThreads(s.threads)|)
  {
    var s' := Step(s, Resume(t));
    ResumeSettles(s, t);
    if s'.waiting < s.waiting {
      SubsetSize(s'.waiting, s.waiting);
    } else {
      SubsetSize(AwakeThreads(s'.threads), AwakeThreads(s.threads));
    }
  }

  // The semaphore itself. Each method is one critical section under the condition's lock.

  class Slots {
    var free: int
    var waiting: set<Ticket>
    var order: nat
    ghost var threads: map<int, Phase>
    ghost var grants: seq<Grant>

    ghost function Abs(): State
      reads this
    {
      State(free, waiting, order, threads, grants)
    }

    constructor (count: int)
      ensures Abs() == Initial(count)
    {
      free, waiting, order, threads, grants := count, {}, 0, map[], [];
    }

    /** acquire, up to its first wait or its return. */
    method Acquire(ghost t: int, priority: int) returns (ticket: Ticket, granted: bool)
      requires Possible(Abs(), Arrive(t, priority))
      modifies this
      ensures Abs() == Step(old(Abs()), Arrive(t, priority))
      ensures t in threads && if granted then threads[t] == Holding else threads[t] == Asleep(ticket)
    {
      order := order + 1;
      ticket := Ticket(priority, order);
      waiting := waiting + {ticket};
      threads := threads[t := Awake(ticket)];
      granted := TryTake(t, ticket);
    }

    /** acquire, from one return of wait to the next wait or to its own return. */
    method TryTake(ghost t: int, ticket: Ticket) returns (granted: bool)
      requires t in threads && threads[t] == Awake(ticket)
      modifies this
      ensures Abs() == Check(old(Abs()), t, ticket)
      ensures t in threads && if granted then threads[t] == Holding else threads[t] == Asleep(ticket)
    {
      if free == 0 || !IsLeast(waiting, ticket) {
        threads := threads[t := Asleep(ticket)];
        return false;
      }
      waiting := waiting - {ticket};
      free := free - 1;
      threads := NotifyAll(threads[t := Holding]);
      grants := grants + [Grant(ticket, order)];
      granted := true;
    }

    method Release(ghost t: int)
      requires Possible(Abs(), Event.Release(t))
      modifies this
      ensures Abs() == Step(old(Abs()), Event.Release(t))
    {
      free := free + 1;
      threads := NotifyAll(threads - {t});
    }
  }
}
