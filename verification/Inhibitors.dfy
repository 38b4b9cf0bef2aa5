/** Screen saver inhibition (src/idle.c): a wrapping cookie counter, and one logind descriptor per inhibitor. */
module Inhibitors {
  import opened Options
  import opened Sets

  /** A cookie is a guint, and zero is never given out. */
  const COOKIES: nat := 0x1_0000_0000

  datatype Inhibitor = Inhibitor(sender: string, fd: int)

  /** `taken` and `closed` count how often each descriptor was handed over by logind and closed by the service. */
  datatype State = State(live: map<nat, Inhibitor>, next: nat, taken: multiset<int>, closed: multiset<int>)

  datatype Event =
    | Inhibit(sender: string, fd: int)
    | UnInhibit(sender: string, cookie: nat)
    | OwnerChanged(name: string, owner: string)
    | Shutdown

  const INITIAL := State(map[], 0, multiset{}, multiset{})

  // The cookie search.

  predicate Usable(live: map<nat, Inhibitor>, cookie: nat) {
    cookie != 0 && cookie !in live
  }

  function After(cookie: nat): (r: nat)
    ensures r < COOKIES
  {
    (cookie + 1) % COOKIES
  }

  /** How far the counter has to move from `from` to reach `to`. */
  function Gap(from: nat, to: nat): (r: nat)
    requires from < COOKIES && to < COOKIES
    ensures r < COOKIES
  {
    if from < to then to - from - 1 else to + COOKIES - from - 1
  }

  /** `r` is the first usable cookie that the counter meets after `from`. */
  ghost predicate IsNextUsable(live: map<nat, Inhibitor>, from: nat, r: nat) {
    && from < COOKIES && r < COOKIES && Usable(live, r)
    && forall c :: 0 <= c < COOKIES && Usable(live, c) ==> Gap(from, r) <= Gap(from, c)
  }

  lemma NextUsableIsUnique(live: map<nat, Inhibitor>, from: nat, r: nat, r': nat)
    requires IsNextUsable(live, from, r) && IsNextUsable(live, from, r')
    ensures r == r'
  {
    assert Gap(from, r) == Gap(from, r');
  }

  ghost predicate WithinRange(live: map<nat, Inhibitor>) {
    forall c :: c in live ==> 0 < c < COOKIES
  }

  ghost predicate HasUsable(live: map<nat, Inhibitor>) {
    exists c :: 0 < c < COOKIES && c !in live
  }

  ghost function Range(n: nat): (r: set<nat>)
    ensures |r| == n && forall c :: c in r <==> 0 < c <= n
  {
    if n == 0 then {} else Range(n - 1) + {n}
  }

  /** There is a cookie to find exactly while fewer than 2^32 - 1 inhibitors are live. */
  lemma UsableIffRoom(live: map<nat, Inhibitor>)
    requires WithinRange(live)
    ensures HasUsable(live) <==> |live| < COOKIES - 1
  {
    var all := Range(COOKIES - 1);
    SubsetSize(live.Keys, all);
    if !HasUsable(live) {
      assert all == live.Keys;
    } else {
      var c :| 0 < c < COOKIES && c !in live;
      assert c in all && c !in live.Keys;
    }
  }

  /** One turn of the loop brings the counter closer to every cookie that it did not just reach. */
  lemma GapShrinks(from: nat, to: nat)
    requires from < COOKIES && to < COOKIES && to != After(from)
    ensures Gap(from, to) == Gap(After(from), to) + 1
  {
  }

  /** The cookie that the search finds. */
  ghost function NextUsable(live: map<nat, Inhibitor>, from: nat, goal: nat): (r: nat)
    requires from < COOKIES && goal < COOKIES && Usable(live, goal)
    ensures IsNextUsable(live, from, r)
    decreases Gap(from, goal)
  {
    if Usable(live, After(from)) then
      After(from)
    else
      GapShrinks(from, goal);
      var r := NextUsable(live, After(from), goal);
      StepBack(live, from, r);
      r
  }

  lemma StepBack(live: map<nat, Inhibitor>, from: nat, r: nat)
    requires from < COOKIES && !Usable(live, After(from)) && IsNextUsable(live, After(from), r)
    ensures IsNextUsable(live, from, r)
  {
    forall c | 0 <= c < COOKIES && Usable(live, c) ensures Gap(from, r) <= Gap(from, c) {
      GapShrinks(from, c);
      GapShrinks(from, r);
    }
  }

  ghost function Found(live: map<nat, Inhibitor>, from: nat): (r: nat)
    requires from < COOKIES && WithinRange(live) && |live| < COOKIES - 1
    ensures IsNextUsable(live, from, r)
  {
    UsableIffRoom(live);
    var goal :| 0 < goal < COOKIES && goal !in live;
    NextUsable(live, from, goal)
  }

  // The protocol.

  ghost predicate Holds(live: map<nat, Inhibitor>, fd: int) {
    exists c :: c in live && live[c].fd == fd
  }

  ghost predicate Valid(s: State) {
    && WithinRange(s.live) && s.next < COOKIES
    && (forall c :: c in s.live ==> s.live[c].fd >= 0)
    && (forall c, d :: c in s.live && d in s.live && s.live[c].fd == s.live[d].fd ==> c == d)
    && (forall fd :: s.taken[fd] == s.closed[fd] + if Holds(s.live, fd) then 1 else 0)
  }

  /** The kernel hands out descriptors that are not open, and the search needs room to end. */
  ghost predicate Possible(s: State, e: Event) {
    e.Inhibit? && e.fd >= 0 ==> s.taken[e.fd] == s.closed[e.fd] && |s.live| < COOKIES - 1
  }

  /** The entries that an event takes out of the table. */
  ghost predicate Removes(e: Event, c: nat, i: Inhibitor) {
    match e
    case Inhibit(_, _) => false
    case UnInhibit(sender, cookie) => c == cookie && i.sender == sender
    case OwnerChanged(name, owner) => |name| > 0 && name[0] == ':' && |owner| == 0 && i.sender == name
    case Shutdown => true
  }

  ghost function Gone(s: State, e: Event): set<nat> {
    set c | c in s.live && Removes(e, c, s.live[c])
  }

  ghost function Descriptors(live: map<nat, Inhibitor>, cookies: set<nat>): set<int>
    requires cookies <= live.Keys
  {
    set c | c in cookies :: live[c].fd
  }

  ghost function Drop(s: State, gone: set<nat>): State
    requires gone <= s.live.Keys
  {
    s.(live := s.live - gone, closed := s.closed + multiset(Descriptors(s.live, gone)))
  }

  ghost function Step(s: State, e: Event): State
    requires Valid(s) && Possible(s, e)
  {
    if e.Inhibit? then
      if e.fd < 0 then s
      else
        var cookie := Found(s.live, s.next);
        State(s.live[cookie := Inhibitor(e.sender, e.fd)], cookie, s.taken + multiset{e.fd}, s.closed)
    else
      Drop(s, Gone(s, e))
  }

  lemma DropNone(s: State)
    ensures Drop(s, {}) == s
  {
    assert s.live - {} == s.live;
  }

  /** Removing one of the entries first adds exactly its own descriptor to the closed ones. */
  lemma DropOne(s: State, gone: set<nat>, c: nat)
    requires Valid(s) && gone <= s.live.Keys && c in gone
    ensures gone - {c} <= Drop(s, {c}).live.Keys
    ensures Drop(Drop(s, {c}), gone - {c}) == Drop(s, gone)
  {
    var fd, rest := s.live[c].fd, gone - {c};
    assert s.live - {c} - rest == s.live - gone;
    assert Descriptors(s.live, {c}) == {fd};
    assert Descriptors(s.live - {c}, rest) == Descriptors(s.live, rest);
    assert Descriptors(s.live, gone) == Descriptors(s.live, rest) + {fd};
    assert fd !in Descriptors(s.live, rest);
    assert multiset(Descriptors(s.live, rest) + {fd}) == multiset({fd}) + multiset(Descriptors(s.live, rest));
  }

  lemma DropKeepsValid(s: State, gone: set<nat>)
    requires Valid(s) && gone <= s.live.Keys
    ensures Valid(Drop(s, gone))
  {
    var s' := Drop(s, gone);
    forall fd ensures s'.taken[fd] == s'.closed[fd] + if Holds(s'.live, fd) then 1 else 0 {
      if fd in Descriptors(s.live, gone) {
        var c :| c in gone && s.live[c].fd == fd;
        assert Holds(s.live, fd);
        assert !Holds(s'.live, fd);
      } else if Holds(s.live, fd) {
        var c :| c in s.live && s.live[c].fd == fd;
        assert c in s'.live;
      }
    }
  }

  lemma InhibitKeepsValid(s: State, e: Event)
    requires Valid(s) && Possible(s, e) && e.Inhibit? && e.fd >= 0
    ensures Valid(Step(s, e))
  {
    var s' := Step(s, e);
    assert !Holds(s.live, e.fd);
    forall fd ensures s'.taken[fd] == s'.closed[fd] + if Holds(s'.live, fd) then 1 else 0 {
      if fd == e.fd {
        assert s'.next in s'.live;
      } else if Holds(s.live, fd) {
        var c :| c in s.live && s.live[c].fd == fd;
        assert c in s'.live;
      }
    }
  }

  /** Live cookies stay distinct, non-zero and within 32 bits, and exactly the descriptors in use are open. */
  lemma StepKeepsValid(s: State, e: Event)
    requires Valid(s) && Possible(s, e)
    ensures Valid(Step(s, e))
  {
    if e.Inhibit? {
      if e.fd >= 0 {
        InhibitKeepsValid(s, e);
      }
    } else {
      DropKeepsValid(s, Gone(s, e));
    }
  }

  // Whole runs.

  ghost predicate CanRun(s: State, events: seq<Event>)
    requires Valid(s)
    decreases |events|
  {
    |events| > 0 ==>
      Possible(s, events[0]) && (StepKeepsValid(s, events[0]); CanRun(Step(s, events[0]), events[1..]))
  }

  ghost function Run(s: State, events: seq<Event>): (r: State)
    requires Valid(s) && CanRun(s, events)
    ensures Valid(r)
    decreases |events|
  {
    if |events| == 0 then s
    else StepKeepsValid(s, events[0]); Run(Step(s, events[0]), events[1..])
  }

  /** An entry leaves the table only through its owner's call, its owner's disconnect or the end of the service. */
  lemma OnlyOwnerRemoves(s: State, e: Event, c: nat)
    requires Valid(s) && Possible(s, e) && c in s.live
    ensures c !in Step(s, e).live <==> Removes(e, c, s.live[c])
    ensures c in Step(s, e).live ==> Step(s, e).live[c] == s.live[c]
    ensures Step(s, e).closed[s.live[c].fd] == s.closed[s.live[c].fd] + if Removes(e, c, s.live[c]) then 1 else 0
  {
    var fd := s.live[c].fd;
    if !e.Inhibit? {
      var gone := Gone(s, e);
      assert fd in Descriptors(s.live, gone) <==> c in gone;
    }
  }

  /** An entry that no event removes is there, unchanged and with its descriptor open, at the end of the run. */
  lemma {:induction false} EntryStays(s: State, events: seq<Event>, c: nat)
    requires Valid(s) && CanRun(s, events) && c in s.live
    requires forall e :: e in events ==> !Removes(e, c, s.live[c])
    ensures c in Run(s, events).live && Run(s, events).live[c] == s.live[c]
    ensures Run(s, events).closed[s.live[c].fd] == s.closed[s.live[c].fd]
    decreases |events|
  {
    if |events| > 0 {
      OnlyOwnerRemoves(s, events[0], c);
      StepKeepsValid(s, events[0]);
      EntryStays(Step(s, events[0]), events[1..], c);
    }
  }

  /** In every run each descriptor is closed at most as often as it was taken, and after Shutdown exactly as often. */
  lemma NothingLeaks(events: seq<Event>)
    requires CanRun(INITIAL, events)
    ensures Run(INITIAL, events).closed <= Run(INITIAL, events).taken
    ensures Step(Run(INITIAL, events), Shutdown).closed == Step(Run(INITIAL, events), Shutdown).taken
  {
    var s := Run(INITIAL, events);
    StepKeepsValid(s, Shutdown);
    var end := Step(s, Shutdown);
    assert forall fd :: s.closed[fd] <= s.taken[fd];
    assert end.live == map[];
    assert forall fd :: end.closed[fd] == end.taken[fd];
  }

  // The service itself.

  class IdleService {
    var inhibitors: map<nat, Inhibitor>
    var nextCookie: nat
    ghost var taken: multiset<int>
    ghost var closed: multiset<int>

    ghost function Abs(): State
      reads this
    {
      State(inhibitors, nextCookie, taken, closed)
    }

    constructor ()
      ensures Abs() == INITIAL && Valid(Abs())
    {
      inhibitors, nextCookie, taken, closed := map[], 0, multiset{}, multiset{};
    }

    /** `fd` is what logind answered, negative for an error. The result is the cookie, if any. */
    method Inhibit(sender: string, fd: int) returns (r: Option<nat>)
      requires Valid(Abs()) && Possible(Abs(), Event.Inhibit(sender, fd))
      modifies this
      ensures Abs() == Step(old(Abs()), Event.Inhibit(sender, fd)) && Valid(Abs())
      ensures r == if fd < 0 then None else Some(nextCookie)
    {
      ghost var s, e := Abs(), Event.Inhibit(sender, fd);
      StepKeepsValid(s, e);
      if fd < 0 {
        return None;
      }
      taken := taken + multiset{fd};
      var cookie := Search();
      inhibitors := inhibitors[cookie := Inhibitor(sender, fd)];
      r := Some(cookie);
    }

    method Search() returns (cookie: nat)
      requires nextCookie < COOKIES && WithinRange(inhibitors) && |inhibitors| < COOKIES - 1
      modifies `nextCookie
      ensures cookie == nextCookie == Found(inhibitors, old(nextCookie))
    {
      ghost var goal := Found(inhibitors, nextCookie);
      nextCookie := After(nextCookie);
      cookie := nextCookie;
      while cookie == 0 || cookie in inhibitors
        invariant cookie == nextCookie < COOKIES
        invariant cookie == goal || Gap(old(nextCookie), cookie) + Gap(cookie, goal) + 1 == Gap(old(nextCookie), goal)
        decreases if cookie == goal then 0 else Gap(cookie, goal) + 1
      {
        nextCookie := After(nextCookie);
        cookie := nextCookie;
      }
    }

    /** Removing an entry from the table frees the inhibitor, which closes its descriptor. */
    method Remove(cookie: nat)
      requires Valid(Abs()) && cookie in inhibitors
      modifies this
      ensures Abs() == Drop(old(Abs()), {cookie}) && Valid(Abs())
    {
      DropKeepsValid(Abs(), {cookie});
      var inhibitor := inhibitors[cookie];
      assert Descriptors(inhibitors, {cookie}) == {inhibitor.fd};
      if inhibitor.fd >= 0 {
        closed := closed + multiset{inhibitor.fd};
      }
      inhibitors := inhibitors - {cookie};
    }

    /** False stands for the access denied error. */
    method UnInhibit(sender: string, cookie: nat) returns (ok: bool)
      requires Valid(Abs())
      modifies this
      ensures ok == (cookie in old(inhibitors) && old(inhibitors)[cookie].sender == sender)
      ensures Abs() == Step(old(Abs()), Event.UnInhibit(sender, cookie)) && Valid(Abs())
    {
      ok := cookie in inhibitors && inhibitors[cookie].sender == sender;
      ghost var gone := Gone(Abs(), Event.UnInhibit(sender, cookie));
      if ok {
        assert gone == {cookie};
        Remove(cookie);
      } else {
        assert gone == {};
        DropNone(Abs());
      }
    }

    /** Removes entries in any order, as walking a hash table does. */
    method RemoveAll(cookies: set<nat>)
      requires Valid(Abs()) && cookies <= inhibitors.Keys
      modifies this
      ensures Abs() == Drop(old(Abs()), cookies) && Valid(Abs())
    {
      ghost var s := Abs();
      var left := cookies;
      while left != {}
        invariant Valid(Abs()) && left <= inhibitors.Keys
        invariant Drop(Abs(), left) == Drop(s, cookies)
        decreases |left|
      {
        var cookie :| cookie in left;
        DropOne(Abs(), left, cookie);
        Remove(cookie);
        left := left - {cookie};
      }
      DropNone(Abs());
    }

    method NameOwnerChanged(name: string, owner: string)
      requires Valid(Abs())
      modifies this
      ensures Abs() == Step(old(Abs()), OwnerChanged(name, owner)) && Valid(Abs())
    {
      ghost var s, e := Abs(), OwnerChanged(name, owner);
      if |name| == 0 || name[0] != ':' || |owner| > 0 {
        assert Gone(s, e) == {};
        DropNone(s);
        return;
      }
      var gone := set c | c in inhibitors && inhibitors[c].sender == name;
      assert gone == Gone(s, e);
      RemoveAll(gone);
    }

    method Shutdown()
      requires Valid(Abs())
      modifies this
      ensures Abs() == Step(old(Abs()), Event.Shutdown) && Valid(Abs())
    {
      assert inhibitors.Keys == Gone(Abs(), Event.Shutdown);
      RemoveAll(inhibitors.Keys);
    }
  }
}
