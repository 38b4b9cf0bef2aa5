/** One-use grants of gnoblinctl's Lua runtime (src/cli/gnoblinctl-lua-contexts.c), narrowed and shared between
    handles. */
module Grants {
  import opened Options

  datatype Scope = Focus | BeginMove | BeginResize | SnapContext | TextTarget

  /** The order of the scope table, which decides the error that narrow reports. */
  const TABLE: seq<Scope> := [Focus, BeginMove, BeginResize, SnapContext, TextTarget]
  const ALL: set<Scope> := {Focus, BeginMove, BeginResize, SnapContext, TextTarget}
  const MENU_SCOPES: set<Scope> := {BeginMove, BeginResize}

  /** Bytes of a window ID that fit beside its terminator. */
  const WINDOW_ID: nat := 23

  /** One userdata. `spent` names the record that it shares with every grant narrowed from the same gesture. */
  datatype Grant = Grant(subscription: nat, token: string, menu: bool, scope: set<Scope>, window: string, spent: nat)

  datatype Spent = Spent(used: set<Scope>, refs: nat)

  datatype Subscription = Subscription(live: bool, cli: nat)

  /** An operation that a grant was taken for. */
  datatype Taken = Taken(handle: nat, spent: nat, scope: Scope, window: Option<string>)

  /** Handles and records are numbered as they are made. `made` and `parent` keep what is known of collected ones. */
  datatype State = State(
    subscriptions: map<nat, Subscription>, grants: map<nat, Grant>, spents: map<nat, Spent>, records: nat,
    freed: multiset<nat>, made: seq<Grant>, parent: seq<Option<nat>>, taken: seq<Taken>)

  datatype Error =
    | Forged | Inactive | NoScope | OtherWindow | AlreadyUsed
    | ArgumentCount | NoOperations | NotAnOperation | WidensScope | BadWindow | WidensWindow

  /** Lua values as far as narrow looks at them. */
  datatype Operations = Name(name: string) | Names(names: seq<Option<string>>) | OtherValue
  datatype WindowArgument = Absent | Id(id: string) | NoId

  datatype Event =
    | Open(subscription: nat, cli: nat)
    | Close(subscription: nat)
    | Push(subscription: nat, token: string, menu: bool, window: Option<string>)
    | Take(handle: nat, cli: nat, scope: Scope, window: Option<string>)
    | Narrow(handle: nat, arguments: nat, operations: Operations, target: WindowArgument)
    | Collect(handle: nat)

  const INITIAL := State(map[], map[], map[], 0, multiset{}, [], [], [])

  // Strings of C end at the first NUL.

  function CString(s: string): string {
    if |s| == 0 || s[0] == '\0' then "" else [s[0]] + CString(s[1..])
  }

  function Copied(s: string): string {
    var c := CString(s); if |c| <= WINDOW_ID then c else c[..WINDOW_ID]
  }

  function ScopeOf(name: string): Option<Scope> {
    var c := CString(name);
    if c == "focus" then Some(Focus)
    else if c == "begin_move" then Some(BeginMove)
    else if c == "begin_resize" then Some(BeginResize)
    else if c == "snap_context" then Some(SnapContext)
    else if c == "text_target" then Some(TextTarget)
    else None
  }

  function Requested(names: seq<Option<string>>): Option<set<Scope>> {
    if |names| == 0 then Some({})
    else if names[0].None? || ScopeOf(names[0].value).None? then None
    else
      var rest := Requested(names[1..]);
      if rest.None? then None else Some({ScopeOf(names[0].value).value} + rest.value)
  }

  function ParseOperations(operations: Operations): Result<set<Scope>, Error> {
    match operations
    case Name(name) =>
      (match ScopeOf(name) case None => Err(NotAnOperation) case Some(scope) => Ok({scope}))
    case Names(names) =>
      if |names| == 0 || |names| > |TABLE| then Err(NoOperations)
      else (match Requested(names) case None => Err(NotAnOperation) case Some(scopes) => Ok(scopes))
    case OtherValue => Err(NoOperations)
  }

  /** The first scope of the table that the grant cannot pass on. */
  function FirstRefused(requested: set<Scope>, scope: set<Scope>, used: set<Scope>, k: nat): Option<Error>
    requires k <= |TABLE|
    decreases |TABLE| - k
  {
    if k == |TABLE| then None
    else if TABLE[k] in requested && TABLE[k] !in scope then Some(WidensScope)
    else if TABLE[k] in requested && TABLE[k] in used then Some(AlreadyUsed)
    else FirstRefused(requested, scope, used, k + 1)
  }

  lemma {:induction false} FirstRefusedNone(requested: set<Scope>, scope: set<Scope>, used: set<Scope>, k: nat)
    requires k <= |TABLE|
    ensures FirstRefused(requested, scope, used, k).None? <==>
      forall i :: k <= i < |TABLE| && TABLE[i] in requested ==> TABLE[i] in scope && TABLE[i] !in used
    decreases |TABLE| - k
  {
    if k < |TABLE| {
      FirstRefusedNone(requested, scope, used, k + 1);
    }
  }

  function ParseWindow(window: WindowArgument): Option<string> {
    match window
    case Absent => Some("")
    case Id(id) => if 0 < |CString(id)| <= WINDOW_ID then Some(CString(id)) else None
    case NoId => None
  }

  // The operations.

  function TakeError(s: State, e: Event): Option<Error>
    requires e.Take? && Known(s)
  {
    if e.handle !in s.grants then Some(Forged)
    else
      var g := s.grants[e.handle];
      if !s.subscriptions[g.subscription].live || s.subscriptions[g.subscription].cli != e.cli then Some(Inactive)
      else if e.scope !in g.scope then Some(NoScope)
      else if g.window != "" && e.window.Some? && g.window != e.window.value then Some(OtherWindow)
      else if e.scope in s.spents[g.spent].used then Some(AlreadyUsed)
      else None
  }

  /** The grant that narrow would make. */
  function Narrowed(s: State, e: Event): Result<Grant, Error>
    requires e.Narrow? && Known(s)
  {
    if e.handle !in s.grants then Err(Forged)
    else if !(2 <= e.arguments <= 3) then Err(ArgumentCount)
    else
      var g := s.grants[e.handle];
      match ParseOperations(e.operations)
      case Err(error) => Err(error)
      case Ok(requested) =>
        var refused := FirstRefused(requested, g.scope, s.spents[g.spent].used, 0);
        if refused.Some? then Err(refused.value)
        else
          match ParseWindow(e.target)
          case None => Err(BadWindow)
          case Some(window) =>
            if window == "" then Ok(g.(scope := requested))
            else if g.window != "" && g.window != window then Err(WidensWindow)
            else Ok(g.(scope := requested, window := window))
  }

  /** Every grant points at a record and a subscription that exist. */
  predicate Known(s: State) {
    forall h :: h in s.grants ==>
      && s.grants[h].spent in s.spents && s.spents[s.grants[h].spent].refs > 0
      && s.grants[h].subscription in s.subscriptions
  }

  /** A new handle for `g`, which leaves its record as `record`. */
  function Add(s: State, g: Grant, record: Spent, parent: Option<nat>): State {
    s.(grants := s.grants[|s.made| := g], spents := s.spents[g.spent := record],
       made := s.made + [g], parent := s.parent + [parent])
  }

  predicate Possible(s: State, e: Event) {
    match e
    case Open(subscription, _) => subscription !in s.subscriptions
    case Close(subscription) => subscription in s.subscriptions
    case Push(subscription, _, _, _) => subscription in s.subscriptions
    case Take(_, _, _, _) => true
    case Narrow(_, _, _, _) => true
    case Collect(_) => true
  }

  function Pushed(s: State, e: Event): Grant
    requires e.Push?
  {
    Grant(e.subscription, e.token, e.menu, if e.menu then MENU_SCOPES else ALL,
          if e.window.Some? then Copied(e.window.value) else "", s.records)
  }

  function Collected(s: State, handle: nat): State
    requires Known(s) && handle in s.grants
  {
    var spent := s.grants[handle].spent;
    var record := s.spents[spent];
    var s' := s.(grants := s.grants - {handle});
    if record.refs == 1 then s'.(spents := s.spents - {spent}, freed := s.freed + multiset{spent})
    else s'.(spents := s.spents[spent := record.(refs := record.refs - 1)])
  }

  function Step(s: State, e: Event): State
    requires Known(s) && Possible(s, e)
  {
    match e
    case Open(subscription, cli) =>
      s.(subscriptions := s.subscriptions[subscription := Subscription(true, cli)])
    case Close(subscription) =>
      s.(subscriptions := s.subscriptions[subscription := s.subscriptions[subscription].(live := false)])
    case Push(_, _, _, _) =>
      Add(s.(records := s.records + 1), Pushed(s, e), Spent({}, 1), None)
    case Take(handle, cli, scope, window) =>
      if TakeError(s, e).Some? then s
      else
        var g := s.grants[handle];
        var record := s.spents[g.spent];
        s.(spents := s.spents[g.spent := record.(used := record.used + if g.menu then ALL else {scope})],
           taken := s.taken + [Taken(handle, g.spent, scope, window)])
    case Narrow(handle, _, _, _) =>
      (match Narrowed(s, e)
       case Err(_) => s
       case Ok(g) => Add(s, g, s.spents[g.spent].(refs := s.spents[g.spent].refs + 1), Some(handle)))
    case Collect(handle) => if handle !in s.grants then s else Collected(s, handle)
  }

  // What every step keeps.

  ghost function Holders(grants: map<nat, Grant>, spent: nat): set<nat> {
    set h | h in grants && grants[h].spent == spent
  }

  /** The reference count of a record is the number of handles that share it. */
  ghost predicate Counted(grants: map<nat, Grant>, spents: map<nat, Spent>) {
    && (forall id :: id in spents ==> spents[id].refs == |Holders(grants, id)| > 0)
    && (forall h :: h in grants ==> grants[h].spent in spents)
  }

  /** A record is there until it is freed, once. */
  ghost predicate FreedOnce(spents: map<nat, Spent>, records: nat, freed: multiset<nat>) {
    && (forall id :: id in spents ==> id < records)
    && (forall id: nat :: freed[id] == if id < records && id !in spents then 1 else 0)
  }

  /** `g` allows nothing that `p` does not allow. */
  predicate Within(g: Grant, p: Grant) {
    && g.scope <= p.scope && (p.window != "" ==> g.window == p.window)
    && g.spent == p.spent && g.menu == p.menu && g.token == p.token && g.subscription == p.subscription
  }

  ghost predicate Lineage(made: seq<Grant>, parent: seq<Option<nat>>) {
    && |made| == |parent|
    && (forall h :: 0 <= h < |made| && parent[h].Some? ==>
         parent[h].value < h && Within(made[h], made[parent[h].value]))
    && (forall h, k :: 0 <= h < |made| && 0 <= k < |made| && made[h].spent == made[k].spent ==>
         made[h].menu == made[k].menu)
  }

  /** What is known of the grants is what they are, and every one of them is of a numbered gesture. */
  ghost predicate Recorded(s: State) {
    && (forall h :: h in s.grants ==> h < |s.made| && s.made[h] == s.grants[h])
    && (forall h :: h in s.grants ==> s.grants[h].subscription in s.subscriptions)
    && (forall h :: 0 <= h < |s.made| ==> s.made[h].spent < s.records)
  }

  /** What was taken was allowed by the grant that it was taken from. */
  ghost predicate Allowed(made: seq<Grant>, t: Taken) {
    && t.handle < |made| && made[t.handle].spent == t.spent
    && t.scope in made[t.handle].scope
    && (made[t.handle].window != "" && t.window.Some? ==> t.window.value == made[t.handle].window)
  }

  /** It is marked in the record while that lasts. */
  ghost predicate Marked(made: seq<Grant>, spents: map<nat, Spent>, t: Taken)
    requires t.handle < |made|
  {
    t.spent in spents ==>
      t.scope in spents[t.spent].used && (made[t.handle].menu ==> spents[t.spent].used == ALL)
  }

  /** Two operations of one gesture have different scopes, and there are none of a menu. */
  ghost predicate Apart(made: seq<Grant>, t: Taken, u: Taken)
    requires t.handle < |made|
  {
    t.spent == u.spent ==> t.scope != u.scope && !made[t.handle].menu
  }

  ghost predicate OneUse(made: seq<Grant>, spents: map<nat, Spent>, taken: seq<Taken>) {
    && (forall i :: 0 <= i < |taken| ==> Allowed(made, taken[i]) && Marked(made, spents, taken[i]))
    && (forall i, j :: 0 <= i < j < |taken| ==> Apart(made, taken[i], taken[j]))
  }

  ghost predicate Valid(s: State) {
    && Counted(s.grants, s.spents) && FreedOnce(s.spents, s.records, s.freed)
    && Lineage(s.made, s.parent) && Recorded(s) && OneUse(s.made, s.spents, s.taken)
  }

  lemma ValidIsKnown(s: State)
    requires Valid(s)
    ensures Known(s)
  {
  }

  lemma AddCounts(grants: map<nat, Grant>, spents: map<nat, Spent>, h: nat, g: Grant, refs: nat, used: set<Scope>)
    requires h !in grants && refs == |Holders(grants, g.spent)|
    requires forall id :: id in spents && id != g.spent ==> spents[id].refs == |Holders(grants, id)| > 0
    requires forall k :: k in grants && grants[k].spent != g.spent ==> grants[k].spent in spents
    ensures Counted(grants[h := g], spents[g.spent := Spent(used, refs + 1)])
  {
    var grants' := grants[h := g];
    assert Holders(grants', g.spent) == Holders(grants, g.spent) + {h};
    forall id | id in spents && id != g.spent ensures Holders(grants', id) == Holders(grants, id) {
    }
  }

  lemma AddKeepsLineage(made: seq<Grant>, parent: seq<Option<nat>>, g: Grant, p: Option<nat>)
    requires Lineage(made, parent)
    requires p.Some? ==> p.value < |made| && Within(g, made[p.value])
    requires p.None? ==> forall h :: 0 <= h < |made| ==> made[h].spent != g.spent
    ensures Lineage(made + [g], parent + [p])
  {
  }

  lemma AddKeepsOneUse(made: seq<Grant>, spents: map<nat, Spent>, taken: seq<Taken>, g: Grant, record: Spent)
    requires OneUse(made, spents, taken)
    requires if g.spent in spents then record.used == spents[g.spent].used
             else forall h :: 0 <= h < |made| ==> made[h].spent != g.spent
    ensures OneUse(made + [g], spents[g.spent := record], taken)
  {
    var made', spents' := made + [g], spents[g.spent := record];
    forall i | 0 <= i < |taken| ensures Allowed(made', taken[i]) && Marked(made', spents', taken[i]) {
      assert Allowed(made, taken[i]) && Marked(made, spents, taken[i]);
    }
    forall i, j | 0 <= i < j < |taken| ensures Apart(made', taken[i], taken[j]) {
      assert Apart(made, taken[i], taken[j]);
    }
  }

  /** A new gesture, or one more handle of a gesture that has some. */
  lemma AddKeepsValid(s: State, g: Grant, record: Spent, p: Option<nat>)
    requires Counted(s.grants, s.spents) && Lineage(s.made, s.parent) && Recorded(s)
      && OneUse(s.made, s.spents, s.taken)
    requires g.spent < s.records && g.subscription in s.subscriptions
    requires FreedOnce(s.spents[g.spent := record], s.records, s.freed)
    requires if g.spent in s.spents then record == s.spents[g.spent].(refs := s.spents[g.spent].refs + 1)
             else record.refs == 1 && forall h :: 0 <= h < |s.made| ==> s.made[h].spent != g.spent
    requires if p.Some? then p.value < |s.made| && Within(g, s.made[p.value])
             else forall h :: 0 <= h < |s.made| ==> s.made[h].spent != g.spent
    ensures Valid(Add(s, g, record, p))
  {
    if g.spent !in s.spents {
      assert Holders(s.grants, g.spent) == {};
    }
    AddCounts(s.grants, s.spents, |s.made|, g, record.refs - 1, record.used);
    AddKeepsLineage(s.made, s.parent, g, p);
    AddKeepsOneUse(s.made, s.spents, s.taken, g, record);
    AddKeepsRecorded(s, g, record, p);
  }

  lemma AddKeepsRecorded(s: State, g: Grant, record: Spent, p: Option<nat>)
    requires Recorded(s) && g.spent < s.records && g.subscription in s.subscriptions
    ensures Recorded(Add(s, g, record, p))
  {
  }

  lemma PushKeepsValid(s: State, e: Event)
    requires Valid(s) && Known(s) && Possible(s, e) && e.Push?
    ensures Valid(Step(s, e))
  {
    PushKeepsFreed(s.spents, s.records, s.freed);
    AddKeepsValid(s.(records := s.records + 1), Pushed(s, e), Spent({}, 1), None);
  }

  lemma PushKeepsFreed(spents: map<nat, Spent>, records: nat, freed: multiset<nat>)
    requires FreedOnce(spents, records, freed)
    ensures FreedOnce(spents[records := Spent({}, 1)], records + 1, freed)
  {
  }

  lemma NarrowedIsWithin(s: State, e: Event)
    requires Known(s) && e.Narrow? && Narrowed(s, e).Ok?
    ensures e.handle in s.grants && Within(Narrowed(s, e).value, s.grants[e.handle])
    ensures Narrowed(s, e).value.scope !! s.spents[s.grants[e.handle].spent].used
  {
    var g := s.grants[e.handle];
    var requested := ParseOperations(e.operations).value;
    FirstRefusedNone(requested, g.scope, s.spents[g.spent].used, 0);
    forall x | x in requested ensures x in g.scope && x !in s.spents[g.spent].used {
      InTable(x);
    }
  }

  lemma InTable(x: Scope)
    ensures exists i :: 0 <= i < |TABLE| && TABLE[i] == x
  {
    assert TABLE[0] == Focus && TABLE[1] == BeginMove && TABLE[2] == BeginResize && TABLE[3] == SnapContext
      && TABLE[4] == TextTarget;
  }

  lemma NarrowKeepsValid(s: State, e: Event)
    requires Valid(s) && Known(s) && e.Narrow?
    ensures Valid(Step(s, e))
  {
    if Narrowed(s, e).Ok? {
      NarrowedIsWithin(s, e);
      OneMoreHandle(s, e.handle, Narrowed(s, e).value);
    }
  }

  lemma OneMoreHandle(s: State, h: nat, g: Grant)
    requires Valid(s) && Known(s) && h in s.grants && Within(g, s.grants[h])
    ensures Valid(Add(s, g, s.spents[g.spent].(refs := s.spents[g.spent].refs + 1), Some(h)))
  {
    AddKeepsValid(s, g, s.spents[g.spent].(refs := s.spents[g.spent].refs + 1), Some(h));
  }

  lemma InAll(x: Scope)
    ensures x in ALL
  {
    match x
    case Focus => case BeginMove => case BeginResize => case SnapContext => case TextTarget =>
  }

  lemma NothingBeyondAll(used: set<Scope>)
    ensures used + ALL == ALL
  {
    forall x | x in used ensures x in ALL {
      InAll(x);
    }
  }

  lemma TakeKeepsOneUse(made: seq<Grant>, spents: map<nat, Spent>, taken: seq<Taken>, t: Taken)
    requires OneUse(made, spents, taken) && Allowed(made, t) && t.spent in spents && t.scope !in spents[t.spent].used
    requires forall h :: 0 <= h < |made| && made[h].spent == t.spent ==> made[h].menu == made[t.handle].menu
    ensures var record := spents[t.spent];
      var used := record.used + if made[t.handle].menu then ALL else {t.scope};
      OneUse(made, spents[t.spent := record.(used := used)], taken + [t])
  {
    var record := spents[t.spent];
    var used := record.used + if made[t.handle].menu then ALL else {t.scope};
    var spents', taken' := spents[t.spent := record.(used := used)], taken + [t];
    NothingBeyondAll(record.used);
    forall i | 0 <= i < |taken'| ensures Allowed(made, taken'[i]) && Marked(made, spents', taken'[i]) {
      if i < |taken| {
        assert Allowed(made, taken[i]) && Marked(made, spents, taken[i]);
      } else {
        InAll(t.scope);
      }
    }
    forall i, j | 0 <= i < j < |taken'| ensures Apart(made, taken'[i], taken'[j]) {
      if j < |taken| {
        assert Apart(made, taken[i], taken[j]);
      } else {
        assert Allowed(made, taken[i]) && Marked(made, spents, taken[i]);
      }
    }
  }

  lemma TakeKeepsValid(s: State, e: Event)
    requires Valid(s) && Known(s) && e.Take?
    ensures Valid(Step(s, e))
  {
    if TakeError(s, e).None? {
      var g := s.grants[e.handle];
      TakeKeepsOneUse(s.made, s.spents, s.taken, Taken(e.handle, g.spent, e.scope, e.window));
      UseKeepsCounted(s.grants, s.spents, g.spent, s.spents[g.spent].used + if g.menu then ALL else {e.scope});
    }
  }

  lemma UseKeepsCounted(grants: map<nat, Grant>, spents: map<nat, Spent>, id: nat, used: set<Scope>)
    requires Counted(grants, spents) && id in spents
    ensures Counted(grants, spents[id := spents[id].(used := used)])
  {
  }

  lemma CollectKeepsCounted(grants: map<nat, Grant>, spents: map<nat, Spent>, h: nat)
    requires Counted(grants, spents) && h in grants
    ensures var id := grants[h].spent;
      Counted(grants - {h}, if spents[id].refs == 1 then spents - {id}
                            else spents[id := spents[id].(refs := spents[id].refs - 1)])
  {
    var id, grants' := grants[h].spent, grants - {h};
    assert h in Holders(grants, id);
    assert Holders(grants', id) == Holders(grants, id) - {h};
    forall k | k in spents && k != id ensures Holders(grants', k) == Holders(grants, k) {
    }
    forall k | k in grants' && grants'[k].spent == id ensures |Holders(grants', id)| > 0 {
      assert k in Holders(grants', id);
    }
  }

  lemma CollectKeepsOneUse(made: seq<Grant>, spents: map<nat, Spent>, taken: seq<Taken>, spents': map<nat, Spent>)
    requires OneUse(made, spents, taken)
    requires forall id :: id in spents' ==> id in spents && spents'[id].used == spents[id].used
    ensures OneUse(made, spents', taken)
  {
    forall i | 0 <= i < |taken| ensures Allowed(made, taken[i]) && Marked(made, spents', taken[i]) {
      assert Allowed(made, taken[i]) && Marked(made, spents, taken[i]);
    }
  }

  lemma CollectKeepsFreed(s: State, h: nat)
    requires FreedOnce(s.spents, s.records, s.freed) && Known(s) && h in s.grants
    ensures FreedOnce(Collected(s, h).spents, Collected(s, h).records, Collected(s, h).freed)
  {
    var id := s.grants[h].spent;
    if s.spents[id].refs == 1 {
      assert (s.freed + multiset{id})[id] == s.freed[id] + 1;
    }
  }

  lemma CollectKeepsRecorded(s: State, h: nat)
    requires Recorded(s) && Known(s) && h in s.grants
    ensures Recorded(Collected(s, h))
  {
  }

  lemma CollectKeepsUse(s: State, h: nat)
    requires OneUse(s.made, s.spents, s.taken) && Known(s) && h in s.grants
    ensures OneUse(Collected(s, h).made, Collected(s, h).spents, Collected(s, h).taken)
  {
    CollectKeepsOneUse(s.made, s.spents, s.taken, Collected(s, h).spents);
  }

  lemma CollectKeepsValid(s: State, h: nat)
    requires Valid(s) && Known(s) && h in s.grants
    ensures Valid(Collected(s, h))
  {
    CollectKeepsFreed(s, h);
    CollectKeepsRecorded(s, h);
    CollectKeepsCounted(s.grants, s.spents, h);
    CollectKeepsUse(s, h);
  }

  lemma StepKeepsValid(s: State, e: Event)
    requires Valid(s) && Known(s) && Possible(s, e)
    ensures Valid(Step(s, e)) && Known(Step(s, e))
  {
    match e {
      case Push(_, _, _, _) => PushKeepsValid(s, e);
      case Take(_, _, _, _) => TakeKeepsValid(s, e);
      case Narrow(_, _, _, _) => NarrowKeepsValid(s, e);
      case Collect(_) => if e.handle in s.grants { CollectKeepsValid(s, e.handle); }
      case Open(_, _) => SubscriptionKeepsValid(s, e);
      case Close(_) => SubscriptionKeepsValid(s, e);
    }
    ValidIsKnown(Step(s, e));
  }

  lemma SubscriptionKeepsValid(s: State, e: Event)
    requires Valid(s) && Known(s) && Possible(s, e) && (e.Open? || e.Close?)
    ensures Valid(Step(s, e))
  {
  }

  // Whole runs.

  ghost predicate CanRun(s: State, events: seq<Event>)
    requires Valid(s) && Known(s)
    decreases |events|
  {
    |events| > 0 ==>
      Possible(s, events[0]) && (StepKeepsValid(s, events[0]); CanRun(Step(s, events[0]), events[1..]))
  }

  ghost function Run(s: State, events: seq<Event>): (r: State)
    requires Valid(s) && Known(s) && CanRun(s, events)
    ensures Valid(r) && Known(r)
    decreases |events|
  {
    if |events| == 0 then s
    else StepKeepsValid(s, events[0]); Run(Step(s, events[0]), events[1..])
  }

  /** Across all grants narrowed from one gesture each scope is taken at most once, and of a menu only one operation. */
  lemma EachScopeOnce(events: seq<Event>, i: nat, j: nat)
    requires CanRun(INITIAL, events) && i < j < |Run(INITIAL, events).taken|
    requires Run(INITIAL, events).taken[i].spent == Run(INITIAL, events).taken[j].spent
    ensures var s := Run(INITIAL, events);
      && s.taken[i].scope != s.taken[j].scope
      && s.taken[i].handle < |s.made| && !s.made[s.taken[i].handle].menu
  {
    var s := Run(INITIAL, events);
    assert Allowed(s.made, s.taken[i]);
    assert Apart(s.made, s.taken[i], s.taken[j]);
  }

  /** `h` was narrowed, in any number of steps, from `a`. */
  predicate Descends(parent: seq<Option<nat>>, h: nat, a: nat)
    requires h < |parent| && forall k :: 0 <= k < |parent| && parent[k].Some? ==> parent[k].value < k
  {
    h == a || (parent[h].Some? && Descends(parent, parent[h].value, a))
  }

  lemma {:induction false} DescendantIsWithin(made: seq<Grant>, parent: seq<Option<nat>>, h: nat, a: nat)
    requires Lineage(made, parent) && h < |made| && Descends(parent, h, a)
    ensures a < |made| && Within(made[h], made[a])
  {
    if h != a {
      DescendantIsWithin(made, parent, parent[h].value, a);
    }
  }

  /** No operation exceeds the scopes, or the window if it names one, of any grant that its own was narrowed from. */
  lemma TakenWithinAncestors(events: seq<Event>, i: nat, a: nat)
    requires CanRun(INITIAL, events) && i < |Run(INITIAL, events).taken|
    requires var s := Run(INITIAL, events);
      s.taken[i].handle < |s.parent| && Lineage(s.made, s.parent) && Descends(s.parent, s.taken[i].handle, a)
    ensures var s := Run(INITIAL, events); var t := s.taken[i];
      && a < |s.made| && t.spent == s.made[a].spent && t.scope in s.made[a].scope
      && (t.window.Some? && s.made[a].window != "" ==> t.window.value == s.made[a].window)
  {
    var s := Run(INITIAL, events);
    assert Allowed(s.made, s.taken[i]);
    DescendantIsWithin(s.made, s.parent, s.taken[i].handle, a);
  }

  /** Once every handle is collected, every record that was ever made has been freed exactly once. */
  lemma EveryRecordIsFreed(events: seq<Event>, id: nat)
    requires CanRun(INITIAL, events) && Run(INITIAL, events).grants == map[] && id < Run(INITIAL, events).records
    ensures Run(INITIAL, events).freed[id] == 1
  {
    var s := Run(INITIAL, events);
    assert Holders(s.grants, id) == {};
  }

  /** A record that some handle still points at has not been freed. */
  lemma HeldRecordIsThere(events: seq<Event>, h: nat)
    requires CanRun(INITIAL, events) && h in Run(INITIAL, events).grants
    ensures var s := Run(INITIAL, events);
      && s.grants[h].spent in s.spents && s.freed[s.grants[h].spent] == 0
      && s.spents[s.grants[h].spent].refs == |Holders(s.grants, s.grants[h].spent)|
  {
  }

  lemma OneName(name: string)
    ensures Requested([Some(name)]) == if ScopeOf(name).None? then None else Some({ScopeOf(name).value})
  {
    var names := [Some(name)];
    assert names[1..] == [] && Requested(names[1..]) == Some({});
    if ScopeOf(name).Some? {
      assert {ScopeOf(name).value} + {} == {ScopeOf(name).value};
    }
  }

  // The Lua state, with pointers as numbers.

  class LuaState {
    var subscriptions: map<nat, Subscription>
    var grants: map<nat, Grant>
    var spents: map<nat, Spent>
    var records: nat
    var handles: nat
    ghost var freed: multiset<nat>
    ghost var made: seq<Grant>
    ghost var parent: seq<Option<nat>>
    ghost var taken: seq<Taken>

    ghost function Abs(): State
      reads this
    {
      State(subscriptions, grants, spents, records, freed, made, parent, taken)
    }

    /** Valid(Abs()) implies it; the methods keep Valid because Step does. */
    ghost predicate Ready()
      reads this
    {
      Known(Abs()) && handles == |made|
    }

    constructor ()
      ensures Abs() == INITIAL && Valid(Abs()) && handles == |made|
    {
      subscriptions, grants, spents, records, handles := map[], map[], map[], 0, 0;
      freed, made, parent, taken := multiset{}, [], [], [];
    }

    method NewGrant(source: Grant, ghost from: Option<nat>) returns (handle: nat)
      requires handles == |made| && source.spent in spents
      modifies this
      ensures var record := old(spents)[source.spent];
        Abs() == Add(old(Abs()), source, record.(refs := record.refs + 1), from)
      ensures handle == old(handles) && handles == |made|
    {
      handle := handles;
      grants := grants[handle := source];
      spents := spents[source.spent := spents[source.spent].(refs := spents[source.spent].refs + 1)];
      handles := handles + 1;
      made, parent := made + [source], parent + [from];
    }

    method PushGrant(subscription: nat, token: string, menu: bool, window: Option<string>) returns (handle: nat)
      requires Ready() && Possible(Abs(), Push(subscription, token, menu, window))
      modifies this
      ensures handles == |made| && Abs() == Step(old(Abs()), Push(subscription, token, menu, window))
      ensures handle == old(handles)
    {
      var spent := records;
      spents, records := spents[spent := Spent({}, 0)], records + 1;
      var scope := if menu then MENU_SCOPES else ALL;
      var grant := Grant(subscription, token, menu, scope, if window.Some? then Copied(window.value) else "", spent);
      assert spents[spent := Spent({}, 1)] == old(spents)[spent := Spent({}, 1)];
      handle := NewGrant(grant, None);
    }

    method TakeGrant(handle: nat, cli: nat, scope: Scope, window: Option<string>) returns (r: Result<Grant, Error>)
      requires Ready()
      modifies this
      ensures handles == |made| && Abs() == Step(old(Abs()), Take(handle, cli, scope, window))
      ensures var error := TakeError(old(Abs()), Take(handle, cli, scope, window));
        r == if error.Some? then Err(error.value) else Ok(old(grants)[handle])
    {
      if handle !in grants {
        return Err(Forged);
      }
      var grant := grants[handle];
      var subscription := subscriptions[grant.subscription];
      if !subscription.live || subscription.cli != cli {
        return Err(Inactive);
      }
      if scope !in grant.scope {
        return Err(NoScope);
      }
      if grant.window != "" && window.Some? && grant.window != window.value {
        return Err(OtherWindow);
      }
      if scope in spents[grant.spent].used {
        return Err(AlreadyUsed);
      }
      var record := spents[grant.spent];
      spents := spents[grant.spent := record.(used := record.used + if grant.menu then ALL else {scope})];
      taken := taken + [Taken(handle, grant.spent, scope, window)];
      r := Ok(grant);
    }

    method ReadNames(names: seq<Option<string>>) returns (r: Option<set<Scope>>)
      ensures r == Requested(names)
    {
      var requested := {};
      for i := 0 to |names|
        invariant Requested(names).None? <==> Requested(names[i..]).None?
        invariant Requested(names).Some? ==> Requested(names).value == requested + Requested(names[i..]).value
      {
        assert names[i..][1..] == names[i + 1..];
        if names[i].None? {
          return None;
        }
        var bit := ScopeOf(names[i].value);
        if bit.None? {
          return None;
        }
        requested := requested + {bit.value};
      }
      r := Some(requested);
    }

    method CheckNarrowing(requested: set<Scope>, scope: set<Scope>, used: set<Scope>) returns (r: Option<Error>)
      ensures r == FirstRefused(requested, scope, used, 0)
    {
      for k := 0 to |TABLE|
        invariant FirstRefused(requested, scope, used, 0) == FirstRefused(requested, scope, used, k)
      {
        if TABLE[k] in requested {
          if TABLE[k] !in scope {
            return Some(WidensScope);
          }
          if TABLE[k] in used {
            return Some(AlreadyUsed);
          }
        }
      }
      r := None;
    }

    method ReadOperations(operations: Operations) returns (r: Result<set<Scope>, Error>)
      ensures r == ParseOperations(operations)
    {
      var names;
      match operations {
        case Name(name) => names := [Some(name)];
        case Names(list) =>
          if |list| == 0 || |list| > |TABLE| {
            return Err(NoOperations);
          }
          names := list;
        case OtherValue => return Err(NoOperations);
      }
      if operations.Name? {
        OneName(operations.name);
      }
      var requested := ReadNames(names);
      r := if requested.None? then Err(NotAnOperation) else Ok(requested.value);
    }

    method NarrowGrant(handle: nat, arguments: nat, operations: Operations, target: WindowArgument)
      returns (r: Result<nat, Error>)
      requires Ready()
      modifies this
      ensures handles == |made| && Abs() == Step(old(Abs()), Narrow(handle, arguments, operations, target))
      ensures var narrowed := Narrowed(old(Abs()), Narrow(handle, arguments, operations, target));
        r == if narrowed.Err? then Err(narrowed.error) else Ok(old(handles))
    {
      if handle !in grants {
        return Err(Forged);
      }
      if !(2 <= arguments <= 3) {
        return Err(ArgumentCount);
      }
      var grant := grants[handle];
      var requested := ReadOperations(operations);
      if requested.Err? {
        return Err(requested.error);
      }
      var refused := CheckNarrowing(requested.value, grant.scope, spents[grant.spent].used);
      if refused.Some? {
        return Err(refused.value);
      }
      var narrowed := grant.(scope := requested.value);
      var window := ParseWindow(target);
      if window.None? {
        return Err(BadWindow);
      }
      if window.value != "" {
        if grant.window != "" && grant.window != window.value {
          return Err(WidensWindow);
        }
        narrowed := narrowed.(window := window.value);
      }
      var made := NewGrant(narrowed, Some(handle));
      r := Ok(made);
    }

    /** The finaliser, which may run again on a handle that it has cleared. */
    method CollectGrant(handle: nat)
      requires Ready()
      modifies this
      ensures handles == |made| && Abs() == Step(old(Abs()), Collect(handle))
    {
      if handle !in grants {
        return;
      }
      var spent := grants[handle].spent;
      spents := spents[spent := spents[spent].(refs := spents[spent].refs - 1)];
      if spents[spent].refs == 0 {
        assert spents - {spent} == old(spents) - {spent};
        spents := spents - {spent};
        freed := freed + multiset{spent};
      }
      grants := grants - {handle};
    }
  }
}
