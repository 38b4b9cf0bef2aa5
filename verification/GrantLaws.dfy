/** When the operations on grants succeed, told by what was made and taken before
    (src/cli/gnoblinctl-lua-contexts.c). */
module GrantLaws {
  import opened Options
  import opened Grants

  // The names.

  lemma {:induction false} CStringIs(s: string, rest: string)
    requires '\0' !in s && (|rest| > 0 ==> rest[0] == '\0')
    ensures CString(s + rest) == s
  {
    if |s| == 0 {
      assert s + rest == rest;
    } else {
      assert (s + rest)[1..] == s[1..] + rest;
      CStringIs(s[1..], rest);
      assert s == [s[0]] + s[1..];
    }
  }

  /** Which name means which scope; a name ends at its first NUL. */
  lemma NamesMean(name: string, rest: string)
    requires '\0' !in name && (|rest| > 0 ==> rest[0] == '\0')
    ensures ScopeOf(name + rest) ==
      if name == "focus" then Some(Focus) else if name == "begin_move" then Some(BeginMove)
      else if name == "begin_resize" then Some(BeginResize) else if name == "snap_context" then Some(SnapContext)
      else if name == "text_target" then Some(TextTarget) else None
  {
    hide CString;
    CStringIs(name, rest);
  }

  /** A window ID fits up to 23 bytes, and a longer one is cut there. */
  lemma WindowIsCopied(id: string, rest: string)
    requires '\0' !in id && (|rest| > 0 ==> rest[0] == '\0')
    ensures |id| <= 23 ==> Copied(id + rest) == id
    ensures |id| > 23 ==> Copied(id + rest) == id[..23]
  {
    hide CString;
    CStringIs(id, rest);
  }

  // A new gesture.

  /** A menu's gesture may move or resize, another one may do everything; it has used nothing, and nobody shares it. */
  lemma PushIs(s: State, subscription: nat, token: string, menu: bool, window: Option<string>)
    requires Valid(s) && Known(s) && subscription in s.subscriptions
    ensures var s' := Step(s, Push(subscription, token, menu, window));
      && |s.made| !in s.grants && |s.made| in s'.grants && s.records !in s.spents
      && s'.spents == s.spents[s.records := Spent({}, 1)]
      && var g := s'.grants[|s.made|];
        && g.subscription == subscription && g.token == token && g.menu == menu && g.spent == s.records
        && g.scope == (if menu then {BeginMove, BeginResize}
                       else {Focus, BeginMove, BeginResize, SnapContext, TextTarget})
        && (window.None? ==> g.window == "")
        && (window.Some? && |window.value| <= 23 && '\0' !in window.value ==> g.window == window.value)
  {
    if window.Some? && |window.value| <= 23 && '\0' !in window.value {
      WindowIsCopied(window.value, "");
      assert window.value + "" == window.value;
    }
  }

  // Taking.

  /** Operation `i` of the gesture used the scope: it was taken for it, or used up a menu. */
  predicate Uses(s: State, i: nat, id: nat, x: Scope) {
    i < |s.taken| && s.taken[i].spent == id
    && (s.taken[i].scope == x || (s.taken[i].handle < |s.made| && s.made[s.taken[i].handle].menu))
  }

  /** Only what was taken is used. */
  ghost predicate UsedIsTaken(s: State) {
    forall id, x :: id in s.spents && x in s.spents[id].used ==> exists i :: Uses(s, i, id, x)
  }

  lemma UsedStays(s: State, s': State)
    requires UsedIsTaken(s) && s.taken <= s'.taken && s.made <= s'.made
    requires forall id :: id in s'.spents ==>
      s'.spents[id].used == {} || (id in s.spents && s'.spents[id].used == s.spents[id].used)
    ensures UsedIsTaken(s')
  {
    forall id, x | id in s'.spents && x in s'.spents[id].used ensures exists i :: Uses(s', i, id, x) {
      var i :| Uses(s, i, id, x);
      assert Uses(s', i, id, x);
    }
  }

  lemma GrantFacts(s: State, handle: nat)
    requires Valid(s) && handle in s.grants
    ensures handle < |s.made| && s.made[handle] == s.grants[handle] && s.grants[handle].spent in s.spents
  {
  }

  lemma TakenFacts(s: State, i: nat, handle: nat)
    requires Valid(s) && i < |s.taken| && handle < |s.made| && s.taken[i].spent == s.made[handle].spent
    ensures var t := s.taken[i];
      && t.handle < |s.made| && s.made[t.handle].menu == s.made[handle].menu
      && (t.spent in s.spents ==>
           t.scope in s.spents[t.spent].used && (s.made[handle].menu ==> s.spents[t.spent].used == ALL))
  {
    assert Allowed(s.made, s.taken[i]) && Marked(s.made, s.spents, s.taken[i]);
  }

  /** One more operation, which uses its scope, or all of them if it is a menu's. */
  lemma TakingKeepsUsed(s: State, s': State, t: Taken, used: set<Scope>)
    requires UsedIsTaken(s) && t.spent in s.spents && t.handle < |s.made|
    requires s'.taken == s.taken + [t] && s'.made == s.made
    requires s'.spents == s.spents[t.spent := s.spents[t.spent].(used := used)]
    requires used <= s.spents[t.spent].used + if s.made[t.handle].menu then ALL else {t.scope}
    ensures UsedIsTaken(s')
  {
    forall id, x | id in s'.spents && x in s'.spents[id].used ensures exists i :: Uses(s', i, id, x) {
      if id in s.spents && x in s.spents[id].used {
        var i :| Uses(s, i, id, x);
        assert Uses(s', i, id, x);
      } else {
        assert Uses(s', |s.taken|, id, x);
      }
    }
  }

  lemma TakeKeepsUsed(s: State, e: Event)
    requires Valid(s) && Known(s) && UsedIsTaken(s) && e.Take? && TakeError(s, e).None?
    ensures UsedIsTaken(Step(s, e))
  {
    hide UsedIsTaken, Valid;
    var g := s.grants[e.handle];
    GrantFacts(s, e.handle);
    TakingKeepsUsed(s, Step(s, e), Taken(e.handle, g.spent, e.scope, e.window),
      s.spents[g.spent].used + if g.menu then ALL else {e.scope});
  }

  lemma NarrowKeepsUsed(s: State, e: Event)
    requires Known(s) && UsedIsTaken(s) && e.Narrow?
    ensures UsedIsTaken(Step(s, e))
  {
    hide UsedIsTaken;
    if Narrowed(s, e).Ok? {
      NarrowedIsWithin(s, e);
      hide Narrowed;
      UsedStays(s, Step(s, e));
    }
  }

  lemma OthersKeepUsed(s: State, e: Event)
    requires Known(s) && Possible(s, e) && UsedIsTaken(s) && !e.Take? && !e.Narrow?
    ensures UsedIsTaken(Step(s, e))
  {
    hide UsedIsTaken, TakeError, Narrowed;
    UsedStays(s, Step(s, e));
  }

  lemma StepKeepsUsed(s: State, e: Event)
    requires Valid(s) && Known(s) && Possible(s, e) && UsedIsTaken(s)
    ensures UsedIsTaken(Step(s, e))
  {
    hide UsedIsTaken, Valid, Known, Narrowed;
    if e.Take? {
      if TakeError(s, e).None? {
        TakeKeepsUsed(s, e);
      }
    } else if e.Narrow? {
      NarrowKeepsUsed(s, e);
    } else {
      OthersKeepUsed(s, e);
    }
  }

  lemma {:induction false} RunKeepsUsed(s: State, events: seq<Event>)
    requires Valid(s) && Known(s) && CanRun(s, events) && UsedIsTaken(s)
    ensures UsedIsTaken(Run(s, events))
    decreases |events|
  {
    hide UsedIsTaken, Valid, Known, Step;
    if |events| > 0 {
      StepKeepsValid(s, events[0]);
      StepKeepsUsed(s, events[0]);
      RunKeepsUsed(Step(s, events[0]), events[1..]);
    }
  }

  /** Of this gesture the scope was taken before, or anything if it is a menu's. */
  ghost predicate TakenBefore(s: State, g: Grant, scope: Scope) {
    exists i :: 0 <= i < |s.taken| && s.taken[i].spent == g.spent && (s.taken[i].scope == scope || g.menu)
  }

  lemma UsedIff(s: State, handle: nat, scope: Scope)
    requires Valid(s) && UsedIsTaken(s) && handle in s.grants && s.grants[handle].spent in s.spents
    ensures scope in s.spents[s.grants[handle].spent].used <==> TakenBefore(s, s.grants[handle], scope)
  {
    hide Valid;
    GrantFacts(s, handle);
    var g := s.grants[handle];
    if scope in s.spents[g.spent].used {
      var i :| Uses(s, i, g.spent, scope);
      TakenFacts(s, i, handle);
    }
    forall i | 0 <= i < |s.taken| && s.taken[i].spent == g.spent && (s.taken[i].scope == scope || g.menu)
      ensures scope in s.spents[g.spent].used
    {
      TakenFacts(s, i, handle);
      InAll(scope);
    }
  }

  /** In every run, an operation is taken if and only if the grant is one, of a live subscription of this client, with
      the scope, for no other window, and no operation of its gesture had the scope before, or any if it is a menu's. */
  lemma TakeSucceedsIff(events: seq<Event>, handle: nat, cli: nat, scope: Scope, window: Option<string>)
    requires CanRun(INITIAL, events)
    ensures var s := Run(INITIAL, events);
      TakeError(s, Take(handle, cli, scope, window)).None? <==>
        && handle in s.grants
        && var g := s.grants[handle];
          && s.subscriptions[g.subscription] == Subscription(true, cli)
          && scope in g.scope
          && (g.window == "" || window == None || window == Some(g.window))
          && !TakenBefore(s, g, scope)
  {
    hide Valid, UsedIsTaken, TakenBefore;
    StartIsUnused();
    RunKeepsUsed(INITIAL, events);
    var s := Run(INITIAL, events);
    if handle in s.grants {
      UsedIff(s, handle, scope);
    }
  }

  lemma StartIsUnused()
    ensures Valid(INITIAL) && Known(INITIAL) && UsedIsTaken(INITIAL)
  {
  }

  /** A taken operation is recorded, and a refused one changes nothing. */
  lemma TakeIs(s: State, handle: nat, cli: nat, scope: Scope, window: Option<string>)
    requires Known(s)
    ensures var e := Take(handle, cli, scope, window);
      if TakeError(s, e).Some? then Step(s, e) == s
      else Step(s, e).taken == s.taken + [Taken(handle, s.grants[handle].spent, scope, window)]
  {
  }

  // Narrowing.

  /** Each name of the list is the name of a scope. */
  predicate AllNames(names: seq<string>) {
    forall i :: 0 <= i < |names| ==> ScopeOf(names[i]).Some?
  }

  function Given(names: seq<string>): seq<Option<string>> {
    seq(|names|, i requires 0 <= i < |names| => Some(names[i]))
  }

  lemma {:induction false} RequestedIs(names: seq<string>)
    ensures Requested(Given(names)).Some? <==> AllNames(names)
    ensures Requested(Given(names)).Some? ==>
      Requested(Given(names)).value == set i | 0 <= i < |names| && ScopeOf(names[i]).Some? :: ScopeOf(names[i]).value
    decreases |names|
  {
    if |names| > 0 {
      var rest := names[1..];
      assert Given(names)[1..] == Given(rest);
      RequestedIs(rest);
      assert AllNames(names) <==> ScopeOf(names[0]).Some? && AllNames(rest) by {
        assert forall i :: 0 <= i < |rest| ==> rest[i] == names[i + 1];
      }
      if AllNames(names) {
        OneMoreName(names);
      }
    }
  }

  lemma OneMoreName(names: seq<string>)
    requires |names| > 0 && AllNames(names)
    ensures var rest := names[1..];
      (set i | 0 <= i < |names| && ScopeOf(names[i]).Some? :: ScopeOf(names[i]).value) ==
        {ScopeOf(names[0]).value} + set i | 0 <= i < |rest| && ScopeOf(rest[i]).Some? :: ScopeOf(rest[i]).value
  {
    var rest := names[1..];
    var all := set i | 0 <= i < |names| && ScopeOf(names[i]).Some? :: ScopeOf(names[i]).value;
    var others := set i | 0 <= i < |rest| && ScopeOf(rest[i]).Some? :: ScopeOf(rest[i]).value;
    forall x | x in all ensures x in {ScopeOf(names[0]).value} + others {
      var i :| 0 <= i < |names| && ScopeOf(names[i]) == Some(x);
      assert i > 0 ==> rest[i - 1] == names[i];
    }
    forall x | x in others ensures x in all {
      var i :| 0 <= i < |rest| && ScopeOf(rest[i]) == Some(x);
      assert names[i + 1] == rest[i];
    }
  }

  /** Narrowing to a list of names and perhaps a window succeeds if and only if the names are one to five, each of a
      scope that the grant has and its gesture has not used, and the window is an ID that the grant does not exclude. */
  lemma NarrowSucceedsIff(s: State, handle: nat, arguments: nat, names: seq<string>, target: WindowArgument)
    requires Valid(s) && Known(s) && (target.Id? ==> '\0' !in target.id)
    ensures
      var narrowed := Narrowed(s, Narrow(handle, arguments, Names(Given(names)), target));
      && (narrowed.Ok? <==>
        && handle in s.grants && (arguments == 2 || arguments == 3) && 1 <= |names| <= 5 && AllNames(names)
        && !target.NoId?
        && var g := s.grants[handle];
          && (forall i :: 0 <= i < |names| ==>
               ScopeOf(names[i]).value in g.scope && ScopeOf(names[i]).value !in s.spents[g.spent].used)
          && (target.Id? ==> 1 <= |target.id| <= 23 && (g.window == "" || g.window == target.id)))
      && (narrowed.Ok? ==>
           narrowed.value == s.grants[handle].(
             scope := set i | 0 <= i < |names| && ScopeOf(names[i]).Some? :: ScopeOf(names[i]).value,
             window := if target.Id? then target.id else s.grants[handle].window))
  {
    hide Valid, ScopeOf, CString, Requested, FirstRefused;
    if target.Id? {
      assert target.id + "" == target.id;
      CStringIs(target.id, "");
    }
    RequestedIs(names);
    if handle in s.grants && 1 <= |names| <= 5 && AllNames(names) {
      var g := s.grants[handle];
      var requested := set i | 0 <= i < |names| && ScopeOf(names[i]).Some? :: ScopeOf(names[i]).value;
      RefusedIff(requested, g.scope, s.spents[g.spent].used);
    }
  }

  /** A name on its own is a list of one. */
  lemma NameIsList(s: State, handle: nat, arguments: nat, name: string, target: WindowArgument)
    requires Known(s)
    ensures Narrowed(s, Narrow(handle, arguments, Name(name), target)) ==
      Narrowed(s, Narrow(handle, arguments, Names([Some(name)]), target))
  {
    OneName(name);
  }

  /** The narrowed grant is one more handle of the gesture, and a refusal changes nothing. */
  lemma NarrowIs(s: State, e: Event)
    requires Known(s) && e.Narrow?
    ensures match Narrowed(s, e)
      case Err(_) => Step(s, e) == s
      case Ok(g) =>
        && g.spent == s.grants[e.handle].spent
        && Step(s, e).grants == s.grants[|s.made| := g]
        && Step(s, e).spents == s.spents[g.spent := s.spents[g.spent].(refs := s.spents[g.spent].refs + 1)]
        && Step(s, e).parent == s.parent + [Some(e.handle)]
  {
  }

  lemma RefusedIff(requested: set<Scope>, scope: set<Scope>, used: set<Scope>)
    ensures FirstRefused(requested, scope, used, 0).None? <==> forall x :: x in requested ==> x in scope && x !in used
  {
    FirstRefusedNone(requested, scope, used, 0);
    forall x | x in requested ensures exists i :: 0 <= i < |TABLE| && TABLE[i] == x {
      InTable(x);
    }
  }
}
