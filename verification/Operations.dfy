/** Every operation of the library keeps the invariant. */
module Operations {
  import opened Base
  import opened StackModel
  import opened StackProofs
  import opened TransferModel
  import opened Safety

  /* ---- the number of tealets ---- */

  /** Either no tealet was freed, or just the one that was running. */
  ghost predicate Counts<S, T>(st: State<S, T>, st2: State<S, T>) {
    || (st2.tealets.Keys == st.tealets.Keys && st2.count == st.count)
    || (st.cur in st.tealets && st2.tealets.Keys == st.tealets.Keys - {st.cur} && st2.count == st.count - 1)
  }

  lemma CountsSize<S, T>(st: State<S, T>, st2: State<S, T>)
    requires Counts(st, st2) && st.count == |st.tealets|
    ensures st2.count == |st2.tealets|
  {
    assert |st.tealets| == |st.tealets.Keys| && |st2.tealets| == |st2.tealets.Keys|;
  }

  lemma SaveStateCount<S, T>(st: State<S, T>, t: T, sp: int, id: S)
    requires Known(st) && t in st.tealets && t != st.cur
    ensures Counts(st, SaveState(st, t, sp, id).st)
  {
    hide GrowFor, SaveTo;
  }

  lemma SwitchStackCount<S, T>(st: State<S, T>, t: T, env: Env, id: S)
    requires Known(st) && t in st.tealets && t != st.cur
    ensures Counts(st, SwitchStack(st, t, env, id).st)
  {
    hide SaveState, Restore, Decref;
    var st1 := st.(prev := Some(st.cur), target := Some(t));
    SaveStateCount(st1, t, env.sp, id);
    SaveStateFrame(st1, t, env.sp, id);
  }

  lemma XferInnerCount<S, T>(st: State<S, T>, t: T, force: bool, panic: bool, isExit: bool, delete: bool, env: Env, id: S)
    requires Ready(st) && t in st.tealets && (isExit ==> st.cur != st.main)
    ensures Counts(st, XferInner(st, t, force, panic, isExit, delete, env, id).st)
  {
    hide SwitchStack, Solid;
    assert Known(st) by { SolidBasics(st, None); }
    if st.tealets[t].flags.bound && t != st.cur {
      var s := Stage(st, force, panic, isExit, delete);
      StageSolid(st, force, panic, isExit, delete);
      SolidBasics(s, None);
      SwitchStackCount(s, t, env, id);
    }
  }

  /* ---- the lock ---- */

  lemma LockUnlock(locks: seq<bool>)
    requires Balanced(locks)
    ensures Balanced(locks + [true] + [false])
  {
  }

  lemma ReadyLocks<S, T>(st: State<S, T>, locks: seq<bool>)
    requires Ready(st)
    ensures Ready(st.(locks := locks))
  {
    hide Solid;
    SolidCong(st, st.(locks := locks), None) by { SolidBasics(st, None); }
  }

  lemma ReadyQuiet<S, T>(st: State<S, T>, t: T)
    requires Ready(st) && t in st.tealets
    ensures Quiet(st.tealets[t].flags)
  {
    hide CoreOk, Owned, MainOk, Known;
    if t != st.cur { assert RestOk(st, t); }
  }

  /* ---- run and fork ---- */

  /** `t` is NEW and `v` binds it: a fresh tealet with a bounded stack. */
  ghost predicate Binds<S, T>(st: State<S, T>, t: T, v: TealetV<S, T>) {
    && t in st.tealets && st.tealets[t].flags == NO_FLAGS
    && v.stack == st.tealets[t].stack && 0 < v.far <= |st.core.mem|
    && v.flags.bound && !v.flags.exited && !v.flags.defunct && Quiet(v.flags)
  }

  lemma NewIsFree<S, T>(st: State<S, T>, t: T)
    requires Solid(st, None) && t in st.tealets && st.tealets[t].flags == NO_FLAGS
    ensures t != st.cur && t != st.main && st.tealets[t].stack.None?
  {
    hide CoreOk, Owned;
    if t != st.cur { assert RestOk(st, t); }
  }

  /** Binding a tealet while its creator goes on running. */
  lemma BindSolid<S, T>(st: State<S, T>, t: T, v: TealetV<S, T>)
    requires Solid(st, None) && Binds(st, t, v)
    ensures Solid(SetT(st, t, v), Some(t))
  {
    hide Owned, StackOk, Staircase, ListExact, Above;
    NewIsFree(st, t);
    OwnedSame(st, t, v);
    var st2 := SetT(st, t, v);
    forall u | u in st2.tealets && u != st2.cur && u != t ensures RestOk(st2, u) { assert RestOk(st, u); }
  }

  /** A binding that failed is undone. */
  lemma UnbindSolid<S, T>(st: State<S, T>, t: T)
    requires Solid(st, Some(t)) && t != st.main
    ensures Solid(ResetT(st, t), None)
  {
    hide CoreOk, Owned;
    var st2 := ResetT(st, t);
    OwnedSame(st, t, st2.tealets[t]);
    forall u | u in st2.tealets && u != st2.cur ensures RestOk(st2, u) { if u != t { assert RestOk(st, u); } }
  }

  /** The binding tealet takes over the running role, so that its fresh stack is what gets saved. */
  lemma StandIn<S, T>(st: State<S, T>, t: T, v: TealetV<S, T>)
    requires Ready(st) && Binds(st, t, v)
    requires Above(st.core.stacks, st.core.plist, v.far)
    ensures Solid(SetT(st, t, v).(cur := t), Some(st.cur))
  {
    hide Owned, StackOk, Staircase, ListExact, Above;
    NewIsFree(st, t);
    OwnedSame(st, t, v);
    var st2 := SetT(st, t, v).(cur := t);
    assert Owned(st2) by { SameOwned(SetT(st, t, v), st2); }
    forall u | u in st2.tealets && u != t && u != st.cur ensures RestOk(st2, u) { assert RestOk(st, u); }
  }

  lemma StandInKnown<S, T>(st: State<S, T>, t: T, v: TealetV<S, T>)
    requires Ready(st) && Binds(st, t, v)
    ensures Known(SetT(st, t, v).(cur := t)) && st.cur in st.tealets && t != st.cur
    ensures st.tealets[st.cur].stack.None? && Above(st.core.stacks, st.core.plist, st.tealets[st.cur].far)
  {
    hide Owned, StackOk, StacksOk, ListExact, RestOk, Staircase, Above;
    NewIsFree(st, t);
  }

  /** While the creator goes on running, the list of half-saved stacks does not change. */
  lemma StandInIdle<S, T>(st: State<S, T>, t: T, v: TealetV<S, T>)
    requires Ready(st) && Binds(st, t, v)
    ensures var s := SetT(st, t, v).(cur := t);
            Known(s) && st.cur in s.tealets && GrowFor(s, st.cur) == Grown(st.core, false, false)
  {
    hide Owned, StackOk, StacksOk, ListExact, MainOk, RestOk, StackV.Partial, StackV.Edge;
    var s := SetT(st, t, v).(cur := t);
    StandInKnown(st, t, v);
    ListedAbove(st.core, st.tealets[st.cur].far);
    GrowListIdle(s.core, s.core.plist, s.tealets[st.cur].far, s.tealets[st.cur].stack, FailOk(s),
                 s.tealets[s.main].stack);
  }

  lemma ListedAbove<S>(c: Core<S>, b: int)
    requires Staircase(c.stacks, c.plist) && Above(c.stacks, c.plist, b)
    ensures forall s :: s in c.plist ==> s in c.stacks && c.stacks[s].Partial() && b <= c.stacks[s].Edge()
  {
    hide StackV.Partial, StackV.Edge;
  }

  /** run and fork with START_SWITCH: the creator is saved and `t` goes on, or the binding is undone. */
  lemma StartNowSafe<S, T>(st: State<S, T>, t: T, v: TealetV<S, T>, r: Resume<T>, env: Env, id: S)
    requires Ready(st) && Binds(st, t, v) && EnvOk(st, env, id)
    ensures st.cur in st.tealets && Known(SetT(SetT(st, st.cur, st.tealets[st.cur].(resume := r)), t, v))
    ensures var x := StartNow(st, t, v, r, env, id);
            Ready(x.st) && x.st.locks == st.locks + [false] && Counts(st, x.st)
  {
    hide CoreOk, RestOk, MainOk, Owned, Known;
    NewIsFree(st, t);
    var w := st.tealets[st.cur].(resume := r);
    var st1 := SetT(st, st.cur, w);
    CastCur(st, None, w);
    BindSolid(st1, t, v);
    var s := SetT(st1, t, v);
    SolidBasics(s, Some(t));
    SwitchStackSafe(s, Some(t), t, env, id);
    SwitchStackFrame(s, t, env, id);
    SwitchStackCount(s, t, env, id);
    var y := SwitchStack(s, t, env, id);
    if y.moved {
      SolidCur(y.st, None);
      ReadyLocks(y.st, y.st.locks + [false]);
    } else {
      StayFrame(s, Some(t), t, env, id);
      UnbindSolid(y.st, t);
      ReadyLocks(ResetT(y.st, t), y.st.locks + [false]);
    }
  }

  /** A NEW tealet stays NEW whatever its far boundary and resume point say. */
  lemma RenewSolid<S, T>(st: State<S, T>, t: T, v: TealetV<S, T>)
    requires Solid(st, None) && t in st.tealets && st.tealets[t].flags == NO_FLAGS
    requires v.far == 0 && v.stack.None? && v.flags == NO_FLAGS
    ensures Solid(SetT(st, t, v), None)
  {
    hide CoreOk, Owned;
    NewIsFree(st, t);
    OwnedSame(st, t, v);
    var st2 := SetT(st, t, v);
    forall u | u in st2.tealets && u != st2.cur ensures RestOk(st2, u) { if u != t { assert RestOk(st, u); } }
  }

  lemma CoreTicks<S>(c: Core<S>, b: int, y: Option<S>, n: nat)
    requires CoreOk(c, b, y)
    ensures CoreOk(c.(ticks := n), b, y)
  {
    hide StackOk, Staircase, Above;
  }

  /** run and fork with START_DEFAULT, when the fresh stack cannot be saved: nothing but the count of allocation
      requests has changed. */
  lemma StandInStays<S, T>(st: State<S, T>, t: T, v: TealetV<S, T>, env: Env, id: S)
    requires Ready(st) && Binds(st, t, v) && 0 <= env.sp < v.far && id !in st.core.stacks
    ensures var s := SetT(st, t, v).(cur := t);
            && Known(s) && st.cur in s.tealets
            && var x := SwitchStack(s, st.cur, env, id);
               !x.moved ==> && x.st.core == st.core.(ticks := x.st.core.ticks) && x.st.tealets == s.tealets
                            && x.st.prev == st.prev && x.st.target.None? && !x.st.panic && x.st.main == st.main
                            && x.st.locks == st.locks && x.st.count == st.count && x.st.tsize == st.tsize
  {
    hide Owned, CoreOk, RestOk, MainOk, GrowFor;
    NewIsFree(st, t);
    StandInIdle(st, t, v);
    var s := SetT(st, t, v).(cur := t);
    assert !IsDefunct(s, st.cur) && !s.tealets[st.cur].flags.exited;
    var s1 := s.(prev := Some(t), target := Some(st.cur));
    assert GrowFor(s1, st.cur) == GrowFor(s, st.cur) by { GrowForCong(s, s1, st.cur); }
  }

  lemma GrowForCong<S, T>(st: State<S, T>, st2: State<S, T>, t: T)
    requires Known(st) && Known(st2) && t in st.tealets
    requires st2.core == st.core && st2.tealets == st.tealets && st2.main == st.main && st2.cur == st.cur
    ensures GrowFor(st, t) == GrowFor(st2, t)
  {
    hide GrowList;
  }

  /** What a transfer to `t` may rely on: a state in which nothing but `x` is being bound, or one in which a new tealet
      stands in for its creator `t`. */
  ghost predicate Transferable<S, T>(st: State<S, T>, x: Option<T>, t: T) {
    (Solid(st, x) && CanReach(st, x, t) && Signals(st)) || Standing(st, t)
  }

  /** A tealet stands in as the running one, wherever its stack may end, while its creator `t` has nothing saved. */
  ghost predicate Standing<S, T>(st: State<S, T>, t: T) {
    && Known(st) && t in st.tealets && t != st.cur && st.cur != st.main
    && st.tealets[t].stack.None? && !st.tealets[t].flags.exited && !st.tealets[t].flags.defunct
    && 0 < st.tealets[st.cur].far <= |st.core.mem| && Quiet(st.tealets[st.cur].flags)
    && StacksOk(st.core) && Staircase(st.core.stacks, st.core.plist)
    && Above(st.core.stacks, st.core.plist, st.tealets[t].far)
    && (st.tealets[t].far == FURTHEST || st.tealets[t].far <= |st.core.mem|)
  }

  lemma StandInStands<S, T>(st: State<S, T>, t: T, v: TealetV<S, T>)
    requires Ready(st) && Binds(st, t, v)
    ensures st.cur in st.tealets && t != st.cur && Standing(SetT(st, t, v).(cur := t), st.cur)
  {
    hide Owned, RestOk, StackOk, StacksOk, Staircase, Above, ListExact;
    NewIsFree(st, t);
    StandInKnown(st, t, v);
  }

  lemma StandingCong<S, T>(st: State<S, T>, st2: State<S, T>, t: T)
    requires Standing(st, t)
    requires st2.core == st.core && st2.tealets == st.tealets && st2.cur == st.cur && st2.main == st.main
    ensures Standing(st2, t)
  {
    hide StacksOk, Staircase, Above;
  }

  /** The save for a stand-in has nothing to grow. */
  lemma StandingPre<S, T>(st: State<S, T>, t: T)
    requires Standing(st, t)
    ensures GrowPre(st.core, st.core.plist, st.tealets[t].far, None)
    ensures st.tealets[t].far == FURTHEST ==> st.core.plist == []
    ensures GrowFor(st, t) == Grown(st.core, false, false)
  {
    hide StackOk, StackV.Partial, StackV.Edge;
    if st.tealets[t].far == FURTHEST {
      NothingUnbounded(st.core);
    }
    ListedFars(st.core, st.tealets[t].far);
    GrowListIdle(st.core, st.core.plist, st.tealets[t].far, None, FailOk(st), st.tealets[st.main].stack);
  }

  lemma ListedFars<S>(c: Core<S>, b: int)
    requires StacksOk(c) && Staircase(c.stacks, c.plist) && Above(c.stacks, c.plist, b)
    ensures forall s :: s in c.plist ==> s in c.stacks && c.stacks[s].Partial() && b <= c.stacks[s].Edge()
  {
    hide StackOk, StackV.Partial, StackV.Edge;
  }

  /** run and fork with START_DEFAULT: `t` is suspended with its fresh stack and the creator goes on. */
  lemma StartLaterSafe<S, T>(st: State<S, T>, t: T, v: TealetV<S, T>, env: Env, id: S)
    requires Ready(st) && Binds(st, t, v) && 0 <= env.sp < v.far && id !in st.core.stacks
    requires Above(st.core.stacks, st.core.plist, v.far)
    ensures Known(SetT(st, t, v).(cur := t)) && st.cur in st.tealets
    ensures var x := StartLater(st, t, v, env, id);
            Ready(x.st) && x.st.locks == st.locks + [false] && Counts(st, x.st) && x.st.cur == st.cur
  {
    hide CoreOk, RestOk, MainOk, Owned, Known, SwitchStack;
    NewIsFree(st, t);
    StandIn(st, t, v);
    SolidBasics(st, None);
    var s := SetT(st, t, v).(cur := t);
    SolidBasics(s, Some(st.cur));
    var y := SwitchStack(s, st.cur, env, id);
    SwitchStackFrame(s, st.cur, env, id);
    if y.moved {
      SwitchStackSafe(s, Some(st.cur), st.cur, env, id);
      StandInCount(st, t, v, env, id);
      SolidCur(y.st, None);
      assert PrevOk(y.st.(prev := st.prev)) by { KeysPrev(st, y.st); }
      SolidCong(y.st, y.st.(prev := st.prev), None);
      ReadyLocks(y.st.(prev := st.prev), y.st.locks + [false]);
    } else {
      StartLaterFails(st, t, v, env, id);
    }
  }

  /** A binding that fails leaves the creator running and the tealet NEW, wherever its stack should have ended. */
  lemma StartLaterFails<S, T>(st: State<S, T>, t: T, v: TealetV<S, T>, env: Env, id: S)
    requires Ready(st) && Binds(st, t, v) && 0 <= env.sp < v.far && id !in st.core.stacks
    ensures Known(SetT(st, t, v).(cur := t)) && st.cur in st.tealets
    ensures var x := StartLater(st, t, v, env, id);
            !SwitchStack(SetT(st, t, v).(cur := t), st.cur, env, id).moved ==>
              Ready(x.st) && x.st.locks == st.locks + [false] && Counts(st, x.st) && x.st.cur == st.cur
  {
    hide CoreOk, RestOk, MainOk, Owned, Known, SwitchStack;
    NewIsFree(st, t);
    StandInStays(st, t, v, env, id);
    var s := SetT(st, t, v).(cur := t);
    SwitchStackFrame(s, st.cur, env, id);
    var y := SwitchStack(s, st.cur, env, id);
    if !y.moved {
      var v2 := v.(far := 0, stack := None, flags := NO_FLAGS);
      RenewSolid(st, t, v2);
      var st2 := SetT(st, t, v2);
      assert ResetT(y.st, t).tealets == st2.tealets;
      SolidTicks(st2, y.st.core.ticks);
      SolidCong(st2.(core := y.st.core), ResetT(y.st, t).(cur := st.cur), None);
      ReadyLocks(ResetT(y.st, t).(cur := st.cur), y.st.locks + [false]);
    }
  }

  lemma SolidTicks<S, T>(st: State<S, T>, n: nat)
    requires Solid(st, None)
    ensures Solid(st.(core := st.core.(ticks := n)), None)
  {
    SolidCur(st, None);
    hide CoreOk, Cast;
    CoreTicks(st.core, st.tealets[st.cur].far, None, n);
    CastTicks(st, None, n);
  }

  lemma KeysPrev<S, T>(st: State<S, T>, st2: State<S, T>)
    requires PrevOk(st) && st2.tealets.Keys == st.tealets.Keys
    ensures PrevOk(st2.(prev := st.prev))
  {
  }

  lemma StandInCount<S, T>(st: State<S, T>, t: T, v: TealetV<S, T>, env: Env, id: S)
    requires Ready(st) && Binds(st, t, v)
    ensures var s := SetT(st, t, v).(cur := t);
            && Known(s) && st.cur in s.tealets
            && var y := SwitchStack(s, st.cur, env, id);
               y.st.tealets.Keys == st.tealets.Keys && y.st.count == st.count
  {
    hide GrowFor, SaveTo, CoreOk, RestOk, MainOk, Owned, Restore, Decref;
    NewIsFree(st, t);
    StandInIdle(st, t, v);
  }

  /** What is asked of a call of run: a bounded stack around the stack pointer. */
  ghost predicate RunAsks<S, T>(st: State<S, T>, t: T, far: int, now: bool, env: Env, id: S)
    requires Known(st)
  {
    && t in st.tealets
    && (st.tealets[t].flags == NO_FLAGS ==>
          && 0 < far <= |st.core.mem| && id !in st.core.stacks
          && (if now then EnvOk(st, env, id) else 0 <= env.sp < far))
  }

  /** Such a call is allowed when the new stack ends no farther than the unsaved part of any listed stack begins. A tealet
      that is started at once may end anywhere. */
  ghost predicate RunOk<S, T>(st: State<S, T>, t: T, far: int, now: bool, env: Env, id: S)
    requires Known(st)
  {
    && RunAsks(st, t, far, now, env, id)
    && (st.tealets[t].flags == NO_FLAGS && !now ==> Above(st.core.stacks, st.core.plist, far))
  }

  lemma RunInv<S, T>(st: State<S, T>, t: T, far: int, now: bool, env: Env, id: S)
    requires Inv(st) && RunOk(st, t, far, now, env, id)
    ensures Inv(Run(st, t, far, now, env, id).st)
  {
    hide Solid, StartNow, StartLater, Known, Above;
    SolidBasics(st, None);
    if st.tealets[t].flags == NO_FLAGS {
      var st1 := Lock(st);
      SolidCur(st, None);
      NewIsFree(st, t);
      ReadyLocks(st, st.locks + [true]);
      LockUnlock(st.locks);
      var v := st.tealets[t].(far := far, flags := NO_FLAGS.(bound := true));
      if now {
        StartNowSafe(st1, t, v, InRun(t), env, id);
      } else {
        StartLaterSafe(st1, t, v.(resume := NotStarted(t, st.cur)), env, id);
      }
      CountsSize(st, Run(st, t, far, now, env, id).st);
    }
  }

  ghost predicate ForkOk<S, T>(st: State<S, T>, t: T, env: Env, id: S)
    requires Known(st)
  {
    t in st.tealets && EnvOk(st, env, id)
  }

  lemma ForkInv<S, T>(st: State<S, T>, t: T, now: bool, env: Env, id: S)
    requires Inv(st) && ForkOk(st, t, env, id)
    ensures Inv(Fork(st, t, now, env, id).st)
  {
    hide StartNow, StartLater, Owned, StackOk, RestOk, MainOk, StacksOk, Staircase, ListExact, Above;
    var cur := st.tealets[st.cur];
    if st.tealets[t].flags == NO_FLAGS && cur.far != FURTHEST {
      var st1 := Lock(st);
      NewIsFree(st, t);
      ReadyLocks(st, st.locks + [true]);
      LockUnlock(st.locks);
      var v := st.tealets[t].(far := cur.far,
                              flags := NO_FLAGS.(bound := true, forked := true, mainLineage := cur.flags.mainLineage));
      if now {
        StartNowSafe(st1, t, v, InFork(t, st.cur, true), env, id);
      } else {
        StartLaterSafe(st1, t, v.(resume := InFork(t, st.cur, false)), env, id);
      }
      CountsSize(st, Fork(st, t, now, env, id).st);
    }
  }

  /* ---- new, duplicate, delete, set_far, and user code ---- */

  /** The same stacks with the same boundaries, given up or not as before. */
  ghost predicate SameShape<S>(c: Core<S>, c2: Core<S>) {
    && |c2.mem| == |c.mem| && c2.stacks.Keys == c.stacks.Keys
    && (forall s :: s in c.stacks ==> c2.stacks[s].far == c.stacks[s].far)
    && (forall s :: s in c.stacks ==> c2.stacks[s].defunct == c.stacks[s].defunct)
  }

  /** A tealet is added; every stack keeps its boundary and its state. */
  lemma AddSolid<S, T>(st: State<S, T>, st2: State<S, T>, id: T)
    requires Solid(st, None) && id !in st.tealets && id in st2.tealets
    requires st2.tealets == st.tealets[id := st2.tealets[id]]
    requires st2.main == st.main && st2.cur == st.cur && st2.prev == st.prev
    requires SameShape(st.core, st2.core)
    requires RestOk(st2, id) && MainOk(st2) && Owned(st2) && CoreOk(st2.core, st.tealets[st.cur].far, None)
    ensures Solid(st2, None)
  {
    hide CoreOk, Owned, MainOk;
    forall u | u in st2.tealets && u != st2.cur && u != id ensures RestOk(st2, u) { assert RestOk(st, u); }
    assert Known(st2) by { KnownMore(st, st2, id); }
  }

  lemma KnownMore<S, T>(st: State<S, T>, st2: State<S, T>, id: T)
    requires Solid(st, None) && id in st2.tealets && RestOk(st2, id) && CoreOk(st2.core, st.tealets[st.cur].far, None)
    requires st2.tealets == st.tealets[id := st2.tealets[id]] && st2.main == st.main && st2.cur == st.cur
    requires st2.core.stacks.Keys == st.core.stacks.Keys
    ensures Known(st2)
  {
    hide Owned, MainOk, StackOk, StacksOk, ListExact, Above;
    StaircaseKnown(st2.core);
  }

  lemma AddCount<S, T>(st: State<S, T>, st2: State<S, T>, id: T)
    requires st.count == |st.tealets| && id !in st.tealets && id in st2.tealets && st2.count == st.count + 1
    requires st2.tealets == st.tealets[id := st2.tealets[id]]
    ensures st2.count == |st2.tealets|
  {
    assert st2.tealets.Keys == st.tealets.Keys + {id};
    assert |st2.tealets| == |st2.tealets.Keys| && |st.tealets| == |st.tealets.Keys|;
  }

  lemma ReadyTicks<S, T>(st: State<S, T>, n: nat)
    requires Ready(st)
    ensures Ready(st.(core := st.core.(ticks := n)))
  {
    SolidTicks(st, n);
  }

  lemma NewInv<S, T>(st: State<S, T>, id: T)
    requires Inv(st) && id !in st.tealets
    ensures Inv(New(st, id).st)
  {
    hide CoreOk, Owned, Known, RestOk, MainOk, RunnerOk;
    SolidBasics(st, None);
    SolidCur(st, None);
    var m := New(st, id);
    LockUnlock(st.locks);
    if m.fail {
      ReadyTicks(st, st.core.ticks + 1);
      ReadyLocks(st.(core := m.st.core), m.st.locks);
    } else {
      CoreStats(st.core, m.st.core, st.tealets[st.cur].far);
      AddCount(st, m.st, id);
      OwnedMore(st, m.st, id);
      assert RestOk(m.st, id) by { NewRest(m.st, id); }
      assert MainOk(m.st) by { MainSame(st, m.st); }
      AddSolid(st, m.st, id);
    }
  }

  lemma NewRest<S, T>(st: State<S, T>, t: T)
    requires t in st.tealets && st.tealets[t] == TealetV(0, None, NO_FLAGS, Unbound)
    ensures RestOk(st, t)
  {
  }

  lemma MainSame<S, T>(st: State<S, T>, st2: State<S, T>)
    requires MainOk(st) && st2.main == st.main && st.main in st2.tealets && st2.tealets[st.main] == st.tealets[st.main]
    requires st.tealets[st.main].stack.Some? && st.tealets[st.main].stack.value in st.core.stacks ==>
               && st.tealets[st.main].stack.value in st2.core.stacks
               && st2.core.stacks[st.tealets[st.main].stack.value] == st.core.stacks[st.tealets[st.main].stack.value]
    ensures MainOk(st2)
  {
  }

  /** Counters do not matter to the saved stacks. */
  lemma CoreStats<S>(c: Core<S>, c2: Core<S>, b: int)
    requires CoreOk(c, b, None) && c2.mem == c.mem && c2.stacks == c.stacks && c2.plist == c.plist
    ensures CoreOk(c2, b, None)
  {
    hide StackOk, Staircase, Above;
  }

  lemma OwnedMore<S, T>(st: State<S, T>, st2: State<S, T>, id: T)
    requires Owned(st) && id !in st.tealets && id in st2.tealets && st2.tealets[id].stack.None?
    requires st2.tealets == st.tealets[id := st2.tealets[id]] && st2.core.stacks == st.core.stacks
    ensures Owned(st2)
  {
    forall s | s in st.core.stacks ensures Holders(st2.tealets, s) == Holders(st.tealets, s) { }
  }

  /** A duplicate shares the saved stack of its original. */
  lemma OwnedDup<S, T>(st: State<S, T>, st2: State<S, T>, t: T, id: T, s: S)
    requires Owned(st) && t in st.tealets && id !in st.tealets && st.tealets[t].stack == Some(s) && s in st.core.stacks
    requires st2.tealets == st.tealets[id := st.tealets[t]] && st2.core.stacks == Dup(st.core, s).stacks
    ensures Owned(st2)
  {
    assert Holders(st2.tealets, s) == Holders(st.tealets, s) + {id};
    forall u | u in st.core.stacks && u != s ensures Holders(st2.tealets, u) == Holders(st.tealets, u) { }
  }

  lemma DupOk<S>(c: Core<S>, b: int, s: S)
    requires CoreOk(c, b, None) && s in c.stacks
    ensures CoreOk(Dup(c, s), b, None)
  {
    hide StackV.Edge, StackV.Partial, StackOk;
    var v := c.stacks[s];
    SameRecord(v, v.refcount + 1, |c.mem|);
    SameEdge(v, v.refcount + 1);
  }

  lemma SameEdge(v: StackV, n: int)
    ensures v.(refcount := n).Edge() == v.Edge() && v.(refcount := n).Partial() == v.Partial()
  {
  }

  /** Only a tealet that is neither running nor main may be duplicated. */
  lemma DuplicateInv<S, T>(st: State<S, T>, t: T, id: T)
    requires Inv(st) && t in st.tealets && t != st.cur && t != st.main && id !in st.tealets
    ensures Inv(Duplicate(st, t, id).st)
  {
    hide CoreOk, Owned, RestOk, MainOk, RunnerOk;
    var m := Duplicate(st, t, id);
    LockUnlock(st.locks);
    assert RestOk(st, t);
    if m.fail {
      ReadyTicks(st, st.core.ticks + 1);
      ReadyLocks(st.(core := m.st.core), m.st.locks);
    } else {
      AddCount(st, m.st, id);
      if st.tealets[t].stack.None? {
        OwnedMore(st, m.st, id);
        CoreStats(st.core, m.st.core, st.tealets[st.cur].far);
      } else {
        var s := st.tealets[t].stack.value;
        OwnedDup(st, m.st, t, id, s);
        DupOk(st.core, st.tealets[st.cur].far, s);
        CoreStats(Dup(st.core, s), m.st.core, st.tealets[st.cur].far);
        DupMain(st, t, s);
      }
      assert RestOk(m.st, id) by { DupRest(st, m.st, t, id); }
      assert MainOk(m.st) by { MainSame(st, m.st); }
      AddSolid(st, m.st, id);
    }
  }

  lemma DupRest<S, T>(st: State<S, T>, st2: State<S, T>, t: T, id: T)
    requires t in st.tealets && id in st2.tealets && st2.tealets[id] == st.tealets[t] && RestOk(st, t) && t != st.main
    requires st2.main == st.main && SameShape(st.core, st2.core)
    ensures RestOk(st2, id)
  {
  }

  lemma DupMain<S, T>(st: State<S, T>, t: T, s: S)
    requires Owned(st) && MainOk(st) && t in st.tealets && t != st.main && st.tealets[t].stack == Some(s)
    requires s in st.core.stacks
    ensures st.tealets[st.main].stack != Some(s)
  {
    if st.tealets[st.main].stack == Some(s) {
      Shared(st, t, st.main);
    }
  }

  /** Cutting one stack out of the staircase, at the head, in the middle or at the tail. */
  lemma CutStaircase<S>(stacks: map<S, StackV>, list: seq<S>, b: int, s: S)
    requires Staircase(stacks, list) && Above(stacks, list, b) && s in stacks
    ensures Staircase(stacks - {s}, Remove(list, s)) && Above(stacks - {s}, Remove(list, s), b)
    ensures forall u :: u in Remove(list, s) <==> u in list && u != s
  {
    hide StackV.Partial, StackV.Edge, Staircase, Above;
    StaircaseNoDup(stacks, list);
    if s in list {
      var k :| 0 <= k < |list| && list[k] == s;
      RemoveAt(list, k);
      CutElements(list, k);
      CutAt(stacks, list, b, k);
    } else {
      RemoveAbsent(list, s);
      KeepStairs(stacks, list, b, s);
    }
  }

  lemma CutAt<S>(stacks: map<S, StackV>, list: seq<S>, b: int, k: nat)
    requires Staircase(stacks, list) && Above(stacks, list, b) && k < |list| && NoDup(list)
    ensures var list2 := list[..k] + list[k + 1..];
            Staircase(stacks - {list[k]}, list2) && Above(stacks - {list[k]}, list2, b)
  {
    hide StackV.Partial, StackV.Edge;
    var s, list2 := list[k], list[..k] + list[k + 1..];
    CutElements(list, k);
    forall i | 0 <= i < |list2| ensures list2[i] in stacks - {s} && (stacks - {s})[list2[i]] == stacks[list2[i]] {
      assert list2[i] == list[if i < k then i else i + 1] && list2[i] != s;
    }
  }

  lemma KeepStairs<S>(stacks: map<S, StackV>, list: seq<S>, b: int, s: S)
    requires Staircase(stacks, list) && Above(stacks, list, b) && s !in list
    ensures Staircase(stacks - {s}, list) && Above(stacks - {s}, list, b)
  {
    hide StackV.Partial, StackV.Edge;
  }

  /** Dropping a reference anywhere keeps the saved stacks in order. */
  lemma ReleaseOk<S>(c: Core<S>, b: int, s: S)
    requires CoreOk(c, b, None) && s in c.stacks
    ensures CoreOk(Decref(c, s), b, None)
  {
    hide StackOk, Staircase, Above, StackV.Partial;
    var v := c.stacks[s];
    if v.refcount > 1 {
      SameRecord(v, v.refcount - 1, |c.mem|);
      SameRecordStaircase(c.stacks, c.plist, b, s, v.refcount - 1);
    } else {
      CutStaircase(c.stacks, c.plist, b, s);
      assert Decref(c, s).stacks == c.stacks - {s};
    }
  }

  lemma SameRecordStaircase<S>(stacks: map<S, StackV>, list: seq<S>, b: int, s: S, n: int)
    requires Staircase(stacks, list) && Above(stacks, list, b) && s in stacks
    ensures var stacks2 := stacks[s := stacks[s].(refcount := n)];
            Staircase(stacks2, list) && Above(stacks2, list, b)
  {
    hide StackV.Partial, StackV.Edge;
    SameEdge(stacks[s], n);
  }

  lemma FreeCount<S, T>(st: State<S, T>, st2: State<S, T>, t: T)
    requires st.count == |st.tealets| && t in st.tealets && st2.count == st.count - 1
    requires st2.tealets == st.tealets - {t}
    ensures st2.count == |st2.tealets|
  {
    assert st2.tealets.Keys == st.tealets.Keys - {t};
    assert |st2.tealets| == |st2.tealets.Keys| && |st.tealets| == |st.tealets.Keys|;
  }

  /** Freeing `t` and its reference leaves every other tealet as it was. */
  lemma FreeSolid<S, T>(st: State<S, T>, st2: State<S, T>, t: T)
    requires Solid(st, None) && t in st.tealets && t != st.cur && t != st.main
    requires st2.tealets == st.tealets - {t} && st2.main == st.main && st2.cur == st.cur
    requires st2.prev == (if st.prev == Some(t) then None else st.prev)
    requires |st2.core.mem| == |st.core.mem| && CoreOk(st2.core, st.tealets[st.cur].far, None)
    requires st2.core.stacks == (if st.tealets[t].stack.Some? && st.tealets[t].stack.value in st.core.stacks
                                 then Decref(st.core, st.tealets[t].stack.value).stacks else st.core.stacks)
    ensures Solid(st2, None)
  {
    hide CoreOk, Owned, RestOk, MainOk, Decref;
    var v := st.tealets[t];
    assert Owned(st2) by { OwnedDrop(st, st2, t); }
    forall u | u in st2.tealets && u != st2.cur ensures RestOk(st2, u) {
      assert RestOk(st, u);
      FreeRest(st, st2, t, u);
    }
    FreeMain(st, st2, t);
    assert RunnerOk(st2, st2.cur);
    FreeKnown(st2, st.tealets[st.cur].far);
  }

  lemma FreeKnown<S, T>(st: State<S, T>, b: int)
    requires CoreOk(st.core, b, None) && RunnerOk(st, st.cur) && MainOk(st)
    requires forall u :: u in st.tealets && u != st.cur ==> RestOk(st, u)
    ensures Known(st)
  {
    hide StackOk, StacksOk, ListExact, Above, RestOk, MainOk;
    StaircaseKnown(st.core);
    KnownIntro(st);
  }

  lemma OwnedDrop<S, T>(st: State<S, T>, st2: State<S, T>, t: T)
    requires Owned(st) && Known(st) && t in st.tealets && st2.tealets == st.tealets - {t}
    requires st2.core.stacks == (if st.tealets[t].stack.Some? then Decref(st.core, st.tealets[t].stack.value).stacks
                                 else st.core.stacks)
    ensures Owned(st2)
  {
    hide Decref, Holders, Known;
    KnownStack(st, t);
    forall u | u in st2.core.stacks
      ensures u in st.core.stacks && st2.core.stacks[u].refcount == |Holders(st2.tealets, u)| && st2.core.stacks[u].refcount > 0
    {
      HoldersDrop(st.tealets, t, u);
      if st.tealets[t].stack.Some? {
        DecrefCount(st.core, st.tealets[t].stack.value, u);
      }
    }
  }

  lemma KnownStack<S, T>(st: State<S, T>, t: T)
    requires Known(st) && t in st.tealets
    ensures st.tealets[t].stack.Some? ==> st.tealets[t].stack.value in st.core.stacks
  {
  }

  lemma HoldersDrop<S, T>(m: map<T, TealetV<S, T>>, t: T, u: S)
    requires t in m
    ensures m[t].stack == Some(u) ==> |Holders(m - {t}, u)| == |Holders(m, u)| - 1
    ensures m[t].stack != Some(u) ==> Holders(m - {t}, u) == Holders(m, u)
  {
    if m[t].stack == Some(u) {
      assert Holders(m - {t}, u) == Holders(m, u) - {t};
    }
  }

  /** A reference that is dropped counts for its own stack alone. */
  lemma DecrefCount<S>(c: Core<S>, s: S, u: S)
    requires s in c.stacks && u in Decref(c, s).stacks
    ensures u in c.stacks
    ensures u == s ==> Decref(c, s).stacks[u].refcount == c.stacks[u].refcount - 1 > 0
    ensures u != s ==> Decref(c, s).stacks[u] == c.stacks[u]
  {
  }

  lemma FreeRest<S, T>(st: State<S, T>, st2: State<S, T>, t: T, u: T)
    requires Owned(st) && t in st.tealets && u in st.tealets && u != t && RestOk(st, u)
    requires st2.tealets == st.tealets - {t} && st2.main == st.main && |st2.core.mem| == |st.core.mem|
    requires st2.core.stacks == (if st.tealets[t].stack.Some? && st.tealets[t].stack.value in st.core.stacks
                                 then Decref(st.core, st.tealets[t].stack.value).stacks else st.core.stacks)
    ensures RestOk(st2, u)
  {
    if st.tealets[t].stack.Some? && st.tealets[u].stack == st.tealets[t].stack {
      Shared(st, t, u);
    }
  }

  lemma FreeMain<S, T>(st: State<S, T>, st2: State<S, T>, t: T)
    requires Owned(st) && MainOk(st) && t in st.tealets && t != st.main
    requires st2.tealets == st.tealets - {t} && st2.main == st.main
    requires st2.core.stacks == (if st.tealets[t].stack.Some? && st.tealets[t].stack.value in st.core.stacks
                                 then Decref(st.core, st.tealets[t].stack.value).stacks else st.core.stacks)
    ensures MainOk(st2)
  {
    if st.tealets[t].stack.Some? && st.tealets[st.main].stack == st.tealets[t].stack
       && st.tealets[t].stack.value in st.core.stacks {
      Shared(st, t, st.main);
    }
  }

  /** Neither the running tealet nor main may be deleted. */
  lemma DeleteInv<S, T>(st: State<S, T>, t: T)
    requires Inv(st) && t in st.tealets && t != st.cur && t != st.main
    ensures Inv(Delete(st, t))
  {
    hide CoreOk, Owned, RestOk, MainOk, RunnerOk, Decref;
    var st2 := Delete(st, t);
    LockUnlock(st.locks);
    FreeCount(st, st2, t);
    SolidBasics(st, None);
    if st.tealets[t].stack.Some? {
      ReleaseOk(st.core, st.tealets[st.cur].far, st.tealets[t].stack.value);
      CoreStats(Decref(st.core, st.tealets[t].stack.value), st2.core, st.tealets[st.cur].far);
      DecrefMem(st.core, st.tealets[t].stack.value);
    } else {
      CoreStats(st.core, st2.core, st.tealets[st.cur].far);
    }
    FreeSolid(st, st2, t);
  }

  lemma DecrefMem<S>(c: Core<S>, s: S)
    requires s in c.stacks
    ensures Decref(c, s).mem == c.mem
  {
  }

  /** A boundary that main may get: while main runs, one that lies on the C stack, or is unbounded, and below which no
      listed stack still needs the C stack; while main is suspended, only the one it has. */
  ghost predicate FarFits<S, T>(st: State<S, T>, far: int)
    requires st.main in st.tealets
  {
    if st.cur == st.main then
      (0 < far <= |st.core.mem| || far == FURTHEST) && Above(st.core.stacks, st.core.plist, far)
    else far == st.tealets[st.main].far
  }

  /** tealet_set_far, which asks only whether the tealet is main, keeps the invariant if and only if the boundary fits. */
  lemma SetFarInv<S, T>(st: State<S, T>, far: int)
    requires Inv(st)
    ensures st.main in st.tealets
    ensures Inv(SetFar(st, st.main, far).st) <==> FarFits(st, far)
  {
    hide Inv, Above, SetFar;
    MainKnown(st);
    if st.cur == st.main {
      RunningFar(st, far);
    } else {
      SuspendedFar(st, far);
    }
  }

  lemma MainKnown<S, T>(st: State<S, T>)
    requires Inv(st)
    ensures st.main in st.tealets
  {
    hide CoreOk, Owned, RestOk;
  }

  lemma RunningFar<S, T>(st: State<S, T>, far: int)
    requires Inv(st) && st.cur == st.main
    ensures st.main in st.tealets
    ensures Inv(SetFar(st, st.main, far).st) <==> FarFits(st, far)
  {
    hide StackOk, Staircase, ListExact, Owned, Above;
    var v := st.tealets[st.main].(far := far);
    var st2 := SetFar(st, st.main, far).st;
    OwnedSame(st, st.main, v);
    assert st2.tealets.Keys == st.tealets.Keys;
    assert |st2.tealets| == |st2.tealets.Keys| && |st.tealets| == |st.tealets.Keys|;
    forall u | u in st2.tealets && u != st2.cur ensures RestOk(st2, u) { assert RestOk(st, u); }
  }

  /** A saved stack records the boundary of its holder. */
  lemma SuspendedFar<S, T>(st: State<S, T>, far: int)
    requires Inv(st) && st.cur != st.main
    ensures st.main in st.tealets
    ensures Inv(SetFar(st, st.main, far).st) <==> far == st.tealets[st.main].far
  {
    hide Inv;
    MainFar(st);
    var st2 := SetFar(st, st.main, far).st;
    if far == st.tealets[st.main].far {
      assert st2.tealets == st.tealets;
      assert st2 == st;
    }
    if Inv(st2) {
      MainFar(st2);
    }
  }

  lemma MainFar<S, T>(st: State<S, T>)
    requires Inv(st) && st.cur != st.main
    ensures st.main in st.tealets && st.tealets[st.main].stack.Some?
    ensures var s := st.tealets[st.main].stack.value; s in st.core.stacks && st.core.stacks[s].far == st.tealets[st.main].far
  {
    hide CoreOk, Owned;
    assert RestOk(st, st.main);
  }

  /** User code writes below the boundary of the running tealet only. */
  lemma WriteInv<S, T>(st: State<S, T>, at: int, b: byte)
    requires Inv(st) && 0 <= at < |st.core.mem| && at < st.tealets[st.cur].far
    ensures Inv(Write(st, at, b))
  {
    hide StackOk, Staircase, Above, Owned;
    var st2 := Write(st, at, b);
    SameOwned(st, st2);
    assert |st2.core.mem| == |st.core.mem|;
    forall u | u in st2.tealets && u != st2.cur ensures RestOk(st2, u) { assert RestOk(st, u); }
  }
}
