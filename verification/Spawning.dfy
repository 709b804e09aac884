/** run and fork seen from the tealets: what the new tealet starts with, and that nobody else notices. */
module Spawning {
  import opened Base
  import opened StackModel
  import opened StackProofs
  import opened Growth
  import opened TransferModel
  import opened Safety
  import opened Operations
  import opened Refinement
  import opened PrivateStacks
  import opened Calls

  /** `t` goes on where the creator stood, on the same bytes and up to `far`, and the creator is parked. */
  ghost predicate SpawnsNow<S, T>(st: State<S, T>, st2: State<S, T>, t: T, sp: int, far: int) {
    && st.cur in st.tealets && t in st.tealets && t != st.cur
    && st2.cur == t && st2.core.mem == st.core.mem && st2.tealets.Keys == st.tealets.Keys && st2.tealets[t].far == far
    && ImageIn(st2, t).None? && !Broken(st2, t)
    && (forall u :: u in st.tealets && u != st.cur && u != t ==> Kept(st, st2, u, false))
    && Suspended(st, st2, sp, false)
  }

  /** `t` is parked with a copy of the creator's bytes from `sp` to `far`, and the creator goes on. */
  ghost predicate SpawnsLater<S, T>(st: State<S, T>, st2: State<S, T>, t: T, sp: int, far: int) {
    && st.cur in st.tealets && t in st.tealets && t != st.cur
    && st2.cur == st.cur && st2.core.mem == st.core.mem && st2.tealets.Keys == st.tealets.Keys
    && st2.tealets[st.cur].far == st.tealets[st.cur].far
    && ImageIn(st2, t) == Some(Image(sp, Slice(st.core.mem, sp, far))) && !Broken(st2, t)
    && forall u :: u in st.tealets && u != st.cur && u != t ==> Kept(st, st2, u, false)
  }

  /** Changing one tealet without touching its stack leaves the others' images. */
  lemma OtherImages<S, T>(st: State<S, T>, t: T, v: TealetV<S, T>, u: T)
    requires u != t
    ensures ImageIn(SetT(st, t, v), u) == ImageIn(st, u) && Broken(SetT(st, t, v), u) == Broken(st, u)
  {
    hide ImageOf;
  }

  /** A transfer to a tealet without a saved stack moves no bytes of the C stack. */
  lemma NopMem<S, T>(st: State<S, T>, x: Option<T>, t: T, env: Env, id: S)
    requires Solid(st, x) && t in st.tealets && t != st.cur && (x == Some(t) || x.None?)
    requires st.tealets[t].flags.bound && id !in st.core.stacks && st.tealets[t].stack.None?
    requires SwitchStack(st, t, env, id).moved
    ensures SwitchStack(st, t, env, id).st.core.mem == st.core.mem
    ensures var r := SwitchStack(st, t, env, id); t in r.st.tealets && r.st.tealets[t] == st.tealets[t]
  {
    hide Solid, CanReach, SaveState, GrowFor;
    SolidBasics(st, x);
    var st1 := st.(prev := Some(st.cur), target := Some(t));
    SolidCong(st, st1, x);
    CanReachIntro(st1, x, t);
    SaveLeaves(st1, x, t, env.sp, id);
    SaveStateFrame(st1, t, env.sp, id);
  }

  lemma NoStackNoImage<S, T>(st: State<S, T>, t: T)
    requires t in st.tealets && st.tealets[t].stack.None? && !st.tealets[t].flags.defunct
    ensures ImageIn(st, t).None? && !Broken(st, t)
  {
  }

  lemma StartNowMoves<S, T>(st: State<S, T>, t: T, v: TealetV<S, T>, r: Resume<T>, env: Env, id: S)
    requires Ready(st) && Binds(st, t, v) && EnvOk(st, env, id)
    requires st.cur in st.tealets && Known(SetT(SetT(st, st.cur, st.tealets[st.cur].(resume := r)), t, v))
    requires SwitchStack(SetT(SetT(st, st.cur, st.tealets[st.cur].(resume := r)), t, v), t, env, id).moved
    ensures SpawnsNow(st, SwitchStack(SetT(SetT(st, st.cur, st.tealets[st.cur].(resume := r)), t, v), t, env, id).st, t, env.sp,
                      v.far)
  {
    hide CoreOk, RestOk, MainOk, Owned, Known, SwitchStack, ImageIn, Broken;
    NewIsFree(st, t);
    var w := st.tealets[st.cur].(resume := r);
    var st1 := SetT(st, st.cur, w);
    CastCur(st, None, w);
    BindSolid(st1, t, v);
    var s := SetT(st1, t, v);
    NopMem(s, Some(t), t, env, id);
    SwitchStackFrame(s, t, env, id);
    SwitchStackSuspends(s, Some(t), t, env, id);
    SwitchStackCount(s, t, env, id);
    var y := SwitchStack(s, t, env, id);
    NoStackNoImage(y.st, t);
    forall u | u in st.tealets && u != st.cur && u != t ensures Kept(st, y.st, u, false) {
      SwitchStackKeeps(s, Some(t), t, env, id, u);
      OtherImages(st, st.cur, w, u);
      OtherImages(st1, t, v, u);
    }
  }

  lemma StartNowStays<S, T>(st: State<S, T>, t: T, v: TealetV<S, T>, r: Resume<T>, env: Env, id: S)
    requires Ready(st) && Binds(st, t, v) && EnvOk(st, env, id)
    requires st.cur in st.tealets && Known(SetT(SetT(st, st.cur, st.tealets[st.cur].(resume := r)), t, v))
    requires !SwitchStack(SetT(SetT(st, st.cur, st.tealets[st.cur].(resume := r)), t, v), t, env, id).moved
    ensures var y := SwitchStack(SetT(SetT(st, st.cur, st.tealets[st.cur].(resume := r)), t, v), t, env, id);
            t in y.st.tealets && Stays(st, ResetT(y.st, t), {})
  {
    hide CoreOk, RestOk, MainOk, Owned, Known, SwitchStack, ImageIn, Broken;
    NewIsFree(st, t);
    var w := st.tealets[st.cur].(resume := r);
    var st1 := SetT(st, st.cur, w);
    CastCur(st, None, w);
    BindSolid(st1, t, v);
    var s := SetT(st1, t, v);
    StayFrame(s, Some(t), t, env, id);
    var y := SwitchStack(s, t, env, id);
    var z := ResetT(y.st, t);
    NoStackNoImage(z, t);
    NoStackNoImage(st, t);
    forall u | u in st.tealets && u != st.cur ensures Kept(st, z, u, false) {
      if u != t {
        SwitchStackStays(s, Some(t), t, env, id, u);
        OtherImages(st, st.cur, w, u);
        OtherImages(st1, t, v, u);
        OtherImages(y.st, t, z.tealets[t], u);
      }
    }
  }

  /** The stand-in has no signal set, so its save may fail, but cannot be forced. */
  lemma StandInFailOk<S, T>(st: State<S, T>, t: T, v: TealetV<S, T>)
    requires Binds(st, t, v)
    ensures FailOk(SetT(st, t, v).(cur := t)) && Signals(SetT(st, t, v).(cur := t))
  {
  }

  lemma StartLaterMoves<S, T>(st: State<S, T>, t: T, v: TealetV<S, T>, env: Env, id: S)
    requires Ready(st) && Binds(st, t, v) && 0 <= env.sp < v.far && id !in st.core.stacks
    requires Above(st.core.stacks, st.core.plist, v.far)
    requires st.cur in st.tealets && Known(SetT(st, t, v).(cur := t))
    requires SwitchStack(SetT(st, t, v).(cur := t), st.cur, env, id).moved
    ensures var y := SwitchStack(SetT(st, t, v).(cur := t), st.cur, env, id);
            SpawnsLater(st, y.st.(prev := st.prev), t, env.sp, v.far)
  {
    hide CoreOk, RestOk, MainOk, Owned, Known, SwitchStack, ImageIn, Broken, FailOk, Signals, Above;
    NewIsFree(st, t);
    StandIn(st, t, v);
    StandInFailOk(st, t, v);
    var s := SetT(st, t, v).(cur := t);
    NopMem(s, Some(st.cur), st.cur, env, id);
    SwitchStackFrame(s, st.cur, env, id);
    SwitchStackSuspends(s, Some(st.cur), st.cur, env, id);
    StandInCount(st, t, v, env, id);
    SwitchStackSafe(s, Some(st.cur), st.cur, env, id);
    var y := SwitchStack(s, st.cur, env, id);
    SolidBasics(y.st, None);
    NotBroken(y.st, t);
    ImageCong(y.st, y.st.(prev := st.prev), t);
    assert End(v.far, |st.core.mem|) == v.far;
    forall u | u in st.tealets && u != st.cur && u != t ensures Kept(st, y.st.(prev := st.prev), u, false) {
      SwitchStackKeeps(s, Some(st.cur), st.cur, env, id, u);
      OtherImages(st, t, v, u);
      ImageCong(SetT(st, t, v), s, u);
      ImageCong(y.st, y.st.(prev := st.prev), u);
    }
  }

  lemma NotBroken<S, T>(st: State<S, T>, t: T)
    requires Solid(st, None) && t in st.tealets && t != st.cur && ImageIn(st, t).Some?
    ensures !Broken(st, t)
  {
    hide CoreOk, MainOk, Owned, ImageOf;
    assert RestOk(st, t);
  }

  lemma StartLaterStays<S, T>(st: State<S, T>, t: T, v: TealetV<S, T>, env: Env, id: S)
    requires Ready(st) && Binds(st, t, v) && 0 <= env.sp < v.far && id !in st.core.stacks
    requires st.cur in st.tealets && Known(SetT(st, t, v).(cur := t))
    requires !SwitchStack(SetT(st, t, v).(cur := t), st.cur, env, id).moved
    ensures var y := SwitchStack(SetT(st, t, v).(cur := t), st.cur, env, id);
            t in y.st.tealets && Stays(st, ResetT(y.st, t).(cur := st.cur), {})
  {
    hide CoreOk, RestOk, MainOk, Owned, SwitchStack, ImageIn, Broken;
    NewIsFree(st, t);
    StandInStays(st, t, v, env, id);
    var y := SwitchStack(SetT(st, t, v).(cur := t), st.cur, env, id);
    var z := ResetT(y.st, t).(cur := st.cur);
    NoStackNoImage(z, t);
    NoStackNoImage(st, t);
    forall u | u in st.tealets && u != st.cur ensures Kept(st, z, u, false) {
      if u != t {
        assert z.tealets[u] == st.tealets[u];
        SameImage(st, z, u);
      }
    }
  }

  lemma SameImage<S, T>(st: State<S, T>, st2: State<S, T>, u: T)
    requires u in st.tealets && u in st2.tealets && st2.tealets[u] == st.tealets[u]
    requires st2.core.stacks == st.core.stacks && st2.core.mem == st.core.mem
    ensures ImageIn(st2, u) == ImageIn(st, u) && Broken(st2, u) == Broken(st, u)
  {
    hide ImageOf;
  }

  /* ---- when run and fork go through ---- */

  /** START_SWITCH with a boundary `far`: the outside agrees, and memory suffices for every listed stack that needs the C
      stack below `far` and for the creator. */
  ghost predicate StartsNow<S, T>(st: State<S, T>, far: int, env: Env)
    requires Known(st)
  {
    && env.callerOk && env.integrityOk
    && var n := Needy(st.core.stacks, st.core.plist, far);
       CanGrow(st.core, st.core.plist, n, true, None) && st.core.alloc(st.core.ticks + n)
  }

  /** START_DEFAULT: the outside agrees, and there is memory for the fresh stack. */
  ghost predicate StartsLater<S, T>(st: State<S, T>, env: Env) {
    env.callerOk && env.integrityOk && st.core.alloc(st.core.ticks)
  }

  lemma StartNowGoes<S, T>(st: State<S, T>, t: T, v: TealetV<S, T>, r: Resume<T>, env: Env, id: S)
    requires Ready(st) && Known(st) && Binds(st, t, v) && EnvOk(st, env, id)
    requires st.cur in st.tealets && Known(SetT(SetT(st, st.cur, st.tealets[st.cur].(resume := r)), t, v))
    ensures SwitchStack(SetT(SetT(st, st.cur, st.tealets[st.cur].(resume := r)), t, v), t, env, id).moved
            <==> StartsNow(st, v.far, env)
  {
    hide CoreOk, RestOk, MainOk, Owned, Known, SwitchStack, HasMemory;
    NewIsFree(st, t);
    var w := st.tealets[st.cur].(resume := r);
    var st1 := SetT(st, st.cur, w);
    CastCur(st, None, w);
    BindSolid(st1, t, v);
    var s := SetT(st1, t, v);
    SwitchGoes(s, Some(t), t, env, id);
    NowMemory(st, s, t, v.far, env);
  }

  /** What the memory of a transfer to a tealet without a stack comes to. */
  lemma NowMemory<S, T>(st: State<S, T>, s: State<S, T>, t: T, far: int, env: Env)
    requires Known(st) && Known(s) && s.core == st.core && t in s.tealets && t != s.cur && s.tealets[t].far == far
    requires s.tealets[t].stack.None? && Quiet(s.tealets[s.cur].flags)
    requires var f := s.tealets[t].flags; f.bound && !f.exited && !f.defunct
    ensures Accepts(s, t, env) && HasMemory(s, t, FailOk(s), s.tealets[s.cur].flags.exiting) <==> StartsNow(st, far, env)
  {
    var c, n := st.core, Needy(st.core.stacks, st.core.plist, far);
    var m := s.tealets[s.main].stack;
    assert forall i :: 0 <= i < n ==> (Stuck(c, c.plist, i, true, m) <==> Stuck(c, c.plist, i, true, None));
  }

  lemma StartLaterGoes<S, T>(st: State<S, T>, t: T, v: TealetV<S, T>, env: Env, id: S)
    requires Ready(st) && Binds(st, t, v) && t != st.cur
    ensures Known(SetT(st, t, v).(cur := t)) && st.cur in st.tealets
    ensures SwitchStack(SetT(st, t, v).(cur := t), st.cur, env, id).moved <==> StartsLater(st, env)
  {
    hide CoreOk, RestOk, MainOk, Owned, GrowFor, SaveTo, RestoreState;
    NewIsFree(st, t);
    StandInIdle(st, t, v);
    var s := SetT(st, t, v).(cur := t);
    var s1 := s.(prev := Some(t), target := Some(st.cur));
    GrowForCong(s, s1, st.cur);
    SaveFails(s1, st.cur, env.sp, id);
  }

  /* ---- a tealet bound beyond the half-saved stacks ---- */

  /** START_DEFAULT with a boundary `far` keeps the invariant exactly when it does not go through, or no listed stack
      still needs the C stack below `far`. */
  lemma RunFarExact<S, T>(st: State<S, T>, t: T, far: int, env: Env, id: S)
    requires Inv(st) && Known(st) && t in st.tealets && st.tealets[t].flags == NO_FLAGS
    requires 0 <= env.sp < far <= |st.core.mem| && id !in st.core.stacks
    ensures Inv(Run(st, t, far, false, env, id).st)
            <==> !StartsLater(st, env) || Above(st.core.stacks, st.core.plist, far)
  {
    hide Solid, StartLater, Above;
    if Above(st.core.stacks, st.core.plist, far) {
      RunInv(st, t, far, false, env, id);
    } else if !StartsLater(st, env) {
      FailedRunInv(st, t, far, env, id);
    } else {
      var v := st.tealets[t].(far := far, flags := NO_FLAGS.(bound := true), resume := NotStarted(t, st.cur));
      ReadyLocks(st, st.locks + [true]);
      SolidMem(st);
      NewIsFree(st, t);
      PushedTooFar(Lock(st), t, v, env, id);
      NotAboveNotInv(StartLater(Lock(st), t, v, env, id).st, st.core.stacks, st.core.plist, id, far);
    }
  }

  /** A binding that does not go through changes nothing that matters. */
  lemma FailedRunInv<S, T>(st: State<S, T>, t: T, far: int, env: Env, id: S)
    requires Inv(st) && Known(st) && t in st.tealets && st.tealets[t].flags == NO_FLAGS
    requires 0 <= env.sp < far <= |st.core.mem| && id !in st.core.stacks && !StartsLater(st, env)
    ensures Inv(Run(st, t, far, false, env, id).st)
  {
    hide Solid, StartLater, SwitchStack;
    var v := st.tealets[t].(far := far, flags := NO_FLAGS.(bound := true), resume := NotStarted(t, st.cur));
    LockedStart(st);
    NewIsFree(st, t);
    StartLaterGoes(Lock(st), t, v, env, id);
    StartLaterFails(Lock(st), t, v, env, id);
    var st2 := StartLater(Lock(st), t, v, env, id).st;
    CountsSize(Lock(st), st2);
    LockUnlock(st.locks);
  }

  lemma SolidMem<S, T>(st: State<S, T>)
    requires Inv(st)
    ensures |st.core.mem| < FURTHEST
  {
    hide StackOk, Staircase, Above, Owned, RestOk, MainOk;
  }

  /** Where the fresh stack of the stand-in goes when it is not saved to its end. */
  lemma PushedTooFar<S, T>(st: State<S, T>, t: T, v: TealetV<S, T>, env: Env, id: S)
    requires Ready(st) && Binds(st, t, v) && 0 <= env.sp < v.far && id !in st.core.stacks && t != st.cur
    requires env.callerOk && env.integrityOk && st.core.alloc(st.core.ticks)
    requires !Above(st.core.stacks, st.core.plist, v.far) && Known(SetT(st, t, v).(cur := t)) && st.cur in st.tealets
    ensures var c := StartLater(st, t, v, env, id).st.core;
            && c.plist == [id] + st.core.plist && id in c.stacks && c.stacks[id].far == v.far
            && forall s :: s in st.core.stacks ==> s in c.stacks && c.stacks[s] == st.core.stacks[s]
  {
    hide CoreOk, RestOk, MainOk, Owned, GrowFor, SavedRecord, SaveTo;
    StandInIdle(st, t, v);
    StandInKnown(st, t, v);
    var s := SetT(st, t, v).(cur := t);
    var s1 := s.(prev := Some(t), target := Some(st.cur));
    GrowForCong(s, s1, st.cur);
    var stop := st.tealets[st.cur].far;
    assert stop < v.far by { AboveLess(st.core, stop, v.far); }
    assert !SaveTo(st.core, id, env.sp, v.far, stop).fail by { SaveToAlloc(st.core, id, env.sp, v.far, stop); }
    SaveToRecord(st.core, id, env.sp, v.far, stop);
    RecordShape(st.core.mem, env.sp, v.far, stop);
  }

  lemma AboveLess<S>(c: Core<S>, b: int, far: int)
    requires Above(c.stacks, c.plist, b) && !Above(c.stacks, c.plist, far)
    ensures b < far
  {
  }

  lemma NotAboveNotInv<S, T>(st: State<S, T>, stacks: map<S, StackV>, list: seq<S>, id: S, far: int)
    requires st.core.plist == [id] + list && id in st.core.stacks && st.core.stacks[id].far == far
    requires forall s :: s in stacks ==> s in st.core.stacks && st.core.stacks[s] == stacks[s]
    requires forall s :: s in list ==> s in stacks
    requires !Above(stacks, list, far)
    ensures !Inv(st)
  {
    hide StacksOk, ListExact, Owned, RestOk, MainOk, RunnerOk;
    var i :| 0 <= i < |list| && !(list[i] in stacks && far <= stacks[list[i]].Edge());
    assert list[i] in list;
    assert st.core.plist[i + 1] == list[i] && st.core.plist[0] == id;
  }

  /** Exactly the calls of run that keep the invariant. */
  ghost predicate RunLegal<S, T>(st: State<S, T>, t: T, far: int, now: bool, env: Env)
    requires Known(st) && t in st.tealets
  {
    st.tealets[t].flags == NO_FLAGS && !now && StartsLater(st, env) ==> Above(st.core.stacks, st.core.plist, far)
  }

  /** tealet_run keeps the invariant if and only if the call is legal. */
  lemma RunExact<S, T>(st: State<S, T>, t: T, far: int, now: bool, env: Env, id: S)
    requires Inv(st) && Known(st) && RunAsks(st, t, far, now, env, id)
    ensures Inv(Run(st, t, far, now, env, id).st) <==> RunLegal(st, t, far, now, env)
  {
    hide Inv, Run, Above, StartsLater;
    if st.tealets[t].flags == NO_FLAGS && !now {
      RunFarExact(st, t, far, env, id);
    } else {
      RunInv(st, t, far, now, env, id);
    }
  }
}
