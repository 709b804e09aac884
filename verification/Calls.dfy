/** Calls of tealet_switch and tealet_exit as their caller sees them: from the state before the call, and from what the
    allocator will answer, where control goes, what the call leaves behind, and whether that is a legal state. */
module Calls {
  import opened Base
  import opened StackModel
  import opened StackProofs
  import opened Growth
  import opened TransferModel
  import opened Safety
  import opened Operations
  import opened Refinement
  import opened PrivateStacks

  /* ---- the way to main ---- */

  /** A forced transfer to main, from anybody else, always takes place unless the outside refuses the call. */
  lemma ToMainNeverFails<S, T>(st: State<S, T>, panic: bool, isExit: bool, delete: bool, env: Env, id: S)
    requires Ready(st) && EnvOk(st, env, id) && (isExit ==> st.cur != st.main)
    ensures Known(st)
    ensures var x := XferInner(st, st.main, true, panic, isExit, delete, env, id);
            x.code != ErrMem && x.code != ErrDefunct
  {
    hide Solid, StackmanSwitch, Stage;
    SolidBasics(st, None);
    if st.main != st.cur {
      var s := Stage(st, true, panic, isExit, delete);
      StageSolid(st, true, panic, isExit, delete);
      StageFlags(st, true, panic, isExit, delete);
      StageImages(st, true, panic, isExit, delete, st.main);
      SolidBasics(s, None);
      MainReach(s);
      var s1 := s.(prev := Some(s.cur), target := Some(s.main));
      SolidCong(s, s1, None);
      MainSaved(s1, env, id);
    }
  }

  /** Growing the list for main cannot fail when the transfer is forced: every other stack may be given up, and main's
      own stack is reached before it has to be grown. */
  lemma MainSaved<S, T>(st: State<S, T>, env: Env, id: S)
    requires Solid(st, None) && Known(st) && st.main != st.cur && !FailOk(st) && st.main in st.tealets
    ensures !StackmanSwitch(st, st.main, env.sp, id).fail
  {
    hide RestOk, Owned, CoreOk, RestoreState;
    MainReach(st);
    GrowForMain(st);
  }

  lemma GrowForMain<S, T>(st: State<S, T>)
    requires Solid(st, None) && Known(st) && st.main != st.cur && !FailOk(st)
    ensures st.main in st.tealets && !GrowFor(st, st.main).fail
  {
    hide RestOk, Owned, StackOk, Staircase, Above, ListExact, GrowList, StacksOk;
    MainReach(st);
    TransferPre(st, None, st.main);
    var v := st.tealets[st.main];
    GrowListReaches(st.core, st.core.plist, v.far, v.stack, false, v.stack);
  }

  /** A failed attempt leaves every pointer valid. */
  lemma FailKnown<S, T>(st: State<S, T>, x: Option<T>, t: T, sp: int, id: S)
    requires Solid(st, x) && CanReach(st, x, t) && SaveState(st, t, sp, id).fail
    ensures Known(SaveState(st, t, sp, id).st) && SaveState(st, t, sp, id).st.main == st.main
  {
    hide Solid, SaveState, GrowFor;
    SolidBasics(st, x);
    SaveFailFrame(st, x, t, sp, id);
    SameHeldStacks(st, t, sp, id);
    GrownKnown(st, x, t);
    FailedList(st, t, sp, id);
  }

  /** A failed save lists what the growth step listed. */
  lemma FailedList<S, T>(st: State<S, T>, t: T, sp: int, id: S)
    requires Known(st) && t in st.tealets && SaveState(st, t, sp, id).fail
    ensures SaveState(st, t, sp, id).st.core.plist == GrowFor(st, t).core.plist
    ensures SaveState(st, t, sp, id).st.main == st.main
  {
    hide GrowFor;
  }

  /** A failed save moves no stack pointer. */
  lemma SameHeldStacks<S, T>(st: State<S, T>, t: T, sp: int, id: S)
    requires Known(st) && t in st.tealets && SaveState(st, t, sp, id).fail
    ensures var m := SaveState(st, t, sp, id);
            forall u :: u in m.st.tealets ==> u in st.tealets && m.st.tealets[u].stack == st.tealets[u].stack
  {
    hide GrowFor;
  }

  lemma GrownKnown<S, T>(st: State<S, T>, x: Option<T>, t: T)
    requires Solid(st, x) && CanReach(st, x, t) && Known(st)
    ensures forall s :: s in GrowFor(st, t).core.plist ==> s in st.core.stacks
  {
    hide RestOk, MainOk, Owned, StacksOk, ListExact, Above, GrowFor, Followed, RunnerOk;
    GrowStep(st, x, t);
    StaircaseKnown(GrowFor(st, t).core);
  }

  lemma XferKnown<S, T>(st: State<S, T>, t: T, force: bool, panic: bool, isExit: bool, delete: bool, env: Env, id: S)
    requires Ready(st) && t in st.tealets && EnvOk(st, env, id) && (isExit ==> st.cur != st.main)
    requires XferInner(st, t, force, panic, isExit, delete, env, id).code == ErrMem
    ensures Known(XferInner(st, t, force, panic, isExit, delete, env, id).st)
  {
    hide Solid, SaveState, Stage;
    SolidBasics(st, None);
    var s := Stage(st, force, panic, isExit, delete);
    StageSolid(st, force, panic, isExit, delete);
    SolidBasics(s, None);
    var s1 := s.(prev := Some(s.cur), target := Some(t));
    SolidCong(s, s1, None);
    StageImages(st, force, panic, isExit, delete, t);
    CanReachIntro(s1, None, t);
    FailKnown(s1, None, t, env.sp, id);
  }

  /** Only main, which is never given up, can lose the target of a forced transfer. */
  lemma ForcedKeeps<S, T>(st: State<S, T>, t: T, isExit: bool, env: Env)
    requires Known(st) && t in st.tealets && st.cur != st.main
    ensures KeepsTarget(st, t, true, isExit, env)
  {
    hide GrowFor;
  }

  /** A forced attempt that runs out of memory or finds a defunct target leaves its caller running, in a legal state
      unless the caller is main. */
  lemma AttemptFails<S, T>(st: State<S, T>, t: T, panic: bool, isExit: bool, delete: bool, env: Env, id: S)
    requires Ready(st) && t in st.tealets && EnvOk(st, env, id) && (isExit ==> st.cur != st.main)
    requires var x := XferInner(st, t, true, panic, isExit, delete, env, id); x.code == ErrMem || x.code == ErrDefunct
    ensures Known(st)
    ensures var x := XferInner(st, t, true, panic, isExit, delete, env, id);
            && !x.moved && Known(x.st) && x.st.cur == st.cur && x.st.main == st.main && x.st.locks == st.locks
            && |x.st.core.mem| == |st.core.mem| && x.st.tealets[st.cur].far == st.tealets[st.cur].far
            && x.st.core.stacks.Keys == st.core.stacks.Keys
            && (st.cur != st.main ==> Ready(x.st))
  {
    hide Solid, XferInner, KeepsTarget;
    XferCodes(st, t, true, panic, isExit, delete, env, id);
    XferInnerSafe(st, t, true, panic, isExit, delete, env, id);
    XferStayFrame(st, t, true, panic, isExit, delete, env, id);
    SolidBasics(st, None);
    var x := XferInner(st, t, true, panic, isExit, delete, env, id);
    if x.code == ErrMem {
      XferKnown(st, t, true, panic, isExit, delete, env, id);
    } else {
      SolidBasics(x.st, None);
    }
    if st.cur != st.main {
      ForcedKeeps(st, t, isExit, env);
    }
  }

  /** A switch to the running tealet does not leave it. */
  lemma SelfStays<S, T>(st: State<S, T>, isExit: bool, delete: bool, env: Env, id: S)
    requires Known(st)
    ensures var x := XferInner(st, st.cur, true, true, isExit, delete, env, id);
            && !x.moved && x.st.cur == st.cur && x.st.core == st.core && x.st.tealets == st.tealets
            && x.st.locks == st.locks && x.st.count == st.count && Known(x.st)
  {
  }

  /* ---- lost targets ---- */

  /** ...and the list of half-saved stacks is still exact if and only if the target was not lost: the failing call must
      not have taken an unshared, half-saved target off the list before the save of its caller failed. */
  lemma FailureKeepsList<S, T>(st: State<S, T>, t: T, force: bool, panic: bool, isExit: bool, delete: bool, env: Env, id: S)
    requires Ready(st) && Known(st) && t in st.tealets && EnvOk(st, env, id) && (isExit ==> st.cur != st.main)
    requires XferInner(st, t, force, panic, isExit, delete, env, id).code == ErrMem
    ensures Ready(XferInner(st, t, force, panic, isExit, delete, env, id).st)
            <==> KeepsTarget(st, t, force, isExit, env)
  {
    hide Solid, SwitchStack, Stage, LosesTarget, KeepsTarget, Accepts;
    MemAccepts(st, t, force, panic, isExit, delete, env, id);
    XferCodes(st, t, force, panic, isExit, delete, env, id);
    XferInnerSafe(st, t, force, panic, isExit, delete, env, id);
    var s := Stage(st, force, panic, isExit, delete);
    StageSolid(st, force, panic, isExit, delete);
    StageImages(st, force, panic, isExit, delete, t);
    SolidBasics(s, None);
    assert t != st.cur by { hide *; AcceptedOther(st, t, env); }
    StageLoses(st, t, force, panic, isExit, delete, env);
    if LosesTarget(s, t) {
      LostIsIllegal(s, t, env, id);
      StayFrame(s, None, t, env, id);
      ClearKeepsCore(SwitchStack(s, t, env, id).st, st.cur);
      IllegalNotReady(XferInner(st, t, force, panic, isExit, delete, env, id).st, s.tealets[t].stack.value);
    }
  }

  lemma AcceptedOther<S, T>(st: State<S, T>, t: T, env: Env)
    requires Known(st) && t in st.tealets && Accepts(st, t, env)
    ensures t != st.cur
  {
    hide IsDefunct;
  }

  /** A stack that is half saved but not listed. */
  ghost predicate Stray<S>(c: Core<S>, s: S) {
    s in c.stacks && c.stacks[s].Partial() && s !in c.plist
  }

  lemma LostIsIllegal<S, T>(st: State<S, T>, t: T, env: Env, id: S)
    requires Solid(st, None) && Known(st) && t in st.tealets && t != st.cur && st.tealets[t].flags.bound
    requires LosesTarget(st, t) && SwitchStack(st, t, env, id).code == ErrMem
    ensures st.tealets[t].stack.Some? && Stray(SwitchStack(st, t, env, id).st.core, st.tealets[t].stack.value)
  {
    hide RestOk, MainOk, Owned, StackOk, StackV.Partial, StacksOk, GrowFor, LosesTarget;
    CanReachIntro(st, None, t);
    LosesTargetIs(st, None, t);
    var s := st.tealets[t].stack.value;
    UnsharedUntouched(st, t);
    var st1 := st.(prev := Some(st.cur), target := Some(t));
    GrowForCong(st, st1, t);
  }

  lemma UnsharedUntouched<S, T>(st: State<S, T>, t: T)
    requires Solid(st, None) && Known(st) && CanReach(st, None, t) && !GrowFor(st, t).fail
    requires st.tealets[t].stack.Some? && st.tealets[t].stack.value in st.core.plist
    requires st.core.stacks[st.tealets[t].stack.value].refcount <= 1
    ensures var s := st.tealets[t].stack.value; Stray(GrowFor(st, t).core, s)
  {
    hide RestOk, MainOk, Owned, StackOk, StacksOk, GrowList, StackV.Edge;
    TransferPre(st, None, t);
    var v := st.tealets[t];
    GrowListReaches(st.core, st.core.plist, v.far, v.stack, FailOk(st), st.tealets[st.main].stack);
    StaircaseKnown(st.core);
  }

  lemma ClearKeepsCore<S, T>(st: State<S, T>, t: T)
    requires t in st.tealets
    ensures ClearSignals(st, t).core == st.core
  {
  }

  lemma IllegalNotReady<S, T>(st: State<S, T>, s: S)
    requires Stray(st.core, s)
    ensures !Ready(st)
  {
    hide StacksOk, Staircase, Above, Owned, RestOk, MainOk, RunnerOk;
  }

  /* ---- one attempt ---- */

  /** The requests for memory of a transfer to `t` are answered well enough. */
  ghost predicate HasMemory<S, T>(st: State<S, T>, t: T, failOk: bool, isExit: bool)
    requires Known(st) && t in st.tealets
  {
    var c, n := st.core, Asked(st, t);
    CanGrow(c, c.plist, n, failOk, st.tealets[st.main].stack) && (isExit || !failOk || c.alloc(c.ticks + n))
  }

  /** An attempt goes through: the target may be resumed, the outside agrees, and memory suffices. */
  ghost predicate Goes<S, T>(st: State<S, T>, t: T, force: bool, isExit: bool, env: Env)
    requires Known(st) && t in st.tealets
  {
    Accepts(st, t, env) && HasMemory(st, t, !force || st.cur == st.main, isExit)
  }

  /** The target of an attempt is known to be defunct. */
  ghost predicate FindsDefunct<S, T>(st: State<S, T>, t: T)
    requires Known(st) && t in st.tealets
  {
    t != st.cur && st.tealets[t].flags.bound && !st.tealets[t].flags.exited && IsDefunct(st, t)
  }

  lemma SaveFails<S, T>(st: State<S, T>, t: T, sp: int, id: S)
    requires Known(st) && t in st.tealets
    ensures var g := GrowFor(st, t);
            SaveState(st, t, sp, id).fail
            <==> g.fail || (!st.tealets[st.cur].flags.exiting && FailOk(st) && !g.core.alloc(g.core.ticks))
  {
    hide GrowFor, FailOk;
  }

  lemma SaveHasMemory<S, T>(st: State<S, T>, x: Option<T>, t: T, sp: int, id: S)
    requires Solid(st, x) && CanReach(st, x, t)
    ensures Known(st)
    ensures SaveState(st, t, sp, id).fail <==> !HasMemory(st, t, FailOk(st), st.tealets[st.cur].flags.exiting)
  {
    hide Solid, GrowFor, FailOk, SaveState, Asked, CanGrow;
    SolidBasics(st, x);
    SaveFails(st, t, sp, id);
    GrowForEnds(st, x, t);
    GrownSame(st, x, t);
  }

  /** How a transfer ends, told beforehand; `x` is a tealet that is just being bound. */
  lemma SwitchGoes<S, T>(st: State<S, T>, x: Option<T>, t: T, env: Env, id: S)
    requires Solid(st, x) && Known(st) && t in st.tealets && t != st.cur && st.tealets[t].flags.bound
    requires x == Some(t) || x.None?
    ensures var r := SwitchStack(st, t, env, id); var ok := HasMemory(st, t, FailOk(st), st.tealets[st.cur].flags.exiting);
            && (r.moved <==> Accepts(st, t, env) && ok)
            && (r.code == ErrMem <==> Accepts(st, t, env) && !ok)
            && (r.code == ErrDefunct <==> FindsDefunct(st, t))
  {
    hide Solid, SaveState, RestoreState, HasMemory, FailOk, CanReach;
    if Accepts(st, t, env) {
      var st1 := st.(prev := Some(st.cur), target := Some(t));
      SolidCong(st, st1, x);
      CanReachIntro(st1, x, t);
      SaveHasMemory(st1, x, t, env.sp, id);
      MemoryCong(st, st1, t);
    }
  }

  lemma MemoryCong<S, T>(st: State<S, T>, st2: State<S, T>, t: T)
    requires Known(st) && Known(st2) && t in st.tealets
    requires st2.core == st.core && st2.tealets == st.tealets && st2.cur == st.cur && st2.main == st.main
    ensures FailOk(st2) == FailOk(st)
    ensures forall failOk, isExit :: HasMemory(st2, t, failOk, isExit) == HasMemory(st, t, failOk, isExit)
  {
  }

  lemma StageMemory<S, T>(st: State<S, T>, t: T, force: bool, panic: bool, isExit: bool, delete: bool, env: Env)
    requires Ready(st) && Known(st) && t in st.tealets && t != st.cur
    ensures var s := Stage(st, force, panic, isExit, delete);
            && Known(s) && t in s.tealets && s.tealets[t] == st.tealets[t]
            && HasMemory(s, t, FailOk(s), s.tealets[s.cur].flags.exiting)
               == HasMemory(st, t, !force || st.cur == st.main, isExit)
            && Accepts(s, t, env) == Accepts(st, t, env) && FindsDefunct(s, t) == FindsDefunct(st, t)
            && Asked(s, t) == Asked(st, t)
  {
    hide Solid, CanGrow, Requests;
  }

  /** How an attempt ends, told beforehand. */
  lemma AttemptGoes<S, T>(st: State<S, T>, t: T, force: bool, panic: bool, isExit: bool, delete: bool, env: Env, id: S)
    requires Ready(st) && Known(st) && t in st.tealets && (isExit ==> st.cur != st.main)
    ensures var x := XferInner(st, t, force, panic, isExit, delete, env, id);
            && (x.moved <==> Goes(st, t, force, isExit, env))
            && (x.code == ErrMem <==> Accepts(st, t, env) && !HasMemory(st, t, !force || st.cur == st.main, isExit))
            && (x.code == ErrDefunct <==> FindsDefunct(st, t))
  {
    hide Solid, SwitchStack, HasMemory, Stage, FailOk, IsDefunct;
    if st.tealets[t].flags.bound && t != st.cur {
      var s := Stage(st, force, panic, isExit, delete);
      StageSolid(st, force, panic, isExit, delete);
      StageMemory(st, t, force, panic, isExit, delete, env);
      SwitchGoes(s, None, t, env, id);
      SwitchStackFrame(s, t, env, id);
    }
  }

  /* ---- what a transfer leaves ---- */

  /** Who is alive after control has gone from `cur` to `r`, who holds a saved stack, and where `r` goes on. `gone` says
      that the caller was freed, `saved` that it was saved. */
  ghost predicate After<S, T>(st: State<S, T>, st2: State<S, T>, r: T, gone: bool, saved: bool) {
    && st.cur in st.tealets && r in st.tealets && r != st.cur && st2.cur == r && st2.main == st.main
    && st2.tealets.Keys == (if gone then st.tealets.Keys - {st.cur} else st.tealets.Keys)
    && st2.tealets[r].resume == st.tealets[r].resume
    && forall u :: u in st2.tealets && u != r ==>
         (st2.tealets[u].stack.Some? <==> if u == st.cur then saved else st.tealets[u].stack.Some?)
  }

  /** The caller is saved by the request that follows those of the growth step. */
  ghost predicate Saves<S, T>(st: State<S, T>, isExit: bool, asked: nat) {
    !isExit && st.core.alloc(st.core.ticks + asked)
  }

  lemma SaveAfter<S, T>(st: State<S, T>, t: T, sp: int, id: S)
    requires Known(st) && t in st.tealets && t != st.cur && st.tealets[st.cur].stack.None?
    requires !SaveState(st, t, sp, id).fail
    ensures var m := SaveState(st, t, sp, id); var f := st.tealets[st.cur].flags; var c := GrowFor(st, t).core;
            && m.st.tealets.Keys == (if f.exiting && f.autodelete then st.tealets.Keys - {st.cur} else st.tealets.Keys)
            && (forall u :: u in m.st.tealets && u != st.cur ==> m.st.tealets[u] == st.tealets[u])
            && (st.cur in m.st.tealets ==>
                  (m.st.tealets[st.cur].stack.Some? <==> !f.exiting && c.alloc(c.ticks)))
  {
    hide GrowFor, FailOk;
  }

  /** The tealets after the save half of a transfer to `t`. */
  ghost predicate HalfAfter<S, T>(st: State<S, T>, st2: State<S, T>, gone: bool, saved: bool) {
    && st2.tealets.Keys == (if gone then st.tealets.Keys - {st.cur} else st.tealets.Keys)
    && (forall u :: u in st2.tealets && u != st.cur ==> st2.tealets[u] == st.tealets[u])
    && (st.cur in st2.tealets ==> (st2.tealets[st.cur].stack.Some? <==> saved))
  }

  lemma SavedAfter<S, T>(st: State<S, T>, t: T, sp: int, id: S)
    requires Solid(st, None) && CanReach(st, None, t) && !SaveState(st, t, sp, id).fail
    ensures Known(st)
    ensures var f := st.tealets[st.cur].flags;
            HalfAfter(st, SaveState(st, t, sp, id).st, f.exiting && f.autodelete, Saves(st, f.exiting, Asked(st, t)))
  {
    hide Solid, SaveState, GrowFor, FailOk, Asked;
    CurFree(st);
    SolidBasics(st, None);
    SaveAfter(st, t, sp, id);
    SavedGrows(st, t, sp, id);
    GrowForEnds(st, None, t);
    GrownSame(st, None, t);
  }

  lemma SwitchAfter<S, T>(st: State<S, T>, t: T, env: Env, id: S)
    requires Solid(st, None) && Known(st) && t in st.tealets && t != st.cur && st.tealets[t].flags.bound
    requires SwitchStack(st, t, env, id).moved
    ensures var f := st.tealets[st.cur].flags;
            After(st, SwitchStack(st, t, env, id).st, t, f.exiting && f.autodelete, Saves(st, f.exiting, Asked(st, t)))
  {
    hide Solid, SaveState, SwitchStack, CanReach, Asked, Saves;
    var st1 := st.(prev := Some(st.cur), target := Some(t));
    AcceptedReach(st, t, env, id);
    MovedTealets(st, t, env, id);
    SavedAfter(st1, t, env.sp, id);
    AskedCong(st, st1, t);
    assert forall b, n :: Saves(st1, b, n) == Saves(st, b, n) by { hide *; SavesCong(st, st1); }
    SaveStateFrame(st1, t, env.sp, id);
  }

  /** The restore half takes its stack from the target and changes no other tealet. */
  lemma MovedTealets<S, T>(st: State<S, T>, t: T, env: Env, id: S)
    requires Known(st) && t in st.tealets && t != st.cur && SwitchStack(st, t, env, id).moved
    ensures var r := SwitchStack(st, t, env, id); var m := SaveState(st.(prev := Some(st.cur), target := Some(t)), t, env.sp, id);
            && !m.fail && r.st.cur == t && r.st.main == m.st.main && t in m.st.tealets
            && (r.st.tealets == m.st.tealets || r.st.tealets == m.st.tealets[t := m.st.tealets[t].(stack := None)])
  {
    hide SaveState, Restore, Decref, IsDefunct;
    SaveStateFrame(st.(prev := Some(st.cur), target := Some(t)), t, env.sp, id);
  }

  lemma SavesCong<S, T>(st: State<S, T>, st2: State<S, T>)
    requires st2.core == st.core
    ensures forall b, n :: Saves(st2, b, n) == Saves(st, b, n)
  {
  }

  /** A transfer that goes through, or fails for lack of memory, had a target it may reach. */
  lemma AcceptedReach<S, T>(st: State<S, T>, t: T, env: Env, id: S)
    requires Solid(st, None) && Known(st) && t in st.tealets && t != st.cur && st.tealets[t].flags.bound
    requires SwitchStack(st, t, env, id).moved || SwitchStack(st, t, env, id).code == ErrMem
    ensures CanReach(st, None, t)
    ensures var st1 := st.(prev := Some(st.cur), target := Some(t)); Solid(st1, None) && CanReach(st1, None, t)
  {
    hide Solid, StackmanSwitch;
    var st1 := st.(prev := Some(st.cur), target := Some(t));
    SolidCong(st, st1, None);
  }

  lemma AskedCong<S, T>(st: State<S, T>, st2: State<S, T>, t: T)
    requires Known(st) && Known(st2) && t in st.tealets && t in st2.tealets
    requires st2.core.stacks == st.core.stacks && st2.core.plist == st.core.plist
    requires st2.tealets[t].far == st.tealets[t].far && st2.tealets[t].stack == st.tealets[t].stack
    ensures Asked(st2, t) == Asked(st, t)
  {
  }

  lemma CurFree<S, T>(st: State<S, T>)
    requires Solid(st, None)
    ensures st.cur in st.tealets && st.tealets[st.cur].stack.None?
  {
    hide CoreOk, RestOk, MainOk, Owned, Known;
  }

  /** What an attempt that goes through leaves. */
  lemma AttemptAfter<S, T>(st: State<S, T>, t: T, force: bool, panic: bool, isExit: bool, delete: bool, env: Env, id: S)
    requires Ready(st) && Known(st) && t in st.tealets && (isExit ==> st.cur != st.main)
    requires XferInner(st, t, force, panic, isExit, delete, env, id).moved
    ensures After(st, XferInner(st, t, force, panic, isExit, delete, env, id).st, t, isExit && delete,
                  Saves(st, isExit, Asked(st, t)))
  {
    hide Solid, SwitchStack, Asked, FailOk, IsDefunct, HasMemory, After, Accepts, FindsDefunct, Saves;
    var s := Stage(st, force, panic, isExit, delete);
    StageSolid(st, force, panic, isExit, delete);
    StageMemory(st, t, force, panic, isExit, delete, env);
    StageFlags(st, force, panic, isExit, delete);
    SwitchAfter(s, t, env, id);
    SavesCong(st, s);
    AfterStage(st, force, panic, isExit, delete, SwitchStack(s, t, env, id).st, t, Saves(st, isExit, Asked(st, t)));
  }

  lemma AfterStage<S, T>(st: State<S, T>, force: bool, panic: bool, isExit: bool, delete: bool, st2: State<S, T>, t: T,
                         saved: bool)
    requires Ready(st) && Known(st)
    requires var s := Stage(st, force, panic, isExit, delete); var f := s.tealets[st.cur].flags;
             After(s, st2, t, f.exiting && f.autodelete, saved)
    ensures After(st, st2, t, isExit && delete, saved)
  {
    hide Solid;
  }

  /* ---- a whole call ---- */

  /** Control stays with the caller, or leaves it for `to`; `asked` requests for memory come before the caller's own. */
  datatype Course<+T> = Remain | Leave(to: T, panic: bool, asked: nat)

  /** What NOFAIL makes of a first attempt that runs out of memory or finds its target defunct. */
  ghost predicate FallsBack<S, T>(st: State<S, T>, t: T, env: Env)
    requires Known(st) && t in st.tealets
  {
    && st.cur != st.main && t != st.cur && st.tealets[t].flags.bound && !st.tealets[t].flags.exited
    && env.callerOk && env.integrityOk
  }

  /** A forced attempt can only be refused memory for the stack of main; then main's stack is the newest listed one. */
  ghost function FallbackAsked<S, T>(st: State<S, T>, t: T): nat
    requires Known(st) && t in st.tealets
  {
    var v := st.tealets[st.main].stack;
    if !FindsDefunct(st, t) && Listed(st.core.plist, v) then Position(st.core.plist, v.value) + 1 else Asked(st, st.main)
  }

  /** Where a call of tealet_switch or tealet_exit leads. */
  ghost function CourseOf<S, T>(st: State<S, T>, t: T, force: bool, panic: bool, nofail: bool, isExit: bool, env: Env)
    : Course<T>
    requires Known(st) && t in st.tealets
  {
    if Goes(st, t, force || nofail, isExit, env) then Leave(t, panic, Asked(st, t))
    else if nofail && FallsBack(st, t, env) then Leave(st.main, true, FallbackAsked(st, t))
    else Remain
  }

  lemma RetryGoes<S, T>(st: State<S, T>, t: T, panic: bool, isExit: bool, delete: bool, env: Env, id: S)
    requires Ready(st) && Known(st) && t in st.tealets && EnvOk(st, env, id) && (isExit ==> st.cur != st.main)
    requires st.cur != st.main
    requires var x := XferInner(st, t, true, panic, isExit, delete, env, id); x.code == ErrMem || x.code == ErrDefunct
    ensures var x := XferInner(st, t, true, panic, isExit, delete, env, id);
            && Ready(x.st) && Known(x.st)
            && (XferInner(x.st, x.st.main, true, true, isExit, delete, env, id).moved <==> env.callerOk && env.integrityOk)
  {
    hide Solid, XferInner, HasMemory, IsDefunct;
    AttemptFails(st, t, panic, isExit, delete, env, id);
    var x := XferInner(st, t, true, panic, isExit, delete, env, id);
    ToMainNeverFails(x.st, true, isExit, delete, env, id);
    AttemptGoes(x.st, x.st.main, true, true, isExit, delete, env, id);
    MainFits(x.st);
  }

  /** Main can always be resumed. */
  lemma MainFits<S, T>(st: State<S, T>)
    requires Ready(st) && Known(st) && st.main != st.cur
    ensures var v := st.tealets[st.main]; v.flags.bound && !v.flags.exited && !IsDefunct(st, st.main)
  {
    hide CoreOk, RestOk, Owned;
  }

  /** A failed attempt changes neither who holds a stack nor where anybody goes on. */
  ghost predicate FailedSame<S, T>(st: State<S, T>, st2: State<S, T>) {
    && st2.tealets.Keys == st.tealets.Keys && st2.cur == st.cur && st2.main == st.main
    && st2.core.alloc == st.core.alloc && (PrevOk(st) ==> PrevOk(st2))
    && forall u :: u in st.tealets ==>
         && st2.tealets[u].stack == st.tealets[u].stack && st2.tealets[u].far == st.tealets[u].far
         && (u != st.cur ==> st2.tealets[u].resume == st.tealets[u].resume)
  }

  lemma SaveFailedSame<S, T>(st: State<S, T>, x: Option<T>, t: T, sp: int, id: S)
    requires Solid(st, x) && CanReach(st, x, t) && SaveState(st, t, sp, id).fail
    ensures FailedSame(st, SaveState(st, t, sp, id).st)
    ensures Known(st)
    ensures !FailOk(st) && !st.tealets[st.cur].flags.exiting ==> SaveState(st, t, sp, id).st.core == GrowFor(st, t).core
    ensures st.tealets[st.cur].flags.exiting ==> SaveState(st, t, sp, id).st.core == GrowFor(st, t).core
  {
    hide Solid, GrowFor;
    SolidBasics(st, x);
    GrownSame(st, x, t);
  }

  lemma SwitchFailedSame<S, T>(st: State<S, T>, t: T, env: Env, id: S)
    requires Solid(st, None) && Known(st) && t in st.tealets && t != st.cur && st.tealets[t].flags.bound
    requires !SwitchStack(st, t, env, id).moved
    ensures var r := SwitchStack(st, t, env, id);
            && FailedSame(st, r.st)
            && (r.code == ErrDefunct ==> r.st.core == st.core)
            && (r.code == ErrMem && (!FailOk(st) || st.tealets[st.cur].flags.exiting) ==> r.st.core == GrowFor(st, t).core)
            && (r.code == ErrMem ==> CanReach(st, None, t))
  {
    hide Solid, SaveState, RestoreState, GrowFor, FailOk, CanReach, IsDefunct;
    var r := SwitchStack(st, t, env, id);
    SwitchStackFrame(st, t, env, id);
    if r.code == ErrMem {
      var st1 := st.(prev := Some(st.cur), target := Some(t));
      AcceptedReach(st, t, env, id);
      SaveFailedSame(st1, None, t, env.sp, id);
      GrowForCong(st, st1, t);
      SameFailOk(st, st1);
    }
  }

  lemma AttemptFailedSame<S, T>(st: State<S, T>, t: T, force: bool, panic: bool, isExit: bool, delete: bool, env: Env, id: S)
    requires Ready(st) && Known(st) && t in st.tealets && (isExit ==> st.cur != st.main)
    requires !XferInner(st, t, force, panic, isExit, delete, env, id).moved
    ensures var x := XferInner(st, t, force, panic, isExit, delete, env, id);
            FailedSame(st, x.st) && (x.code == ErrDefunct ==> x.st.core == st.core)
  {
    hide Solid, SwitchStack, GrowFor, FailOk, IsDefunct, CanReach, FailedSame, Stage, ClearSignals;
    SolidCur(st, None);
    SameFailed(st);
    if st.tealets[t].flags.bound && t != st.cur {
      var s := Stage(st, force, panic, isExit, delete);
      StageSolid(st, force, panic, isExit, delete);
      StageMemory(st, t, force, panic, isExit, delete, env);
      StageSame(st, force, panic, isExit, delete);
      SwitchFailedSame(s, t, env, id);
      var r := SwitchStack(s, t, env, id).st;
      StayFrame(s, None, t, env, id);
      ClearSame(s, r);
      FailedTrans(st, s, r);
      FailedTrans(st, s, ClearSignals(r, st.cur));
    }
  }

  lemma SameFailed<S, T>(st: State<S, T>)
    requires st.cur in st.tealets
    ensures FailedSame(st, st) && FailedSame(st, st.(prev := Some(st.cur)))
  {
  }

  lemma StageSame<S, T>(st: State<S, T>, force: bool, panic: bool, isExit: bool, delete: bool)
    requires st.cur in st.tealets
    ensures FailedSame(st, Stage(st, force, panic, isExit, delete))
    ensures Stage(st, force, panic, isExit, delete).core == st.core
  {
  }

  lemma ClearSame<S, T>(st: State<S, T>, st2: State<S, T>)
    requires FailedSame(st, st2) && st.cur in st2.tealets
    ensures FailedSame(st, ClearSignals(st2, st.cur)) && ClearSignals(st2, st.cur).core == st2.core
  {
  }

  lemma FailedTrans<S, T>(a: State<S, T>, b: State<S, T>, c: State<S, T>)
    requires FailedSame(a, b) && FailedSame(b, c)
    ensures FailedSame(a, c)
  {
  }

  /** A forced attempt that is refused memory has dropped what is newer than main's stack, and no more. */
  lemma MemoryFallback<S, T>(st: State<S, T>, t: T, panic: bool, isExit: bool, delete: bool, env: Env, id: S)
    requires Ready(st) && Known(st) && t in st.tealets && (isExit ==> st.cur != st.main) && st.cur != st.main
    requires XferInner(st, t, true, panic, isExit, delete, env, id).code == ErrMem
    ensures var c := XferInner(st, t, true, panic, isExit, delete, env, id).st.core; var v := st.tealets[st.main].stack;
            && Listed(st.core.plist, v) && c.ticks == st.core.ticks + FallbackAsked(st, t)
            && c.plist == st.core.plist[Position(st.core.plist, v.value)..]
  {
    hide Solid, SwitchStack, GrowFor, CanReach, IsDefunct, Stage, ClearSignals, Asked, HasMemory, FailedSame, FailOk;
    var s := Stage(st, true, panic, isExit, delete);
    StageSolid(st, true, panic, isExit, delete);
    StageFlags(st, true, panic, isExit, delete);
    MemAccepts(st, t, true, panic, isExit, delete, env, id);
    StageMemory(st, t, true, panic, isExit, delete, env);
    StageImages(st, true, panic, isExit, delete, st.main);
    AttemptGoes(st, t, true, panic, isExit, delete, env, id);
    SwitchFailedSame(s, t, env, id);
    StayFrame(s, None, t, env, id);
    ClearKeepsCore(SwitchStack(s, t, env, id).st, st.cur);
    GrowthFails(s, t, env, id);
    SolidNoDup(s);
    var i :| 0 <= i < Asked(s, t) && FailsAt(s.core, GrowFor(s, t), s.core.plist, i, false, s.tealets[s.main].stack);
    PositionAt(s.core.plist, i);
  }

  lemma GrowthFails<S, T>(st: State<S, T>, t: T, env: Env, id: S)
    requires Solid(st, None) && Known(st) && t in st.tealets && t != st.cur && st.tealets[t].flags.bound && !FailOk(st)
    requires SwitchStack(st, t, env, id).code == ErrMem
    ensures exists i :: 0 <= i < Asked(st, t)
                        && FailsAt(st.core, GrowFor(st, t), st.core.plist, i, false, st.tealets[st.main].stack)
  {
    hide Solid, SaveState, GrowFor, CanReach, IsDefunct, Asked, FailOk, FailsAt, CanGrow;
    var st1 := st.(prev := Some(st.cur), target := Some(t));
    AcceptedReach(st, t, env, id);
    SaveFails(st1, t, env.sp, id);
    SameFailOk(st, st1);
    GrowForCong(st, st1, t);
    GrowForEnds(st, None, t);
  }

  lemma SolidNoDup<S, T>(st: State<S, T>)
    requires Solid(st, None)
    ensures NoDup(st.core.plist)
  {
    hide StacksOk, Above, ListExact, Owned, RestOk, MainOk, RunnerOk;
    StaircaseNoDup(st.core.stacks, st.core.plist);
  }

  /** The requests of both attempts that come before the caller's own. */
  lemma FallbackCount<S, T>(st: State<S, T>, t: T, panic: bool, isExit: bool, delete: bool, env: Env, id: S)
    requires Ready(st) && Known(st) && t in st.tealets && EnvOk(st, env, id) && (isExit ==> st.cur != st.main)
    requires st.cur != st.main
    requires var x := XferInner(st, t, true, panic, isExit, delete, env, id); x.code == ErrMem || x.code == ErrDefunct
    ensures var x := XferInner(st, t, true, panic, isExit, delete, env, id);
            && Known(x.st) && x.st.main in x.st.tealets
            && x.st.core.ticks + Asked(x.st, x.st.main) == st.core.ticks + FallbackAsked(st, t)
            && x.st.core.alloc == st.core.alloc
  {
    hide Solid, XferInner, Asked, IsDefunct, HasMemory, CanReach;
    AttemptFails(st, t, panic, isExit, delete, env, id);
    AttemptGoes(st, t, true, panic, isExit, delete, env, id);
    AttemptFailedSame(st, t, true, panic, isExit, delete, env, id);
    var x := XferInner(st, t, true, panic, isExit, delete, env, id);
    if x.code == ErrDefunct {
      AskedCong(st, x.st, st.main);
    } else {
      MemoryFallback(st, t, panic, isExit, delete, env, id);
      MainReach(x.st);
      AskedListed(x.st, None, st.main);
      MainAlone(x.st);
    }
  }

  lemma MainAlone<S, T>(st: State<S, T>)
    requires Ready(st) && Known(st) && st.tealets[st.main].stack.Some?
    ensures st.core.stacks[st.tealets[st.main].stack.value].refcount == 1
  {
    hide CoreOk, RestOk, Owned, RunnerOk;
  }

  /** A call goes where its course says, and leaves behind what the allocator's answers say. */
  lemma CallCourse<S, T>(st: State<S, T>, t: T, force: bool, panic: bool, nofail: bool, isExit: bool, delete: bool,
                         env: Env, id: S)
    requires Ready(st) && t in st.tealets && EnvOk(st, env, id) && (isExit ==> st.cur != st.main)
    ensures Known(st)
    ensures var x := Transfer(st, t, force, panic, nofail, isExit, delete, env, id);
            match CourseOf(st, t, force, panic, nofail, isExit, env)
            case Remain => !x.moved && x.st.cur == st.cur
            case Leave(r, p, n) =>
              && x.moved && x.st.cur == r && (x.code == ErrPanic <==> p) && Ready(x.st)
              && After(st, x.st, r, isExit && delete, Saves(st, isExit, n))
  {
    hide Solid, XferInner, Asked, IsDefunct, HasMemory, After, Saves, Accepts;
    SolidBasics(st, None);
    var x := XferInner(st, t, force || nofail, panic, isExit, delete, env, id);
    AttemptGoes(st, t, force || nofail, panic, isExit, delete, env, id);
    XferCodes(st, t, force || nofail, panic, isExit, delete, env, id);
    XferInnerSafe(st, t, force || nofail, panic, isExit, delete, env, id);
    if x.moved {
      AttemptAfter(st, t, force || nofail, panic, isExit, delete, env, id);
    } else if nofail && (x.code == ErrMem || x.code == ErrDefunct) {
      AttemptFails(st, t, panic, isExit, delete, env, id);
      if st.cur == st.main {
        SelfStays(x.st, isExit, delete, env, id);
        assert !FallsBack(st, t, env);
      } else {
        SecondCourse(st, t, panic, isExit, delete, env, id);
      }
    } else if nofail {
      NoRetry(st, t, true, isExit, env);
    }
  }

  lemma NoRetry<S, T>(st: State<S, T>, t: T, force: bool, isExit: bool, env: Env)
    requires Known(st) && t in st.tealets && !Goes(st, t, force, isExit, env) && !FindsDefunct(st, t)
    requires !(Accepts(st, t, env) && !HasMemory(st, t, !force || st.cur == st.main, isExit))
    ensures !FallsBack(st, t, env)
  {
    hide HasMemory, IsDefunct;
  }

  lemma SecondCourse<S, T>(st: State<S, T>, t: T, panic: bool, isExit: bool, delete: bool, env: Env, id: S)
    requires Ready(st) && Known(st) && t in st.tealets && EnvOk(st, env, id) && (isExit ==> st.cur != st.main)
    requires st.cur != st.main
    requires var x := XferInner(st, t, true, panic, isExit, delete, env, id);
             !x.moved && (x.code == ErrMem || x.code == ErrDefunct)
    ensures Known(XferInner(st, t, true, panic, isExit, delete, env, id).st)
    ensures var x := XferInner(st, t, true, panic, isExit, delete, env, id);
            var y := XferInner(x.st, x.st.main, true, true, isExit, delete, env, id);
            && (y.moved <==> FallsBack(st, t, env))
            && (y.moved ==> && y.st.cur == st.main && y.code == ErrPanic && Ready(y.st)
                            && After(st, y.st, st.main, isExit && delete, Saves(st, isExit, FallbackAsked(st, t))))
            && (!y.moved ==> y.st.cur == st.cur)
  {
    hide Solid, XferInner, Asked, IsDefunct, HasMemory, After, FallbackAsked, FailedSame;
    var x := XferInner(st, t, true, panic, isExit, delete, env, id);
    AttemptGoes(st, t, true, panic, isExit, delete, env, id);
    RetryGoes(st, t, panic, isExit, delete, env, id);
    AttemptFails(st, t, panic, isExit, delete, env, id);
    FallbackCount(st, t, panic, isExit, delete, env, id);
    AttemptFailedSame(st, t, true, panic, isExit, delete, env, id);
    var y := XferInner(x.st, x.st.main, true, true, isExit, delete, env, id);
    XferInnerSafe(x.st, x.st.main, true, true, isExit, delete, env, id);
    if y.moved {
      XferCodes(x.st, x.st.main, true, true, isExit, delete, env, id);
      AttemptAfter(x.st, x.st.main, true, true, isExit, delete, env, id);
      AfterFailed(st, x.st, y.st, st.main, isExit && delete, Saves(x.st, isExit, Asked(x.st, st.main)));
    }
  }

  lemma AfterFailed<S, T>(a: State<S, T>, b: State<S, T>, c: State<S, T>, r: T, gone: bool, saved: bool)
    requires FailedSame(a, b) && After(b, c, r, gone, saved)
    ensures After(a, c, r, gone, saved)
  {
  }

  /* ---- what the receiver of a panic does ---- */

  /** The tealets that the frame of a suspended tealet still names. */
  ghost function Names<T>(r: Resume<T>): set<T> {
    match r
    case Unbound => {}
    case InSwitch(self) => {self}
    case InRun(child) => {child}
    case InFork(child, parent, now) => if now then {child} else {child, parent}
    case NotStarted(self, creator) => {self, creator}
  }

  /** The tealet whose binding the frame takes for failed. */
  ghost function Undone<T>(r: Resume<T>): Option<T> {
    match r
    case Unbound => None
    case InSwitch(self) => None
    case InRun(child) => Some(child)
    case InFork(child, parent, now) => Some(child)
    case NotStarted(self, creator) => Some(self)
  }

  /** The tealet that the frame declares to be the running one. */
  ghost function Declared<T>(r: Resume<T>, receiver: T): T {
    match r
    case Unbound => receiver
    case InSwitch(self) => receiver
    case InRun(child) => receiver
    case InFork(child, parent, now) => if now then receiver else parent
    case NotStarted(self, creator) => creator
  }

  /** A receiver of a panic finds alive what its frame names. */
  ghost predicate FrameAlive<S, T>(x: Xfer<S, T>) {
    x.moved && x.code == ErrPanic ==>
      x.st.cur in x.st.tealets && Names(x.st.tealets[x.st.cur].resume) <= x.st.tealets.Keys
  }

  /** A tealet may be taken for unbound: it is dead, or it is neither main nor the receiver and holds no stack. */
  ghost predicate Loose<S, T>(st: State<S, T>, c: T) {
    c in st.tealets ==> c != st.cur && c != st.main && st.tealets[c].stack.None?
  }

  lemma DroppedInv<S, T>(st: State<S, T>, child: T)
    requires Ready(st) && Known(st) && child in st.tealets && st.tealets[child].stack.Some?
    ensures !Inv(Unlock(ResetT(st, child)))
  {
    hide CoreOk, RestOk, MainOk, RunnerOk, Owned, ResetT;
    DroppedPointer(st, child);
  }

  lemma RenewedInv<S, T>(st: State<S, T>, child: T)
    requires Ready(st) && Balanced(st.locks + [false]) && st.count == |st.tealets|
    requires child in st.tealets && child != st.cur && child != st.main && st.tealets[child].stack.None?
    ensures Inv(Unlock(ResetT(st, child)))
  {
    hide Solid;
    SolidCur(st, None);
    var st2 := ResetT(st, child);
    RenewRest(st, child);
    ReadyLocks(st2, st.locks + [false]);
    assert st2.tealets.Keys == st.tealets.Keys;
    assert |st2.tealets| == |st2.tealets.Keys| && |st.tealets| == |st.tealets.Keys|;
  }

  /** A tealet at rest without a stack may become NEW again. */
  lemma RenewRest<S, T>(st: State<S, T>, t: T)
    requires Solid(st, None) && t in st.tealets && t != st.cur && t != st.main && st.tealets[t].stack.None?
    ensures Solid(ResetT(st, t), None)
  {
    hide CoreOk, Owned;
    var st2 := ResetT(st, t);
    OwnedSame(st, t, st2.tealets[t]);
    forall u | u in st2.tealets && u != st2.cur ensures RestOk(st2, u) { if u != t { assert RestOk(st, u); } }
  }

  lemma DroppedPointer<S, T>(st: State<S, T>, t: T)
    requires Owned(st) && t in st.tealets && st.tealets[t].stack.Some? && st.tealets[t].stack.value in st.core.stacks
    ensures !Owned(ResetT(st, t)) && forall locks :: !Owned(ResetT(st, t).(locks := locks))
  {
    var s := st.tealets[t].stack.value;
    assert Holders(ResetT(st, t).tealets, s) == Holders(st.tealets, s) - {t};
    assert t in Holders(st.tealets, s);
    forall locks ensures !Owned(ResetT(st, t).(locks := locks)) {
      assert ResetT(st, t).(locks := locks).core.stacks[s].refcount == |Holders(st.tealets, s)|;
    }
  }

  /** A frame that a panic does not mislead: it declares nobody else to be running, and takes for unbound only a tealet
      that may be. */
  ghost predicate FrameFits<S, T>(st: State<S, T>)
    requires st.cur in st.tealets
  {
    var r := st.tealets[st.cur].resume;
    Declared(r, st.cur) == st.cur && (Undone(r).Some? ==> Loose(st, Undone(r).value))
  }

  lemma ClearQuiet<S, T>(st: State<S, T>, self: T)
    requires Ready(st) && self in st.tealets
    ensures ClearSignals(st, self) == st
  {
    hide Solid;
    ReadyQuiet(st, self);
    assert st.tealets[self := st.tealets[self]] == st.tealets;
  }

  /** What a panic makes of the state, by the frame that receives it. */
  lemma PanicDoes<S, T>(st: State<S, T>)
    requires Ready(st) && Known(st)
    ensures var r := st.tealets[st.cur].resume; var u := Undone(r);
            Receive(st, ErrPanic)
            == Unlock((if u.Some? && u.value in st.tealets then ResetT(st, u.value) else st).(cur := Declared(r, st.cur)))
  {
    hide Ready, ResetT, ClearSignals;
    var r := st.tealets[st.cur].resume;
    SameCur(st, Undone(r));
    if r.InSwitch? && r.self in st.tealets {
      ClearQuiet(st, r.self);
    }
  }

  /** Nobody but the receiver may be declared to be running. */
  lemma WrongRunner<S, T>(st: State<S, T>, u: Option<T>, p: T)
    requires Ready(st) && Known(st) && p != st.cur
    ensures !Inv(Unlock((if u.Some? && u.value in st.tealets then ResetT(st, u.value) else st).(cur := p)))
  {
    hide CoreOk, MainOk, Owned, Known;
    if p in st.tealets {
      assert RestOk(st, p);
    }
  }

  /** Neither the receiver nor main may be taken for unbound. */
  lemma WrongChild<S, T>(st: State<S, T>, c: T)
    requires Ready(st) && Known(st) && c in st.tealets && (c == st.cur || c == st.main)
    ensures !Inv(Unlock(ResetT(st, c)))
  {
    hide CoreOk, RestOk, Owned, Known;
  }

  /** A panic leaves a legal state exactly when it does not mislead the frame that receives it. */
  lemma PanicFits<S, T>(st: State<S, T>)
    requires Ready(st) && Known(st) && Balanced(st.locks + [false]) && st.count == |st.tealets|
    ensures Inv(Receive(st, ErrPanic)) <==> FrameFits(st)
  {
    hide Solid, Ready, Inv, ResetT, Receive, Known;
    PanicDoes(st);
    KnownCur(st);
    var r := st.tealets[st.cur].resume;
    var u := Undone(r);
    if Declared(r, st.cur) != st.cur {
      WrongRunner(st, u, Declared(r, st.cur));
    } else {
      SameCur(st, u);
      if u.None? || u.value !in st.tealets {
        UnlockInv(st);
      } else if u.value == st.cur || u.value == st.main {
        WrongChild(st, u.value);
      } else if st.tealets[u.value].stack.None? {
        RenewedInv(st, u.value);
      } else {
        DroppedInv(st, u.value);
      }
    }
  }

  lemma KnownCur<S, T>(st: State<S, T>)
    requires Known(st)
    ensures st.cur in st.tealets
  {
  }

  lemma SameCur<S, T>(st: State<S, T>, u: Option<T>)
    ensures st.(cur := st.cur) == st
    ensures u.Some? && u.value in st.tealets ==> ResetT(st, u.value).(cur := st.cur) == ResetT(st, u.value)
  {
  }

  lemma UnlockInv<S, T>(st: State<S, T>)
    requires Ready(st) && Balanced(st.locks + [false]) && st.count == |st.tealets|
    ensures Inv(Unlock(st))
  {
    hide Solid;
    ReadyLocks(st, st.locks + [false]);
  }

  /* ---- when a call leaves a legal state ---- */

  /** The same about the frame of `r`, told before the call. */
  ghost predicate FrameWillFit<S, T>(st: State<S, T>, r: T, gone: bool, saved: bool)
    requires r in st.tealets
  {
    var f := st.tealets[r].resume;
    && Declared(f, r) == r
    && (Undone(f).Some? && Undone(f).value in st.tealets && !(gone && Undone(f).value == st.cur) ==>
          var c := Undone(f).value;
          c != r && c != st.main && !(if c == st.cur then saved else st.tealets[c].stack.Some?))
  }

  /** Exactly the calls that keep the invariant: one that stays does not lose its target, and one that ends as a panic
      does not mislead the frame of its receiver. */
  ghost predicate CallLegal<S, T>(st: State<S, T>, t: T, force: bool, panic: bool, nofail: bool, isExit: bool, delete: bool,
                                  env: Env)
    requires Known(st) && t in st.tealets
  {
    match CourseOf(st, t, force, panic, nofail, isExit, env)
    case Remain => KeepsTarget(st, t, force || nofail, isExit, env)
    case Leave(r, p, n) => p ==> r in st.tealets && FrameWillFit(st, r, isExit && delete, Saves(st, isExit, n))
  }

  /** Exactly the calls whose receiver touches no tealet that has been freed. */
  ghost predicate CallAlive<S, T>(st: State<S, T>, t: T, force: bool, panic: bool, nofail: bool, isExit: bool, delete: bool,
                                  env: Env)
    requires Known(st) && t in st.tealets
  {
    match CourseOf(st, t, force, panic, nofail, isExit, env)
    case Remain => true
    case Leave(r, p, n) =>
      p ==> r in st.tealets
            && Names(st.tealets[r].resume) <= (if isExit && delete then st.tealets.Keys - {st.cur} else st.tealets.Keys)
  }

  /** What is asked of a call of switch or exit. */
  ghost predicate CallOk<S, T>(st: State<S, T>, t: T, force: bool, panic: bool, nofail: bool, isExit: bool, delete: bool,
                               env: Env, id: S)
    requires Known(st)
  {
    && t in st.tealets && EnvOk(st, env, id) && (isExit ==> st.cur != st.main)
    && CallLegal(st, t, force, panic, nofail, isExit, delete, env)
    && CallAlive(st, t, force, panic, nofail, isExit, delete, env)
  }

  /** The target that a legal call asks for is not lost. */
  lemma LegalKeeps<S, T>(st: State<S, T>, t: T, force: bool, panic: bool, nofail: bool, isExit: bool, delete: bool,
                         env: Env)
    requires Ready(st) && Known(st) && t in st.tealets && CallLegal(st, t, force, panic, nofail, isExit, delete, env)
    ensures KeepsTarget(st, t, force || nofail, isExit, env)
  {
    hide Ready, KeepsTarget, HasMemory, Accepts, FrameWillFit, Saves, Asked, FallbackAsked;
    if Goes(st, t, force || nofail, isExit, env) {
      if !KeepsTarget(st, t, force || nofail, isExit, env) {
        LostFails(st, t, force || nofail, isExit, env);
      }
    } else if nofail && FallsBack(st, t, env) {
      ForcedKeeps(st, t, isExit, env);
    }
  }

  lemma LostFails<S, T>(st: State<S, T>, t: T, force: bool, isExit: bool, env: Env)
    requires Ready(st) && Known(st) && t in st.tealets && !KeepsTarget(st, t, force, isExit, env)
    ensures Accepts(st, t, env) && !HasMemory(st, t, !force || st.cur == st.main, isExit)
  {
    hide Solid, Asked, CanGrow;
    CanReachIntro(st, None, t);
    AskedListed(st, None, t);
  }

  /** A call that stays with its caller leaves a legal state exactly when it has not lost its target. */
  lemma RemainReady<S, T>(st: State<S, T>, t: T, force: bool, panic: bool, nofail: bool, isExit: bool, delete: bool,
                          env: Env, id: S)
    requires Ready(st) && Known(st) && t in st.tealets && EnvOk(st, env, id) && (isExit ==> st.cur != st.main)
    requires !Transfer(st, t, force, panic, nofail, isExit, delete, env, id).moved
    ensures Ready(Transfer(st, t, force, panic, nofail, isExit, delete, env, id).st)
            <==> KeepsTarget(st, t, force || nofail, isExit, env)
  {
    hide Ready, XferInner, KeepsTarget, HasMemory, Accepts, IsDefunct;
    var x := XferInner(st, t, force || nofail, panic, isExit, delete, env, id);
    AttemptGoes(st, t, force || nofail, panic, isExit, delete, env, id);
    XferInnerSafe(st, t, force || nofail, panic, isExit, delete, env, id);
    XferCodes(st, t, force || nofail, panic, isExit, delete, env, id);
    if !KeepsTarget(st, t, force || nofail, isExit, env) {
      LostFails(st, t, force || nofail, isExit, env);
    }
    if x.code == ErrMem {
      FailureKeepsList(st, t, force || nofail, panic, isExit, delete, env, id);
    }
    if nofail && (x.code == ErrMem || x.code == ErrDefunct) {
      RetryStays(st, t, panic, isExit, delete, env, id);
    }
  }

  /** A second attempt that stays neither loses nor recovers anything. */
  lemma RetryStays<S, T>(st: State<S, T>, t: T, panic: bool, isExit: bool, delete: bool, env: Env, id: S)
    requires Ready(st) && Known(st) && t in st.tealets && EnvOk(st, env, id) && (isExit ==> st.cur != st.main)
    requires var x := XferInner(st, t, true, panic, isExit, delete, env, id); x.code == ErrMem || x.code == ErrDefunct
    ensures Known(XferInner(st, t, true, panic, isExit, delete, env, id).st)
    ensures var x := XferInner(st, t, true, panic, isExit, delete, env, id);
            var y := XferInner(x.st, x.st.main, true, true, isExit, delete, env, id);
            !y.moved ==> (Ready(y.st) <==> Ready(x.st))
  {
    hide Solid, XferInner, KeepsTarget;
    AttemptFails(st, t, panic, isExit, delete, env, id);
    var x := XferInner(st, t, true, panic, isExit, delete, env, id);
    if st.cur == st.main {
      SelfStays(x.st, isExit, delete, env, id);
      AttemptFailedSame(st, t, true, panic, isExit, delete, env, id);
      SolidBasics(st, None);
      SelfReady(x.st, isExit, delete, env, id);
    } else {
      ToMainNeverFails(x.st, true, isExit, delete, env, id);
      XferInnerSafe(x.st, x.st.main, true, true, isExit, delete, env, id);
    }
  }

  lemma SelfReady<S, T>(st: State<S, T>, isExit: bool, delete: bool, env: Env, id: S)
    requires Known(st) && PrevOk(st)
    ensures Ready(XferInner(st, st.cur, true, true, isExit, delete, env, id).st) <==> Ready(st)
  {
    hide CoreOk, RestOk, MainOk, Owned, SwitchStack;
    var st2 := st.(prev := Some(st.cur));
    forall u | u in st.tealets ensures RestOk(st2, u) <==> RestOk(st, u) { hide *; RestCong(st, st2, u); }
    OwnedCong(st, st2);
  }

  lemma RestCong<S, T>(st: State<S, T>, st2: State<S, T>, u: T)
    requires st2.core == st.core && st2.tealets == st.tealets && st2.main == st.main && u in st.tealets
    ensures RestOk(st2, u) <==> RestOk(st, u)
    ensures MainOk(st2) <==> MainOk(st)
  {
  }

  lemma OwnedCong<S, T>(st: State<S, T>, st2: State<S, T>)
    requires st2.core == st.core && st2.tealets == st.tealets && st2.main == st.main
    ensures Owned(st2) <==> Owned(st)
    ensures MainOk(st2) <==> MainOk(st)
  {
  }

  /** A call frees nobody but an exiting caller, and leaves the lock to whoever goes on. */
  lemma CallCounts<S, T>(st: State<S, T>, t: T, force: bool, panic: bool, nofail: bool, isExit: bool, delete: bool,
                         env: Env, id: S)
    requires Ready(st) && t in st.tealets && EnvOk(st, env, id) && (isExit ==> st.cur != st.main)
    ensures Known(st)
    ensures var x := Transfer(st, t, force, panic, nofail, isExit, delete, env, id);
            Counts(st, x.st) && x.st.locks == st.locks && Known(x.st)
  {
    hide Solid, XferInner, KeepsTarget;
    SolidBasics(st, None);
    var x := XferInner(st, t, force || nofail, panic, isExit, delete, env, id);
    XferInnerCount(st, t, force || nofail, panic, isExit, delete, env, id);
    XferInnerSafe(st, t, force || nofail, panic, isExit, delete, env, id);
    XferAlive(st, t, force || nofail, panic, isExit, delete, env, id);
    if nofail && (x.code == ErrMem || x.code == ErrDefunct) {
      RetryCounts(st, t, panic, isExit, delete, env, id);
    }
  }

  lemma RetryCounts<S, T>(st: State<S, T>, t: T, panic: bool, isExit: bool, delete: bool, env: Env, id: S)
    requires Ready(st) && t in st.tealets && EnvOk(st, env, id) && (isExit ==> st.cur != st.main)
    requires var x := XferInner(st, t, true, panic, isExit, delete, env, id); x.code == ErrMem || x.code == ErrDefunct
    ensures Known(st) && Known(XferInner(st, t, true, panic, isExit, delete, env, id).st)
    ensures var x := XferInner(st, t, true, panic, isExit, delete, env, id);
            var y := XferInner(x.st, x.st.main, true, true, isExit, delete, env, id);
            Counts(st, y.st) && y.st.locks == st.locks && Known(y.st)
  {
    hide Solid, XferInner, KeepsTarget, Ready;
    XferInnerCount(st, t, true, panic, isExit, delete, env, id);
    AttemptFails(st, t, panic, isExit, delete, env, id);
    AttemptFailedSame(st, t, true, panic, isExit, delete, env, id);
    var x := XferInner(st, t, true, panic, isExit, delete, env, id);
    if st.cur == st.main {
      SelfStays(x.st, isExit, delete, env, id);
    } else {
      XferInnerCount(x.st, x.st.main, true, true, isExit, delete, env, id);
      XferInnerSafe(x.st, x.st.main, true, true, isExit, delete, env, id);
      XferAlive(x.st, x.st.main, true, true, isExit, delete, env, id);
    }
  }

  lemma XferAlive<S, T>(st: State<S, T>, t: T, force: bool, panic: bool, isExit: bool, delete: bool, env: Env, id: S)
    requires Ready(st) && t in st.tealets && EnvOk(st, env, id) && (isExit ==> st.cur != st.main)
    ensures Known(XferInner(st, t, force, panic, isExit, delete, env, id).st)
  {
    hide Solid, XferInner, KeepsTarget;
    SolidBasics(st, None);
    XferInnerSafe(st, t, force, panic, isExit, delete, env, id);
    XferCodes(st, t, force, panic, isExit, delete, env, id);
    var x := XferInner(st, t, force, panic, isExit, delete, env, id);
    if x.code == ErrMem {
      XferKnown(st, t, force, panic, isExit, delete, env, id);
    } else {
      SolidBasics(x.st, None);
    }
  }

  lemma CourseCong<S, T>(st: State<S, T>, st2: State<S, T>, t: T, force: bool, panic: bool, nofail: bool, isExit: bool,
                         env: Env)
    requires Known(st) && Known(st2) && t in st.tealets
    requires st2.core == st.core && st2.tealets == st.tealets && st2.cur == st.cur && st2.main == st.main
    ensures CourseOf(st2, t, force, panic, nofail, isExit, env) == CourseOf(st, t, force, panic, nofail, isExit, env)
    ensures KeepsTarget(st2, t, force || nofail, isExit, env) == KeepsTarget(st, t, force || nofail, isExit, env)
  {
    hide CanGrow, Requests, Position;
  }

  /** The frame of the receiver after the call is what it was foretold to be. */
  lemma FrameAfter<S, T>(st: State<S, T>, st2: State<S, T>, r: T, gone: bool, saved: bool)
    requires After(st, st2, r, gone, saved) && Known(st2)
    ensures r in st.tealets && r in st2.tealets
    ensures FrameFits(st2) <==> FrameWillFit(st, r, gone, saved)
    ensures Names(st2.tealets[r].resume) <= st2.tealets.Keys
            <==> Names(st.tealets[r].resume) <= (if gone then st.tealets.Keys - {st.cur} else st.tealets.Keys)
  {
    hide Known;
    KnownCur(st2);
  }

  /** The end of a call, seen from its end. */
  lemma FinishExact<S, T>(x: Xfer<S, T>)
    requires x.moved && Ready(x.st) && Known(x.st) && Balanced(x.st.locks + [false]) && x.st.count == |x.st.tealets|
    ensures Inv(Finish(x).st) <==> (x.code == ErrPanic ==> FrameFits(x.st))
  {
    hide Ready, Inv, FrameFits, Known;
    if x.code == ErrPanic {
      PanicFits(x.st);
    } else {
      UnlockInv(x.st);
    }
  }

  /** A call that stays releases the lock and nothing else. */
  lemma FinishStays<S, T>(x: Xfer<S, T>)
    requires !x.moved && Balanced(x.st.locks + [false]) && x.st.count == |x.st.tealets|
    ensures Inv(Finish(x).st) <==> Ready(x.st)
  {
    hide Solid;
    if Ready(x.st) {
      UnlockInv(x.st);
    }
    if Inv(Unlock(x.st)) {
      UnlockReady(x.st);
    }
  }

  lemma UnlockReady<S, T>(st: State<S, T>)
    requires Inv(Unlock(st))
    ensures Ready(st)
  {
    hide Solid;
    SolidCong(Unlock(st), st, None) by { SolidBasics(Unlock(st), None); }
  }

  /** A call of tealet_switch or tealet_exit keeps the invariant if and only if it is legal, and touches no freed tealet
      if and only if the tealets that the receiver's frame names stay alive; both can be told before the call. */
  lemma CallExact<S, T>(st: State<S, T>, t: T, force: bool, panic: bool, nofail: bool, isExit: bool, delete: bool,
                        env: Env, id: S)
    requires Inv(st) && t in st.tealets && EnvOk(st, env, id) && (isExit ==> st.cur != st.main)
    ensures Known(st) && Known(Lock(st))
    ensures var x := Transfer(Lock(st), t, force, panic, nofail, isExit, delete, env, id);
            && (Inv(Finish(x).st) <==> CallLegal(st, t, force, panic, nofail, isExit, delete, env))
            && (FrameAlive(x) <==> CallAlive(st, t, force, panic, nofail, isExit, delete, env))
  {
    hide Ready, Inv, Transfer, Finish, CourseOf, KeepsTarget, Names, FrameFits, FrameWillFit, After, Saves, Known;
    LockedStart(st);
    var st1 := Lock(st);
    CourseCong(st, st1, t, force, panic, nofail, isExit, env);
    CallCourse(st1, t, force, panic, nofail, isExit, delete, env, id);
    CallCounts(st1, t, force, panic, nofail, isExit, delete, env, id);
    var x := Transfer(st1, t, force, panic, nofail, isExit, delete, env, id);
    CountsSize(st1, x.st);
    match CourseOf(st, t, force, panic, nofail, isExit, env)
    case Remain =>
      RemainReady(st1, t, force, panic, nofail, isExit, delete, env, id);
      FinishStays(x);
    case Leave(r, p, n) =>
      FrameAfter(st1, x.st, r, isExit && delete, Saves(st1, isExit, n));
      FinishExact(x);
      FrameLocked(st, r, isExit, delete, n);
  }

  /** What the receiver's frame names is alive at the end of the transfer if it will be. */
  lemma AliveFrames<S, T>(st: State<S, T>, t: T, force: bool, panic: bool, nofail: bool, isExit: bool, delete: bool,
                          env: Env, id: S)
    requires Ready(st) && Known(st) && t in st.tealets && EnvOk(st, env, id) && (isExit ==> st.cur != st.main)
    requires CallAlive(st, t, force, panic, nofail, isExit, delete, env)
    ensures FrameAlive(Transfer(st, t, force, panic, nofail, isExit, delete, env, id))
  {
    hide Ready, Transfer, CourseOf, Names, FrameFits, FrameWillFit, After, Saves, Known;
    CallCourse(st, t, force, panic, nofail, isExit, delete, env, id);
    CallCounts(st, t, force, panic, nofail, isExit, delete, env, id);
    var x := Transfer(st, t, force, panic, nofail, isExit, delete, env, id);
    match CourseOf(st, t, force, panic, nofail, isExit, env)
    case Remain =>
    case Leave(r, p, n) =>
      FrameAfter(st, x.st, r, isExit && delete, Saves(st, isExit, n));
  }

  lemma FrameLocked<S, T>(st: State<S, T>, r: T, isExit: bool, delete: bool, n: nat)
    requires r in st.tealets
    ensures FrameWillFit(Lock(st), r, isExit && delete, Saves(Lock(st), isExit, n))
            == FrameWillFit(st, r, isExit && delete, Saves(st, isExit, n))
  {
  }

  lemma LockedStart<S, T>(st: State<S, T>)
    requires Inv(st)
    ensures Known(st) && Known(Lock(st)) && Ready(Lock(st)) && Balanced(Lock(st).locks + [false])
    ensures Lock(st).count == |Lock(st).tealets|
  {
    hide Solid;
    SolidBasics(st, None);
    ReadyLocks(st, st.locks + [true]);
    LockUnlock(st.locks);
  }

  /** tealet_switch keeps the invariant if and only if the call is legal. */
  lemma SwitchExact<S, T>(st: State<S, T>, t: T, force: bool, panic: bool, nofail: bool, env: Env, id: S)
    requires Inv(st) && t in st.tealets && EnvOk(st, env, id)
    ensures Known(st)
    ensures Inv(Switch(st, t, force, panic, nofail, env, id).st)
            <==> CallLegal(st, t, force, panic, nofail, false, false, env)
  {
    hide Inv, Transfer, Finish, CallLegal, Known;
    CallExact(st, t, force, panic, nofail, false, false, env, id);
  }

  /** tealet_exit keeps the invariant if and only if the call is legal. */
  lemma ExitExact<S, T>(st: State<S, T>, t: T, delete: bool, force: bool, panic: bool, nofail: bool, env: Env, id: S)
    requires Inv(st) && t in st.tealets && EnvOk(st, env, id) && st.cur != st.main
    ensures Known(st)
    ensures Inv(Exit(st, t, delete, force, panic, nofail, env, id).st)
            <==> CallLegal(st, t, force, panic, nofail, true, delete, env)
  {
    hide Inv, Transfer, Finish, CallLegal, Known;
    CallExact(st, t, force, panic, nofail, true, delete, env, id);
  }

  /* ---- what a legal call leaves to the receiver ---- */

  /** The tealet that a legal panic turns back into a NEW one. */
  ghost function Renewed<S, T>(st: State<S, T>, c: Course<T>): Option<T> {
    match c
    case Remain => None
    case Leave(r, p, n) => if p && r in st.tealets then Undone(st.tealets[r].resume) else None
  }

  /** The end of a legal call: the receiver goes on in the state that the transfer left, but for a tealet without a stack
      that may have become NEW again. */
  ghost predicate Finished<S, T>(x: Xfer<S, T>, st2: State<S, T>, newly: Option<T>) {
    && Inv(st2) && st2.core == x.st.core && st2.cur == x.st.cur && st2.main == x.st.main
    && st2.prev == x.st.prev && st2.count == x.st.count
    && (newly.Some? ==> newly.value in x.st.tealets && Loose(x.st, newly.value))
    && st2.tealets == if newly.None? then x.st.tealets
                      else x.st.tealets[newly.value := x.st.tealets[newly.value].(far := 0, stack := None, flags := NO_FLAGS)]
  }

  lemma FinishLegal<S, T>(x: Xfer<S, T>)
    requires Ready(x.st) && Known(x.st) && Balanced(x.st.locks + [false]) && x.st.count == |x.st.tealets|
    requires FrameAlive(x) && (x.moved && x.code == ErrPanic ==> FrameFits(x.st))
    ensures var newly := if x.moved && x.code == ErrPanic then Undone(x.st.tealets[x.st.cur].resume) else None;
            Finished(x, Finish(x).st, newly) && Finish(x).code == x.code && Finish(x).moved == x.moved
  {
    hide Solid, Inv, Ready, Receive, Known;
    if x.moved {
      FinishExact(x);
      if x.code == ErrPanic {
        PanicDoes(x.st);
        UndoneNamed(x.st.tealets[x.st.cur].resume);
      } else {
        PlainReceive(x.st, x.code);
      }
    } else {
      FinishStays(x);
    }
  }

  lemma PlainReceive<S, T>(st: State<S, T>, code: Code)
    requires Known(st) && code != ErrPanic
    ensures Receive(st, code) == Unlock(st)
  {
  }

  lemma UndoneNamed<T>(r: Resume<T>)
    ensures Undone(r).Some? ==> Undone(r).value in Names(r)
  {
  }

  /** A legal call, from its course to its end. */
  lemma CallFinishes<S, T>(st: State<S, T>, t: T, force: bool, panic: bool, nofail: bool, isExit: bool, delete: bool,
                           env: Env, id: S)
    requires Inv(st) && Known(st) && CallOk(st, t, force, panic, nofail, isExit, delete, env, id)
    ensures Known(Lock(st)) && Ready(Lock(st))
    ensures var x := Transfer(Lock(st), t, force, panic, nofail, isExit, delete, env, id);
            && Ready(x.st) && Known(x.st)
            && Finished(x, Finish(x).st, Renewed(st, CourseOf(st, t, force, panic, nofail, isExit, env)))
            && Finish(x).moved == x.moved && Finish(x).code == x.code
  {
    hide Ready, Inv, Transfer, Finish, CourseOf, KeepsTarget, Names, FrameFits, FrameWillFit, Saves, Known, Finished, Loose;
    LockedStart(st);
    var st1 := Lock(st);
    CourseCong(st, st1, t, force, panic, nofail, isExit, env);
    CallExact(st, t, force, panic, nofail, isExit, delete, env, id);
    CallCourse(st1, t, force, panic, nofail, isExit, delete, env, id);
    CallCounts(st1, t, force, panic, nofail, isExit, delete, env, id);
    var x := Transfer(st1, t, force, panic, nofail, isExit, delete, env, id);
    CountsSize(st1, x.st);
    match CourseOf(st, t, force, panic, nofail, isExit, env)
    case Remain =>
      RemainReady(st1, t, force, panic, nofail, isExit, delete, env, id);
      FinishLegal(x);
    case Leave(r, p, n) =>
      FinishExact(x);
      FinishLegal(x);
      assert x.st.tealets[r].resume == st.tealets[r].resume;
  }

  /* ---- whom a call resumes, and whom it loses ---- */

  /** Everybody whom a call of tealet_switch or tealet_exit loses, told before the call. The list is grown once, for the
      target or, when the target is already defunct, for main; that loses the suspended tealets whose stacks are listed
      and refused memory. The caller is lost when it goes, does not exit, and its own request is refused. All this only
      when the call is forced by somebody else than main. */
  ghost function CallLosses<S, T>(st: State<S, T>, t: T, force: bool, nofail: bool, isExit: bool, env: Env): set<T>
    requires Known(st) && t in st.tealets
  {
    var failOk, c := !GivesWay(st, force || nofail), CourseOf(st, t, force, false, nofail, isExit, env);
    (if Accepts(st, t, env) then Doomed(st, t, failOk)
     else if nofail && FallsBack(st, t, env) then Doomed(st, st.main, failOk) else {})
    + if c.Leave? && !failOk && !isExit && !Saves(st, isExit, c.asked) then {st.cur} else {}
  }

  /** Nobody is lost by a call that nobody forces, or that main makes, or when the allocator refuses nothing. */
  lemma NobodyLost<S, T>(st: State<S, T>, t: T, force: bool, nofail: bool, isExit: bool, env: Env)
    requires Known(st) && t in st.tealets
    requires !GivesWay(st, force || nofail) || forall n :: st.core.alloc(n)
    ensures CallLosses(st, t, force, nofail, isExit, env) == {}
  {
    hide CanGrow, CourseOf, Accepts, FallsBack;
  }

  lemma LossesCong<S, T>(st: State<S, T>, st2: State<S, T>, t: T, force: bool, nofail: bool, isExit: bool, env: Env)
    requires Known(st) && Known(st2) && t in st.tealets
    requires st2.core == st.core && st2.tealets == st.tealets && st2.cur == st.cur && st2.main == st.main
    ensures CallLosses(st2, t, force, nofail, isExit, env) == CallLosses(st, t, force, nofail, isExit, env)
  {
    hide Doomed, Losses, CourseOf, IsDefunct;
    DoomedCong(st, st2, t);
    DoomedCong(st, st2, st.main);
    CourseCong(st, st2, t, force, false, nofail, isExit, env);
    IsDefunctCong(st, st2, t);
  }

  lemma IsDefunctCong<S, T>(st: State<S, T>, st2: State<S, T>, t: T)
    requires Known(st) && Known(st2) && t in st.tealets && st2.core == st.core && st2.tealets == st.tealets
    ensures IsDefunct(st2, t) == IsDefunct(st, t)
  {
  }

  /** A whole call: control passes to the target, or after the retry to main, or stays with the caller; exactly the
      foretold tealets are lost, and everybody else keeps his stack. */
  lemma TransferRefines<S, T>(st: State<S, T>, t: T, force: bool, panic: bool, nofail: bool, isExit: bool, delete: bool,
                              env: Env, id: S)
    requires Ready(st) && Known(st) && t in st.tealets && EnvOk(st, env, id) && (isExit ==> st.cur != st.main)
    requires KeepsTarget(st, t, force || nofail, isExit, env)
    requires IntactAttempt(st, t, force || nofail)
    ensures var x := Transfer(st, t, force, panic, nofail, isExit, delete, env, id);
            var lost := CallLosses(st, t, force, nofail, isExit, env);
            if x.moved then
              && Resumes(st, x.st, x.st.cur, env.sp, LeavingOf(isExit, delete), lost)
              && (x.st.cur == t || (nofail && x.st.cur == st.main && x.code == ErrPanic))
            else Stays(st, x.st, lost)
  {
    hide Solid, LosesTarget, KeepsTarget, XferInner, IntactAttempt, Resumes, Stays, Doomed, HasMemory, IsDefunct, Asked,
      LeavingOf;
    var f := force || nofail;
    var x := XferInner(st, t, f, panic, isExit, delete, env, id);
    XferInnerSafe(st, t, f, panic, isExit, delete, env, id);
    XferCodes(st, t, f, panic, isExit, delete, env, id);
    AttemptGoes(st, t, f, panic, isExit, delete, env, id);
    if x.moved {
      XferResumes(st, t, f, panic, isExit, delete, env, id);
    } else if nofail && (x.code == ErrMem || x.code == ErrDefunct) {
      XferStays(st, t, f, panic, isExit, delete, env, id);
      RetryRefines(st, x, t, force, panic, isExit, delete, env, id);
    } else {
      XferStays(st, t, f, panic, isExit, delete, env, id);
      if nofail { NoRetry(st, t, true, isExit, env); }
      assert CallLosses(st, t, force, nofail, isExit, env) == FailedLosses(st, t, f, env);
    }
  }

  /** The fall-back to main after a failed forced attempt. */
  lemma RetryRefines<S, T>(st: State<S, T>, x: Xfer<S, T>, t: T, force: bool, panic: bool, isExit: bool, delete: bool,
                           env: Env, id: S)
    requires Ready(st) && Known(st) && t in st.tealets && EnvOk(st, env, id) && (isExit ==> st.cur != st.main)
    requires x == XferInner(st, t, true, panic, isExit, delete, env, id) && !x.moved && Ready(x.st)
    requires x.code == ErrMem || x.code == ErrDefunct
    requires Stays(st, x.st, FailedLosses(st, t, true, env))
    ensures Known(x.st) && x.st.main in x.st.tealets
    ensures var y := XferInner(x.st, x.st.main, true, true, isExit, delete, env, id);
            var lost := CallLosses(st, t, force, true, isExit, env);
            if y.moved then
              && Resumes(st, y.st, y.st.cur, env.sp, LeavingOf(isExit, delete), lost)
              && y.st.cur == st.main && y.code == ErrPanic
            else Stays(st, y.st, lost)
  {
    hide Solid, LosesTarget, XferInner, IntactAttempt, Resumes, Stays, LeavingOf, Losses, FailedLosses, CallLosses;
    SolidBasics(x.st, None);
    SolidCur(x.st, None);
    SolidCur(st, None);
    AttemptFails(st, t, panic, isExit, delete, env, id);
    MainIntact(x.st);
    var y := XferInner(x.st, x.st.main, true, true, isExit, delete, env, id);
    var lost := FailedLosses(st, t, true, env);
    if y.moved {
      XferResumes(x.st, x.st.main, true, true, isExit, delete, env, id);
      XferInnerCur(x.st, x.st.main, true, true, isExit, delete, env, id);
      XferFar(st, t, true, panic, isExit, delete, env, id, x.st.main);
      XferCodes(x.st, x.st.main, true, true, isExit, delete, env, id);
      assert st.cur !in lost by { CallerNotDoomed(st, t, env); }
      StaysResumes(st, x.st, y.st, x.st.main, env.sp, LeavingOf(isExit, delete), lost,
                   Losses(x.st, x.st.main, !GivesWay(x.st, true), isExit));
      SecondLosses(st, t, force, panic, isExit, delete, env, id);
    } else {
      XferStays(x.st, x.st.main, true, true, isExit, delete, env, id);
      StaysTrans(st, x.st, y.st, lost, FailedLosses(x.st, x.st.main, true, env));
      NoSecondLosses(st, t, force, panic, isExit, delete, env, id);
    }
  }

  lemma CallerNotDoomed<S, T>(st: State<S, T>, t: T, env: Env)
    requires Known(st) && t in st.tealets
    ensures st.cur !in FailedLosses(st, t, true, env)
  {
  }

  /** A first attempt that ran out of memory has grown the list up to main's stack, and the retry asks for nothing more;
      one that found its target defunct has grown nothing. */
  lemma SecondDooms<S, T>(st: State<S, T>, t: T, panic: bool, isExit: bool, delete: bool, env: Env, id: S)
    requires Ready(st) && Known(st) && t in st.tealets && EnvOk(st, env, id) && (isExit ==> st.cur != st.main)
    requires st.cur != st.main
    requires var x := XferInner(st, t, true, panic, isExit, delete, env, id);
             !x.moved && Known(x.st) && (x.code == ErrMem || x.code == ErrDefunct)
    ensures var x := XferInner(st, t, true, panic, isExit, delete, env, id);
            && x.st.main == st.main && x.st.main in x.st.tealets
            && Doomed(x.st, x.st.main, false) == (if x.code == ErrMem then {} else Doomed(st, st.main, false))
  {
    hide Solid, XferInner, IsDefunct, HasMemory, CanReach, GivenUp, Asked;
    var x := XferInner(st, t, true, panic, isExit, delete, env, id);
    AttemptFails(st, t, panic, isExit, delete, env, id);
    AttemptFailedSame(st, t, true, panic, isExit, delete, env, id);
    if x.code == ErrDefunct {
      AskedCong(st, x.st, st.main);
    } else {
      MemoryFallback(st, t, panic, isExit, delete, env, id);
      MainReach(x.st);
      AskedListed(x.st, None, st.main);
      MainAlone(x.st);
      assert Asked(x.st, st.main) == 0;
      forall u | u in x.st.tealets ensures !Dooms(x.st, st.main, false, u) { NoneAsked(x.st, st.main, false, u); }
    }
  }

  lemma NoneAsked<S, T>(st: State<S, T>, t: T, failOk: bool, u: T)
    requires Known(st) && t in st.tealets && Asked(st, t) == 0
    ensures !Dooms(st, t, failOk, u)
  {
    hide Asked, CanGrow;
  }

  lemma SecondLosses<S, T>(st: State<S, T>, t: T, force: bool, panic: bool, isExit: bool, delete: bool, env: Env, id: S)
    requires Ready(st) && Known(st) && t in st.tealets && EnvOk(st, env, id) && (isExit ==> st.cur != st.main)
    requires var x := XferInner(st, t, true, panic, isExit, delete, env, id);
             && !x.moved && Known(x.st) && (x.code == ErrMem || x.code == ErrDefunct)
             && XferInner(x.st, x.st.main, true, true, isExit, delete, env, id).moved
    ensures var x := XferInner(st, t, true, panic, isExit, delete, env, id);
            FailedLosses(st, t, true, env) + Losses(x.st, x.st.main, !GivesWay(x.st, true), isExit)
            == CallLosses(st, t, force, true, isExit, env)
  {
    hide Solid, XferInner, IsDefunct, HasMemory, Asked, Doomed, FallbackAsked;
    var x := XferInner(st, t, true, panic, isExit, delete, env, id);
    AttemptFails(st, t, panic, isExit, delete, env, id);
    if st.cur == st.main {
      SelfStays(x.st, isExit, delete, env, id);
      assert false;
    } else {
      RetryGoes(st, t, panic, isExit, delete, env, id);
      AttemptGoes(st, t, true, panic, isExit, delete, env, id);
      SecondDooms(st, t, panic, isExit, delete, env, id);
      FallbackCount(st, t, panic, isExit, delete, env, id);
    }
  }

  lemma NoSecondLosses<S, T>(st: State<S, T>, t: T, force: bool, panic: bool, isExit: bool, delete: bool, env: Env, id: S)
    requires Ready(st) && Known(st) && t in st.tealets && EnvOk(st, env, id) && (isExit ==> st.cur != st.main)
    requires var x := XferInner(st, t, true, panic, isExit, delete, env, id);
             && !x.moved && Known(x.st) && (x.code == ErrMem || x.code == ErrDefunct)
             && !XferInner(x.st, x.st.main, true, true, isExit, delete, env, id).moved
    ensures var x := XferInner(st, t, true, panic, isExit, delete, env, id);
            FailedLosses(st, t, true, env) + FailedLosses(x.st, x.st.main, true, env)
            == CallLosses(st, t, force, true, isExit, env)
  {
    hide Solid, XferInner, IsDefunct, HasMemory, Asked, Doomed, FallbackAsked;
    var x := XferInner(st, t, true, panic, isExit, delete, env, id);
    AttemptFails(st, t, panic, isExit, delete, env, id);
    AttemptGoes(st, t, true, panic, isExit, delete, env, id);
    if st.cur == st.main {
      NoneDoomed(st, t, isExit);
    } else {
      RetryGoes(st, t, panic, isExit, delete, env, id);
    }
  }
}
