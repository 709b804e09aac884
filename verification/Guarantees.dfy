/** What the documentation promises of single calls: NOFAIL never runs out of memory, a failed call changes nothing that
    matters, there is one runner, signals are one-shot, and the lock is handed over. */
module Guarantees {
  import opened Base
  import opened StackModel
  import opened StackProofs
  import opened TransferModel
  import opened Safety
  import opened Operations
  import opened Refinement
  import opened PrivateStacks
  import opened Calls
  import opened Spawning
  import opened Machine

  /* ---- the unbounded stack of main ---- */

  /** While a tealet with an unbounded stack runs, no stack is half saved. */
  lemma UnboundedRunsAlone<S, T>(st: State<S, T>)
    requires Inv(st) && st.cur in st.tealets && st.tealets[st.cur].far == FURTHEST
    ensures st.cur == st.main && st.core.plist == []
    ensures forall s :: s in st.core.stacks ==> !st.core.stacks[s].Partial()
  {
    hide StackV.Bytes, Tiled, Owned, RestOk, MainOk, StacksOk, Above;
    NothingUnbounded(st.core);
  }

  /* ---- NOFAIL ---- */

  /** NOFAIL is total: whatever the allocator answers, a switch or exit with NOFAIL returns neither ERR_MEM nor
      ERR_DEFUNCT. */
  lemma NofailTotal<S, T>(st: State<S, T>, t: T, force: bool, panic: bool, isExit: bool, delete: bool, env: Env, id: S)
    requires Ready(st) && t in st.tealets && EnvOk(st, env, id) && (isExit ==> st.cur != st.main)
    ensures Known(st)
    ensures var x := Transfer(st, t, force, panic, true, isExit, delete, env, id);
            x.code != ErrMem && x.code != ErrDefunct
  {
    hide Solid, SwitchStack, Stage, KeepsTarget;
    SolidBasics(st, None);
    var x := XferInner(st, t, true, panic, isExit, delete, env, id);
    if x.code == ErrMem || x.code == ErrDefunct {
      XferCodes(st, t, true, panic, isExit, delete, env, id);
      XferStayFrame(st, t, true, panic, isExit, delete, env, id);
      XferInnerSafe(st, t, true, panic, isExit, delete, env, id);
      if st.cur == st.main {
        if x.code == ErrMem { XferKnown(st, t, true, panic, isExit, delete, env, id); } else { SolidBasics(x.st, None); }
      } else {
        ForcedKeeps(st, t, isExit, env);
        SolidBasics(x.st, None);
        ToMainNeverFails(x.st, true, isExit, delete, env, id);
      }
    }
  }

  /** The same for the calls themselves. */
  lemma NofailCalls<S, T>(st: State<S, T>, t: T, delete: bool, force: bool, panic: bool, env: Env, id: S)
    requires Inv(st) && t in st.tealets && EnvOk(st, env, id)
    ensures Known(st)
    ensures var c := Switch(st, t, force, panic, true, env, id).code; c != ErrMem && c != ErrDefunct
    ensures st.cur != st.main ==>
              var c := Exit(st, t, delete, force, panic, true, env, id).code; c != ErrMem && c != ErrDefunct
  {
    hide Solid, Transfer, Receive;
    SolidBasics(st, None);
    ReadyLocks(st, st.locks + [true]);
    NofailTotal(Lock(st), t, force, panic, false, false, env, id);
    if st.cur != st.main {
      NofailTotal(Lock(st), t, force, panic, true, delete, env, id);
    }
  }

  /* ---- failing calls ---- */

  /** A failed attempt clears the signals it has set on its caller, and changes nothing else about it but the frame. */
  lemma CallerKept<S, T>(st: State<S, T>, t: T, force: bool, panic: bool, isExit: bool, delete: bool, env: Env, id: S)
    requires Ready(st) && Known(st) && t in st.tealets && (isExit ==> st.cur != st.main)
    requires XferInner(st, t, force, panic, isExit, delete, env, id).code == ErrMem
    ensures var x := XferInner(st, t, force, panic, isExit, delete, env, id); var v := st.tealets[st.cur];
            st.cur in x.st.tealets
            && x.st.tealets[st.cur] == v.(resume := if isExit then v.resume else InSwitch(st.cur))
  {
    hide Solid, SaveState, RestoreState;
    var s := Stage(st, force, panic, isExit, delete);
    StageSolid(st, force, panic, isExit, delete);
    SolidBasics(s, None);
    MemAccepts(st, t, force, panic, isExit, delete, env, id);
    FailedCaller(s.(prev := Some(s.cur), target := Some(t)), t, env.sp, id);
  }

  lemma FailedCaller<S, T>(st: State<S, T>, t: T, sp: int, id: S)
    requires Known(st) && t in st.tealets && SaveState(st, t, sp, id).fail
    ensures var m := SaveState(st, t, sp, id); var v := st.tealets[st.cur];
            st.cur in m.st.tealets && m.st.tealets[st.cur] == v.(flags := v.flags.(saveforce := false))
  {
    hide GrowFor;
  }

  /** A switch or exit that runs out of memory leaves control, the previous tealet, the C stack, every suspended stack and
      every status as they were; one that somebody else than main forces loses whom its growth step gave up. */
  lemma FailureAtomic<S, T>(st: State<S, T>, t: T, force: bool, panic: bool, isExit: bool, delete: bool, env: Env, id: S)
    requires Ready(st) && Known(st) && t in st.tealets && EnvOk(st, env, id) && (isExit ==> st.cur != st.main)
    requires XferInner(st, t, force, panic, isExit, delete, env, id).code == ErrMem
    ensures var x := XferInner(st, t, force, panic, isExit, delete, env, id);
            && !x.moved && x.st.cur == st.cur && x.st.prev == st.prev && x.st.target.None? && !x.st.panic
            && st.cur in x.st.tealets
            && (var v := st.tealets[st.cur]; x.st.tealets[st.cur] == v.(resume := if isExit then v.resume else InSwitch(st.cur)))
            && Stays(st, x.st, if force && st.cur != st.main then Doomed(st, t, false) else {})
  {
    hide Solid, SwitchStack, Stage, Stays, Doomed, Accepts;
    CallerKept(st, t, force, panic, isExit, delete, env, id);
    MemAccepts(st, t, force, panic, isExit, delete, env, id);
    XferCodes(st, t, force, panic, isExit, delete, env, id);
    XferInnerCur(st, t, force, panic, isExit, delete, env, id);
    XferStays(st, t, force, panic, isExit, delete, env, id);
    NoneDoomed(st, t, isExit);
    var s := Stage(st, force, panic, isExit, delete);
    StageSolid(st, force, panic, isExit, delete);
    StageImages(st, force, panic, isExit, delete, t);
    SolidBasics(s, None);
    SwitchStackFrame(s, t, env, id);
  }

  /** run and fork that fail, for whatever reason, leave control, the previous tealet, the C stack, every suspended
      stack and every status as they were, and the tealet NEW. */
  lemma StartNowAtomic<S, T>(st: State<S, T>, t: T, v: TealetV<S, T>, r: Resume<T>, env: Env, id: S)
    requires Ready(st) && Binds(st, t, v) && EnvOk(st, env, id)
    requires st.cur in st.tealets && Known(SetT(SetT(st, st.cur, st.tealets[st.cur].(resume := r)), t, v))
    requires StartNow(st, t, v, r, env, id).code.Failed()
    ensures var x := StartNow(st, t, v, r, env, id);
            && x.st.cur == st.cur && x.st.prev == st.prev && t in x.st.tealets && x.st.tealets[t].flags == NO_FLAGS
            && Stays(st, x.st, {})
  {
    hide Solid, SwitchStack, Stays, Known;
    var s := SetT(SetT(st, st.cur, st.tealets[st.cur].(resume := r)), t, v);
    var y := SwitchStack(s, t, env, id);
    NewIsFree(st, t);
    SwitchStackFrame(s, t, env, id);
    assert !y.moved;
    StartNowStays(st, t, v, r, env, id);
    BoundCases(y, t, st.cur, true);
    StaysCong(st, ResetT(y.st, t), st, StartNow(st, t, v, r, env, id).st, {});
  }

  lemma StartLaterAtomic<S, T>(st: State<S, T>, t: T, v: TealetV<S, T>, env: Env, id: S)
    requires Ready(st) && Binds(st, t, v) && 0 <= env.sp < v.far && id !in st.core.stacks
    requires st.cur in st.tealets && Known(SetT(st, t, v).(cur := t))
    requires StartLater(st, t, v, env, id).code.Failed()
    ensures var x := StartLater(st, t, v, env, id);
            && x.st.cur == st.cur && x.st.prev == st.prev && t in x.st.tealets && x.st.tealets[t].flags == NO_FLAGS
            && x.st.core == st.core.(ticks := x.st.core.ticks)
            && Stays(st, x.st, {})
  {
    hide Solid, SwitchStack, Stays, Known;
    var s := SetT(st, t, v).(cur := t);
    var y := SwitchStack(s, st.cur, env, id);
    NewIsFree(st, t);
    SwitchStackFrame(s, st.cur, env, id);
    assert s.tealets[st.cur].stack.None? by { hide *; CurUnsaved(st); }
    assert !y.moved;
    StandInStays(st, t, v, env, id);
    StartLaterStays(st, t, v, env, id);
    BoundCases(y, t, st.cur, false);
    StaysCong(st, ResetT(y.st, t).(cur := st.cur), st, StartLater(st, t, v, env, id).st, {});
  }

  lemma CurUnsaved<S, T>(st: State<S, T>)
    requires Ready(st)
    ensures st.cur in st.tealets && st.tealets[st.cur].stack.None?
  {
    hide CoreOk, RestOk, MainOk, Owned, Known;
  }

  /* ---- one runner ---- */

  /** tealet_status. */
  datatype Status = StatusActive | StatusNew | StatusExited | StatusDefunct

  ghost function StatusOf<S, T>(st: State<S, T>, t: T): Status
    requires Known(st) && t in st.tealets
  {
    var f := st.tealets[t].flags;
    if !f.bound then StatusNew else if f.exited then StatusExited
    else if IsDefunct(st, t) then StatusDefunct else StatusActive
  }

  /** Exactly the running tealet is active without a saved stack. */
  lemma OneRunner<S, T>(st: State<S, T>, t: T)
    requires Inv(st) && Known(st) && t in st.tealets
    ensures StatusOf(st, t) == StatusActive && st.tealets[t].stack.None? <==> t == st.cur
    ensures st.tealets[t].stack.Some? ==> StatusOf(st, t) == StatusActive || StatusOf(st, t) == StatusDefunct
  {
    hide CoreOk, MainOk, Owned;
    if t != st.cur { assert RestOk(st, t); }
  }

  /** A switch or exit that takes place restores the stack of a tealet that was suspended and active; it never just saves,
      and never resumes a tealet that has exited or is defunct. */
  lemma OnlyActiveResumes<S, T>(st: State<S, T>, t: T, force: bool, panic: bool, isExit: bool, delete: bool, env: Env, id: S)
    requires Inv(st) && Known(st) && t in st.tealets && (isExit ==> st.cur != st.main)
    requires XferInner(st, t, force, panic, isExit, delete, env, id).moved
    ensures t != st.cur && StatusOf(st, t) == StatusActive && st.tealets[t].stack.Some?
    ensures XferInner(st, t, force, panic, isExit, delete, env, id).code == (if panic then ErrPanic else Ok)
  {
    hide Solid, SwitchStack, Stage;
    var s := Stage(st, force, panic, isExit, delete);
    StageSolid(st, force, panic, isExit, delete);
    StageImages(st, force, panic, isExit, delete, t);
    SolidBasics(s, None);
    AcceptedHasStack(s, t, env, id);
    SwitchStackFrame(s, t, env, id);
  }

  /* ---- signals ---- */

  /** PANIC reaches whoever receives the attempt that asked for it, and nobody else: not the caller of an attempt that
      fails, and not the receiver of one that did not ask. */
  lemma PanicExact<S, T>(st: State<S, T>, t: T, force: bool, panic: bool, isExit: bool, delete: bool, env: Env, id: S)
    requires Ready(st) && Known(st) && t in st.tealets && (isExit ==> st.cur != st.main)
    ensures var x := XferInner(st, t, force, panic, isExit, delete, env, id);
            && (x.code == ErrPanic
                <==> panic && (x.moved || (t == st.cur && !isExit && st.tealets[t].flags.bound)))
            && !x.st.panic
  {
    hide Solid, SwitchStack, Stage;
    if st.tealets[t].flags.bound && t != st.cur {
      var s := Stage(st, force, panic, isExit, delete);
      StageSolid(st, force, panic, isExit, delete);
      StageImages(st, force, panic, isExit, delete, t);
      SolidBasics(s, None);
      SwitchStackFrame(s, t, env, id);
    }
  }

  /** Whenever user code runs every one-shot signal is clear, on every tealet. */
  lemma SignalsClear<S, T>(st: State<S, T>, t: T)
    requires Inv(st) && t in st.tealets
    ensures !st.panic && st.target.None?
    ensures var f := st.tealets[t].flags; !f.exiting && !f.autodelete && !f.saveforce
  {
    hide Solid;
    ReadyQuiet(st, t);
  }

  /* ---- the lock ---- */

  /** The lock is held through a transfer, and whoever goes on releases it once: the caller, or the receiver, wherever it
      was suspended and whatever it is told. */
  lemma LockHandOff<S, T>(st: State<S, T>, t: T, force: bool, panic: bool, nofail: bool, isExit: bool, delete: bool,
                          env: Env, id: S)
    requires Inv(st) && Known(st) && t in st.tealets && EnvOk(st, env, id) && (isExit ==> st.cur != st.main)
    ensures var x := Transfer(Lock(st), t, force, panic, nofail, isExit, delete, env, id);
            && x.st.locks == st.locks + [true] && Finish(x).st.locks == st.locks + [true, false]
  {
    hide Ready, Inv, Transfer, Receive, Known;
    LockedStart(st);
    CallCounts(Lock(st), t, force, panic, nofail, isExit, delete, env, id);
    var x := Transfer(Lock(st), t, force, panic, nofail, isExit, delete, env, id);
    if x.moved {
      ReceiveLocks(x.st, x.code);
    }
  }

  lemma ReceiveLocks<S, T>(st: State<S, T>, code: Code)
    requires Known(st)
    ensures Receive(st, code).locks == st.locks + [false]
  {
  }

  /** run and fork too: the lock is held while stacks are saved and released once by whoever goes on. */
  lemma StartLocks<S, T>(st: State<S, T>, t: T, v: TealetV<S, T>, r: Resume<T>, env: Env, id: S)
    requires Inv(st) && Binds(st, t, v)
    ensures && Known(SetT(SetT(Lock(st), st.cur, st.tealets[st.cur].(resume := r)), t, v))
            && StartNow(Lock(st), t, v, r, env, id).st.locks == st.locks + [true, false]
    ensures && Known(SetT(Lock(st), t, v).(cur := t))
            && StartLater(Lock(st), t, v, env, id).st.locks == st.locks + [true, false]
  {
    hide Solid, SwitchStack, Above;
    SolidCur(st, None);
    ReadyLocks(st, st.locks + [true]);
    var st1 := Lock(st);
    SolidBasics(st1, None);
    StandInKnown(st1, t, v);
    NewIsFree(st1, t);
    SwitchStackFrame(SetT(SetT(st1, st.cur, st.tealets[st.cur].(resume := r)), t, v), t, env, id);
    SwitchStackFrame(SetT(st1, t, v).(cur := t), st.cur, env, id);
  }
}
