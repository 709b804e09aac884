/** What the calls answer, and what they do to the lock, told from the operation and the state before it. */
module Answers {
  import opened Base
  import opened StackModel
  import opened StackProofs
  import opened Growth
  import opened TransferModel
  import opened Safety
  import opened Operations
  import opened Refinement
  import opened PrivateStacks
  import opened Calls
  import opened Spawning
  import opened Machine
  import opened Guarantees
  import opened Effects

  /* ---- switch and exit ---- */

  /** A call that cannot be meant: the target was never bound, has exited, or is the tealet that exits; or somebody else than
      the running tealet makes the call. A defunct target is reported before that is looked at. */
  ghost predicate Meaningless<S, T>(st: State<S, T>, t: T, isExit: bool, env: Env)
    requires Known(st) && t in st.tealets
  {
    var f := st.tealets[t].flags;
    !f.bound || (if t == st.cur then isExit else f.exited || (!IsDefunct(st, t) && !env.callerOk))
  }

  /** A call that is in order, but finds the watched bytes of its caller's stack changed. */
  ghost predicate Tampered<S, T>(st: State<S, T>, t: T, env: Env)
    requires Known(st) && t in st.tealets
  {
    var f := st.tealets[t].flags;
    t != st.cur && f.bound && !f.exited && !IsDefunct(st, t) && env.callerOk && !env.integrityOk
  }

  /** The call reaches its target: it goes through, or the target is the caller. */
  ghost predicate Arrives<S, T>(st: State<S, T>, t: T, force: bool, isExit: bool, env: Env)
    requires Known(st) && t in st.tealets
  {
    Goes(st, t, force, isExit, env) || (t == st.cur && !isExit)
  }

  /** One attempt: each code is seen in exactly one case. A defunct target is remembered to be defunct. */
  lemma AttemptAnswers<S, T>(st: State<S, T>, t: T, force: bool, panic: bool, isExit: bool, delete: bool, env: Env, id: S)
    requires Ready(st) && Known(st) && t in st.tealets && (isExit ==> st.cur != st.main)
    ensures var x := XferInner(st, t, force, panic, isExit, delete, env, id);
            && (x.code == ErrInval <==> Meaningless(st, t, isExit, env))
            && (x.code == ErrIntegrity <==> Tampered(st, t, env))
            && (x.code == ErrDefunct <==> FindsDefunct(st, t))
            && (x.code == ErrMem <==> Accepts(st, t, env) && !HasMemory(st, t, !GivesWay(st, force), isExit))
            && (x.code == (if panic then ErrPanic else Ok) <==> Arrives(st, t, force, isExit, env))
            && x.code != Saved && x.code != ErrUnforkable
            && (x.code == ErrDefunct ==> t in x.st.tealets && x.st.tealets[t].flags.defunct)
  {
    hide Solid, SwitchStack, HasMemory, Stage, FailOk, IsDefunct;
    RunnerBound(st);
    AttemptGoes(st, t, force, panic, isExit, delete, env, id);
    if st.tealets[t].flags.bound && t != st.cur {
      var s := Stage(st, force, panic, isExit, delete);
      StageSolid(st, force, panic, isExit, delete);
      StageMemory(st, t, force, panic, isExit, delete, env);
      StageDefunct(st, t, force, panic, isExit, delete);
      SwitchStackFrame(s, t, env, id);
      SwitchAnswers(s, t, env, id);
      if XferInner(st, t, force, panic, isExit, delete, env, id).moved {
        OnlyMoved(st, s, t, force, panic, isExit, delete, env, id);
      }
    }
  }

  lemma StageDefunct<S, T>(st: State<S, T>, t: T, force: bool, panic: bool, isExit: bool, delete: bool)
    requires Known(st) && t in st.tealets && t != st.cur
    ensures var s := Stage(st, force, panic, isExit, delete);
            Known(s) && t in s.tealets && IsDefunct(s, t) == IsDefunct(st, t) && s.tealets[t] == st.tealets[t]
    ensures Stage(st, force, panic, isExit, delete).panic == (st.panic || panic)
  {
  }

  lemma OnlyMoved<S, T>(st: State<S, T>, s: State<S, T>, t: T, force: bool, panic: bool, isExit: bool, delete: bool, env: Env,
                        id: S)
    requires Ready(st) && Known(st) && t in st.tealets && t != st.cur && st.tealets[t].flags.bound
    requires (isExit ==> st.cur != st.main) && s == Stage(st, force, panic, isExit, delete)
    requires XferInner(st, t, force, panic, isExit, delete, env, id).moved
    ensures XferInner(st, t, force, panic, isExit, delete, env, id).code == if panic then ErrPanic else Ok
  {
    hide Solid, SwitchStack, Stage;
    StageSolid(st, force, panic, isExit, delete);
    StageDefunct(st, t, force, panic, isExit, delete);
    SolidBasics(s, None);
    AcceptedHasStack(s, t, env, id);
    SwitchStackFrame(s, t, env, id);
  }

  lemma SwitchAnswers<S, T>(st: State<S, T>, t: T, env: Env, id: S)
    requires Known(st) && t in st.tealets && t != st.cur
    ensures var r := SwitchStack(st, t, env, id); var f := st.tealets[t].flags;
            && (!r.moved ==> (r.code == ErrInval <==> f.exited || (!IsDefunct(st, t) && !env.callerOk)))
            && (!r.moved ==>
                  (r.code == ErrIntegrity <==> !f.exited && !IsDefunct(st, t) && env.callerOk && !env.integrityOk))
            && (!r.moved ==> r.code == ErrInval || r.code == ErrIntegrity || r.code == ErrDefunct || r.code == ErrMem)
            && (r.code == ErrDefunct ==> IsDefunct(st, t) && t in r.st.tealets && r.st.tealets[t].flags.defunct)
  {
    hide SaveState, RestoreState;
  }

  /** A whole call. NOFAIL turns a target that is defunct, or that memory does not suffice for, into a panic of main, unless
      the outside refuses the call. */
  lemma CallAnswers<S, T>(st: State<S, T>, t: T, force: bool, panic: bool, nofail: bool, isExit: bool, delete: bool,
                          env: Env, id: S)
    requires Ready(st) && Known(st) && t in st.tealets && EnvOk(st, env, id) && (isExit ==> st.cur != st.main)
    ensures var x := Transfer(st, t, force, panic, nofail, isExit, delete, env, id); var f := force || nofail;
            var noMem := Accepts(st, t, env) && !HasMemory(st, t, !GivesWay(st, f), isExit);
            var away := nofail && FindsDefunct(st, t) && st.cur != st.main;
            && (x.code == ErrInval <==> Meaningless(st, t, isExit, env) || (away && !env.callerOk))
            && (x.code == ErrIntegrity <==> Tampered(st, t, env) || (away && env.callerOk && !env.integrityOk))
            && (x.code == ErrDefunct <==> !nofail && FindsDefunct(st, t))
            && (x.code == ErrMem <==> !nofail && noMem)
            && (x.code == Ok <==> !panic && Arrives(st, t, f, isExit, env))
            && (x.code == ErrPanic <==> || (panic && Arrives(st, t, f, isExit, env))
                                        || (nofail && noMem)
                                        || (nofail && FindsDefunct(st, t) && (away ==> env.callerOk && env.integrityOk)))
  {
    hide Ready, XferInner, HasMemory, IsDefunct, EnvOk;
    var x := XferInner(st, t, force || nofail, panic, isExit, delete, env, id);
    AttemptAnswers(st, t, force || nofail, panic, isExit, delete, env, id);
    if nofail && (x.code == ErrMem || x.code == ErrDefunct) {
      AttemptFails(st, t, panic, isExit, delete, env, id);
      if st.cur == st.main {
        AttemptLeaves(st, t, true, panic, isExit, delete, env, id);
        SameFrame(st, x.st, FrameLeft(st, t, isExit));
        RunnerBound(st);
        SelfAttempt(x.st, isExit, delete, env, id);
      } else {
        AttemptAnswers(x.st, x.st.main, true, true, isExit, delete, env, id);
        MainFits(x.st);
        EnvKept(st, x.st, env, id);
        ToMainNeverFails(x.st, true, isExit, delete, env, id);
      }
    }
  }

  lemma EnvKept<S, T>(st: State<S, T>, st2: State<S, T>, env: Env, id: S)
    requires st.cur in st.tealets && EnvOk(st, env, id) && st2.cur == st.cur && st.cur in st2.tealets
    requires |st2.core.mem| == |st.core.mem| && st2.tealets[st.cur].far == st.tealets[st.cur].far
    requires st2.core.stacks.Keys == st.core.stacks.Keys
    ensures EnvOk(st2, env, id)
  {
  }

  /** The public calls answer with the code of the transfer. */
  lemma PublicAnswers<S, T>(st: State<S, T>, t: T, delete: bool, force: bool, panic: bool, nofail: bool, env: Env, id: S)
    requires Known(st) && t in st.tealets
    ensures Known(Lock(st))
    ensures Switch(st, t, force, panic, nofail, env, id).code
            == Transfer(Lock(st), t, force, panic, nofail, false, false, env, id).code
    ensures Exit(st, t, delete, force, panic, nofail, env, id).code
            == Transfer(Lock(st), t, force, panic, nofail, true, delete, env, id).code
  {
    hide Transfer, Receive;
  }

  /* ---- run, fork, set_far ---- */

  /** What a binding answers once its tealet is bound: each code in exactly one case. */
  ghost predicate StartAnswers(code: Code, goes: bool, env: Env) {
    && (code == Ok <==> goes)
    && (code == ErrInval <==> !env.callerOk)
    && (code == ErrIntegrity <==> env.callerOk && !env.integrityOk)
    && (code == ErrMem <==> env.callerOk && env.integrityOk && !goes)
  }

  lemma NowAnswers<S, T>(st: State<S, T>, t: T, v: TealetV<S, T>, r: Resume<T>, env: Env, id: S)
    requires Ready(st) && Known(st) && Binds(st, t, v) && EnvOk(st, env, id)
    requires st.cur in st.tealets && Known(SetT(SetT(st, st.cur, st.tealets[st.cur].(resume := r)), t, v))
    ensures StartAnswers(StartNow(st, t, v, r, env, id).code, StartsNow(st, v.far, env), env)
  {
    hide Solid, SwitchStack, Known, StartsNow, StartAnswers, Bound, IsDefunct;
    var s := SetT(SetT(st, st.cur, st.tealets[st.cur].(resume := r)), t, v);
    NewIsFree(st, t);
    StartNowGoes(st, t, v, r, env, id);
    NowAlive(st, t, v, r, env, id);
    NowNeeds(st, v.far, env);
    NoDefunct(s, t);
    BoundAnswers(s, t, t, st.cur, true, StartsNow(st, v.far, env), env, id);
  }

  /** A transfer to a tealet that is neither exited nor defunct is refused by the outside or for want of memory. */
  lemma BoundAnswers<S, T>(s: State<S, T>, to: T, t: T, creator: T, now: bool, goes: bool, env: Env, id: S)
    requires Known(s) && to in s.tealets && to != s.cur && !s.panic && !s.tealets[to].flags.exited && !IsDefunct(s, to)
    requires SwitchStack(s, to, env, id).moved <==> goes
    requires t in SwitchStack(s, to, env, id).st.tealets && (goes ==> env.callerOk && env.integrityOk)
    ensures StartAnswers(Bound(SwitchStack(s, to, env, id), t, creator, now).code, goes, env)
    ensures forall p :: var y := SwitchStack(s, to, env, id);
                        Bound(y.(st := y.st.(prev := p)), t, creator, now).code == Bound(y, t, creator, now).code
    ensures SwitchStack(s, to, env, id).code.Failed() <==> !goes
  {
    hide SwitchStack, Known, IsDefunct;
    SwitchStackFrame(s, to, env, id);
    SwitchAnswers(s, to, env, id);
  }

  lemma NowNeeds<S, T>(st: State<S, T>, far: int, env: Env)
    requires Known(st)
    ensures StartsNow(st, far, env) ==> env.callerOk && env.integrityOk
  {
  }

  lemma NoDefunct<S, T>(st: State<S, T>, t: T)
    requires Known(st) && t in st.tealets && !st.tealets[t].flags.defunct && st.tealets[t].stack.None?
    ensures !IsDefunct(st, t)
  {
  }

  lemma LaterAnswers<S, T>(st: State<S, T>, t: T, v: TealetV<S, T>, env: Env, id: S)
    requires Ready(st) && Known(st) && Binds(st, t, v)
    ensures Known(SetT(st, t, v).(cur := t))
    ensures StartAnswers(StartLater(st, t, v, env, id).code, StartsLater(st, env), env)
  {
    hide Solid, SwitchStack, Known, StartsLater, StartAnswers, Bound, IsDefunct;
    NewIsFree(st, t);
    StandInKnown(st, t, v);
    RunnerWhole(st);
    var s := SetT(st, t, v).(cur := t);
    StartLaterGoes(st, t, v, env, id);
    LaterAlive(st, t, v, env, id);
    NoDefunct(s, st.cur);
    assert StartsLater(st, env) ==> env.callerOk && env.integrityOk by { LaterNeeds(st, env); }
    BoundAnswers(s, st.cur, t, st.cur, false, StartsLater(st, env), env, id);
  }

  lemma LaterNeeds<S, T>(st: State<S, T>, env: Env)
    ensures StartsLater(st, env) ==> env.callerOk && env.integrityOk
  {
  }

  lemma RunnerWhole<S, T>(st: State<S, T>)
    requires Ready(st)
    ensures st.cur in st.tealets && !st.tealets[st.cur].flags.exited && !st.tealets[st.cur].flags.defunct
    ensures st.tealets[st.cur].stack.None? && !st.panic
  {
    hide CoreOk, RestOk, MainOk, Owned, Known;
  }

  /** Whether a run or fork that binds its tealet goes through. */
  ghost predicate Starts<S, T>(st: State<S, T>, op: Op<S, T>)
    requires Allowed(st, op)
  {
    Seen(st, op).Begin? || Seen(st, op).BeginParked?
  }

  /** tealet_run refuses a tealet that is not NEW, and tealet_fork also a parent without a boundary; otherwise they answer
      what the binding answers. */
  lemma RunAnswers<S, T>(st: State<S, T>, t: T, far: int, now: bool, env: Env, id: S)
    requires Inv(st) && Allowed(st, OpRun(t, far, now, env, id))
    ensures var code := Run(st, t, far, now, env, id).code;
            if st.tealets[t].flags != NO_FLAGS then code == ErrInval
            else StartAnswers(code, Starts(st, OpRun(t, far, now, env, id)), env)
  {
    hide Inv, Ready, StartNow, StartLater, StartsNow, StartsLater, Above, EnvOk, Known, Binds;
    LockedStart(st);
    KnownCur(st);
    var st1 := Lock(st);
    if st.tealets[t].flags == NO_FLAGS {
      var v := st.tealets[t].(far := far, flags := NO_FLAGS.(bound := true));
      StartsCong(st, st1, far, env);
      LaterCong(st, st1, env);
      if now {
        assert EnvOk(st1, env, id) by { EnvCong(st, st1, env, id); }
        RunBinds(st, t, v);
        StartKnown(st1, t, v, InRun(t));
        NowAnswers(st1, t, v, InRun(t), env, id);
      } else {
        var v2 := v.(resume := NotStarted(t, st.cur));
        RunBinds(st, t, v2);
        LaterAnswers(st1, t, v2, env, id);
      }
    }
  }

  lemma ForkAnswers<S, T>(st: State<S, T>, t: T, now: bool, env: Env, id: S)
    requires Inv(st) && Allowed(st, OpFork(t, now, env, id))
    ensures var code := Fork(st, t, now, env, id).code;
            if st.tealets[t].flags != NO_FLAGS then code == ErrInval
            else if st.tealets[st.cur].far == FURTHEST then code == ErrUnforkable
            else StartAnswers(code, Starts(st, OpFork(t, now, env, id)), env)
  {
    hide Inv, Ready, StartNow, StartLater, StartsNow, StartsLater, Above, EnvOk, Known, Binds;
    LockedStart(st);
    KnownCur(st);
    var st1, cur := Lock(st), st.tealets[st.cur];
    if st.tealets[t].flags == NO_FLAGS && cur.far != FURTHEST {
      ForkBinds(st, t, env, id);
      var v := st.tealets[t].(far := cur.far,
                              flags := NO_FLAGS.(bound := true, forked := true, mainLineage := cur.flags.mainLineage));
      StartsCong(st, st1, cur.far, env);
      LaterCong(st, st1, env);
      if now {
        var r := InFork(t, st.cur, true);
        assert EnvOk(st1, env, id) by { EnvCong(st, st1, env, id); }
        assert Binds(st1, t, v) by { BindsCong(st, st1, t, v, v); }
        StartKnown(st1, t, v, r);
        NowAnswers(st1, t, v, r, env, id);
      } else {
        var v2 := v.(resume := InFork(t, st.cur, false));
        assert Binds(st1, t, v2) by { BindsCong(st, st1, t, v, v2); }
        LaterAnswers(st1, t, v2, env, id);
      }
    }
  }

  /** Only main has a boundary to set. */
  lemma SetFarAnswers<S, T>(st: State<S, T>, t: T, far: int)
    requires t in st.tealets
    ensures SetFar(st, t, far).code == (if t == st.main then Ok else ErrInval)
    ensures t != st.main ==> SetFar(st, t, far).st == st
  {
  }

  /* ---- the lock ---- */

  /** The operations that take the lock: a run or fork that is refused at once does not, nor does set_far. */
  ghost predicate Locks<S, T>(st: State<S, T>, op: Op<S, T>)
    requires Allowed(st, op)
  {
    !op.OpWrite? && !op.OpSetFar? && (op.OpRun? || op.OpFork? ==> Attempts(st, op))
  }

  /** Every operation takes the lock once and releases it once, or does not touch it. */
  lemma StepLocks<S, T>(st: State<S, T>, op: Op<S, T>)
    requires Inv(st) && Allowed(st, op)
    ensures Apply(st, op).locks == st.locks + (if Locks(st, op) then [true, false] else [])
  {
    hide Inv, CallLegal, CallAlive, IntactAttempt, StartNow, StartLater, Transfer, Finish, Known, EnvOk, Above, FarFits, Binds;
    match op
    case OpRun(t, far, now, env, id) => RunLocks(st, op);
    case OpFork(t, now, env, id) => RunLocks(st, op);
    case OpSwitch(t, force, panic, nofail, env, id) =>
      LockHandOff(st, t, force, panic, nofail, false, false, env, id);
    case OpExit(t, delete, force, panic, nofail, env, id) =>
      LockHandOff(st, t, force, panic, nofail, true, delete, env, id);
    case _ => PairedLocks(st.locks);
  }

  lemma PairedLocks(locks: seq<bool>)
    ensures locks + [true] + [false] == locks + [true, false] && locks + [] == locks
  {
  }

  lemma RunLocks<S, T>(st: State<S, T>, op: Op<S, T>)
    requires Inv(st) && Allowed(st, op) && (op.OpRun? || op.OpFork?)
    ensures Apply(st, op).locks == st.locks + (if Locks(st, op) then [true, false] else [])
  {
    hide Inv, Ready, StartNow, StartLater, Above, EnvOk, Known, Binds;
    KnownCur(st);
    var t, cur := op.t, st.tealets[st.cur];
    if Attempts(st, op) {
      if op.OpRun? {
        var v := st.tealets[t].(far := op.far, flags := NO_FLAGS.(bound := true));
        var v2 := v.(resume := NotStarted(t, st.cur));
        RunBinds(st, t, v);
        RunBinds(st, t, v2);
        StartLocks(st, t, v, InRun(t), op.env, op.id);
        StartLocks(st, t, v2, InRun(t), op.env, op.id);
      } else {
        ForkBinds(st, t, op.env, op.id);
        var v := st.tealets[t].(far := cur.far,
                                flags := NO_FLAGS.(bound := true, forked := true, mainLineage := cur.flags.mainLineage));
        var v2 := v.(resume := InFork(t, st.cur, false));
        BindsCong(st, st, t, v, v2);
        StartLocks(st, t, v, InFork(t, st.cur, true), op.env, op.id);
        StartLocks(st, t, v2, InFork(t, st.cur, true), op.env, op.id);
      }
    } else {
      PairedLocks(st.locks);
    }
  }
}
