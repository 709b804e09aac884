/** What the documentation lets a user ask about a tealet (its status, its origin, who ran before), over single operations
    and over whole runs. */
module Lifecycle {
  import opened Base
  import opened StackModel
  import opened StackProofs
  import opened Growth
  import opened TransferModel
  import opened Safety
  import opened Operations
  import opened Refinement
  import opened PrivateStacks
  import opened Calls
  import opened Spawning
  import opened Machine
  import opened Runs
  import opened Guarantees
  import opened Effects
  import opened Answers

  /* ---- status ---- */

  /** The status of `u` after an operation. */
  ghost function StatusAfter<S, T>(st: State<S, T>, op: Op<S, T>, u: T): Status
    requires Allowed(st, op)
  {
    var act := Seen(st, op);
    if u !in st.tealets then
      if act.Copy? then StatusOf(st, op.t) else StatusNew
    else if (act.Pass? && act.renewed == Some(u)) || (Attempts(st, op) && act.Stay? && op.t == u) then StatusNew
    else if (act.Begin? || act.BeginParked?) && act.t == u then StatusActive
    else if act.Pass? && act.leaving == Exited && u == st.cur then StatusExited
    else if act.Pass? && act.to == u then StatusActive
    else if u in LostBy(st, op) then StatusDefunct
    else StatusOf(st, u)
  }

  /** tealet_status reads the binding, and whether the stack is given up. */
  lemma StatusIs<S, T>(st: State<S, T>, u: T)
    requires Known(st) && u in st.tealets
    ensures var b := BindingOf(st.tealets[u]);
            StatusOf(st, u) == if !b.bound then StatusNew else if b.exited then StatusExited
                               else if Broken(st, u) then StatusDefunct else StatusActive
  {
  }

  lemma BrokenStep<T>(p: Private<T>, p2: Private<T>, act: Act<T>, lost: set<T>, u: T)
    requires PStep(p, p2, act, lost) && (lost == {} || act.Pass? || act.Stay?) && u in p2.tealets
    requires p.cur !in p.broken && p.broken <= p.tealets && (act.Copy? ==> act.nt !in p.tealets)
    ensures u in p2.broken <==>
            if u !in p.tealets then act.Copy? && act.t in p.broken
            else if act.Pass? && (act.renewed == Some(u) || act.to == u) then false
            else if (act.Begin? || act.BeginParked?) && act.t == u then false
            else if u == p.cur then act.Pass? && act.leaving.Parked? && u in lost
            else u in lost || u in p.broken
  {
    hide Prefix, Slice;
  }

  /** Nobody is both suspended with its stack and given up. */
  lemma ParkedWhole<S, T>(st: State<S, T>, u: T)
    requires Inv(st) && Known(st) && u in Abs(st).parked
    ensures u in st.tealets && StatusOf(st, u) == StatusActive
  {
    hide CoreOk, MainOk, Owned, ImageOf;
    CurNoImage(st);
    assert RestOk(st, u);
  }

  /** A tealet that is lost was bound and had not exited. */
  lemma LostBound<S, T>(st: State<S, T>, op: Op<S, T>, u: T)
    requires Inv(st) && Allowed(st, op) && u in LostBy(st, op)
    ensures u in st.tealets && st.tealets[u].flags.bound && !st.tealets[u].flags.exited && !(op.OpExit? && u == st.cur)
  {
    hide CoreOk, MainOk, Owned, CallLegal, CallAlive, IntactAttempt, EnvOk, FallsBack, Goes, CanGrow, Accepts;
    LostIsRefused(st, op, u);
    if u != st.cur { assert RestOk(st, u); }
  }

  /** A caller is lost only by a switch that goes through. */
  lemma LostCaller<S, T>(st: State<S, T>, op: Op<S, T>)
    requires Allowed(st, op) && st.cur in LostBy(st, op)
    ensures Seen(st, op).Pass? && Seen(st, op).leaving.Parked?
  {
    hide CallLegal, CallAlive, IntactAttempt, EnvOk, FallsBack, Goes, Accepts, Known, Renewed, Dooms, Asked, FallbackAsked, Saves;
  }

  lemma LostBinding<S, T>(st: State<S, T>, op: Op<S, T>, u: T)
    requires Inv(st) && Allowed(st, op) && u in LostBy(st, op)
    ensures u in st.tealets && BindingOf(st.tealets[u]).bound && !BindingOf(st.tealets[u]).exited
  {
    hide Inv, Allowed, LostBy;
    LostBound(st, op, u);
  }

  /** The status of every tealet after every operation is told from the operation and the state before it. */
  lemma StepStatus<S, T>(st: State<S, T>, op: Op<S, T>, u: T)
    requires Inv(st) && Allowed(st, op) && u in Apply(st, op).tealets
    ensures Known(Apply(st, op))
    ensures StatusOf(Apply(st, op), u) == StatusAfter(st, op, u)
  {
    hide *;
    var st2 := Apply(st, op);
    StepRefines(st, op);
    InvKnown(st);
    InvKnown(st2);
    StepBroken(st, op, u);
    StatusIs(st2, u);
    StepEffects(st, op);
    ForetoldBinding(st, op, st2, u);
    AimIsActive(st, op);
    StatusFrom(st, op, u, Broken(st2, u));
  }

  /** Whoever is resumed was active. */
  lemma AimIsActive<S, T>(st: State<S, T>, op: Op<S, T>)
    requires Inv(st) && Allowed(st, op) && Known(st)
    ensures Seen(st, op).Pass? ==> Seen(st, op).to in st.tealets && StatusOf(st, Seen(st, op).to) == StatusActive
  {
    hide *;
    StepRefines(st, op);
    if Seen(st, op).Pass? {
      PassParked(Abs(st), Abs(Apply(st, op)), Seen(st, op), LostBy(st, op));
      ParkedWhole(st, Seen(st, op).to);
    }
  }

  lemma PassParked<T>(p: Private<T>, p2: Private<T>, act: Act<T>, lost: set<T>)
    requires PStep(p, p2, act, lost) && act.Pass?
    ensures act.to in p.parked
  {
    hide PKeeps, PLeaves, PRenewed, Slice;
  }

  /** From binding and loss to status. */
  lemma StatusFrom<S, T>(st: State<S, T>, op: Op<S, T>, u: T, broken: bool)
    requires Inv(st) && Allowed(st, op) && Known(st)
    requires Seen(st, op).Pass? ==> Seen(st, op).to in st.tealets && StatusOf(st, Seen(st, op).to) == StatusActive
    requires var act := Seen(st, op);
             broken <==>
             if u !in st.tealets then act.Copy? && Broken(st, act.t)
             else if act.Pass? && (act.renewed == Some(u) || act.to == u) then false
             else if (act.Begin? || act.BeginParked?) && act.t == u then false
             else if u == st.cur then act.Pass? && act.leaving.Parked? && u in LostBy(st, op)
             else u in LostBy(st, op) || Broken(st, u)
    ensures var b := BindingAfter(st, op, u);
            StatusAfter(st, op, u) == if !b.bound then StatusNew else if b.exited then StatusExited
                                      else if broken then StatusDefunct else StatusActive
  {
    hide Inv, Allowed, Seen, LostBy, Attempts, Known, StatusOf, BindingOf, Broken;
    KnownCur(st);
    CopiesFresh(st, op);
    OnlyCallsLose(st, op);
    OneRunner(st, st.cur);
    if u in st.tealets {
      StatusIs(st, u);
      if u in LostBy(st, op) { LostBinding(st, op, u); }
    } else if Seen(st, op).Copy? {
      StatusIs(st, op.t);
    }
    if st.cur in LostBy(st, op) { LostCaller(st, op); }
  }

  lemma ForetoldBinding<S, T>(st: State<S, T>, op: Op<S, T>, st2: State<S, T>, u: T)
    requires Allowed(st, op) && AsForetold(st, op, st2) && u in st2.tealets
    ensures BindingOf(st2.tealets[u]) == BindingAfter(st, op, u)
  {
    hide BindingOf, BindingAfter, PrevAfter, FramesAfter, Allowed;
  }

  lemma InvKnown<S, T>(st: State<S, T>)
    requires Inv(st)
    ensures Known(st)
  {
    hide CoreOk, RestOk, MainOk, Owned, Known;
  }

  lemma StepBroken<S, T>(st: State<S, T>, op: Op<S, T>, u: T)
    requires Inv(st) && Allowed(st, op) && u in Apply(st, op).tealets
    ensures var act := Seen(st, op);
            Broken(Apply(st, op), u) <==>
            if u !in st.tealets then act.Copy? && Broken(st, act.t)
            else if act.Pass? && (act.renewed == Some(u) || act.to == u) then false
            else if (act.Begin? || act.BeginParked?) && act.t == u then false
            else if u == st.cur then act.Pass? && act.leaving.Parked? && u in LostBy(st, op)
            else u in LostBy(st, op) || Broken(st, u)
  {
    hide *;
    var st2 := Apply(st, op);
    StepRefines(st, op);
    OnlyCallsLose(st, op);
    CurNoImage(st);
    BrokenAlive(st);
    CopiesFresh(st, op);
    AbsBroken(st);
    AbsBroken(st2);
    BrokenStep(Abs(st), Abs(st2), Seen(st, op), LostBy(st, op), u);
  }

  lemma AbsBroken<S, T>(st: State<S, T>)
    requires st.cur in st.tealets
    ensures Abs(st).cur == st.cur && Abs(st).tealets == st.tealets.Keys && forall u :: u in Abs(st).broken <==> Broken(st, u)
  {
    hide ImageIn;
  }

  lemma CopiesFresh<S, T>(st: State<S, T>, op: Op<S, T>)
    requires Allowed(st, op)
    ensures Seen(st, op).Copy? ==>
              op.OpDuplicate? && op.t in st.tealets && Seen(st, op).t == op.t && Seen(st, op).nt !in st.tealets
    ensures Seen(st, op).Create? ==> op.OpNew?
  {
    hide CallLegal, CallAlive, CourseOf, Renewed, RunOk, ForkOk, IntactAttempt, CallLosses, Known;
  }

  /* ---- origin ---- */

  /** tealet_get_origin. */
  datatype Origin = Origin(mainLineage: bool, forked: bool)

  ghost function OriginOf<S, T>(st: State<S, T>, t: T): Origin
    requires t in st.tealets
  {
    Origin(st.tealets[t].flags.mainLineage, st.tealets[t].flags.forked)
  }

  lemma OriginIs<S, T>(st: State<S, T>, u: T)
    requires u in st.tealets
    ensures var b := BindingOf(st.tealets[u]);
            OriginOf(st, u) == Origin(b.mainLineage, b.forked) && st.tealets[u].far == b.far
            && (st.tealets[u].flags.bound <==> b.bound)
  {
  }

  /** What a binding that goes through leaves of its tealet. */
  lemma StartBirth<S, T>(st: State<S, T>, op: Op<S, T>)
    requires Inv(st) && Allowed(st, op) && (op.OpRun? || op.OpFork?) && Starts(st, op)
    ensures var st2 := Apply(st, op);
            && op.t in st2.tealets && st.cur in st.tealets && StatusAfter(st, op, op.t) == StatusActive
            && st2.tealets[op.t].far == (if op.OpRun? then op.far else st.tealets[st.cur].far)
            && OriginOf(st2, op.t) == if op.OpRun? then Origin(false, false)
                                      else Origin(OriginOf(st, st.cur).mainLineage, true)
  {
    hide *;
    StepRefines(st, op);
    StepEffects(st, op);
    StartBinding(st, op);
    StartAlive(st, op);
    ForetoldBinding(st, op, Apply(st, op), op.t);
    OriginIs(Apply(st, op), op.t);
    OriginIs(st, st.cur);
  }

  lemma StartBinding<S, T>(st: State<S, T>, op: Op<S, T>)
    requires Allowed(st, op) && (op.OpRun? || op.OpFork?) && Starts(st, op) && st.cur in st.tealets
    ensures op.t in st.tealets && StatusAfter(st, op, op.t) == StatusActive
    ensures var b := BindingOf(st.tealets[st.cur]);
            BindingAfter(st, op, op.t) == if op.OpRun? then Binding(op.far, true, false, false, false)
                                          else Binding(b.far, true, false, true, b.mainLineage)
  {
    hide StartsNow, StartsLater, Above, EnvOk, Known;
  }

  lemma StartAlive<S, T>(st: State<S, T>, op: Op<S, T>)
    requires Inv(st) && Allowed(st, op) && (op.OpRun? || op.OpFork?) && Starts(st, op)
    ensures op.t in Apply(st, op).tealets
  {
    hide *;
    StepRefines(st, op);
    StartSeen(st, op);
    AbsBroken(Apply(st, op));
    BegunAlive(Abs(st), Abs(Apply(st, op)), Seen(st, op), LostBy(st, op));
  }

  lemma StartSeen<S, T>(st: State<S, T>, op: Op<S, T>)
    requires Allowed(st, op) && (op.OpRun? || op.OpFork?) && Starts(st, op)
    ensures Seen(st, op).Begin? || Seen(st, op).BeginParked?
    ensures Seen(st, op).t == op.t
  {
    hide StartsNow, StartsLater, Above, EnvOk, Known;
  }

  lemma BegunAlive<T>(p: Private<T>, p2: Private<T>, act: Act<T>, lost: set<T>)
    requires PStep(p, p2, act, lost) && (act.Begin? || act.BeginParked?)
    ensures act.t in p2.tealets
  {
    hide PKeeps, PLeaves, Prefix, Slice;
  }

  /** A run that answers Ok leaves a tealet with the boundary it was given, which has nothing to do with main. */
  lemma RunBirth<S, T>(st: State<S, T>, t: T, far: int, now: bool, env: Env, id: S)
    requires Inv(st) && Allowed(st, OpRun(t, far, now, env, id)) && Run(st, t, far, now, env, id).code == Ok
    ensures var st2 := Run(st, t, far, now, env, id).st;
            && t in st2.tealets && Known(st2) && StatusOf(st2, t) == StatusActive
            && st2.tealets[t].far == far && OriginOf(st2, t) == Origin(false, false)
  {
    hide Inv, Known, Run, StatusOf, OriginOf, Starts, StatusAfter, RunOk;
    var op := OpRun(t, far, now, env, id);
    RunAnswers(st, t, far, now, env, id);
    StartBirth(st, op);
    StepStatus(st, op, t);
  }

  /** A fork that answers Ok leaves a child that is forked, bounded as its parent is, and of main's lineage exactly if its
      parent is. */
  lemma ForkBirth<S, T>(st: State<S, T>, t: T, now: bool, env: Env, id: S)
    requires Inv(st) && Allowed(st, OpFork(t, now, env, id)) && Fork(st, t, now, env, id).code == Ok
    ensures var st2 := Fork(st, t, now, env, id).st;
            && t in st2.tealets && st.cur in st.tealets && Known(st2) && StatusOf(st2, t) == StatusActive
            && st2.tealets[t].far == st.tealets[st.cur].far
            && OriginOf(st2, t) == Origin(OriginOf(st, st.cur).mainLineage, true)
  {
    hide Inv, Known, Fork, StatusOf, OriginOf, Starts, StatusAfter, ForkOk;
    var op := OpFork(t, now, env, id);
    ForkAnswers(st, t, now, env, id);
    StartBirth(st, op);
    StepStatus(st, op, t);
  }

  /** A copy has the status, boundary and origin of its original; a new tealet is NEW. */
  lemma CopyBirth<S, T>(st: State<S, T>, t: T, nt: T)
    requires Inv(st) && Allowed(st, OpDuplicate(t, nt)) && !Duplicate(st, t, nt).fail
    ensures var st2 := Duplicate(st, t, nt).st;
            && nt in st2.tealets && Known(st2) && StatusOf(st2, nt) == StatusOf(st, t)
            && st2.tealets[nt].far == st.tealets[t].far && OriginOf(st2, nt) == OriginOf(st, t)
  {
    hide Inv, Known, Duplicate, StatusOf, StatusAfter, LostBy;
    var op := OpDuplicate(t, nt);
    DuplicateFrame(st, t, nt);
    StepStatus(st, op, nt);
    CopyStatus(st, t, nt);
  }

  lemma CopyStatus<S, T>(st: State<S, T>, t: T, nt: T)
    requires Allowed(st, OpDuplicate(t, nt)) && st.core.alloc(st.core.ticks)
    ensures StatusAfter(st, OpDuplicate(t, nt), nt) == StatusOf(st, t)
  {
    hide Known, StatusOf;
  }

  lemma NewBirth<S, T>(st: State<S, T>, nt: T)
    requires Inv(st) && Allowed(st, OpNew(nt)) && !New(st, nt).fail
    ensures var st2 := New(st, nt).st; nt in st2.tealets && Known(st2) && StatusOf(st2, nt) == StatusNew
  {
    hide Inv, StatusOf;
    NewIs(st, nt);
    NewInv(st, nt);
    InvKnown(New(st, nt).st);
    NewStatus(New(st, nt).st, nt);
  }

  lemma NewStatus<S, T>(st: State<S, T>, t: T)
    requires Known(st) && t in st.tealets && !st.tealets[t].flags.bound
    ensures StatusOf(st, t) == StatusNew
  {
  }

  /** No step changes the origin of a tealet that stays bound, nor its boundary, unless it is main's. */
  lemma StepOrigin<S, T>(st: State<S, T>, op: Op<S, T>, u: T)
    requires Inv(st) && Allowed(st, op) && u in st.tealets && u in Apply(st, op).tealets
    requires st.tealets[u].flags.bound && Apply(st, op).tealets[u].flags.bound
    ensures OriginOf(Apply(st, op), u) == OriginOf(st, u)
    ensures u != st.main ==> Apply(st, op).tealets[u].far == st.tealets[u].far
  {
    hide *;
    StepEffects(st, op);
    ForetoldBinding(st, op, Apply(st, op), u);
    OriginIs(st, u);
    OriginIs(Apply(st, op), u);
    SameBinding(st, op, u);
  }

  lemma SameBinding<S, T>(st: State<S, T>, op: Op<S, T>, u: T)
    requires Allowed(st, op) && u in st.tealets && BindingOf(st.tealets[u]).bound && BindingAfter(st, op, u).bound
    ensures var b, b2 := BindingOf(st.tealets[u]), BindingAfter(st, op, u);
            b2.mainLineage == b.mainLineage && b2.forked == b.forked && (u != st.main ==> b2.far == b.far)
  {
    hide StartsNow, StartsLater, Above, EnvOk, Known, CallLegal, CallAlive, CourseOf, Renewed, IntactAttempt;
  }

  /** The origin of a tealet is settled when it is bound: it stays for as long as the tealet stays bound, whatever happens
      meanwhile, and so does its boundary, unless it is main's. */
  lemma {:induction false} OriginKept<S, T>(states: seq<State<S, T>>, ops: seq<Op<S, T>>, i: nat, j: nat, u: T)
    requires IsRun(states, ops) && i <= j < |states|
    requires forall k :: i <= k <= j ==> u in states[k].tealets && states[k].tealets[u].flags.bound
    ensures OriginOf(states[j], u) == OriginOf(states[i], u)
    ensures u != states[0].main ==> states[j].tealets[u].far == states[i].tealets[u].far
    decreases j
  {
    hide Inv, Allowed, Apply, Initial, OriginOf;
    if i < j {
      OriginKept(states, ops, i, j - 1, u);
      RunSafe(states, ops, j - 1);
      assert states[j - 1 + 1] == Apply(states[j - 1], ops[j - 1]);
      StepOrigin(states[j - 1], ops[j - 1], u);
      MainStays(states, ops, j - 1);
    }
  }

  /** No operation makes another tealet main. */
  lemma StepMain<S, T>(st: State<S, T>, op: Op<S, T>)
    requires Inv(st) && Allowed(st, op)
    ensures Apply(st, op).main == st.main
  {
    hide Inv, Ready, Transfer, Finish, CallLegal, CallAlive, IntactAttempt, StartNow, StartLater, Above, FarFits, EnvOk, Known,
      Attempts, Renewed, CourseOf;
    match op
    case OpRun(_, _, _, _, _) => StartMain(st, op);
    case OpFork(_, _, _, _) => StartMain(st, op);
    case OpSwitch(t, force, panic, nofail, env, id) =>
      CallFinishes(st, t, force, panic, nofail, false, false, env, id);
      CallMain(st, t, force, panic, nofail, false, false, env, id);
      FinishedMain(st, Transfer(Lock(st), t, force, panic, nofail, false, false, env, id), Apply(st, op),
                   Renewed(st, CourseOf(st, t, force, panic, nofail, false, env)));
    case OpExit(t, delete, force, panic, nofail, env, id) =>
      CallFinishes(st, t, force, panic, nofail, true, delete, env, id);
      CallMain(st, t, force, panic, nofail, true, delete, env, id);
      FinishedMain(st, Transfer(Lock(st), t, force, panic, nofail, true, delete, env, id), Apply(st, op),
                   Renewed(st, CourseOf(st, t, force, panic, nofail, true, env)));
    case _ =>
  }

  lemma FinishedMain<S, T>(st: State<S, T>, x: Xfer<S, T>, st2: State<S, T>, newly: Option<T>)
    requires Finished(x, st2, newly) && x.st.main == st.main
    ensures st2.main == st.main
  {
    hide Inv, Loose;
  }

  lemma CallMain<S, T>(st: State<S, T>, t: T, force: bool, panic: bool, nofail: bool, isExit: bool, delete: bool, env: Env,
                       id: S)
    requires Inv(st) && Known(st) && t in st.tealets && EnvOk(st, env, id) && (isExit ==> st.cur != st.main)
    ensures Known(Lock(st)) && Transfer(Lock(st), t, force, panic, nofail, isExit, delete, env, id).st.main == st.main
  {
    hide Inv, Ready, XferInner, EnvOk, KeepsTarget;
    LockedStart(st);
    KnownCur(st);
    var st1 := Lock(st);
    assert EnvOk(st1, env, id) by { EnvCong(st, st1, env, id); }
    var x := XferInner(st1, t, force || nofail, panic, isExit, delete, env, id);
    XferInnerSafe(st1, t, force || nofail, panic, isExit, delete, env, id);
    if nofail && (x.code == ErrMem || x.code == ErrDefunct) {
      AttemptFails(st1, t, panic, isExit, delete, env, id);
      if st.cur == st.main {
        MainToMain(x.st, isExit, delete, env, id);
      } else {
        EnvKept(st1, x.st, env, id);
        XferInnerSafe(x.st, x.st.main, true, true, isExit, delete, env, id);
      }
    }
  }

  lemma MainToMain<S, T>(st: State<S, T>, isExit: bool, delete: bool, env: Env, id: S)
    requires Known(st)
    ensures XferInner(st, st.cur, true, true, isExit, delete, env, id).st.main == st.main
  {
  }

  lemma StartMain<S, T>(st: State<S, T>, op: Op<S, T>)
    requires Inv(st) && Allowed(st, op) && (op.OpRun? || op.OpFork?)
    ensures Apply(st, op).main == st.main
  {
    hide Inv, Ready, StartNow, StartLater, Above, EnvOk, Known, Binds;
    KnownCur(st);
    var t, cur := op.t, st.tealets[st.cur];
    if Attempts(st, op) {
      if op.OpRun? {
        var v := st.tealets[t].(far := op.far, flags := NO_FLAGS.(bound := true));
        var v2 := v.(resume := NotStarted(t, st.cur));
        RunBinds(st, t, v);
        RunBinds(st, t, v2);
        BindingMain(st, t, v, InRun(t), op.env, op.id);
        BindingMain(st, t, v2, InRun(t), op.env, op.id);
      } else {
        ForkBinds(st, t, op.env, op.id);
        var v := st.tealets[t].(far := cur.far,
                                flags := NO_FLAGS.(bound := true, forked := true, mainLineage := cur.flags.mainLineage));
        var v2 := v.(resume := InFork(t, st.cur, false));
        BindsCong(st, st, t, v, v2);
        BindingMain(st, t, v, InFork(t, st.cur, true), op.env, op.id);
        BindingMain(st, t, v2, InFork(t, st.cur, true), op.env, op.id);
      }
    }
  }

  lemma BindingMain<S, T>(st: State<S, T>, t: T, v: TealetV<S, T>, r: Resume<T>, env: Env, id: S)
    requires Inv(st) && Binds(st, t, v)
    ensures && Known(SetT(SetT(Lock(st), st.cur, st.tealets[st.cur].(resume := r)), t, v))
            && StartNow(Lock(st), t, v, r, env, id).st.main == st.main
    ensures && Known(SetT(Lock(st), t, v).(cur := t))
            && StartLater(Lock(st), t, v, env, id).st.main == st.main
  {
    hide Solid, SwitchStack, Above;
    SolidCur(st, None);
    ReadyLocks(st, st.locks + [true]);
    var st1 := Lock(st);
    SolidBasics(st1, None);
    StandInKnown(st1, t, v);
    NewIsFree(st1, t);
    SwitchStackFrame(SetT(SetT(st1, st.cur, st.tealets[st.cur].(resume := r)), t, v), t, env, id);
    SwitchStackFrame(SetT(st1, t, v).(cur := t), st.cur, env, id);
  }

  lemma {:induction false} MainStays<S, T>(states: seq<State<S, T>>, ops: seq<Op<S, T>>, i: nat)
    requires IsRun(states, ops) && i < |states|
    ensures states[i].main == states[0].main
  {
    hide Inv, Allowed, Apply, Initial;
    if i > 0 {
      MainStays(states, ops, i - 1);
      RunSafe(states, ops, i - 1);
      StepMain(states[i - 1], ops[i - 1]);
    }
  }

  /** Main is of its own lineage without being forked, and whoever else is of it was forked. */
  ghost predicate Lineage<S, T>(st: State<S, T>) {
    && st.main in st.tealets && OriginOf(st, st.main) == Origin(true, false)
    && forall t :: t in st.tealets && t != st.main && OriginOf(st, t).mainLineage ==> OriginOf(st, t).forked
  }

  /** In every reachable state main is of its own lineage and not forked, and whoever else is of it was forked. */
  lemma {:induction false} RunLineage<S, T>(states: seq<State<S, T>>, ops: seq<Op<S, T>>, i: nat)
    requires IsRun(states, ops) && i < |states|
    ensures Lineage(states[i])
  {
    hide Inv, Allowed, Apply, Lineage;
    if i == 0 {
      InitialLineage(states[0]);
    } else {
      RunLineage(states, ops, i - 1);
      RunSafe(states, ops, i - 1);
      StepLineage(states[i - 1], ops[i - 1]);
    }
  }

  lemma InitialLineage<S, T>(st: State<S, T>)
    requires Initial(st)
    ensures Lineage(st)
  {
  }

  lemma StepLineage<S, T>(st: State<S, T>, op: Op<S, T>)
    requires Inv(st) && Allowed(st, op) && Lineage(st)
    ensures Lineage(Apply(st, op))
  {
    hide Inv, Allowed, Apply, BindingAfter;
    var st2 := Apply(st, op);
    StepMain(st, op);
    StepInv(st, op);
    StepEffects(st, op);
    assert st.main in st2.tealets && st2.tealets[st.main].flags.bound by { MainBound(st2); }
    assert st.tealets[st.main].flags.bound by { MainBound(st); }
    StepOrigin(st, op, st.main);
    forall t | t in st2.tealets && t != st.main && OriginOf(st2, t).mainLineage ensures OriginOf(st2, t).forked {
      hide *;
      ForetoldBinding(st, op, st2, t);
      OriginIs(st2, t);
      if t in st.tealets { OriginIs(st, t); }
      LineageAfter(st, op, t);
    }
  }

  lemma MainBound<S, T>(st: State<S, T>)
    requires Inv(st)
    ensures st.main in st.tealets && st.tealets[st.main].flags.bound
  {
    hide CoreOk, RestOk, Owned, Known;
  }

  lemma LineageAfter<S, T>(st: State<S, T>, op: Op<S, T>, u: T)
    requires Allowed(st, op) && Lineage(st) && u != st.main && BindingAfter(st, op, u).mainLineage
    ensures BindingAfter(st, op, u).forked
  {
    hide StartsNow, StartsLater, Above, EnvOk, Known, CallLegal, CallAlive, CourseOf, Renewed, IntactAttempt;
  }

  /* ---- who ran before ---- */

  /** The running tealet gives up control, or switches to itself. */
  ghost predicate Yields<S, T>(st: State<S, T>, op: Op<S, T>)
    requires Allowed(st, op)
  {
    || Seen(st, op).Pass? || Seen(st, op).Begin?
    || (op.OpSwitch? && SelfSwitch(st, op.t, op.nofail, false, op.env))
  }

  /** The operation frees `u`. */
  ghost predicate Frees<S, T>(st: State<S, T>, op: Op<S, T>, u: T)
    requires Allowed(st, op)
  {
    (op.OpDelete? && op.t == u) || (Seen(st, op).Pass? && Seen(st, op).leaving.Freed? && u == st.cur)
  }

  /** One step: the previous tealet is whoever gives up control, or as before; and never a freed one. */
  lemma StepPrev<S, T>(st: State<S, T>, op: Op<S, T>)
    requires Inv(st) && Allowed(st, op)
    ensures Apply(st, op).prev == if Yields(st, op) then (if Frees(st, op, st.cur) then None else Some(st.cur))
                                  else if st.prev.Some? && Frees(st, op, st.prev.value) then None
                                  else st.prev
  {
    hide *;
    StepEffects(st, op);
    ForetoldPrev(st, op, Apply(st, op));
    PrevCases(st, op);
  }

  lemma ForetoldPrev<S, T>(st: State<S, T>, op: Op<S, T>, st2: State<S, T>)
    requires Allowed(st, op) && AsForetold(st, op, st2)
    ensures st2.prev == PrevAfter(st, op)
  {
    hide BindingOf, BindingAfter, PrevAfter, FramesAfter, Allowed;
  }

  lemma PrevCases<S, T>(st: State<S, T>, op: Op<S, T>)
    requires Allowed(st, op)
    ensures PrevAfter(st, op) == if Yields(st, op) then (if Frees(st, op, st.cur) then None else Some(st.cur))
                                 else if st.prev.Some? && Frees(st, op, st.prev.value) then None
                                 else st.prev
  {
    hide StartsNow, StartsLater, Above, EnvOk, Known, CallLegal, CallAlive, CourseOf, Renewed, IntactAttempt, HasMemory, Accepts,
      FindsDefunct;
  }

  /** tealet_previous over a whole run: whoever was the last to give up control, or nobody once that tealet is freed. */
  lemma {:induction false} PrevIsLast<S, T>(states: seq<State<S, T>>, ops: seq<Op<S, T>>, j: nat, i: nat)
    requires IsRun(states, ops) && j < i < |states|
    requires Yields(states[j], ops[j]) && forall k :: j < k < i ==> !Yields(states[k], ops[k])
    ensures states[i].prev == if exists k :: j <= k < i && Frees(states[k], ops[k], states[j].cur) then None
                              else Some(states[j].cur)
    decreases i
  {
    hide Inv, Allowed, Apply, Initial, Yields, Frees;
    RunSafe(states, ops, i - 1);
    StepPrev(states[i - 1], ops[i - 1]);
    if j < i - 1 {
      PrevIsLast(states, ops, j, i - 1);
    }
  }

  /** Nobody, as long as nobody has given up control. */
  lemma {:induction false} PrevIsNobody<S, T>(states: seq<State<S, T>>, ops: seq<Op<S, T>>, i: nat)
    requires IsRun(states, ops) && i < |states| && forall k :: 0 <= k < i ==> !Yields(states[k], ops[k])
    ensures states[i].prev == None
  {
    hide Inv, Allowed, Apply, Yields, Frees;
    if i > 0 {
      PrevIsNobody(states, ops, i - 1);
      RunSafe(states, ops, i - 1);
      StepPrev(states[i - 1], ops[i - 1]);
    }
  }
}
