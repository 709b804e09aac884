/** Reachable states, and what a tealet finds when it is resumed any number of steps later. */
module Runs {
  import opened Base
  import opened StackModel
  import opened StackProofs
  import opened Growth
  import opened TransferModel
  import opened Safety
  import opened Operations
  import opened Refinement
  import opened PrivateStacks
  import opened Calls
  import opened Spawning
  import opened Machine

  /** tealet_initialize: only main exists; it runs, and its stack is unbounded. */
  ghost predicate Initial<S, T>(st: State<S, T>) {
    && |st.core.mem| < FURTHEST
    && st.core.stacks == map[] && st.core.plist == [] && st.core.log == []
    && st.core.stats == Stats(st.core.stats.bytes, 1, 0, 0, 0)
    && st.tealets == map[st.main := TealetV(FURTHEST, None, NO_FLAGS.(mainLineage := true, bound := true), Unbound)]
    && st.cur == st.main && st.prev == None && st.target == None && !st.panic && st.locks == [] && st.count == 1
  }

  lemma InitialInv<S, T>(st: State<S, T>)
    requires Initial(st)
    ensures Inv(st)
  {
  }

  /** A run: from the initial state, one allowed operation after the other. */
  ghost predicate IsRun<S, T>(states: seq<State<S, T>>, ops: seq<Op<S, T>>) {
    && |states| == |ops| + 1
    && Initial(states[0])
    && forall i :: 0 <= i < |ops| ==> Allowed(states[i], ops[i]) && states[i + 1] == Apply(states[i], ops[i])
  }

  /** One allowed operation after the other leads from st to st2. */
  ghost predicate Leads<S, T>(st: State<S, T>, ops: seq<Op<S, T>>, st2: State<S, T>)
    decreases |ops|
  {
    if ops == [] then st2 == st
    else Allowed(st, ops[0]) && Leads(Apply(st, ops[0]), ops[1..], st2)
  }

  ghost predicate Follow<S, T>(states: seq<State<S, T>>, ops: seq<Op<S, T>>) {
    && |states| == |ops| + 1
    && forall i :: 0 <= i < |ops| ==> Allowed(states[i], ops[i]) && states[i + 1] == Apply(states[i], ops[i])
  }

  lemma {:induction false} LeadsFollow<S, T>(st: State<S, T>, ops: seq<Op<S, T>>, st2: State<S, T>)
    returns (states: seq<State<S, T>>)
    requires Leads(st, ops, st2)
    ensures Follow(states, ops) && states[0] == st && states[|ops|] == st2
    decreases |ops|
  {
    hide Allowed, Apply;
    if ops == [] {
      states := [st];
    } else {
      var rest := LeadsFollow(Apply(st, ops[0]), ops[1..], st2);
      states := [st] + rest;
      forall i | 0 <= i < |ops| ensures Allowed(states[i], ops[i]) && states[i + 1] == Apply(states[i], ops[i]) {
        if i > 0 {
          assert ops[i] == ops[1..][i - 1] && states[i] == rest[i - 1] && states[i + 1] == rest[i];
        }
      }
    }
  }

  /** What the initial state leads to is reached by a run. */
  lemma RunReaches<S, T>(st: State<S, T>, ops: seq<Op<S, T>>, st2: State<S, T>) returns (states: seq<State<S, T>>)
    requires Initial(st) && Leads(st, ops, st2)
    ensures IsRun(states, ops) && states[|ops|] == st2 && Inv(st2)
  {
    hide Initial, Allowed, Apply, Inv;
    states := LeadsFollow(st, ops, st2);
    RunSafe(states, ops, |ops|);
  }

  /** Every reachable state is legal. */
  lemma {:induction false} RunSafe<S, T>(states: seq<State<S, T>>, ops: seq<Op<S, T>>, i: nat)
    requires IsRun(states, ops) && i < |states|
    ensures Inv(states[i])
  {
    hide Inv, Allowed, Apply;
    if i == 0 {
      InitialInv(states[0]);
    } else {
      RunSafe(states, ops, i - 1);
      StepInv(states[i - 1], ops[i - 1]);
    }
  }

  /** Every run is, step for step, a run of the machine with private stacks, in which exactly those are lost whose requests
      for memory are refused to a forced transfer. */
  lemma RunRefines<S, T>(states: seq<State<S, T>>, ops: seq<Op<S, T>>, i: nat)
    requires IsRun(states, ops) && i < |ops|
    ensures states[i].cur in states[i].tealets && states[i + 1].cur in states[i + 1].tealets
    ensures PStep(Abs(states[i]), Abs(states[i + 1]), Seen(states[i], ops[i]), LostBy(states[i], ops[i]))
  {
    hide Inv, Allowed, Apply, PStep, Abs;
    RunSafe(states, ops, i);
    StepRefines(states[i], ops[i]);
  }

  lemma AbsAlive<S, T>(st: State<S, T>)
    requires Inv(st)
    ensures st.cur in st.tealets && Abs(st).parked.Keys <= Abs(st).tealets && st.cur !in Abs(st).parked
  {
    hide Inv, ImageIn, Broken;
    CurNoImage(st);
  }

  /** An operation that binds or creates a tealet is allowed only for one that is not suspended. */
  lemma NotRebound<S, T>(st: State<S, T>, op: Op<S, T>, u: T)
    requires Inv(st) && Allowed(st, op) && st.cur in st.tealets && u in Abs(st).parked
    ensures var act := Seen(st, op);
            !(act.Copy? && act.nt == u) && !(act.Begin? && act.t == u) && !(act.BeginParked? && act.t == u)
  {
    hide Solid, CallLegal, CallAlive, CourseOf, Renewed, IntactAttempt, StartNow, StartLater, Switch, Exit, New, Duplicate,
      ImageOf;
    assert u in st.tealets && st.tealets[u].stack.Some?;
    if (op.OpRun? || op.OpFork?) && op.t == u && st.tealets[u].flags == NO_FLAGS {
      NewIsFree(st, u);
    }
  }

  lemma AbsCur<S, T>(st: State<S, T>)
    requires st.cur in st.tealets
    ensures Abs(st).cur == st.cur
  {
  }

  /** Never silently wrong: it is known beforehand whether a step resumes, deletes or loses a suspended tealet, and then it
      runs on its very stack, is gone, or reports DEFUNCT; otherwise it is still suspended with the same stack. */
  lemma NeverSilentlyWrong<S, T>(states: seq<State<S, T>>, ops: seq<Op<S, T>>, i: nat, u: T)
    requires IsRun(states, ops) && i < |ops|
    requires states[i].cur in states[i].tealets && u in Abs(states[i]).parked
    ensures states[i + 1].cur in states[i + 1].tealets
    ensures var img, p2, act := Abs(states[i]).parked[u], Abs(states[i + 1]), Seen(states[i], ops[i]);
            if act.Pass? && act.to == u then
              p2.cur == u && |p2.run| == img.near + |img.bytes| && Slice(p2.run, img.near, |p2.run|) == img.bytes
            else if ops[i].OpDelete? && ops[i].t == u then u !in p2.tealets
            else if u in LostBy(states[i], ops[i]) then u !in p2.parked && u in p2.broken
            else u in p2.parked && p2.parked[u] == img
  {
    hide Inv, Allowed, Apply, Abs, Seen, LostBy, PStep;
    RunSafe(states, ops, i);
    RunRefines(states, ops, i);
    AbsAlive(states[i]);
    NotRebound(states[i], ops[i], u);
    AbsCur(states[i]);
    DropIsDelete(states[i], ops[i]);
    OnlyCallsLose(states[i], ops[i]);
    StepFate(Abs(states[i]), Abs(states[i + 1]), Seen(states[i], ops[i]), LostBy(states[i], ops[i]), u);
  }

  lemma OnlyCallsLose<S, T>(st: State<S, T>, op: Op<S, T>)
    requires Allowed(st, op)
    ensures LostBy(st, op) == {} || Seen(st, op).Pass? || Seen(st, op).Stay?
  {
    hide CallLegal, CallAlive, CourseOf, Renewed, RunOk, ForkOk, IntactAttempt, CallLosses, Known;
  }

  /** The operation neither resumes nor deletes nor loses `u`. */
  ghost predicate Spares<S, T>(st: State<S, T>, op: Op<S, T>, u: T)
    requires Allowed(st, op)
  {
    && !(Seen(st, op).Pass? && Seen(st, op).to == u)
    && !(op.OpDelete? && op.t == u)
    && u !in LostBy(st, op)
  }

  /** A suspended tealet stays suspended, with the same private stack, until it is resumed, deleted or lost, whatever else
      runs, forks, exits, is copied or deleted meanwhile. */
  lemma {:induction false} ParkedStable<S, T>(states: seq<State<S, T>>, ops: seq<Op<S, T>>, i: nat, j: nat, u: T)
    requires IsRun(states, ops) && i <= j < |states|
    requires states[i].cur in states[i].tealets && u in Abs(states[i]).parked
    requires forall k :: i <= k < j ==> Spares(states[k], ops[k], u)
    ensures states[j].cur in states[j].tealets && u in Abs(states[j]).parked
    ensures Abs(states[j]).parked[u] == Abs(states[i]).parked[u]
    decreases j
  {
    hide Inv, Allowed, Apply, PStep, Abs, Seen, LostBy;
    if i < j {
      ParkedStable(states, ops, i, j - 1, u);
      NeverSilentlyWrong(states, ops, j - 1, u);
    }
  }

  lemma DropIsDelete<S, T>(st: State<S, T>, op: Op<S, T>)
    requires Allowed(st, op)
    ensures Seen(st, op).Drop? <==> op.OpDelete?
    ensures op.OpDelete? ==> op.t == Seen(st, op).t
  {
    hide CallLegal, CallAlive, CourseOf, Renewed, RunOk, ForkOk, IntactAttempt, Run, Fork, Switch, Exit, New, Duplicate, Known;
  }

  lemma StepFate<T>(p: Private<T>, p2: Private<T>, act: Act<T>, lost: set<T>, u: T)
    requires PStep(p, p2, act, lost)
    requires p.parked.Keys <= p.tealets && u in p.parked && u != p.cur && (lost == {} || act.Pass? || act.Stay?)
    requires !(act.Copy? && act.nt == u) && !(act.Begin? && act.t == u) && !(act.BeginParked? && act.t == u)
    ensures var img := p.parked[u];
            if act.Pass? && act.to == u then
              p2.cur == u && |p2.run| == img.near + |img.bytes| && Slice(p2.run, img.near, |p2.run|) == img.bytes
            else if act.Drop? && act.t == u then u !in p2.tealets
            else if u in lost then u !in p2.parked && u in p2.broken
            else u in p2.parked && p2.parked[u] == img
  {
    hide Prefix, PLeaves;
  }

  /** The operation suspends the tealet that makes it, at stack pointer `LeftAt`. */
  ghost predicate Suspends<S, T>(st: State<S, T>, op: Op<S, T>)
    requires Allowed(st, op)
  {
    var act := Seen(st, op);
    act.Begin? || (act.Pass? && act.leaving.Parked? && st.cur !in LostBy(st, op))
  }

  ghost function LeftAt<T>(act: Act<T>): int
    requires act.Pass? || act.Begin?
  {
    act.sp
  }

  /** The whole point: a tealet that leaves the processor at step i, is neither resumed nor deleted nor lost until step j
      and is resumed then finds, from its stack pointer to its boundary, exactly the bytes it left. */
  lemma ResumesAsLeft<S, T>(states: seq<State<S, T>>, ops: seq<Op<S, T>>, i: nat, j: nat)
    requires IsRun(states, ops) && i < j < |ops|
    requires states[i].cur in states[i].tealets && Suspends(states[i], ops[i])
    requires forall k :: i < k < j ==> Spares(states[k], ops[k], states[i].cur)
    requires Seen(states[j], ops[j]).Pass? && Seen(states[j], ops[j]).to == states[i].cur
    ensures states[j + 1].cur == states[i].cur && states[j + 1].cur in states[j + 1].tealets
    ensures var sp := LeftAt(Seen(states[i], ops[i]));
            var left, found := Abs(states[i]).run, Abs(states[j + 1]).run;
            && 0 <= sp <= |left| && |found| == |left|
            && Slice(found, sp, |left|) == Slice(left, sp, |left|)
  {
    hide Inv, Allowed, Apply, Abs, Seen, LostBy, PStep, Spares;
    var u := states[i].cur;
    RunRefines(states, ops, i);
    RunRefines(states, ops, j);
    AbsCur(states[i]);
    AbsCur(states[j + 1]);
    RunSafe(states, ops, i);
    SpInside(states[i], ops[i]);
    LeftParked(Abs(states[i]), Abs(states[i + 1]), Seen(states[i], ops[i]), LostBy(states[i], ops[i]));
    ParkedStable(states, ops, i + 1, j, u);
    LeftFound(Abs(states[i]), Seen(states[i], ops[i]),
              Abs(states[j]), Abs(states[j + 1]), Seen(states[j], ops[j]), LostBy(states[j], ops[j]));
  }

  /** A caller's stack pointer lies on its own stack. */
  lemma SpInside<S, T>(st: State<S, T>, op: Op<S, T>)
    requires Inv(st) && Allowed(st, op) && (Seen(st, op).Pass? || Seen(st, op).Begin?)
    ensures st.cur in st.tealets && 0 <= LeftAt(Seen(st, op)) <= |Abs(st).run|
  {
    hide Inv, Abs, CallLegal, CallAlive, CourseOf, Renewed, IntactAttempt, StartsNow, StartsLater, Known, FarFits, Above;
    RunLength(st);
  }

  lemma LeftParked<T>(p: Private<T>, p2: Private<T>, act: Act<T>, lost: set<T>)
    requires PStep(p, p2, act, lost) && (act.Begin? || (act.Pass? && act.leaving.Parked? && p.cur !in lost))
    ensures p.cur in p2.parked && p2.parked[p.cur] == Image(LeftAt(act), Slice(p.run, LeftAt(act), |p.run|))
  {
    hide PKeeps, PSame, Prefix;
  }

  lemma LeftFound<T>(p: Private<T>, act: Act<T>, q: Private<T>, q2: Private<T>, back: Act<T>, lost: set<T>)
    requires PStep(q, q2, back, lost)
    requires (act.Pass? || act.Begin?) && back.Pass? && back.to == p.cur
    requires p.cur in q.parked && q.parked[p.cur] == Image(LeftAt(act), Slice(p.run, LeftAt(act), |p.run|))
    ensures q2.cur == p.cur
    ensures var sp := LeftAt(act);
            && (0 <= sp <= |p.run| ==> |q2.run| == |p.run|)
            && Slice(q2.run, sp, |p.run|) == Slice(p.run, sp, |p.run|)
  {
    hide PKeeps, PSame, Prefix, PLeaves;
  }

  /* ---- who is lost, and who never is ---- */

  ghost predicate Refuses<S>(c: Core<S>, n: nat) { !c.alloc(c.ticks + n) }

  /** Whoever is lost was refused memory by the allocator, at his own place on the list or as the caller of the transfer,
      and the transfer was forced by somebody else than main. */
  lemma LostIsRefused<S, T>(st: State<S, T>, op: Op<S, T>, u: T)
    requires Allowed(st, op) && u in LostBy(st, op)
    ensures st.cur != st.main && (op.OpSwitch? || op.OpExit?) && (op.force || op.nofail) && u in st.tealets
    ensures if u == st.cur then exists n: nat :: n <= |st.core.plist| && Refuses(st.core, n)
            else
              && Listed(st.core.plist, st.tealets[u].stack)
              && Refuses(st.core, Position(st.core.plist, st.tealets[u].stack.value))
  {
    hide CallLegal, CallAlive, IntactAttempt, EnvOk, FallsBack, Goes, CanGrow, Accepts;
    if u == st.cur {
      var c := CourseOf(st, op.t, op.force, false, op.nofail, op.OpExit?, op.env);
      AskedBound(st, op.t);
      assert c.asked <= |st.core.plist| && Refuses(st.core, c.asked);
    }
  }

  lemma AskedBound<S, T>(st: State<S, T>, t: T)
    requires Known(st) && t in st.tealets
    ensures Asked(st, t) <= |st.core.plist| && FallbackAsked(st, t) <= |st.core.plist|
  {
    hide IsDefunct;
  }

  /** The allocator never refuses anything. */
  ghost predicate Generous<S, T>(st: State<S, T>) { forall n :: st.core.alloc(n) }

  lemma {:induction false} GrowListAlloc<S>(c: Core<S>, todo: seq<S>, stop: int, target: Option<S>, failOk: bool,
                                            mainStack: Option<S>)
    requires forall s :: s in todo ==> s in c.stacks
    ensures GrowList(c, todo, stop, target, failOk, mainStack).core.alloc == c.alloc
    decreases |todo|
  {
    if todo != [] && target != Some(todo[0]) {
      GrowListAlloc(Visit(c, todo[0], stop, failOk, mainStack).core, todo[1..], stop, target, failOk, mainStack);
    }
  }

  lemma SwitchStackAlloc<S, T>(st: State<S, T>, t: T, env: Env, id: S)
    requires Known(st) && t in st.tealets
    ensures SwitchStack(st, t, env, id).st.core.alloc == st.core.alloc
  {
    var st1 := st.(prev := Some(st.cur), target := Some(t));
    SaveStateAlloc(st1, t, env.sp, id);
    hide SaveState;
  }

  lemma SaveStateAlloc<S, T>(st: State<S, T>, t: T, sp: int, id: S)
    requires Known(st) && t in st.tealets
    ensures SaveState(st, t, sp, id).st.core.alloc == st.core.alloc
  {
    hide GrowList;
    GrowListAlloc(st.core, st.core.plist, st.tealets[t].far, st.tealets[t].stack, FailOk(st), st.tealets[st.main].stack);
  }

  lemma XferInnerAlloc<S, T>(st: State<S, T>, t: T, force: bool, panic: bool, isExit: bool, delete: bool, env: Env, id: S)
    requires Ready(st) && Known(st) && t in st.tealets && (isExit ==> st.cur != st.main)
    ensures XferInner(st, t, force, panic, isExit, delete, env, id).st.core.alloc == st.core.alloc
  {
    hide Solid, SwitchStack;
    if st.tealets[t].flags.bound && t != st.cur {
      var s := Stage(st, force, panic, isExit, delete);
      StageSolid(st, force, panic, isExit, delete);
      SolidBasics(s, None);
      SwitchStackAlloc(s, t, env, id);
    }
  }

  lemma CallAlloc<S, T>(st: State<S, T>, t: T, force: bool, panic: bool, nofail: bool, isExit: bool, delete: bool,
                        env: Env, id: S)
    requires Inv(st) && Known(st) && t in st.tealets && EnvOk(st, env, id) && (isExit ==> st.cur != st.main)
    ensures Known(Lock(st))
    ensures Finish(Transfer(Lock(st), t, force, panic, nofail, isExit, delete, env, id)).st.core.alloc == st.core.alloc
  {
    hide Ready, Inv, XferInner, Known, EnvOk, Receive, IsDefunct;
    LockedStart(st);
    var st1 := Lock(st);
    var f := force || nofail;
    assert EnvOk(st1, env, id) by { KnownCur(st); EnvCong(st, st1, env, id); }
    XferInnerAlloc(st1, t, f, panic, isExit, delete, env, id);
    var x := XferInner(st1, t, f, panic, isExit, delete, env, id);
    if nofail && (x.code == ErrMem || x.code == ErrDefunct) && Known(x.st) {
      RetryAlloc(st1, t, panic, isExit, delete, env, id);
    }
    var y := Transfer(st1, t, force, panic, nofail, isExit, delete, env, id);
    if y.moved && Known(y.st) { ReceiveAlloc(y.st, y.code); }
  }

  lemma RetryAlloc<S, T>(st: State<S, T>, t: T, panic: bool, isExit: bool, delete: bool, env: Env, id: S)
    requires Ready(st) && Known(st) && t in st.tealets && EnvOk(st, env, id) && (isExit ==> st.cur != st.main)
    requires var x := XferInner(st, t, true, panic, isExit, delete, env, id); x.code == ErrMem || x.code == ErrDefunct
    ensures Known(XferInner(st, t, true, panic, isExit, delete, env, id).st)
    ensures var x := XferInner(st, t, true, panic, isExit, delete, env, id);
            XferInner(x.st, x.st.main, true, true, isExit, delete, env, id).st.core.alloc == st.core.alloc
  {
    hide Ready, XferInner;
    AttemptFails(st, t, panic, isExit, delete, env, id);
    XferInnerAlloc(st, t, true, panic, isExit, delete, env, id);
    var x := XferInner(st, t, true, panic, isExit, delete, env, id);
    if st.cur == st.main {
      SelfStays(x.st, isExit, delete, env, id);
    } else {
      XferInnerAlloc(x.st, x.st.main, true, true, isExit, delete, env, id);
    }
  }

  lemma ReceiveAlloc<S, T>(st: State<S, T>, code: Code)
    requires Known(st)
    ensures Receive(st, code).core.alloc == st.core.alloc
  {
  }

  lemma StartAlloc<S, T>(st: State<S, T>, t: T, v: TealetV<S, T>, r: Resume<T>, env: Env, id: S)
    requires st.cur in st.tealets
    ensures Known(SetT(SetT(st, st.cur, st.tealets[st.cur].(resume := r)), t, v)) ==>
              StartNow(st, t, v, r, env, id).st.core.alloc == st.core.alloc
    ensures Known(SetT(st, t, v).(cur := t)) ==> StartLater(st, t, v, env, id).st.core.alloc == st.core.alloc
  {
    hide SwitchStack, Known;
    var s := SetT(SetT(st, st.cur, st.tealets[st.cur].(resume := r)), t, v);
    if Known(s) { SwitchStackAlloc(s, t, env, id); }
    var s2 := SetT(st, t, v).(cur := t);
    if Known(s2) { SwitchStackAlloc(s2, st.cur, env, id); }
  }

  lemma RunAlloc<S, T>(st: State<S, T>, t: T, far: int, now: bool, env: Env, id: S)
    requires Known(st) && t in st.tealets
    ensures Run(st, t, far, now, env, id).st.core.alloc == st.core.alloc
  {
    hide StartNow, StartLater;
    var v := st.tealets[t].(far := far, flags := NO_FLAGS.(bound := true));
    if now {
      StartAlloc(Lock(st), t, v, InRun(t), env, id);
    } else {
      StartAlloc(Lock(st), t, v.(resume := NotStarted(t, st.cur)), InRun(t), env, id);
    }
  }

  lemma ForkAlloc<S, T>(st: State<S, T>, t: T, now: bool, env: Env, id: S)
    requires Known(st) && t in st.tealets
    ensures Fork(st, t, now, env, id).st.core.alloc == st.core.alloc
  {
    hide StartNow, StartLater;
    var cur := st.tealets[st.cur];
    var v := st.tealets[t].(far := cur.far,
                            flags := NO_FLAGS.(bound := true, forked := true, mainLineage := cur.flags.mainLineage));
    var r := InFork(t, st.cur, now);
    StartAlloc(Lock(st), t, if now then v else v.(resume := r), r, env, id);
  }

  /** No operation changes how the allocator will answer. */
  lemma StepAlloc<S, T>(st: State<S, T>, op: Op<S, T>)
    requires Inv(st) && Allowed(st, op)
    ensures Apply(st, op).core.alloc == st.core.alloc
  {
    hide Inv, Transfer, Finish, CallLegal, CallAlive, IntactAttempt, Run, Fork, Above, FarFits, EnvOk, Known;
    match op
    case OpRun(t, far, now, env, id) => RunAlloc(st, t, far, now, env, id);
    case OpFork(t, now, env, id) => ForkAlloc(st, t, now, env, id);
    case OpSwitch(t, force, panic, nofail, env, id) => CallAlloc(st, t, force, panic, nofail, false, false, env, id);
    case OpExit(t, delete, force, panic, nofail, env, id) => CallAlloc(st, t, force, panic, nofail, true, delete, env, id);
    case _ =>
  }

  /** While memory never runs out nobody is lost. */
  lemma {:induction false} GenerousLosesNobody<S, T>(states: seq<State<S, T>>, ops: seq<Op<S, T>>, i: nat)
    requires IsRun(states, ops) && i < |states| && Generous(states[0])
    ensures Generous(states[i])
    ensures i < |ops| ==> LostBy(states[i], ops[i]) == {}
  {
    hide Inv, Allowed, Apply, LostBy;
    if i > 0 {
      GenerousLosesNobody(states, ops, i - 1);
      RunSafe(states, ops, i - 1);
      StepAlloc(states[i - 1], ops[i - 1]);
    }
    if i < |ops| {
      GenerousStep(states[i], ops[i]);
    }
  }

  lemma GenerousStep<S, T>(st: State<S, T>, op: Op<S, T>)
    requires Allowed(st, op) && Generous(st)
    ensures LostBy(st, op) == {}
  {
    hide CallLegal, CallAlive, IntactAttempt, EnvOk, CallLosses, RunOk, ForkOk, FarFits;
    if op.OpSwitch? {
      NobodyLost(st, op.t, op.force, op.nofail, false, op.env);
    } else if op.OpExit? {
      NobodyLost(st, op.t, op.force, op.nofail, true, op.env);
    }
  }

  /** In a run during which memory never runs out nobody ever reports DEFUNCT, ... */
  lemma {:induction false} GenerousNobodyBroken<S, T>(states: seq<State<S, T>>, ops: seq<Op<S, T>>, i: nat)
    requires IsRun(states, ops) && i < |states| && Generous(states[0])
    ensures states[i].cur in states[i].tealets && Abs(states[i]).broken == {}
  {
    hide Inv, Allowed, Apply, LostBy, Abs, Seen, PStep, Generous;
    if i == 0 {
      InitialUnbroken(states[0]);
    } else {
      GenerousNobodyBroken(states, ops, i - 1);
      GenerousLosesNobody(states, ops, i - 1);
      RunRefines(states, ops, i - 1);
      BrokenAlive(states[i]);
      UnbrokenStep(Abs(states[i - 1]), Abs(states[i]), Seen(states[i - 1], ops[i - 1]));
    }
  }

  lemma InitialUnbroken<S, T>(st: State<S, T>)
    requires Initial(st)
    ensures st.cur in st.tealets && Abs(st).broken == {}
  {
    hide ImageIn;
  }

  lemma BrokenAlive<S, T>(st: State<S, T>)
    requires st.cur in st.tealets
    ensures Abs(st).broken <= Abs(st).tealets
  {
    hide ImageIn, Broken;
  }

  lemma UnbrokenStep<T>(p: Private<T>, p2: Private<T>, act: Act<T>)
    requires PStep(p, p2, act, {}) && p.broken == {} && p2.broken <= p2.tealets
    ensures p2.broken == {}
  {
    hide Prefix, Slice;
  }

  /** ... and a suspended tealet stays suspended on its stack until it is resumed or deleted. */
  lemma GenerousParks<S, T>(states: seq<State<S, T>>, ops: seq<Op<S, T>>, i: nat, j: nat, u: T)
    requires IsRun(states, ops) && i <= j < |states| && Generous(states[0])
    requires states[i].cur in states[i].tealets && u in Abs(states[i]).parked
    requires forall k :: i <= k < j ==>
               !(Seen(states[k], ops[k]).Pass? && Seen(states[k], ops[k]).to == u) && !(ops[k].OpDelete? && ops[k].t == u)
    ensures states[j].cur in states[j].tealets && u in Abs(states[j]).parked
    ensures Abs(states[j]).parked[u] == Abs(states[i]).parked[u]
  {
    hide Inv, Allowed, Apply, LostBy, Abs, Seen, Generous;
    forall k | i <= k < j ensures Spares(states[k], ops[k], u) {
      GenerousLosesNobody(states, ops, k);
    }
    ParkedStable(states, ops, i, j, u);
  }
}
