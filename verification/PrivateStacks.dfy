/** The machine the library pretends to be, in which every tealet owns its stack, and the proof that each operation of
    the shared-stack machine is one step of it. */
module PrivateStacks {
  import opened Base
  import opened StackModel
  import opened StackProofs
  import opened Growth
  import opened TransferModel
  import opened Safety
  import opened Operations
  import opened Refinement

  /* ---- the private machine ---- */

  /** `run` is the stack of the running tealet, from address 0 to its boundary; `parked` holds the whole private stack
      of every suspended tealet; `broken` are the tealets that report DEFUNCT. */
  datatype Private<!T> = Private(tealets: set<T>, cur: T, run: seq<byte>, parked: map<T, Image>, broken: set<T>)

  /** A tealet at rest keeps its stack and its status, or it is lost, and reports so. */
  ghost predicate PKeeps<T>(p: Private<T>, p2: Private<T>, u: T, lost: bool) {
    if lost then u !in p2.parked && u in p2.broken
    else
      && (u in p2.parked <==> u in p.parked)
      && (u in p.parked ==> p2.parked[u] == p.parked[u])
      && (u in p2.broken <==> u in p.broken)
  }

  /** What becomes of the tealet that stops running: it is suspended, it has exited, or it is freed as well. */
  datatype Leaving = Parked | Exited | Freed

  ghost function LeavingOf(isExit: bool, delete: bool): Leaving {
    if !isExit then Parked else if delete then Freed else Exited
  }

  /** Control passes to `t`, which finds its own stack; the tealet that was running leaves; those in `lost` are lost, and
      everybody else keeps what he has. `renewed` is a tealet without a stack that becomes NEW again. */
  ghost predicate PResume<T>(p: Private<T>, p2: Private<T>, t: T, sp: int, leaving: Leaving, renewed: Option<T>,
                             lost: set<T>) {
    && t in p.parked && p2.cur == t && t !in p2.parked && t !in p2.broken
    && |p2.run| == p.parked[t].near + |p.parked[t].bytes|
    && Slice(p2.run, p.parked[t].near, |p2.run|) == p.parked[t].bytes
    && p2.tealets == (if leaving.Freed? then p.tealets - {p.cur} else p.tealets)
    && (forall u :: u in p.tealets && u != t && u != p.cur && renewed != Some(u) ==> PKeeps(p, p2, u, u in lost))
    && (renewed.Some? ==> PRenewed(p, p2, renewed.value) && renewed.value != t)
    && PLeaves(p, p2, sp, leaving, renewed == Some(p.cur), p.cur in lost)
  }

  /** The tealet that was running is parked with everything from `sp` on, unless it exits or is lost. */
  ghost predicate PLeaves<T>(p: Private<T>, p2: Private<T>, sp: int, leaving: Leaving, renewed: bool, lost: bool) {
    if leaving.Parked? && !lost then
      p.cur in p2.parked && p2.parked[p.cur] == Image(sp, Slice(p.run, sp, |p.run|)) && p.cur !in p2.broken
    else
      p.cur !in p2.parked && (p.cur in p2.broken <==> leaving.Parked? && !renewed)
  }

  /** `c` had no stack to lose, and reports nothing from now on. */
  ghost predicate PRenewed<T>(p: Private<T>, p2: Private<T>, c: T) {
    c !in p.parked && c in p2.tealets && c !in p2.parked && c !in p2.broken
  }

  ghost predicate PStay<T>(p: Private<T>, p2: Private<T>, lost: set<T>) {
    && p2.cur == p.cur && p2.run == p.run && p2.tealets == p.tealets && p.cur !in p2.parked && p.cur !in p2.broken
    && forall u :: u in p.tealets && u != p.cur ==> PKeeps(p, p2, u, u in lost)
  }

  /** The private state of a shared-stack state. */
  ghost function Abs<S, T>(st: State<S, T>): Private<T>
    requires st.cur in st.tealets
  {
    Private(st.tealets.Keys,
            st.cur,
            Slice(st.core.mem, 0, End(st.tealets[st.cur].far, |st.core.mem|)),
            map t | t in st.tealets && ImageIn(st, t).Some? :: ImageIn(st, t).value,
            set t | t in st.tealets && Broken(st, t))
  }

  /* ---- transfers, state by state ---- */

  /** The C stack holds the private stack `img`, which ends at `end`. */
  ghost predicate InPlace<S, T>(st: State<S, T>, img: Image, end: int) {
    0 <= img.near && img.near + |img.bytes| == end && Slice(st.core.mem, img.near, end) == img.bytes
  }

  /** Control stays where it is. */
  ghost predicate Stays<S, T>(st: State<S, T>, st2: State<S, T>, lost: set<T>) {
    && st.cur in st.tealets && st2.cur == st.cur && st2.core.mem == st.core.mem
    && st2.tealets.Keys == st.tealets.Keys && st2.tealets[st.cur].far == st.tealets[st.cur].far
    && forall u :: u in st.tealets && u != st.cur ==> Kept(st, st2, u, u in lost)
  }

  /** Control passes to the suspended tealet `t`. */
  ghost predicate Resumes<S, T>(st: State<S, T>, st2: State<S, T>, t: T, sp: int, leaving: Leaving, lost: set<T>) {
    && st.cur in st.tealets && t in st.tealets && t != st.cur
    && st2.cur == t && t in st2.tealets && st2.tealets[t].far == st.tealets[t].far && ImageIn(st2, t).None?
    && |st2.core.mem| == |st.core.mem|
    && ImageIn(st, t).Some? && InPlace(st2, ImageIn(st, t).value, End(st.tealets[t].far, |st.core.mem|))
    && st2.tealets.Keys == (if leaving.Freed? then st.tealets.Keys - {st.cur} else st.tealets.Keys)
    && (forall u :: u in st.tealets && u != st.cur && u != t ==> Kept(st, st2, u, u in lost))
    && (if leaving.Parked? then Suspended(st, st2, sp, st.cur in lost)
        else ImageIn(st2, st.cur).None? && !Broken(st2, st.cur))
  }

  /** A failed attempt followed by a transfer is a transfer, and their losses add up. */
  lemma StaysResumes<S, T>(a: State<S, T>, b: State<S, T>, c: State<S, T>, t: T, sp: int, leaving: Leaving, lost: set<T>,
                           lost2: set<T>)
    requires Stays(a, b, lost) && Resumes(b, c, t, sp, leaving, lost2) && a.cur !in lost
    requires b.tealets[t].far == a.tealets[t].far
    ensures Resumes(a, c, t, sp, leaving, lost + lost2)
  {
    hide ImageOf, ImageIn, Broken;
    assert Kept(a, b, t, t in lost);
    forall u | u in a.tealets && u != a.cur && u != t ensures Kept(a, c, u, u in lost + lost2) {
      assert Kept(a, b, u, u in lost) && Kept(b, c, u, u in lost2);
    }
  }

  lemma StaysTrans<S, T>(a: State<S, T>, b: State<S, T>, c: State<S, T>, lost: set<T>, lost2: set<T>)
    requires Stays(a, b, lost) && Stays(b, c, lost2)
    ensures Stays(a, c, lost + lost2)
  {
    hide ImageOf, ImageIn, Broken;
    forall u | u in a.tealets && u != a.cur ensures Kept(a, c, u, u in lost + lost2) {
      assert Kept(a, b, u, u in lost) && Kept(b, c, u, u in lost2);
    }
  }

  /* ---- who is lost ---- */

  /** The suspended tealets whose stacks the growth step of a transfer to `t` gives up. */
  ghost function Doomed<S, T>(st: State<S, T>, t: T, failOk: bool): set<T>
    requires Known(st) && t in st.tealets
  {
    set u | u in st.tealets && u != st.cur && Dooms(st, t, failOk, u)
  }

  /** Everybody whom a transfer to `t` that takes place loses. */
  ghost function Losses<S, T>(st: State<S, T>, t: T, failOk: bool, isExit: bool): set<T>
    requires Known(st) && t in st.tealets
  {
    Doomed(st, t, failOk) + if LosesCaller(st, t, failOk, isExit) then {st.cur} else {}
  }

  /** Nobody is lost where giving up is not allowed. */
  lemma NoneDoomed<S, T>(st: State<S, T>, t: T, isExit: bool)
    requires Known(st) && t in st.tealets
    ensures Doomed(st, t, true) == {} && Losses(st, t, true, isExit) == {}
  {
  }

  lemma DoomedCong<S, T>(st: State<S, T>, st2: State<S, T>, t: T)
    requires Known(st) && Known(st2) && t in st.tealets
    requires st2.core == st.core && st2.tealets == st.tealets && st2.cur == st.cur && st2.main == st.main
    ensures forall failOk :: Doomed(st2, t, failOk) == Doomed(st, t, failOk)
    ensures forall failOk, isExit :: Losses(st2, t, failOk, isExit) == Losses(st, t, failOk, isExit)
  {
    hide Dooms, LosesCaller;
    DoomsCong(st, st2, t);
  }

  lemma MovedShape<S, T>(st: State<S, T>, t: T, env: Env, id: S)
    requires Known(st) && t in st.tealets && t != st.cur && SwitchStack(st, t, env, id).moved
    requires st.tealets[t].stack.Some?
    ensures var r := SwitchStack(st, t, env, id);
            t in r.st.tealets && r.st.tealets[t] == st.tealets[t].(stack := None)
  {
    hide SaveState, Decref, Restore;
    SaveStateFrame(st.(prev := Some(st.cur), target := Some(t)), t, env.sp, id);
  }

  /** What the save half leaves of a caller that exits. */
  lemma ExitSaves<S, T>(st: State<S, T>, t: T, sp: int, id: S)
    requires Known(st) && t in st.tealets && t != st.cur && !SaveState(st, t, sp, id).fail
    requires var f := st.tealets[st.cur].flags; f.exiting && !f.defunct
    ensures var m := SaveState(st, t, sp, id).st;
            && m.tealets.Keys == (if st.tealets[st.cur].flags.autodelete then st.tealets.Keys - {st.cur} else st.tealets.Keys)
            && (st.cur in m.tealets ==> m.tealets[st.cur].stack.None? && !m.tealets[st.cur].flags.defunct)
  {
    hide GrowFor;
  }

  /** A caller that exits leaves no stack, and no trace at all when it is freed. */
  lemma ExitedLeaves<S, T>(st: State<S, T>, x: Option<T>, t: T, env: Env, id: S)
    requires Solid(st, x) && t in st.tealets && t != st.cur && SwitchStack(st, t, env, id).moved
    requires st.tealets[st.cur].flags.exiting
    ensures var st2 := SwitchStack(st, t, env, id).st;
            && ImageIn(st2, st.cur).None? && !Broken(st2, st.cur)
            && st2.tealets.Keys == (if st.tealets[st.cur].flags.autodelete then st.tealets.Keys - {st.cur} else st.tealets.Keys)
  {
    hide SaveState, Restore, Decref, Solid, ImageOf;
    SolidBasics(st, x);
    var st1 := st.(prev := Some(st.cur), target := Some(t));
    ExitSaves(st1, t, env.sp, id) by { assert !SaveState(st1, t, env.sp, id).fail; }
    SaveStateFrame(st1, t, env.sp, id);
  }

  lemma ParkedStays<S, T>(st: State<S, T>, t: T, env: Env, id: S)
    requires Known(st) && t in st.tealets && t != st.cur && SwitchStack(st, t, env, id).moved
    requires !st.tealets[st.cur].flags.exiting
    ensures SwitchStack(st, t, env, id).st.tealets.Keys == st.tealets.Keys
  {
    hide GrowFor, Restore, Decref;
  }

  ghost function LeavingIn<S, T>(st: State<S, T>): Leaving
    requires st.cur in st.tealets
  {
    LeavingOf(st.tealets[st.cur].flags.exiting, st.tealets[st.cur].flags.autodelete)
  }

  /** A transfer that takes place, seen from the tealets. */
  lemma SwitchStackRefines<S, T>(st: State<S, T>, t: T, env: Env, id: S)
    requires Solid(st, None) && t in st.tealets && t != st.cur && st.tealets[t].flags.bound
    requires EnvOk(st, env, id) && Signals(st) && Known(st) && TargetIntact(st, t)
    requires SwitchStack(st, t, env, id).moved && st.tealets[t].stack.Some?
    ensures Resumes(st, SwitchStack(st, t, env, id).st, t, env.sp, LeavingIn(st),
                    Losses(st, t, FailOk(st), st.tealets[st.cur].flags.exiting))
  {
    hide Solid, CanReach, SwitchStack, Signals, Broken, Kept, TargetIntact, IsDefunct, Dooms, LosesCaller, Suspended;
    var r := SwitchStack(st, t, env, id);
    var isExit := st.tealets[st.cur].flags.exiting;
    var lost := Losses(st, t, FailOk(st), isExit);
    SwitchStackFrame(st, t, env, id);
    MovedShape(st, t, env, id);
    SwitchStackResumes(st, None, t, env, id);
    assert ImageNear(st, t) by { NearOk(st, t); }
    forall u | u in st.tealets && u != st.cur && u != t ensures Kept(st, r.st, u, u in lost) {
      SwitchStackKeeps(st, None, t, env, id, u);
    }
    if isExit {
      ExitedLeaves(st, None, t, env, id);
    } else {
      ParkedStays(st, t, env, id);
      SwitchStackSuspends(st, None, t, env, id);
    }
  }

  ghost predicate ImageNear<S, T>(st: State<S, T>, t: T) {
    ImageIn(st, t).Some? ==> 0 <= ImageIn(st, t).value.near
  }

  lemma NearOk<S, T>(st: State<S, T>, t: T)
    requires Solid(st, None) && t in st.tealets && t != st.cur
    ensures ImageNear(st, t)
  {
    hide Owned, MainOk, ImageOf;
    if st.tealets[t].stack.Some? {
      TargetFar(st, None, t);
    }
  }

  /* ---- one attempt, and a whole call of switch or exit ---- */

  /** A tealet at rest that a transfer accepts has a saved stack to restore. */
  lemma AcceptedHasStack<S, T>(st: State<S, T>, t: T, env: Env, id: S)
    requires Solid(st, None) && t in st.tealets && t != st.cur && st.tealets[t].flags.bound && Known(st)
    requires SwitchStack(st, t, env, id).moved
    ensures st.tealets[t].stack.Some? && !st.tealets[t].flags.exited && !IsDefunct(st, t)
  {
    hide CoreOk, MainOk, Owned, StackmanSwitch;
    assert RestOk(st, t);
  }

  lemma StageImages<S, T>(st: State<S, T>, force: bool, panic: bool, isExit: bool, delete: bool, u: T)
    requires Ready(st) && u in st.tealets
    ensures var s := Stage(st, force, panic, isExit, delete);
            && ImageIn(s, u) == ImageIn(st, u) && Broken(s, u) == Broken(st, u)
            && s.core == st.core && s.tealets.Keys == st.tealets.Keys
            && s.tealets[u].far == st.tealets[u].far && s.tealets[u].stack == st.tealets[u].stack
            && (u != st.cur ==> s.tealets[u] == st.tealets[u])
  {
    hide Solid, ImageOf;
    assert st.cur in st.tealets by { SolidCur(st, None); }
  }

  lemma ClearImages<S, T>(st: State<S, T>, t: T, u: T)
    requires t in st.tealets && u in st.tealets
    ensures var s := ClearSignals(st, t);
            && ImageIn(s, u) == ImageIn(st, u) && Broken(s, u) == Broken(st, u)
            && s.core == st.core && s.tealets.Keys == st.tealets.Keys && s.cur == st.cur
            && s.tealets[u].far == st.tealets[u].far
  {
    hide ImageOf;
  }

  /** Saved stacks may be given up: the transfer is forced, and the caller is not main. */
  ghost predicate GivesWay<S, T>(st: State<S, T>, force: bool) { force && st.cur != st.main }

  /** The signals staged for an attempt. */
  lemma StageFlags<S, T>(st: State<S, T>, force: bool, panic: bool, isExit: bool, delete: bool)
    requires Ready(st) && st.cur in st.tealets
    ensures var s := Stage(st, force, panic, isExit, delete);
            && s.cur in s.tealets && s.tealets[s.cur].flags.exiting == isExit
            && (isExit ==> s.tealets[s.cur].flags.autodelete == delete)
            && FailOk(s) == !GivesWay(st, force)
  {
    hide Solid;
  }

  /** The attempt would not damage its own target. */
  ghost predicate IntactAttempt<S, T>(st: State<S, T>, t: T, force: bool)
    requires Known(st) && t in st.tealets
  {
    t != st.cur ==> Intact(st, t, !force || st.cur == st.main)
  }

  lemma StageIntact<S, T>(st: State<S, T>, t: T, force: bool, panic: bool, isExit: bool, delete: bool)
    requires Ready(st) && Known(st) && t in st.tealets && t != st.cur && IntactAttempt(st, t, force)
    ensures Known(Stage(st, force, panic, isExit, delete)) && TargetIntact(Stage(st, force, panic, isExit, delete), t)
  {
    hide Solid, GivesUp, DroppedStillThere;
  }

  /** What a forced transfer cannot damage: a target that nobody shares, or that has left the list. */
  lemma UnsharedIntact<S, T>(st: State<S, T>, t: T, force: bool)
    requires Known(st) && t in st.tealets && st.tealets[t].stack.Some?
    requires var s := st.tealets[t].stack.value;
             st.core.stacks[s].refcount <= 1 || s !in st.core.plist || !force || st.cur == st.main
    ensures IntactAttempt(st, t, force)
  {
  }

  /** Staging an attempt changes nothing that decides who is lost. */
  lemma StageDooms<S, T>(st: State<S, T>, t: T, force: bool, panic: bool, isExit: bool, delete: bool)
    requires Ready(st) && Known(st) && t in st.tealets && t != st.cur
    ensures var s := Stage(st, force, panic, isExit, delete);
            && Known(s) && t in s.tealets
            && (forall failOk, u :: Dooms(s, t, failOk, u) == Dooms(st, t, failOk, u))
            && (forall failOk, b :: LosesCaller(s, t, failOk, b) == LosesCaller(st, t, failOk, b))
  {
    hide Solid, GivenUp, Requests;
    var s := Stage(st, force, panic, isExit, delete);
    assert s.tealets[s.main].stack == st.tealets[st.main].stack && Asked(s, t) == Asked(st, t);
  }

  lemma StageLosses<S, T>(st: State<S, T>, t: T, force: bool, panic: bool, isExit: bool, delete: bool)
    requires Ready(st) && Known(st) && t in st.tealets && t != st.cur
    ensures var s := Stage(st, force, panic, isExit, delete);
            && Known(s) && t in s.tealets
            && Doomed(s, t, FailOk(s)) == Doomed(st, t, !GivesWay(st, force))
            && Losses(s, t, FailOk(s), s.tealets[s.cur].flags.exiting) == Losses(st, t, !GivesWay(st, force), isExit)
            && LeavingIn(s) == LeavingOf(isExit, delete)
  {
    hide Solid, Dooms, LosesCaller, FailOk;
    StageDooms(st, t, force, panic, isExit, delete);
    StageFlags(st, force, panic, isExit, delete);
  }

  lemma XferResumes<S, T>(st: State<S, T>, t: T, force: bool, panic: bool, isExit: bool, delete: bool, env: Env, id: S)
    requires Ready(st) && t in st.tealets && EnvOk(st, env, id) && (isExit ==> st.cur != st.main)
    requires Known(st) && IntactAttempt(st, t, force)
    requires XferInner(st, t, force, panic, isExit, delete, env, id).moved
    ensures Resumes(st, XferInner(st, t, force, panic, isExit, delete, env, id).st, t, env.sp, LeavingOf(isExit, delete),
                    Losses(st, t, !GivesWay(st, force), isExit))
  {
    hide Solid, SwitchStack, ImageIn, Broken, Stage, TargetIntact, Signals, FailOk, IntactAttempt, Losses, LeavingIn, LeavingOf;
    SolidCur(st, None);
    var s := Stage(st, force, panic, isExit, delete);
    StageSolid(st, force, panic, isExit, delete);
    StageLosses(st, t, force, panic, isExit, delete);
    SolidBasics(s, None);
    forall u | u in st.tealets
      ensures ImageIn(s, u) == ImageIn(st, u) && Broken(s, u) == Broken(st, u)
      ensures u in s.tealets && s.tealets[u].far == st.tealets[u].far && (u != st.cur ==> s.tealets[u] == st.tealets[u])
      ensures s.core == st.core && s.tealets.Keys == st.tealets.Keys
    {
      StageImages(st, force, panic, isExit, delete, u);
    }
    AcceptedHasStack(s, t, env, id);
    StageIntact(st, t, force, panic, isExit, delete);
    SwitchStackRefines(s, t, env, id);
    var r := SwitchStack(s, t, env, id);
    var lost := Losses(st, t, !GivesWay(st, force), isExit);
    forall u | u in st.tealets && u != st.cur && u != t ensures Kept(st, r.st, u, u in lost) {
      assert Kept(s, r.st, u, u in lost);
    }
  }

  /** What a caller of a forced transfer can rely on: a target that nobody shares, or that is not listed, finds its stack as
      it left it, whatever the allocator answers. */
  lemma UnsharedResumes<S, T>(st: State<S, T>, t: T, force: bool, panic: bool, isExit: bool, delete: bool, env: Env, id: S)
    requires Ready(st) && Known(st) && t in st.tealets && EnvOk(st, env, id) && (isExit ==> st.cur != st.main)
    requires XferInner(st, t, force, panic, isExit, delete, env, id).moved && st.tealets[t].stack.Some?
    requires var s := st.tealets[t].stack.value;
             st.core.stacks[s].refcount <= 1 || s !in st.core.plist || !force || st.cur == st.main
    ensures Resumes(st, XferInner(st, t, force, panic, isExit, delete, env, id).st, t, env.sp, LeavingOf(isExit, delete),
                    Losses(st, t, !GivesWay(st, force), isExit))
  {
    hide Ready, XferInner, Resumes, IntactAttempt, GivesWay;
    UnsharedIntact(st, t, force);
    XferResumes(st, t, force, panic, isExit, delete, env, id);
  }

  /** Whom an attempt that does not go through loses: only one that gets as far as growing the list loses anybody. */
  ghost function FailedLosses<S, T>(st: State<S, T>, t: T, force: bool, env: Env): set<T>
    requires Known(st) && t in st.tealets
  {
    if Accepts(st, t, env) then Doomed(st, t, !GivesWay(st, force)) else {}
  }

  lemma XferStays<S, T>(st: State<S, T>, t: T, force: bool, panic: bool, isExit: bool, delete: bool, env: Env, id: S)
    requires Ready(st) && t in st.tealets && EnvOk(st, env, id) && (isExit ==> st.cur != st.main)
    requires Known(st) && !XferInner(st, t, force, panic, isExit, delete, env, id).moved
    ensures Stays(st, XferInner(st, t, force, panic, isExit, delete, env, id).st, FailedLosses(st, t, force, env))
  {
    hide Solid, SwitchStack, Stage, Signals, FailOk, ImageOf, FailedLosses;
    SolidCur(st, None);
    XferStayFrame(st, t, force, panic, isExit, delete, env, id);
    var x := XferInner(st, t, force, panic, isExit, delete, env, id);
    XferInnerCur(st, t, force, panic, isExit, delete, env, id);
    var lost := FailedLosses(st, t, force, env);
    forall u | u in st.tealets && u != st.cur ensures Kept(st, x.st, u, u in lost) {
      XferStayKept(st, t, force, panic, isExit, delete, env, id, u);
    }
  }

  lemma XferInnerCur<S, T>(st: State<S, T>, t: T, force: bool, panic: bool, isExit: bool, delete: bool, env: Env, id: S)
    requires Ready(st) && t in st.tealets && (isExit ==> st.cur != st.main) && Known(st)
    ensures var x := XferInner(st, t, force, panic, isExit, delete, env, id); x.st.cur == (if x.moved then t else st.cur)
  {
    hide Solid, SwitchStack;
    if t != st.cur {
      var s := Stage(st, force, panic, isExit, delete);
      StageSolid(st, force, panic, isExit, delete);
      SolidBasics(s, None);
      SwitchStackFrame(s, t, env, id);
    }
  }

  lemma XferStayKept<S, T>(st: State<S, T>, t: T, force: bool, panic: bool, isExit: bool, delete: bool, env: Env, id: S,
                           u: T)
    requires Ready(st) && t in st.tealets && EnvOk(st, env, id) && (isExit ==> st.cur != st.main)
    requires Known(st) && !XferInner(st, t, force, panic, isExit, delete, env, id).moved
    requires u in st.tealets && u != st.cur
    ensures Kept(st, XferInner(st, t, force, panic, isExit, delete, env, id).st, u, u in FailedLosses(st, t, force, env))
  {
    hide Solid, SwitchStack, Stage, Signals, FailOk, ImageIn, Broken, Dooms, LosesCaller, GivesWay, IsDefunct;
    var x := XferInner(st, t, force, panic, isExit, delete, env, id);
    SolidCur(st, None);
    if !st.tealets[t].flags.bound || t == st.cur {
      ImageCong(st, x.st, u);
    } else {
      var s := Stage(st, force, panic, isExit, delete);
      StageSolid(st, force, panic, isExit, delete);
      StageFlags(st, force, panic, isExit, delete);
      StageImages(st, force, panic, isExit, delete, u);
      StageImages(st, force, panic, isExit, delete, t);
      StageDooms(st, t, force, panic, isExit, delete);
      SolidBasics(s, None);
      SwitchStackStays(s, None, t, env, id, u);
      StayCode(st, s, t, env, id);
      var r := SwitchStack(s, t, env, id);
      StayFrame(s, None, t, env, id);
      ClearImages(r.st, st.cur, u);
    }
  }

  /** A transfer that does not go through runs out of memory exactly when nothing else speaks against it. */
  lemma StayCode<S, T>(st: State<S, T>, s: State<S, T>, t: T, env: Env, id: S)
    requires Known(st) && Known(s) && t in st.tealets && t != st.cur && st.tealets[t].flags.bound
    requires s.core == st.core && t in s.tealets && s.tealets[t] == st.tealets[t] && !SwitchStack(s, t, env, id).moved
    ensures SwitchStack(s, t, env, id).code == ErrMem <==> Accepts(st, t, env)
  {
    hide SaveState, RestoreState;
  }

  lemma SaveStateFar<S, T>(st: State<S, T>, t: T, sp: int, id: S, u: T)
    requires Known(st) && t in st.tealets && u in st.tealets && u in SaveState(st, t, sp, id).st.tealets
    ensures SaveState(st, t, sp, id).st.tealets[u].far == st.tealets[u].far
  {
    hide GrowFor, SaveTo, Link;
  }

  /** No transfer moves a boundary. */
  lemma FarKept<S, T>(st: State<S, T>, t: T, env: Env, id: S, u: T)
    requires Known(st) && t in st.tealets && t != st.cur && u in st.tealets
    requires u in SwitchStack(st, t, env, id).st.tealets
    ensures SwitchStack(st, t, env, id).st.tealets[u].far == st.tealets[u].far
  {
    hide SaveState, Restore, Decref;
    var st1 := st.(prev := Some(st.cur), target := Some(t));
    SaveStateFrame(st1, t, env.sp, id);
    if u in SaveState(st1, t, env.sp, id).st.tealets {
      SaveStateFar(st1, t, env.sp, id, u);
    }
  }

  lemma XferFar<S, T>(st: State<S, T>, t: T, force: bool, panic: bool, isExit: bool, delete: bool, env: Env, id: S, u: T)
    requires Ready(st) && t in st.tealets && u in st.tealets && (isExit ==> st.cur != st.main) && Known(st)
    requires u in XferInner(st, t, force, panic, isExit, delete, env, id).st.tealets
    ensures XferInner(st, t, force, panic, isExit, delete, env, id).st.tealets[u].far == st.tealets[u].far
  {
    hide Solid, SwitchStack;
    if t != st.cur && st.tealets[t].flags.bound {
      var s := Stage(st, force, panic, isExit, delete);
      StageSolid(st, force, panic, isExit, delete);
      SolidBasics(s, None);
      var r := SwitchStack(s, t, env, id);
      if u in r.st.tealets {
        FarKept(s, t, env, id, u);
      }
    }
  }

  /** A forced transfer to main does not damage main, which never shares its stack. */
  lemma MainIntact<S, T>(st: State<S, T>)
    requires Ready(st) && Known(st)
    ensures IntactAttempt(st, st.main, true)
  {
    hide RestOk, Owned, CoreOk, RunnerOk;
  }

  lemma MainReach<S, T>(st: State<S, T>)
    requires Solid(st, None) && st.main != st.cur
    ensures Known(st) && CanReach(st, None, st.main)
  {
    hide Owned, CoreOk;
  }
}
