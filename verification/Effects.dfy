/** What an operation leaves besides stacks, told from the operation and the state before it: the codes it answers with, who
    the previous tealet is, and the binding of every tealet, which status, origin and boundary are read from. */
module Effects {
  import opened Base
  import opened StackModel
  import opened StackProofs
  import opened Growth
  import opened TransferModel
  import opened Safety
  import opened Operations
  import opened Refinement
  import opened PrivateStacks
  import opened Calls
  import opened Spawning
  import opened Machine

  /* ---- bindings ---- */

  /** What a tealet is bound to: its boundary, whether it has been bound and whether it has exited, and its origin. */
  datatype Binding = Binding(far: int, bound: bool, exited: bool, forked: bool, mainLineage: bool)

  /** A NEW tealet. */
  const UNBOUND: Binding := Binding(0, false, false, false, false)

  ghost function BindingOf<S, T>(v: TealetV<S, T>): Binding {
    Binding(v.far, v.flags.bound, v.flags.exited, v.flags.forked, v.flags.mainLineage)
  }

  /** What one transfer from `cur` does to the bindings and frames: nothing, but that a caller may have exited. */
  ghost predicate BindingsKept<S, T>(st: State<S, T>, st2: State<S, T>, exits: bool) {
    forall u :: u in st2.tealets ==>
      && u in st.tealets
      && (if u == st.cur && exits then BindingOf(st2.tealets[u]) == BindingOf(st.tealets[u]).(exited := true)
          else BindingOf(st2.tealets[u]) == BindingOf(st.tealets[u]))
      && st2.tealets[u].resume == st.tealets[u].resume
  }

  lemma BindingsTrans<S, T>(a: State<S, T>, b: State<S, T>, c: State<S, T>, exits: bool)
    requires BindingsKept(a, b, false) && BindingsKept(b, c, exits) && b.cur == a.cur
    ensures BindingsKept(a, c, exits)
  {
    hide BindingOf;
  }

  /** Bindings and frames depend on the tealets only. */
  lemma BindingsCong<S, T>(a: State<S, T>, b: State<S, T>, a2: State<S, T>, b2: State<S, T>, exits: bool)
    requires BindingsKept(a, b, exits) && a2.tealets == a.tealets && a2.cur == a.cur && b2.tealets == b.tealets
    ensures BindingsKept(a2, b2, exits)
  {
    hide BindingOf;
  }

  lemma ExitBindings<S, T>(st: State<S, T>)
    requires st.cur in st.tealets
    ensures BindingsKept(st, ExitCurrent(st), true)
    ensures ExitCurrent(st).prev
            == if st.tealets[st.cur].flags.autodelete && st.prev == Some(st.cur) then None else st.prev
  {
  }

  lemma OwnBindings<S, T>(st: State<S, T>, sp: int, stop: int, failOk: bool, id: S)
    requires st.cur in st.tealets
    ensures var m := SaveCurrent(st, sp, stop, failOk, id); BindingsKept(st, m.st, false) && m.st.prev == st.prev
  {
    hide SaveTo, Link;
  }

  lemma SignalBindings<S, T>(st: State<S, T>, c: Core<S>)
    requires st.cur in st.tealets
    ensures var v := st.tealets[st.cur];
            BindingsKept(st, SetT(st, st.cur, v.(flags := v.flags.(saveforce := false))).(core := c), false)
  {
  }

  lemma SaveBindings<S, T>(st: State<S, T>, t: T, sp: int, id: S)
    requires Known(st) && t in st.tealets && t != st.cur
    ensures var m := SaveState(st, t, sp, id); var f := st.tealets[st.cur].flags;
            && BindingsKept(st, m.st, !m.fail && f.exiting)
            && m.st.prev == (if !m.fail && f.exiting && f.autodelete && st.prev == Some(st.cur) then None else st.prev)
  {
    hide GrowFor, BindingsKept, ExitCurrent, SaveCurrent, FailOk;
    var v, c := st.tealets[st.cur], GrowFor(st, t).core;
    var st1 := SetT(st, st.cur, v.(flags := v.flags.(saveforce := false))).(core := c);
    SignalBindings(st, c);
    ExitBindings(st1);
    OwnBindings(st1, sp, st.tealets[t].far, FailOk(st), id);
    BindingsTrans(st, st1, SaveCurrent(st1, sp, st.tealets[t].far, FailOk(st), id).st, false);
    BindingsTrans(st, st1, ExitCurrent(st1), true);
  }

  lemma RestoreBindings<S, T>(st: State<S, T>, t: T)
    requires t in st.tealets && st.tealets[t].stack.Some? && st.tealets[t].stack.value in st.core.stacks
    ensures BindingsKept(st, RestoreState(st, t), false) && RestoreState(st, t).prev == st.prev
    ensures RestoreState(st, t).tealets.Keys == st.tealets.Keys
  {
    hide Restore, Decref;
  }

  /** After a transfer the previous tealet is its caller, unless that was freed; a transfer that does not take place leaves
      it alone. */
  lemma SwitchBindings<S, T>(st: State<S, T>, t: T, env: Env, id: S)
    requires Known(st) && t in st.tealets && t != st.cur
    ensures var r := SwitchStack(st, t, env, id); var f := st.tealets[st.cur].flags;
            && BindingsKept(st, r.st, r.moved && f.exiting)
            && r.st.prev == (if !r.moved then st.prev else if f.exiting && f.autodelete then None else Some(st.cur))
  {
    hide SaveState, RestoreState, BindingsKept, IsDefunct, MarkDefunct;
    var f := st.tealets[st.cur].flags;
    var st1 := st.(prev := Some(st.cur), target := Some(t));
    var m, r := SaveState(st1, t, env.sp, id), SwitchStack(st, t, env, id);
    SaveBindings(st1, t, env.sp, id);
    SaveStateFrame(st1, t, env.sp, id);
    RefusedBindings(st, t);
    if r.moved || r.code == ErrMem {
      if !m.fail && m.st.tealets[t].stack.Some? {
        RestoreBindings(m.st, t);
        BindingsRestored(st1, m.st, RestoreState(m.st, t), f.exiting);
        BindingsCong(st1, RestoreState(m.st, t), st, r.st, f.exiting);
      } else {
        BindingsCong(st1, m.st, st, r.st, !m.fail && f.exiting);
      }
    }
  }

  lemma BindingsRestored<S, T>(a: State<S, T>, b: State<S, T>, c: State<S, T>, exits: bool)
    requires BindingsKept(a, b, exits) && BindingsKept(b, c, false)
    ensures BindingsKept(a, c, exits)
  {
    hide BindingOf;
  }

  /** A refusal changes no binding. */
  lemma RefusedBindings<S, T>(st: State<S, T>, t: T)
    requires t in st.tealets
    ensures forall p :: BindingsKept(st, st.(panic := p), false) && BindingsKept(st, MarkDefunct(st, t).(panic := p), false)
    ensures MarkDefunct(st, t).prev == st.prev
  {
  }

  /* ---- one attempt, and a whole call ---- */

  /** The same for a call, whose caller goes on at `frame`. */
  ghost predicate CallLeaves<S, T>(st: State<S, T>, st2: State<S, T>, exits: bool, frame: Resume<T>) {
    forall u :: u in st2.tealets ==>
      && u in st.tealets
      && (if u == st.cur && exits then BindingOf(st2.tealets[u]) == BindingOf(st.tealets[u]).(exited := true)
          else BindingOf(st2.tealets[u]) == BindingOf(st.tealets[u]))
      && st2.tealets[u].resume == (if u == st.cur then frame else st.tealets[u].resume)
  }

  /** A switch away leaves the frame of tealet_switch, with its own tealet in it. */
  ghost function FrameLeft<S, T>(st: State<S, T>, t: T, isExit: bool): Resume<T>
    requires st.cur in st.tealets && t in st.tealets
  {
    if st.tealets[t].flags.bound && t != st.cur && !isExit then InSwitch(st.cur) else st.tealets[st.cur].resume
  }

  lemma StageLeaves<S, T>(st: State<S, T>, t: T, force: bool, panic: bool, isExit: bool, delete: bool)
    requires st.cur in st.tealets && t in st.tealets && st.tealets[t].flags.bound && t != st.cur
    ensures CallLeaves(st, Stage(st, force, panic, isExit, delete), false, FrameLeft(st, t, isExit))
  {
  }

  lemma ClearLeaves<S, T>(st: State<S, T>, u: T)
    requires u in st.tealets
    ensures BindingsKept(st, ClearSignals(st, u), false) && ClearSignals(st, u).cur == st.cur
  {
  }

  lemma LeavesKept<S, T>(a: State<S, T>, b: State<S, T>, c: State<S, T>, exits: bool, exits2: bool, frame: Resume<T>)
    requires CallLeaves(a, b, exits, frame) && BindingsKept(b, c, exits2) && !(exits && exits2) && (exits2 ==> b.cur == a.cur)
    ensures CallLeaves(a, c, exits || exits2, frame)
  {
    hide BindingOf;
  }

  lemma StagedLeaves<S, T>(st: State<S, T>, t: T, force: bool, panic: bool, isExit: bool, delete: bool, b: State<S, T>,
                           exits: bool)
    requires st.cur in st.tealets && t in st.tealets && st.tealets[t].flags.bound && t != st.cur
    requires BindingsKept(Stage(st, force, panic, isExit, delete), b, exits)
    ensures CallLeaves(st, b, exits, FrameLeft(st, t, isExit))
    ensures st.cur in b.tealets ==> CallLeaves(st, ClearSignals(b, st.cur), exits, FrameLeft(st, t, isExit))
  {
    hide CallLeaves, BindingsKept;
    var s, frame := Stage(st, force, panic, isExit, delete), FrameLeft(st, t, isExit);
    StageLeaves(st, t, force, panic, isExit, delete);
    LeavesKept(st, s, b, false, exits, frame);
    if st.cur in b.tealets {
      ClearLeaves(b, st.cur);
      LeavesKept(st, b, ClearSignals(b, st.cur), exits, false, frame);
    }
  }

  lemma SelfLeaves<S, T>(st: State<S, T>)
    requires st.cur in st.tealets
    ensures forall p :: CallLeaves(st, st.(prev := p), false, st.tealets[st.cur].resume)
  {
  }

  lemma AttemptLeaves<S, T>(st: State<S, T>, t: T, force: bool, panic: bool, isExit: bool, delete: bool, env: Env, id: S)
    requires Ready(st) && Known(st) && t in st.tealets && (isExit ==> st.cur != st.main)
    ensures var x := XferInner(st, t, force, panic, isExit, delete, env, id);
            && CallLeaves(st, x.st, x.moved && isExit, FrameLeft(st, t, isExit))
            && x.st.prev == (if x.moved then (if isExit && delete then None else Some(st.cur))
                             else if t == st.cur && !isExit then Some(st.cur) else st.prev)
  {
    hide Solid, SwitchStack, BindingsKept, CallLeaves, FailOk;
    SolidCur(st, None);
    SelfLeaves(st);
    assert st.(prev := st.prev) == st;
    if st.tealets[t].flags.bound && t != st.cur {
      var s := Stage(st, force, panic, isExit, delete);
      StageSolid(st, force, panic, isExit, delete);
      StageFlags(st, force, panic, isExit, delete);
      SolidBasics(s, None);
      SwitchBindings(s, t, env, id);
      SwitchStackFrame(s, t, env, id);
      var r := SwitchStack(s, t, env, id);
      StagedLeaves(st, t, force, panic, isExit, delete, r.st, r.moved && isExit);
    } else {
      RunnerBound(st);
    }
  }

  lemma RunnerBound<S, T>(st: State<S, T>)
    requires Ready(st)
    ensures st.cur in st.tealets && st.tealets[st.cur].flags.bound && !st.tealets[st.cur].flags.exited
  {
    hide CoreOk, RestOk, MainOk, Owned, Known;
  }

  lemma LeavesTrans<S, T>(a: State<S, T>, b: State<S, T>, c: State<S, T>, exits: bool, frame: Resume<T>, frame2: Resume<T>)
    requires CallLeaves(a, b, false, frame) && CallLeaves(b, c, exits, frame2) && b.cur == a.cur
    ensures CallLeaves(a, c, exits, frame2)
  {
    hide BindingOf;
  }

  /** A call in which the running tealet switches to itself: it is the target, or main falls back to main. */
  ghost predicate SelfSwitch<S, T>(st: State<S, T>, t: T, nofail: bool, isExit: bool, env: Env)
    requires Known(st) && t in st.tealets
  {
    && !isExit
    && (t == st.cur
        || (nofail && st.cur == st.main
            && (FindsDefunct(st, t) || (Accepts(st, t, env) && !HasMemory(st, t, true, false)))))
  }

  /** Who the previous tealet is after a call. */
  ghost function PrevAfterCall<S, T>(st: State<S, T>, t: T, c: Course<T>, nofail: bool, isExit: bool, delete: bool, env: Env)
    : Option<T>
    requires Known(st) && t in st.tealets
  {
    if c.Leave? then (if isExit && delete then None else Some(st.cur))
    else if SelfSwitch(st, t, nofail, isExit, env) then Some(st.cur)
    else st.prev
  }

  /** What a call leaves of the tealets: a switch that goes through suspends its caller in the frame of tealet_switch, one
      that stays may have left it behind. */
  ghost predicate TransferLeaves<S, T>(st: State<S, T>, x: Xfer<S, T>, isExit: bool)
    requires st.cur in st.tealets
  {
    var frame := if x.moved && !isExit then InSwitch(st.cur)
                 else if st.cur in x.st.tealets && !x.moved then x.st.tealets[st.cur].resume else st.tealets[st.cur].resume;
    CallLeaves(st, x.st, x.moved && isExit, frame)
  }

  /** A whole call: the previous tealet is its caller exactly when control leaves it or stays by a switch to itself, unless the
      caller is freed; no binding changes, but that a caller that exits has exited. */
  lemma CallEffects<S, T>(st: State<S, T>, t: T, force: bool, panic: bool, nofail: bool, isExit: bool, delete: bool,
                          env: Env, id: S)
    requires Ready(st) && Known(st) && t in st.tealets && EnvOk(st, env, id) && (isExit ==> st.cur != st.main)
    ensures var x := Transfer(st, t, force, panic, nofail, isExit, delete, env, id);
            && TransferLeaves(st, x, isExit)
            && x.st.prev == PrevAfterCall(st, t, CourseOf(st, t, force, panic, nofail, isExit, env), nofail, isExit, delete, env)
  {
    hide Ready, XferInner, CallLeaves, TransferLeaves, HasMemory, Asked, FallbackAsked, IsDefunct, EnvOk, Accepts, FindsDefunct;
    KnownCur(st);
    var x := XferInner(st, t, force || nofail, panic, isExit, delete, env, id);
    AttemptLeaves(st, t, force || nofail, panic, isExit, delete, env, id);
    AttemptGoes(st, t, force || nofail, panic, isExit, delete, env, id);
    CallCourse(st, t, force, panic, nofail, isExit, delete, env, id);
    MovedFrame(st, t, force || nofail, panic, isExit, delete, env, id);
    LeavesIs(st, x, isExit, FrameLeft(st, t, isExit));
    if nofail && (x.code == ErrMem || x.code == ErrDefunct) {
      AttemptFails(st, t, panic, isExit, delete, env, id);
      RetryEffects(st, t, panic, isExit, delete, env, id);
      RetryIsSelf(st, t, x.code, isExit, env);
    } else {
      assert SelfSwitch(st, t, nofail, isExit, env) <==> t == st.cur && !isExit by {
        if nofail && st.cur == st.main && !isExit { NoSelf(st, t, x.code, env); }
      }
    }
  }

  /** Main falls back to main exactly when its first attempt runs out of memory or finds its target defunct. */
  lemma RetryIsSelf<S, T>(st: State<S, T>, t: T, code: Code, isExit: bool, env: Env)
    requires Known(st) && t in st.tealets && (code == ErrMem || code == ErrDefunct) && (isExit ==> st.cur != st.main)
    requires code == ErrMem <==> Accepts(st, t, env) && !HasMemory(st, t, st.cur == st.main, isExit)
    requires code == ErrDefunct <==> FindsDefunct(st, t)
    ensures SelfSwitch(st, t, true, isExit, env) <==> st.cur == st.main
  {
    hide HasMemory, IsDefunct;
  }

  lemma NoSelf<S, T>(st: State<S, T>, t: T, code: Code, env: Env)
    requires Known(st) && t in st.tealets && code != ErrMem && code != ErrDefunct
    requires code == ErrMem <==> Accepts(st, t, env) && !HasMemory(st, t, true, false)
    requires code == ErrDefunct <==> FindsDefunct(st, t)
    ensures SelfSwitch(st, t, true, false, env) ==> t == st.cur
  {
    hide HasMemory, IsDefunct;
  }

  lemma RetryEffects<S, T>(st: State<S, T>, t: T, panic: bool, isExit: bool, delete: bool, env: Env, id: S)
    requires Ready(st) && Known(st) && t in st.tealets && EnvOk(st, env, id) && (isExit ==> st.cur != st.main)
    requires var x := XferInner(st, t, true, panic, isExit, delete, env, id); x.code == ErrMem || x.code == ErrDefunct
    ensures Known(XferInner(st, t, true, panic, isExit, delete, env, id).st)
    ensures var x := XferInner(st, t, true, panic, isExit, delete, env, id);
            var y := XferInner(x.st, x.st.main, true, true, isExit, delete, env, id);
            && TransferLeaves(st, y, isExit)
            && y.st.prev == (if y.moved then (if isExit && delete then None else Some(st.cur))
                             else if st.cur == st.main then Some(st.cur) else st.prev)
  {
    hide Ready, XferInner, CallLeaves, TransferLeaves, HasMemory, IsDefunct, EnvOk, Accepts, FindsDefunct;
    KnownCur(st);
    var x := XferInner(st, t, true, panic, isExit, delete, env, id);
    AttemptFails(st, t, panic, isExit, delete, env, id);
    AttemptLeaves(st, t, true, panic, isExit, delete, env, id);
    AttemptGoes(st, t, true, panic, isExit, delete, env, id);
    assert t != st.cur by { AcceptedApart(st, t, env); }
    var y := XferInner(x.st, x.st.main, true, true, isExit, delete, env, id);
    var frame := x.st.tealets[st.cur].resume;
    SameFrame(st, x.st, FrameLeft(st, t, isExit));
    RunnerBound(st);
    if st.cur == st.main {
      SelfAttempt(x.st, isExit, delete, env, id);
      SelfLeaves(x.st);
      LeavesTrans(st, x.st, y.st, false, FrameLeft(st, t, isExit), frame);
      LeavesIs(st, y, isExit, frame);
    } else {
      AttemptLeaves(x.st, x.st.main, true, true, isExit, delete, env, id);
      MovedFrame(x.st, x.st.main, true, true, isExit, delete, env, id);
      LeavesTrans(st, x.st, y.st, y.moved && isExit, FrameLeft(st, t, isExit), FrameLeft(x.st, x.st.main, isExit));
      LeavesIs(st, y, isExit, FrameLeft(x.st, x.st.main, isExit));
    }
  }

  lemma AcceptedApart<S, T>(st: State<S, T>, t: T, env: Env)
    requires Known(st) && t in st.tealets
    ensures Accepts(st, t, env) || FindsDefunct(st, t) ==> t != st.cur
  {
  }

  lemma SameFrame<S, T>(st: State<S, T>, st2: State<S, T>, frame: Resume<T>)
    requires CallLeaves(st, st2, false, frame) && st2.cur == st.cur && st.cur in st2.tealets
    ensures st.cur in st.tealets && st2.tealets[st.cur].resume == frame
    ensures st2.tealets[st.cur].flags.bound == st.tealets[st.cur].flags.bound
  {
  }

  lemma LeavesIs<S, T>(st: State<S, T>, x: Xfer<S, T>, isExit: bool, frame: Resume<T>)
    requires st.cur in st.tealets && CallLeaves(st, x.st, x.moved && isExit, frame)
    requires x.moved ==> frame == if isExit then st.tealets[st.cur].resume else InSwitch(st.cur)
    ensures TransferLeaves(st, x, isExit)
  {
    hide BindingOf;
  }

  lemma SelfAttempt<S, T>(st: State<S, T>, isExit: bool, delete: bool, env: Env, id: S)
    requires Known(st) && st.tealets[st.cur].flags.bound && !isExit
    ensures var y := XferInner(st, st.cur, true, true, isExit, delete, env, id);
            y.st == st.(prev := Some(st.cur)) && !y.moved && y.code == ErrPanic
  {
  }

  lemma MovedFrame<S, T>(st: State<S, T>, t: T, force: bool, panic: bool, isExit: bool, delete: bool, env: Env, id: S)
    requires Known(st) && t in st.tealets
    ensures XferInner(st, t, force, panic, isExit, delete, env, id).moved ==>
              FrameLeft(st, t, isExit) == if isExit then st.tealets[st.cur].resume else InSwitch(st.cur)
  {
    hide SwitchStack;
  }

  /* ---- run and fork ---- */

  /** What a binding leaves: the tealet bound as `v`, or NEW again; nobody else's binding changes, and of the frames at most
      that of the creator. */
  ghost predicate StartLeaves<S, T>(st: State<S, T>, st2: State<S, T>, t: T, v: TealetV<S, T>, goes: bool, r: Option<Resume<T>>) {
    && t in st2.tealets && st.cur in st2.tealets && st.cur != t
    && BindingOf(st2.tealets[t]) == (if goes then BindingOf(v) else UNBOUND)
    && (goes ==> st2.tealets[t].resume == v.resume && (r.Some? ==> st2.tealets[st.cur].resume == r.value))
    && forall u :: u in st2.tealets && u != t ==>
         && u in st.tealets && BindingOf(st2.tealets[u]) == BindingOf(st.tealets[u])
         && (u != st.cur ==> st2.tealets[u].resume == st.tealets[u].resume)
  }

  lemma NowEffects<S, T>(st: State<S, T>, t: T, v: TealetV<S, T>, r: Resume<T>, env: Env, id: S)
    requires Ready(st) && Known(st) && Binds(st, t, v) && EnvOk(st, env, id)
    requires st.cur in st.tealets && Known(SetT(SetT(st, st.cur, st.tealets[st.cur].(resume := r)), t, v))
    ensures var x := StartNow(st, t, v, r, env, id); var goes := StartsNow(st, v.far, env);
            && StartLeaves(st, x.st, t, v, goes, Some(r)) && x.st.prev == (if goes then Some(st.cur) else st.prev)
  {
    hide Solid, SwitchStack, Known, StartsNow;
    var s := SetT(SetT(st, st.cur, st.tealets[st.cur].(resume := r)), t, v);
    NewIsFree(st, t);
    StartNowGoes(st, t, v, r, env, id);
    StartNowSafe(st, t, v, r, env, id);
    SwitchStackFrame(s, t, env, id);
    SwitchBindings(s, t, env, id);
    NowAlive(st, t, v, r, env, id);
  }

  lemma NowAlive<S, T>(st: State<S, T>, t: T, v: TealetV<S, T>, r: Resume<T>, env: Env, id: S)
    requires Ready(st) && Known(st) && Binds(st, t, v) && EnvOk(st, env, id)
    requires st.cur in st.tealets && Known(SetT(SetT(st, st.cur, st.tealets[st.cur].(resume := r)), t, v))
    ensures var y := SwitchStack(SetT(SetT(st, st.cur, st.tealets[st.cur].(resume := r)), t, v), t, env, id).st;
            t in y.tealets && st.cur in y.tealets
  {
    hide Solid, SwitchStack, Known, Kept, Suspended;
    var s := SetT(SetT(st, st.cur, st.tealets[st.cur].(resume := r)), t, v);
    NewIsFree(st, t);
    if SwitchStack(s, t, env, id).moved {
      StartNowMoves(st, t, v, r, env, id);
    } else {
      StartNowStays(st, t, v, r, env, id);
    }
  }

  lemma LaterEffects<S, T>(st: State<S, T>, t: T, v: TealetV<S, T>, env: Env, id: S)
    requires Ready(st) && Known(st) && Binds(st, t, v)
    ensures Known(SetT(st, t, v).(cur := t))
    ensures var x := StartLater(st, t, v, env, id); var goes := StartsLater(st, env);
            && StartLeaves(st, x.st, t, v, goes, None) && x.st.prev == st.prev
  {
    hide Solid, SwitchStack, Known, StartsLater;
    NewIsFree(st, t);
    StandInKnown(st, t, v);
    var s := SetT(st, t, v).(cur := t);
    StartLaterGoes(st, t, v, env, id);
    SwitchStackFrame(s, st.cur, env, id);
    SwitchBindings(s, st.cur, env, id);
    LaterAlive(st, t, v, env, id);
  }

  lemma LaterAlive<S, T>(st: State<S, T>, t: T, v: TealetV<S, T>, env: Env, id: S)
    requires Ready(st) && Known(st) && Binds(st, t, v) && Known(SetT(st, t, v).(cur := t))
    ensures var y := SwitchStack(SetT(st, t, v).(cur := t), st.cur, env, id).st; t in y.tealets && st.cur in y.tealets
  {
    hide Solid, SwitchStack, Known;
    NewIsFree(st, t);
    StandInKnown(st, t, v);
    var s := SetT(st, t, v).(cur := t);
    if SwitchStack(s, st.cur, env, id).moved {
      ParkedStays(s, st.cur, env, id);
    } else {
      RefusedStays(s, st.cur, env, id);
    }
  }

  lemma RefusedStays<S, T>(st: State<S, T>, t: T, env: Env, id: S)
    requires Known(st) && t in st.tealets && !SwitchStack(st, t, env, id).moved
    ensures SwitchStack(st, t, env, id).st.tealets.Keys == st.tealets.Keys
  {
    hide GrowFor, RestoreState;
  }

  /* ---- every operation ---- */

  /** A run or fork that gets as far as binding its tealet. */
  ghost predicate Attempts<S, T>(st: State<S, T>, op: Op<S, T>)
    requires Allowed(st, op)
  {
    match op
    case OpRun(t, _, _, _, _) => st.tealets[t].flags == NO_FLAGS
    case OpFork(t, _, _, _) => st.tealets[t].flags == NO_FLAGS && st.tealets[st.cur].far != FURTHEST
    case _ => false
  }

  /** Who the previous tealet is after an operation. */
  ghost function PrevAfter<S, T>(st: State<S, T>, op: Op<S, T>): Option<T>
    requires Allowed(st, op)
  {
    match op
    case OpSwitch(t, force, panic, nofail, env, _) =>
      PrevAfterCall(st, t, CourseOf(st, t, force, panic, nofail, false, env), nofail, false, false, env)
    case OpExit(t, delete, force, panic, nofail, env, _) =>
      PrevAfterCall(st, t, CourseOf(st, t, force, panic, nofail, true, env), nofail, true, delete, env)
    case OpDelete(t) => if st.prev == Some(t) then None else st.prev
    case _ => if Seen(st, op).Begin? then Some(st.cur) else st.prev
  }

  /** The binding of `u` after an operation. */
  ghost function BindingAfter<S, T>(st: State<S, T>, op: Op<S, T>, u: T): Binding
    requires Allowed(st, op)
  {
    var act := Seen(st, op);
    if u !in st.tealets then
      if act.Copy? then BindingOf(st.tealets[op.t]) else UNBOUND
    else if (act.Pass? && act.renewed == Some(u)) || (Attempts(st, op) && act.Stay? && op.t == u) then UNBOUND
    else if (act.Begin? || act.BeginParked?) && act.t == u then
      Binding(act.far, true, false, op.OpFork?, op.OpFork? && st.tealets[st.cur].flags.mainLineage)
    else if act.Pass? && act.leaving == Exited && u == st.cur then BindingOf(st.tealets[u]).(exited := true)
    else if act.Rebound? && u == st.main then BindingOf(st.tealets[u]).(far := op.far)
    else BindingOf(st.tealets[u])
  }

  /** The frames of suspended tealets stay as they are, and whoever is suspended, bound or copied gets the frame of the call
      that did it. */
  ghost predicate FramesAfter<S, T>(st: State<S, T>, op: Op<S, T>, st2: State<S, T>)
    requires Allowed(st, op)
  {
    var act := Seen(st, op);
    && (forall u :: u in st.tealets && u in st2.tealets && u != st.cur && !(Attempts(st, op) && op.t == u) ==>
          st2.tealets[u].resume == st.tealets[u].resume)
    && (act.Pass? && act.leaving == Parked && st.cur in st2.tealets ==> st2.tealets[st.cur].resume == InSwitch(st.cur))
    && (act.Begin? && st.cur in st2.tealets ==>
          st2.tealets[st.cur].resume == if op.OpFork? then InFork(act.t, st.cur, true) else InRun(act.t))
    && (act.BeginParked? && act.t in st2.tealets ==>
          st2.tealets[act.t].resume == if op.OpFork? then InFork(act.t, st.cur, false) else NotStarted(act.t, st.cur))
    && (act.Copy? && act.nt in st2.tealets ==> st2.tealets[act.nt].resume == st.tealets[op.t].resume)
  }

  /** An operation does to the previous tealet, the bindings and the frames what was foretold. */
  ghost predicate AsForetold<S, T>(st: State<S, T>, op: Op<S, T>, st2: State<S, T>)
    requires Allowed(st, op)
  {
    && st2.prev == PrevAfter(st, op)
    && (forall u :: u in st2.tealets ==> BindingOf(st2.tealets[u]) == BindingAfter(st, op, u))
    && FramesAfter(st, op, st2)
  }

  lemma StepEffects<S, T>(st: State<S, T>, op: Op<S, T>)
    requires Inv(st) && Allowed(st, op)
    ensures AsForetold(st, op, Apply(st, op))
  {
    hide Inv, CallLegal, CallAlive, CourseOf, IntactAttempt, Run, Fork, Switch, Exit, Transfer, Finish, RunOk, ForkOk, Above,
      FarFits, AsForetold, Known, EnvOk, StartsNow, StartsLater;
    match op
    case OpRun(t, far, now, env, id) => RunEffects(st, op);
    case OpFork(t, now, env, id) => ForkEffects(st, op);
    case OpSwitch(t, force, panic, nofail, env, id) => CallStepEffects(st, op);
    case OpExit(t, delete, force, panic, nofail, env, id) => CallStepEffects(st, op);
    case _ => PlainEffects(st, op);
  }

  lemma PlainEffects<S, T>(st: State<S, T>, op: Op<S, T>)
    requires Inv(st) && Allowed(st, op) && !op.OpRun? && !op.OpFork? && !op.OpSwitch? && !op.OpExit?
    ensures AsForetold(st, op, Apply(st, op))
  {
    hide Inv, Allowed, AsForetold, Apply;
    match op
    case OpWrite(at, b) => WriteForetold(st, op);
    case OpNew(nt) => NewForetold(st, op);
    case OpDuplicate(t, nt) => DuplicateForetold(st, op);
    case OpDelete(t) => DeleteForetold(st, op);
    case OpSetFar(t, far) => SetFarForetold(st, op);
  }

  lemma WriteForetold<S, T>(st: State<S, T>, op: Op<S, T>)
    requires Allowed(st, op) && op.OpWrite?
    ensures AsForetold(st, op, Apply(st, op))
  {
    hide Known, BindingOf;
  }

  lemma NewForetold<S, T>(st: State<S, T>, op: Op<S, T>)
    requires Allowed(st, op) && op.OpNew?
    ensures AsForetold(st, op, Apply(st, op))
  {
    hide New, Known, BindingOf;
    NewIs(st, op.nt);
  }

  lemma DuplicateForetold<S, T>(st: State<S, T>, op: Op<S, T>)
    requires Allowed(st, op) && op.OpDuplicate?
    ensures AsForetold(st, op, Apply(st, op))
  {
    hide Duplicate, Known, BindingOf;
    DuplicateFrame(st, op.t, op.nt);
    DuplicatePrev(st, op.t, op.nt);
  }

  lemma DeleteForetold<S, T>(st: State<S, T>, op: Op<S, T>)
    requires Allowed(st, op) && op.OpDelete?
    ensures AsForetold(st, op, Apply(st, op))
  {
    hide Delete, Known, BindingOf;
    DeleteIs(st, op.t);
  }

  lemma SetFarForetold<S, T>(st: State<S, T>, op: Op<S, T>)
    requires Inv(st) && Allowed(st, op) && op.OpSetFar?
    ensures AsForetold(st, op, Apply(st, op))
  {
    hide Inv, SetFar, Known, BindingOf, FarFits;
    SetFarIs(st, op.t, op.far);
  }

  lemma NewIs<S, T>(st: State<S, T>, nt: T)
    ensures var m := New(st, nt);
            && m.fail == !st.core.alloc(st.core.ticks) && m.st.prev == st.prev
            && m.st.tealets == if m.fail then st.tealets else st.tealets[nt := TealetV(0, None, NO_FLAGS, Unbound)]
    ensures BindingOf<S, T>(TealetV(0, None, NO_FLAGS, Unbound)) == UNBOUND
  {
  }

  lemma DuplicatePrev<S, T>(st: State<S, T>, t: T, nt: T)
    requires Known(st) && t in st.tealets
    ensures Duplicate(st, t, nt).st.prev == st.prev
  {
  }

  lemma DeleteIs<S, T>(st: State<S, T>, t: T)
    requires Known(st) && t in st.tealets
    ensures var st2 := Delete(st, t);
            st2.tealets == st.tealets - {t} && st2.prev == if st.prev == Some(t) then None else st.prev
  {
    hide Decref;
  }

  lemma SetFarIs<S, T>(st: State<S, T>, t: T, far: int)
    requires Inv(st) && t in st.tealets && (t == st.main ==> FarFits(st, far))
    ensures var st2 := SetFar(st, t, far).st;
            && st2.prev == st.prev
            && st2.tealets == if t == st.main && st.cur == st.main then st.tealets[t := st.tealets[t].(far := far)]
                              else st.tealets
    ensures BindingOf(st.tealets[t].(far := far)) == BindingOf(st.tealets[t]).(far := far)
  {
    hide Inv, Above;
  }

  lemma CallStepEffects<S, T>(st: State<S, T>, op: Op<S, T>)
    requires Inv(st) && Allowed(st, op) && (op.OpSwitch? || op.OpExit?)
    ensures AsForetold(st, op, Apply(st, op))
  {
    hide Inv, Ready, Transfer, Finish, CallLegal, CallAlive, CourseOf, IntactAttempt, EnvOk, Known, Saves, Renewed, SelfSwitch,
      BindingOf, AsForetold, PrevAfterCall, TransferLeaves;
    var isExit, delete := op.OpExit?, op.OpExit? && op.delete;
    var t, force, panic, nofail, env, id := op.t, op.force, op.panic, op.nofail, op.env, op.id;
    LockedStart(st);
    KnownCur(st);
    var st1 := Lock(st);
    assert EnvOk(st1, env, id) by { EnvCong(st, st1, env, id); }
    var c := CourseOf(st, t, force, panic, nofail, isExit, env);
    CourseCong(st, st1, t, force, panic, nofail, isExit, env);
    PrevCong(st, st1, t, c, nofail, isExit, delete, env);
    CallEffects(st1, t, force, panic, nofail, isExit, delete, env, id);
    CallCourse(st1, t, force, panic, nofail, isExit, delete, env, id);
    CallFinishes(st, t, force, panic, nofail, isExit, delete, env, id);
    var x := Transfer(st1, t, force, panic, nofail, isExit, delete, env, id);
    FinishedForetold(st, op, c, x, Finish(x).st);
  }

  lemma PrevCong<S, T>(st: State<S, T>, st2: State<S, T>, t: T, c: Course<T>, nofail: bool, isExit: bool, delete: bool, env: Env)
    requires Known(st) && Known(st2) && t in st.tealets
    requires st2.core == st.core && st2.tealets == st.tealets && st2.cur == st.cur && st2.main == st.main && st2.prev == st.prev
    ensures PrevAfterCall(st2, t, c, nofail, isExit, delete, env) == PrevAfterCall(st, t, c, nofail, isExit, delete, env)
  {
    hide SelfSwitch;
    SelfCong(st, st2, t, nofail, isExit, env);
  }

  /** The end of a legal call. */
  lemma FinishedForetold<S, T>(st: State<S, T>, op: Op<S, T>, c: Course<T>, x: Xfer<S, T>, st2: State<S, T>)
    requires Allowed(st, op) && (op.OpSwitch? || op.OpExit?)
    requires c == CourseOf(st, op.t, op.force, op.panic, op.nofail, op.OpExit?, op.env)
    requires st.cur in st.tealets && TransferLeaves(Lock(st), x, op.OpExit?) && Finished(x, st2, Renewed(st, c))
    requires x.st.prev == PrevAfterCall(st, op.t, c, op.nofail, op.OpExit?, op.OpExit? && op.delete, op.env)
    requires x.moved <==> c.Leave?
    requires op.OpExit? && op.delete && x.moved ==> st.cur !in x.st.tealets
    ensures AsForetold(st, op, st2)
  {
    hide Inv, CallLegal, CallAlive, CourseOf, IntactAttempt, EnvOk, Known, PrevAfterCall, BindingOf, FramesAfter;
    forall u | u in st2.tealets ensures BindingOf(st2.tealets[u]) == BindingAfter(st, op, u) {
      assert u in x.st.tealets && u in st.tealets;
      if Renewed(st, c) == Some(u) {
        RenewedBinding(x.st.tealets[u]);
      } else {
        assert st2.tealets[u] == x.st.tealets[u];
        assert u == st.cur && x.moved && op.OpExit? ==> !op.delete;
      }
    }
    FinishedFrames(st, op, c, x, st2);
  }

  lemma RenewedBinding<S, T>(v: TealetV<S, T>)
    ensures BindingOf(v.(far := 0, stack := None, flags := NO_FLAGS)) == UNBOUND
  {
  }

  lemma FinishedFrames<S, T>(st: State<S, T>, op: Op<S, T>, c: Course<T>, x: Xfer<S, T>, st2: State<S, T>)
    requires Allowed(st, op) && (op.OpSwitch? || op.OpExit?)
    requires c == CourseOf(st, op.t, op.force, op.panic, op.nofail, op.OpExit?, op.env)
    requires st.cur in st.tealets && TransferLeaves(Lock(st), x, op.OpExit?) && Finished(x, st2, Renewed(st, c))
    requires x.moved <==> c.Leave?
    ensures FramesAfter(st, op, st2)
  {
    hide Inv, CallLegal, CallAlive, CourseOf, IntactAttempt, EnvOk, Known, Renewed, BindingOf;
  }

  lemma SelfCong<S, T>(st: State<S, T>, st2: State<S, T>, t: T, nofail: bool, isExit: bool, env: Env)
    requires Known(st) && Known(st2) && t in st.tealets
    requires st2.core == st.core && st2.tealets == st.tealets && st2.cur == st.cur && st2.main == st.main
    ensures SelfSwitch(st2, t, nofail, isExit, env) == SelfSwitch(st, t, nofail, isExit, env)
  {
    hide HasMemory;
    MemoryCong(st, st2, t);
  }

  lemma RunEffects<S, T>(st: State<S, T>, op: Op<S, T>)
    requires Inv(st) && Allowed(st, op) && op.OpRun?
    ensures AsForetold(st, op, Apply(st, op))
  {
    hide Inv, Ready, StartNow, StartLater, StartsNow, StartsLater, Above, EnvOk, Known, Binds, AsForetold, StartLeaves;
    var t, far, env, id := op.t, op.far, op.env, op.id;
    LockedStart(st);
    KnownCur(st);
    var st1 := Lock(st);
    if st.tealets[t].flags == NO_FLAGS {
      InvReady(st);
      var v := st.tealets[t].(far := far, flags := NO_FLAGS.(bound := true));
      StartsCong(st, st1, far, env);
      LaterCong(st, st1, env);
      if op.now {
        assert EnvOk(st1, env, id) by { EnvCong(st, st1, env, id); }
        RunBinds(st, t, v);
        StartKnown(st1, t, v, InRun(t));
        NowEffects(st1, t, v, InRun(t), env, id);
        StartForetold(st, op, Apply(st, op), v, StartsNow(st, far, env), Some(InRun(t)));
      } else {
        var v2 := v.(resume := NotStarted(t, st.cur));
        RunBinds(st, t, v2);
        LaterEffects(st1, t, v2, env, id);
        StartForetold(st, op, Apply(st, op), v2, StartsLater(st, env), None);
      }
    } else {
      NothingForetold(st, op);
    }
  }

  /** A refused run or fork leaves everything alone. */
  lemma NothingForetold<S, T>(st: State<S, T>, op: Op<S, T>)
    requires Allowed(st, op) && (op.OpRun? || op.OpFork?) && !Attempts(st, op)
    ensures AsForetold(st, op, st)
  {
    hide BindingOf, Known, Above;
  }

  /** From what a binding leaves to what was foretold. */
  lemma StartForetold<S, T>(st: State<S, T>, op: Op<S, T>, st2: State<S, T>, v: TealetV<S, T>, goes: bool,
                            r: Option<Resume<T>>)
    requires Allowed(st, op) && (op.OpRun? || op.OpFork?) && Attempts(st, op) && st.cur in st.tealets
    requires StartLeaves(Lock(st), st2, op.t, v, goes, r)
    requires st2.prev == if goes && op.now then Some(st.cur) else st.prev
    requires Seen(st, op).Stay? <==> !goes
    requires goes ==> Seen(st, op) == if op.now then Begin(op.t, op.env.sp, v.far) else BeginParked(op.t, op.env.sp, v.far)
    requires BindingOf(v) == Binding(v.far, true, false, op.OpFork?, op.OpFork? && st.tealets[st.cur].flags.mainLineage)
    requires if op.now then r == Some(if op.OpFork? then InFork(op.t, st.cur, true) else InRun(op.t))
             else v.resume == if op.OpFork? then InFork(op.t, st.cur, false) else NotStarted(op.t, st.cur)
    ensures AsForetold(st, op, st2)
  {
    hide BindingOf, Seen, Known, Above, EnvOk;
    forall u | u in st2.tealets ensures BindingOf(st2.tealets[u]) == BindingAfter(st, op, u) {
      assert u in st.tealets;
    }
  }

  lemma LaterCong<S, T>(st: State<S, T>, st2: State<S, T>, env: Env)
    requires st2.core == st.core
    ensures StartsLater(st2, env) == StartsLater(st, env)
  {
  }

  lemma RunBinds<S, T>(st: State<S, T>, t: T, v: TealetV<S, T>)
    requires t in st.tealets && st.tealets[t].flags == NO_FLAGS && v.stack == st.tealets[t].stack
    requires 0 < v.far <= |st.core.mem| && v.flags.bound && !v.flags.exited && !v.flags.defunct && Quiet(v.flags)
    ensures Binds(st, t, v) && Binds(Lock(st), t, v)
  {
  }

  lemma StartKnown<S, T>(st: State<S, T>, t: T, v: TealetV<S, T>, r: Resume<T>)
    requires Ready(st) && Known(st) && Binds(st, t, v)
    ensures st.cur in st.tealets && Known(SetT(SetT(st, st.cur, st.tealets[st.cur].(resume := r)), t, v))
  {
    hide Solid;
    NewIsFree(st, t);
  }

  lemma ForkEffects<S, T>(st: State<S, T>, op: Op<S, T>)
    requires Inv(st) && Allowed(st, op) && op.OpFork?
    ensures AsForetold(st, op, Apply(st, op))
  {
    hide Inv, Ready, StartNow, StartLater, StartsNow, StartsLater, Above, EnvOk, Known, Binds, AsForetold, StartLeaves;
    var t, env, id := op.t, op.env, op.id;
    LockedStart(st);
    KnownCur(st);
    var st1, cur := Lock(st), st.tealets[st.cur];
    if st.tealets[t].flags == NO_FLAGS && cur.far != FURTHEST {
      ForkBinds(st, t, env, id);
      var v := st.tealets[t].(far := cur.far,
                              flags := NO_FLAGS.(bound := true, forked := true, mainLineage := cur.flags.mainLineage));
      StartsCong(st, st1, cur.far, env);
      LaterCong(st, st1, env);
      if op.now {
        var r := InFork(t, st.cur, true);
        assert EnvOk(st1, env, id) by { EnvCong(st, st1, env, id); }
        assert Binds(st1, t, v) by { BindsCong(st, st1, t, v, v); }
        StartKnown(st1, t, v, r);
        NowEffects(st1, t, v, r, env, id);
        StartForetold(st, op, Apply(st, op), v, StartsNow(st, cur.far, env), Some(r));
      } else {
        var v2 := v.(resume := InFork(t, st.cur, false));
        assert Binds(st1, t, v2) by { BindsCong(st, st1, t, v, v2); }
        LaterEffects(st1, t, v2, env, id);
        StartForetold(st, op, Apply(st, op), v2, StartsLater(st, env), None);
      }
    } else {
      NothingForetold(st, op);
    }
  }
}
