/** The transfer state machine of `src/tealet.c` on values: tealets, the running one, and the operations run, fork,
    switch, exit, duplicate and delete.

    A call that suspends its caller ends in another tealet. Every function below therefore gives the state in which
    user code runs next, and the code that the tealet now running (`cur`) sees. */
module TransferModel {
  import opened Base
  import opened StackModel

  /** tealet_sub_t::flags. */
  datatype Flags = Flags(bound: bool, exiting: bool, exited: bool, defunct: bool, mainLineage: bool, forked: bool,
                         autodelete: bool, saveforce: bool)

  const NO_FLAGS: Flags := Flags(false, false, false, false, false, false, false, false)

  /** Where a suspended tealet will go on: the frame it left on its own stack. The frame of tealet_switch still
      holds the tealet that made the call, the frames of tealet_run and tealet_fork the tealets they work on. */
  datatype Resume<+T> =
    | Unbound
    | InSwitch(self: T)
    | InRun(child: T)
    | InFork(child: T, parent: T, now: bool)
    | NotStarted(self: T, creator: T)

  datatype TealetV<+S, +T> = TealetV(far: int, stack: Option<S>, flags: Flags, resume: Resume<T>)

  datatype Sw = SwNop | SwRestore | SwErr

  datatype Code = Ok | Saved | ErrMem | ErrDefunct | ErrUnforkable | ErrInval | ErrIntegrity | ErrPanic {
    predicate Failed() { !Ok? && !Saved? }
  }

  /** tealet_main_t. `locks` is the history of lock callbacks in AUTO mode, true for an acquire;
      `tsize` is the size of a heap block that holds one tealet. */
  datatype State<!S, !T> = State(
    core: Core<S>,
    tealets: map<T, TealetV<S, T>>,
    main: T,
    cur: T,
    prev: Option<T>,
    target: Option<T>,
    sw: Sw,
    panic: bool,
    locks: seq<bool>,
    count: int,
    tsize: int
  )

  /** What the outside decides about one call: the stack pointer at the switch, whether the caller-stack probe
      accepts the caller, and whether the watched stack bytes are intact. */
  datatype Env = Env(sp: int, callerOk: bool, integrityOk: bool)

  datatype Moved<!S, !T> = Moved(st: State<S, T>, fail: bool)

  /** `moved` says that the switch took place, so that `st.cur` is the receiver. */
  datatype Xfer<!S, !T> = Xfer(st: State<S, T>, code: Code, moved: bool)

  ghost predicate Known<S, T>(st: State<S, T>) {
    && st.main in st.tealets && st.cur in st.tealets
    && (forall s :: s in st.core.plist ==> s in st.core.stacks)
    && (forall t :: t in st.tealets && st.tealets[t].stack.Some? ==> st.tealets[t].stack.value in st.core.stacks)
  }

  ghost function SetT<S, T>(st: State<S, T>, t: T, v: TealetV<S, T>): State<S, T> {
    st.(tealets := st.tealets[t := v])
  }

  ghost function Lock<S, T>(st: State<S, T>): State<S, T> { st.(locks := st.locks + [true]) }

  ghost function Unlock<S, T>(st: State<S, T>): State<S, T> { st.(locks := st.locks + [false]) }

  /** A tealet whose binding failed becomes NEW again. */
  ghost function ResetT<S, T>(st: State<S, T>, t: T): State<S, T>
    requires t in st.tealets
  {
    SetT(st, t, st.tealets[t].(far := 0, stack := None, flags := NO_FLAGS))
  }

  ghost function ClearSignals<S, T>(st: State<S, T>, t: T): State<S, T>
    requires t in st.tealets
  {
    var v := st.tealets[t];
    SetT(st, t, v.(flags := v.flags.(exiting := false, autodelete := false, saveforce := false)))
  }

  /** tealet_free_tealet together with the count kept by its callers. */
  ghost function FreeT<S, T>(st: State<S, T>, t: T): State<S, T> {
    var stats := st.core.stats;
    st.(tealets := st.tealets - {t},
        prev := if st.prev == Some(t) then None else st.prev,
        count := st.count - 1,
        core := st.core.(stats := stats.(bytes := stats.bytes - st.tsize, blocks := stats.blocks - 1)))
  }

  /** tealet_alloc. */
  ghost function AllocT<S, T>(st: State<S, T>, t: T, v: TealetV<S, T>): Moved<S, T> {
    var c := st.core.(ticks := st.core.ticks + 1);
    if !st.core.alloc(st.core.ticks) then
      Moved(st.(core := c), true)
    else
      Moved(SetT(st, t, v).(
              count := st.count + 1,
              core := c.(stats := c.stats.(bytes := c.stats.bytes + st.tsize, blocks := c.stats.blocks + 1))), false)
  }

  /* ---- tealet_save_state ---- */

  /** An exiting tealet is not saved. */
  ghost function ExitCurrent<S, T>(st: State<S, T>): State<S, T>
    requires st.cur in st.tealets
  {
    var v := st.tealets[st.cur];
    if v.flags.autodelete then
      FreeT(st, st.cur)
    else
      SetT(st, st.cur, v.(stack := None,
                          flags := v.flags.(exiting := false, autodelete := false, saveforce := false, exited := true)))
  }

  ghost function SaveCurrent<S, T>(st: State<S, T>, sp: int, stop: int, failOk: bool, id: S): Moved<S, T>
    requires st.cur in st.tealets
  {
    var v := st.tealets[st.cur];
    var g := SaveTo(st.core, id, sp, v.far, stop);
    if g.fail then
      if failOk then Moved(st.(core := g.core), true)
      else Moved(SetT(st.(core := g.core), st.cur, v.(flags := v.flags.(defunct := true))), false)
    else
      Moved(SetT(st.(core := if g.full then g.core else Link(g.core, id)), st.cur, v.(stack := Some(id))), false)
  }

  ghost function FailOk<S, T>(st: State<S, T>): bool
    requires st.cur in st.tealets
  {
    !st.tealets[st.cur].flags.saveforce || st.cur == st.main
  }

  /** The growth step of a transfer from `cur` to `t`. */
  ghost function GrowFor<S, T>(st: State<S, T>, t: T): (r: Grown<S>)
    requires Known(st) && t in st.tealets
    ensures r.core.stacks.Keys == st.core.stacks.Keys
  {
    GrowList(st.core, st.core.plist, st.tealets[t].far, st.tealets[t].stack, FailOk(st), st.tealets[st.main].stack)
  }

  ghost function SaveState<S, T>(st: State<S, T>, t: T, sp: int, id: S): Moved<S, T>
    requires Known(st) && t in st.tealets
  {
    var v := st.tealets[st.cur];
    var g := GrowFor(st, t);
    var st1 := SetT(st, st.cur, v.(flags := v.flags.(saveforce := false))).(core := g.core);
    if g.fail then Moved(st1, true)
    else if v.flags.exiting then Moved(ExitCurrent(st1), false)
    else SaveCurrent(st1, sp, st.tealets[t].far, FailOk(st), id)
  }

  /* ---- tealet_restore_state, tealet_switchstack ---- */

  ghost function RestoreState<S, T>(st: State<S, T>, t: T): State<S, T>
    requires t in st.tealets && st.tealets[t].stack.Some? && st.tealets[t].stack.value in st.core.stacks
  {
    var s := st.tealets[t].stack.value;
    SetT(st, t, st.tealets[t].(stack := None)).(core := Decref(Restore(st.core, s), s))
  }

  ghost predicate IsDefunct<S, T>(st: State<S, T>, t: T)
    requires Known(st) && t in st.tealets
  {
    var v := st.tealets[t];
    v.flags.defunct || (v.stack.Some? && st.core.stacks[v.stack.value].defunct)
  }

  /** tealet_is_defunct remembers its answer in the tealet. */
  ghost function MarkDefunct<S, T>(st: State<S, T>, t: T): State<S, T>
    requires t in st.tealets
  {
    var v := st.tealets[t];
    SetT(st, t, v.(flags := v.flags.(defunct := true)))
  }

  /** The two callbacks around the change of the stack pointer, once `prev` and `target` are set. */
  ghost function StackmanSwitch<S, T>(st: State<S, T>, t: T, sp: int, id: S): Moved<S, T>
    requires Known(st) && t in st.tealets
  {
    var m := SaveState(st, t, sp, id);
    if m.fail then
      m.(st := m.st.(sw := SwErr))
    else if t in m.st.tealets && m.st.tealets[t].stack.Some? && m.st.tealets[t].stack.value in m.st.core.stacks then
      Moved(RestoreState(m.st, t).(sw := SwRestore), false)
    else
      m.(st := m.st.(sw := SwNop))
  }

  ghost function SwitchStack<S, T>(st: State<S, T>, t: T, env: Env, id: S): Xfer<S, T>
    requires Known(st) && t in st.tealets
  {
    if st.tealets[t].flags.exited then
      Xfer(st.(panic := false), ErrInval, false)
    else if IsDefunct(st, t) then
      Xfer(MarkDefunct(st, t).(panic := false), ErrDefunct, false)
    else if !env.callerOk then
      Xfer(st.(panic := false), ErrInval, false)
    else if !env.integrityOk then
      Xfer(st.(panic := false), ErrIntegrity, false)
    else
      var m := StackmanSwitch(st.(prev := Some(st.cur), target := Some(t)), t, env.sp, id);
      if m.fail then
        Xfer(m.st.(prev := st.prev, target := None, panic := false), ErrMem, false)
      else
        var code := if m.st.panic then ErrPanic else if m.st.sw == SwRestore then Ok else Saved;
        Xfer(m.st.(cur := t, target := None, panic := false), code, true)
  }

  /* ---- what a resumed tealet does first ---- */

  /** The frames of tealet_switch, tealet_run, tealet_initialstub and tealet_fork after the switch back. */
  ghost function Receive<S, T>(st: State<S, T>, code: Code): State<S, T>
    requires Known(st)
  {
    if code != ErrPanic then
      Unlock(st)
    else match st.tealets[st.cur].resume
      case Unbound => Unlock(st)
      case InSwitch(self) =>
        if self in st.tealets then Unlock(ClearSignals(st, self)) else Unlock(st)
      case InRun(child) =>
        if child in st.tealets then Unlock(ResetT(st, child)) else Unlock(st)
      case InFork(child, parent, now) =>
        var st1 := if child in st.tealets then ResetT(st, child) else st;
        Unlock(if now then st1 else st1.(cur := parent))
      case NotStarted(self, creator) =>
        var st1 := if self in st.tealets then ResetT(st, self) else st;
        Unlock(st1.(cur := creator))
  }

  /* ---- tealet_switch, tealet_exit ---- */

  /** The transfer signals of one attempt. */
  ghost function Stage<S, T>(st: State<S, T>, force: bool, panic: bool, isExit: bool, delete: bool): State<S, T>
    requires st.cur in st.tealets
  {
    var v := st.tealets[st.cur];
    var f := if isExit then v.flags.(exiting := true, autodelete := v.flags.autodelete || delete) else v.flags;
    var f2 := if force then f.(saveforce := true) else f;
    SetT(st, st.cur, v.(flags := f2, resume := if isExit then v.resume else InSwitch(st.cur))).(
      panic := st.panic || panic)
  }

  ghost function XferInner<S, T>(st: State<S, T>, t: T, force: bool, panic: bool, isExit: bool, delete: bool, env: Env,
                                 id: S): Xfer<S, T>
    requires Known(st) && t in st.tealets
  {
    if !st.tealets[t].flags.bound then
      Xfer(st, ErrInval, false)
    else if t == st.cur then
      if isExit then Xfer(st, ErrInval, false)
      else Xfer(st.(prev := Some(st.cur)), if panic then ErrPanic else Ok, false)
    else
      var x := SwitchStack(Stage(st, force, panic, isExit, delete), t, env, id);
      if x.code.Failed() && !x.moved && st.cur in x.st.tealets then x.(st := ClearSignals(x.st, st.cur)) else x
  }

  /** One attempt, or with NOFAIL a forced attempt and, when that runs out of memory or finds a defunct target, a
      forced transfer to main with PANIC. */
  ghost function Transfer<S, T>(st: State<S, T>, t: T, force: bool, panic: bool, nofail: bool, isExit: bool,
                                delete: bool, env: Env, id: S): Xfer<S, T>
    requires Known(st) && t in st.tealets
  {
    var x := XferInner(st, t, force || nofail, panic, isExit, delete, env, id);
    if nofail && (x.code == ErrMem || x.code == ErrDefunct) && Known(x.st) then
      XferInner(x.st, x.st.main, true, true, isExit, delete, env, id)
    else x
  }

  /** The end of a call: the receiver goes on, or the caller releases the lock itself. */
  ghost function Finish<S, T>(x: Xfer<S, T>): Xfer<S, T> {
    if x.moved && Known(x.st) then x.(st := Receive(x.st, x.code)) else x.(st := Unlock(x.st))
  }

  ghost function Switch<S, T>(st: State<S, T>, t: T, force: bool, panic: bool, nofail: bool, env: Env, id: S): Xfer<S, T>
    requires Known(st) && t in st.tealets
  {
    Finish(Transfer(Lock(st), t, force, panic, nofail, false, false, env, id))
  }

  ghost function Exit<S, T>(st: State<S, T>, t: T, delete: bool, force: bool, panic: bool, nofail: bool, env: Env,
                            id: S): Xfer<S, T>
    requires Known(st) && t in st.tealets
  {
    Finish(Transfer(Lock(st), t, force, panic, nofail, true, delete, env, id))
  }

  /* ---- tealet_run, tealet_fork ---- */

  /** The common end of run and fork: a binding that failed is undone. */
  ghost function Bound<S, T>(x: Xfer<S, T>, t: T, creator: T, now: bool): Xfer<S, T> {
    if x.code.Failed() && t in x.st.tealets then
      var st := ResetT(x.st, t);
      x.(st := Unlock(if now then st else st.(cur := creator)))
    else
      x.(st := Unlock(x.st), code := Ok)
  }

  /** START_SWITCH: with `t` bound as `v`, the creator is saved and `t` goes on. `r` is where the creator will resume. */
  ghost function StartNow<S, T>(st: State<S, T>, t: T, v: TealetV<S, T>, r: Resume<T>, env: Env, id: S): Xfer<S, T>
    requires st.cur in st.tealets && Known(SetT(SetT(st, st.cur, st.tealets[st.cur].(resume := r)), t, v))
  {
    var s := SetT(SetT(st, st.cur, st.tealets[st.cur].(resume := r)), t, v);
    Bound(SwitchStack(s, t, env, id), t, st.cur, true)
  }

  /** START_DEFAULT: `t` stands in as the running tealet so that its stack is saved, then the creator goes on with the
      same previous tealet as before. */
  ghost function StartLater<S, T>(st: State<S, T>, t: T, v: TealetV<S, T>, env: Env, id: S): Xfer<S, T>
    requires st.cur in st.tealets && Known(SetT(st, t, v).(cur := t))
  {
    var x := SwitchStack(SetT(st, t, v).(cur := t), st.cur, env, id);
    Bound(if x.code == Saved then x.(st := x.st.(prev := st.prev)) else x, t, st.cur, false)
  }

  ghost function Run<S, T>(st: State<S, T>, t: T, far: int, now: bool, env: Env, id: S): Xfer<S, T>
    requires Known(st) && t in st.tealets
  {
    if st.tealets[t].flags != NO_FLAGS then
      Xfer(st, ErrInval, false)
    else
      var v := st.tealets[t].(far := far, flags := NO_FLAGS.(bound := true));
      if now then
        StartNow(Lock(st), t, v, InRun(t), env, id)
      else
        StartLater(Lock(st), t, v.(resume := NotStarted(t, st.cur)), env, id)
  }

  ghost function Fork<S, T>(st: State<S, T>, t: T, now: bool, env: Env, id: S): Xfer<S, T>
    requires Known(st) && t in st.tealets
  {
    var cur := st.tealets[st.cur];
    if st.tealets[t].flags != NO_FLAGS then
      Xfer(st, ErrInval, false)
    else if cur.far == FURTHEST then
      Xfer(st, ErrUnforkable, false)
    else
      var v := st.tealets[t].(far := cur.far,
                              flags := NO_FLAGS.(bound := true, forked := true, mainLineage := cur.flags.mainLineage));
      if now then
        StartNow(Lock(st), t, v, InFork(t, st.cur, true), env, id)
      else
        StartLater(Lock(st), t, v.(resume := InFork(t, st.cur, false)), env, id)
  }

  /* ---- tealet_new, tealet_duplicate, tealet_delete, tealet_set_far ---- */

  ghost function New<S, T>(st: State<S, T>, id: T): Moved<S, T> {
    var m := AllocT(Lock(st), id, TealetV(0, None, NO_FLAGS, Unbound));
    m.(st := Unlock(m.st))
  }

  ghost function Duplicate<S, T>(st: State<S, T>, t: T, id: T): Moved<S, T>
    requires Known(st) && t in st.tealets
  {
    var v := st.tealets[t];
    var m := AllocT(Lock(st), id, v);
    if m.fail || v.stack.None? then m.(st := Unlock(m.st))
    else m.(st := Unlock(m.st.(core := Dup(m.st.core, v.stack.value))))
  }

  ghost function Delete<S, T>(st: State<S, T>, t: T): State<S, T>
    requires Known(st) && t in st.tealets
  {
    var v := st.tealets[t];
    var st1 := if v.stack.Some? then st.(core := Decref(st.core, v.stack.value)) else st;
    Unlock(FreeT(Lock(st1), t))
  }

  ghost function SetFar<S, T>(st: State<S, T>, t: T, far: int): Xfer<S, T>
    requires t in st.tealets
  {
    if t != st.main then Xfer(st, ErrInval, false)
    else Xfer(SetT(st, t, st.tealets[t].(far := far)), Ok, false)
  }

  /** User code of the running tealet stores one byte on the stack. */
  ghost function Write<S, T>(st: State<S, T>, at: int, b: byte): State<S, T> {
    st.(core := st.core.(mem := Patch(st.core.mem, at, [b])))
  }
}
