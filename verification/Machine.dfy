/** Whole runs: every operation is one step of the private machine, and every reachable state is legal. */
module Machine {
  import opened Base
  import opened StackModel
  import opened StackProofs
  import opened Growth
  import opened TransferModel
  import opened Safety
  import opened Operations
  import opened Refinement
  import opened PrivateStacks
  import opened Calls
  import opened Spawning

  /** Everything that can happen between two moments at which user code runs. */
  datatype Op<S, T> =
    | OpWrite(at: int, b: byte)
    | OpNew(nt: T)
    | OpRun(t: T, far: int, now: bool, env: Env, id: S)
    | OpFork(t: T, now: bool, env: Env, id: S)
    | OpSwitch(t: T, force: bool, panic: bool, nofail: bool, env: Env, id: S)
    | OpExit(t: T, delete: bool, force: bool, panic: bool, nofail: bool, env: Env, id: S)
    | OpDuplicate(t: T, nt: T)
    | OpDelete(t: T)
    | OpSetFar(t: T, far: int)

  /** What the library asks of its caller, and the edges at which its promise does not hold. */
  ghost predicate Allowed<S, T>(st: State<S, T>, op: Op<S, T>) {
    && Known(st)
    && match op
       case OpWrite(at, b) => 0 <= at < |st.core.mem| && at < st.tealets[st.cur].far
       case OpNew(nt) => nt !in st.tealets
       case OpRun(t, far, now, env, id) => RunOk(st, t, far, now, env, id)
       case OpFork(t, now, env, id) => ForkOk(st, t, env, id)
       case OpSwitch(t, force, panic, nofail, env, id) =>
         && CallOk(st, t, force, panic, nofail, false, false, env, id)
         && IntactAttempt(st, t, force || nofail)
       case OpExit(t, delete, force, panic, nofail, env, id) =>
         && CallOk(st, t, force, panic, nofail, true, delete, env, id)
         && IntactAttempt(st, t, force || nofail)
       case OpDuplicate(t, nt) => t in st.tealets && t != st.cur && t != st.main && nt !in st.tealets
       case OpDelete(t) => t in st.tealets && t != st.cur && t != st.main
       case OpSetFar(t, far) => t in st.tealets && (t == st.main ==> FarFits(st, far))
  }

  ghost function Apply<S, T>(st: State<S, T>, op: Op<S, T>): State<S, T>
    requires Allowed(st, op)
  {
    match op
    case OpWrite(at, b) => Write(st, at, b)
    case OpNew(nt) => New(st, nt).st
    case OpRun(t, far, now, env, id) => Run(st, t, far, now, env, id).st
    case OpFork(t, now, env, id) => Fork(st, t, now, env, id).st
    case OpSwitch(t, force, panic, nofail, env, id) => Switch(st, t, force, panic, nofail, env, id).st
    case OpExit(t, delete, force, panic, nofail, env, id) => Exit(st, t, delete, force, panic, nofail, env, id).st
    case OpDuplicate(t, nt) => Duplicate(st, t, nt).st
    case OpDelete(t) => Delete(st, t)
    case OpSetFar(t, far) => SetFar(st, t, far).st
  }

  /** Every operation keeps the invariant. */
  lemma StepInv<S, T>(st: State<S, T>, op: Op<S, T>)
    requires Inv(st) && Allowed(st, op)
    ensures Inv(Apply(st, op))
  {
    hide Inv, CallLegal, CallAlive, RunOk, ForkOk, IntactAttempt, Run, Fork, Switch, Exit, New, Duplicate, Delete, Write, SetFar,
      FarFits;
    match op
    case OpWrite(at, b) => WriteInv(st, at, b);
    case OpNew(nt) => NewInv(st, nt);
    case OpRun(t, far, now, env, id) => RunInv(st, t, far, now, env, id);
    case OpFork(t, now, env, id) => ForkInv(st, t, now, env, id);
    case OpSwitch(t, force, panic, nofail, env, id) => SwitchExact(st, t, force, panic, nofail, env, id);
    case OpExit(t, delete, force, panic, nofail, env, id) => ExitExact(st, t, delete, force, panic, nofail, env, id);
    case OpDuplicate(t, nt) => DuplicateInv(st, t, nt);
    case OpDelete(t) => DeleteInv(st, t);
    case OpSetFar(t, far) => SetFarStep(st, t, far);
  }

  lemma SetFarStep<S, T>(st: State<S, T>, t: T, far: int)
    requires Inv(st) && t in st.tealets
    requires t == st.main ==> FarFits(st, far)
    ensures Inv(SetFar(st, t, far).st)
  {
    hide Inv, FarFits;
    if t == st.main { SetFarInv(st, far); }
  }

  /* ---- what each operation is to the private machine ---- */

  datatype Act<T> =
    | Store(at: int, b: byte)
    | Pass(to: T, sp: int, leaving: Leaving, renewed: Option<T>)
    | Stay
    | Begin(t: T, sp: int, far: int)
    | BeginParked(t: T, sp: int, far: int)
    | Create(nt: T)
    | Copy(t: T, nt: T)
    | Drop(t: T)
    | Rebound(len: int)

  ghost function Prefix(a: seq<byte>, n: int): seq<byte> { Slice(a, 0, Min(n, |a|)) }

  /** Everybody but `x` and `y` is exactly as before. */
  ghost predicate PSame<T>(p: Private<T>, p2: Private<T>, x: T, y: T) {
    && p2.tealets == p.tealets
    && forall u :: u in p.tealets && u != x && u != y ==> PKeeps(p, p2, u, false)
  }

  /** One step of the machine in which every tealet owns its stack; those in `lost` are lost. */
  ghost predicate PStep<T>(p: Private<T>, p2: Private<T>, act: Act<T>, lost: set<T>) {
    match act
    case Store(at, b) => 0 <= at < |p.run| && p2 == p.(run := p.run[at := b])
    case Pass(to, sp, leaving, renewed) => PResume(p, p2, to, sp, leaving, renewed, lost)
    case Stay => PStay(p, p2, lost)
    case Begin(t, sp, far) =>
      && t in p.tealets && t != p.cur && p2.cur == t && t !in p2.parked && t !in p2.broken
      && PSame(p, p2, p.cur, t)
      && |p2.run| == far && Prefix(p2.run, |p.run|) == Prefix(p.run, |p2.run|)
      && PLeaves(p, p2, sp, Parked, false, false)
    case BeginParked(t, sp, far) =>
      && t in p.tealets && t != p.cur && p2.cur == p.cur && p2.run == p.run
      && p.cur !in p2.parked && p.cur !in p2.broken && t !in p2.broken
      && PSame(p, p2, p.cur, t)
      && t in p2.parked && p2.parked[t].near == sp && |p2.parked[t].bytes| == far - sp
      && Prefix(p2.parked[t].bytes, |p.run| - sp) == Slice(p.run, sp, Min(far, |p.run|))
    case Create(nt) => p2 == p.(tealets := p.tealets + {nt})
    case Copy(t, nt) =>
      p2 == p.(tealets := p.tealets + {nt},
               parked := if t in p.parked then p.parked[nt := p.parked[t]] else p.parked,
               broken := if t in p.broken then p.broken + {nt} else p.broken)
    case Drop(t) => p2 == p.(tealets := p.tealets - {t}, parked := p.parked - {t}, broken := p.broken - {t})
    case Rebound(len) =>
      p2 == p.(run := p2.run) && |p2.run| == len && Prefix(p2.run, |p.run|) == Prefix(p.run, |p2.run|)
  }

  /** Whom an operation loses, read off the operation and the state before it: only a switch or exit that somebody else
      than main forces loses anybody, and then those whose requests for memory are refused. */
  ghost function LostBy<S, T>(st: State<S, T>, op: Op<S, T>): set<T>
    requires Allowed(st, op)
  {
    match op
    case OpSwitch(t, force, _, nofail, env, _) => CallLosses(st, t, force, nofail, false, env)
    case OpExit(t, _, force, _, nofail, env, _) => CallLosses(st, t, force, nofail, true, env)
    case _ => {}
  }

  /** What a call of switch or exit is to the private machine: its course. */
  ghost function PassTo<S, T>(st: State<S, T>, c: Course<T>, sp: int, leaving: Leaving): Act<T> {
    match c
    case Remain => Stay
    case Leave(r, p, n) => Pass(r, sp, leaving, Renewed(st, c))
  }

  /** The private step that an operation amounts to, read off the operation and the state before it: where control goes,
      and whether it goes anywhere, depends on the target, on the outside, and on what the allocator answers. */
  ghost function Seen<S, T>(st: State<S, T>, op: Op<S, T>): Act<T>
    requires Allowed(st, op)
  {
    match op
    case OpWrite(at, b) => Store(at, b)
    case OpNew(nt) => if st.core.alloc(st.core.ticks) then Create(nt) else Stay
    case OpRun(t, far, now, env, id) => if st.tealets[t].flags != NO_FLAGS then Stay else StartOf(st, t, far, now, env)
    case OpFork(t, now, env, id) =>
      if st.tealets[t].flags != NO_FLAGS || st.tealets[st.cur].far == FURTHEST then Stay
      else StartOf(st, t, st.tealets[st.cur].far, now, env)
    case OpSwitch(t, force, panic, nofail, env, id) =>
      PassTo(st, CourseOf(st, t, force, panic, nofail, false, env), env.sp, Parked)
    case OpExit(t, delete, force, panic, nofail, env, id) =>
      PassTo(st, CourseOf(st, t, force, panic, nofail, true, env), env.sp, LeavingOf(true, delete))
    case OpDuplicate(t, nt) => if st.core.alloc(st.core.ticks) then Copy(t, nt) else Stay
    case OpDelete(t) => Drop(t)
    case OpSetFar(t, far) => if t == st.main && st.cur == st.main then Rebound(End(far, |st.core.mem|)) else Stay
  }

  /** What a binding is to the private machine. */
  ghost function StartOf<S, T>(st: State<S, T>, t: T, far: int, now: bool, env: Env): Act<T>
    requires Known(st)
  {
    if now then
      if StartsNow(st, far, env) then Begin(t, env.sp, far) else Stay
    else
      if StartsLater(st, env) then BeginParked(t, env.sp, far) else Stay
  }

  /* ---- each operation is one private step ---- */

  lemma SliceOfSlice(m: seq<byte>, hi: int, lo: int)
    requires 0 <= hi <= |m|
    ensures Slice(Slice(m, 0, hi), lo, hi) == Slice(m, lo, hi)
  {
    if 0 <= lo <= hi {
      assert m[0..hi][lo..hi] == m[lo..hi];
    }
  }

  lemma PrefixOfPrefix(m: seq<byte>, a: int, b: int)
    requires 0 <= a <= |m| && 0 <= b <= |m|
    ensures Prefix(Slice(m, 0, a), b) == Prefix(Slice(m, 0, b), a)
  {
    var k := Min(a, b);
    assert m[0..a][0..k] == m[0..k] == m[0..b][0..k];
  }

  /** Keeping a tealet is keeping it in the private machine. */
  lemma KeptAbs<S, T>(st: State<S, T>, st2: State<S, T>, u: T, lost: bool)
    requires st.cur in st.tealets && st2.cur in st2.tealets && u in st.tealets && Kept(st, st2, u, lost)
    ensures PKeeps(Abs(st), Abs(st2), u, lost)
  {
    hide ImageIn, Broken;
  }

  lemma RunLength<S, T>(st: State<S, T>)
    requires Inv(st)
    ensures st.cur in st.tealets
    ensures 0 <= End(st.tealets[st.cur].far, |st.core.mem|) <= |st.core.mem|
    ensures |Abs(st).run| == End(st.tealets[st.cur].far, |st.core.mem|)
  {
    hide CoreOk, RestOk, MainOk, Owned, Known;
  }

  lemma CurNoImage<S, T>(st: State<S, T>)
    requires Inv(st)
    ensures st.cur in st.tealets && ImageIn(st, st.cur).None? && !Broken(st, st.cur)
  {
    hide CoreOk, RestOk, MainOk, Owned, Known;
  }

  lemma ImageAlive<S, T>(st: State<S, T>, u: T)
    ensures ImageIn(st, u).Some? || Broken(st, u) ==> u in st.tealets
  {
    hide ImageOf;
  }

  lemma ResumesAbs<S, T>(st: State<S, T>, st2: State<S, T>, t: T, sp: int, leaving: Leaving, lost: set<T>)
    requires Inv(st) && Inv(st2) && Resumes(st, st2, t, sp, leaving, lost)
    ensures st.cur in st.tealets && st2.cur in st2.tealets
    ensures PResume(Abs(st), Abs(st2), t, sp, leaving, None, lost)
  {
    hide Inv, ImageIn, Broken, Kept;
    RunLength(st);
    RunLength(st2);
    CurNoImage(st2);
    var n := End(st.tealets[st.cur].far, |st.core.mem|);
    var n2 := End(st2.tealets[t].far, |st2.core.mem|);
    SliceOfSlice(st.core.mem, n, sp);
    SliceOfSlice(st2.core.mem, n2, ImageIn(st, t).value.near);
    ImageAlive(st2, st.cur);
    forall u | u in st.tealets && u != t && u != st.cur ensures PKeeps(Abs(st), Abs(st2), u, u in lost) {
      KeptAbs(st, st2, u, u in lost);
    }
  }

  lemma StaysAbs<S, T>(st: State<S, T>, st2: State<S, T>, lost: set<T>)
    requires Inv(st) && Inv(st2) && Stays(st, st2, lost)
    ensures st.cur in st.tealets && st2.cur in st2.tealets
    ensures PStay(Abs(st), Abs(st2), lost)
  {
    hide Inv, ImageIn, Broken, Kept;
    RunLength(st);
    CurNoImage(st2);
    forall u | u in st.tealets && u != st.cur ensures PKeeps(Abs(st), Abs(st2), u, u in lost) {
      KeptAbs(st, st2, u, u in lost);
    }
  }

  lemma SpawnsNowAbs<S, T>(st: State<S, T>, st2: State<S, T>, t: T, sp: int, far: int)
    requires Inv(st) && Inv(st2) && SpawnsNow(st, st2, t, sp, far) && far <= |st.core.mem|
    ensures st.cur in st.tealets && st2.cur in st2.tealets
    ensures PStep(Abs(st), Abs(st2), Begin(t, sp, far), {})
  {
    hide Inv, ImageIn, Broken, Kept;
    RunLength(st);
    RunLength(st2);
    var n := End(st.tealets[st.cur].far, |st.core.mem|);
    SliceOfSlice(st.core.mem, n, sp);
    PrefixOfPrefix(st.core.mem, n, |Abs(st2).run|);
    forall u | u in st.tealets && u != st.cur && u != t ensures PKeeps(Abs(st), Abs(st2), u, false) {
      KeptAbs(st, st2, u, false);
    }
  }

  lemma SpawnsLaterAbs<S, T>(st: State<S, T>, st2: State<S, T>, t: T, sp: int, far: int)
    requires Inv(st) && Inv(st2) && SpawnsLater(st, st2, t, sp, far) && 0 <= sp < far <= |st.core.mem|
    ensures st.cur in st.tealets && st2.cur in st2.tealets
    ensures PStep(Abs(st), Abs(st2), BeginParked(t, sp, far), {})
  {
    hide Inv, ImageIn, Broken, Kept;
    RunLength(st);
    CurNoImage(st2);
    var n := End(st.tealets[st.cur].far, |st.core.mem|);
    BandPrefix(st.core.mem, sp, far, n);
    forall u | u in st.tealets && u != st.cur && u != t ensures PKeeps(Abs(st), Abs(st2), u, false) {
      KeptAbs(st, st2, u, false);
    }
  }

  lemma BandPrefix(m: seq<byte>, sp: int, far: int, n: int)
    requires 0 <= sp < far <= |m| && 0 <= n <= |m|
    ensures Prefix(Slice(m, sp, far), n - sp) == Slice(Slice(m, 0, n), sp, Min(far, n))
  {
    if sp <= n {
      SubSlice(m, sp, far, 0, Min(far, n) - sp);
      SubSlice(m, 0, n, sp, Min(far, n));
    }
  }

  /** A step of the private machine after which a tealet without a stack becomes NEW again. */
  lemma Renew<T>(p: Private<T>, mid: Private<T>, p2: Private<T>, t: T, sp: int, leaving: Leaving, c: T, lost: set<T>)
    requires PResume(p, mid, t, sp, leaving, None, lost)
    requires p2 == mid.(broken := mid.broken - {c}) && c != t && c !in p.parked && c in mid.tealets && c !in mid.parked
    ensures PResume(p, p2, t, sp, leaving, Some(c), lost)
  {
    forall u | u in p.tealets && u != t && u != p.cur && u != c ensures PKeeps(p, p2, u, u in lost) {
      assert PKeeps(p, mid, u, u in lost);
    }
  }

  /** What the frame of a receiver does to a tealet that is NEW again shows in nothing but its status. */
  lemma RenewAbs<S, T>(st: State<S, T>, st2: State<S, T>, c: T)
    requires st.cur in st.tealets && c in st.tealets && c != st.cur && st.tealets[c].stack.None?
    requires st2.core == st.core && st2.cur == st.cur
    requires st2.tealets == st.tealets[c := st.tealets[c].(far := 0, stack := None, flags := NO_FLAGS)]
    ensures Abs(st2) == Abs(st).(broken := Abs(st).broken - {c}) && c !in Abs(st).parked && c in Abs(st).tealets
  {
    hide ImageOf;
    assert st2.tealets.Keys == st.tealets.Keys;
    forall u | u in st.tealets && u != c ensures ImageIn(st2, u) == ImageIn(st, u) && Broken(st2, u) == Broken(st, u) {
      hide *;
      RenewOther(st, st2, c, u);
    }
    assert ImageIn(st, c).None? && ImageIn(st2, c).None? && !Broken(st2, c);
    hide ImageIn, Broken;
    assert Abs(st2).parked == Abs(st).parked;
  }

  lemma RenewOther<S, T>(st: State<S, T>, st2: State<S, T>, c: T, u: T)
    requires u in st.tealets && u != c && u in st2.tealets && st2.core == st.core && st2.tealets[u] == st.tealets[u]
    ensures ImageIn(st2, u) == ImageIn(st, u) && Broken(st2, u) == Broken(st, u)
  {
    hide ImageOf;
  }

  /** The end of a legal call, in terms of the private machine. */
  lemma FinishAbs<S, T>(st: State<S, T>, x: Xfer<S, T>, st2: State<S, T>, renewed: Option<T>, t: T, sp: int,
                        leaving: Leaving, lost: set<T>)
    requires Inv(st) && Ready(x.st) && Known(x.st) && Balanced(x.st.locks + [false]) && x.st.count == |x.st.tealets|
    requires Finished(x, st2, renewed) && Resumes(st, x.st, t, sp, leaving, lost)
    requires renewed.Some? ==> renewed.value !in Abs(st).parked
    ensures st.cur in st.tealets && st2.cur in st2.tealets
    ensures PResume(Abs(st), Abs(st2), t, sp, leaving, renewed, lost)
  {
    hide Inv, Ready, Abs, PResume, Known, Resumes;
    var mid := Unlock(x.st);
    UnlockInv(x.st);
    KnownCur(x.st);
    ResumesCong(st, x.st, st, mid, t, sp, leaving, lost);
    ResumesAbs(st, mid, t, sp, leaving, lost);
    ResumesTo(st, x.st, t, sp, leaving, lost);
    if renewed.None? {
      AbsCong(mid, st2);
    } else {
      RenewAbs(mid, st2, renewed.value);
      Renew(Abs(st), Abs(mid), Abs(st2), t, sp, leaving, renewed.value, lost);
    }
  }

  lemma ResumesTo<S, T>(st: State<S, T>, st2: State<S, T>, t: T, sp: int, leaving: Leaving, lost: set<T>)
    requires Resumes(st, st2, t, sp, leaving, lost)
    ensures st2.cur == t && st.cur in st.tealets
  {
  }

  lemma AbsCong<S, T>(st: State<S, T>, st2: State<S, T>)
    requires st.cur in st.tealets && st2.core == st.core && st2.tealets == st.tealets && st2.cur == st.cur
    ensures Abs(st2) == Abs(st)
  {
    forall u ensures ImageIn(st2, u) == ImageIn(st, u) && Broken(st2, u) == Broken(st, u) { ImageCong(st, st2, u); }
  }

  /** A tealet that a legal panic makes NEW again was not suspended when the call was made. */
  lemma RenewedFree<S, T>(st: State<S, T>, x: Xfer<S, T>, r: T, gone: bool, saved: bool, c: T)
    requires Inv(st) && After(Lock(st), x.st, r, gone, saved) && c in x.st.tealets && Loose(x.st, c)
    ensures st.cur in st.tealets && c !in Abs(st).parked
  {
    hide Inv, ImageOf;
    CurNoImage(st);
    if c != st.cur {
      assert st.tealets[c].stack.None?;
    }
  }

  lemma SwitchStep<S, T>(st: State<S, T>, op: Op<S, T>)
    requires Inv(st) && Allowed(st, op) && (op.OpSwitch? || op.OpExit?)
    ensures st.cur in st.tealets && Apply(st, op).cur in Apply(st, op).tealets
    ensures PStep(Abs(st), Abs(Apply(st, op)), Seen(st, op), LostBy(st, op))
  {
    hide Inv, Ready, Transfer, Finish, CallLegal, CallAlive, CourseOf, KeepsTarget, IntactAttempt, PResume, PStay, Resumes, Stays,
      Abs, Known, After, Saves, Finished, CallLosses, EnvOk;
    var isExit := op.OpExit?;
    var delete := op.OpExit? && op.delete;
    CallStep(st, op.t, op.force, op.panic, op.nofail, isExit, delete, op.env, op.id);
  }

  lemma CallStep<S, T>(st: State<S, T>, t: T, force: bool, panic: bool, nofail: bool, isExit: bool, delete: bool,
                       env: Env, id: S)
    requires Inv(st) && Known(st) && CallOk(st, t, force, panic, nofail, isExit, delete, env, id)
    requires IntactAttempt(st, t, force || nofail)
    ensures Known(Lock(st)) && st.cur in st.tealets
    ensures var st2 := Finish(Transfer(Lock(st), t, force, panic, nofail, isExit, delete, env, id)).st;
            && st2.cur in st2.tealets
            && PStep(Abs(st), Abs(st2),
                     PassTo(st, CourseOf(st, t, force, panic, nofail, isExit, env), env.sp, LeavingOf(isExit, delete)),
                     CallLosses(st, t, force, nofail, isExit, env))
  {
    hide Inv, Ready, Transfer, Finish, CallLegal, CallAlive, CourseOf, KeepsTarget, IntactAttempt, PResume, PStay, Resumes, Stays,
      Abs, Known, After, Saves, Finished, CallLosses, LeavingOf;
    LockedStart(st);
    KnownCur(st);
    var st1 := Lock(st);
    CourseCong(st, st1, t, force, panic, nofail, isExit, env);
    LegalKeeps(st, t, force, panic, nofail, isExit, delete, env) by { InvReady(st); }
    IntactCong(st, st1, t, force || nofail);
    CallCourse(st1, t, force, panic, nofail, isExit, delete, env, id);
    CallCounts(st1, t, force, panic, nofail, isExit, delete, env, id);
    CallFinishes(st, t, force, panic, nofail, isExit, delete, env, id);
    TransferRefines(st1, t, force, panic, nofail, isExit, delete, env, id);
    var x := Transfer(st1, t, force, panic, nofail, isExit, delete, env, id);
    CountsSize(st1, x.st);
    var st2 := Finish(x).st;
    var lost := CallLosses(st, t, force, nofail, isExit, env);
    LossesCong(st, st1, t, force, nofail, isExit, env);
    var c := CourseOf(st, t, force, panic, nofail, isExit, env);
    match c
    case Remain =>
      FinishedStays(x, st2);
      StaysCong(st1, x.st, st, st2, lost);
      StaysAbs(st, st2, lost);
    case Leave(r, p, n) =>
      ResumesCong(st1, x.st, st, x.st, r, env.sp, LeavingOf(isExit, delete), lost);
      FinishedRenews(x, st2, Renewed(st, c));
      if Renewed(st, c).Some? {
        RenewedFree(st, x, r, isExit && delete, Saves(st1, isExit, n), Renewed(st, c).value);
      }
      FinishAbs(st, x, st2, Renewed(st, c), r, env.sp, LeavingOf(isExit, delete), lost);
  }

  lemma InvReady<S, T>(st: State<S, T>)
    requires Inv(st)
    ensures Ready(st)
  {
    hide Solid;
  }

  lemma IntactCong<S, T>(st: State<S, T>, st2: State<S, T>, t: T, force: bool)
    requires Known(st) && Known(st2) && t in st.tealets && IntactAttempt(st, t, force)
    requires st2.core == st.core && st2.tealets == st.tealets && st2.cur == st.cur && st2.main == st.main
    ensures IntactAttempt(st2, t, force)
  {
    hide GivesUp, DroppedStillThere;
  }

  lemma FinishedStays<S, T>(x: Xfer<S, T>, st2: State<S, T>)
    requires Finished(x, st2, None)
    ensures Inv(st2) && st2.core == x.st.core && st2.tealets == x.st.tealets && st2.cur == x.st.cur
  {
    hide Inv;
  }

  lemma FinishedRenews<S, T>(x: Xfer<S, T>, st2: State<S, T>, c: Option<T>)
    requires Finished(x, st2, c)
    ensures c.Some? ==> c.value in x.st.tealets && Loose(x.st, c.value)
  {
    hide Inv;
  }

  lemma ResumesCong<S, T>(a: State<S, T>, b: State<S, T>, a2: State<S, T>, b2: State<S, T>, t: T, sp: int,
                          leaving: Leaving, lost: set<T>)
    requires Resumes(a, b, t, sp, leaving, lost)
    requires a2.core == a.core && a2.tealets == a.tealets && a2.cur == a.cur
    requires b2.core == b.core && b2.tealets == b.tealets && b2.cur == b.cur
    ensures Resumes(a2, b2, t, sp, leaving, lost)
  {
    forall u ensures ImageIn(a2, u) == ImageIn(a, u) && Broken(a2, u) == Broken(a, u) { ImageCong(a, a2, u); }
    forall u ensures ImageIn(b2, u) == ImageIn(b, u) && Broken(b2, u) == Broken(b, u) { ImageCong(b, b2, u); }
    hide ImageIn, Broken;
    forall u | u in a2.tealets && u != a2.cur && u != t ensures Kept(a2, b2, u, u in lost) {
      assert Kept(a, b, u, u in lost);
    }
  }

  lemma StaysCong<S, T>(a: State<S, T>, b: State<S, T>, a2: State<S, T>, b2: State<S, T>, lost: set<T>)
    requires Stays(a, b, lost)
    requires a2.core == a.core && a2.tealets == a.tealets && a2.cur == a.cur
    requires b2.core == b.core && b2.tealets == b.tealets && b2.cur == b.cur
    ensures Stays(a2, b2, lost)
  {
    forall u ensures ImageIn(a2, u) == ImageIn(a, u) && Broken(a2, u) == Broken(a, u) { ImageCong(a, a2, u); }
    forall u ensures ImageIn(b2, u) == ImageIn(b, u) && Broken(b2, u) == Broken(b, u) { ImageCong(b, b2, u); }
    hide ImageIn, Broken;
    forall u | u in a2.tealets && u != a2.cur ensures Kept(a2, b2, u, u in lost) {
      assert Kept(a, b, u, u in lost);
    }
  }

  lemma BoundCases<S, T>(y: Xfer<S, T>, t: T, creator: T, now: bool)
    requires t in y.st.tealets
    ensures var x := Bound(y, t, creator, now);
            if y.code.Failed() then
              && x.code == y.code
              && x.st.tealets == ResetT(y.st, t).tealets && x.st.core == y.st.core
              && x.st.cur == (if now then y.st.cur else creator)
            else x.code == Ok && x.st.tealets == y.st.tealets && x.st.core == y.st.core && x.st.cur == y.st.cur
  {
  }

  lemma SpawnsNowCong<S, T>(a: State<S, T>, b: State<S, T>, a2: State<S, T>, b2: State<S, T>, t: T, sp: int,
                            far: int)
    requires SpawnsNow(a, b, t, sp, far)
    requires a2.core == a.core && a2.tealets == a.tealets && a2.cur == a.cur
    requires b2.core == b.core && b2.tealets == b.tealets && b2.cur == b.cur
    ensures SpawnsNow(a2, b2, t, sp, far)
  {
    forall u ensures ImageIn(a2, u) == ImageIn(a, u) && Broken(a2, u) == Broken(a, u) { ImageCong(a, a2, u); }
    forall u ensures ImageIn(b2, u) == ImageIn(b, u) && Broken(b2, u) == Broken(b, u) { ImageCong(b, b2, u); }
    hide ImageIn, Broken;
    forall u | u in a2.tealets && u != a2.cur && u != t ensures Kept(a2, b2, u, false) {
      assert Kept(a, b, u, false);
    }
  }

  lemma SpawnsLaterCong<S, T>(a: State<S, T>, b: State<S, T>, a2: State<S, T>, b2: State<S, T>, t: T, sp: int, far: int)
    requires SpawnsLater(a, b, t, sp, far)
    requires a2.core == a.core && a2.tealets == a.tealets && a2.cur == a.cur
    requires b2.core == b.core && b2.tealets == b.tealets && b2.cur == b.cur
    ensures SpawnsLater(a2, b2, t, sp, far)
  {
    forall u ensures ImageIn(a2, u) == ImageIn(a, u) && Broken(a2, u) == Broken(a, u) { ImageCong(a, a2, u); }
    forall u ensures ImageIn(b2, u) == ImageIn(b, u) && Broken(b2, u) == Broken(b, u) { ImageCong(b, b2, u); }
    hide ImageIn, Broken;
    forall u | u in a2.tealets && u != a2.cur && u != t ensures Kept(a2, b2, u, false) {
      assert Kept(a, b, u, false);
    }
  }

  /** START_SWITCH, from the lock taken at the call to the lock released by whoever goes on. */
  lemma StartNowStep<S, T>(st: State<S, T>, t: T, v: TealetV<S, T>, r: Resume<T>, env: Env, id: S)
    requires Inv(st) && Known(st) && Binds(st, t, v) && EnvOk(st, env, id) && st.cur in st.tealets
    requires Known(SetT(SetT(Lock(st), st.cur, st.tealets[st.cur].(resume := r)), t, v))
    requires Inv(StartNow(Lock(st), t, v, r, env, id).st)
    ensures var x := StartNow(Lock(st), t, v, r, env, id);
            && x.st.cur in x.st.tealets
            && PStep(Abs(st), Abs(x.st), StartOf(st, t, v.far, true, env), {})
  {
    hide Solid, SwitchStack, Abs, PStay, SpawnsNow, Stays, Known, EnvOk;
    var st1 := Lock(st);
    ReadyLocks(st, st.locks + [true]);
    assert EnvOk(st1, env, id) by { EnvCong(st, st1, env, id); }
    var s := SetT(SetT(st1, st.cur, st.tealets[st.cur].(resume := r)), t, v);
    var y := SwitchStack(s, t, env, id);
    NewIsFree(st, t);
    SwitchStackFrame(s, t, env, id);
    LockedStart(st);
    StartNowGoes(st1, t, v, r, env, id);
    StartsCong(st, st1, v.far, env);
    var x := StartNow(st1, t, v, r, env, id);
    if y.moved {
      StartNowMoves(st1, t, v, r, env, id);
      NopCode(st1, y, t);
      assert t in y.st.tealets by { SpawnAlive(st1, y.st, t, env.sp, v.far); }
      BoundCases(y, t, st.cur, true);
      SpawnsNowCong(st1, y.st, st, x.st, t, env.sp, v.far);
      SpawnsNowAbs(st, x.st, t, env.sp, v.far);
    } else {
      StartNowStays(st1, t, v, r, env, id);
      BoundCases(y, t, st.cur, true);
      StaysCong(st1, ResetT(y.st, t), st, x.st, {});
      StaysAbs(st, x.st, {});
    }
  }

  lemma StartsCong<S, T>(st: State<S, T>, st2: State<S, T>, far: int, env: Env)
    requires Known(st) && Known(st2) && st2.core == st.core
    ensures StartsNow(st2, far, env) == StartsNow(st, far, env)
  {
    hide CanGrow, Needy;
  }

  lemma EnvCong<S, T>(st: State<S, T>, st2: State<S, T>, env: Env, id: S)
    requires st.cur in st.tealets && EnvOk(st, env, id)
    requires st2.core == st.core && st2.tealets == st.tealets && st2.cur == st.cur
    ensures EnvOk(st2, env, id)
  {
  }

  lemma SpawnAlive<S, T>(st: State<S, T>, st2: State<S, T>, t: T, sp: int, far: int)
    requires SpawnsNow(st, st2, t, sp, far)
    ensures t in st2.tealets
  {
    hide ImageIn, Broken, Kept;
  }

  lemma NopCode<S, T>(st: State<S, T>, y: Xfer<S, T>, t: T)
    requires y.moved && (y.code == Saved || y.code == Ok)
    ensures !y.code.Failed()
  {
  }

  /** START_DEFAULT, from the lock taken at the call to its release by the creator. */
  lemma StartLaterStep<S, T>(st: State<S, T>, t: T, v: TealetV<S, T>, env: Env, id: S)
    requires Inv(st) && Known(st) && Binds(st, t, v) && 0 <= env.sp < v.far && id !in st.core.stacks && st.cur in st.tealets
    requires Above(st.core.stacks, st.core.plist, v.far)
    requires Known(SetT(Lock(st), t, v).(cur := t))
    requires Inv(StartLater(Lock(st), t, v, env, id).st)
    ensures var x := StartLater(Lock(st), t, v, env, id);
            && x.st.cur in x.st.tealets
            && PStep(Abs(st), Abs(x.st), StartOf(st, t, v.far, false, env), {})
  {
    hide Solid, SwitchStack, Abs, PStay, SpawnsLater, Stays, Known, Above;
    var st1 := Lock(st);
    ReadyLocks(st, st.locks + [true]);
    var s := SetT(st1, t, v).(cur := t);
    NewIsFree(st, t);
    var y := SwitchStack(s, st.cur, env, id);
    SwitchStackFrame(s, st.cur, env, id);
    assert s.tealets[st.cur].stack.None? by { CurNoStack(st); }
    StartLaterGoes(st1, t, v, env, id);
    var x := StartLater(st1, t, v, env, id);
    StandInCount(st1, t, v, env, id);
    if y.moved {
      StartLaterMoves(st1, t, v, env, id);
      var y2 := y.(st := y.st.(prev := st1.prev));
      BoundCases(y2, t, st.cur, false);
      SpawnsLaterCong(st1, y2.st, st, x.st, t, env.sp, v.far);
      SpawnsLaterAbs(st, x.st, t, env.sp, v.far);
    } else {
      StartLaterStays(st1, t, v, env, id);
      BoundCases(y, t, st.cur, false);
      StaysCong(st1, ResetT(y.st, t).(cur := st.cur), st, x.st, {});
      StaysAbs(st, x.st, {});
    }
  }

  lemma CurNoStack<S, T>(st: State<S, T>)
    requires Inv(st)
    ensures st.cur in st.tealets && st.tealets[st.cur].stack.None?
  {
    hide CoreOk, RestOk, MainOk, Owned, Known;
  }

  lemma RunStep<S, T>(st: State<S, T>, t: T, far: int, now: bool, env: Env, id: S)
    requires Inv(st) && Known(st) && RunOk(st, t, far, now, env, id)
    ensures st.cur in st.tealets
    ensures var x := Run(st, t, far, now, env, id);
            && x.st.cur in x.st.tealets
            && PStep(Abs(st), Abs(x.st), if st.tealets[t].flags != NO_FLAGS then Stay else StartOf(st, t, far, now, env), {})
  {
    hide Solid, StartNow, StartLater, Abs, PStep, Above, EnvOk;
    SolidCur(st, None);
    RunInv(st, t, far, now, env, id);
    if st.tealets[t].flags != NO_FLAGS {
      StayStep(st, st);
    } else {
      var st1 := Lock(st);
      ReadyLocks(st, st.locks + [true]);
      NewIsFree(st, t);
      var v := st.tealets[t].(far := far, flags := NO_FLAGS.(bound := true));
      if now {
        StartNowSafe(st1, t, v, InRun(t), env, id) by { EnvCong(st, st1, env, id); }
        StartNowStep(st, t, v, InRun(t), env, id);
      } else {
        var v2 := v.(resume := NotStarted(t, st.cur));
        StartLaterSafe(st1, t, v2, env, id);
        StartLaterStep(st, t, v2, env, id);
      }
    }
  }

  lemma StayStep<S, T>(st: State<S, T>, st2: State<S, T>)
    requires Inv(st) && Inv(st2) && st2.tealets == st.tealets && st2.cur == st.cur
    requires st2.core.stacks == st.core.stacks && st2.core.mem == st.core.mem
    ensures st.cur in st.tealets && PStep(Abs(st), Abs(st2), Stay, {})
  {
    hide ImageIn, Broken, Inv;
    CurNoImage(st);
    forall u | u in st.tealets ensures ImageIn(st2, u) == ImageIn(st, u) && Broken(st2, u) == Broken(st, u) {
      SameImage(st, st2, u);
    }
  }

  lemma ForkBinds<S, T>(st: State<S, T>, t: T, env: Env, id: S)
    requires Inv(st) && Known(st) && ForkOk(st, t, env, id)
    requires st.tealets[t].flags == NO_FLAGS && st.tealets[st.cur].far != FURTHEST
    ensures var cur := st.tealets[st.cur];
            var v := st.tealets[t].(far := cur.far,
                                    flags := NO_FLAGS.(bound := true, forked := true, mainLineage := cur.flags.mainLineage));
            Binds(st, t, v)
    ensures Above(st.core.stacks, st.core.plist, st.tealets[st.cur].far)
  {
    hide Owned, StackOk, RestOk, MainOk, StacksOk, Staircase, ListExact, Above;
  }

  lemma ForkStep<S, T>(st: State<S, T>, t: T, now: bool, env: Env, id: S)
    requires Inv(st) && Known(st) && ForkOk(st, t, env, id)
    ensures st.cur in st.tealets
    ensures var x := Fork(st, t, now, env, id);
            && x.st.cur in x.st.tealets
            && PStep(Abs(st), Abs(x.st),
                     if st.tealets[t].flags != NO_FLAGS || st.tealets[st.cur].far == FURTHEST then Stay
                     else StartOf(st, t, st.tealets[st.cur].far, now, env), {})
  {
    hide Solid, StartNow, StartLater, Abs, PStep, Above, Binds;
    SolidCur(st, None);
    ForkInv(st, t, now, env, id);
    var cur := st.tealets[st.cur];
    if st.tealets[t].flags != NO_FLAGS || cur.far == FURTHEST {
      StayStep(st, st);
    } else {
      var st1 := Lock(st);
      ReadyLocks(st, st.locks + [true]);
      ForkBinds(st, t, env, id);
      var v := st.tealets[t].(far := cur.far,
                              flags := NO_FLAGS.(bound := true, forked := true, mainLineage := cur.flags.mainLineage));
      assert Binds(st1, t, v) by { BindsCong(st, st1, t, v, v); }
      if now {
        var r := InFork(t, st.cur, true);
        StartNowSafe(st1, t, v, r, env, id);
        StartNowStep(st, t, v, r, env, id);
      } else {
        var v2 := v.(resume := InFork(t, st.cur, false));
        BindsCong(st, st, t, v, v2);
        BindsCong(st, st1, t, v, v2);
        StartLaterSafe(st1, t, v2, env, id);
        StartLaterStep(st, t, v2, env, id);
      }
    }
  }

  lemma BindsCong<S, T>(st: State<S, T>, st2: State<S, T>, t: T, v: TealetV<S, T>, v2: TealetV<S, T>)
    requires Binds(st, t, v) && st2.core == st.core && st2.tealets == st.tealets && v2 == v.(resume := v2.resume)
    ensures Binds(st2, t, v2)
  {
  }

  lemma WriteStep<S, T>(st: State<S, T>, at: int, b: byte)
    requires Inv(st) && 0 <= at < |st.core.mem| && st.cur in st.tealets && at < st.tealets[st.cur].far
    ensures PStep(Abs(st), Abs(Write(st, at, b)), Store(at, b), {})
  {
    hide Inv, Broken, ImageOf;
    var st2 := Write(st, at, b);
    WriteInv(st, at, b);
    RunLength(st);
    RunLength(st2);
    forall u | u in st.tealets ensures ImageIn(st2, u) == ImageIn(st, u) && Broken(st2, u) == Broken(st, u) {
      WriteImage(st, at, b, u);
    }
    hide ImageIn;
    StoreRun(st.core.mem, End(st.tealets[st.cur].far, |st.core.mem|), at, b);
  }

  lemma StoreRun(m: seq<byte>, n: int, at: int, b: byte)
    requires 0 <= at < n <= |m|
    ensures |Patch(m, at, [b])| == |m| && Slice(Patch(m, at, [b]), 0, n) == Slice(m, 0, n)[at := b]
  {
    assert Patch(m, at, [b]) == m[at := b];
  }

  /** A write below the boundary of the running tealet reaches no other tealet. */
  lemma WriteImage<S, T>(st: State<S, T>, at: int, b: byte, u: T)
    requires Inv(st) && 0 <= at < |st.core.mem| && st.cur in st.tealets && at < st.tealets[st.cur].far && u in st.tealets
    ensures ImageIn(Write(st, at, b), u) == ImageIn(st, u) && Broken(Write(st, at, b), u) == Broken(st, u)
  {
    hide RestOk, MainOk, Owned, StackOk, Staircase, ListExact;
    if ImageIn(st, u).Some? {
      WriteStack(st.core, st.tealets[st.cur].far, st.tealets[u].stack.value, at, b);
    }
  }

  lemma WriteStack<S>(c: Core<S>, b: int, s: S, at: int, x: byte)
    requires CoreOk(c, b, None) && s in c.stacks && !c.stacks[s].defunct && 0 <= at < |c.mem| && at < b
    ensures ImageOf(c.stacks[s], Patch(c.mem, at, [x])) == ImageOf(c.stacks[s], c.mem)
  {
    hide Tiled, Concat, Staircase;
    var v := c.stacks[s];
    var m2 := Patch(c.mem, at, [x]);
    assert |m2| == |c.mem|;
    if v.Partial() {
      ListedEdge(c, b, None, s);
      PatchBelow(c.mem, at, [x], v.Edge(), End(v.far, |c.mem|));
    } else {
      SavedImage(v, c.mem);
      SavedImage(v, m2);
    }
  }

  lemma NewStep<S, T>(st: State<S, T>, nt: T)
    requires Inv(st) && nt !in st.tealets && st.cur in st.tealets
    ensures var m := New(st, nt);
            && m.st.cur in m.st.tealets
            && PStep(Abs(st), Abs(m.st), if st.core.alloc(st.core.ticks) then Create(nt) else Stay, {})
  {
    hide Inv, ImageIn, Broken;
    var m := New(st, nt);
    NewInv(st, nt);
    if m.fail {
      StayStep(st, m.st);
    } else {
      NoStackNoImage(m.st, nt);
      forall u | u in st.tealets ensures ImageIn(m.st, u) == ImageIn(st, u) && Broken(m.st, u) == Broken(st, u) {
        SameImage(st, m.st, u);
      }
    }
  }

  lemma DuplicateStep<S, T>(st: State<S, T>, t: T, nt: T)
    requires Inv(st) && Known(st) && t in st.tealets && t != st.cur && t != st.main && nt !in st.tealets
    ensures var m := Duplicate(st, t, nt);
            && m.st.cur in m.st.tealets
            && PStep(Abs(st), Abs(m.st), if st.core.alloc(st.core.ticks) then Copy(t, nt) else Stay, {})
  {
    hide Inv, ImageIn, Broken, Duplicate;
    var m := Duplicate(st, t, nt);
    DuplicateInv(st, t, nt);
    DuplicateFrame(st, t, nt);
    if m.fail {
      StayStep(st, m.st);
    } else {
      forall u | u in st.tealets ensures ImageIn(m.st, u) == ImageIn(st, u) && Broken(m.st, u) == Broken(st, u) {
        DupImage(st, t, nt, u);
      }
      CopyImage(st, t, nt);
      assert m.st.tealets.Keys == st.tealets.Keys + {nt};
    }
  }

  lemma DuplicateFrame<S, T>(st: State<S, T>, t: T, nt: T)
    requires Known(st) && t in st.tealets && nt !in st.tealets
    ensures var m := Duplicate(st, t, nt);
            && m.st.cur == st.cur && m.st.core.mem == st.core.mem && m.st.cur in m.st.tealets
            && (m.fail <==> !st.core.alloc(st.core.ticks))
            && (m.fail ==> m.st.tealets == st.tealets && m.st.core.stacks == st.core.stacks)
            && (!m.fail ==> m.st.tealets == st.tealets[nt := st.tealets[t]])
  {
  }

  lemma DupImage<S, T>(st: State<S, T>, t: T, nt: T, u: T)
    requires Known(st) && t in st.tealets && nt !in st.tealets && u in st.tealets && !Duplicate(st, t, nt).fail
    ensures var m := Duplicate(st, t, nt); ImageIn(m.st, u) == ImageIn(st, u) && Broken(m.st, u) == Broken(st, u)
  {
  }

  lemma CopyImage<S, T>(st: State<S, T>, t: T, nt: T)
    requires Known(st) && t in st.tealets && nt !in st.tealets && !Duplicate(st, t, nt).fail
    ensures var m := Duplicate(st, t, nt); ImageIn(m.st, nt) == ImageIn(st, t) && Broken(m.st, nt) == Broken(st, t)
    ensures var m := Duplicate(st, t, nt); nt in m.st.tealets && m.st.core.mem == st.core.mem
  {
  }

  lemma DeleteStep<S, T>(st: State<S, T>, t: T)
    requires Inv(st) && Known(st) && t in st.tealets && t != st.cur && t != st.main
    ensures var st2 := Delete(st, t);
            st2.cur in st2.tealets && PStep(Abs(st), Abs(st2), Drop(t), {})
  {
    hide Inv, ImageIn, Broken, Decref;
    var st2 := Delete(st, t);
    DeleteInv(st, t);
    if st.tealets[t].stack.Some? { DecrefMem(st.core, st.tealets[t].stack.value); }
    forall u | u in st2.tealets ensures ImageIn(st2, u) == ImageIn(st, u) && Broken(st2, u) == Broken(st, u) {
      DeleteImage(st, t, u);
    }
  }

  lemma DeleteImage<S, T>(st: State<S, T>, t: T, u: T)
    requires Inv(st) && Known(st) && t in st.tealets && u in st.tealets && u != t
    ensures ImageIn(Delete(st, t), u) == ImageIn(st, u) && Broken(Delete(st, t), u) == Broken(st, u)
  {
    hide CoreOk, RestOk, MainOk, RunnerOk, ImageOf, Decref;
    if st.tealets[t].stack.Some? {
      var s := st.tealets[t].stack.value;
      DecrefRecords(st.core, s);
      if st.tealets[u].stack == Some(s) {
        Shared(st, t, u);
        CountImage(st.core.stacks[s], st.core.stacks[s].refcount - 1, st.core.mem);
      }
    }
  }

  lemma CountImage(v: StackV, n: int, mem: seq<byte>)
    ensures ImageOf(v.(refcount := n), mem) == ImageOf(v, mem)
  {
  }

  lemma SetFarPStep<S, T>(st: State<S, T>, t: T, far: int)
    requires Inv(st) && t in st.tealets && st.cur in st.tealets
    requires t == st.main ==> FarFits(st, far)
    ensures var st2 := SetFar(st, t, far).st;
            && st2.cur in st2.tealets
            && PStep(Abs(st), Abs(st2), if t == st.main && st.cur == st.main then Rebound(End(far, |st.core.mem|)) else Stay,
                     {})
  {
    hide Inv, ImageIn, Broken, Above;
    var st2 := SetFar(st, t, far).st;
    SetFarStep(st, t, far);
    if t != st.main {
      StayStep(st, st);
    } else if st.cur != st.main {
      assert st2.tealets == st.tealets;
      StayStep(st, st2);
    } else {
      RunLength(st);
      RunLength(st2);
      PrefixOfPrefix(st.core.mem, |Abs(st).run|, |Abs(st2).run|);
      forall u | u in st.tealets ensures ImageIn(st2, u) == ImageIn(st, u) && Broken(st2, u) == Broken(st, u) {
        FarImage(st, t, far, u);
      }
    }
  }

  lemma FarImage<S, T>(st: State<S, T>, t: T, far: int, u: T)
    requires t in st.tealets && u in st.tealets
    ensures var st2 := SetFar(st, t, far).st; ImageIn(st2, u) == ImageIn(st, u) && Broken(st2, u) == Broken(st, u)
  {
    hide ImageOf;
  }

  /** The refinement: each operation of the shared-stack machine is one step of the machine in which every tealet
      owns its stack. */
  lemma StepRefines<S, T>(st: State<S, T>, op: Op<S, T>)
    requires Inv(st) && Allowed(st, op)
    ensures var st2 := Apply(st, op);
            && Inv(st2) && st.cur in st.tealets && st2.cur in st2.tealets
            && PStep(Abs(st), Abs(st2), Seen(st, op), LostBy(st, op))
  {
    hide Inv, CallLegal, CallAlive, RunOk, ForkOk, IntactAttempt, Run, Fork, Switch, Exit, New, Duplicate, Delete, Write, SetFar,
      FarFits, PStep, Abs, StartOf, PassTo, CourseOf, CallLosses;
    StepInv(st, op);
    if !op.OpSwitch? && !op.OpExit? {
      match op
      case OpWrite(at, b) => WriteStep(st, at, b); CurStays(st, at, b);
      case OpNew(nt) => NewStep(st, nt);
      case OpRun(t, far, now, env, id) => RunStep(st, t, far, now, env, id);
      case OpFork(t, now, env, id) => ForkStep(st, t, now, env, id);
      case OpDuplicate(t, nt) => DuplicateStep(st, t, nt);
      case OpDelete(t) => DeleteStep(st, t);
      case OpSetFar(t, far) => SetFarPStep(st, t, far);
    } else {
      SwitchStep(st, op);
    }
  }

  lemma CurStays<S, T>(st: State<S, T>, at: int, b: byte)
    requires st.cur in st.tealets
    ensures Write(st, at, b).cur in Write(st, at, b).tealets
  {
  }
}
