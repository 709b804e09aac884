/** The statistics counters of main always equal the sums over the blocks that are alive. */
module Accounting {
  import opened Base
  import opened StackModel
  import opened StackProofs
  import opened TransferModel
  import opened Safety
  import opened Operations
  import opened Refinement
  import opened PrivateStacks
  import opened Calls
  import opened Spawning
  import opened Machine
  import opened Runs

  /* ---- sums over finite sets ---- */

  ghost function Sum<A>(xs: set<A>, h: A -> int): int {
    if xs == {} then 0 else var x :| x in xs; h(x) + Sum(xs - {x}, h)
  }

  lemma {:induction false} SumPick<A>(xs: set<A>, h: A -> int, x: A)
    requires x in xs
    ensures Sum(xs, h) == h(x) + Sum(xs - {x}, h)
  {
    var y :| y in xs && Sum(xs, h) == h(y) + Sum(xs - {y}, h);
    if y != x {
      SumPick(xs - {y}, h, x);
      SumPick(xs - {x}, h, y);
      assert xs - {y} - {x} == xs - {x} - {y};
    }
  }

  lemma {:induction false} SumSame<A>(xs: set<A>, h: A -> int, k: A -> int)
    requires forall x :: x in xs ==> h(x) == k(x)
    ensures Sum(xs, h) == Sum(xs, k)
  {
    if xs != {} {
      var x :| x in xs;
      SumPick(xs, h, x);
      SumPick(xs, k, x);
      SumSame(xs - {x}, h, k);
    }
  }

  lemma {:induction false} SumLe<A>(xs: set<A>, h: A -> int, k: A -> int)
    requires forall x :: x in xs ==> h(x) <= k(x)
    ensures Sum(xs, h) <= Sum(xs, k)
    ensures Sum(xs, h) == Sum(xs, k) <==> forall x :: x in xs ==> h(x) == k(x)
  {
    if xs != {} {
      var x :| x in xs;
      SumPick(xs, h, x);
      SumPick(xs, k, x);
      SumLe(xs - {x}, h, k);
    }
  }

  /** Changing the value at one point. */
  lemma SumChange<A>(xs: set<A>, h: A -> int, k: A -> int, x: A)
    requires x in xs && forall y :: y in xs && y != x ==> h(y) == k(y)
    ensures Sum(xs, k) == Sum(xs, h) - h(x) + k(x)
  {
    SumPick(xs, h, x);
    SumPick(xs, k, x);
    SumSame(xs - {x}, h, k);
  }

  /** Adding a point. */
  lemma SumAdd<A>(xs: set<A>, h: A -> int, k: A -> int, x: A)
    requires x !in xs && forall y :: y in xs ==> h(y) == k(y)
    ensures Sum(xs + {x}, k) == Sum(xs, h) + k(x)
  {
    SumPick(xs + {x}, k, x);
    assert xs + {x} - {x} == xs;
    SumSame(xs, h, k);
  }

  /** Dropping a point. */
  lemma SumDrop<A>(xs: set<A>, h: A -> int, k: A -> int, x: A)
    requires x in xs && forall y :: y in xs && y != x ==> h(y) == k(y)
    ensures Sum(xs - {x}, k) == Sum(xs, h) - h(x)
  {
    SumPick(xs, h, x);
    SumSame(xs - {x}, h, k);
  }

  /* ---- the books of the saved stacks ---- */

  ghost function BytesOf<S>(stacks: map<S, StackV>, s: S): int { if s in stacks then StackBytes(stacks[s]) else 0 }

  ghost function ChunksOf<S>(stacks: map<S, StackV>, s: S): int { if s in stacks then 1 + |stacks[s].more| else 0 }

  ghost function AllBytes<S>(stacks: map<S, StackV>): int { Sum(stacks.Keys, s => BytesOf(stacks, s)) }

  ghost function AllChunks<S>(stacks: map<S, StackV>): int { Sum(stacks.Keys, s => ChunksOf(stacks, s)) }

  /** g_stack_bytes, g_stack_count and g_stack_chunk_count describe the live stacks; `rest` and `blocks` are the bytes
      and blocks that hold tealets. */
  ghost predicate Books<S>(c: Core<S>, rest: int, blocks: int) {
    && c.stats.stackBytes == AllBytes(c.stacks)
    && c.stats.stackCount == |c.stacks|
    && c.stats.chunkCount == AllChunks(c.stacks)
    && c.stats.bytes == rest + c.stats.stackBytes
    && c.stats.blocks == blocks + c.stats.chunkCount
  }

  lemma ChangeBooks<S>(stacks: map<S, StackV>, s: S, v: StackV)
    requires s in stacks
    ensures var m := stacks[s := v];
            && AllBytes(m) == AllBytes(stacks) - StackBytes(stacks[s]) + StackBytes(v)
            && AllChunks(m) == AllChunks(stacks) - |stacks[s].more| + |v.more|
            && |m| == |stacks|
  {
    var m := stacks[s := v];
    assert m.Keys == stacks.Keys;
    assert |m| == |m.Keys| && |stacks| == |stacks.Keys|;
    SumChange(stacks.Keys, u => BytesOf(stacks, u), u => BytesOf(m, u), s);
    SumChange(stacks.Keys, u => ChunksOf(stacks, u), u => ChunksOf(m, u), s);
  }

  lemma AddBooks<S>(stacks: map<S, StackV>, s: S, v: StackV)
    requires s !in stacks
    ensures var m := stacks[s := v];
            && AllBytes(m) == AllBytes(stacks) + StackBytes(v)
            && AllChunks(m) == AllChunks(stacks) + 1 + |v.more|
            && |m| == |stacks| + 1
  {
    var m := stacks[s := v];
    assert m.Keys == stacks.Keys + {s};
    assert |m| == |m.Keys| && |stacks| == |stacks.Keys|;
    SumAdd(stacks.Keys, u => BytesOf(stacks, u), u => BytesOf(m, u), s);
    SumAdd(stacks.Keys, u => ChunksOf(stacks, u), u => ChunksOf(m, u), s);
  }

  lemma DropBooks<S>(stacks: map<S, StackV>, s: S)
    requires s in stacks
    ensures var m := stacks - {s};
            && AllBytes(m) == AllBytes(stacks) - StackBytes(stacks[s])
            && AllChunks(m) == AllChunks(stacks) - 1 - |stacks[s].more|
            && |m| == |stacks| - 1
  {
    var m := stacks - {s};
    assert m.Keys == stacks.Keys - {s};
    assert |m| == |m.Keys| && |stacks| == |stacks.Keys|;
    SumDrop(stacks.Keys, u => BytesOf(stacks, u), u => BytesOf(m, u), s);
    SumDrop(stacks.Keys, u => ChunksOf(stacks, u), u => ChunksOf(m, u), s);
  }

  lemma DecrefBooks<S>(c: Core<S>, s: S, rest: int, blocks: int)
    requires Books(c, rest, blocks) && s in c.stacks
    ensures Books(Decref(c, s), rest, blocks)
  {
    hide AllBytes, AllChunks;
    var v := c.stacks[s];
    if v.refcount > 1 {
      ChangeBooks(c.stacks, s, v.(refcount := v.refcount - 1));
    } else {
      DropBooks(c.stacks, s);
    }
  }

  lemma GrowStackBooks<S>(c: Core<S>, s: S, size: int, rest: int, blocks: int)
    requires s in c.stacks && Books(c, rest, blocks)
    requires c.stacks[s].saved < size && 0 <= c.stacks[s].Edge() && c.stacks[s].first.near + size <= |c.mem|
    ensures Books(GrowStack(c, s, size).core, rest, blocks) && s in GrowStack(c, s, size).core.stacks
  {
    hide AllBytes, AllChunks, Concat;
    var v := c.stacks[s];
    var chunk := ChunkV(v.Edge(), Slice(c.mem, v.Edge(), v.first.near + size));
    assert |chunk.data| == size - v.saved;
    ConcatAppend(v.more, chunk);
    hide Slice;
    ChangeBooks(c.stacks, s, v.(saved := size, more := v.more + [chunk]));
  }

  lemma DefunctBooks<S>(c: Core<S>, s: S, rest: int, blocks: int)
    requires s in c.stacks && Books(c, rest, blocks)
    ensures Books(Defunct(c, s), rest, blocks)
  {
    hide AllBytes, AllChunks;
    var v := c.stacks[s];
    ChangeBooks(c.stacks, s, v.(defunct := true, saved := 0, more := []));
  }

  lemma GrowToBooks<S>(c: Core<S>, s: S, stop: int, failOk: bool, mainStack: Option<S>, rest: int, blocks: int)
    requires StacksOk(c) && s in c.stacks && c.stacks[s].Partial()
    requires stop <= |c.mem| || c.stacks[s].far <= |c.mem|
    requires Books(c, rest, blocks)
    ensures Books(GrowTo(c, s, stop, failOk, mainStack).core, rest, blocks)
  {
    hide Tiled, Concat, Books, Defunct, GrowStack;
    var v := c.stacks[s];
    var size := Min(v.far, stop) - v.first.near;
    if size > v.saved {
      GrowStackBooks(c, s, size, rest, blocks);
      DefunctBooks(GrowStack(c, s, size).core, s, rest, blocks);
    }
  }

  lemma ListBooks<S>(c: Core<S>, list: seq<S>, rest: int, blocks: int)
    requires Books(c, rest, blocks)
    ensures Books(c.(plist := list), rest, blocks)
  {
    hide AllBytes, AllChunks;
  }

  lemma {:induction false} GrowListBooks<S>(c: Core<S>, todo: seq<S>, stop: int, target: Option<S>, failOk: bool,
                                            mainStack: Option<S>, rest: int, blocks: int)
    requires GrowPre(c, todo, stop, target) && forall s :: s in todo ==> s in c.stacks
    requires Books(c, rest, blocks)
    ensures Books(GrowList(c, todo, stop, target, failOk, mainStack).core, rest, blocks)
    decreases |todo|
  {
    hide Books, StackOk, GrowTo, HeadDropped, HeadStays, Staircase;
    if todo != [] {
      PreHead(c, todo, stop, target);
      if target == Some(todo[0]) && c.stacks[todo[0]].refcount <= 1 {
        ListBooks(c, Unlink(c, todo[0]).plist, rest, blocks);
      } else {
        var g := GrowTo(c, todo[0], stop, failOk, mainStack);
        GrowToBooks(c, todo[0], stop, failOk, mainStack, rest, blocks);
        ListBooks(g.core, Unlink(g.core, todo[0]).plist, rest, blocks);
        if target != Some(todo[0]) {
          GrowListCases(c, todo, stop, target, failOk, mainStack);
          var v := Visit(c, todo[0], stop, failOk, mainStack);
          if !v.fail && v.full {
            GrowListBooks(v.core, todo[1..], stop, target, failOk, mainStack, rest, blocks);
          }
        }
      }
    }
  }

  lemma PreHead<S>(c: Core<S>, todo: seq<S>, stop: int, target: Option<S>)
    requires todo != [] && GrowPre(c, todo, stop, target)
    ensures StacksOk(c) && todo[0] in c.stacks && c.stacks[todo[0]].Partial()
    ensures (target != Some(todo[0]) || c.stacks[todo[0]].refcount > 1) ==>
              stop <= |c.mem| || c.stacks[todo[0]].far <= |c.mem|
  {
    hide StackOk;
  }

  /* ---- the books of the whole library ---- */

  /** `base` is the size of the block of main less that of an ordinary tealet. */
  ghost predicate Ledger<S, T>(st: State<S, T>, base: int) {
    Books(st.core, base + st.tsize * st.count, st.count)
  }

  lemma SaveToBooks<S>(c: Core<S>, id: S, sp: int, far: int, stop: int, rest: int, blocks: int)
    requires Books(c, rest, blocks) && id !in c.stacks && CanSave(|c.mem|, sp, far, stop)
    ensures Books(SaveTo(c, id, sp, far, stop).core, rest, blocks)
  {
    hide AllBytes, AllChunks, StackOk;
    if c.alloc(c.ticks) {
      var v := SavedRecord(c.mem, sp, far, stop);
      AddBooks(c.stacks, id, v);
      SaveToRecord(c, id, sp, far, stop);
      assert StackBytes(v) == STACK_HDR + Max(0, Min(far, stop) - sp);
    }
  }

  /** Stats other than the counters of stacks move with the tealets. */
  lemma FreeLedger<S, T>(st: State<S, T>, t: T, base: int)
    requires Ledger(st, base)
    ensures Ledger(FreeT(st, t), base)
  {
    hide AllBytes, AllChunks;
    assert st.tsize * (st.count - 1) == st.tsize * st.count - st.tsize;
  }

  lemma LedgerCong<S, T>(st: State<S, T>, st2: State<S, T>, base: int)
    requires Ledger(st, base) && st2.core == st.core && st2.count == st.count && st2.tsize == st.tsize
    ensures Ledger(st2, base)
  {
    hide Books;
  }

  lemma GrowForLedger<S, T>(st: State<S, T>, x: Option<T>, t: T, base: int)
    requires Solid(st, x) && CanReach(st, x, t) && Ledger(st, base)
    ensures Ledger(st.(core := GrowFor(st, t).core), base)
  {
    hide RestOk, MainOk, Owned, StackOk, Staircase, ListExact, Above, GrowList, Books;
    TransferPre(st, x, t);
    StaircaseKnown(st.core);
    var v := st.tealets[t];
    GrowListBooks(st.core, st.core.plist, v.far, v.stack, FailOk(st), st.tealets[st.main].stack,
                  base + st.tsize * st.count, st.count);
  }

  lemma SaveStateLedger<S, T>(st: State<S, T>, x: Option<T>, t: T, env: Env, id: S, base: int)
    requires Solid(st, x) && CanReach(st, x, t) && EnvOk(st, env, id) && Signals(st) && Ledger(st, base)
    ensures Ledger(SaveState(st, t, env.sp, id).st, base)
  {
    hide RestOk, MainOk, Owned, CoreOk, Above, GrowFor, Ledger, SaveTo, FreeT;
    SolidBasics(st, x);
    GrowForLedger(st, x, t, base);
    GrownSame(st, x, t);
    var v := st.tealets[st.cur];
    var g := GrowFor(st, t);
    var st1 := SetT(st, st.cur, v.(flags := v.flags.(saveforce := false))).(core := g.core);
    LedgerCong(st.(core := g.core), st1, base);
    var m := SaveState(st, t, env.sp, id);
    if g.fail {
    } else if v.flags.exiting {
      FreeLedger(st1, st1.cur, base);
      LedgerCong(st1, SetT(st1, st1.cur, v.(stack := None,
        flags := v.flags.(exiting := false, autodelete := false, saveforce := false, exited := true))), base);
    } else {
      GrownIntro(st, x, t);
      CurCanSave(st1, x, t, env.sp);
      SaveLedger(st1, env.sp, st.tealets[t].far, id, base);
    }
  }

  lemma SaveLedger<S, T>(st: State<S, T>, sp: int, stop: int, id: S, base: int)
    requires st.cur in st.tealets && CanSave(|st.core.mem|, sp, st.tealets[st.cur].far, stop) && id !in st.core.stacks
    requires Ledger(st, base)
    ensures forall failOk :: Ledger(SaveCurrent(st, sp, stop, failOk, id).st, base)
  {
    hide Books, SaveTo;
    var far := st.tealets[st.cur].far;
    var c := SaveTo(st.core, id, sp, far, stop).core;
    SaveToBooks(st.core, id, sp, far, stop, base + st.tsize * st.count, st.count);
    ListBooks(c, Link(c, id).plist, base + st.tsize * st.count, st.count);
  }

  lemma RestoreLedger<S, T>(st: State<S, T>, t: T, base: int)
    requires t in st.tealets && st.tealets[t].stack.Some? && st.tealets[t].stack.value in st.core.stacks
    requires Ledger(st, base)
    ensures Ledger(RestoreState(st, t), base)
  {
    hide AllBytes, AllChunks, Decref;
    var s := st.tealets[t].stack.value;
    DecrefBooks(Restore(st.core, s), s, base + st.tsize * st.count, st.count);
    DecrefBooks(st.core, s, base + st.tsize * st.count, st.count);
  }

  lemma SwitchStackLedger<S, T>(st: State<S, T>, x: Option<T>, t: T, env: Env, id: S, base: int)
    requires Solid(st, x) && t in st.tealets && t != st.cur && (x == Some(t) || x.None?)
    requires st.tealets[t].flags.bound && EnvOk(st, env, id) && Signals(st) && Known(st) && Ledger(st, base)
    ensures Ledger(SwitchStack(st, t, env, id).st, base)
  {
    hide Solid, SaveState, Ledger, RestoreState, CanReach, Signals, EnvOk;
    var r := SwitchStack(st, t, env, id);
    SolidBasics(st, x);
    var st1 := st.(prev := Some(st.cur), target := Some(t));
    LedgerCong(st, st1, base);
    if r.moved || r.code == ErrMem {
      SolidCong(st, st1, x);
      CanReachIntro(st1, x, t);
      SignalsCong2(st, st1, env, id);
      SaveStateLedger(st1, x, t, env, id, base);
      SaveStateFrame(st1, t, env.sp, id);
      var m := SaveState(st1, t, env.sp, id);
      if m.fail {
        LedgerCong(m.st, r.st, base);
      } else if m.st.tealets[t].stack.Some? {
        RestoreLedger(m.st, t, base);
        RestoreCounts(m.st, t);
        LedgerCong(RestoreState(m.st, t), r.st, base);
      } else {
        LedgerCong(m.st, r.st, base);
      }
    } else {
      LedgerCong(st, r.st, base);
    }
  }

  lemma RestoreCounts<S, T>(st: State<S, T>, t: T)
    requires t in st.tealets && st.tealets[t].stack.Some? && st.tealets[t].stack.value in st.core.stacks
    ensures RestoreState(st, t).count == st.count && RestoreState(st, t).tsize == st.tsize
  {
  }

  lemma SignalsCong2<S, T>(st: State<S, T>, st2: State<S, T>, env: Env, id: S)
    requires st.cur in st.tealets && Signals(st) && EnvOk(st, env, id)
    requires st2.core == st.core && st2.tealets == st.tealets && st2.cur == st.cur && st2.main == st.main
    ensures Signals(st2) && EnvOk(st2, env, id)
  {
  }

  lemma XferLedger<S, T>(st: State<S, T>, t: T, force: bool, panic: bool, isExit: bool, delete: bool, env: Env, id: S,
                         base: int)
    requires Ready(st) && Known(st) && t in st.tealets && EnvOk(st, env, id) && (isExit ==> st.cur != st.main)
    requires Ledger(st, base)
    ensures Ledger(XferInner(st, t, force, panic, isExit, delete, env, id).st, base)
  {
    hide Solid, SwitchStack, Ledger, Signals;
    var x := XferInner(st, t, force, panic, isExit, delete, env, id);
    if !st.tealets[t].flags.bound || t == st.cur {
      LedgerCong(st, x.st, base);
    } else {
      var s := Stage(st, force, panic, isExit, delete);
      StageSolid(st, force, panic, isExit, delete);
      SolidBasics(s, None);
      LedgerCong(st, s, base);
      SwitchStackLedger(s, None, t, env, id, base);
      var r := SwitchStack(s, t, env, id);
      LedgerCong(r.st, x.st, base);
    }
  }

  lemma TransferLedger<S, T>(st: State<S, T>, t: T, force: bool, panic: bool, nofail: bool, isExit: bool, delete: bool,
                             env: Env, id: S, base: int)
    requires Ready(st) && Known(st) && t in st.tealets && EnvOk(st, env, id) && (isExit ==> st.cur != st.main)
    requires KeepsTarget(st, t, force || nofail, isExit, env) && Ledger(st, base)
    ensures Ledger(Transfer(st, t, force, panic, nofail, isExit, delete, env, id).st, base)
  {
    hide Solid, LosesTarget, KeepsTarget, XferInner, Known, Ledger;
    var x := XferInner(st, t, force || nofail, panic, isExit, delete, env, id);
    XferLedger(st, t, force || nofail, panic, isExit, delete, env, id, base);
    XferInnerSafe(st, t, force || nofail, panic, isExit, delete, env, id);
    SolidCur(x.st, None);
    SolidBasics(x.st, None);
    if nofail && (x.code == ErrMem || x.code == ErrDefunct) {
      XferCodes(st, t, force || nofail, panic, isExit, delete, env, id);
      XferStayFrame(st, t, force || nofail, panic, isExit, delete, env, id);
      XferLedger(x.st, x.st.main, true, true, isExit, delete, env, id, base);
    }
  }

  lemma CallLedger<S, T>(st: State<S, T>, op: Op<S, T>, base: int)
    requires Inv(st) && Allowed(st, op) && (op.OpSwitch? || op.OpExit?) && Ledger(st, base)
    ensures Ledger(Apply(st, op), base)
  {
    hide Inv, Ready, Transfer, Finish, KeepsTarget, IntactAttempt, EnvOk, Ledger, CallLegal, CallAlive, Finished, Known, CourseOf;
    var isExit := op.OpExit?;
    var delete := op.OpExit? && op.delete;
    var st1 := Lock(st);
    LockedStart(st);
    KnownCur(st);
    LedgerCong(st, st1, base);
    EnvCong(st, st1, op.env, op.id);
    LegalKeeps(st, op.t, op.force, op.panic, op.nofail, isExit, delete, op.env) by { InvReady(st); }
    CourseCong(st, st1, op.t, op.force, op.panic, op.nofail, isExit, op.env);
    TransferLedger(st1, op.t, op.force, op.panic, op.nofail, isExit, delete, op.env, op.id, base);
    CallFinishes(st, op.t, op.force, op.panic, op.nofail, isExit, delete, op.env, op.id);
    var x := Transfer(st1, op.t, op.force, op.panic, op.nofail, isExit, delete, op.env, op.id);
    FinishSize(x);
    FinishedBooks(x, Finish(x).st, Renewed(st, CourseOf(st, op.t, op.force, op.panic, op.nofail, isExit, op.env)));
    LedgerCong(x.st, Finish(x).st, base);
  }

  lemma FinishedBooks<S, T>(x: Xfer<S, T>, st2: State<S, T>, c: Option<T>)
    requires Finished(x, st2, c)
    ensures st2.core == x.st.core && st2.count == x.st.count
  {
    hide Inv;
  }

  lemma FinishSize<S, T>(x: Xfer<S, T>)
    ensures Finish(x).st.tsize == x.st.tsize
  {
  }

  lemma StartNowLedger<S, T>(st: State<S, T>, t: T, v: TealetV<S, T>, r: Resume<T>, env: Env, id: S, base: int)
    requires Ready(st) && Binds(st, t, v) && EnvOk(st, env, id) && Ledger(st, base) && st.cur in st.tealets
    requires Known(SetT(SetT(st, st.cur, st.tealets[st.cur].(resume := r)), t, v))
    ensures Ledger(StartNow(st, t, v, r, env, id).st, base)
  {
    hide CoreOk, RestOk, MainOk, Owned, Known, SwitchStack, Ledger;
    NewIsFree(st, t);
    var w := st.tealets[st.cur].(resume := r);
    var st1 := SetT(st, st.cur, w);
    CastCur(st, None, w);
    BindSolid(st1, t, v);
    var s := SetT(st1, t, v);
    LedgerCong(st, s, base);
    SwitchStackLedger(s, Some(t), t, env, id, base);
    LedgerCong(SwitchStack(s, t, env, id).st, StartNow(st, t, v, r, env, id).st, base);
  }

  lemma StartLaterLedger<S, T>(st: State<S, T>, t: T, v: TealetV<S, T>, env: Env, id: S, base: int)
    requires Ready(st) && Binds(st, t, v) && 0 <= env.sp < v.far && id !in st.core.stacks
    requires Above(st.core.stacks, st.core.plist, v.far) && Ledger(st, base) && st.cur in st.tealets
    requires Known(SetT(st, t, v).(cur := t))
    ensures Ledger(StartLater(st, t, v, env, id).st, base)
  {
    hide CoreOk, RestOk, MainOk, Owned, Known, SwitchStack, Ledger, Above;
    NewIsFree(st, t);
    StandIn(st, t, v);
    var s := SetT(st, t, v).(cur := t);
    LedgerCong(st, s, base);
    SwitchStackLedger(s, Some(st.cur), st.cur, env, id, base);
    LedgerCong(SwitchStack(s, st.cur, env, id).st, StartLater(st, t, v, env, id).st, base);
  }

  lemma RunLedger<S, T>(st: State<S, T>, t: T, far: int, now: bool, env: Env, id: S, base: int)
    requires Inv(st) && Known(st) && RunOk(st, t, far, now, env, id) && Ledger(st, base)
    ensures Ledger(Run(st, t, far, now, env, id).st, base)
  {
    hide Solid, StartNow, StartLater, Above, EnvOk, Ledger;
    SolidCur(st, None);
    if st.tealets[t].flags == NO_FLAGS {
      var st1 := Lock(st);
      ReadyLocks(st, st.locks + [true]);
      LedgerCong(st, st1, base);
      NewIsFree(st, t);
      var v := st.tealets[t].(far := far, flags := NO_FLAGS.(bound := true));
      if now {
        EnvCong(st, st1, env, id);
        StartNowSafe(st1, t, v, InRun(t), env, id);
        StartNowLedger(st1, t, v, InRun(t), env, id, base);
      } else {
        var v2 := v.(resume := NotStarted(t, st.cur));
        StartLaterSafe(st1, t, v2, env, id);
        StartLaterLedger(st1, t, v2, env, id, base);
      }
    }
  }

  lemma ForkLedger<S, T>(st: State<S, T>, t: T, now: bool, env: Env, id: S, base: int)
    requires Inv(st) && Known(st) && ForkOk(st, t, env, id) && Ledger(st, base)
    ensures Ledger(Fork(st, t, now, env, id).st, base)
  {
    hide Solid, StartNow, StartLater, Above, Binds, Ledger;
    SolidCur(st, None);
    var cur := st.tealets[st.cur];
    if st.tealets[t].flags == NO_FLAGS && cur.far != FURTHEST {
      var st1 := Lock(st);
      ReadyLocks(st, st.locks + [true]);
      LedgerCong(st, st1, base);
      ForkBinds(st, t, env, id);
      var v := st.tealets[t].(far := cur.far,
                              flags := NO_FLAGS.(bound := true, forked := true, mainLineage := cur.flags.mainLineage));
      if now {
        var r := InFork(t, st.cur, true);
        BindsCong(st, st1, t, v, v);
        StartNowSafe(st1, t, v, r, env, id);
        StartNowLedger(st1, t, v, r, env, id, base);
      } else {
        var v2 := v.(resume := InFork(t, st.cur, false));
        BindsCong(st, st1, t, v, v2);
        StartLaterSafe(st1, t, v2, env, id);
        StartLaterLedger(st1, t, v2, env, id, base);
      }
    }
  }

  lemma AllocLedger<S, T>(st: State<S, T>, t: T, v: TealetV<S, T>, base: int)
    requires Ledger(st, base)
    ensures Ledger(AllocT(st, t, v).st, base)
  {
    hide AllBytes, AllChunks;
    assert st.tsize * (st.count + 1) == st.tsize * st.count + st.tsize;
  }

  lemma DuplicateLedger<S, T>(st: State<S, T>, t: T, nt: T, base: int)
    requires Known(st) && t in st.tealets && Ledger(st, base)
    ensures Ledger(Duplicate(st, t, nt).st, base)
  {
    hide AllBytes, AllChunks, AllocT;
    var v := st.tealets[t];
    LedgerCong(st, Lock(st), base);
    AllocLedger(Lock(st), nt, v, base);
    AllocStacks(Lock(st), nt, v);
    if v.stack.Some? {
      var s := v.stack.value;
      ChangeBooks(st.core.stacks, s, st.core.stacks[s].(refcount := st.core.stacks[s].refcount + 1));
    }
  }

  lemma AllocStacks<S, T>(st: State<S, T>, t: T, v: TealetV<S, T>)
    ensures var m := AllocT(st, t, v); m.st.core.stacks == st.core.stacks && m.st.tsize == st.tsize
  {
  }

  lemma DeleteLedger<S, T>(st: State<S, T>, t: T, base: int)
    requires Known(st) && t in st.tealets && Ledger(st, base)
    ensures Ledger(Delete(st, t), base)
  {
    hide Ledger, FreeT, Decref;
    var v := st.tealets[t];
    var st1 := if v.stack.Some? then st.(core := Decref(st.core, v.stack.value)) else st;
    assert Ledger(st1, base) by {
      hide Books, AllBytes, AllChunks;
      if v.stack.Some? { DropLedger(st, v.stack.value, base); }
    }
    LedgerCong(st1, Lock(st1), base);
    FreeLedger(Lock(st1), t, base);
    LedgerCong(FreeT(Lock(st1), t), Delete(st, t), base);
  }

  lemma DropLedger<S, T>(st: State<S, T>, s: S, base: int)
    requires s in st.core.stacks && Ledger(st, base)
    ensures Ledger(st.(core := Decref(st.core, s)), base)
  {
    hide Books, Decref;
    DecrefBooks(st.core, s, base + st.tsize * st.count, st.count);
  }

  /** Every operation keeps the books. */
  lemma StepLedger<S, T>(st: State<S, T>, op: Op<S, T>, base: int)
    requires Inv(st) && Allowed(st, op) && Ledger(st, base)
    ensures Ledger(Apply(st, op), base)
  {
    hide Inv, CallLegal, CallAlive, RunOk, ForkOk, IntactAttempt, Run, Fork, Switch, Exit, Duplicate, Delete, AllocT, Above,
      FarFits, Ledger;
    match op
    case OpWrite(at, b) => WriteLedger(st, at, b, base);
    case OpNew(nt) =>
      var v := TealetV(0, None, NO_FLAGS, Unbound);
      LedgerCong(st, Lock(st), base);
      AllocLedger(Lock(st), nt, v, base);
      LedgerCong(AllocT(Lock(st), nt, v).st, New(st, nt).st, base);
    case OpRun(t, far, now, env, id) => RunLedger(st, t, far, now, env, id, base);
    case OpFork(t, now, env, id) => ForkLedger(st, t, now, env, id, base);
    case OpSwitch(t, force, panic, nofail, env, id) => CallLedger(st, op, base);
    case OpExit(t, delete, force, panic, nofail, env, id) => CallLedger(st, op, base);
    case OpDuplicate(t, nt) => DuplicateLedger(st, t, nt, base);
    case OpDelete(t) => DeleteLedger(st, t, base);
    case OpSetFar(t, far) => LedgerCong(st, SetFar(st, t, far).st, base);
  }

  lemma WriteLedger<S, T>(st: State<S, T>, at: int, b: byte, base: int)
    requires Ledger(st, base)
    ensures Ledger(Write(st, at, b), base)
  {
    hide AllBytes, AllChunks;
  }

  /** What is not an ordinary tealet among the bytes allocated at first: the rest of the block of main. */
  ghost function MainBytes<S, T>(st: State<S, T>): int { st.core.stats.bytes - st.tsize }

  lemma InitialLedger<S, T>(st: State<S, T>)
    requires Initial(st)
    ensures Ledger(st, MainBytes(st))
  {
    var none: map<S, StackV> := map[];
    assert none.Keys == {} && st.core.stacks == none;
  }

  /** In every reachable state the counters equal the sums over the live blocks. */
  lemma {:induction false} RunLedgers<S, T>(states: seq<State<S, T>>, ops: seq<Op<S, T>>, i: nat)
    requires IsRun(states, ops) && i < |states|
    ensures Ledger(states[i], MainBytes(states[0]))
  {
    hide Inv, Allowed, Apply, Ledger, Initial;
    if i == 0 {
      InitialLedger(states[0]);
    } else {
      RunLedgers(states, ops, i - 1);
      RunSafe(states, ops, i - 1);
      StepLedger(states[i - 1], ops[i - 1], MainBytes(states[0]));
    }
  }

  /* ---- tealet_get_stats ---- */

  /** What one tealet adds to stack_bytes_expanded: all blocks of its stack, shared or not. */
  ghost function ExpandedOf<S, T>(st: State<S, T>, t: T): int {
    if t in st.tealets && st.tealets[t].stack.Some? then BytesOf(st.core.stacks, st.tealets[t].stack.value) else 0
  }

  /** What it adds to stack_bytes_naive: one block from the near edge to the boundary, or to the last saved byte when the
      stack is unbounded. */
  ghost function NaiveOf<S, T>(st: State<S, T>, t: T): int {
    if t in st.tealets && st.tealets[t].stack.Some? && st.tealets[t].stack.value in st.core.stacks then
      var v := st.core.stacks[st.tealets[t].stack.value];
      STACK_HDR + (if v.far == FURTHEST then |v.Bytes()| else v.far - v.first.near)
    else 0
  }

  ghost function ExtraChunks<S, T>(st: State<S, T>, t: T): int {
    if t in st.tealets && st.tealets[t].stack.Some? && st.tealets[t].stack.value in st.core.stacks then
      |st.core.stacks[st.tealets[t].stack.value].more|
    else 0
  }

  ghost function Expanded<S, T>(st: State<S, T>): int { Sum(st.tealets.Keys, t => ExpandedOf(st, t)) }

  ghost function Naive<S, T>(st: State<S, T>): int { Sum(st.tealets.Keys, t => NaiveOf(st, t)) }

  ghost function Extras<S, T>(st: State<S, T>): int { Sum(st.tealets.Keys, t => ExtraChunks(st, t)) }

  lemma {:induction false} ChunkBytesIs(chunks: seq<ChunkV>)
    ensures ChunkBytes(chunks) == |Concat(chunks)| + CHUNK_HDR * |chunks|
  {
    if chunks != [] {
      ChunkBytesIs(chunks[..|chunks| - 1]);
    }
  }

  lemma {:induction false} SumPlus<A>(xs: set<A>, h: A -> int, k: A -> int, sum: A -> int, f: int)
    requires forall x :: x in xs ==> sum(x) == h(x) + f * k(x)
    ensures Sum(xs, sum) == Sum(xs, h) + f * Sum(xs, k)
  {
    if xs != {} {
      var x :| x in xs;
      SumPick(xs, h, x);
      SumPick(xs, k, x);
      SumPick(xs, sum, x);
      SumPlus(xs - {x}, h, k, sum, f);
      assert f * Sum(xs, k) == f * k(x) + f * Sum(xs - {x}, k);
    }
  }

  /** What a bounded stack has not saved up to its boundary; an unbounded one has no boundary to reach. */
  ghost function UnsavedOf<S, T>(st: State<S, T>, t: T): int {
    if t in st.tealets && st.tealets[t].stack.Some? && st.tealets[t].stack.value in st.core.stacks
       && st.core.stacks[st.tealets[t].stack.value].far != FURTHEST then
      var v := st.core.stacks[st.tealets[t].stack.value];
      v.far - (v.first.near + |v.Bytes()|)
    else 0
  }

  ghost function Unsaved<S, T>(st: State<S, T>): int { Sum(st.tealets.Keys, t => UnsavedOf(st, t)) }

  /** The naive size is the expanded one without the header of every extra chunk, but with all that is not saved yet. */
  lemma NaiveExact<S, T>(st: State<S, T>)
    requires Inv(st)
    ensures Naive(st) + CHUNK_HDR * Extras(st) == Expanded(st) + Unsaved(st)
    ensures 0 <= Unsaved(st)
    ensures Unsaved(st) == 0 <==> forall t :: t in st.tealets ==> UnsavedOf(st, t) == 0
  {
    hide Solid, ExpandedOf, NaiveOf, ExtraChunks, UnsavedOf;
    var chunked := (t: T) => NaiveOf(st, t) + CHUNK_HDR * ExtraChunks(st, t);
    var reached := (t: T) => ExpandedOf(st, t) + 1 * UnsavedOf(st, t);
    SumPlus(st.tealets.Keys, t => NaiveOf(st, t), t => ExtraChunks(st, t), chunked, CHUNK_HDR);
    SumPlus(st.tealets.Keys, t => ExpandedOf(st, t), t => UnsavedOf(st, t), reached, 1);
    forall t | t in st.tealets.Keys ensures chunked(t) == reached(t) && 0 <= UnsavedOf(st, t) {
      OneNaive(st, t);
    }
    SumSame(st.tealets.Keys, chunked, reached);
    SumLe(st.tealets.Keys, t => 0, t => UnsavedOf(st, t));
    SumZero(st.tealets.Keys);
  }

  lemma OneNaive<S, T>(st: State<S, T>, t: T)
    requires Inv(st) && t in st.tealets
    ensures NaiveOf(st, t) + CHUNK_HDR * ExtraChunks(st, t) == ExpandedOf(st, t) + UnsavedOf(st, t)
    ensures 0 <= UnsavedOf(st, t)
  {
    hide Owned, RestOk, MainOk, Staircase, Above, ListExact, Tiled, Concat;
    if st.tealets[t].stack.Some? {
      var v := st.core.stacks[st.tealets[t].stack.value];
      ChunkBytesIs(v.more);
    }
  }

  /** Chunking costs at most one header per extra chunk over storing every stack in one block, and exactly that when every
      stack is saved up to its boundary. */
  lemma ExpandedAtMostNaive<S, T>(st: State<S, T>)
    requires Inv(st)
    ensures Expanded(st) <= Naive(st) + CHUNK_HDR * Extras(st)
    ensures Expanded(st) == Naive(st) + CHUNK_HDR * Extras(st)
            <==> forall t :: t in st.tealets ==> UnsavedOf(st, t) == 0
  {
    hide Inv, Expanded, Naive, Extras, UnsavedOf;
    NaiveExact(st);
  }

  /** The sums over five tealets. */
  lemma FiveTealets<S, T>(st: State<S, T>, a: T, b: T, c: T, d: T, e: T)
    requires st.tealets.Keys == {a, b, c, d, e} && NoDup([a, b, c, d, e])
    ensures Naive(st) == NaiveOf(st, a) + NaiveOf(st, b) + NaiveOf(st, c) + NaiveOf(st, d) + NaiveOf(st, e)
    ensures Expanded(st) == ExpandedOf(st, a) + ExpandedOf(st, b) + ExpandedOf(st, c) + ExpandedOf(st, d) + ExpandedOf(st, e)
  {
    hide NaiveOf, ExpandedOf;
    SumFive(st.tealets.Keys, t => NaiveOf(st, t), a, b, c, d, e);
    SumFive(st.tealets.Keys, t => ExpandedOf(st, t), a, b, c, d, e);
  }

  lemma SumFive<A>(xs: set<A>, h: A -> int, a: A, b: A, c: A, d: A, e: A)
    requires xs == {a, b, c, d, e} && NoDup([a, b, c, d, e])
    ensures Sum(xs, h) == h(a) + h(b) + h(c) + h(d) + h(e)
  {
    var all := [a, b, c, d, e];
    assert all[0] == a && all[1] == b && all[2] == c && all[3] == d && all[4] == e;
    SumPick(xs, h, a);
    SumPick(xs - {a}, h, b);
    SumPick(xs - {a} - {b}, h, c);
    SumPick(xs - {a} - {b} - {c}, h, d);
    assert xs - {a} - {b} - {c} - {d} == {e};
    SumPick(xs - {a} - {b} - {c} - {d}, h, e);
    assert xs - {a} - {b} - {c} - {d} - {e} == {};
  }

  /** The references to a stack, weighted with its size. */
  ghost function Weight<S, T>(tealets: map<T, TealetV<S, T>>, stacks: map<S, StackV>, s: S): int {
    |Holders(tealets, s)| * BytesOf(stacks, s)
  }

  /** Summing over tealets is summing over stacks, each as often as it is held. */
  lemma {:induction false} ByTealetIsByStack<S, T>(tealets: map<T, TealetV<S, T>>, stacks: map<S, StackV>)
    requires forall t :: t in tealets && tealets[t].stack.Some? ==> tealets[t].stack.value in stacks
    ensures Sum(tealets.Keys, t => HeldBytes(tealets, stacks, t)) == Sum(stacks.Keys, s => Weight(tealets, stacks, s))
    decreases |tealets|
  {
    hide Weight, HeldBytes;
    if tealets == map[] {
      assert tealets.Keys == {};
      NobodyHolds(tealets, stacks);
    } else {
      var t :| t in tealets;
      var fewer := tealets - {t};
      assert fewer.Keys == tealets.Keys - {t};
      assert |fewer| == |fewer.Keys| && |tealets| == |tealets.Keys|;
      ByTealetIsByStack(fewer, stacks);
      forall u | u in fewer ensures HeldBytes(tealets, stacks, u) == HeldBytes(fewer, stacks, u) {
        SameHeld(tealets, fewer, stacks, u);
      }
      SumDrop(tealets.Keys, u => HeldBytes(tealets, stacks, u), u => HeldBytes(fewer, stacks, u), t);
      OneFewer(tealets, stacks, t);
    }
  }

  ghost function HeldBytes<S, T>(tealets: map<T, TealetV<S, T>>, stacks: map<S, StackV>, t: T): int {
    if t in tealets && tealets[t].stack.Some? then BytesOf(stacks, tealets[t].stack.value) else 0
  }

  lemma SameHeld<S, T>(tealets: map<T, TealetV<S, T>>, fewer: map<T, TealetV<S, T>>, stacks: map<S, StackV>, u: T)
    requires u in tealets && u in fewer && fewer[u] == tealets[u]
    ensures HeldBytes(tealets, stacks, u) == HeldBytes(fewer, stacks, u)
  {
  }

  lemma NobodyHolds<S, T>(tealets: map<T, TealetV<S, T>>, stacks: map<S, StackV>)
    requires tealets == map[]
    ensures Sum(stacks.Keys, s => Weight(tealets, stacks, s)) == 0
  {
    forall s ensures Weight(tealets, stacks, s) == 0 { assert Holders(tealets, s) == {}; }
    hide Weight;
    SumSame(stacks.Keys, s => Weight(tealets, stacks, s), s => 0);
    SumZero(stacks.Keys);
  }

  lemma {:induction false} SumZero<A>(xs: set<A>)
    ensures Sum(xs, (x: A) => 0) == 0
  {
    if xs != {} {
      var x :| x in xs;
      SumPick(xs, (x: A) => 0, x);
      SumZero(xs - {x});
    }
  }

  /** Taking one tealet away. */
  lemma OneFewer<S, T>(tealets: map<T, TealetV<S, T>>, stacks: map<S, StackV>, t: T)
    requires t in tealets && (tealets[t].stack.Some? ==> tealets[t].stack.value in stacks)
    ensures Sum(stacks.Keys, s => Weight(tealets, stacks, s))
         == Sum(stacks.Keys, s => Weight(tealets - {t}, stacks, s)) + HeldBytes(tealets, stacks, t)
  {
    var fewer := tealets - {t};
    forall s | tealets[t].stack != Some(s) ensures Weight(fewer, stacks, s) == Weight(tealets, stacks, s) {
      assert Holders(fewer, s) == Holders(tealets, s);
    }
    if tealets[t].stack.Some? {
      var s := tealets[t].stack.value;
      assert Holders(tealets, s) == Holders(fewer, s) + {t};
      assert t !in Holders(fewer, s);
      assert (|Holders(fewer, s)| + 1) * BytesOf(stacks, s) == |Holders(fewer, s)| * BytesOf(stacks, s) + BytesOf(stacks, s);
      hide Weight;
      SumChange(stacks.Keys, u => Weight(fewer, stacks, u), u => Weight(tealets, stacks, u), s);
    } else {
      hide Weight;
      SumSame(stacks.Keys, u => Weight(fewer, stacks, u), u => Weight(tealets, stacks, u));
    }
  }

  /** Sharing saves memory: stack_bytes is at most stack_bytes_expanded, and they are equal exactly when no stack is
      shared. */
  lemma StackBytesAtMostExpanded<S, T>(st: State<S, T>, base: int)
    requires Inv(st) && Ledger(st, base)
    ensures st.core.stats.stackBytes <= Expanded(st)
    ensures st.core.stats.stackBytes == Expanded(st)
            <==> forall s :: s in st.core.stacks ==> st.core.stacks[s].refcount == 1
  {
    hide CoreOk, RestOk, MainOk, RunnerOk;
    ByTealetIsByStack(st.tealets, st.core.stacks);
    SumSame(st.tealets.Keys, t => ExpandedOf(st, t), t => HeldBytes(st.tealets, st.core.stacks, t));
    forall s | s in st.core.stacks
      ensures BytesOf(st.core.stacks, s) <= Weight(st.tealets, st.core.stacks, s)
      ensures BytesOf(st.core.stacks, s) == Weight(st.tealets, st.core.stacks, s) <==> st.core.stacks[s].refcount == 1
    {
      PositiveBytes(st.core.stacks[s]);
      Times(st.core.stacks[s].refcount, BytesOf(st.core.stacks, s));
    }
    hide Weight, BytesOf;
    SumLe(st.core.stacks.Keys, s => BytesOf(st.core.stacks, s), s => Weight(st.tealets, st.core.stacks, s));
  }

  lemma Times(n: int, b: int)
    requires n >= 1 && b > 0
    ensures b <= n * b && (b == n * b <==> n == 1)
  {
    assert n * b == b + (n - 1) * b;
  }

  lemma PositiveBytes(v: StackV)
    ensures StackBytes(v) > 0
  {
    ChunkBytesIs(v.more);
  }
}
