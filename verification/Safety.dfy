/** The invariant of the transfer state machine, and that every operation keeps it. */
module Safety {
  import opened Base
  import opened StackModel
  import opened StackProofs
  import opened Growth
  import opened TransferModel

  /* ---- the invariant ---- */

  /** The tealets that point at stack `s`. */
  ghost function Holders<S, T>(tealets: map<T, TealetV<S, T>>, s: S): set<T> {
    set t | t in tealets && tealets[t].stack == Some(s)
  }

  /** Every live stack is held by at least one tealet and counts its holders. */
  ghost predicate Owned<S, T>(st: State<S, T>) {
    forall s :: s in st.core.stacks ==>
      st.core.stacks[s].refcount >= 1 && st.core.stacks[s].refcount == |Holders(st.tealets, s)|
  }

  ghost predicate Quiet(f: Flags) { !f.exiting && !f.autodelete && !f.saveforce }

  /** Only main may have an unbounded stack. */
  ghost predicate FarOk<S, T>(st: State<S, T>, t: T)
    requires t in st.tealets
  {
    var far := st.tealets[t].far;
    if far == FURTHEST then t == st.main else 0 <= far <= |st.core.mem|
  }

  /** A tealet that could run: bound, not exited, not defunct, with no saved stack. */
  ghost predicate RunnerOk<S, T>(st: State<S, T>, t: T) {
    && t in st.tealets
    && FarOk(st, t)
    && var v := st.tealets[t];
       v.flags.bound && !v.flags.exited && !v.flags.defunct && v.stack.None?
  }

  ghost predicate Idle(f: Flags) { f == NO_FLAGS || (f.bound && (f.exited || f.defunct)) }

  /** A tealet that is not running: it holds a saved stack, or is NEW, EXITED or DEFUNCT. */
  ghost predicate RestOk<S, T>(st: State<S, T>, t: T)
    requires t in st.tealets
  {
    var v := st.tealets[t];
    && Quiet(v.flags) && FarOk(st, t)
    && match v.stack
       case None => Idle(v.flags)
       case Some(s) =>
         && s in st.core.stacks && st.core.stacks[s].far == v.far
         && v.flags.bound && !v.flags.exited && (v.flags.defunct ==> st.core.stacks[s].defunct)
  }

  /** Main is never defunct and never shares its stack. */
  ghost predicate MainOk<S, T>(st: State<S, T>) {
    && st.main in st.tealets
    && var v := st.tealets[st.main];
       && v.flags.bound && !v.flags.exited && !v.flags.defunct && v.far > 0
       && (v.stack.Some? ==>
             && v.stack.value in st.core.stacks
             && !st.core.stacks[v.stack.value].defunct && st.core.stacks[v.stack.value].refcount == 1)
  }

  ghost predicate PrevOk<S, T>(st: State<S, T>) { st.prev.Some? ==> st.prev.value in st.tealets }

  /** The saved stacks while code runs below `b`; `y` may be half saved without being listed, if it is not shared. */
  ghost predicate CoreOk<S>(c: Core<S>, b: int, y: Option<S>) {
    && StacksOk(c)
    && Staircase(c.stacks, c.plist)
    && Above(c.stacks, c.plist, b)
    && ListExact(c, y)
    && (y.Some? ==> && y.value !in c.plist
                    && (y.value in c.stacks && c.stacks[y.value].refcount > 1 ==> !c.stacks[y.value].Partial()))
  }

  /** The tealets with `cur` running; `x` is a tealet that is just being bound. */
  ghost predicate Cast<S, T>(st: State<S, T>, x: Option<T>) {
    && Known(st)
    && RunnerOk(st, st.cur)
    && (x.Some? ==> x.value != st.cur && RunnerOk(st, x.value) && Quiet(st.tealets[x.value].flags))
    && (forall t :: t in st.tealets && t != st.cur && x != Some(t) ==> RestOk(st, t))
    && MainOk(st) && Owned(st) && PrevOk(st)
  }

  ghost predicate Solid<S, T>(st: State<S, T>, x: Option<T>) {
    Cast(st, x) && CoreOk(st.core, st.tealets[st.cur].far, None)
  }

  /** The state between the save and the restore of a transfer to `t`. */
  ghost predicate Handed<S, T>(st: State<S, T>, t: T) {
    && t in st.tealets
    && (forall u :: u in st.tealets && u != t ==> RestOk(st, u))
    && FarOk(st, t) && Quiet(st.tealets[t].flags)
    && var v := st.tealets[t];
       && v.flags.bound && !v.flags.exited && !v.flags.defunct
       && (v.stack.Some? ==> v.stack.value in st.core.stacks && st.core.stacks[v.stack.value].far == v.far)
       && CoreOk(st.core, v.far, v.stack)
       && MainOk(st) && Owned(st) && PrevOk(st)
  }

  /** Acquires and releases alternate, starting with an acquire and ending with a release. */
  ghost predicate Balanced(locks: seq<bool>) {
    && |locks| % 2 == 0
    && forall i :: 0 <= i < |locks| ==> locks[i] == (i % 2 == 0)
  }

  /** The invariant whenever user code runs. */
  ghost predicate Inv<S, T>(st: State<S, T>) {
    && Solid(st, None)
    && Quiet(st.tealets[st.cur].flags)
    && !st.panic && st.target.None?
    && Balanced(st.locks)
    && st.count == |st.tealets|
  }

  /* ---- the growth step ---- */

  /** A target that a transfer may reach: the tealet being bound, or a suspended one. */
  ghost predicate CanReach<S, T>(st: State<S, T>, x: Option<T>, t: T)
    requires Solid(st, x)
  {
    && t in st.tealets && t != st.cur
    && (x == Some(t) || (x.None? && st.tealets[t].flags.bound && !st.tealets[t].flags.exited && !IsDefunct(st, t)))
  }

  lemma HolderOf<S, T>(st: State<S, T>, s: S) returns (t: T)
    requires Owned(st) && s in st.core.stacks
    ensures t in st.tealets && st.tealets[t].stack == Some(s)
  {
    assert |Holders(st.tealets, s)| > 0;
    t :| t in Holders(st.tealets, s);
  }

  /** What grow_list relies on holds at every transfer. */
  lemma TransferPre<S, T>(st: State<S, T>, x: Option<T>, t: T)
    requires Solid(st, x) && CanReach(st, x, t)
    ensures GrowPre(st.core, st.core.plist, st.tealets[t].far, st.tealets[t].stack)
  {
    hide StackOk, Staircase, ListExact, Above;
    var target := st.tealets[t].stack;
    forall s | s in st.core.plist && target != Some(s) && st.tealets[t].far > |st.core.mem|
      ensures st.core.stacks[s].far <= |st.core.mem|
    {
      var u := HolderOf(st, s);
      assert u != t;
    }
  }

  lemma OwnedFollows<S, T>(st: State<S, T>, c2: Core<S>)
    requires Owned(st) && Follows(st.core, c2)
    ensures Owned(st.(core := c2))
  {
    hide StackV.Bytes, Slice;
  }

  /** Growing stacks changes nothing about the tealets. */
  lemma CastFollows<S, T>(st: State<S, T>, x: Option<T>, c2: Core<S>, failOk: bool)
    requires Cast(st, x) && Followed(st.core, c2, st.core.plist, failOk, st.tealets[st.main].stack)
    requires forall s :: s in c2.plist ==> s in c2.stacks
    ensures Cast(st.(core := c2), x)
  {
    hide StackV.Bytes, Slice, StackOk, Owned, StacksOk;
    OwnedFollows(st, c2);
    var st2 := st.(core := c2);
    forall t | t in st2.tealets && t != st2.cur && x != Some(t) ensures RestOk(st2, t) {
      assert RestOk(st, t);
    }
  }

  /** The growth step of a transfer. */
  lemma GrowStep<S, T>(st: State<S, T>, x: Option<T>, t: T)
    requires Solid(st, x) && CanReach(st, x, t)
    ensures var g := GrowFor(st, t); var st2 := st.(core := g.core);
            && Cast(st2, x)
            && Followed(st.core, g.core, st.core.plist, FailOk(st), st.tealets[st.main].stack)
            && (g.fail ==> Solid(st2, x))
            && (!g.fail ==> && CoreOk(g.core, st.tealets[st.cur].far, st.tealets[t].stack)
                            && Above(g.core.stacks, g.core.plist, st.tealets[t].far))
  {
    hide RestOk, MainOk, Owned, RunnerOk, GrowPre, GrowList, Followed, StacksOk, Staircase, Above, ListExact;
    var g := GrowFor(st, t);
    TransferPre(st, x, t);
    var v := st.tealets[t];
    assert forall s :: s in st.core.plist ==> s in st.core.stacks;
    GrowListKeeps(st.core, st.tealets[st.cur].far, v.far, v.stack, FailOk(st), st.tealets[st.main].stack);
    GrowListFollows(st.core, st.core.plist, v.far, v.stack, FailOk(st), st.tealets[st.main].stack);
    GrowListReaches(st.core, st.core.plist, v.far, v.stack, FailOk(st), st.tealets[st.main].stack);
    StaircaseKnown(g.core);
    CastFollows(st, x, g.core, FailOk(st));
    if !g.fail && v.stack.Some? {
      TargetSaved(st.core, g, v.far, v.stack.value, FailOk(st), st.tealets[st.main].stack);
    }
  }

  /** A shared target is fully saved, or given up, once the list has been grown. */
  lemma TargetSaved<S>(c: Core<S>, g: Grown<S>, stop: int, s: S, failOk: bool, mainStack: Option<S>)
    requires ListExact(c, None) && s in c.stacks && forall u :: u in c.plist ==> u in c.stacks
    requires Followed(c, g.core, c.plist, failOk, mainStack)
    requires Reached(c, g, c.plist, stop, Some(s), failOk, mainStack) && !g.fail
    ensures g.core.stacks[s].refcount == c.stacks[s].refcount
    ensures c.stacks[s].refcount > 1 ==> !g.core.stacks[s].Partial()
  {
    hide StackV.Partial, StackOk, StackV.Bytes, Slice, StacksOk;
  }

  lemma StaircaseKnown<S>(c: Core<S>)
    requires Staircase(c.stacks, c.plist)
    ensures forall s :: s in c.plist ==> s in c.stacks
  {
  }

  /* ---- saving the current stack ---- */

  /** The record made when a stack running below `far` is saved up to `stop`. */
  ghost function SavedRecord(mem: seq<byte>, sp: int, far: int, stop: int): StackV {
    var size := Max(0, Min(far, stop) - sp);
    StackV(1, far, false, size, ChunkV(sp, Slice(mem, sp, sp + size)), [])
  }

  /** What a running stack may be saved against: the target of a transfer. */
  ghost predicate CanSave(n: int, sp: int, far: int, stop: int) {
    && 0 <= sp < far && sp <= n
    && (far <= n || far == FURTHEST) && n < FURTHEST
    && Min(far, stop) <= n
  }

  lemma SavedRecordOk(mem: seq<byte>, sp: int, far: int, stop: int)
    requires CanSave(|mem|, sp, far, stop)
    ensures var v := SavedRecord(mem, sp, far, stop);
            && StackOk(v, |mem|) && (v.Partial() <==> stop < far) && stop <= Max(stop, v.Edge())
            && (stop < far ==> stop <= v.Edge())
            && v.Edge() + |Slice(mem, v.Edge(), End(far, |mem|))| == Max(v.Edge(), End(far, |mem|))
  {
    var v := SavedRecord(mem, sp, far, stop);
    assert v.Bytes() == v.first.data;
  }

  lemma SaveToRecord<S>(c: Core<S>, id: S, sp: int, far: int, stop: int)
    requires !SaveTo(c, id, sp, far, stop).fail
    ensures var g := SaveTo(c, id, sp, far, stop);
            && (g.full <==> far <= stop) && g.core.plist == c.plist && g.core.mem == c.mem && g.core.alloc == c.alloc
            && g.core.stacks == c.stacks[id := SavedRecord(c.mem, sp, far, stop)]
  {
  }

  lemma SaveToAlloc<S>(c: Core<S>, id: S, sp: int, far: int, stop: int)
    ensures SaveTo(c, id, sp, far, stop).fail <==> !c.alloc(c.ticks)
  {
  }

  lemma PushStaircase<S>(stacks: map<S, StackV>, list: seq<S>, id: S, v: StackV, stop: int)
    requires Staircase(stacks, list) && Above(stacks, list, v.far) && Above(stacks, list, stop)
    requires id !in stacks && v.Partial() && stop <= v.Edge()
    ensures Staircase(stacks[id := v], [id] + list) && Above(stacks[id := v], [id] + list, stop)
  {
    hide StackV.Partial, StackV.Edge;
    var stacks2, list2 := stacks[id := v], [id] + list;
    forall i | 0 <= i < |list2|
      ensures list2[i] in stacks2 && stacks2[list2[i]].Partial() && stop <= stacks2[list2[i]].Edge()
    {
      if i > 0 { assert list2[i] == list[i - 1]; }
    }
    forall i, j | 0 <= i < j < |list2| ensures stacks2[list2[i]].far <= stacks2[list2[j]].Edge() {
      assert list2[j] == list[j - 1];
      if i > 0 { assert list2[i] == list[i - 1]; }
    }
  }

  lemma KeepStaircase<S>(stacks: map<S, StackV>, list: seq<S>, id: S, v: StackV, stop: int)
    requires Staircase(stacks, list) && Above(stacks, list, stop) && id !in stacks
    ensures Staircase(stacks[id := v], list) && Above(stacks[id := v], list, stop)
  {
    hide StackV.Partial, StackV.Edge;
  }

  /** The saved stacks after adding the record of the stack that just stopped running. */
  lemma AddSaved<S>(c: Core<S>, id: S, sp: int, far: int, stop: int, y: Option<S>)
    requires CoreOk(c, far, y) && Above(c.stacks, c.plist, stop)
    requires CanSave(|c.mem|, sp, far, stop) && id !in c.stacks && y != Some(id)
    requires !SaveTo(c, id, sp, far, stop).fail
    ensures var g := SaveTo(c, id, sp, far, stop);
            CoreOk(if g.full then g.core else Link(g.core, id), stop, y)
  {
    hide StackOk, StackV.Partial, StackV.Edge, SavedRecord, SaveTo, Staircase, Above;
    var v := SavedRecord(c.mem, sp, far, stop);
    SaveToRecord(c, id, sp, far, stop);
    SavedRecordOk(c.mem, sp, far, stop);
    assert v.far == far by { RecordShape(c.mem, sp, far, stop); }
    StaircaseKnown(c);
    if stop < far {
      PushStaircase(c.stacks, c.plist, id, v, stop);
    } else {
      KeepStaircase(c.stacks, c.plist, id, v, stop);
    }
  }

  lemma RecordShape(mem: seq<byte>, sp: int, far: int, stop: int)
    ensures var v := SavedRecord(mem, sp, far, stop); v.far == far && v.refcount == 1 && !v.defunct
  {
  }

  /* ---- handing over to the target ---- */

  /** `t` is the tealet being bound or a tealet at rest that has not exited. */
  ghost predicate Reach<S, T>(st: State<S, T>, x: Option<T>, t: T) {
    && t in st.tealets && t != st.cur && (x == Some(t) || x.None?)
    && var f := st.tealets[t].flags; f.bound && !f.exited && !f.defunct
  }

  /** The growth step has been done for a transfer to `t`; what is left is to save the current stack. */
  ghost predicate Grown<S, T>(st: State<S, T>, x: Option<T>, t: T) {
    && Cast(st, x) && Reach(st, x, t)
    && CoreOk(st.core, st.tealets[st.cur].far, st.tealets[t].stack)
    && Above(st.core.stacks, st.core.plist, st.tealets[t].far)
    && !st.tealets[st.cur].flags.saveforce
  }

  /** Changing a tealet without touching its stack pointer changes no holders. */
  lemma SameHolders<S, T>(m: map<T, TealetV<S, T>>, t: T, v: TealetV<S, T>, s: S)
    requires t in m && v.stack == m[t].stack
    ensures Holders(m[t := v], s) == Holders(m, s)
  {
  }

  lemma OwnedSame<S, T>(st: State<S, T>, t: T, v: TealetV<S, T>)
    requires Owned(st) && t in st.tealets && v.stack == st.tealets[t].stack
    ensures Owned(SetT(st, t, v))
  {
    forall s | s in st.core.stacks ensures Holders(SetT(st, t, v).tealets, s) == Holders(st.tealets, s) {
      SameHolders(st.tealets, t, v, s);
    }
  }

  /** Giving a tealet without a stack a new one. */
  lemma OwnedGive<S, T>(st: State<S, T>, t: T, v: TealetV<S, T>, id: S, r: StackV, c2: Core<S>)
    requires Owned(st) && Known(st) && t in st.tealets && st.tealets[t].stack.None?
    requires id !in st.core.stacks && v.stack == Some(id) && r.refcount == 1
    requires c2.stacks == st.core.stacks[id := r]
    ensures Owned(SetT(st, t, v).(core := c2))
  {
    var m2 := st.tealets[t := v];
    assert Holders(m2, id) == {t};
    forall s | s in st.core.stacks ensures Holders(m2, s) == Holders(st.tealets, s) { }
  }

  lemma CurCanSave<S, T>(st: State<S, T>, x: Option<T>, t: T, sp: int)
    requires Grown(st, x, t) && 0 <= sp < st.tealets[st.cur].far && sp <= |st.core.mem|
    ensures CanSave(|st.core.mem|, sp, st.tealets[st.cur].far, st.tealets[t].far)
  {
    hide Staircase, Above, ListExact, StackOk, Owned, MainOk;
    assert FarOk(st, t);
  }

  /** Every tealet but the target is at rest once the current one is. */
  lemma HandedIntro<S, T>(st: State<S, T>, x: Option<T>, t: T, v: TealetV<S, T>, c2: Core<S>)
    requires Grown(st, x, t)
    requires c2.mem == st.core.mem && forall s :: s in st.core.stacks ==> s in c2.stacks && c2.stacks[s] == st.core.stacks[s]
    requires var st2 := SetT(st, st.cur, v).(core := c2);
             && RestOk(st2, st.cur) && Owned(st2) && CoreOk(c2, st.tealets[t].far, st.tealets[t].stack)
             && (st.cur == st.main ==> MainOk(st2))
    ensures Handed(SetT(st, st.cur, v).(core := c2), t)
  {
    hide CoreOk, Above, Owned;
    var st2 := SetT(st, st.cur, v).(core := c2);
    forall u | u in st2.tealets && u != t && u != st.cur ensures RestOk(st2, u) {
      assert RestOk(st, u);
    }
    if x.None? {
      assert RestOk(st, t);
    }
  }

  /** The current stack has been saved. */
  lemma SaveHands<S, T>(st: State<S, T>, x: Option<T>, t: T, sp: int, failOk: bool, id: S)
    requires Grown(st, x, t) && Quiet(st.tealets[st.cur].flags)
    requires 0 <= sp < st.tealets[st.cur].far && sp <= |st.core.mem| && id !in st.core.stacks
    requires st.core.alloc(st.core.ticks)
    ensures var m := SaveCurrent(st, sp, st.tealets[t].far, failOk, id); !m.fail && Handed(m.st, t)
  {
    hide CoreOk, Above, StackOk, SavedRecord, Owned, Handed, Known;
    var far, stop := st.tealets[st.cur].far, st.tealets[t].far;
    var g := SaveTo(st.core, id, sp, far, stop);
    var c2 := if g.full then g.core else Link(g.core, id);
    CurCanSave(st, x, t, sp);
    SaveToRecord(st.core, id, sp, far, stop);
    RecordShape(st.core.mem, sp, far, stop);
    AddSaved(st.core, id, sp, far, stop, st.tealets[t].stack);
    var v := st.tealets[st.cur].(stack := Some(id));
    OwnedGive(st, st.cur, v, id, SavedRecord(st.core.mem, sp, far, stop), c2);
    var st2 := SetT(st, st.cur, v).(core := c2);
    assert RestOk(st2, st.cur);
    HandedIntro(st, x, t, v, c2);
    assert st2 == SetT(st.(core := c2), st.cur, v);
  }

  /** The current stack could not be saved in a forced transfer: its tealet is marked defunct. */
  lemma GiveUpHands<S, T>(st: State<S, T>, x: Option<T>, t: T, sp: int, id: S)
    requires Grown(st, x, t) && Quiet(st.tealets[st.cur].flags) && st.cur != st.main
    requires !st.core.alloc(st.core.ticks)
    ensures var m := SaveCurrent(st, sp, st.tealets[t].far, false, id); !m.fail && Handed(m.st, t)
  {
    hide Above, StackOk, Owned, Handed, Known, Staircase, ListExact, StacksOk;
    var v := st.tealets[st.cur];
    var v2 := v.(flags := v.flags.(defunct := true));
    var c2 := st.core.(ticks := st.core.ticks + 1);
    var st2 := SetT(st, st.cur, v2).(core := c2);
    OwnedSame(st, st.cur, v2);
    OwnedCore(SetT(st, st.cur, v2), c2);
    AboveTarget(st, x, t, c2);
    assert RestOk(st2, st.cur);
    HandedIntro(st, x, t, v2, c2);
    assert st2 == SetT(st.(core := c2), st.cur, v2);
  }

  lemma OwnedCore<S, T>(st: State<S, T>, c2: Core<S>)
    requires Owned(st) && c2.stacks == st.core.stacks
    ensures Owned(st.(core := c2))
  {
  }

  /** With nothing saved, the list already fits the target. */
  lemma AboveTarget<S, T>(st: State<S, T>, x: Option<T>, t: T, c2: Core<S>)
    requires Grown(st, x, t)
    requires c2.mem == st.core.mem && c2.stacks == st.core.stacks && c2.plist == st.core.plist
    ensures CoreOk(c2, st.tealets[t].far, st.tealets[t].stack)
  {
    hide StackOk, Owned, Known, MainOk, RestOk;
  }

  /** The current tealet exits without being saved and stays as EXITED. */
  lemma ExitHands<S, T>(st: State<S, T>, x: Option<T>, t: T)
    requires Grown(st, x, t) && st.cur != st.main && !st.tealets[st.cur].flags.autodelete
    ensures Handed(ExitCurrent(st), t)
  {
    hide Above, StackOk, Owned, Handed, Known, Staircase, ListExact, StacksOk;
    var v := st.tealets[st.cur];
    var v2 := v.(stack := None,
                 flags := v.flags.(exiting := false, autodelete := false, saveforce := false, exited := true));
    OwnedSame(st, st.cur, v2);
    AboveTarget(st, x, t, st.core);
    assert RestOk(SetT(st, st.cur, v2), st.cur);
    assert SetT(st, st.cur, v2).(core := st.core) == SetT(st, st.cur, v2);
    HandedIntro(st, x, t, v2, st.core);
  }

  lemma OwnedFree<S, T>(st: State<S, T>, t: T)
    requires Owned(st) && t in st.tealets && st.tealets[t].stack.None?
    ensures Owned(FreeT(st, t))
  {
    forall s | s in st.core.stacks ensures Holders(FreeT(st, t).tealets, s) == Holders(st.tealets, s) { }
  }

  /** The current tealet exits and is freed. */
  lemma ExitFreeHands<S, T>(st: State<S, T>, x: Option<T>, t: T)
    requires Grown(st, x, t) && st.cur != st.main && st.tealets[st.cur].flags.autodelete
    ensures Handed(ExitCurrent(st), t)
  {
    hide CoreOk, Owned, Above, StackOk, Staircase, ListExact, StacksOk;
    var st2 := ExitCurrent(st);
    AboveTarget(st, x, t, st2.core);
    OwnedFree(st, st.cur);
    forall u | u in st2.tealets && u != t ensures RestOk(st2, u) {
      assert RestOk(st, u);
    }
    if x.None? {
      assert RestOk(st, t);
    }
  }

  /* ---- restoring the target ---- */

  lemma {:induction false} RestoreLength(mem: seq<byte>, chunks: seq<ChunkV>)
    ensures |RestoreChunks(mem, chunks)| == |mem|
  {
    if chunks != [] {
      RestoreLength(mem, chunks[..|chunks| - 1]);
    }
  }

  /** Taking the stack of `t` away from it and dropping the reference. */
  lemma OwnedTake<S, T>(st: State<S, T>, t: T, v: TealetV<S, T>)
    requires Owned(st) && t in st.tealets && st.tealets[t].stack.Some? && v.stack.None?
    requires st.tealets[t].stack.value in st.core.stacks
    ensures Owned(SetT(st, t, v).(core := Decref(st.core, st.tealets[t].stack.value)))
  {
    var s := st.tealets[t].stack.value;
    var st2 := SetT(st, t, v).(core := Decref(st.core, s));
    assert Holders(st.tealets, s) == Holders(st2.tealets, s) + {t};
    forall u | u in st.core.stacks && u != s ensures Holders(st2.tealets, u) == Holders(st.tealets, u) { }
  }

  /** A staircase only depends on the records of the stacks in it. */
  lemma SameStaircase<S>(stacks: map<S, StackV>, stacks2: map<S, StackV>, list: seq<S>, b: int)
    requires Staircase(stacks, list) && Above(stacks, list, b)
    requires forall s :: s in list ==> s in stacks2 && stacks2[s] == stacks[s]
    ensures Staircase(stacks2, list) && Above(stacks2, list, b)
  {
    hide StackV.Partial, StackV.Edge;
    forall i | 0 <= i < |list| ensures list[i] in stacks2 && stacks2[list[i]] == stacks[list[i]] {
      assert list[i] in list;
    }
  }

  /** The record of a stack that is left after dropping one reference. */
  lemma DecrefShape<S>(c: Core<S>, s: S)
    requires s in c.stacks && s !in c.plist
    ensures var c2 := Decref(c, s); var v := c.stacks[s];
            && c2.plist == c.plist && c2.mem == c.mem && c2.alloc == c.alloc
            && (forall u :: u in c2.stacks ==> u in c.stacks && (u != s ==> c2.stacks[u] == c.stacks[u]))
            && (forall u :: u in c.stacks && u != s ==> u in c2.stacks)
            && (s in c2.stacks <==> v.refcount > 1)
            && (s in c2.stacks ==> c2.stacks[s] == v.(refcount := v.refcount - 1))
  {
    RemoveAbsent(c.plist, s);
  }

  /** When a stack that is not listed loses a holder, the saved stacks stay in order. */
  lemma DecrefOk<S>(c: Core<S>, b: int, s: S)
    requires CoreOk(c, b, Some(s)) && s in c.stacks
    ensures CoreOk(Decref(c, s), b, None)
  {
    hide StackV.Partial, StackV.Edge, StackOk, Decref, Staircase, Above;
    var c2 := Decref(c, s);
    DecrefShape(c, s);
    SameRecord(c.stacks[s], c.stacks[s].refcount - 1, |c.mem|);
    StaircaseKnown(c);
    SameStaircase(c.stacks, c2.stacks, c.plist, b);
  }

  lemma SameRecord(v: StackV, n: int, m: int)
    ensures StackOk(v, m) ==> StackOk(v.(refcount := n), m)
    ensures v.(refcount := n).Partial() == v.Partial()
  {
  }

  lemma RestoredCore<S>(c: Core<S>, b: int, s: S)
    requires CoreOk(c, b, Some(s)) && s in c.stacks
    ensures var c2 := Restore(c, s); CoreOk(c2, b, Some(s)) && |c2.mem| == |c.mem|
    ensures var c2 := Decref(Restore(c, s), s); CoreOk(c2, b, None) && |c2.mem| == |c.mem|
    ensures Restore(c, s).stacks == c.stacks && Restore(c, s).plist == c.plist
  {
    hide StackOk, Staircase, Above;
    var v := c.stacks[s];
    var c2 := Restore(c, s);
    RestoreLength(Patch(c.mem, v.first.near, v.first.data), v.more);
    assert |c2.mem| == |c.mem|;
    assert StacksOk(c2);
    DecrefOk(c2, b, s);
  }

  /** Two tealets on one stack make it shared. */
  lemma Shared<S, T>(st: State<S, T>, t: T, u: T)
    requires Owned(st) && t in st.tealets && u in st.tealets && t != u
    requires st.tealets[t].stack.Some? && st.tealets[u].stack == st.tealets[t].stack
    requires st.tealets[t].stack.value in st.core.stacks
    ensures st.core.stacks[st.tealets[t].stack.value].refcount > 1
  {
    var s := st.tealets[t].stack.value;
    assert {t, u} <= Holders(st.tealets, s);
    CardLe({t, u}, Holders(st.tealets, s));
  }

  lemma CardLe<A>(x: set<A>, y: set<A>)
    requires x <= y
    ensures |x| <= |y|
  {
    assert y == x + (y - x);
  }

  /** Dropping the stack of `t` leaves every other tealet at rest. */
  lemma TakeRest<S, T>(st: State<S, T>, t: T, c2: Core<S>, u: T)
    requires Owned(st) && t in st.tealets && st.tealets[t].stack.Some? && st.tealets[t].stack.value in st.core.stacks
    requires u in st.tealets && u != t && RestOk(st, u)
    requires |c2.mem| == |st.core.mem| && c2.stacks == Decref(st.core, st.tealets[t].stack.value).stacks
    ensures RestOk(SetT(st, t, st.tealets[t].(stack := None)).(core := c2, cur := t), u)
  {
    if st.tealets[u].stack == st.tealets[t].stack {
      Shared(st, t, u);
    }
  }

  lemma TakeMain<S, T>(st: State<S, T>, t: T, c2: Core<S>)
    requires MainOk(st) && Owned(st)
    requires t in st.tealets && st.tealets[t].stack.Some? && st.tealets[t].stack.value in st.core.stacks
    requires c2.stacks == Decref(st.core, st.tealets[t].stack.value).stacks
    ensures MainOk(SetT(st, t, st.tealets[t].(stack := None)).(core := c2, cur := t))
  {
    if t != st.main && st.tealets[st.main].stack == st.tealets[t].stack {
      Shared(st, t, st.main);
    }
  }

  lemma SameOwned<S, T>(st: State<S, T>, st2: State<S, T>)
    requires Owned(st) && st2.tealets == st.tealets && st2.core.stacks == st.core.stacks
    ensures Owned(st2)
  {
  }

  /** Restoring the target gives back its stack, drops its reference and makes it the running tealet. */
  lemma RestoreSolid<S, T>(st: State<S, T>, t: T)
    requires Handed(st, t) && st.tealets[t].stack.Some?
    ensures Solid(RestoreState(st, t).(cur := t), None)
  {
    hide RestOk, MainOk, Decref, Restore, StackOk, Staircase, Above, ListExact, StacksOk, Owned;
    var s := st.tealets[t].stack.value;
    var st2 := RestoreState(st, t).(cur := t);
    RestoredCore(st.core, st.tealets[t].far, s);
    var c1 := Restore(st.core, s);
    var st1 := st.(core := c1);
    OwnedCore(st, c1);
    OwnedTake(st1, t, st1.tealets[t].(stack := None));
    assert Owned(st2) by { SameOwned(SetT(st1, t, st1.tealets[t].(stack := None)).(core := st2.core), st2); }
    DecrefSame(c1, st.core, s);
    forall u | u in st.tealets && u != t ensures RestOk(st2, u) {
      TakeRest(st, t, st2.core, u);
    }
    TakeMain(st, t, st2.core);
    StaircaseKnown(st2.core);
    KnownIntro(st2);
  }

  lemma KnownIntro<S, T>(st: State<S, T>)
    requires RunnerOk(st, st.cur) && MainOk(st)
    requires forall u :: u in st.tealets && u != st.cur ==> RestOk(st, u)
    requires forall s :: s in st.core.plist ==> s in st.core.stacks
    ensures Known(st)
  {
    forall u | u in st.tealets && st.tealets[u].stack.Some? ensures st.tealets[u].stack.value in st.core.stacks {
      assert RestOk(st, u);
    }
  }

  lemma DecrefSame<S>(c1: Core<S>, c: Core<S>, s: S)
    requires c1.stacks == c.stacks && s in c.stacks
    ensures Decref(c1, s).stacks == Decref(c, s).stacks
  {
  }

  /* ---- a whole transfer ---- */

  /** The environment and identity supplied with a call that saves the stack of `cur`. */
  ghost predicate EnvOk<S, T>(st: State<S, T>, env: Env, id: S)
    requires st.cur in st.tealets
  {
    0 <= env.sp < st.tealets[st.cur].far && env.sp <= |st.core.mem| && id !in st.core.stacks
  }

  /** The transfer signals that a call may have set on the running tealet: main never exits. */
  ghost predicate Signals<S, T>(st: State<S, T>)
    requires st.cur in st.tealets
  {
    var f := st.tealets[st.cur].flags;
    (f.exiting ==> st.cur != st.main) && (f.autodelete ==> f.exiting)
  }

  /** How many requests for memory a transfer from `cur` to `t` makes before its caller is saved. */
  ghost function Asked<S, T>(st: State<S, T>, t: T): (n: nat)
    requires Known(st) && t in st.tealets
    ensures n <= |st.core.plist|
  {
    Requests(st.core, st.core.plist, st.tealets[t].far, st.tealets[t].stack)
  }

  /** An unshared target is taken off the list half saved, and then its caller, which may not be given up, cannot be
      saved: of the requests for the k stacks before the target none is refused, and the next one is. */
  ghost predicate Lost<S, T>(st: State<S, T>, t: T, failOk: bool, isExit: bool)
    requires Known(st) && t in st.tealets
  {
    var c, s := st.core, st.tealets[t].stack;
    && failOk && !isExit && Listed(c.plist, s) && c.stacks[s.value].refcount <= 1
    && var k := Position(c.plist, s.value);
       CanGrow(c, c.plist, k, true, None) && !c.alloc(c.ticks + k)
  }

  ghost predicate LosesTarget<S, T>(st: State<S, T>, t: T)
    requires Known(st) && t in st.tealets
  {
    Lost(st, t, FailOk(st), st.tealets[st.cur].flags.exiting)
  }

  /** The growth step of a transfer ends as the allocator's answers foretell. */
  lemma GrowForEnds<S, T>(st: State<S, T>, x: Option<T>, t: T)
    requires Solid(st, x) && CanReach(st, x, t)
    ensures Known(st)
    ensures Ends(st.core, GrowFor(st, t), st.core.plist, Asked(st, t), FailOk(st), st.tealets[st.main].stack)
  {
    hide RestOk, MainOk, Owned, CoreOk, GrowList, GrowPre, Ends, Requests;
    TransferPre(st, x, t);
    GrowListEnds(st.core, st.core.plist, st.tealets[t].far, st.tealets[t].stack, FailOk(st), st.tealets[st.main].stack);
  }

  /** A listed target is the last stack that needs memory. */
  lemma AskedListed<S, T>(st: State<S, T>, x: Option<T>, t: T)
    requires Solid(st, x) && CanReach(st, x, t) && Listed(st.core.plist, st.tealets[t].stack)
    ensures Known(st)
    ensures var s := st.tealets[t].stack.value;
            Asked(st, t) == Position(st.core.plist, s) + (if st.core.stacks[s].refcount > 1 then 1 else 0)
  {
    hide RestOk, MainOk, Owned, Needy, StackOk, StacksOk, ListExact, Above;
    var s := st.tealets[t].stack.value;
    TransferPre(st, x, t);
    NeedyTarget(st.core.stacks, st.core.plist, Position(st.core.plist, s));
  }

  /** The target is lost exactly when the growth step succeeds, takes it off the list half saved, and the next request,
      for the caller, is refused. */
  lemma LosesTargetIs<S, T>(st: State<S, T>, x: Option<T>, t: T)
    requires Solid(st, x) && CanReach(st, x, t)
    ensures Known(st)
    ensures var g := GrowFor(st, t); var s := st.tealets[t].stack;
            LosesTarget(st, t)
            <==> (&& !g.fail && !st.tealets[st.cur].flags.exiting && FailOk(st) && !st.core.alloc(g.core.ticks)
                  && Listed(st.core.plist, s) && st.core.stacks[s.value].refcount <= 1)
  {
    hide Solid, GrowFor, FailOk, Asked, Position;
    SolidBasics(st, x);
    GrowForEnds(st, x, t);
    var c, s := st.core, st.tealets[t].stack;
    if Listed(c.plist, s) && c.stacks[s.value].refcount <= 1 && FailOk(st) {
      AskedListed(st, x, t);
      var k := Position(c.plist, s.value);
      assert forall i :: 0 <= i < k ==>
          (Stuck(c, c.plist, i, true, None) <==> Stuck(c, c.plist, i, FailOk(st), st.tealets[st.main].stack));
    }
  }

  /** Only the status bits of the running tealet matter. */
  lemma CastCur<S, T>(st: State<S, T>, x: Option<T>, v: TealetV<S, T>)
    requires Cast(st, x)
    requires var w := st.tealets[st.cur];
             && v.far == w.far && v.stack == w.stack && v.flags.bound == w.flags.bound
             && v.flags.exited == w.flags.exited && v.flags.defunct == w.flags.defunct
    ensures Cast(SetT(st, st.cur, v), x)
  {
    hide Owned, Idle, Quiet;
    var st2 := SetT(st, st.cur, v);
    OwnedSame(st, st.cur, v);
    forall u | u in st2.tealets && u != st2.cur && x != Some(u) ensures RestOk(st2, u) {
      assert RestOk(st, u);
    }
  }

  lemma CastFlags<S, T>(st: State<S, T>, x: Option<T>)
    requires Cast(st, x)
    ensures var v := st.tealets[st.cur];
            Cast(SetT(st, st.cur, v.(flags := v.flags.(saveforce := false))), x)
  {
    var v := st.tealets[st.cur];
    hide Cast;
    CastCur(st, x, v.(flags := v.flags.(saveforce := false)));
  }

  /** The state after a growth step that succeeded. */
  lemma GrownIntro<S, T>(st: State<S, T>, x: Option<T>, t: T)
    requires Solid(st, x) && CanReach(st, x, t) && !GrowFor(st, t).fail
    ensures var v := st.tealets[st.cur];
            Grown(SetT(st, st.cur, v.(flags := v.flags.(saveforce := false))).(core := GrowFor(st, t).core), x, t)
  {
    hide RestOk, MainOk, RunnerOk, Owned, CoreOk, Above, GrowList, Followed;
    GrowStep(st, x, t);
    var g := GrowFor(st, t);
    var st1 := st.(core := g.core);
    CastFlags(st1, x);
    var v := st.tealets[st.cur];
    var st2 := SetT(st, st.cur, v.(flags := v.flags.(saveforce := false))).(core := g.core);
    assert st2 == SetT(st1, st1.cur, v.(flags := v.flags.(saveforce := false)));
    assert Reach(st2, x, t) by { ReachIntro(st, x, t); }
  }

  lemma ReachIntro<S, T>(st: State<S, T>, x: Option<T>, t: T)
    requires Solid(st, x) && CanReach(st, x, t)
    ensures Reach(st, x, t)
  {
    hide CoreOk, Owned, Known;
  }

  /** A failed save that did not lose the target leaves every half-saved stack on the list. */
  lemma FailedSaveKeeps<S, T>(st: State<S, T>, x: Option<T>, t: T, c2: Core<S>)
    requires Solid(st, x) && CanReach(st, x, t) && !GrowFor(st, t).fail
    requires var s := st.tealets[t].stack;
             s.Some? && s.value in st.core.plist ==> st.core.stacks[s.value].refcount > 1
    requires var g := GrowFor(st, t); c2 == g.core.(ticks := c2.ticks)
    ensures CoreOk(c2, st.tealets[st.cur].far, None)
  {
    hide RestOk, MainOk, RunnerOk, Owned, Above, GrowList, StackOk, StackV.Partial, StackV.Bytes, Slice;
    GrowStep(st, x, t);
  }

  lemma CastTicks<S, T>(st: State<S, T>, x: Option<T>, n: nat)
    requires Cast(st, x)
    ensures Cast(st.(core := st.core.(ticks := n)), x)
  {
    var st2 := st.(core := st.core.(ticks := n));
    forall u | u in st2.tealets && u != st2.cur && x != Some(u) ensures RestOk(st2, u) { assert RestOk(st, u); }
  }

  lemma SolidFlags<S, T>(st: State<S, T>, x: Option<T>)
    requires Solid(st, x)
    ensures var v := st.tealets[st.cur];
            Solid(SetT(st, st.cur, v.(flags := v.flags.(saveforce := false))), x)
  {
    hide CoreOk, Cast;
    CastFlags(st, x);
  }

  /** Growing changes neither the C stack, nor the answers of the allocator, nor which stacks exist. */
  lemma GrownSame<S, T>(st: State<S, T>, x: Option<T>, t: T)
    requires Solid(st, x) && CanReach(st, x, t)
    ensures var c2 := GrowFor(st, t).core;
            c2.mem == st.core.mem && c2.alloc == st.core.alloc && c2.stacks.Keys == st.core.stacks.Keys
  {
    hide RestOk, MainOk, Owned, CoreOk, GrowList, StacksOk;
    GrowStep(st, x, t);
  }

  lemma SaveFailsSolid<S, T>(st: State<S, T>, x: Option<T>, t: T, env: Env, id: S)
    requires Solid(st, x) && CanReach(st, x, t) && EnvOk(st, env, id)
    requires SaveState(st, t, env.sp, id).fail && !GrowFor(st, t).fail && !LosesTarget(st, t)
    requires !st.core.alloc(GrowFor(st, t).core.ticks) && !st.tealets[st.cur].flags.exiting && FailOk(st)
    ensures Solid(SaveState(st, t, env.sp, id).st, x)
  {
    hide RestOk, MainOk, Owned, CoreOk, GrowList, StacksOk, Above, RunnerOk, Lost, LosesTarget;
    var g := GrowFor(st, t);
    LosesTargetIs(st, x, t);
    GrowStep(st, x, t);
    GrownSame(st, x, t);
    var c2 := g.core.(ticks := g.core.ticks + 1);
    FailedSaveKeeps(st, x, t, c2);
    CastTicks(st.(core := g.core), x, g.core.ticks + 1);
    assert Cast(st.(core := c2), x);
    SolidFlags(st.(core := c2), x);
    var v := st.tealets[st.cur];
    assert SaveState(st, t, env.sp, id).st
        == SetT(st.(core := c2), st.cur, v.(flags := v.flags.(saveforce := false)));
  }

  /** Saving for a transfer: either the state is ready for the target, or the transfer failed and nothing is lost;
      the one exception is an unshared target that had already left the list. */
  lemma SaveStateSafe<S, T>(st: State<S, T>, x: Option<T>, t: T, env: Env, id: S)
    requires Solid(st, x) && CanReach(st, x, t) && EnvOk(st, env, id) && Signals(st)
    ensures var m := SaveState(st, t, env.sp, id);
            && (!m.fail ==> Handed(m.st, t))
            && (m.fail && !LosesTarget(st, t) ==> Solid(m.st, x))
  {
    hide RestOk, MainOk, Owned, CoreOk, Above, GrowList, Handed, Followed;
    var g := GrowFor(st, t);
    GrowStep(st, x, t);
    var v := st.tealets[st.cur];
    var st1 := SetT(st, st.cur, v.(flags := v.flags.(saveforce := false))).(core := g.core);
    var m := SaveState(st, t, env.sp, id);
    if g.fail {
      SolidFlags(st.(core := g.core), x);
      assert st1 == SetT(st.(core := g.core), st.cur, v.(flags := v.flags.(saveforce := false)));
    } else {
      GrownIntro(st, x, t);
      GrownSame(st, x, t);
      if v.flags.exiting {
        if v.flags.autodelete { ExitFreeHands(st1, x, t); } else { ExitHands(st1, x, t); }
      } else if st.core.alloc(g.core.ticks) {
        SaveHands(st1, x, t, env.sp, FailOk(st), id);
      } else if FailOk(st) {
        if !LosesTarget(st, t) {
          SaveFailsSolid(st, x, t, env, id);
        }
      } else {
        GiveUpHands(st1, x, t, env.sp, id);
      }
    }
  }

  /** The invariant says nothing about the fields that only a transfer in progress uses. */
  lemma SolidCong<S, T>(st: State<S, T>, st2: State<S, T>, x: Option<T>)
    requires Solid(st, x) && PrevOk(st2)
    requires st2.core == st.core && st2.tealets == st.tealets && st2.main == st.main && st2.cur == st.cur
    ensures Solid(st2, x)
  {
    hide CoreOk;
    forall u | u in st2.tealets && u != st2.cur && x != Some(u) ensures RestOk(st2, u) { assert RestOk(st, u); }
  }

  /** A target without a saved stack goes on where the stack pointer is. */
  lemma NopSolid<S, T>(st: State<S, T>, t: T)
    requires Handed(st, t) && st.tealets[t].stack.None?
    ensures Solid(st.(cur := t), None)
  {
    hide Owned, ListExact, Above, StackOk, StacksOk;
    var st2 := st.(cur := t);
    forall u | u in st2.tealets && u != t ensures RestOk(st2, u) { assert RestOk(st, u); }
    StaircaseKnown(st2.core);
    KnownIntro(st2);
    SameOwned(st, st2);
  }

  /** The two callbacks of a transfer. */
  lemma StackmanSafe<S, T>(st: State<S, T>, x: Option<T>, t: T, env: Env, id: S)
    requires Solid(st, x) && CanReach(st, x, t) && EnvOk(st, env, id) && Signals(st)
    ensures var m := StackmanSwitch(st, t, env.sp, id);
            && (!m.fail ==> Solid(m.st.(cur := t), None) && Quiet(m.st.tealets[t].flags))
            && (m.fail && !LosesTarget(st, t) ==> Solid(m.st, x))
            && m.fail == SaveState(st, t, env.sp, id).fail
  {
    hide RestOk, MainOk, Owned, CoreOk, SaveState, Known, RestoreState;
    SaveStateSafe(st, x, t, env, id);
    var m := SaveState(st, t, env.sp, id);
    var m2 := StackmanSwitch(st, t, env.sp, id);
    if m.fail {
      if !LosesTarget(st, t) {
        SolidCong(m.st, m2.st, x);
      }
    } else if m.st.tealets[t].stack.Some? {
      RestoreSolid(m.st, t);
      var r := RestoreState(m.st, t).(cur := t);
      SolidCong(r, m2.st.(cur := t), None);
      RestoreFlags(m.st, t);
    } else {
      NopSolid(m.st, t);
      SolidCong(m.st.(cur := t), m2.st.(cur := t), None);
    }
  }

  lemma RestoreFlags<S, T>(st: State<S, T>, t: T)
    requires t in st.tealets && st.tealets[t].stack.Some? && st.tealets[t].stack.value in st.core.stacks
    ensures var st2 := RestoreState(st, t); t in st2.tealets && st2.tealets[t].flags == st.tealets[t].flags
    ensures var st2 := RestoreState(st, t); st2.prev == st.prev && st2.main == st.main
  {
  }

  /** A tealet at rest that points at a defunct stack may remember it. */
  lemma MarkSolid<S, T>(st: State<S, T>, x: Option<T>, t: T)
    requires Solid(st, x) && t in st.tealets && t != st.cur && x != Some(t) && st.tealets[t].flags.bound
    requires IsDefunct(st, t)
    ensures Solid(MarkDefunct(st, t), x)
  {
    hide CoreOk, Owned;
    var v := st.tealets[t];
    var st2 := MarkDefunct(st, t);
    OwnedSame(st, t, v.(flags := v.flags.(defunct := true)));
    forall u | u in st2.tealets && u != st2.cur && x != Some(u) ensures RestOk(st2, u) { assert RestOk(st, u); }
  }

  /** What a transfer never touches, and the signals it always clears. */
  lemma SwitchStackFrame<S, T>(st: State<S, T>, t: T, env: Env, id: S)
    requires Known(st) && t in st.tealets && t != st.cur
    ensures var r := SwitchStack(st, t, env, id);
            && r.st.main == st.main && r.st.locks == st.locks && r.st.tsize == st.tsize && !r.st.panic
            && (st.target.None? ==> r.st.target.None?)
            && r.st.cur == (if r.moved then t else st.cur)
            && (!r.moved ==> r.code.Failed() && r.code != ErrPanic && r.code != ErrUnforkable)
            && (!r.moved ==> r.st.prev == st.prev)
            && (r.moved ==> r.code == (if st.panic then ErrPanic else if st.tealets[t].stack.Some? then Ok else Saved))
  {
    hide SaveState, Decref, Restore;
    SaveStateFrame(st.(prev := Some(st.cur), target := Some(t)), t, env.sp, id);
  }

  /** Saving touches neither the target nor the bookkeeping of main, and keeps every stack alive. */
  lemma SaveStateFrame<S, T>(st: State<S, T>, t: T, sp: int, id: S)
    requires Known(st) && t in st.tealets && t != st.cur
    ensures var m := SaveState(st, t, sp, id);
            && m.st.main == st.main && m.st.locks == st.locks && m.st.tsize == st.tsize && m.st.panic == st.panic
            && m.st.cur == st.cur && m.st.target == st.target && m.st.sw == st.sw
            && t in m.st.tealets && m.st.tealets[t] == st.tealets[t]
            && st.core.stacks.Keys <= m.st.core.stacks.Keys
  {
    hide GrowList;
  }

  lemma LosesCong<S, T>(st: State<S, T>, st2: State<S, T>, t: T)
    requires Known(st) && Known(st2) && t in st.tealets
    requires st2.core == st.core && st2.tealets == st.tealets && st2.main == st.main && st2.cur == st.cur
    ensures LosesTarget(st2, t) == LosesTarget(st, t)
  {
  }

  lemma StackmanKeepsAll<S, T>(st: State<S, T>, t: T, env: Env, id: S)
    requires Known(st) && t in st.tealets
    ensures var m := StackmanSwitch(st, t, env.sp, id); m.fail ==> st.tealets.Keys <= m.st.tealets.Keys
  {
    hide GrowList;
  }

  /** The transfer itself, once nothing speaks against it. */
  lemma PerformSafe<S, T>(st: State<S, T>, x: Option<T>, t: T, env: Env, id: S)
    requires Solid(st, x) && CanReach(st, x, t) && EnvOk(st, env, id) && Signals(st) && Known(st)
    requires !st.tealets[t].flags.exited && !IsDefunct(st, t) && env.callerOk && env.integrityOk
    ensures var r := SwitchStack(st, t, env, id);
            && (r.moved ==> Solid(r.st, None) && r.st.cur == t && Quiet(r.st.tealets[t].flags))
            && (!r.moved && !LosesTarget(st, t) ==> Solid(r.st, x))
  {
    hide Solid, Handed, RestOk, MainOk, Owned, CoreOk, StackmanSwitch, LosesTarget;
    SolidBasics(st, x);
    var r := SwitchStack(st, t, env, id);
    var st1 := st.(prev := Some(st.cur), target := Some(t));
    SolidCong(st, st1, x);
    LosesCong(st, st1, t);
    StackmanKeepsAll(st1, t, env, id);
    StackmanSafe(st1, x, t, env, id);
    var m := StackmanSwitch(st1, t, env.sp, id);
    if m.fail {
      if !LosesTarget(st, t) { SolidCong(m.st, r.st, x); }
    } else {
      SolidBasics(m.st.(cur := t), None);
      SolidCong(m.st.(cur := t), r.st, None);
    }
  }

  /** A transfer that takes place leaves `t` running in a legal state; one that is refused or fails leaves the caller
      running in a legal state, unless the target was lost. */
  lemma SwitchStackSafe<S, T>(st: State<S, T>, x: Option<T>, t: T, env: Env, id: S)
    requires Solid(st, x) && t in st.tealets && t != st.cur && (x == Some(t) || x.None?)
    requires st.tealets[t].flags.bound && EnvOk(st, env, id) && Signals(st)
    ensures var r := SwitchStack(st, t, env, id);
            && (r.moved ==> Solid(r.st, None) && r.st.cur == t && Quiet(r.st.tealets[t].flags))
            && (!r.moved && !(r.code == ErrMem && LosesTarget(st, t)) ==> Solid(r.st, x))
  {
    hide Solid, Handed, RestOk, MainOk, Owned, CoreOk, StackmanSwitch;
    SolidBasics(st, x);
    var r := SwitchStack(st, t, env, id);
    if st.tealets[t].flags.exited {
      SolidCong(st, r.st, x);
    } else if IsDefunct(st, t) {
      MarkSolid(st, x, t);
      SolidCong(MarkDefunct(st, t), r.st, x);
    } else if !env.callerOk || !env.integrityOk {
      SolidCong(st, r.st, x);
    } else {
      PerformSafe(st, x, t, env, id);
    }
  }

  lemma SolidBasics<S, T>(st: State<S, T>, x: Option<T>)
    requires Solid(st, x)
    ensures Known(st) && PrevOk(st) && RunnerOk(st, st.cur)
    ensures x.Some? ==> x.value in st.tealets && !IsDefunct(st, x.value)
  {
    hide CoreOk, Owned;
  }

  /* ---- one attempt of switch or exit ---- */

  /** The invariant at a call, whatever the history of the lock. */
  ghost predicate Ready<S, T>(st: State<S, T>) {
    Solid(st, None) && Quiet(st.tealets[st.cur].flags) && !st.panic && st.target.None?
  }

  /** The attempt does not lose an unshared target to a failing save. */
  ghost predicate KeepsTarget<S, T>(st: State<S, T>, t: T, force: bool, isExit: bool, env: Env)
    requires Known(st) && t in st.tealets
  {
    Accepts(st, t, env) ==> !Lost(st, t, !force || st.cur == st.main, isExit)
  }

  /** Nothing but a lack of memory can stop a transfer to `t`. */
  ghost predicate Accepts<S, T>(st: State<S, T>, t: T, env: Env)
    requires Known(st) && t in st.tealets
  {
    var f := st.tealets[t].flags;
    t != st.cur && f.bound && !f.exited && !IsDefunct(st, t) && env.callerOk && env.integrityOk
  }

  /** The signals of an attempt say what Lost wants to know. */
  lemma StageLoses<S, T>(st: State<S, T>, t: T, force: bool, panic: bool, isExit: bool, delete: bool, env: Env)
    requires Ready(st) && Known(st) && t in st.tealets && t != st.cur
    ensures Known(Stage(st, force, panic, isExit, delete))
    ensures Accepts(st, t, env) ==>
              (LosesTarget(Stage(st, force, panic, isExit, delete), t) <==> !KeepsTarget(st, t, force, isExit, env))
  {
    hide Solid, CanGrow, Position;
  }

  lemma StageSolid<S, T>(st: State<S, T>, force: bool, panic: bool, isExit: bool, delete: bool)
    requires Ready(st) && (isExit ==> st.cur != st.main)
    ensures var s := Stage(st, force, panic, isExit, delete);
            && Solid(s, None) && Signals(s) && s.main == st.main && s.cur == st.cur && s.locks == st.locks
            && s.target.None? && s.prev == st.prev && s.panic == panic
  {
    hide CoreOk, RestOk, MainOk, Owned, Known;
    var s := Stage(st, force, panic, isExit, delete);
    var v := s.tealets[st.cur];
    CastCur(st, None, v);
    SolidCong(SetT(st, st.cur, v), s, None);
  }

  lemma ClearReady<S, T>(st: State<S, T>, t: T)
    requires Solid(st, None) && t in st.tealets && !st.panic && st.target.None?
    requires t == st.cur || Quiet(st.tealets[st.cur].flags)
    ensures Ready(ClearSignals(st, t)) && ClearSignals(st, t).locks == st.locks
  {
    hide CoreOk, RestOk, MainOk, Owned, Known;
    var v := st.tealets[t];
    var v2 := v.(flags := v.flags.(exiting := false, autodelete := false, saveforce := false));
    if t == st.cur {
      CastCur(st, None, v2);
    } else {
      assert RestOk(st, t);
      assert Quiet(v.flags) by { RestQuiet(st, t); }
      assert v2 == v;
      assert st.tealets[t := v] == st.tealets;
    }
  }

  lemma RestQuiet<S, T>(st: State<S, T>, t: T)
    requires t in st.tealets && RestOk(st, t)
    ensures Quiet(st.tealets[t].flags)
  {
  }

  /** One attempt: a switch that takes place leaves the target running, anything else the caller, with all
      signals cleared. */
  lemma XferInnerSafe<S, T>(st: State<S, T>, t: T, force: bool, panic: bool, isExit: bool, delete: bool, env: Env, id: S)
    requires Ready(st) && t in st.tealets && EnvOk(st, env, id) && (isExit ==> st.cur != st.main)
    ensures var x := XferInner(st, t, force, panic, isExit, delete, env, id);
            && x.st.main == st.main && x.st.locks == st.locks && x.st.cur == (if x.moved then t else st.cur)
            && (x.moved || x.code != ErrMem || KeepsTarget(st, t, force, isExit, env) ==> Ready(x.st))
  {
    hide Solid, LosesTarget, KeepsTarget, Known;
    assert Known(st) && PrevOk(st) by { SolidBasics(st, None); }
    assert st.cur in st.tealets by { SolidCur(st, None); }
    var x := XferInner(st, t, force, panic, isExit, delete, env, id);
    if !st.tealets[t].flags.bound || (t == st.cur && isExit) {
    } else if t == st.cur {
      SolidCong(st, x.st, None);
    } else {
      var s := Stage(st, force, panic, isExit, delete);
      StageSolid(st, force, panic, isExit, delete);
      StageLoses(st, t, force, panic, isExit, delete, env);
      if XferInner(st, t, force, panic, isExit, delete, env, id).code == ErrMem {
        MemAccepts(st, t, force, panic, isExit, delete, env, id);
      }
      SwitchStackSafe(s, None, t, env, id);
      SolidBasics(s, None);
      SwitchStackFrame(s, t, env, id);
      var r := SwitchStack(s, t, env, id);
      if !r.moved && !(r.code == ErrMem && LosesTarget(s, t)) {
        SolidCur(r.st, None);
        ClearReady(r.st, st.cur);
      }
    }
  }

  /** Only a transfer that is accepted runs out of memory. */
  lemma MemAccepts<S, T>(st: State<S, T>, t: T, force: bool, panic: bool, isExit: bool, delete: bool, env: Env, id: S)
    requires Ready(st) && Known(st) && t in st.tealets
    requires XferInner(st, t, force, panic, isExit, delete, env, id).code == ErrMem
    ensures Accepts(st, t, env)
  {
    hide Solid, StackmanSwitch;
  }

  lemma SolidCur<S, T>(st: State<S, T>, x: Option<T>)
    requires Solid(st, x)
    ensures st.cur in st.tealets && st.main in st.tealets
  {
    hide CoreOk, Owned;
  }

  lemma SaveFailFrame<S, T>(st: State<S, T>, x: Option<T>, t: T, sp: int, id: S)
    requires Solid(st, x) && CanReach(st, x, t) && SaveState(st, t, sp, id).fail
    ensures var m := SaveState(st, t, sp, id);
            && m.st.core.stacks.Keys == st.core.stacks.Keys && m.st.core.mem == st.core.mem && m.st.cur == st.cur
            && st.cur in m.st.tealets && m.st.tealets[st.cur].far == st.tealets[st.cur].far
            && m.st.tealets.Keys == st.tealets.Keys && m.st.count == st.count
            && (Quiet(st.tealets[st.cur].flags) ==> m.st.tealets == st.tealets)
  {
    hide GrowFor, Solid;
    assert Known(st) by { SolidBasics(st, x); }
    GrownSame(st, x, t);
  }

  /** A call that stays in its caller leaves the C stack alone and saves no new stack. */
  lemma StayFrame<S, T>(st: State<S, T>, x: Option<T>, t: T, env: Env, id: S)
    requires Solid(st, x) && t in st.tealets && t != st.cur && (x == Some(t) || x.None?)
    requires st.tealets[t].flags.bound && !SwitchStack(st, t, env, id).moved
    ensures var r := SwitchStack(st, t, env, id);
            && r.st.core.stacks.Keys == st.core.stacks.Keys && r.st.core.mem == st.core.mem && r.st.cur == st.cur
            && st.cur in r.st.tealets && r.st.tealets[st.cur].far == st.tealets[st.cur].far
            && r.st.tealets.Keys == st.tealets.Keys && r.st.count == st.count
            && (Quiet(st.tealets[st.cur].flags) ==> r.st.tealets[st.cur] == st.tealets[st.cur])
  {
    hide SaveState, CoreOk, RestOk, MainOk, Owned, CanReach;
    SolidBasics(st, x);
    var r := SwitchStack(st, t, env, id);
    if r.code == ErrMem {
      var st1 := st.(prev := Some(st.cur), target := Some(t));
      SolidCong(st, st1, x);
      assert CanReach(st1, x, t) by { CanReachIntro(st1, x, t); }
      SaveFailFrame(st1, x, t, env.sp, id);
    }
  }

  lemma CanReachIntro<S, T>(st: State<S, T>, x: Option<T>, t: T)
    requires Solid(st, x) && t in st.tealets && t != st.cur && (x == Some(t) || x.None?)
    requires st.tealets[t].flags.bound && !st.tealets[t].flags.exited && !IsDefunct(st, t)
    ensures CanReach(st, x, t)
  {
    hide Solid;
  }

  lemma XferStayFrame<S, T>(st: State<S, T>, t: T, force: bool, panic: bool, isExit: bool, delete: bool, env: Env, id: S)
    requires Ready(st) && t in st.tealets && (isExit ==> st.cur != st.main)
    requires !XferInner(st, t, force, panic, isExit, delete, env, id).moved
    ensures var x := XferInner(st, t, force, panic, isExit, delete, env, id);
            && x.st.core.stacks.Keys == st.core.stacks.Keys && x.st.core.mem == st.core.mem
            && st.cur in x.st.tealets && x.st.tealets[st.cur].far == st.tealets[st.cur].far
            && x.st.tealets.Keys == st.tealets.Keys && x.st.count == st.count
  {
    hide SwitchStack, CoreOk, RestOk, MainOk, Owned;
    if st.tealets[t].flags.bound && t != st.cur {
      var s := Stage(st, force, panic, isExit, delete);
      StageSolid(st, force, panic, isExit, delete);
      StayFrame(s, None, t, env, id);
    }
  }

  lemma XferCodes<S, T>(st: State<S, T>, t: T, force: bool, panic: bool, isExit: bool, delete: bool, env: Env, id: S)
    requires Ready(st) && t in st.tealets && (isExit ==> st.cur != st.main)
    ensures var x := XferInner(st, t, force, panic, isExit, delete, env, id);
            && (x.moved ==> x.code == ErrPanic || x.code == Ok || x.code == Saved)
            && (x.code == ErrPanic ==> panic)
            && (x.moved && x.code != ErrPanic ==> !panic)
  {
    hide SwitchStack, CoreOk, RestOk, MainOk, Owned;
    if st.tealets[t].flags.bound && t != st.cur {
      var s := Stage(st, force, panic, isExit, delete);
      StageSolid(st, force, panic, isExit, delete);
      SolidBasics(s, None);
      SwitchStackFrame(s, t, env, id);
    }
  }
}
