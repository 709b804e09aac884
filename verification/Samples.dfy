/** Small states that the library reaches from tealet_initialize, each with the run that leads to it. Main is tealet 0; a
    tealet occupies 10 bytes of the heap, and main 100. */
module Samples {
  import opened Base
  import opened StackModel
  import opened StackProofs
  import opened Growth
  import opened TransferModel
  import opened Safety
  import opened Operations
  import opened Refinement
  import opened PrivateStacks
  import opened Calls
  import opened Spawning
  import opened Machine
  import opened Runs

  const RUNNING: Flags := NO_FLAGS.(bound := true)
  const MAIN: Flags := RUNNING.(mainLineage := true)

  const FRESH: TealetV<nat, nat> := TealetV(0, None, NO_FLAGS, Unbound)

  ghost function ZeroMem(): seq<byte> { seq(8, i => 0) }

  /** The state that tealet_initialize makes. */
  ghost function Start(mem: seq<byte>, alloc: nat -> bool): State<nat, nat> {
    State(Core(mem, map[], [], alloc, 1, Stats(100, 1, 0, 0, 0), []),
          map[0 := TealetV(FURTHEST, None, MAIN, Unbound)],
          0, 0, None, None, SwNop, false, [], 1, 10)
  }

  lemma StartInitial(mem: seq<byte>, alloc: nat -> bool)
    requires |mem| < FURTHEST
    ensures Initial(Start(mem, alloc)) && Known(Start(mem, alloc))
  {
  }

  /** Creating a tealet. */
  ghost function Created(st: State<nat, nat>, nt: nat): State<nat, nat> {
    var c := st.core;
    st.(core := c.(ticks := c.ticks + 1, stats := c.stats.(bytes := c.stats.bytes + 10, blocks := c.stats.blocks + 1)),
        tealets := st.tealets[nt := FRESH], count := st.count + 1, locks := st.locks + [true, false])
  }

  lemma CreatedIs(st: State<nat, nat>, nt: nat)
    requires st.core.alloc(st.core.ticks) && st.tsize == 10 && Known(st) && nt !in st.tealets
    ensures Allowed(st, OpNew(nt)) && Apply(st, OpNew(nt)) == Created(st, nt) && Known(Created(st, nt))
  {
    assert st.locks + [true] + [false] == st.locks + [true, false];
  }

  /** Starting tealet `t` at once, when growing the list has left `c` and there is memory for the creator. */
  ghost function Started(st: State<nat, nat>, c: Core<nat>, t: nat, far: int, sp: int, id: nat): State<nat, nat>
    requires st.cur in st.tealets && t in st.tealets
  {
    var v := st.tealets[st.cur];
    var s := SaveTo(c, id, sp, v.far, far);
    st.(core := if s.full then s.core else Link(s.core, id),
        tealets := st.tealets[st.cur := v.(resume := InRun(t), stack := Some(id))]
                             [t := st.tealets[t].(far := far, flags := RUNNING)],
        cur := t, prev := Some(st.cur), target := None, sw := SwNop, panic := false, locks := st.locks + [true, false])
  }

  lemma StartedIs(st: State<nat, nat>, c: Core<nat>, t: nat, far: int, sp: int, id: nat)
    requires Known(st) && t in st.tealets && t != st.cur && st.tealets[t] == FRESH && !st.panic && st.target.None?
    requires st.tealets[st.cur].stack.None? && Quiet(st.tealets[st.cur].flags)
    requires GrowList(st.core, st.core.plist, far, None, true, st.tealets[st.main].stack) == Grown(c, false, false)
    requires c.alloc(c.ticks)
    ensures Run(st, t, far, true, Env(sp, true, true), id).st == Started(st, c, t, far, sp, id)
  {
    hide GrowList, SaveTo, Link, SaveState, SwitchStack, Known;
    KnownCur(st);
    var v := st.tealets[st.cur];
    var w := st.tealets[t].(far := far, flags := RUNNING);
    var s := SetT(SetT(Lock(st), st.cur, v.(resume := InRun(t))), t, w);
    StartedSwitch(st, s, c, t, far, sp, id);
    assert st.locks + [true] + [false] == st.locks + [true, false];
  }

  lemma StartedSwitch(st: State<nat, nat>, s: State<nat, nat>, c: Core<nat>, t: nat, far: int, sp: int, id: nat)
    requires Known(st) && t in st.tealets && t != st.cur && st.tealets[t] == FRESH && !st.panic
    requires st.tealets[st.cur].stack.None? && Quiet(st.tealets[st.cur].flags)
    requires GrowList(st.core, st.core.plist, far, None, true, st.tealets[st.main].stack) == Grown(c, false, false)
    requires c.alloc(c.ticks)
    requires s == SetT(SetT(Lock(st), st.cur, st.tealets[st.cur].(resume := InRun(t))), t,
                       st.tealets[t].(far := far, flags := RUNNING))
    ensures Known(s)
    ensures var x := SwitchStack(s, t, Env(sp, true, true), id);
            && x.st == Started(st, c, t, far, sp, id).(locks := st.locks + [true]) && x.code == Saved && x.moved
  {
    hide GrowList, SaveTo, Link, SaveState;
    var s1 := s.(prev := Some(s.cur), target := Some(t));
    StartedSave(st, s1, c, t, far, sp, id);
  }

  lemma StartedSave(st: State<nat, nat>, s1: State<nat, nat>, c: Core<nat>, t: nat, far: int, sp: int, id: nat)
    requires Known(st) && t in st.tealets && t != st.cur && st.tealets[t] == FRESH
    requires st.tealets[st.cur].stack.None? && Quiet(st.tealets[st.cur].flags)
    requires GrowList(st.core, st.core.plist, far, None, true, st.tealets[st.main].stack) == Grown(c, false, false)
    requires c.alloc(c.ticks)
    requires s1 == SetT(SetT(Lock(st), st.cur, st.tealets[st.cur].(resume := InRun(t))), t,
                        st.tealets[t].(far := far, flags := RUNNING)).(prev := Some(st.cur), target := Some(t))
    ensures Known(s1)
    ensures var m := SaveState(s1, t, sp, id); var r := Started(st, c, t, far, sp, id);
            !m.fail && m.st == s1.(core := r.core, tealets := r.tealets)
  {
    hide GrowList, SaveTo, Link, GrowFor;
    SaveToAlloc(c, id, sp, st.tealets[st.cur].far, far);
    StartedGrow(st, s1, c, t, far);
    var v := st.tealets[st.cur];
    SameUpdates(st.tealets, st.cur, v.(resume := InRun(t)), v.(resume := InRun(t)), v.(resume := InRun(t), stack := Some(id)), t,
                st.tealets[t].(far := far, flags := RUNNING));
  }

  lemma SameUpdates(m: map<nat, TealetV<nat, nat>>, k: nat, a: TealetV<nat, nat>, b: TealetV<nat, nat>,
                    c: TealetV<nat, nat>, t: nat, w: TealetV<nat, nat>)
    requires k != t
    ensures m[k := a][t := w][k := b][k := c] == m[k := c][t := w]
  {
  }

  lemma StartedGrow(st: State<nat, nat>, s1: State<nat, nat>, c: Core<nat>, t: nat, far: int)
    requires Known(st) && t in st.tealets && t != st.cur && st.tealets[t] == FRESH
    requires st.tealets[st.cur].stack.None? && Quiet(st.tealets[st.cur].flags)
    requires GrowList(st.core, st.core.plist, far, None, true, st.tealets[st.main].stack) == Grown(c, false, false)
    requires s1 == SetT(SetT(Lock(st), st.cur, st.tealets[st.cur].(resume := InRun(t))), t,
                        st.tealets[t].(far := far, flags := RUNNING)).(prev := Some(st.cur), target := Some(t))
    ensures Known(s1) && GrowFor(s1, t) == Grown(c, false, false) && FailOk(s1)
  {
    hide GrowList;
  }

  /** Nothing listed has to grow. */
  lemma NothingGrows(c: Core<nat>, stop: int, mainStack: Option<nat>)
    requires forall s :: s in c.plist ==> s in c.stacks && c.stacks[s].Partial() && stop <= c.stacks[s].Edge()
    ensures GrowList(c, c.plist, stop, None, true, mainStack) == Grown(c, false, false)
  {
    GrowListIdle(c, c.plist, stop, None, true, mainStack);
  }

  lemma LeadsStep(st: State<nat, nat>, op: Op<nat, nat>, mid: State<nat, nat>, ops: seq<Op<nat, nat>>, st2: State<nat, nat>)
    requires Allowed(st, op) && Apply(st, op) == mid && Leads(mid, ops, st2)
    ensures Leads(st, [op] + ops, st2)
  {
    hide Allowed, Apply;
    assert ([op] + ops)[1..] == ops;
  }

  /* ---- main waits for the tealet it started ---- */

  /** Main started tealet 1 at address 4 and waits with one byte saved; tealet 2 is NEW. */
  ghost function Sample(alloc: nat -> bool): State<nat, nat> {
    State(Core(ZeroMem(), map[10 := StackV(1, FURTHEST, false, 1, ChunkV(3, [0]), [])], [10], alloc, 4,
               Stats(209, 4, 89, 1, 1), [Range(3, 4)]),
          map[0 := TealetV(FURTHEST, Some(10), MAIN, InRun(1)), 1 := TealetV(4, None, RUNNING, Unbound), 2 := FRESH],
          0, 1, Some(0), None, SwNop, false, [true, false, true, false, true, false], 3, 10)
  }

  ghost function SampleRun(): seq<Op<nat, nat>> { [OpNew(1), OpNew(2), OpRun(1, 4, true, Env(3, true, true), 10)] }

  lemma SampleLeads(alloc: nat -> bool)
    requires alloc(1) && alloc(2) && alloc(3)
    ensures Leads(Start(ZeroMem(), alloc), SampleRun(), Sample(alloc)) && Known(Sample(alloc))
  {
    hide Allowed, Apply, Known, Sample, Leads, Created;
    var s0 := Start(ZeroMem(), alloc);
    StartInitial(ZeroMem(), alloc);
    CreatedTwice(alloc);
    var s1 := Created(s0, 1);
    var s2 := Created(s1, 2);
    var op: Op<nat, nat> := OpRun(1, 4, true, Env(3, true, true), 10);
    SampleLast(alloc);
    LeadsNone(Sample(alloc));
    LeadsStep(s2, op, Sample(alloc), [], Sample(alloc));
    LeadsStep(s1, OpNew(2), s2, [op] + [], Sample(alloc));
    LeadsStep(s0, OpNew(1), s1, [OpNew(2)] + ([op] + []), Sample(alloc));
    assert SampleRun() == [OpNew(1)] + ([OpNew(2)] + ([op] + []));
  }

  lemma LeadsNone(st: State<nat, nat>)
    ensures Leads(st, [], st)
  {
  }

  lemma CreatedTwice(alloc: nat -> bool)
    requires alloc(1) && alloc(2)
    ensures var s0 := Start(ZeroMem(), alloc); var s1 := Created(s0, 1);
            && Allowed(s0, OpNew(1)) && Apply(s0, OpNew(1)) == s1
            && Allowed(s1, OpNew(2)) && Apply(s1, OpNew(2)) == Created(s1, 2)
  {
    hide Allowed, Apply;
    StartInitial(ZeroMem(), alloc);
    CreatedIs(Start(ZeroMem(), alloc), 1);
    CreatedIs(Created(Start(ZeroMem(), alloc), 1), 2);
  }

  lemma SampleLast(alloc: nat -> bool)
    requires alloc(1) && alloc(2) && alloc(3)
    ensures var st := Created(Created(Start(ZeroMem(), alloc), 1), 2);
            var op: Op<nat, nat> := OpRun(1, 4, true, Env(3, true, true), 10);
            Allowed(st, op) && Apply(st, op) == Sample(alloc) && Known(Sample(alloc))
  {
    hide Run, GrowList;
    var st := Created(Created(Start(ZeroMem(), alloc), 1), 2);
    assert Slice(ZeroMem(), 3, 4) == [0];
    NothingGrows(st.core, 4, None);
    StartedIs(st, st.core, 1, 4, 3, 10);
    assert Started(st, st.core, 1, 4, 3, 10) == Sample(alloc);
  }

  /** With no memory left, and with memory to spare. */
  ghost function Exhausted(): State<nat, nat> { Sample(n => n < 4) }

  ghost function Roomy(): State<nat, nat> { Sample(n => true) }

  lemma SampleInv(alloc: nat -> bool)
    requires alloc(1) && alloc(2) && alloc(3)
    ensures Inv(Sample(alloc)) && Known(Sample(alloc))
  {
    hide Inv, Leads, Known, Sample;
    StartInitial(ZeroMem(), alloc);
    SampleLeads(alloc);
    var states := RunReaches(Start(ZeroMem(), alloc), SampleRun(), Sample(alloc));
  }

  /* ---- a shared stack of two chunks ---- */

  ghost function TornMem(): seq<byte> { [0, 0, 0, 7, 9, 0, 0, 0] }

  ghost function Nine(): nat -> bool { n => n < 9 }

  /** Tealets 1, 3 and 4 are NEW. */
  ghost function Torn0(): State<nat, nat> { Created(Created(Created(Start(TornMem(), Nine()), 1), 3), 4) }

  const V10: StackV := StackV(1, FURTHEST, false, 1, ChunkV(5, [0]), [])
  const V30: StackV := StackV(1, 4, false, 2, ChunkV(2, [0, 7]), [])

  /** Main started tealet 1 at address 6. */
  ghost function Torn1(): State<nat, nat> {
    State(Core(TornMem(), map[10 := V10], [10], Nine(), 5, Stats(219, 5, 89, 1, 1), [Range(5, 6)]),
          map[0 := TealetV(FURTHEST, Some(10), MAIN, InRun(1)), 1 := TealetV(6, None, RUNNING, Unbound), 3 := FRESH, 4 := FRESH],
          0, 1, Some(0), None, SwNop, false, [true, false, true, false, true, false, true, false], 4, 10)
  }

  /** Tealet 1 started tealet 3 at address 4, with its stack pointer at 3. */
  ghost function Torn2(): State<nat, nat> {
    State(Core(TornMem(), map[10 := V10, 20 := StackV(1, 6, false, 1, ChunkV(3, [7]), [])], [20, 10], Nine(), 6,
               Stats(308, 6, 178, 2, 2), [Range(5, 6), Range(3, 4)]),
          map[0 := TealetV(FURTHEST, Some(10), MAIN, InRun(1)), 1 := TealetV(6, Some(20), RUNNING, InRun(3)),
              3 := TealetV(4, None, RUNNING, Unbound), 4 := FRESH],
          0, 3, Some(1), None, SwNop, false, [true, false, true, false, true, false, true, false, true, false], 4, 10)
  }

  /** Tealet 3 started tealet 4 at address 5: the stack of tealet 1 had to grow, and that of tealet 3 is saved whole. */
  ghost function Torn3(): State<nat, nat> {
    State(Core(TornMem(), map[10 := V10, 20 := StackV(1, 6, false, 2, ChunkV(3, [7]), [ChunkV(4, [9])]), 30 := V30], [20, 10],
               Nine(), 8, Stats(431, 8, 301, 3, 4), [Range(5, 6), Range(3, 4), Range(4, 5), Range(2, 4)]),
          map[0 := TealetV(FURTHEST, Some(10), MAIN, InRun(1)), 1 := TealetV(6, Some(20), RUNNING, InRun(3)),
              3 := TealetV(4, Some(30), RUNNING, InRun(4)), 4 := TealetV(5, None, RUNNING, Unbound)],
          0, 4, Some(3), None, SwNop, false,
          [true, false, true, false, true, false, true, false, true, false, true, false], 4, 10)
  }

  /** Tealet 4 has written over address 4. */
  ghost function Torn4(): State<nat, nat> {
    Torn3().(core := Torn3().core.(mem := [0, 0, 0, 7, 0, 0, 0, 0]))
  }

  /** Tealets 1 and 2 share a half-saved stack of two chunks, below which tealet 4 runs. No memory is left. */
  ghost function Torn(): State<nat, nat> {
    State(Core([0, 0, 0, 7, 0, 0, 0, 0],
               map[10 := V10, 20 := StackV(2, 6, false, 2, ChunkV(3, [7]), [ChunkV(4, [9])]), 30 := V30], [20, 10],
               Nine(), 9, Stats(441, 9, 301, 3, 4), [Range(5, 6), Range(3, 4), Range(4, 5), Range(2, 4)]),
          map[0 := TealetV(FURTHEST, Some(10), MAIN, InRun(1)), 1 := TealetV(6, Some(20), RUNNING, InRun(3)),
              2 := TealetV(6, Some(20), RUNNING, InRun(3)),
              3 := TealetV(4, Some(30), RUNNING, InRun(4)), 4 := TealetV(5, None, RUNNING, Unbound)],
          0, 4, Some(3), None, SwNop, false,
          [true, false, true, false, true, false, true, false, true, false, true, false, true, false], 5, 10)
  }

  ghost function TornRun(): seq<Op<nat, nat>> {
    [OpNew(1), OpNew(3), OpNew(4), OpRun(1, 6, true, Env(5, true, true), 10), OpRun(3, 4, true, Env(3, true, true), 20),
     OpRun(4, 5, true, Env(2, true, true), 30), OpWrite(4, 0), OpDuplicate(1, 2)]
  }

  lemma TornStep1()
    ensures var op: Op<nat, nat> := OpRun(1, 6, true, Env(5, true, true), 10);
            Known(Torn0()) && Allowed(Torn0(), op) && Apply(Torn0(), op) == Torn1()
  {
    hide Run, GrowList;
    var st := Torn0();
    assert Slice(TornMem(), 5, 6) == [0];
    NothingGrows(st.core, 6, None);
    StartedIs(st, st.core, 1, 6, 5, 10);
    assert Started(st, st.core, 1, 6, 5, 10) == Torn1();
  }

  lemma TornStep2()
    ensures var op: Op<nat, nat> := OpRun(3, 4, true, Env(3, true, true), 20);
            Known(Torn1()) && Allowed(Torn1(), op) && Apply(Torn1(), op) == Torn2()
  {
    hide Run, GrowList;
    var st := Torn1();
    assert Slice(TornMem(), 3, 4) == [7];
    NothingGrows(st.core, 4, Some(10));
    StartedIs(st, st.core, 3, 4, 3, 20);
    assert Started(st, st.core, 3, 4, 3, 20) == Torn2();
  }

  lemma TornStep3()
    ensures var op: Op<nat, nat> := OpRun(4, 5, true, Env(2, true, true), 30);
            Known(Torn2()) && Allowed(Torn2(), op) && Apply(Torn2(), op) == Torn3()
  {
    hide Run, GrowList;
    var st := Torn2();
    assert Slice(TornMem(), 2, 4) == [0, 7];
    TornGrows();
    StartedIs(st, TornGrown(), 4, 5, 2, 30);
    assert Started(st, TornGrown(), 4, 5, 2, 30) == Torn3();
  }

  /** The stack of tealet 1 has grown up to address 5. */
  ghost function TornGrown(): Core<nat> {
    Core(TornMem(), map[10 := V10, 20 := StackV(1, 6, false, 2, ChunkV(3, [7]), [ChunkV(4, [9])])], [20, 10], Nine(), 7,
         Stats(341, 7, 211, 2, 3), [Range(5, 6), Range(3, 4), Range(4, 5)])
  }

  lemma TornGrows()
    ensures var c := Torn2().core;
            (forall s :: s in c.plist ==> s in c.stacks)
            && GrowList(c, c.plist, 5, None, true, Some(10)) == Grown(TornGrown(), false, false)
  {
    var c := Torn2().core;
    assert Slice(TornMem(), 4, 5) == [9];
    var g := GrowStack(c, 20, 2);
    assert [ChunkV(4, [9])] == [] + [ChunkV(4, [9])];
    assert g.core.stacks == TornGrown().stacks;
    assert g.core.log == TornGrown().log;
    assert Visit(c, 20, 5, true, Some(10)) == Grown(TornGrown(), false, false);
    assert c.plist[1..] == [10];
    GrowListIdle(TornGrown(), [10], 5, None, true, Some(10));
  }

  lemma TornStep4()
    ensures Known(Torn3()) && Allowed(Torn3(), OpWrite(4, 0)) && Apply(Torn3(), OpWrite(4, 0)) == Torn4()
  {
    assert Patch(TornMem(), 4, [0]) == [0, 0, 0, 7, 0, 0, 0, 0];
  }

  lemma TornStep5()
    ensures Known(Torn4()) && Allowed(Torn4(), OpDuplicate(1, 2)) && Apply(Torn4(), OpDuplicate(1, 2)) == Torn()
    ensures Known(Torn())
  {
    assert Apply(Torn4(), OpDuplicate(1, 2)) == Torn();
  }

  lemma TornStep0()
    ensures var s0 := Start(TornMem(), Nine()); var s1 := Created(s0, 1); var s2 := Created(s1, 3);
            && Allowed(s0, OpNew(1)) && Apply(s0, OpNew(1)) == s1
            && Allowed(s1, OpNew(3)) && Apply(s1, OpNew(3)) == s2
            && Allowed(s2, OpNew(4)) && Apply(s2, OpNew(4)) == Torn0()
  {
    hide Allowed, Apply;
    StartInitial(TornMem(), Nine());
    var s0 := Start(TornMem(), Nine());
    CreatedIs(s0, 1);
    CreatedIs(Created(s0, 1), 3);
    CreatedIs(Created(Created(s0, 1), 3), 4);
  }

  lemma TornLeads()
    ensures Leads(Start(TornMem(), Nine()), TornRun(), Torn())
  {
    hide Allowed, Apply, Known, Leads, Created, Torn, Torn0, Torn1, Torn2, Torn3, Torn4, Start;
    TornStep0();
    TornStep1();
    TornStep2();
    TornStep3();
    TornStep4();
    TornStep5();
    LeadsNone(Torn());
    var ops := TornRun();
    var s0 := Start(TornMem(), Nine());
    LeadsStep(Torn4(), ops[7], Torn(), [], Torn());
    LeadsStep(Torn3(), ops[6], Torn4(), [ops[7]] + [], Torn());
    assert ops[6..] == [ops[6]] + ([ops[7]] + []);
    LeadsStep(Torn2(), ops[5], Torn3(), ops[6..], Torn());
    LeadsStep(Torn1(), ops[4], Torn2(), ops[5..], Torn()) by { assert ops[5..] == [ops[5]] + ops[6..]; }
    LeadsStep(Torn0(), ops[3], Torn1(), ops[4..], Torn()) by { assert ops[4..] == [ops[4]] + ops[5..]; }
    LeadsStep(Created(Created(s0, 1), 3), ops[2], Torn0(), ops[3..], Torn()) by { assert ops[3..] == [ops[3]] + ops[4..]; }
    LeadsStep(Created(s0, 1), ops[1], Created(Created(s0, 1), 3), ops[2..], Torn()) by { assert ops[2..] == [ops[2]] + ops[3..]; }
    LeadsStep(s0, ops[0], Created(s0, 1), ops[1..], Torn()) by { assert ops[1..] == [ops[1]] + ops[2..]; }
    assert ops == [ops[0]] + ops[1..];
  }

  lemma TornInv()
    ensures Inv(Torn()) && Known(Torn())
  {
    hide Inv, Leads, Known, Torn;
    StartInitial(TornMem(), Nine());
    TornLeads();
    TornStep5();
    var states := RunReaches(Start(TornMem(), Nine()), TornRun(), Torn());
  }

  /* ---- main with a boundary ---- */

  ghost function Plenty(): nat -> bool { n => true }

  /** Main runs below address 4. */
  ghost function Bound0(): State<nat, nat> {
    var st := Start(ZeroMem(), Plenty());
    st.(tealets := map[0 := TealetV(4, None, MAIN, Unbound)])
  }

  /** Main runs below address 4 while tealet 1, which never ran, is suspended, saved up to that address. */
  ghost function Bounded(): State<nat, nat> {
    State(Core(ZeroMem(), map[10 := StackV(1, 6, false, 2, ChunkV(2, [0, 0]), [])], [10], Plenty(), 3,
               Stats(200, 3, 90, 1, 1), [Range(2, 4)]),
          map[0 := TealetV(4, None, MAIN, Unbound), 1 := TealetV(6, Some(10), RUNNING, NotStarted(1, 0))],
          0, 0, None, None, SwNop, false, [true, false, true, false], 2, 10)
  }

  ghost function BoundedRun(): seq<Op<nat, nat>> {
    [OpSetFar(0, 4), OpNew(1), OpRun(1, 6, false, Env(2, true, true), 10)]
  }

  lemma BoundedSteps()
    ensures var s0 := Start(ZeroMem(), Plenty());
            && Allowed(s0, OpSetFar(0, 4)) && Apply(s0, OpSetFar(0, 4)) == Bound0() && Known(Bound0())
            && Allowed(Bound0(), OpNew(1)) && Apply(Bound0(), OpNew(1)) == Created(Bound0(), 1)
  {
    CreatedIs(Bound0(), 1);
  }

  lemma BoundedLast()
    ensures var op := OpRun(1, 6, false, Env(2, true, true), 10);
            Allowed(Created(Bound0(), 1), op) && Apply(Created(Bound0(), 1), op) == Bounded() && Known(Bounded())
  {
    hide Run, Created;
    BoundedAllowed();
    BoundedRuns();
  }

  lemma BoundedAllowed()
    ensures Known(Created(Bound0(), 1)) && Allowed(Created(Bound0(), 1), OpRun(1, 6, false, Env(2, true, true), 10))
  {
  }

  lemma BoundedRuns()
    ensures Known(Created(Bound0(), 1)) && 1 in Created(Bound0(), 1).tealets
    ensures Run(Created(Bound0(), 1), 1, 6, false, Env(2, true, true), 10).st == Bounded()
  {
    var st := Created(Bound0(), 1);
    assert Slice(ZeroMem(), 2, 4) == [0, 0];
    var x := Run(st, 1, 6, false, Env(2, true, true), 10);
    assert x.st.tealets == Bounded().tealets;
  }

  lemma BoundedLeads()
    ensures Leads(Start(ZeroMem(), Plenty()), BoundedRun(), Bounded())
  {
    hide Allowed, Apply, Known, Leads, Created, Bounded, Bound0, Start;
    BoundedSteps();
    BoundedLast();
    LeadsNone(Bounded());
    var ops := BoundedRun();
    LeadsStep(Created(Bound0(), 1), ops[2], Bounded(), [], Bounded());
    LeadsStep(Bound0(), ops[1], Created(Bound0(), 1), [ops[2]] + [], Bounded());
    LeadsStep(Start(ZeroMem(), Plenty()), ops[0], Bound0(), [ops[1]] + ([ops[2]] + []), Bounded());
    assert ops == [ops[0]] + ([ops[1]] + ([ops[2]] + []));
  }

  lemma BoundedInv()
    ensures Inv(Bounded()) && Known(Bounded())
  {
    hide Inv, Leads, Known, Bounded;
    StartInitial(ZeroMem(), Plenty());
    BoundedLeads();
    BoundedLast();
    var states := RunReaches(Start(ZeroMem(), Plenty()), BoundedRun(), Bounded());
  }

  /** A duplicate, tealet 2, of the tealet that never ran. */
  ghost function Twins(): State<nat, nat> {
    var st := Bounded();
    st.(core := st.core.(stacks := map[10 := StackV(2, 6, false, 2, ChunkV(2, [0, 0]), [])], ticks := 4,
                         stats := Stats(210, 4, 90, 1, 1)),
        tealets := st.tealets[2 := TealetV(6, Some(10), RUNNING, NotStarted(1, 0))], count := 3,
        locks := [true, false, true, false, true, false])
  }

  lemma TwinsStep()
    ensures Known(Bounded()) && Allowed(Bounded(), OpDuplicate(1, 2)) && Apply(Bounded(), OpDuplicate(1, 2)) == Twins()
    ensures Known(Twins())
  {
    assert Apply(Bounded(), OpDuplicate(1, 2)) == Twins();
  }

  lemma TwinsInv()
    ensures Inv(Twins()) && Known(Twins())
  {
    hide Inv, Allowed, Apply, Known, Bounded, Twins;
    BoundedInv();
    TwinsStep();
    StepInv(Bounded(), OpDuplicate(1, 2));
  }

  /* ---- a duplicate that outlives its original ---- */

  /** Main waits for tealet 1, which it started at address 4. */
  ghost function Waiting(): State<nat, nat> {
    State(Core(ZeroMem(), map[10 := StackV(1, FURTHEST, false, 1, ChunkV(3, [0]), [])], [10], Plenty(), 3,
               Stats(199, 3, 89, 1, 1), [Range(3, 4)]),
          map[0 := TealetV(FURTHEST, Some(10), MAIN, InRun(1)), 1 := TealetV(4, None, RUNNING, Unbound)],
          0, 1, Some(0), None, SwNop, false, [true, false, true, false], 2, 10)
  }

  /** Tealet 1 has switched back to main. */
  ghost function Back(): State<nat, nat> {
    State(Core(ZeroMem(), map[20 := StackV(1, 4, false, 2, ChunkV(2, [0, 0]), [])], [], Plenty(), 4,
               Stats(200, 3, 90, 1, 1), [Range(3, 4), Range(2, 4)]),
          map[0 := TealetV(FURTHEST, None, MAIN, InRun(1)), 1 := TealetV(4, Some(20), RUNNING, InSwitch(1))],
          0, 0, Some(1), None, SwRestore, false, [true, false, true, false, true, false], 2, 10)
  }

  /** Tealet 2 is a duplicate of tealet 1. */
  ghost function Doubled(): State<nat, nat> {
    State(Core(ZeroMem(), map[20 := StackV(2, 4, false, 2, ChunkV(2, [0, 0]), [])], [], Plenty(), 5,
               Stats(210, 4, 90, 1, 1), [Range(3, 4), Range(2, 4)]),
          map[0 := TealetV(FURTHEST, None, MAIN, InRun(1)), 1 := TealetV(4, Some(20), RUNNING, InSwitch(1)),
              2 := TealetV(4, Some(20), RUNNING, InSwitch(1))],
          0, 0, Some(1), None, SwRestore, false, [true, false, true, false, true, false, true, false], 3, 10)
  }

  /** Tealet 2 is a duplicate of tealet 1, which has been deleted since. */
  ghost function Orphan(): State<nat, nat> {
    State(Core(ZeroMem(), map[20 := StackV(1, 4, false, 2, ChunkV(2, [0, 0]), [])], [], Plenty(), 5,
               Stats(200, 3, 90, 1, 1), [Range(3, 4), Range(2, 4)]),
          map[0 := TealetV(FURTHEST, None, MAIN, InRun(1)), 2 := TealetV(4, Some(20), RUNNING, InSwitch(1))],
          0, 0, None, None, SwRestore, false, [true, false, true, false, true, false, true, false, true, false], 2, 10)
  }

  ghost function OrphanRun(): seq<Op<nat, nat>> {
    [OpNew(1), OpRun(1, 4, true, Env(3, true, true), 10), OpSwitch(0, false, false, false, Env(2, true, true), 20),
     OpDuplicate(1, 2), OpDelete(1)]
  }

  lemma WaitingStep()
    ensures var s0 := Start(ZeroMem(), Plenty()); var op := OpRun(1, 4, true, Env(3, true, true), 10);
            && Allowed(s0, OpNew(1)) && Apply(s0, OpNew(1)) == Created(s0, 1)
            && Allowed(Created(s0, 1), op) && Apply(Created(s0, 1), op) == Waiting() && Known(Waiting())
  {
    hide Run, GrowList;
    StartInitial(ZeroMem(), Plenty());
    CreatedIs(Start(ZeroMem(), Plenty()), 1);
    var st := Created(Start(ZeroMem(), Plenty()), 1);
    assert Slice(ZeroMem(), 3, 4) == [0];
    NothingGrows(st.core, 4, None);
    StartedIs(st, st.core, 1, 4, 3, 10);
    assert Started(st, st.core, 1, 4, 3, 10) == Waiting();
  }

  lemma BackAllowed()
    ensures Known(Waiting()) && Allowed(Waiting(), OpSwitch(0, false, false, false, Env(2, true, true), 20))
  {
    var st := Waiting();
    assert st.core.plist == [10] && Position(st.core.plist, 10) == 0;
    assert Asked(st, 0) == 0;
  }

  /** Tealet 1 has been saved, and main is about to be restored. */
  ghost function Halfway(): State<nat, nat> {
    State(Core(ZeroMem(), map[10 := StackV(1, FURTHEST, false, 1, ChunkV(3, [0]), []),
                              20 := StackV(1, 4, false, 2, ChunkV(2, [0, 0]), [])], [], Plenty(), 4,
               Stats(289, 4, 179, 2, 2), [Range(3, 4), Range(2, 4)]),
          map[0 := TealetV(FURTHEST, Some(10), MAIN, InRun(1)), 1 := TealetV(4, Some(20), RUNNING, InSwitch(1))],
          0, 1, Some(1), Some(0), SwNop, false, [true, false, true, false, true], 2, 10)
  }

  ghost function Departing(): State<nat, nat> {
    Stage(Lock(Waiting()), false, false, false, false).(prev := Some(1), target := Some(0))
  }

  lemma BackSaves()
    ensures Known(Departing()) && 0 in Departing().tealets && SaveState(Departing(), 0, 2, 20) == Moved(Halfway(), false)
  {
    var s1 := Departing();
    assert s1.core.plist == [10];
    assert GrowFor(s1, 0) == Grown(Unlink(s1.core, 10), false, false);
    assert Slice(ZeroMem(), 2, 4) == [0, 0];
    assert SaveState(s1, 0, 2, 20).st.core == Halfway().core;
  }

  lemma BackRestores()
    ensures RestoreState(Halfway(), 0).(sw := SwRestore, cur := 0, target := None) == Back().(locks := Halfway().locks)
  {
    var r := RestoreState(Halfway(), 0);
    assert Patch(ZeroMem(), 3, [0]) == ZeroMem();
    assert r.core.stacks == Back().core.stacks;
    assert r.tealets == Back().tealets;
  }

  lemma BackSwitches()
    ensures var s := Stage(Lock(Waiting()), false, false, false, false);
            && Known(s) && 0 in s.tealets
            && SwitchStack(s, 0, Env(2, true, true), 20) == Xfer(Back().(locks := Halfway().locks), Ok, true)
  {
    hide SaveState, RestoreState;
    BackSaves();
    BackRestores();
  }

  lemma BackStep()
    ensures Known(Waiting()) && 0 in Waiting().tealets
    ensures Switch(Waiting(), 0, false, false, false, Env(2, true, true), 20).st == Back()
  {
    hide SwitchStack, Stage;
    BackSwitches();
    assert Halfway().locks + [false] == Back().locks;
  }

  lemma DoubledStep()
    ensures Known(Back()) && Allowed(Back(), OpDuplicate(1, 2)) && Apply(Back(), OpDuplicate(1, 2)) == Doubled()
  {
    assert Apply(Back(), OpDuplicate(1, 2)) == Doubled();
  }

  lemma OrphanStep()
    ensures Known(Doubled()) && Allowed(Doubled(), OpDelete(1)) && Apply(Doubled(), OpDelete(1)) == Orphan()
    ensures Known(Orphan())
  {
    assert Apply(Doubled(), OpDelete(1)) == Orphan();
  }

  lemma OrphanLeads()
    ensures Leads(Start(ZeroMem(), Plenty()), OrphanRun(), Orphan())
  {
    hide Allowed, Apply, Known, Leads, Created, Waiting, Back, Doubled, Orphan, Start, Switch;
    WaitingStep();
    BackAllowed();
    BackStep();
    DoubledStep();
    OrphanStep();
    SwitchApplies(Waiting(), 0, Env(2, true, true), 20);
    LeadsNone(Orphan());
    var ops, s0 := OrphanRun(), Start(ZeroMem(), Plenty());
    LeadsStep(Doubled(), ops[4], Orphan(), [], Orphan());
    LeadsStep(Back(), ops[3], Doubled(), [ops[4]] + [], Orphan());
    assert ops[3..] == [ops[3]] + ([ops[4]] + []);
    LeadsStep(Waiting(), ops[2], Back(), ops[3..], Orphan());
    LeadsStep(Created(s0, 1), ops[1], Waiting(), ops[2..], Orphan()) by { assert ops[2..] == [ops[2]] + ops[3..]; }
    LeadsStep(s0, ops[0], Created(s0, 1), ops[1..], Orphan()) by { assert ops[1..] == [ops[1]] + ops[2..]; }
    assert ops == [ops[0]] + ops[1..];
  }

  lemma SwitchApplies(st: State<nat, nat>, t: nat, env: Env, id: nat)
    requires Allowed(st, OpSwitch(t, false, false, false, env, id))
    ensures Known(st) && t in st.tealets
    ensures Apply(st, OpSwitch(t, false, false, false, env, id)) == Switch(st, t, false, false, false, env, id).st
  {
    hide Switch, CallLegal, CallAlive, IntactAttempt;
  }

  lemma OrphanInv()
    ensures Inv(Orphan()) && Known(Orphan())
  {
    hide Inv, Leads, Known, Allowed, Apply, Doubled, Orphan;
    StartInitial(ZeroMem(), Plenty());
    OrphanLeads();
    OrphanStep();
    var states := RunReaches(Start(ZeroMem(), Plenty()), OrphanRun(), Orphan());
  }
}
