/** The calls for which the code does not keep what it promises: for each a run from tealet_initialize to a state in which
    it does not. When it does is told exactly, before the call, by Spawning.RunExact, Calls.CallExact,
    Operations.SetFarInv and Refinement.SwitchStackResumes. */
module Edges {
  import opened Base
  import opened StackModel
  import opened StackProofs
  import opened Growth
  import opened TransferModel
  import opened Safety
  import opened Operations
  import opened Refinement
  import opened PrivateStacks
  import opened Calls
  import opened Spawning
  import opened Machine
  import opened Runs
  import opened Samples
  import opened Accounting

  /* ---- PANIC delivered to a tealet that never ran ---- */

  /** The frame of a tealet that was saved before it ever ran, or of a duplicate of one. */
  ghost predicate NeverRan<T>(r: Resume<T>, creator: T) {
    (r.NotStarted? && r.creator == creator) || (r.InFork? && !r.now && r.parent == creator)
  }

  /** A switch or exit that ends as a panic in a tealet that never ran always breaks the library: the frame declares the
      creator to be running. */
  lemma PanicToUnstarted<S, T>(st: State<S, T>, t: T, force: bool, panic: bool, nofail: bool, isExit: bool, delete: bool,
                               env: Env, id: S, r: T, creator: T, n: nat)
    requires Inv(st) && Known(st) && t in st.tealets && EnvOk(st, env, id) && (isExit ==> st.cur != st.main)
    requires CourseOf(st, t, force, panic, nofail, isExit, env) == Leave(r, true, n)
    requires r in st.tealets && NeverRan(st.tealets[r].resume, creator) && creator != r
    ensures Known(Lock(st))
    ensures !Inv(Finish(Transfer(Lock(st), t, force, panic, nofail, isExit, delete, env, id)).st)
  {
    hide Inv, Transfer, Finish, CourseOf, Known;
    CallExact(st, t, force, panic, nofail, isExit, delete, env, id);
  }

  /** A switch or exit that ends as a panic in a creator waiting for the tealet that makes the call: the state stays legal
      exactly when the caller is not saved, that is when it exits, or is given up for lack of memory. */
  lemma PanicToCreator<S, T>(st: State<S, T>, t: T, force: bool, panic: bool, nofail: bool, isExit: bool, delete: bool,
                             env: Env, id: S, r: T, n: nat)
    requires Inv(st) && Known(st) && t in st.tealets && EnvOk(st, env, id) && (isExit ==> st.cur != st.main)
    requires CourseOf(st, t, force, panic, nofail, isExit, env) == Leave(r, true, n)
    requires r in st.tealets && r != st.cur && st.cur != st.main
    requires var f := st.tealets[r].resume; f == InRun(st.cur) || (f.InFork? && f.now && f.child == st.cur)
    ensures Known(Lock(st))
    ensures Inv(Finish(Transfer(Lock(st), t, force, panic, nofail, isExit, delete, env, id)).st)
            <==> isExit || !st.core.alloc(st.core.ticks + n)
  {
    hide Inv, Transfer, Finish, CourseOf, Known;
    KnownCur(st);
    CallExact(st, t, force, panic, nofail, isExit, delete, env, id);
  }

  /* ---- reachable states in which the promise fails ---- */

  /** Tealet 1 tries to go back to main, and no memory is left: the call returns ERR_MEM, and main is half saved and off the
      list. */
  lemma LostTargetExample()
    ensures Leads(Start(ZeroMem(), n => n < 4), SampleRun(), Exhausted()) && Known(Exhausted())
    ensures var x := Switch(Exhausted(), 0, false, false, false, Env(2, true, true), 11); x.code == ErrMem && !Inv(x.st)
  {
    hide Inv, Leads, Transfer, Finish, Sample, XferInner, CourseOf, HasMemory, Accepts, KeepsTarget, Ready, Known, EnvOk;
    var env := Env(2, true, true);
    SampleLeads(n => n < 4);
    SampleInv(n => n < 4);
    LostTargetSteps();
    ExhaustedNames();
    SwitchExact(Exhausted(), 0, false, false, false, env, 11);
    LockedStart(Exhausted());
    AttemptGoes(Lock(Exhausted()), 0, false, false, false, false, env, 11);
    LostTargetCode();
    SwitchCode(Exhausted(), 0, false, false, env, 11);
  }

  lemma ExhaustedNames()
    ensures 0 in Exhausted().tealets && Exhausted().cur != 0 && Exhausted().main == 0
  {
  }

  lemma SwitchCode<S, T>(st: State<S, T>, t: T, force: bool, panic: bool, env: Env, id: S)
    requires Known(st) && t in st.tealets
    ensures Known(Lock(st))
    ensures Switch(st, t, force, panic, false, env, id).code
            == XferInner(Lock(st), t, force, panic, false, false, env, id).code
  {
    hide XferInner, Receive;
  }

  lemma LostTargetSteps()
    ensures Known(Exhausted()) && Accepts(Exhausted(), 0, Env(2, true, true)) && !HasMemory(Exhausted(), 0, true, false)
    ensures CourseOf(Exhausted(), 0, false, false, false, false, Env(2, true, true)) == Remain
    ensures !KeepsTarget(Exhausted(), 0, false, false, Env(2, true, true)) && EnvOk(Exhausted(), Env(2, true, true), 11)
  {
    var st := Exhausted();
    assert st.core.plist == [10] && Position(st.core.plist, 10) == 0;
    assert Asked(st, 0) == 0;
  }

  lemma LostTargetCode()
    ensures Known(Lock(Exhausted())) && Accepts(Lock(Exhausted()), 0, Env(2, true, true))
    ensures !HasMemory(Lock(Exhausted()), 0, true, false)
  {
    LostTargetSteps();
    MemoryCong(Exhausted(), Lock(Exhausted()), 0);
  }

  /** Binding tealet 2 with a boundary beyond address 4, where main is still unsaved, breaks the order of the list. */
  lemma TooFarExample()
    ensures Leads(Start(ZeroMem(), n => true), SampleRun(), Roomy()) && Known(Roomy())
    ensures !Inv(Run(Roomy(), 2, 6, false, Env(2, true, true), 11).st)
  {
    hide Inv, Run, Leads;
    SampleLeads(n => true);
    SampleInv(n => true);
    assert !Above(Roomy().core.stacks, Roomy().core.plist, 6) by {
      assert Roomy().core.plist[0] == 10 && Roomy().core.stacks[10].Edge() == 4;
    }
    RunFarExact(Roomy(), 2, 6, Env(2, true, true), 11);
  }

  /** Tealet 1 goes back to main with PANIC while main waits in tealet_run for tealet 1: main forgets the stack of 1. */
  lemma PanicExample()
    ensures Leads(Start(ZeroMem(), n => true), SampleRun(), Roomy()) && Known(Roomy())
    ensures !Inv(Switch(Roomy(), 0, false, true, false, Env(2, true, true), 11).st)
  {
    hide Inv, Leads, Transfer, Finish;
    SampleLeads(n => true);
    SampleInv(n => true);
    PanicCourse();
    PanicToCreator(Roomy(), 0, false, true, false, false, false, Env(2, true, true), 11, 0, 0);
  }

  lemma PanicCourse()
    ensures Known(Roomy()) && EnvOk(Roomy(), Env(2, true, true), 11)
    ensures CourseOf(Roomy(), 0, false, true, false, false, Env(2, true, true)) == Leave(0, true, 0)
  {
    var st := Roomy();
    assert st.core.plist == [10] && Position(st.core.plist, 10) == 0;
    assert Asked(st, 0) == 0;
  }

  /** Main switches with PANIC to tealet 1, or to its duplicate 2, before tealet 1 ever ran. */
  lemma UnstartedExample()
    ensures Leads(Start(ZeroMem(), Plenty()), BoundedRun(), Bounded()) && Known(Bounded()) && Known(Twins())
    ensures Allowed(Bounded(), OpDuplicate(1, 2)) && Apply(Bounded(), OpDuplicate(1, 2)) == Twins()
    ensures !Inv(Switch(Bounded(), 1, false, true, false, Env(2, true, true), 11).st)
    ensures !Inv(Switch(Twins(), 2, false, true, false, Env(2, true, true), 11).st)
  {
    hide Inv, Leads, Transfer, Finish, Allowed, Apply;
    BoundedLeads();
    BoundedInv();
    TwinsStep();
    TwinsInv();
    UnstartedCourses();
    PanicToUnstarted(Bounded(), 1, false, true, false, false, false, Env(2, true, true), 11, 1, 0,
                     Asked(Bounded(), 1));
    PanicToUnstarted(Twins(), 2, false, true, false, false, false, Env(2, true, true), 11, 2, 0, Asked(Twins(), 2));
  }

  lemma UnstartedCourses()
    ensures Known(Bounded()) && Known(Twins())
    ensures EnvOk(Bounded(), Env(2, true, true), 11) && EnvOk(Twins(), Env(2, true, true), 11)
    ensures CourseOf(Bounded(), 1, false, true, false, false, Env(2, true, true)) == Leave(1, true, Asked(Bounded(), 1))
    ensures CourseOf(Twins(), 2, false, true, false, false, Env(2, true, true)) == Leave(2, true, Asked(Twins(), 2))
  {
    hide Requests;
    UnstartedGoes();
  }

  lemma UnstartedGoes()
    ensures Known(Bounded()) && Known(Twins())
    ensures Goes(Bounded(), 1, false, false, Env(2, true, true)) && Goes(Twins(), 2, false, false, Env(2, true, true))
  {
    hide Requests;
  }

  /** Main switches with PANIC to a duplicate whose original has been deleted: the frame of tealet_switch still names the
      original. */
  lemma OrphanExample()
    ensures Leads(Start(ZeroMem(), Plenty()), OrphanRun(), Orphan()) && Known(Orphan()) && Inv(Orphan())
    ensures !CallAlive(Orphan(), 2, false, true, false, false, false, Env(2, true, true))
  {
    hide Inv, Leads, Requests;
    OrphanLeads();
    OrphanInv();
    assert 1 in Names(Orphan().tealets[2].resume) && 1 !in Orphan().tealets;
  }

  /** Tealet 4 forces a switch to tealet 1. The shared stack cannot be grown, loses its second chunk, so that its saved part
      shrinks, and is restored all the same: tealet 1 runs on bytes it never wrote. */
  lemma TornExample()
    ensures Leads(Start(TornMem(), Nine()), TornRun(), Torn()) && Known(Torn()) && !IntactAttempt(Torn(), 1, true)
    ensures var x := Switch(Torn(), 1, true, false, false, Env(1, true, true), 21); var img := ImageIn(Torn(), 1);
            && x.moved && x.code == Ok && x.st.cur == 1 && img.Some?
            && Slice(x.st.core.mem, img.value.near, 6) != img.value.bytes
            && 20 in x.st.core.stacks && x.st.core.stacks[20].saved < Torn().core.stacks[20].saved
  {
    hide Inv, Leads, Torn, ImageIn, Switch;
    TornLeads();
    TornInv();
    TornNotIntact();
    TornMoves();
    TornFinds();
  }

  lemma TornNotIntact()
    ensures Known(Torn()) && !IntactAttempt(Torn(), 1, true)
  {
    var st := Torn();
    assert Position(st.core.plist, 20) == 0;
    var v := st.core.stacks[20];
    assert v.more[..0] == [] && Concat(v.more) == [9];
    assert Slice(st.core.mem, 4, 5) == [0];
  }

  /** Tealet 4 is about to be saved. */
  ghost function TornStaged(): State<nat, nat> {
    Stage(Lock(Torn()), true, false, false, false).(prev := Some(4), target := Some(1))
  }

  /** The shared stack has been given up. */
  ghost function TornGiven(): Core<nat> {
    Torn().core.(stacks := Torn().core.stacks[20 := StackV(2, 6, true, 0, ChunkV(3, [7]), [])], plist := [10], ticks := 10,
                 stats := Stats(408, 8, 268, 3, 3))
  }

  lemma TornGrows()
    ensures Known(TornStaged()) && GrowFor(TornStaged(), 1) == Grown(TornGiven(), false, true) && !FailOk(TornStaged())
  {
    var c := Torn().core;
    var v := c.stacks[20];
    assert v.more[..0] == [] && ChunkBytes(v.more) == 33;
    assert [20, 10][1..] == [10];
    assert VisitTarget(c, 20, 6, false, Some(10)) == Grown(TornGiven(), false, true);
  }

  /** Tealet 4 is refused memory as well, and is given up. */
  ghost function TornSaved(): State<nat, nat> {
    var v := TornStaged().tealets[4];
    TornStaged().(core := TornGiven().(ticks := 11),
                  tealets := TornStaged().tealets[4 := v.(flags := v.flags.(saveforce := false, defunct := true))])
  }

  lemma TornSaves()
    ensures Known(TornStaged()) && SaveState(TornStaged(), 1, 1, 21) == Moved(TornSaved(), false)
  {
    hide GrowFor, FailOk;
    TornGrows();
  }

  lemma TornSwitches()
    ensures var s := Stage(Lock(Torn()), true, false, false, false);
            && Known(s) && 1 in s.tealets
            && SwitchStack(s, 1, Env(1, true, true), 21)
               == Xfer(RestoreState(TornSaved(), 1).(sw := SwRestore, cur := 1, target := None), Ok, true)
  {
    hide SaveState, RestoreState;
    TornSaves();
    var s := Stage(Lock(Torn()), true, false, false, false);
    assert s.(prev := Some(s.cur), target := Some(1)) == TornStaged();
    assert StackmanSwitch(TornStaged(), 1, 1, 21) == Moved(RestoreState(TornSaved(), 1).(sw := SwRestore), false);
    RestoreFrame(TornSaved(), 1);
  }

  lemma RestoreFrame<S, T>(st: State<S, T>, t: T)
    requires t in st.tealets && st.tealets[t].stack.Some? && st.tealets[t].stack.value in st.core.stacks
    ensures RestoreState(st, t).panic == st.panic
  {
  }

  lemma TornRestores()
    ensures var r := RestoreState(TornSaved(), 1);
            && 20 in r.core.stacks && r.core.stacks[20].saved == 0 && r.core.mem == [0, 0, 0, 7, 0, 0, 0, 0]
  {
    assert Patch(Torn().core.mem, 3, [7]) == Torn().core.mem;
  }

  lemma TornMoves()
    ensures Known(Torn())
    ensures var x := Switch(Torn(), 1, true, false, false, Env(1, true, true), 21);
            && x.moved && x.code == Ok && x.st.cur == 1
            && 20 in x.st.core.stacks && x.st.core.stacks[20].saved == 0
            && x.st.core.mem == [0, 0, 0, 7, 0, 0, 0, 0]
  {
    hide SwitchStack, Stage, RestoreState, Torn, TornSaved, Finish;
    TornBound();
    TornSwitches();
    TornRestores();
    FinishPlain(Transfer(Lock(Torn()), 1, true, false, false, false, false, Env(1, true, true), 21));
  }

  lemma TornBound()
    ensures Known(Torn()) && Known(Lock(Torn())) && Torn().cur != 1
    ensures 1 in Lock(Torn()).tealets && Lock(Torn()).tealets[1].flags.bound
  {
  }

  lemma FinishPlain<S, T>(x: Xfer<S, T>)
    requires x.code == Ok
    ensures var y := Finish(x); y.moved == x.moved && y.code == Ok && y.st.cur == x.st.cur && y.st.core == x.st.core
  {
  }

  lemma TornFinds()
    ensures var img := ImageIn(Torn(), 1); img == Some(Image(3, [7, 9, 0]))
    ensures Slice<byte>([0, 0, 0, 7, 0, 0, 0, 0], 3, 6) != [7, 9, 0] && Torn().core.stacks[20].saved == 2
  {
    var v := Torn().core.stacks[20];
    assert v.more[..0] == [] && Concat(v.more) == [9] && v.Bytes() == [7, 9];
    assert Slice(Torn().core.mem, 5, 6) == [0];
    assert [7, 9] + [0] == [7, 9, 0];
    assert [0, 0, 0, 7, 0, 0, 0, 0][3..6] == [7, 0, 0];
    assert [7, 0, 0][1] != [7, 9, 0][1];
  }

  /** Moving main's boundary up to 5 lets main write over what tealet 1 has not saved yet; moving it at all while main is
      suspended makes it differ from what main's saved stack records. */
  lemma SetFarExample()
    ensures Leads(Start(ZeroMem(), Plenty()), BoundedRun(), Bounded()) && 0 in Bounded().tealets
    ensures !Inv(SetFar(Bounded(), 0, 5).st)
    ensures Leads(Start(ZeroMem(), n => true), SampleRun(), Roomy()) && 0 in Roomy().tealets
    ensures !Inv(SetFar(Roomy(), 0, 8).st)
  {
    hide Inv, SetFar, Leads;
    BoundedLeads();
    BoundedInv();
    SampleLeads(n => true);
    SampleInv(n => true);
    SetFarInv(Bounded(), 5);
    SetFarInv(Roomy(), 8);
    assert Bounded().core.plist[0] == 10 && Bounded().core.stacks[10].Edge() == 4;
  }

  /** The sizes that tealet_get_stats gives in a state that a run reaches: tealets 1 and 2 share a stack of two chunks that
      has saved the addresses 3 and 4 of 3..6. Each of them counts a block up to the boundary, 88 + 3 bytes, among the naive
      sizes, and two blocks, 88 + 1 and 32 + 1 bytes, among the expanded ones. */
  lemma SizesExample()
    ensures Leads(Start(TornMem(), Nine()), TornRun(), Torn())
    ensures NaiveOf(Torn(), 1) == 91 && ExpandedOf(Torn(), 1) == 122
    ensures Naive(Torn()) == 361 && Expanded(Torn()) == 423 && Torn().core.stats.stackBytes == 301
  {
    hide Leads, Inv, Naive, Expanded, NaiveOf, ExpandedOf, Torn;
    TornLeads();
    TornSizes(0);
    TornSizes(1);
    TornSizes(2);
    TornSizes(3);
    TornSizes(4);
    TornTealets();
    FiveTealets(Torn(), 0, 1, 2, 3, 4);
  }

  lemma TornTealets()
    ensures Torn().tealets.Keys == {0, 1, 2, 3, 4} && Torn().core.stats.stackBytes == 301
  {
  }

  lemma TornSizes(t: nat)
    requires t <= 4
    ensures NaiveOf(Torn(), t) == [89, 91, 91, 90, 0][t] && ExpandedOf(Torn(), t) == [89, 122, 122, 90, 0][t]
  {
    var st := Torn();
    var v := st.core.stacks[20];
    assert v.more[..0] == [];
    assert V10.Bytes() == [0] && Concat([]) == [];
    assert ChunkBytes(v.more) == 33 && ChunkBytes(V10.more) == 0 && ChunkBytes(V30.more) == 0;
  }
}
