/** The library as it runs: tealets are objects that are updated in place, on top of the stored stacks. Every method is
    proved to do to the objects what the function of the same name in TransferModel does to their values. */
module Engine {
  import opened Base
  import SM = StackModel
  import TM = TransferModel
  import opened StackProofs
  import opened StackStore
  import Safety
  import Operations
  import Calls
  import Spawning
  import Runs
  import Accounting

  /** tealet_sub_t. */
  class Tealet {
    var far: int
    var stack: Stack?
    var flags: TM.Flags
    /** The frame a suspended tealet left on its own stack. */
    var resume: TM.Resume<Tealet?>

    constructor ()
      ensures far == 0 && stack == null && flags == TM.NO_FLAGS && resume == TM.Unbound
    {
      far, stack, flags, resume := 0, null, TM.NO_FLAGS, TM.Unbound;
    }

    ghost function Record(): TM.TealetV<Stack?, Tealet?>
      reads this
    {
      TM.TealetV(far, SomeStack(stack), flags, resume)
    }
  }

  type View = TM.State<Stack?, Tealet?>

  function SomeTealet(t: Tealet?): Option<Tealet?> { if t == null then None else Some(t) }

  /** tealet_main_t: one domain of tealets on one C stack. */
  class Domain {
    const store: Store
    const main: Tealet
    const tsize: int
    var gCurrent: Tealet
    var gPrevious: Tealet?
    var gTarget: Tealet?
    var gSw: TM.Sw
    var gPanic: bool
    var gTealets: int
    /** The calls made to the lock callbacks in AUTO mode. */
    var locks: seq<bool>

    /** The live tealets: the circular list next_tealet, with its order left open. */
    var tealets: set<Tealet>

    /** tealet_initialize, once the block of main has been allocated. */
    constructor (mem: array<byte>, alloc: nat -> bool, mainSize: int, tsize: int)
      requires mem.Length < FURTHEST
      ensures store.Valid() && fresh(store) && fresh(tealets) && store.mem == mem
      ensures store.stacks == {} && store.chunks == {}
      ensures Runs.Initial(View()) && View().core.mem == mem[..]
      ensures Accounting.Ledger(View(), mainSize - tsize)
    {
      hide Store.Valid, Store.CoreView, Runs.Initial, Accounting.Ledger, TealetMap, View;
      var s := new Store(mem, alloc, mainSize);
      var m := new Tealet();
      store, main, this.tsize := s, m, tsize;
      gCurrent, gPrevious, gTarget := m, null, null;
      gSw, gPanic, gTealets, locks := TM.SwNop, false, 1, [];
      tealets := {m};
      new;
      main.far, main.flags := FURTHEST, main.flags.(mainLineage := true, bound := true);
      StartView(mem[..], alloc, mainSize);
    }

    lemma StartView(mem: seq<byte>, alloc: nat -> bool, mainSize: int)
      requires |mem| < FURTHEST && tealets == {main} && gCurrent == main && gPrevious == null && gTarget == null
      requires !gPanic && locks == [] && gTealets == 1
      requires main.far == FURTHEST && main.stack == null
      requires main.flags == TM.NO_FLAGS.(mainLineage := true, bound := true) && main.resume == TM.Unbound
      requires store.CoreView() == SM.Core(mem, map[], [], alloc, 1, SM.Stats(mainSize, 1, 0, 0, 0), [])
      ensures Runs.Initial(View()) && Accounting.Ledger(View(), mainSize - tsize) && View().core.mem == mem
    {
      assert TealetMap() == map[main := main.Record()];
      assert main.Record() == TM.TealetV(FURTHEST, None, TM.NO_FLAGS.(mainLineage := true, bound := true), TM.Unbound);
      var none: map<Stack?, SM.StackV> := map[];
      assert none.Keys == {};
    }

    /* ---- the values behind the objects ---- */

    ghost function TealetMap(): map<Tealet?, TM.TealetV<Stack?, Tealet?>>
      reads this`tealets, tealets
    {
      map t: Tealet? | t in tealets :: t.Record()
    }

    ghost function View(): View
      reads this, tealets, store, store.mem, store.stacks
    {
      TM.State(store.CoreView(), TealetMap(), main, gCurrent, SomeTealet(gPrevious), SomeTealet(gTarget), gSw, gPanic,
               locks, gTealets, tsize)
    }

    lemma TealetAt(t: Tealet)
      ensures t in tealets <==> t in View().tealets
      ensures t in tealets ==> View().tealets[t] == t.Record()
    {
    }

    twostate lemma SetAt(t: Tealet)
      requires t in tealets && tealets == old(tealets) && forall u :: u in tealets && u != t ==> unchanged(u)
      ensures TealetMap() == old(TealetMap())[t := t.Record()]
    {
      hide Tealet.Record;
    }

    /** What the stored stacks do shows in the view's core alone. */
    twostate lemma OnlyCore()
      requires unchanged(this) && forall u :: u in tealets ==> unchanged(u)
      ensures View() == old(View()).(core := store.CoreView())
    {
      hide Tealet.Record, Store.CoreView;
      assert TealetMap() == old(TealetMap());
    }

    /* ---- assignments to one tealet ---- */

    method SetFlags(t: Tealet, f: TM.Flags)
      requires t in tealets
      modifies t`flags
      ensures t.flags == f && t in old(View()).tealets
      ensures View() == TM.SetT(old(View()), t, old(View()).tealets[t].(flags := f))
    {
      hide TealetMap, Store.CoreView;
      TealetAt(t);
      t.flags := f;
      SetAt(t);
    }

    method SetStack(t: Tealet, s: Stack?)
      requires t in tealets
      modifies t`stack
      ensures t.stack == s && t in old(View()).tealets
      ensures View() == TM.SetT(old(View()), t, old(View()).tealets[t].(stack := SomeStack(s)))
    {
      hide TealetMap, Store.CoreView;
      TealetAt(t);
      t.stack := s;
      SetAt(t);
    }

    method SetResume(t: Tealet, r: TM.Resume<Tealet?>)
      requires t in tealets
      modifies t`resume
      ensures t.resume == r && t in old(View()).tealets
      ensures View() == TM.SetT(old(View()), t, old(View()).tealets[t].(resume := r))
    {
      hide TealetMap, Store.CoreView;
      TealetAt(t);
      t.resume := r;
      SetAt(t);
    }

    /** A tealet whose binding failed becomes NEW again. */
    method Reset(t: Tealet)
      requires t in tealets
      modifies t`far, t`stack, t`flags
      ensures t in old(View()).tealets && View() == TM.ResetT(old(View()), t)
    {
      hide TealetMap, Store.CoreView;
      TealetAt(t);
      t.stack := null;
      t.far := 0;
      t.flags := TM.NO_FLAGS;
      SetAt(t);
    }

    /* ---- tealet_free_tealet, tealet_alloc ---- */

    /** tealet_free_tealet, with the count that its callers keep. */
    method FreeTealet(t: Tealet)
      requires t in tealets
      modifies this`gTealets, this`gPrevious, this`tealets, store`stats
      ensures tealets == old(tealets) - {t}
      ensures View() == TM.FreeT(old(View()), t)
    {
      hide TealetMap, Store.CoreView;
      gTealets := gTealets - 1;
      if gPrevious == t {
        gPrevious := null;
      }
      store.FreeBlock(tsize);
      tealets := tealets - {t};
      FreedMap(t);
    }

    twostate lemma FreedMap(t: Tealet)
      requires t in old(tealets) && tealets == old(tealets) - {t} && forall u :: u in tealets ==> unchanged(u)
      ensures TealetMap() == old(TealetMap()) - {t}
    {
      hide Tealet.Record;
    }

    twostate lemma AddedMap(new t: Tealet)
      requires t !in old(tealets) && tealets == old(tealets) + {t} && forall u :: u in old(tealets) ==> unchanged(u)
      ensures TealetMap() == old(TealetMap())[t := t.Record()]
    {
      hide Tealet.Record;
    }

    /* ---- tealet_save_state ---- */

    /** The exiting branch: the current tealet is not saved. */
    method SaveExit()
      requires gCurrent in tealets && gCurrent != main
      modifies this`gTealets, this`gPrevious, this`tealets, store`stats, gCurrent
      ensures gCurrent in old(View()).tealets && View() == TM.ExitCurrent(old(View()))
      ensures tealets <= old(tealets)
    {
      hide View, TealetMap, Tealet.Record, Store.CoreView;
      FieldsOf(gCurrent);
      ghost var st := View();
      var f := gCurrent.flags;
      var autoDelete := f.autodelete;
      SetFlags(gCurrent, f.(exiting := false, autodelete := false, saveforce := false, exited := true));
      if autoDelete {
        FreeTealet(gCurrent);
        FreedAnyway(st, st.cur, View());
      } else {
        SetStack(gCurrent, null);
      }
    }

    /** What a tealet object says is what the view says. */
    lemma FieldsOf(t: Tealet)
      ensures t in tealets <==> t in View().tealets
      ensures t in tealets ==> var v := View().tealets[t];
                && v.far == t.far && v.stack == SomeStack(t.stack) && v.flags == t.flags && v.resume == t.resume
      ensures View().cur == gCurrent && View().main == main && View().core == store.CoreView()
      ensures View().prev == SomeTealet(gPrevious) && View().target == SomeTealet(gTarget)
      ensures View().panic == gPanic && View().sw == gSw && View().locks == locks
    {
    }

    lemma FreedAnyway(st: View, t: Tealet?, st2: View)
      requires t in st.tealets && exists v :: st2 == TM.FreeT(TM.SetT(st, t, v), t)
      ensures st2 == TM.FreeT(st, t)
    {
      var v :| st2 == TM.FreeT(TM.SetT(st, t, v), t);
      assert st.tealets[t := v] - {t} == st.tealets - {t};
    }

    /** The other branch: the initial chunk of the current stack is saved. */
    method SaveInitial(sp: int, stop: int, failOk: bool) returns (fail: bool, ghost id: Stack?)
      requires store.Valid() && gCurrent in tealets
      requires 0 <= sp <= store.mem.Length && Min(gCurrent.far, stop) <= store.mem.Length < FURTHEST
      requires !failOk ==> gCurrent != main
      modifies store, store.stacks`next, store.stacks`prev, gCurrent`stack, gCurrent`flags
      ensures store.Valid() && fresh(store.stacks - old(store.stacks)) && fresh(store.chunks - old(store.chunks))
      ensures id != null ==> fresh(id)
      ensures gCurrent in old(View()).tealets
      ensures var m := TM.SaveCurrent(old(View()), sp, stop, failOk, id); fail == m.fail && View() == m.st
    {
      hide TealetMap, View, Tealet.Record, Store.CoreView, Store.Valid, SM.SaveTo, SM.Link;
      FieldsOf(gCurrent);
      var s, full := store.StackSaveTo(sp, gCurrent.far, stop);
      OnlyCore();
      FieldsOf(gCurrent);
      id := s;
      if s == null {
        if failOk {
          return true, s;
        }
        assert gCurrent != main;
        SetFlags(gCurrent, gCurrent.flags.(defunct := true));
      } else {
        assert gCurrent.far == FURTHEST ==> !full;
        KeepSaved(s, full);
      }
      fail := false;
    }

    /** The current tealet holds its saved stack, which is listed when it is half saved. */
    method KeepSaved(s: Stack, full: bool)
      requires store.Valid() && gCurrent in tealets && s in store.stacks && s.prev == NoSlot
      modifies store`gPrev, store`plist, store.stacks`next, store.stacks`prev, gCurrent`stack
      ensures store.Valid() && gCurrent in old(View()).tealets
      ensures var st := old(View());
              View() == TM.SetT(st, st.cur, st.tealets[st.cur].(stack := Some(s))).(
                          core := if full then st.core else SM.Link(st.core, s))
    {
      hide TealetMap, View, Tealet.Record, Store.CoreView, Store.Valid, SM.Link;
      FieldsOf(gCurrent);
      SetStack(gCurrent, s);
      FieldsOf(gCurrent);
      if !full {
        label Held:
        store.StackLink(s);
        OnlyCore@Held();
      }
    }

    /** What a transfer to `gTarget` may rely on: `x` is the tealet that is just being bound, if any. */
    ghost predicate Transferring(x: Option<Tealet?>, sp: int)
      reads this, tealets, store, store.mem, store.stacks
    {
      && gTarget != null && Operations.Transferable(View(), x, gTarget)
      && 0 <= sp < gCurrent.far && sp <= store.mem.Length
    }

    lemma TransferFacts(x: Option<Tealet?>, sp: int)
      requires Transferring(x, sp)
      ensures var st := View();
              && gTarget != null && st.target == Some(gTarget) && st.cur in st.tealets
              && Operations.Transferable(st, x, gTarget)
              && 0 <= sp < st.tealets[st.cur].far && sp <= |st.core.mem|
              && (forall s :: s in st.core.stacks ==> s != null && s in store.stacks)
    {
      hide TealetMap, Operations.Transferable;
      TransferableKnown(View(), x, gTarget);
      FieldsOf(gCurrent);
    }

    lemma TransferableKnown(st: View, x: Option<Tealet?>, t: Tealet?)
      requires Operations.Transferable(st, x, t)
      ensures TM.Known(st) && st.cur in st.tealets && t in st.tealets && t != st.cur
    {
      hide Safety.CoreOk, Safety.Owned, Safety.RestOk, Safety.MainOk, StacksOk, Staircase, Above;
    }

    /** After a growth step for an unbounded target nothing is listed. */
    lemma GrownAlone(st: View, x: Option<Tealet?>, t: Tealet)
      requires Safety.Solid(st, x) && Safety.CanReach(st, x, t)
      ensures t in st.tealets && (st.tealets[t].far == FURTHEST && !TM.GrowFor(st, t).fail ==> TM.GrowFor(st, t).core.plist == [])
    {
      hide StackOk, Safety.RestOk, Safety.MainOk, Safety.Owned, Staircase, Above, ListExact, SM.GrowList, Followed;
      Safety.GrowStep(st, x, t);
      if st.tealets[t].far == FURTHEST && !TM.GrowFor(st, t).fail {
        NothingUnbounded(TM.GrowFor(st, t).core);
      }
    }

    /** What the assertions of tealet_save_state rely on. */
    ghost predicate Bounded(st: View, t: Tealet?) {
      && TM.Known(st) && t in st.tealets && t != st.cur && !st.tealets[t].flags.exited
      && (st.tealets[st.cur].flags.exiting ==> st.cur != st.main)
      && GrowPre(st.core, st.core.plist, st.tealets[t].far, st.tealets[t].stack)
      && Min(st.tealets[st.cur].far, st.tealets[t].far) <= |st.core.mem| < FURTHEST
      && (st.tealets[t].far == FURTHEST && !TM.GrowFor(st, t).fail ==> TM.GrowFor(st, t).core.plist == [])
      && (st.tealets[st.cur].far == FURTHEST ==> !st.tealets[st.cur].flags.exiting && st.core.plist == [])
    }

    lemma SolidBounded(st: View, x: Option<Tealet?>, t: Tealet)
      requires Safety.Solid(st, x) && Safety.CanReach(st, x, t) && Safety.Signals(st)
      ensures Bounded(st, t)
    {
      hide GrowPre, StackOk, Safety.RestOk, Safety.MainOk, Safety.Owned, Staircase, Above, ListExact, StacksOk, TM.GrowFor;
      Safety.TransferPre(st, x, t);
      CurBounds(st, x, t);
      GrownAlone(st, x, t);
      if st.tealets[st.cur].far == FURTHEST {
        NothingUnbounded(st.core);
      }
    }

    lemma StandingBounded(st: View, t: Tealet)
      requires Operations.Standing(st, t)
      ensures Bounded(st, t)
    {
      hide GrowPre, StackOk, Staircase, Above, TM.GrowFor;
      Operations.StandingPre(st, t);
    }

    lemma SaveBounds(x: Option<Tealet?>, sp: int)
      requires store.Valid() && Transferring(x, sp)
      ensures gCurrent in tealets && gTarget in tealets && main in tealets && TM.Known(View())
      ensures !gTarget.flags.exited && gCurrent != gTarget
      ensures GrowPre(store.CoreView(), store.plist, gTarget.far, SomeStack(gTarget.stack))
      ensures Min(gCurrent.far, gTarget.far) <= store.mem.Length < FURTHEST
      ensures 0 <= sp <= store.mem.Length && (gCurrent.flags.exiting ==> gCurrent != main)
      ensures gTarget in View().tealets
      ensures gTarget.far == FURTHEST && !TM.GrowFor(View(), gTarget).fail ==> TM.GrowFor(View(), gTarget).core.plist == []
      ensures gCurrent.far == FURTHEST ==> !gCurrent.flags.exiting && store.gPrev == null
    {
      hide GrowPre, Safety.Solid, Safety.CanReach, Safety.Signals, Operations.Standing, TealetMap, Store.Valid, Store.CoreView,
        TM.GrowFor, View;
      if Operations.Standing(View(), gTarget) {
        StandingBounded(View(), gTarget);
      } else {
        SolidBounded(View(), x, gTarget);
      }
      FieldsOf(gCurrent);
      FieldsOf(gTarget);
      FieldsOf(main);
      store.ListHead();
      store.PlistOf();
    }

    lemma CurBounds(st: View, x: Option<Tealet?>, t: Tealet)
      requires Safety.Solid(st, x) && Safety.CanReach(st, x, t)
      ensures t in st.tealets && st.cur in st.tealets
      ensures Min(st.tealets[st.cur].far, st.tealets[t].far) <= |st.core.mem| < FURTHEST
      ensures !st.tealets[t].flags.exited
      ensures st.tealets[st.cur].far == FURTHEST ==> st.cur == st.main
    {
      hide StackOk, Safety.MainOk, Safety.Owned, Staircase, Above, ListExact;
      assert Safety.FarOk(st, st.cur);
      if x.None? {
        assert Safety.RestOk(st, t);
      }
    }

    /** The growth step of a transfer, with the SAVEFORCE signal consumed. */
    method GrowStep(failOk: bool) returns (fail: bool)
      requires store.Valid() && gTarget != null && TM.Known(View()) && gTarget in tealets
      requires GrowPre(store.CoreView(), store.plist, gTarget.far, SomeStack(gTarget.stack))
      requires failOk == TM.FailOk(View())
      requires gTarget.far == FURTHEST && !TM.GrowFor(View(), gTarget).fail ==> TM.GrowFor(View(), gTarget).core.plist == []
      modifies store, store.stacks, store.chunks, gCurrent`flags
      ensures store.Valid() && fresh(store.chunks - old(store.chunks)) && store.stacks == old(store.stacks)
      ensures gCurrent.flags == old(gCurrent.flags).(saveforce := false)
      ensures var st := old(View()); var g := TM.GrowFor(st, gTarget); var v := st.tealets[st.cur];
              && fail == g.fail
              && View() == TM.SetT(st, st.cur, v.(flags := v.flags.(saveforce := false))).(core := g.core)
    {
      hide GrowPre, TealetMap, View, Tealet.Record, Store.CoreView, Store.Valid, SM.GrowList, TM.FailOk, TM.GrowFor, TM.Known;
      KnownNames(View());
      FieldsOf(gCurrent);
      FieldsOf(gTarget);
      FieldsOf(main);
      GrowForIs(View(), gTarget);
      SetFlags(gCurrent, gCurrent.flags.(saveforce := false));
      FieldsOf(gCurrent);
      fail := GrowTheList(failOk);
      assert !fail && gTarget.far == FURTHEST ==> store.gPrev == null;
    }

    lemma KnownNames(st: View)
      requires TM.Known(st)
      ensures st.main in st.tealets && st.cur in st.tealets
    {
    }

    lemma GrowForIs(st: View, t: Tealet?)
      requires TM.Known(st) && t in st.tealets
      ensures forall s :: s in st.core.plist ==> s in st.core.stacks
      ensures TM.GrowFor(st, t)
              == SM.GrowList(st.core, st.core.plist, st.tealets[t].far, st.tealets[t].stack, TM.FailOk(st),
                             st.tealets[st.main].stack)
    {
    }

    method GrowTheList(failOk: bool) returns (fail: bool)
      requires store.Valid() && gTarget != null
      requires GrowPre(store.CoreView(), store.plist, gTarget.far, SomeStack(gTarget.stack))
      modifies store, store.stacks, store.chunks
      ensures store.Valid() && fresh(store.chunks - old(store.chunks)) && store.stacks == old(store.stacks)
      ensures forall s :: s in old(View()).core.plist ==> s in old(View()).core.stacks
      ensures var st := old(View());
              var g := SM.GrowList(st.core, st.core.plist, gTarget.far, SomeStack(gTarget.stack), failOk, SomeStack(main.stack));
              fail == g.fail && View() == st.(core := g.core) && (g.core.plist == [] ==> store.gPrev == null)
    {
      hide GrowPre, TealetMap, View, Store.CoreView, Store.Valid, SM.GrowList;
      FieldsOf(main);
      store.PlistOf();
      fail := store.StackGrowList(gTarget.far, gTarget.stack, failOk, main.stack);
      OnlyCore();
      store.PlistOf();
      store.ListHead();
    }

    /** The second half of tealet_save_state, after the growth step. */
    method SaveOwn(sp: int, stop: int, failOk: bool) returns (fail: bool, ghost id: Stack?)
      requires store.Valid() && gCurrent in tealets
      requires 0 <= sp <= store.mem.Length && Min(gCurrent.far, stop) <= store.mem.Length < FURTHEST
      requires !failOk || gCurrent.flags.exiting ==> gCurrent != main
      modifies this`gTealets, this`gPrevious, this`tealets, store, store.stacks`next, store.stacks`prev, gCurrent
      ensures store.Valid() && fresh(store.stacks - old(store.stacks)) && fresh(store.chunks - old(store.chunks))
      ensures tealets <= old(tealets) && (id != null ==> fresh(id))
      ensures gCurrent in old(View()).tealets
      ensures var st := old(View());
              var m := if st.tealets[st.cur].flags.exiting then TM.Moved(TM.ExitCurrent(st), false)
                       else TM.SaveCurrent(st, sp, stop, failOk, id);
              fail == m.fail && View() == m.st
    {
      hide TealetMap, View, Tealet.Record, Store.CoreView, Store.Valid, TM.ExitCurrent, TM.SaveCurrent;
      FieldsOf(gCurrent);
      if gCurrent.flags.exiting {
        SaveExit();
        fail, id := false, null;
      } else {
        fail, id := SaveInitial(sp, stop, failOk);
      }
    }

    /** What the growth step and the second half come to. */
    lemma SaveStateIs(st: View, t: Tealet?, sp: int, id: Stack?, st1: View)
      requires TM.Known(st) && t in st.tealets
      requires var v := st.tealets[st.cur];
               st1 == TM.SetT(st, st.cur, v.(flags := v.flags.(saveforce := false))).(core := TM.GrowFor(st, t).core)
      ensures st1.cur == st.cur && st.cur in st1.tealets
      ensures TM.SaveState(st, t, sp, id)
              == (if TM.GrowFor(st, t).fail then TM.Moved(st1, true)
                  else if st1.tealets[st.cur].flags.exiting then TM.Moved(TM.ExitCurrent(st1), false)
                  else TM.SaveCurrent(st1, sp, st.tealets[t].far, TM.FailOk(st), id))
    {
      hide TM.GrowFor, TM.ExitCurrent, TM.SaveCurrent, TM.FailOk;
    }

    lemma FailOkIs()
      requires gCurrent in tealets
      ensures View().cur in View().tealets
      ensures TM.FailOk(View()) == (!gCurrent.flags.saveforce || gCurrent == main)
    {
      hide TealetMap, Store.CoreView;
      FieldsOf(gCurrent);
    }

    /** The first half of tealet_save_state: what the transfer asks of its two tealets, and the growth step. */
    method SaveOthers(sp: int, ghost x: Option<Tealet?>) returns (fail: bool, failOk: bool)
      requires store.Valid() && Transferring(x, sp)
      modifies store, store.stacks, store.chunks, gCurrent`flags
      ensures store.Valid() && fresh(store.chunks - old(store.chunks)) && store.stacks == old(store.stacks)
      ensures gCurrent in tealets && gTarget != null && (!failOk || gCurrent.flags.exiting ==> gCurrent != main)
      ensures 0 <= sp <= store.mem.Length && Min(gCurrent.far, gTarget.far) <= store.mem.Length < FURTHEST
      ensures TM.Known(old(View())) && gTarget in old(View()).tealets
      ensures var st := old(View()); var v, g := st.tealets[st.cur], TM.GrowFor(st, gTarget);
              && failOk == TM.FailOk(st) && fail == g.fail && gTarget.far == st.tealets[gTarget].far
              && View() == TM.SetT(st, st.cur, v.(flags := v.flags.(saveforce := false))).(core := g.core)
    {
      hide *;
      SaveBounds(x, sp);
      FieldsOf(gCurrent);
      FieldsOf(gTarget);
      FailOkIs();
      failOk := !gCurrent.flags.saveforce || gCurrent == main;
      assert !gTarget.flags.exited && gCurrent != gTarget;
      assert gCurrent.far == FURTHEST ==> !gCurrent.flags.exiting && store.gPrev == null;
      fail := GrowStep(failOk);
    }

    /** tealet_save_state. */
    method SaveState(sp: int, ghost x: Option<Tealet?>) returns (fail: bool, ghost id: Stack?)
      requires store.Valid() && Transferring(x, sp)
      modifies this`gTealets, this`gPrevious, this`tealets, store, store.stacks, store.chunks, gCurrent
      ensures store.Valid() && fresh(store.stacks - old(store.stacks)) && fresh(store.chunks - old(store.chunks))
      ensures tealets <= old(tealets) && (id != null ==> fresh(id))
      ensures TM.Known(old(View())) && gTarget in old(View()).tealets
      ensures var m := TM.SaveState(old(View()), gTarget, sp, id); fail == m.fail && View() == m.st
    {
      hide *;
      id := null;
      ghost var st := View();
      var failOk;
      fail, failOk := SaveOthers(sp, x);
      ghost var st1 := View();
      SaveStateIs(st, gTarget, sp, null, st1);
      if !fail {
        fail, id := SaveOwn(sp, gTarget.far, failOk);
        SaveStateIs(st, gTarget, sp, id, st1);
      }
    }

    /* ---- tealet_restore_state and the two callbacks ---- */

    method SetSw(sw: TM.Sw)
      modifies this`gSw
      ensures gSw == sw && View() == old(View()).(sw := sw)
    {
      hide TealetMap, Store.CoreView;
      gSw := sw;
    }

    /** tealet_restore_state. */
    method RestoreState()
      requires store.Valid() && gTarget != null && gTarget in tealets && gTarget.stack != null
      requires gTarget.stack in store.stacks && StackOk(gTarget.stack.Record(), store.mem.Length)
      modifies store`gPrev, store`plist, store`stats, store`stacks, store.mem, gTarget`stack
      modifies store.stacks`next, store.stacks`prev, store.stacks`refcount, store.chunks`refcount
      ensures store.Valid() && store.stacks <= old(store.stacks) && store.chunks == old(store.chunks)
      ensures var st := old(View());
              && gTarget in st.tealets && st.tealets[gTarget].stack.Some?
              && st.tealets[gTarget].stack.value in st.core.stacks && View() == TM.RestoreState(st, gTarget)
    {
      hide TealetMap, View, Tealet.Record, Store.CoreView, Store.Valid, StackOk, SM.Restore, SM.Decref;
      FieldsOf(gTarget);
      var s := gTarget.stack;
      store.ChunksInside(s);
      store.CoreAt(s);
      store.StackRestore(s);
      store.StackDecref(s);
      OnlyCore();
      FieldsOf(gTarget);
      SetStack(gTarget, null);
    }

    /** What saving leaves for the restore: the target, with a well-formed record if it has one. */
    ghost predicate Landed(st: View, t: Tealet?) {
      && t in st.tealets
      && (st.tealets[t].stack.Some? ==> st.tealets[t].stack.value in st.core.stacks
                                        && StackOk(st.core.stacks[st.tealets[t].stack.value], |st.core.mem|))
    }

    lemma ReadyToRestore(t: Tealet)
      requires Landed(View(), t)
      ensures t in tealets
      ensures t.stack != null ==> t.stack in store.stacks && StackOk(t.stack.Record(), store.mem.Length)
    {
      hide StackOk, TealetMap, Store.CoreView;
      FieldsOf(t);
      store.PlistOf();
      if t.stack != null {
        store.CoreAt(t.stack);
      }
    }

    /** tealet_save_restore_cb, called before the stack pointer changes: it answers with the new stack pointer. */
    method SaveCallback(sp: int, ghost x: Option<Tealet?>) returns (newSp: int, ghost id: Stack?)
      requires store.Valid() && Transferring(x, sp)
      modifies this`gTealets, this`gPrevious, this`tealets, this`gSw, store, store.stacks, store.chunks, gCurrent
      ensures store.Valid() && fresh(store.stacks - old(store.stacks)) && fresh(store.chunks - old(store.chunks))
      ensures tealets <= old(tealets) && (id != null ==> fresh(id))
      ensures TM.Known(old(View())) && gTarget in old(View()).tealets
      ensures gSw == TM.SwErr || gTarget in tealets
      ensures var m := TM.SaveState(old(View()), gTarget, sp, id);
              && (gSw == TM.SwErr <==> m.fail) && View() == m.st.(sw := gSw)
              && (gSw != TM.SwErr ==> Landed(View(), gTarget))
              && (gSw == TM.SwRestore <==> !m.fail && gTarget.stack != null)
              && (gSw == TM.SwRestore ==> gTarget.stack.chunk.near == newSp)
    {
      hide Transferring, TealetMap, View, Tealet.Record, Store.CoreView, Store.Valid, TM.SaveState, TM.Known, StackOk,
        Operations.Transferable;
      TransferFacts(x, sp);
      ghost var st := View();
      var result;
      result, id := SaveState(sp, x);
      newSp := sp;
      SavedSafe(st, x, gTarget, sp, id);
      FieldsOf(gTarget);
      if result {
        SetSw(TM.SwErr);
      } else {
        if gTarget.stack == null {
          SetSw(TM.SwNop);
        } else {
          SetSw(TM.SwRestore);
          newSp := gTarget.stack.chunk.near;
        }
      }
    }

    lemma SavedSafe(st: View, x: Option<Tealet?>, t: Tealet, sp: int, id: Stack?)
      requires Operations.Transferable(st, x, t) && st.cur in st.tealets
      requires 0 <= sp < st.tealets[st.cur].far && sp <= |st.core.mem| && id !in st.core.stacks
      ensures TM.Known(st) && t in st.tealets
      ensures !TM.SaveState(st, t, sp, id).fail ==> Landed(TM.SaveState(st, t, sp, id).st, t)
    {
      hide Safety.Solid, Safety.CanReach, Safety.Signals, TM.SaveState, Safety.Handed, Operations.Standing, StackOk;
      TransferableKnown(st, x, t) by { hide *; }
      var m := TM.SaveState(st, t, sp, id);
      if Operations.Standing(st, t) {
        StandingLands(st, t, sp, id);
      } else {
        Safety.SaveStateSafe(st, x, t, TM.Env(sp, true, true), id);
        if !m.fail {
          HandedLands(m.st, t);
        }
      }
    }

    lemma HandedLands(st: View, t: Tealet)
      requires Safety.Handed(st, t)
      ensures Landed(st, t)
    {
      hide StackOk, Safety.RestOk, Safety.MainOk, Safety.Owned, Staircase, Above, ListExact;
    }

    lemma StandingLands(st: View, t: Tealet, sp: int, id: Stack?)
      requires Operations.Standing(st, t)
      ensures Landed(TM.SaveState(st, t, sp, id).st, t)
    {
      hide StacksOk, Staircase, Above, TM.SaveState, StackOk;
      Safety.SaveStateFrame(st, t, sp, id);
    }

    /** tealet_save_restore_cb, called after the stack pointer has changed to `sp`. */
    method RestoreCallback(sp: int)
      requires store.Valid() && gTarget != null
      requires gSw == TM.SwRestore ==> Landed(View(), gTarget) && gTarget.stack != null
                                       && gTarget.stack.chunk.near == sp
      modifies store`gPrev, store`plist, store`stats, store`stacks, store.mem, gTarget`stack
      modifies store.stacks`next, store.stacks`prev, store.stacks`refcount, store.chunks`refcount
      ensures store.Valid() && store.stacks <= old(store.stacks) && store.chunks == old(store.chunks)
      ensures gSw != TM.SwRestore ==> View() == old(View())
      ensures gSw == TM.SwRestore ==>
                var st := old(View());
                && gTarget in st.tealets && st.tealets[gTarget].stack.Some?
                && st.tealets[gTarget].stack.value in st.core.stacks && View() == TM.RestoreState(st, gTarget)
    {
      hide View, Landed, Store.Valid, StackOk;
      if gSw == TM.SwRestore {
        ReadyToRestore(gTarget);
        assert sp == gTarget.stack.chunk.near;
        RestoreState();
      }
    }

    /** What the two callbacks do to the view. */
    lemma StackmanIs(st: View, t: Tealet, sp: int, id: Stack?, sw: TM.Sw,
                     st2: View)
      requires TM.Known(st) && t in st.tealets
      requires var m := TM.SaveState(st, t, sp, id); var s1 := m.st.(sw := sw);
               && (sw == TM.SwErr <==> m.fail)
               && (sw != TM.SwErr ==> Landed(s1, t) && (sw == TM.SwRestore <==> s1.tealets[t].stack.Some?))
               && (sw != TM.SwRestore ==> st2 == s1)
               && (sw == TM.SwRestore ==> s1.tealets[t].stack.value in s1.core.stacks && st2 == TM.RestoreState(s1, t))
      ensures TM.StackmanSwitch(st, t, sp, id) == TM.Moved(st2, sw == TM.SwErr)
    {
      hide TM.SaveState, SM.Decref, SM.Restore, StackOk;
    }

    /** stackman_switch: save, change the stack pointer, restore. */
    method StackmanSwitch(sp: int, ghost x: Option<Tealet?>) returns (ghost id: Stack?)
      requires store.Valid() && Transferring(x, sp)
      modifies this`gTealets, this`gPrevious, this`tealets, this`gSw, store, store.stacks, store.chunks, store.mem
      modifies gCurrent, gTarget`stack
      ensures store.Valid() && fresh(store.stacks - old(store.stacks)) && fresh(store.chunks - old(store.chunks))
      ensures tealets <= old(tealets) && (id != null ==> fresh(id))
      ensures TM.Known(old(View())) && gTarget in old(View()).tealets
      ensures TM.StackmanSwitch(old(View()), gTarget, sp, id) == TM.Moved(View(), gSw == TM.SwErr)
    {
      hide Transferring, TealetMap, View, Tealet.Record, Store.CoreView, Store.Valid, TM.SaveState, TM.RestoreState,
        Landed, TM.Known, TM.StackmanSwitch;
      TransferTarget(x, sp);
      ghost var st := View();
      var newSp;
      newSp, id := SaveCallback(sp, x);
      FieldsOf(gTarget);
      RestoreCallback(newSp);
      StackmanIs(st, gTarget, sp, id, gSw, View());
    }

    lemma TransferTarget(x: Option<Tealet?>, sp: int)
      requires Transferring(x, sp)
      ensures gTarget != null
    {
    }

    /* ---- tealet_switchstack ---- */

    /** tealet_is_defunct. */
    method IsDefunct(t: Tealet) returns (r: bool)
      requires t in tealets && (t.stack != null ==> t.stack in store.stacks) && TM.Known(View())
      modifies t`flags
      ensures TM.Known(old(View())) && t in old(View()).tealets && r == TM.IsDefunct(old(View()), t)
      ensures View() == if r then TM.MarkDefunct(old(View()), t) else old(View())
      ensures !r ==> t.flags == old(t.flags)
    {
      hide View, TealetMap, Tealet.Record, TM.Known, TM.IsDefunct;
      FieldsOf(t);
      DefunctOf(t);
      if t.flags.defunct {
        MarkTwice(View(), t);
        return true;
      }
      if t.stack != null && t.stack.defunct {
        SetFlags(t, t.flags.(defunct := true));
        return true;
      }
      return false;
    }

    lemma MarkTwice(st: View, t: Tealet?)
      requires t in st.tealets && st.tealets[t].flags.defunct
      ensures TM.MarkDefunct(st, t) == st
    {
      var v := st.tealets[t];
      assert v.(flags := v.flags.(defunct := true)) == v && st.tealets[t := v] == st.tealets;
    }

    lemma DefunctOf(t: Tealet)
      requires t in tealets && (t.stack != null ==> t.stack in store.stacks) && TM.Known(View())
      ensures t in View().tealets
      ensures TM.IsDefunct(View(), t) == (t.flags.defunct || (t.stack != null && t.stack.defunct))
    {
      hide TealetMap, Store.CoreView, TM.Known;
      FieldsOf(t);
      if t.stack != null {
        store.CoreAt(t.stack);
        store.FirstOf(t.stack);
      }
    }

    /** The fields of tealet_main_t that a transfer sets. */
    method SetTransfer(current: Tealet, previous: Tealet?, target: Tealet?, panic: bool)
      modifies this`gCurrent, this`gPrevious, this`gTarget, this`gPanic
      ensures gCurrent == current && gPrevious == previous && gTarget == target && gPanic == panic
      ensures View() == old(View()).(cur := current, prev := SomeTealet(previous), target := SomeTealet(target),
                                     panic := panic)
    {
      hide TealetMap, Store.CoreView;
      gCurrent, gPrevious, gTarget, gPanic := current, previous, target, panic;
    }

    /** What a transfer to `t` with stack pointer `sp` needs. */
    ghost predicate CanSwitch(x: Option<Tealet?>, t: Tealet, sp: int)
      reads this, tealets, store, store.mem, store.stacks
    {
      && t in tealets
      && (|| (Safety.Solid(View(), x) && Safety.Signals(View()) && (x == Some(t) || x.None?) && t.flags.bound)
          || Operations.Standing(View(), t))
      && t != gCurrent && 0 <= sp < gCurrent.far && sp <= store.mem.Length
    }

    lemma SwitchFacts(x: Option<Tealet?>, t: Tealet, sp: int)
      requires CanSwitch(x, t, sp)
      ensures TM.Known(View()) && t in tealets && t != gCurrent && gCurrent in tealets
      ensures t.stack != null ==> t.stack in store.stacks
      ensures t.flags.exited || TM.IsDefunct(View(), t) || Operations.Transferable(View(), x, t)
      ensures 0 <= sp < gCurrent.far && sp <= store.mem.Length
    {
      hide Safety.Solid, Safety.Signals, Safety.CanReach, StacksOk, Staircase, Above, TealetMap, Store.CoreView;
      if Safety.Solid(View(), x) {
        Safety.SolidBasics(View(), x);
      }
      FieldsOf(t);
      FieldsOf(gCurrent);
      if t.stack != null {
        store.CoreAt(t.stack);
      }
      if !Operations.Standing(View(), t) && !t.flags.exited && !TM.IsDefunct(View(), t) {
        Safety.CanReachIntro(View(), x, t);
      }
    }

    lemma Begun(st: View, x: Option<Tealet?>, t: Tealet, sp: int)
      requires Operations.Transferable(st, x, t)
      requires View() == st.(prev := Some(st.cur), target := Some(t)) && gTarget == t && gCurrent == st.cur
      requires 0 <= sp < gCurrent.far && sp <= store.mem.Length
      ensures Transferring(x, sp)
    {
      hide Safety.Solid, Operations.Standing, View;
      if Operations.Standing(st, t) {
        Operations.StandingCong(st, View(), t);
      } else {
        Safety.SolidBasics(st, x);
        Safety.SolidCong(st, View(), x);
        assert TM.IsDefunct(View(), t) == TM.IsDefunct(st, t);
      }
    }

    /** The first part of tealet_switchstack: the reasons to refuse a transfer. */
    method Refuse(target: Tealet, env: TM.Env) returns (code: TM.Code)
      requires target in tealets && (target.stack != null ==> target.stack in store.stacks) && TM.Known(View())
      modifies this`gCurrent, this`gPrevious, this`gTarget, this`gPanic, target`flags
      ensures TM.Known(old(View())) && target in old(View()).tealets
      ensures code == TM.Ok || code.Failed()
      ensures var st := old(View());
              code == (if st.tealets[target].flags.exited then TM.ErrInval
                       else if TM.IsDefunct(st, target) then TM.ErrDefunct
                       else if !env.callerOk then TM.ErrInval
                       else if !env.integrityOk then TM.ErrIntegrity else TM.Ok)
      ensures code == TM.Ok ==> View() == old(View())
      ensures code.Failed() ==>
                View() == (if code == TM.ErrDefunct then TM.MarkDefunct(old(View()), target) else old(View())).(panic := false)
      ensures gCurrent == old(gCurrent) && gPrevious == old(gPrevious) && gTarget == old(gTarget)
      ensures code == TM.Ok ==> target.flags == old(target.flags)
    {
      hide View, TealetMap, Tealet.Record, Store.CoreView, TM.Known, TM.IsDefunct, TM.MarkDefunct;
      FieldsOf(target);
      FieldsOf(gCurrent);
      code := TM.Ok;
      if target.flags.exited {
        code := TM.ErrInval;
      } else {
        var defunct := IsDefunct(target);
        if defunct {
          code := TM.ErrDefunct;
        } else if !env.callerOk {
          code := TM.ErrInval;
        } else if !env.integrityOk {
          code := TM.ErrIntegrity;
        }
      }
      if code != TM.Ok {
        FieldsOf(gCurrent);
        SetTransfer(gCurrent, gPrevious, gTarget, false);
      }
    }

    /** The last part of tealet_switchstack, in whichever tealet goes on. */
    method Arrive(previous: Tealet?) returns (code: TM.Code, moved: bool)
      requires gTarget != null
      modifies this`gCurrent, this`gPrevious, this`gTarget, this`gPanic
      ensures var st := old(View());
              if gSw == TM.SwErr then
                code == TM.ErrMem && !moved
                && View() == st.(prev := SomeTealet(previous), target := None, panic := false)
              else
                && code == (if st.panic then TM.ErrPanic else if gSw == TM.SwRestore then TM.Ok else TM.Saved) && moved
                && View() == st.(cur := old(gTarget), target := None, panic := false)
    {
      hide View;
      FieldsOf(gCurrent);
      if gSw == TM.SwErr {
        SetTransfer(gCurrent, previous, null, false);
        return TM.ErrMem, false;
      }
      var panic := gPanic;
      SetTransfer(gTarget, gPrevious, null, false);
      code := if panic then TM.ErrPanic else if gSw == TM.SwRestore then TM.Ok else TM.Saved;
      moved := true;
    }

    lemma SwitchedIs(st: View, t: Tealet?, env: TM.Env, id: Stack?, st1: View)
      requires TM.Known(st) && t in st.tealets && env.callerOk && env.integrityOk
      requires !st.tealets[t].flags.exited && !TM.IsDefunct(st, t)
      requires st1 == st.(prev := Some(st.cur), target := Some(t)) && TM.Known(st1)
      ensures var m := TM.StackmanSwitch(st1, t, env.sp, id);
              TM.SwitchStack(st, t, env, id)
              == (if m.fail then
                    TM.Xfer(m.st.(prev := st.prev, target := None, panic := false), TM.ErrMem, false)
                  else
                    TM.Xfer(m.st.(cur := t, target := None, panic := false),
                            if m.st.panic then TM.ErrPanic else if m.st.sw == TM.SwRestore then TM.Ok else TM.Saved, true))
    {
      hide TM.StackmanSwitch, TM.IsDefunct;
    }

    lemma RefusedIs(st: View, t: Tealet?, env: TM.Env, id: Stack?)
      requires TM.Known(st) && t in st.tealets
      requires st.tealets[t].flags.exited || TM.IsDefunct(st, t) || !env.callerOk || !env.integrityOk
      ensures var code := if st.tealets[t].flags.exited then TM.ErrInval
                          else if TM.IsDefunct(st, t) then TM.ErrDefunct
                          else if !env.callerOk then TM.ErrInval else TM.ErrIntegrity;
              TM.SwitchStack(st, t, env, id)
              == TM.Xfer((if code == TM.ErrDefunct then TM.MarkDefunct(st, t) else st).(panic := false), code, false)
    {
      hide TM.StackmanSwitch, TM.IsDefunct;
    }

    method Depart(target: Tealet, sp: int, ghost x: Option<Tealet?>)
      requires Operations.Transferable(View(), x, target) && 0 <= sp < gCurrent.far && sp <= store.mem.Length
      modifies this`gCurrent, this`gPrevious, this`gTarget, this`gPanic
      ensures Transferring(x, sp) && gTarget == target && gCurrent == old(gCurrent)
      ensures View() == old(View()).(prev := Some(old(View()).cur), target := Some(target))
    {
      hide Transferring, View, Operations.Transferable;
      FieldsOf(gCurrent);
      ghost var st := View();
      SetTransfer(gCurrent, gCurrent, target, gPanic);
      Begun(st, x, target, sp);
    }

    /** The transfer itself, once nothing speaks against it. */
    method Perform(target: Tealet, env: TM.Env, ghost x: Option<Tealet?>)
      returns (code: TM.Code, moved: bool, ghost id: Stack?)
      requires store.Valid() && Operations.Transferable(View(), x, target) && TM.Known(View()) && target in View().tealets
      requires 0 <= env.sp < gCurrent.far && env.sp <= store.mem.Length && env.callerOk && env.integrityOk
      requires !View().tealets[target].flags.exited && !TM.IsDefunct(View(), target)
      modifies this, store, store.stacks, store.chunks, store.mem, gCurrent, target
      ensures store.Valid() && fresh(store.stacks - old(store.stacks)) && fresh(store.chunks - old(store.chunks))
      ensures tealets <= old(tealets) && (id != null ==> fresh(id))
      ensures TM.Known(old(View())) && target in old(View()).tealets
      ensures TM.SwitchStack(old(View()), target, env, id) == TM.Xfer(View(), code, moved)
    {
      hide *;
      var previous := gPrevious;
      FieldsOf(gCurrent);
      ghost var st := View();
      Depart(target, env.sp, x);
      ghost var st1 := View();
      id := StackmanSwitch(env.sp, x);
      FieldsOf(gCurrent);
      SwitchedIs(st, target, env, id, st1);
      code, moved := Arrive(previous);
    }

    /** tealet_switchstack. */
    method SwitchStack(target: Tealet, env: TM.Env, ghost x: Option<Tealet?>)
      returns (code: TM.Code, moved: bool, ghost id: Stack?)
      requires store.Valid() && CanSwitch(x, target, env.sp)
      modifies this, store, store.stacks, store.chunks, store.mem, gCurrent, target
      ensures store.Valid() && fresh(store.stacks - old(store.stacks)) && fresh(store.chunks - old(store.chunks))
      ensures tealets <= old(tealets) && (id != null ==> fresh(id))
      ensures TM.Known(old(View())) && target in old(View()).tealets
      ensures TM.SwitchStack(old(View()), target, env, id) == TM.Xfer(View(), code, moved)
    {
      hide CanSwitch, TealetMap, View, Tealet.Record, Store.CoreView, Store.Valid, TM.Known, TM.StackmanSwitch, TM.IsDefunct,
        Operations.Transferable, TM.MarkDefunct, TM.SwitchStack;
      SwitchFacts(x, target, env.sp);
      FieldsOf(target);
      ghost var st := View();
      code := Refuse(target, env);
      if code.Failed() {
        RefusedIs(st, target, env, null);
        return code, false, null;
      }
      code, moved, id := Perform(target, env, x);
    }

    /* ---- tealet_xfer_inner ---- */

    method SetSignals(f: TM.Flags, r: TM.Resume<Tealet?>, panic: bool)
      requires gCurrent in tealets
      modifies gCurrent`flags, gCurrent`resume, this`gPanic
      ensures gCurrent in old(View()).tealets
      ensures var st := old(View());
              View() == TM.SetT(st, st.cur, st.tealets[st.cur].(flags := f, resume := r)).(panic := panic)
    {
      hide TealetMap, Store.CoreView;
      TealetAt(gCurrent);
      gCurrent.flags, gCurrent.resume := f, r;
      gPanic := panic;
      SetAt(gCurrent);
    }

    /** The transfer signals of one attempt are set. */
    method Stage(force: bool, panic: bool, isExit: bool, delete: bool)
      requires gCurrent in tealets
      modifies gCurrent`flags, gCurrent`resume, this`gPanic
      ensures gCurrent in old(View()).tealets && View() == TM.Stage(old(View()), force, panic, isExit, delete)
    {
      hide View, TealetMap, Store.CoreView;
      FieldsOf(gCurrent);
      var f, r := gCurrent.flags, gCurrent.resume;
      if isExit {
        f := f.(exiting := true, autodelete := f.autodelete || delete);
      } else {
        r := TM.InSwitch(gCurrent);
      }
      if force {
        f := f.(saveforce := true);
      }
      SetSignals(f, r, gPanic || panic);
    }

    method ClearSignals(t: Tealet)
      requires t in tealets
      modifies t`flags
      ensures t in old(View()).tealets && View() == TM.ClearSignals(old(View()), t)
    {
      hide View, TealetMap;
      FieldsOf(t);
      SetFlags(t, t.flags.(exiting := false, autodelete := false, saveforce := false));
    }

    /** What a call with stack pointer `sp` needs. */
    ghost predicate CanCall(t: Tealet, sp: int, isExit: bool)
      reads this, tealets, store, store.mem, store.stacks
    {
      && Safety.Ready(View()) && t in tealets && (isExit ==> gCurrent != main)
      && 0 <= sp < gCurrent.far && sp <= store.mem.Length
    }

    lemma CallFacts(t: Tealet, sp: int, isExit: bool)
      requires CanCall(t, sp, isExit)
      ensures TM.Known(View()) && t in tealets && gCurrent in tealets && main in tealets && Safety.Ready(View())
      ensures 0 <= sp < gCurrent.far && sp <= store.mem.Length && (isExit ==> gCurrent != main)
      ensures View().cur == gCurrent && View().main == main
    {
      hide Safety.Solid, TealetMap;
      Safety.SolidBasics(View(), None);
      Safety.SolidCur(View(), None);
      FieldsOf(main);
      FieldsOf(gCurrent);
    }

    lemma Staged(st: View, t: Tealet, sp: int, force: bool, panic: bool, isExit: bool, delete: bool)
      requires Safety.Ready(st) && (isExit ==> st.cur != st.main)
      requires View() == TM.Stage(st, force, panic, isExit, delete)
      requires t in tealets && t != gCurrent && t.flags.bound && 0 <= sp < gCurrent.far && sp <= store.mem.Length
      ensures CanSwitch(None, t, sp)
    {
      hide Safety.Solid, View, Safety.Signals;
      Safety.StageSolid(st, force, panic, isExit, delete);
    }

    lemma StaysAlive(st: View, t: Tealet?, force: bool, panic: bool, isExit: bool, delete: bool, env: TM.Env, id: Stack?)
      requires Safety.Ready(st) && t in st.tealets && t != st.cur && st.tealets[t].flags.bound
      requires isExit ==> st.cur != st.main
      ensures TM.Known(TM.Stage(st, force, panic, isExit, delete))
      ensures var r := TM.SwitchStack(TM.Stage(st, force, panic, isExit, delete), t, env, id);
              !r.moved ==> st.cur in r.st.tealets
    {
      hide Safety.Solid, TM.SwitchStack;
      Safety.SolidBasics(st, None);
      Safety.SolidCur(st, None);
      var s := TM.Stage(st, force, panic, isExit, delete);
      Safety.StageSolid(st, force, panic, isExit, delete);
      Safety.SolidBasics(s, None);
      if !TM.SwitchStack(s, t, env, id).moved {
        Safety.StayFrame(s, None, t, env, id);
      }
    }

    method StageFor(target: Tealet, sp: int, force: bool, panic: bool, isExit: bool, delete: bool)
      requires CanCall(target, sp, isExit) && target != gCurrent && target.flags.bound
      modifies gCurrent`flags, gCurrent`resume, this`gPanic
      ensures gCurrent in old(View()).tealets && View() == TM.Stage(old(View()), force, panic, isExit, delete)
      ensures CanSwitch(None, target, sp)
    {
      hide CanCall, CanSwitch, View, TM.Stage, Safety.Ready;
      CallFacts(target, sp, isExit);
      ghost var st := View();
      Stage(force, panic, isExit, delete);
      Staged(st, target, sp, force, panic, isExit, delete);
    }

    lemma AttemptIs(st: View, t: Tealet?, force: bool, panic: bool, isExit: bool, delete: bool, env: TM.Env, id: Stack?)
      requires TM.Known(st) && t in st.tealets && t != st.cur && st.tealets[t].flags.bound
      requires TM.Known(TM.Stage(st, force, panic, isExit, delete))
      ensures var x := TM.SwitchStack(TM.Stage(st, force, panic, isExit, delete), t, env, id);
              TM.XferInner(st, t, force, panic, isExit, delete, env, id)
              == if x.code.Failed() && !x.moved && st.cur in x.st.tealets then x.(st := TM.ClearSignals(x.st, st.cur)) else x
    {
      hide TM.SwitchStack, TM.ClearSignals;
    }

    /** The transfer to another tealet, with its signals set before and cleared when it fails. */
    method Attempt(target: Tealet, force: bool, panic: bool, isExit: bool, delete: bool, env: TM.Env)
      returns (code: TM.Code, moved: bool, ghost id: Stack?)
      requires store.Valid() && CanCall(target, env.sp, isExit) && target != gCurrent && target.flags.bound
      modifies this, store, store.stacks, store.chunks, store.mem, gCurrent, target
      ensures store.Valid() && fresh(store.stacks - old(store.stacks)) && fresh(store.chunks - old(store.chunks))
      ensures tealets <= old(tealets) && (id != null ==> fresh(id))
      ensures TM.Known(old(View())) && target in old(View()).tealets
      ensures TM.XferInner(old(View()), target, force, panic, isExit, delete, env, id) == TM.Xfer(View(), code, moved)
    {
      hide CanCall, CanSwitch, TealetMap, View, Tealet.Record, Store.CoreView, Store.Valid, TM.Known, TM.SwitchStack, TM.Stage,
        Safety.Ready, TM.ClearSignals, TM.XferInner;
      CallFacts(target, env.sp, isExit);
      FieldsOf(target);
      ghost var st := View();
      var current := gCurrent;
      StageFor(target, env.sp, force, panic, isExit, delete);
      code, moved, id := SwitchStack(target, env, None);
      StaysAlive(st, target, force, panic, isExit, delete, env, id);
      AttemptIs(st, target, force, panic, isExit, delete, env, id);
      if code.Failed() && !moved {
        FieldsOf(current);
        ClearSignals(current);
      }
    }

    /** What one attempt needs; a tealet that switches to itself needs next to nothing. */
    ghost predicate CanTry(t: Tealet, sp: int, isExit: bool)
      reads this, tealets, store, store.mem, store.stacks
    {
      && TM.Known(View()) && t in tealets && gCurrent in tealets
      && (t != gCurrent && t.flags.bound ==> CanCall(t, sp, isExit))
    }

    /** tealet_xfer_inner. */
    method XferInner(target: Tealet, force: bool, panic: bool, isExit: bool, delete: bool, env: TM.Env)
      returns (code: TM.Code, moved: bool, ghost id: Stack?)
      requires store.Valid() && CanTry(target, env.sp, isExit)
      modifies this, store, store.stacks, store.chunks, store.mem, gCurrent, target
      ensures store.Valid() && fresh(store.stacks - old(store.stacks)) && fresh(store.chunks - old(store.chunks))
      ensures tealets <= old(tealets) && (id != null ==> fresh(id))
      ensures TM.Known(old(View())) && target in old(View()).tealets
      ensures TM.XferInner(old(View()), target, force, panic, isExit, delete, env, id) == TM.Xfer(View(), code, moved)
    {
      hide CanCall, CanSwitch, TealetMap, View, Tealet.Record, Store.CoreView, Store.Valid, TM.Known, TM.SwitchStack, TM.Stage,
        Safety.Ready, TM.ClearSignals;
      FieldsOf(target);
      FieldsOf(gCurrent);
      if !target.flags.bound {
        return TM.ErrInval, false, null;
      }
      if target == gCurrent {
        if isExit {
          return TM.ErrInval, false, null;
        }
        SetTransfer(gCurrent, gCurrent, gTarget, gPanic);
        return if panic then TM.ErrPanic else TM.Ok, false, null;
      }
      code, moved, id := Attempt(target, force, panic, isExit, delete, env);
    }

    /* ---- tealet_switch and tealet_exit ---- */

    /** A save that fails saves no new stack, so that its name does not matter. */
    lemma SaveRefused(st: View, t: Tealet?, sp: int, id: Stack?, id2: Stack?)
      requires TM.Known(st) && t in st.tealets
      ensures TM.SaveState(st, t, sp, id2).fail == TM.SaveState(st, t, sp, id).fail
      ensures TM.SaveState(st, t, sp, id).fail ==> TM.SaveState(st, t, sp, id2) == TM.SaveState(st, t, sp, id)
    {
      hide TM.GrowFor, TM.ExitCurrent, TM.Known, TM.FailOk;
    }

    lemma StackmanRefused(st: View, t: Tealet?, sp: int, id: Stack?, id2: Stack?)
      requires TM.Known(st) && t in st.tealets
      ensures TM.StackmanSwitch(st, t, sp, id2).fail == TM.StackmanSwitch(st, t, sp, id).fail
      ensures TM.StackmanSwitch(st, t, sp, id).fail ==> TM.StackmanSwitch(st, t, sp, id2) == TM.StackmanSwitch(st, t, sp, id)
    {
      hide TM.SaveState, TM.RestoreState, TM.Known;
      SaveRefused(st, t, sp, id, id2);
    }

    lemma SwitchRefused(st: View, t: Tealet?, env: TM.Env, id: Stack?, id2: Stack?)
      requires TM.Known(st) && t in st.tealets && !TM.SwitchStack(st, t, env, id).moved
      ensures TM.SwitchStack(st, t, env, id2) == TM.SwitchStack(st, t, env, id)
    {
      hide TM.StackmanSwitch, TM.IsDefunct;
      StackmanRefused(st.(prev := Some(st.cur), target := Some(t)), t, env.sp, id, id2);
    }

    /** An attempt that does not take place saves no new stack either. */
    lemma NoNewStack(st: View, t: Tealet?, force: bool, panic: bool, isExit: bool, delete: bool, env: TM.Env, id: Stack?,
                     id2: Stack?)
      requires TM.Known(st) && t in st.tealets
      requires !TM.XferInner(st, t, force, panic, isExit, delete, env, id).moved
      ensures TM.XferInner(st, t, force, panic, isExit, delete, env, id2)
              == TM.XferInner(st, t, force, panic, isExit, delete, env, id)
    {
      hide TM.SwitchStack, TM.ClearSignals, TM.Stage, TM.XferInner;
      if st.tealets[t].flags.bound && t != st.cur {
        StageKnown(st, force, panic, isExit, delete);
        AttemptIs(st, t, force, panic, isExit, delete, env, id);
        AttemptIs(st, t, force, panic, isExit, delete, env, id2);
        SwitchRefused(TM.Stage(st, force, panic, isExit, delete), t, env, id, id2);
      } else {
        NoAttempt(st, t, force, panic, isExit, delete, env, id, id2);
      }
    }

    lemma NoAttempt(st: View, t: Tealet?, force: bool, panic: bool, isExit: bool, delete: bool, env: TM.Env, id: Stack?,
                    id2: Stack?)
      requires TM.Known(st) && t in st.tealets && (!st.tealets[t].flags.bound || t == st.cur)
      ensures TM.XferInner(st, t, force, panic, isExit, delete, env, id2)
              == TM.XferInner(st, t, force, panic, isExit, delete, env, id)
    {
      hide TM.SwitchStack, TM.Stage;
    }

    lemma StageKnown(st: View, force: bool, panic: bool, isExit: bool, delete: bool)
      requires TM.Known(st)
      ensures TM.Known(TM.Stage(st, force, panic, isExit, delete))
      ensures TM.Stage(st, force, panic, isExit, delete).tealets.Keys == st.tealets.Keys
    {
    }

    /** Between the two attempts of a NOFAIL call. The first one can have lost its target only in main, whose second
        attempt is a switch to itself. */
    lemma SecondAttempt(st: View, t: Tealet, panic: bool, isExit: bool, delete: bool, env: TM.Env, id: Stack?)
      requires Safety.Ready(st) && t in st.tealets && Safety.EnvOk(st, env, id) && (isExit ==> st.cur != st.main)
      requires View() == TM.XferInner(st, t, true, panic, isExit, delete, env, id).st
      requires var x := TM.XferInner(st, t, true, panic, isExit, delete, env, id); x.code == TM.ErrMem || x.code == TM.ErrDefunct
      ensures View().cur == st.cur && gCurrent == st.cur && View().main == main && st.main == main
      ensures CanTry(main, env.sp, isExit) && !TM.XferInner(st, t, true, panic, isExit, delete, env, id).moved
      ensures TM.Known(View())
    {
      hide Safety.Solid, TM.XferInner, Safety.KeepsTarget, View;
      Calls.AttemptFails(st, t, panic, isExit, delete, env, id);
      FieldsOf(main);
      FieldsOf(gCurrent);
      store.PlistOf();
    }

    /** The attempts of tealet_switch and tealet_exit. */
    method Transfer(target: Tealet, force: bool, panic: bool, nofail: bool, isExit: bool, delete: bool, env: TM.Env)
      returns (code: TM.Code, moved: bool, ghost id: Stack?)
      requires store.Valid() && CanCall(target, env.sp, isExit)
      modifies this, store, store.stacks, store.chunks, store.mem, gCurrent, target, main
      ensures store.Valid() && fresh(store.stacks - old(store.stacks)) && fresh(store.chunks - old(store.chunks))
      ensures tealets <= old(tealets) && (id != null ==> fresh(id))
      ensures TM.Known(old(View())) && target in old(View()).tealets
      ensures TM.Transfer(old(View()), target, force, panic, nofail, isExit, delete, env, id) == TM.Xfer(View(), code, moved)
    {
      hide CanTry, CanCall, TealetMap, View, Tealet.Record, Store.CoreView, Store.Valid, TM.Known, TM.XferInner, Safety.Ready,
        TM.Transfer;
      CallFacts(target, env.sp, isExit);
      CallTries(target, env.sp, isExit);
      FreshName(target, env, isExit);
      ghost var st := View();
      code, moved, id := XferInner(target, force || nofail, panic, isExit, delete, env);
      OneAttempt(st, target, force, panic, nofail, isExit, delete, env, id);
      if nofail && (code == TM.ErrMem || code == TM.ErrDefunct) {
        SecondAttempt(st, target, panic, isExit, delete, env, id);
        ghost var first := id;
        code, moved, id := XferInner(main, true, true, isExit, delete, env);
        TwoAttempts(st, target, force, panic, isExit, delete, env, first, id);
      }
    }

    lemma OneAttempt(st: View, t: Tealet?, force: bool, panic: bool, nofail: bool, isExit: bool, delete: bool, env: TM.Env,
                     id: Stack?)
      requires TM.Known(st) && t in st.tealets
      ensures var x := TM.XferInner(st, t, force || nofail, panic, isExit, delete, env, id);
              (nofail && (x.code == TM.ErrMem || x.code == TM.ErrDefunct))
              || TM.Transfer(st, t, force, panic, nofail, isExit, delete, env, id) == x
    {
      hide TM.XferInner, TM.Known;
    }

    lemma TwoAttempts(st: View, t: Tealet?, force: bool, panic: bool, isExit: bool, delete: bool, env: TM.Env, id: Stack?,
                      id2: Stack?)
      requires TM.Known(st) && t in st.tealets
      requires var x := TM.XferInner(st, t, true, panic, isExit, delete, env, id);
               !x.moved && TM.Known(x.st) && (x.code == TM.ErrMem || x.code == TM.ErrDefunct)
      ensures var x := TM.XferInner(st, t, true, panic, isExit, delete, env, id);
              TM.Transfer(st, t, force, panic, true, isExit, delete, env, id2)
              == TM.XferInner(x.st, x.st.main, true, true, isExit, delete, env, id2)
    {
      hide TM.XferInner;
      NoNewStack(st, t, true, panic, isExit, delete, env, id, id2);
    }

    lemma CallTries(t: Tealet, sp: int, isExit: bool)
      requires CanCall(t, sp, isExit)
      ensures CanTry(t, sp, isExit)
    {
      hide CanCall;
      CallFacts(t, sp, isExit);
    }

    /** No object that is not yet live names a saved stack. */
    lemma FreshName(t: Tealet, env: TM.Env, isExit: bool)
      requires CanCall(t, env.sp, isExit)
      ensures Safety.Ready(View()) && t in View().tealets && View().cur in View().tealets
      ensures 0 <= env.sp < View().tealets[View().cur].far && env.sp <= |View().core.mem|
      ensures isExit ==> View().cur != View().main
      ensures forall s :: s in View().core.stacks ==> s != null && s in store.stacks
    {
      hide Safety.Solid, TealetMap;
      Safety.SolidCur(View(), None);
      FieldsOf(gCurrent);
      FieldsOf(t);
    }

    /** tealet_lock_auto. */
    method LockAuto()
      modifies this`locks
      ensures View() == TM.Lock(old(View()))
    {
      hide TealetMap, Store.CoreView;
      locks := locks + [true];
    }

    /** tealet_unlock_auto. */
    method UnlockAuto()
      modifies this`locks
      ensures View() == TM.Unlock(old(View()))
    {
      hide TealetMap, Store.CoreView;
      locks := locks + [false];
    }

    /** What the frame of a tealet that gets a panic names is alive. */
    ghost predicate CanReceive(code: TM.Code)
      reads this, tealets, store, store.mem, store.stacks
    {
      TM.Known(View()) && Calls.FrameAlive(TM.Xfer(View(), code, true))
    }

    lemma ReceiveFacts(code: TM.Code)
      requires CanReceive(code)
      ensures TM.Known(View()) && gCurrent in tealets && gCurrent in View().tealets
      ensures View().cur == gCurrent && View().tealets[gCurrent].resume == gCurrent.resume
      ensures code == TM.ErrPanic ==>
                forall u: Tealet? :: u in Calls.Names(gCurrent.resume) ==> u != null && u in tealets && u in View().tealets
    {
      FieldsOf(gCurrent);
    }

    /** What the frame of a receiver does about a panic: tealet_switch clears the signals of its call, tealet_run and
        tealet_fork take it for a binding that failed. */
    method PanicFrame()
      requires CanReceive(TM.ErrPanic)
      modifies this`gCurrent, this`gPrevious, this`gTarget, this`gPanic, tealets`far, tealets`stack, tealets`flags
      ensures TM.Known(old(View())) && TM.Receive(old(View()), TM.ErrPanic) == TM.Unlock(View())
    {
      hide CanReceive, View, TM.Known, TM.ClearSignals, TM.ResetT;
      ReceiveFacts(TM.ErrPanic);
      match gCurrent.resume
      case Unbound =>
      case InSwitch(self) =>
        ClearSignals(self);
      case InRun(child) =>
        Reset(child);
      case InFork(child, parent, now) =>
        if now {
          Reset(child);
        } else {
          UndoBinding(child, parent);
        }
      case NotStarted(self, creator) =>
        UndoBinding(self, creator);
    }

    /** A binding that failed is undone, and control is in `creator`. */
    method UndoBinding(t: Tealet, creator: Tealet)
      requires t in tealets
      modifies this`gCurrent, this`gPrevious, this`gTarget, this`gPanic, t`far, t`stack, t`flags
      ensures t in old(View()).tealets && View() == TM.ResetT<Stack?, Tealet?>(old(View()), t).(cur := creator)
    {
      hide View, TM.ResetT;
      Reset(t);
      FieldsOf(gCurrent);
      SetTransfer(creator, gPrevious, gTarget, gPanic);
    }

    /** What the tealet that goes on does first: the end of the call in which it was suspended. */
    method Receive(code: TM.Code)
      requires CanReceive(code)
      modifies this`locks, this`gCurrent, this`gPrevious, this`gTarget, this`gPanic, tealets`far, tealets`stack, tealets`flags
      ensures TM.Known(old(View())) && View() == TM.Receive(old(View()), code)
    {
      hide CanReceive, View, TM.Known;
      MovedKnown(code);
      if code == TM.ErrPanic {
        PanicFrame();
      }
      UnlockAuto();
    }

    /** The end of tealet_switch and tealet_exit. */
    method Finish(code: TM.Code, moved: bool)
      requires moved ==> CanReceive(code)
      modifies this`locks, this`gCurrent, this`gPrevious, this`gTarget, this`gPanic, tealets`far, tealets`stack, tealets`flags
      ensures TM.Finish(TM.Xfer(old(View()), code, moved)) == TM.Xfer(View(), code, moved)
    {
      hide View, TM.Receive, TM.Known, CanReceive;
      if moved {
        MovedKnown(code);
        Receive(code);
      } else {
        UnlockAuto();
      }
    }

    lemma MovedKnown(code: TM.Code)
      requires CanReceive(code)
      ensures TM.Known(View())
    {
    }

    /** What a call of tealet_switch or tealet_exit may rely on: a legal state, a live target, a stack pointer below the
        caller's boundary, and, if it ends as a panic, that what the receiver's frame names will be alive. */
    ghost predicate CanXfer(t: Tealet, force: bool, panic: bool, nofail: bool, isExit: bool, delete: bool, env: TM.Env)
      reads this, tealets, store, store.mem, store.stacks
    {
      && Safety.Inv(View()) && TM.Known(View()) && t in View().tealets && Safety.EnvOk(View(), env, null)
      && (isExit ==> View().cur != View().main)
      && Calls.CallAlive(View(), t, force, panic, nofail, isExit, delete, env)
    }

    /** The call may go ahead once the lock has been taken. */
    lemma Locked(st: View, t: Tealet, env: TM.Env, isExit: bool)
      requires Safety.Inv(st) && TM.Known(st) && t in st.tealets && Safety.EnvOk(st, env, null) && (isExit ==> st.cur != st.main)
      requires View() == TM.Lock(st)
      ensures CanCall(t, env.sp, isExit)
    {
      hide Safety.Solid, View;
      Operations.ReadyLocks(st, st.locks + [true]);
      FieldsOf(gCurrent);
      FieldsOf(t);
      store.PlistOf();
    }

    /** Taking the lock changes nothing about where the call will lead. */
    lemma LockedAlive(st: View, t: Tealet, force: bool, panic: bool, nofail: bool, isExit: bool, delete: bool, env: TM.Env)
      requires Safety.Inv(st) && TM.Known(st) && t in st.tealets
      requires Calls.CallAlive(st, t, force, panic, nofail, isExit, delete, env)
      ensures TM.Known(TM.Lock(st)) && t in TM.Lock(st).tealets
      ensures Calls.CallAlive(TM.Lock(st), t, force, panic, nofail, isExit, delete, env)
    {
      hide Safety.Inv, Calls.CourseOf, Calls.Names, TM.Known;
      Calls.LockedStart(st);
      Calls.CourseCong(st, TM.Lock(st), t, force, panic, nofail, isExit, env);
    }

    /** The receiver may go ahead. */
    lemma Arrived(st: View, t: Tealet, force: bool, panic: bool, nofail: bool, isExit: bool, delete: bool, env: TM.Env,
                  id: Stack?, code: TM.Code)
      requires Safety.Ready(st) && t in st.tealets && (isExit ==> st.cur != st.main)
      requires Safety.EnvOk(st, env, id) && TM.Known(st)
      requires Calls.CallAlive(st, t, force, panic, nofail, isExit, delete, env)
      requires TM.Transfer(st, t, force, panic, nofail, isExit, delete, env, id) == TM.Xfer(View(), code, true)
      ensures CanReceive(code)
    {
      hide Safety.Ready, TM.Transfer, View, Calls.CallAlive, Calls.FrameAlive, TM.Known;
      Calls.AliveFrames(st, t, force, panic, nofail, isExit, delete, env, id);
      Calls.CallCounts(st, t, force, panic, nofail, isExit, delete, env, id);
    }

    lemma XferFacts(t: Tealet, force: bool, panic: bool, nofail: bool, isExit: bool, delete: bool, env: TM.Env)
      requires CanXfer(t, force, panic, nofail, isExit, delete, env)
      ensures var st := View();
              && Safety.Inv(st) && TM.Known(st) && t in st.tealets && Safety.EnvOk(st, env, null)
              && (isExit ==> st.cur != st.main)
              && Calls.CallAlive(st, t, force, panic, nofail, isExit, delete, env)
              && (forall s :: s in st.core.stacks ==> s != null && s in store.stacks)
    {
      hide Safety.Inv, TealetMap, Calls.CallAlive, TM.Known;
    }

    /** Under the lock: the attempts, and what happens where control goes. */
    method Locally(target: Tealet, force: bool, panic: bool, nofail: bool, isExit: bool, delete: bool, env: TM.Env)
      returns (code: TM.Code, moved: bool, ghost id: Stack?)
      requires store.Valid() && CanCall(target, env.sp, isExit)
      requires TM.Known(View()) && target in View().tealets
      requires Calls.CallAlive(View(), target, force, panic, nofail, isExit, delete, env)
      modifies this, store, store.stacks, store.chunks, store.mem, tealets
      ensures store.Valid() && fresh(store.stacks - old(store.stacks)) && fresh(store.chunks - old(store.chunks))
      ensures tealets <= old(tealets) && (id != null ==> fresh(id))
      ensures TM.Known(old(View())) && target in old(View()).tealets
      ensures TM.Finish(TM.Transfer(old(View()), target, force, panic, nofail, isExit, delete, env, id))
              == TM.Xfer(View(), code, moved)
    {
      hide CanCall, TealetMap, View, Store.Valid, TM.Known, TM.Transfer, TM.Finish, Safety.Ready, Calls.CallAlive, CanReceive;
      CallFacts(target, env.sp, isExit);
      FreshName(target, env, isExit);
      ghost var st := View();
      code, moved, id := Transfer(target, force, panic, nofail, isExit, delete, env);
      if moved {
        Arrived(st, target, force, panic, nofail, isExit, delete, env, id, code);
      }
      Finish(code, moved);
    }

    /** tealet_switch. */
    method Switch(target: Tealet, force: bool, panic: bool, nofail: bool, env: TM.Env)
      returns (code: TM.Code, moved: bool, ghost id: Stack?)
      requires store.Valid() && CanXfer(target, force, panic, nofail, false, false, env)
      modifies this, store, store.stacks, store.chunks, store.mem, tealets
      ensures store.Valid() && fresh(store.stacks - old(store.stacks)) && fresh(store.chunks - old(store.chunks))
      ensures tealets <= old(tealets) && (id != null ==> fresh(id))
      ensures TM.Known(old(View())) && target in old(View()).tealets
      ensures TM.Switch(old(View()), target, force, panic, nofail, env, id) == TM.Xfer(View(), code, moved)
      ensures Safety.Inv(View()) <==> Calls.CallLegal(old(View()), target, force, panic, nofail, false, false, env)
    {
      hide CanXfer, CanCall, TealetMap, View, Store.Valid, TM.Known, TM.Transfer, TM.Finish, Safety.Inv, Calls.CallAlive,
        Calls.CallLegal;
      XferFacts(target, force, panic, nofail, false, false, env);
      ghost var st := View();
      LockAuto();
      Locked(st, target, env, false);
      LockedAlive(st, target, force, panic, nofail, false, false, env);
      code, moved, id := Locally(target, force, panic, nofail, false, false, env);
      Calls.CallExact(st, target, force, panic, nofail, false, false, env, id);
    }

    /** tealet_exit. */
    method Exit(target: Tealet, delete: bool, force: bool, panic: bool, nofail: bool, env: TM.Env)
      returns (code: TM.Code, moved: bool, ghost id: Stack?)
      requires store.Valid() && CanXfer(target, force, panic, nofail, true, delete, env)
      modifies this, store, store.stacks, store.chunks, store.mem, tealets
      ensures store.Valid() && fresh(store.stacks - old(store.stacks)) && fresh(store.chunks - old(store.chunks))
      ensures tealets <= old(tealets) && (id != null ==> fresh(id))
      ensures TM.Known(old(View())) && target in old(View()).tealets
      ensures TM.Exit(old(View()), target, delete, force, panic, nofail, env, id) == TM.Xfer(View(), code, moved)
      ensures Safety.Inv(View()) <==> Calls.CallLegal(old(View()), target, force, panic, nofail, true, delete, env)
    {
      hide CanXfer, CanCall, TealetMap, View, Store.Valid, TM.Known, TM.Transfer, TM.Finish, Safety.Inv, Calls.CallAlive,
        Calls.CallLegal;
      XferFacts(target, force, panic, nofail, true, delete, env);
      ghost var st := View();
      LockAuto();
      Locked(st, target, env, true);
      LockedAlive(st, target, force, panic, nofail, true, delete, env);
      code, moved, id := Locally(target, force, panic, nofail, true, delete, env);
      Calls.CallExact(st, target, force, panic, nofail, true, delete, env, id);
    }

    /* ---- tealet_run and tealet_fork ---- */

    /** A NEW tealet is bound. */
    method Bind(t: Tealet, far: int, flags: TM.Flags, resume: TM.Resume<Tealet?>)
      requires t in tealets
      modifies t`far, t`flags, t`resume
      ensures t in old(View()).tealets
      ensures View() == TM.SetT(old(View()), t, old(View()).tealets[t].(far := far, flags := flags, resume := resume))
    {
      hide TealetMap, Store.CoreView;
      TealetAt(t);
      t.far := far;
      t.flags := flags;
      t.resume := resume;
      SetAt(t);
    }

    /** The common end of tealet_run and tealet_fork. */
    method Conclude(result: TM.Code, t: Tealet, creator: Tealet, now: bool, ghost moved: bool) returns (code: TM.Code)
      requires result.Failed() ==> t in tealets
      modifies t`far, t`stack, t`flags, this`gCurrent, this`gPrevious, this`gTarget, this`gPanic, this`locks
      ensures TM.Bound(TM.Xfer(old(View()), result, moved), t, creator, now) == TM.Xfer(View(), code, moved)
    {
      hide View, TealetMap;
      FieldsOf(t);
      code := TM.Ok;
      if result.Failed() {
        Reset(t);
        FieldsOf(gCurrent);
        if !now {
          SetTransfer(creator, gPrevious, gTarget, gPanic);
        }
        code := result;
      }
      UnlockAuto();
    }

    ghost function NowBound(st: View, t: Tealet?, v: TM.TealetV<Stack?, Tealet?>, r: TM.Resume<Tealet?>): View
      requires st.cur in st.tealets
    {
      TM.SetT(TM.SetT(st, st.cur, st.tealets[st.cur].(resume := r)), t, v)
    }

    /** A tealet that has just been bound may be switched to. */
    lemma NowReady(st: View, t: Tealet?, v: TM.TealetV<Stack?, Tealet?>, r: TM.Resume<Tealet?>)
      requires Safety.Ready(st) && Operations.Binds(st, t, v)
      ensures st.cur in st.tealets && t != st.cur
      ensures var s := NowBound(st, t, v, r);
              && Safety.Solid(s, Some(t)) && Safety.Signals(s) && TM.Known(s) && !s.panic
              && s.tealets[s.cur].far == st.tealets[st.cur].far && t in s.tealets && s.tealets[t].flags.bound
    {
      hide Safety.CoreOk, Safety.RestOk, Safety.MainOk, Safety.Owned, TM.Known;
      Operations.NewIsFree(st, t);
      var w := st.tealets[st.cur].(resume := r);
      Safety.CastCur(st, None, w);
      Operations.BindSolid(TM.SetT(st, st.cur, w), t, v);
      Safety.SolidBasics(NowBound(st, t, v, r), Some(t));
    }

    /** A transfer that fails to bind leaves the tealet alive. */
    lemma FailsAlive(s: View, t: Tealet?, x: Tealet?, env: TM.Env, id: Stack?)
      requires TM.Known(s) && t != s.cur && t in s.tealets && !s.panic && x in s.tealets
      ensures var r := TM.SwitchStack(s, t, env, id); r.code.Failed() ==> x in r.st.tealets && !r.moved
    {
      hide TM.SaveState, TM.RestoreState, TM.IsDefunct;
      Safety.SwitchStackFrame(s, t, env, id);
      if TM.SwitchStack(s, t, env, id).code == TM.ErrMem {
        FailedKeys(s.(prev := Some(s.cur), target := Some(t)), t, env.sp, id);
      }
    }

    lemma FailedKeys(s: View, t: Tealet?, sp: int, id: Stack?)
      requires TM.Known(s) && t in s.tealets && TM.SaveState(s, t, sp, id).fail
      ensures TM.SaveState(s, t, sp, id).st.tealets.Keys == s.tealets.Keys
    {
      hide TM.GrowFor;
    }

    /** The transfer by which `x` is bound. */
    method SwitchBound(target: Tealet, x: Tealet, env: TM.Env) returns (code: TM.Code, moved: bool, ghost id: Stack?)
      requires store.Valid() && CanSwitch(Some(target), target, env.sp) && !gPanic && x in tealets
      modifies this, store, store.stacks, store.chunks, store.mem, gCurrent, target
      ensures store.Valid() && fresh(store.stacks - old(store.stacks)) && fresh(store.chunks - old(store.chunks))
      ensures tealets <= old(tealets) && (id != null ==> fresh(id))
      ensures TM.Known(old(View())) && target in old(View()).tealets
      ensures TM.SwitchStack(old(View()), target, env, id) == TM.Xfer(View(), code, moved)
      ensures code.Failed() ==> x in tealets
    {
      hide CanSwitch, View, TealetMap, Store.Valid, TM.SwitchStack, TM.Known;
      BoundFacts(target, env.sp);
      FieldsOf(x);
      ghost var s := View();
      code, moved, id := SwitchStack(target, env, Some(target));
      FailsAlive(s, target, x, env, id);
      FieldsOf(x);
    }

    lemma BoundFacts(t: Tealet, sp: int)
      requires CanSwitch(Some(t), t, sp)
      ensures var s := View(); t != s.cur && t in s.tealets && s.panic == gPanic && TM.Known(s)
    {
      hide Safety.Solid, TealetMap, StacksOk, Staircase, Above;
      if Safety.Solid(View(), Some(t)) {
        Safety.SolidBasics(View(), Some(t));
      }
      FieldsOf(t);
    }

    /** START_SWITCH: the creator is saved and `t` goes on. */
    method StartNow(t: Tealet, far: int, flags: TM.Flags, r: TM.Resume<Tealet?>, env: TM.Env)
      returns (code: TM.Code, moved: bool, ghost id: Stack?)
      requires store.Valid() && Safety.Ready(View()) && t in tealets && View().tealets.Keys >= {t}
      requires Operations.Binds(View(), t, View().tealets[t].(far := far, flags := flags))
      requires 0 <= env.sp < gCurrent.far && env.sp <= store.mem.Length
      modifies this, store, store.stacks, store.chunks, store.mem, gCurrent, t
      ensures store.Valid() && fresh(store.stacks - old(store.stacks)) && fresh(store.chunks - old(store.chunks))
      ensures tealets <= old(tealets) && (id != null ==> fresh(id))
      ensures var st := old(View());
              && st.cur in st.tealets && t in st.tealets
              && var v := st.tealets[t].(far := far, flags := flags);
                 && TM.Known(NowBound(st, t, v, r))
                 && TM.StartNow(st, t, v, r, env, id) == TM.Xfer(View(), code, moved)
    {
      hide CanSwitch, View, TealetMap, Store.Valid, Safety.Ready, TM.SwitchStack, TM.Bound, Operations.Binds, Safety.Solid,
        Safety.Signals, TM.Known;
      FieldsOf(t);
      FieldsOf(gCurrent);
      ghost var st := View();
      ghost var v := st.tealets[t].(far := far, flags := flags);
      NowReady(st, t, v, r);
      var creator := gCurrent;
      BindNow(t, far, flags, r, env.sp);
      var result;
      result, moved, id := SwitchBound(t, t, env);
      code := Conclude(result, t, creator, true, moved);
    }

    method BindNow(t: Tealet, far: int, flags: TM.Flags, r: TM.Resume<Tealet?>, sp: int)
      requires Safety.Ready(View()) && t in tealets && gCurrent in tealets && View().tealets.Keys >= {t}
      requires Operations.Binds(View(), t, View().tealets[t].(far := far, flags := flags))
      requires 0 <= sp < gCurrent.far && sp <= store.mem.Length
      modifies gCurrent`resume, t`far, t`flags, t`resume
      ensures var st := old(View());
              && st.cur in st.tealets && t in st.tealets
              && var v := st.tealets[t].(far := far, flags := flags); View() == NowBound(st, t, v, r)
      ensures CanSwitch(Some(t), t, sp)
    {
      hide View, TealetMap, Safety.Ready, Operations.Binds, Safety.Solid, Safety.Signals, TM.Known;
      FieldsOf(t);
      FieldsOf(gCurrent);
      ghost var st := View();
      ghost var v := st.tealets[t].(far := far, flags := flags);
      NowReady(st, t, v, r);
      SetResume(gCurrent, r);
      FieldsOf(t);
      Bind(t, far, flags, t.resume);
      BoundFlags(st, t, v);
      FieldsOf(t);
      FieldsOf(gCurrent);
    }

    lemma BoundFlags(st: View, t: Tealet?, v: TM.TealetV<Stack?, Tealet?>)
      requires Operations.Binds(st, t, v)
      ensures v.flags.bound && t in st.tealets
    {
    }

    ghost function LaterBound(st: View, t: Tealet?, v: TM.TealetV<Stack?, Tealet?>): View {
      TM.SetT(st, t, v).(cur := t)
    }

    /** The tealet that stands in may be saved on a transfer back to its creator. */
    lemma LaterReady(st: View, t: Tealet?, v: TM.TealetV<Stack?, Tealet?>)
      requires Safety.Ready(st) && Operations.Binds(st, t, v)
      ensures st.cur in st.tealets && t != st.cur && t in st.tealets
      ensures var s := LaterBound(st, t, v);
              Operations.Standing(s, st.cur) && TM.Known(s) && !s.panic && s.tealets[t].far == v.far && st.cur in s.tealets
    {
      hide Safety.CoreOk, Safety.RestOk, Safety.MainOk, Safety.Owned, StacksOk, Staircase, Above;
      Operations.StandInStands(st, t, v);
    }

    method BindLater(t: Tealet, far: int, flags: TM.Flags, r: TM.Resume<Tealet?>, sp: int)
      requires Safety.Ready(View()) && t in tealets && gCurrent in tealets && View().tealets.Keys >= {t}
      requires var v := View().tealets[t].(far := far, flags := flags, resume := r);
               Operations.Binds(View(), t, v)
      requires 0 <= sp < far && sp <= store.mem.Length
      modifies t`far, t`flags, t`resume, this`gCurrent, this`gPrevious, this`gTarget, this`gPanic
      ensures gPrevious == old(gPrevious) && gCurrent == t && !gPanic
      ensures var st := old(View());
              && st.cur in st.tealets && t in st.tealets
              && var v := st.tealets[t].(far := far, flags := flags, resume := r); View() == LaterBound(st, t, v)
      ensures CanSwitch(Some(old(gCurrent)), old(gCurrent), sp)
    {
      hide View, TealetMap, Safety.Ready, Operations.Binds, Safety.Solid, Operations.Standing, TM.Known, Store.CoreView;
      FieldsOf(t);
      FieldsOf(gCurrent);
      store.PlistOf();
      ghost var st := View();
      ghost var v := st.tealets[t].(far := far, flags := flags, resume := r);
      LaterReady(st, t, v);
      var creator := gCurrent;
      Bind(t, far, flags, r);
      FieldsOf(gCurrent);
      SetTransfer(t, gPrevious, gTarget, gPanic);
      FieldsOf(t);
      FieldsOf(creator);
    }

    method ConcludeLater(result: TM.Code, t: Tealet, creator: Tealet, previous: Tealet?, ghost moved: bool)
      returns (code: TM.Code)
      requires result.Failed() ==> t in tealets
      modifies t`far, t`stack, t`flags, this`gCurrent, this`gPrevious, this`gTarget, this`gPanic, this`locks
      ensures var x := TM.Xfer(old(View()), result, moved);
              TM.Bound(if x.code == TM.Saved then x.(st := x.st.(prev := SomeTealet(previous))) else x, t, creator, false)
              == TM.Xfer(View(), code, moved)
    {
      hide View, TM.Bound;
      FieldsOf(gCurrent);
      if result == TM.Saved {
        SetTransfer(gCurrent, previous, gTarget, gPanic);
        SamePrev(old(View()), previous);
      }
      code := Conclude(result, t, creator, false, moved);
    }

    lemma SamePrev(st: View, previous: Tealet?)
      ensures st.(cur := st.cur, prev := SomeTealet(previous), target := st.target, panic := st.panic)
              == st.(prev := SomeTealet(previous))
    {
    }

    lemma LaterIs(st: View, t: Tealet?, v: TM.TealetV<Stack?, Tealet?>, env: TM.Env, id: Stack?)
      requires st.cur in st.tealets && t in st.tealets && TM.Known(LaterBound(st, t, v)) && st.cur in LaterBound(st, t, v).tealets
      ensures TM.StartLater(st, t, v, env, id)
              == (var x := TM.SwitchStack(LaterBound(st, t, v), st.cur, env, id);
                  TM.Bound(if x.code == TM.Saved then x.(st := x.st.(prev := st.prev)) else x, t, st.cur, false))
    {
      hide TM.SwitchStack, TM.Bound, TM.Known;
    }

    /** START_DEFAULT: `t` stands in as the running tealet, so that its fresh stack is saved, and the creator goes on. */
    method StartLater(t: Tealet, far: int, flags: TM.Flags, r: TM.Resume<Tealet?>, env: TM.Env)
      returns (code: TM.Code, moved: bool, ghost id: Stack?)
      requires store.Valid() && Safety.Ready(View()) && t in tealets && gCurrent in tealets && View().tealets.Keys >= {t}
      requires var v := View().tealets[t].(far := far, flags := flags, resume := r);
               Operations.Binds(View(), t, v)
      requires 0 <= env.sp < far && env.sp <= store.mem.Length
      modifies this, store, store.stacks, store.chunks, store.mem, gCurrent, t
      ensures store.Valid() && fresh(store.stacks - old(store.stacks)) && fresh(store.chunks - old(store.chunks))
      ensures tealets <= old(tealets) && (id != null ==> fresh(id))
      ensures var st := old(View());
              && st.cur in st.tealets && t in st.tealets
              && var v := st.tealets[t].(far := far, flags := flags, resume := r);
                 TM.Known(LaterBound(st, t, v)) && TM.StartLater(st, t, v, env, id) == TM.Xfer(View(), code, moved)
    {
      hide *;
      FieldsOf(t);
      FieldsOf(gCurrent);
      store.PlistOf();
      ghost var st := View();
      ghost var v := st.tealets[t].(far := far, flags := flags, resume := r);
      LaterReady(st, t, v);
      var creator, previous := gCurrent, gPrevious;
      BindLater(t, far, flags, r, env.sp);
      var result;
      result, moved, id := SwitchBound(creator, t, env);
      LaterIs(st, t, v, env, id);
      code := ConcludeLater(result, t, creator, previous, moved);
    }

    /** tealet_pick_initial_far: a hint can only move the far boundary out. */
    function PickInitialFar(defaultFar: int, hint: Option<int>): (far: int)
      ensures defaultFar <= far && (hint.Some? ==> hint.value <= far) && (far == defaultFar || hint == Some(far))
    {
      if hint.None? then defaultFar else Max(defaultFar, hint.value)
    }

    /** What is asked of a call of tealet_run. */
    ghost predicate CanRun(t: Tealet, far: int, now: bool, env: TM.Env)
      reads this, tealets, store, store.mem, store.stacks
    {
      Safety.Inv(View()) && TM.Known(View()) && Operations.RunAsks(View(), t, far, now, env, null)
    }

    lemma RunFacts(t: Tealet, far: int, now: bool, env: TM.Env)
      requires CanRun(t, far, now, env)
      ensures var st := View();
              && Safety.Inv(st) && TM.Known(st) && t in st.tealets && t in tealets && t.flags == st.tealets[t].flags
              && (forall s :: s in st.core.stacks ==> s != null && s in store.stacks)
              && Operations.RunAsks(st, t, far, now, env, null)
    {
      hide Safety.Inv, TealetMap;
      FieldsOf(t);
    }

    /** A new binding may go ahead once the lock has been taken. */
    lemma RunLocked(st: View, t: Tealet, far: int, flags: TM.Flags, resume: TM.Resume<Tealet?>)
      requires Safety.Inv(st) && t in st.tealets && st.tealets[t].flags == TM.NO_FLAGS && View() == TM.Lock(st)
      requires 0 < far <= |st.core.mem|
      requires flags.bound && !flags.exited && !flags.defunct && Safety.Quiet(flags)
      ensures Safety.Ready(View()) && gCurrent in tealets && View().tealets.Keys >= {t} && t in tealets
      ensures Operations.Binds(View(), t, View().tealets[t].(far := far, flags := flags))
      ensures Operations.Binds(View(), t, View().tealets[t].(far := far, flags := flags, resume := resume))
      ensures gCurrent == st.cur && st.cur in st.tealets && gCurrent.far == st.tealets[st.cur].far
      ensures store.mem.Length == |st.core.mem| && store.CoreView() == st.core && store.plist == st.core.plist
    {
      hide Safety.Solid, View, TealetMap, Store.CoreView;
      Operations.ReadyLocks(st, st.locks + [true]);
      Safety.SolidCur(st, None);
      FieldsOf(gCurrent);
      FieldsOf(t);
      store.PlistOf();
    }

    lemma RunKeeps(st: View, t: Tealet?, far: int, now: bool, env: TM.Env, id: Stack?)
      requires Safety.Inv(st) && TM.Known(st) && Operations.RunAsks(st, t, far, now, env, null) && id !in st.core.stacks
      ensures Safety.Inv(TM.Run(st, t, far, now, env, id).st) <==> Spawning.RunLegal(st, t, far, now, env)
    {
      hide Safety.Inv, Spawning.RunLegal, TM.Run;
      Spawning.RunExact(st, t, far, now, env, id);
    }

    /** tealet_run. The new stack ends at `defaultFar`, or at `hint` if that is farther. */
    method Run(t: Tealet, defaultFar: int, hint: Option<int>, now: bool, env: TM.Env)
      returns (code: TM.Code, moved: bool, ghost id: Stack?)
      requires store.Valid() && CanRun(t, PickInitialFar(defaultFar, hint), now, env)
      modifies this, store, store.stacks, store.chunks, store.mem, tealets
      ensures store.Valid() && fresh(store.stacks - old(store.stacks)) && fresh(store.chunks - old(store.chunks))
      ensures tealets <= old(tealets) && (id != null ==> fresh(id))
      ensures TM.Known(old(View())) && t in old(View()).tealets
      ensures TM.Run(old(View()), t, PickInitialFar(defaultFar, hint), now, env, id) == TM.Xfer(View(), code, moved)
      ensures Safety.Inv(View()) <==> Spawning.RunLegal(old(View()), t, PickInitialFar(defaultFar, hint), now, env)
    {
      hide CanRun, View, TealetMap, Store.Valid, Store.CoreView, Safety.Inv, Safety.Ready, TM.Known, Operations.Binds,
        TM.StartNow, TM.StartLater, Spawning.RunLegal, PickInitialFar;
      ghost var st := View();
      var far := PickInitialFar(defaultFar, hint);
      RunFacts(t, far, now, env);
      if t.flags != TM.NO_FLAGS {
        RunKeeps(st, t, far, now, env, null);
        return TM.ErrInval, false, null;
      }
      var flags := TM.NO_FLAGS.(bound := true);
      LockAuto();
      RunLocked(st, t, far, flags, TM.NotStarted(t, gCurrent));
      if now {
        code, moved, id := StartNow(t, far, flags, TM.InRun(t), env);
      } else {
        code, moved, id := StartLater(t, far, flags, TM.NotStarted(t, gCurrent), env);
      }
      RunKeeps(st, t, far, now, env, id);
    }

    /** What is asked of a call of tealet_fork. */
    ghost predicate CanFork(t: Tealet, env: TM.Env)
      reads this, tealets, store, store.mem, store.stacks
    {
      Safety.Inv(View()) && TM.Known(View()) && Operations.ForkOk(View(), t, env, null)
    }

    lemma ForkFacts(t: Tealet, env: TM.Env)
      requires CanFork(t, env)
      ensures var st := View();
              && Safety.Inv(st) && TM.Known(st) && t in st.tealets && t in tealets && t.flags == st.tealets[t].flags
              && (forall s :: s in st.core.stacks ==> s != null && s in store.stacks)
              && Operations.ForkOk(st, t, env, null)
              && gCurrent in tealets && st.cur == gCurrent && gCurrent.stack == null
              && gCurrent.far == st.tealets[st.cur].far && gCurrent.flags == st.tealets[st.cur].flags
              && (gCurrent.far == FURTHEST || 0 < gCurrent.far <= |st.core.mem|)
              && (gCurrent.far != FURTHEST ==> Above(st.core.stacks, st.core.plist, gCurrent.far))
    {
      hide TealetMap, Safety.Owned, Safety.MainOk, Safety.RestOk, Above, Staircase, ListExact, StackOk, TM.Known;
      FieldsOf(t);
      FieldsOf(gCurrent);
      Safety.SolidCur(View(), None);
    }

    lemma ForkKeeps(st: View, t: Tealet?, now: bool, env: TM.Env, id: Stack?)
      requires Safety.Inv(st) && TM.Known(st) && Operations.ForkOk(st, t, env, null) && id !in st.core.stacks
      ensures Safety.Inv(TM.Fork(st, t, now, env, id).st)
    {
      hide Safety.Inv;
      Operations.ForkInv(st, t, now, env, id);
    }

    /** tealet_fork. */
    method Fork(t: Tealet, now: bool, env: TM.Env) returns (code: TM.Code, moved: bool, ghost id: Stack?)
      requires store.Valid() && CanFork(t, env)
      modifies this, store, store.stacks, store.chunks, store.mem, tealets
      ensures store.Valid() && fresh(store.stacks - old(store.stacks)) && fresh(store.chunks - old(store.chunks))
      ensures tealets <= old(tealets) && (id != null ==> fresh(id)) && Safety.Inv(View())
      ensures TM.Known(old(View())) && t in old(View()).tealets
      ensures TM.Fork(old(View()), t, now, env, id) == TM.Xfer(View(), code, moved)
    {
      hide CanFork, View, TealetMap, Store.Valid, Store.CoreView, Safety.Inv, Safety.Ready, TM.Known, Operations.Binds,
        TM.StartNow, TM.StartLater, Above;
      ForkFacts(t, env);
      ghost var st := View();
      if t.flags != TM.NO_FLAGS {
        return TM.ErrInval, false, null;
      }
      if gCurrent.far == FURTHEST {
        return TM.ErrUnforkable, false, null;
      }
      assert gCurrent.stack == null;
      var far := gCurrent.far;
      var flags := TM.NO_FLAGS.(bound := true, forked := true, mainLineage := gCurrent.flags.mainLineage);
      LockAuto();
      RunLocked(st, t, far, flags, TM.InFork(t, gCurrent, false));
      if now {
        code, moved, id := StartNow(t, far, flags, TM.InFork(t, gCurrent, true), env);
      } else {
        code, moved, id := StartLater(t, far, flags, TM.InFork(t, gCurrent, false), env);
      }
      ForkKeeps(st, t, now, env, id);
    }

    /* ---- tealet_new, tealet_duplicate, tealet_delete, tealet_set_far ---- */

    /** tealet_alloc. */
    method Alloc() returns (t: Tealet?)
      modifies this`gTealets, this`tealets, store`ticks, store`stats
      ensures t != null ==> fresh(t) && t in tealets && tealets == old(tealets) + {t} && t.resume == TM.Unbound
      ensures t == null ==> tealets == old(tealets)
      ensures TM.AllocT(old(View()), t, TM.TealetV(0, None, TM.NO_FLAGS, TM.Unbound)) == TM.Moved(View(), t == null)
    {
      hide TealetMap, Store.CoreView;
      var ok := store.AllocBlock(tsize);
      if !ok {
        return null;
      }
      var u := new Tealet();
      t := u;
      gTealets := gTealets + 1;
      tealets := tealets + {u};
      AddedMap(u);
    }

    /** tealet_new. */
    method New() returns (t: Tealet?)
      requires Safety.Inv(View())
      modifies this`gTealets, this`tealets, this`locks, store`ticks, store`stats
      ensures t != null ==> fresh(t) && tealets == old(tealets) + {t}
      ensures t == null ==> tealets == old(tealets)
      ensures TM.New(old(View()), t) == TM.Moved(View(), t == null) && Safety.Inv(View())
    {
      hide View, Safety.Inv, TM.AllocT, TealetMap;
      ghost var st := View();
      NamesOf();
      LockAuto();
      t := Alloc();
      UnlockAuto();
      NewKeeps(st, t);
    }

    lemma NamesOf()
      ensures forall t :: t in View().tealets ==> t != null && t in tealets
      ensures forall t :: t in tealets ==> t in View().tealets
    {
    }

    lemma NewKeeps(st: View, id: Tealet?)
      requires Safety.Inv(st) && id !in st.tealets
      ensures Safety.Inv(TM.New(st, id).st)
    {
      Operations.NewInv(st, id);
    }

    /** What duplicating or deleting `t` may rely on. */
    lemma OtherFacts(t: Tealet)
      requires Safety.Inv(View()) && t in tealets
      ensures var st := View();
              && TM.Known(st) && t in st.tealets && st.cur == gCurrent && st.main == main
              && st.tealets[t].stack == SomeStack(t.stack) && (t.stack != null ==> t.stack in store.stacks)
              && st.tealets[t].far == t.far && st.tealets[t].flags == t.flags && st.tealets[t].resume == t.resume
    {
      hide TealetMap, Safety.Solid, Store.CoreView;
      Safety.SolidBasics(View(), None);
      FieldsOf(t);
      if t.stack != null {
        store.CoreAt(t.stack);
      }
    }

    /** The fields of a new tealet are copied from `t`. */
    method CopyTealet(u: Tealet, t: Tealet)
      requires u in tealets
      modifies u
      ensures u in old(View()).tealets
      ensures View() == TM.SetT(old(View()), u, TM.TealetV(old(t.far), SomeStack(old(t.stack)), old(t.flags), old(t.resume)))
    {
      hide TealetMap, Store.CoreView;
      TealetAt(u);
      u.far := t.far;
      u.flags := t.flags;
      u.stack := t.stack;
      u.resume := t.resume;
      SetAt(u);
    }

    lemma AllocTwice(st: View, id: Tealet?, v: TM.TealetV<Stack?, Tealet?>, w: TM.TealetV<Stack?, Tealet?>)
      ensures var m, m2 := TM.AllocT(st, id, v), TM.AllocT(st, id, w);
              if m.fail then m2 == m else m2 == TM.Moved(TM.SetT(m.st, id, w), false)
    {
      assert st.tealets[id := v][id := w] == st.tealets[id := w];
    }

    /** tealet_duplicate. */
    method Duplicate(t: Tealet) returns (u: Tealet?)
      requires store.Valid() && Safety.Inv(View()) && t in tealets && t != gCurrent && t != main
      modifies this`gTealets, this`tealets, this`locks, store`ticks, store`stats, store.stacks`refcount
      ensures store.Valid() && store.stacks == old(store.stacks)
      ensures u != null ==> fresh(u) && tealets == old(tealets) + {u}
      ensures u == null ==> tealets == old(tealets)
      ensures TM.Known(old(View())) && t in old(View()).tealets
      ensures TM.Duplicate(old(View()), t, u) == TM.Moved(View(), u == null) && Safety.Inv(View())
    {
      hide View, Safety.Inv, TM.AllocT, TealetMap, Store.Valid, Store.CoreView, TM.Known, SM.Dup;
      ghost var st := View();
      OtherFacts(t);
      NamesOf();
      LockAuto();
      u := AllocCopy(t);
      if u != null {
        DupStack(t);
      }
      UnlockAuto();
      DuplicateKeeps(st, t, u);
    }

    /** A new tealet with the fields of `t`, if there is memory for it. */
    method AllocCopy(t: Tealet) returns (u: Tealet?)
      requires t in tealets
      modifies this`gTealets, this`tealets, store`ticks, store`stats
      ensures u != null ==> fresh(u) && tealets == old(tealets) + {u}
      ensures u == null ==> tealets == old(tealets)
      ensures t in old(View()).tealets
      ensures TM.AllocT(old(View()), u, old(View()).tealets[t]) == TM.Moved(View(), u == null)
    {
      hide View, TM.AllocT, TealetMap, Store.CoreView;
      FieldsOf(t);
      ghost var st := View();
      u := Alloc();
      AllocTwice(st, u, TM.TealetV(0, None, TM.NO_FLAGS, TM.Unbound), st.tealets[t]);
      if u != null {
        CopyTealet(u, t);
      }
    }

    /** The stack of `t`, if it has one, gets another holder. */
    method DupStack(t: Tealet)
      requires store.Valid() && (t.stack != null ==> t.stack in store.stacks)
      modifies store.stacks`refcount
      ensures store.Valid() && View() == old(View()).(core := View().core)
      ensures t.stack == null ==> View() == old(View())
      ensures t.stack != null ==> t.stack in old(View()).core.stacks
                                  && View() == old(View()).(core := SM.Dup(old(View()).core, t.stack))
    {
      hide View, TealetMap, Store.Valid, Store.CoreView, SM.Dup;
      FieldsOf(main);
      if t.stack != null {
        store.StackDup(t.stack);
        OnlyCore();
      } else {
        SameCore(View());
      }
    }

    lemma SameCore(st: View)
      ensures st == st.(core := st.core)
    {
    }

    lemma DuplicateKeeps(st: View, t: Tealet?, id: Tealet?)
      requires Safety.Inv(st) && TM.Known(st) && t in st.tealets && t != st.cur && t != st.main && id !in st.tealets
      ensures Safety.Inv(TM.Duplicate(st, t, id).st)
    {
      hide Safety.Inv;
      Operations.DuplicateInv(st, t, id);
    }

    /** tealet_delete. */
    method Delete(t: Tealet)
      requires store.Valid() && Safety.Inv(View()) && t in tealets && t != gCurrent && t != main
      modifies this`gTealets, this`gPrevious, this`tealets, this`locks
      modifies store`gPrev, store`plist, store`stats, store`stacks
      modifies store.stacks`next, store.stacks`prev, store.stacks`refcount, store.chunks`refcount
      ensures store.Valid() && store.stacks <= old(store.stacks) && tealets == old(tealets) - {t}
      ensures TM.Known(old(View())) && t in old(View()).tealets
      ensures View() == TM.Delete(old(View()), t) && Safety.Inv(View())
    {
      hide View, Safety.Inv, TealetMap, Store.Valid, Store.CoreView, TM.Known, SM.Decref, TM.FreeT;
      ghost var st := View();
      OtherFacts(t);
      LockAuto();
      DropStack(t.stack);
      FreeTealet(t);
      UnlockAuto();
      DeleteKeeps(st, t);
    }

    method DropStack(s: Stack?)
      requires store.Valid() && (s != null ==> s in store.stacks)
      modifies store`gPrev, store`plist, store`stats, store`stacks
      modifies store.stacks`next, store.stacks`prev, store.stacks`refcount, store.chunks`refcount
      ensures store.Valid() && store.stacks <= old(store.stacks)
      ensures s == null ==> View() == old(View())
      ensures s != null ==> s in old(View()).core.stacks
                            && View() == old(View()).(core := SM.Decref(old(View()).core, s))
    {
      hide TealetMap, Store.Valid, Store.CoreView, SM.Decref;
      store.StackDecref(s);
    }

    lemma DeleteKeeps(st: View, t: Tealet?)
      requires Safety.Inv(st) && TM.Known(st) && t in st.tealets && t != st.cur && t != st.main
      ensures Safety.Inv(TM.Delete(st, t))
    {
      hide Safety.Inv;
      Operations.DeleteInv(st, t);
    }

    /** tealet_set_far. */
    method SetFar(t: Tealet, far: int) returns (code: TM.Code)
      requires t in tealets && main in tealets
      modifies t`far
      ensures t in old(View()).tealets
      ensures var x := TM.SetFar(old(View()), t, far); code == x.code && View() == x.st
      ensures old(Safety.Inv(View())) ==>
                main in old(View()).tealets && (Safety.Inv(View()) <==> t != main || Operations.FarFits(old(View()), far))
    {
      hide View, Safety.Inv, Operations.FarFits;
      ghost var st := View();
      FieldsOf(t);
      FieldsOf(main);
      if t != main {
        return TM.ErrInval;
      }
      MoveFar(far);
      if Safety.Inv(st) {
        Operations.SetFarInv(st, far);
      }
      code := TM.Ok;
    }

    method MoveFar(far: int)
      requires main in tealets
      modifies main`far
      ensures main in old(View()).tealets && View() == TM.SetFar(old(View()), main, far).st
    {
      hide TealetMap, Store.CoreView;
      TealetAt(main);
      main.far := far;
      SetAt(main);
    }

    /** User code of the running tealet stores one byte on its own part of the stack. */
    method UserWrite(at: int, b: byte)
      requires store.Valid() && Safety.Inv(View()) && gCurrent in tealets
      requires 0 <= at < store.mem.Length && at < gCurrent.far
      modifies store.mem
      ensures store.Valid() && View() == TM.Write(old(View()), at, b) && Safety.Inv(View())
    {
      hide Safety.Inv, TealetMap, Store.Valid, Store.StackMap;
      WriteKeeps(at, b);
      store.mem[at] := b;
      assert store.mem[..] == Patch(old(store.mem[..]), at, [b]);
    }

    lemma WriteKeeps(at: int, b: byte)
      requires Safety.Inv(View()) && gCurrent in tealets && 0 <= at < store.mem.Length && at < gCurrent.far
      ensures Safety.Inv(TM.Write(View(), at, b))
    {
      hide Safety.Inv, TealetMap;
      FieldsOf(gCurrent);
      store.PlistOf();
      CurKnown(View());
      Operations.WriteInv(View(), at, b);
    }

    lemma CurKnown(st: View)
      requires Safety.Inv(st)
      ensures st.cur in st.tealets
    {
      hide Safety.Solid;
      Safety.SolidCur(st, None);
    }

    /* ---- tealet_get_stats ---- */

    /** What one tealet adds to the expanded and to the naive size. */
    method SizesOf(t: Tealet) returns (expanded: int, naive: int)
      requires store.Valid() && Safety.Inv(View()) && t in tealets
      ensures expanded == Accounting.ExpandedOf(View(), t) && naive == Accounting.NaiveOf(View(), t)
    {
      hide Safety.Inv, View, Store.Valid, SM.StackBytes, SM.StackV.Bytes, Tiled;
      expanded, naive := 0, 0;
      OtherFacts(t);
      var s := t.stack;
      if s != null {
        SavedFacts(t);
        store.ChainAt(s);
        store.FirstOf(s);
        hide Stack.ChainOk, Stack.Record;
        var effectiveFar := s.far;
        if s.far == FURTHEST {
          effectiveFar := s.EffectiveFar();
        }
        naive := SM.STACK_HDR + effectiveFar - s.chunk.near;
        expanded := s.ExpandedSize();
      }
    }

    lemma SavedFacts(t: Tealet)
      requires Safety.Inv(View()) && t in tealets && t.stack != null
      ensures var st := View(); var s := t.stack;
              && t in st.tealets && st.tealets[t].stack == Some(s) && s in store.stacks
              && s in st.core.stacks && st.core.stacks[s] == s.Record() && Tiled(s.Record())
    {
      hide TealetMap, Store.CoreView, Safety.CoreOk, Safety.Owned, Safety.RestOk, Safety.MainOk, Tiled;
      OtherFacts(t);
      store.CoreAt(t.stack);
      SolidStacks(View());
    }

    lemma SolidStacks(st: View)
      requires Safety.Inv(st)
      ensures forall s :: s in st.core.stacks ==> Tiled(st.core.stacks[s])
    {
      hide Tiled, Staircase, Above, ListExact;
    }

    /** The sums over the tealets in `part`. */
    ghost function ExpandedIn(st: View, part: set<Tealet?>): int {
      Accounting.Sum(part, t => Accounting.ExpandedOf(st, t))
    }

    ghost function NaiveIn(st: View, part: set<Tealet?>): int {
      Accounting.Sum(part, t => Accounting.NaiveOf(st, t))
    }

    lemma TakeOne(st: View, part: set<Tealet?>, t: Tealet?)
      requires t in part
      ensures ExpandedIn(st, part) == Accounting.ExpandedOf(st, t) + ExpandedIn(st, part - {t})
      ensures NaiveIn(st, part) == Accounting.NaiveOf(st, t) + NaiveIn(st, part - {t})
    {
      Accounting.SumPick(part, t => Accounting.ExpandedOf(st, t), t);
      Accounting.SumPick(part, t => Accounting.NaiveOf(st, t), t);
    }

    lemma TakeNone(st: View)
      ensures ExpandedIn(st, {}) == 0 && NaiveIn(st, {}) == 0
      ensures ExpandedIn(st, st.tealets.Keys) == Accounting.Expanded(st)
      ensures NaiveIn(st, st.tealets.Keys) == Accounting.Naive(st)
    {
    }

    /** tealet_get_stats: the sizes that are computed by walking over all tealets. */
    method GetStats() returns (expanded: int, naive: int)
      requires store.Valid() && Safety.Inv(View())
      ensures expanded == Accounting.Expanded(View()) && naive == Accounting.Naive(View())
    {
      hide Safety.Inv, View, Store.Valid, TealetMap, ExpandedIn, NaiveIn, Accounting.Expanded, Accounting.Naive,
        Accounting.ExpandedOf, Accounting.NaiveOf;
      ghost var st := View();
      NamesOf();
      TakeNone(st);
      expanded, naive := 0, 0;
      var todo := tealets;
      ghost var left: set<Tealet?> := st.tealets.Keys;
      while todo != {}
        invariant todo <= tealets && forall t :: t in left <==> t != null && t in todo
        invariant expanded == ExpandedIn(st, st.tealets.Keys) - ExpandedIn(st, left)
        invariant naive == NaiveIn(st, st.tealets.Keys) - NaiveIn(st, left)
        decreases |todo|
      {
        var t :| t in todo;
        var thisExpanded, thisNaive := SizesOf(t);
        TakeOne(st, left, t);
        expanded, naive := expanded + thisExpanded, naive + thisNaive;
        todo, left := todo - {t}, left - {t};
      }
      assert left == {};
    }
  }
}
