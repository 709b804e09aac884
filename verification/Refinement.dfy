/** The shared C stack behaves like private stacks: every tealet finds its stack as it left it. */
module Refinement {
  import opened Base
  import opened StackModel
  import opened StackProofs
  import opened Growth
  import opened TransferModel
  import opened Safety
  import opened Operations

  /* ---- the meaning of one stack ---- */

  /** In c2 every stack of c that is still alive means what it meant in c, unless it was given up. */
  ghost predicate Means<S>(c: Core<S>, c2: Core<S>, s: S)
    requires s in c.stacks && s in c2.stacks
  {
    c2.stacks[s].defunct
    || (&& !c.stacks[s].defunct
        && c2.stacks[s].first.near == c.stacks[s].first.near
        && c2.stacks[s].far == c.stacks[s].far
        && ImageOf(c2.stacks[s], c2.mem) == ImageOf(c.stacks[s], c.mem))
  }

  lemma FollowsMeans<S>(c: Core<S>, c2: Core<S>, s: S)
    requires StacksOk(c) && StacksOk(c2) && Follows(c, c2) && s in c.stacks
    ensures Means(c, c2, s)
  {
    hide Tiled, Concat, StackV.Bytes, Slice;
    if !c2.stacks[s].defunct {
      KinNotDefunct(c.stacks[s], c2.stacks[s], c.mem);
      KinImage(c.stacks[s], c2.stacks[s], c.mem);
    }
  }

  lemma KinNotDefunct(v: StackV, v2: StackV, mem: seq<byte>)
    requires Kin(v, v2, mem) && !v2.defunct
    ensures !v.defunct && v2.first == v.first && v2.far == v.far
  {
    hide StackV.Bytes, Slice;
  }

  /** A copy below a stack's saved edge does not reach what is still in place above it. */
  lemma PatchBelow(mem: seq<byte>, at: int, bytes: seq<byte>, lo: int, hi: int)
    requires 0 <= at && at + |bytes| <= lo && at + |bytes| <= |mem|
    ensures Slice(Patch(mem, at, bytes), lo, hi) == Slice(mem, lo, hi)
  {
    var p := Patch(mem, at, bytes);
    if 0 <= lo <= hi <= |mem| {
      forall i | lo <= i < hi ensures p[i] == mem[i] {
        assert p[i] == mem[at + |bytes|..][i - (at + |bytes|)];
      }
      assert p[lo..hi] == mem[lo..hi];
    }
  }

  /** A stack that is not half saved has nothing left on the C stack. */
  lemma SavedImage(v: StackV, mem: seq<byte>)
    requires StackOk(v, |mem|) && !v.defunct && !v.Partial() && |mem| < FURTHEST
    ensures ImageOf(v, mem) == v.Bytes()
  {
    hide Tiled, Concat;
    assert v.far <= |mem| && v.Edge() == v.far;
    assert Slice(mem, v.Edge(), v.far) == [];
  }

  /** Restoring one stack below `b` keeps the meaning of every other stack. */
  lemma RestoreOthers<S>(c: Core<S>, b: int, s: S, u: S)
    requires CoreOk(c, b, Some(s)) && s in c.stacks && u in c.stacks && u != s && c.stacks[s].far <= b
    ensures !c.stacks[u].defunct ==> ImageOf(c.stacks[u], Restore(c, s).mem) == ImageOf(c.stacks[u], c.mem)
  {
    hide Tiled, Concat, Staircase;
    var v, w := c.stacks[s], c.stacks[u];
    RestoreChunksIsPatch(c.mem, v);
    var mem2 := Patch(c.mem, v.first.near, v.Bytes());
    assert |mem2| == |c.mem|;
    if !w.defunct {
      if w.Partial() {
        ListedEdge(c, b, Some(s), u);
        PatchBelow(c.mem, v.first.near, v.Bytes(), w.Edge(), End(w.far, |c.mem|));
      } else {
        SavedImage(w, c.mem);
        SavedImage(w, mem2);
      }
    }
  }

  lemma ListedEdge<S>(c: Core<S>, b: int, y: Option<S>, u: S)
    requires CoreOk(c, b, y) && u in c.stacks && y != Some(u) && c.stacks[u].Partial()
    ensures b <= c.stacks[u].Edge()
  {
    hide StackOk, Staircase;
    assert u in c.plist;
  }

  lemma PatchSlice(mem: seq<byte>, at: int, bytes: seq<byte>, hi: int)
    requires 0 <= at && at + |bytes| <= hi <= |mem|
    ensures |Patch(mem, at, bytes)| == |mem|
    ensures Slice(Patch(mem, at, bytes), at, hi) == bytes + Slice(mem, at + |bytes|, hi)
  {
    var p := Patch(mem, at, bytes);
    assert p[at..hi] == bytes + mem[at + |bytes|..hi];
  }

  /* ---- what a transfer does to each tealet ---- */

  /** The private stack of a suspended tealet: all bytes from its stack pointer to its boundary. */
  datatype Image = Image(near: int, bytes: seq<byte>)

  ghost function ImageIn<S, T>(st: State<S, T>, t: T): Option<Image> {
    if t in st.tealets && st.tealets[t].stack.Some? && st.tealets[t].stack.value in st.core.stacks
       && !st.core.stacks[st.tealets[t].stack.value].defunct then
      var v := st.core.stacks[st.tealets[t].stack.value];
      Some(Image(v.first.near, ImageOf(v, st.core.mem)))
    else None
  }

  /** tealet_status reports DEFUNCT. */
  ghost predicate Broken<S, T>(st: State<S, T>, t: T) {
    t in st.tealets
    && (st.tealets[t].flags.defunct
        || (st.tealets[t].stack.Some? && st.tealets[t].stack.value in st.core.stacks
            && st.core.stacks[st.tealets[t].stack.value].defunct))
  }

  /** `u` is as resumable in st2 as in st, or it is lost and st2 says so. */
  ghost predicate Kept<S, T>(st: State<S, T>, st2: State<S, T>, u: T, lost: bool) {
    && u in st2.tealets
    && if lost then Broken(st2, u) && ImageIn(st2, u).None?
       else ImageIn(st2, u) == ImageIn(st, u) && (Broken(st2, u) <==> Broken(st, u))
  }

  /** The growth step of a transfer to `t` gives up the stack of `u`: it is listed, growing gets to it, the transfer is
      forced by somebody else than main, and the request at its place on the list is refused. */
  ghost predicate Dooms<S, T>(st: State<S, T>, t: T, failOk: bool, u: T)
    requires Known(st) && t in st.tealets
  {
    && u in st.tealets && Listed(st.core.plist, st.tealets[u].stack)
    && GivenUp(st.core, st.core.plist, Position(st.core.plist, st.tealets[u].stack.value), Asked(st, t), failOk,
               st.tealets[st.main].stack)
  }

  /** The growth step gives up the stacks whose requests are refused, and keeps every other tealet. */
  lemma GrowKeeps<S, T>(st: State<S, T>, x: Option<T>, t: T, u: T)
    requires Solid(st, x) && CanReach(st, x, t) && u in st.tealets && u != st.cur
    ensures Known(st)
    ensures Kept(st, st.(core := GrowFor(st, t).core), u, Dooms(st, t, FailOk(st), u))
  {
    hide RestOk, MainOk, Owned, RunnerOk, StackOk, GrowFor, Kin, ImageOf, GivenUp, Asked, FailOk, StackV.Partial, Followed;
    SolidBasics(st, x);
    var v, c := st.tealets[u], st.core;
    if v.stack.Some? {
      GrowMeans(st, x, t, v.stack.value);
      RestShape(st, x, u);
      if v.stack.value in c.plist {
        GrowRefuses(st, x, t, Position(c.plist, v.stack.value));
      }
    }
  }

  lemma GrowMeans<S, T>(st: State<S, T>, x: Option<T>, t: T, s: S)
    requires Solid(st, x) && CanReach(st, x, t) && s in st.core.stacks
    ensures Known(st) && s in GrowFor(st, t).core.stacks && Means(st.core, GrowFor(st, t).core, s)
    ensures GrowFor(st, t).core.mem == st.core.mem
    ensures s !in st.core.plist ==> GrowFor(st, t).core.stacks[s] == st.core.stacks[s]
  {
    hide RestOk, MainOk, Owned, RunnerOk, StackOk, GrowFor, Kin, ImageOf, Means;
    SolidBasics(st, x);
    GrowStep(st, x, t);
    FollowsMeans(st.core, GrowFor(st, t).core, s);
  }

  lemma RestShape<S, T>(st: State<S, T>, x: Option<T>, u: T)
    requires Solid(st, x) && u in st.tealets && u != st.cur && st.tealets[u].stack.Some?
    ensures var v := st.tealets[u];
            v.stack.value in st.core.stacks && (v.flags.defunct ==> st.core.stacks[v.stack.value].defunct)
  {
    hide CoreOk, Owned, MainOk;
    assert x != Some(u);
    assert RestOk(st, u);
  }

  /** The k-th listed stack is given up exactly when it was to be. */
  lemma GrowRefuses<S, T>(st: State<S, T>, x: Option<T>, t: T, k: nat)
    requires Solid(st, x) && CanReach(st, x, t) && k < |st.core.plist|
    ensures Known(st) && st.core.plist[k] in st.core.stacks && !st.core.stacks[st.core.plist[k]].defunct
    ensures GrowFor(st, t).core.stacks[st.core.plist[k]].defunct
            <==> GivenUp(st.core, st.core.plist, k, Asked(st, t), FailOk(st), st.tealets[st.main].stack)
  {
    hide RestOk, MainOk, Owned, RunnerOk, StackOk, GrowList, GivenUp, GrowPre, FailOk, Requests;
    SolidBasics(st, x);
    TransferPre(st, x, t);
    StaircaseKnown(st.core);
    var c, v := st.core, st.tealets[t];
    GrowListGivesUp(c, c.plist, v.far, v.stack, FailOk(st), st.tealets[st.main].stack);
  }

  /** Saving the current stack, or not, touches no other tealet and no other stack. */
  lemma SaveLeaves<S, T>(st: State<S, T>, x: Option<T>, t: T, sp: int, id: S)
    requires Solid(st, x) && CanReach(st, x, t) && id !in st.core.stacks
    ensures var c := GrowFor(st, t).core; var m := SaveState(st, t, sp, id);
            && m.st.core.mem == st.core.mem
            && (forall s :: s in c.stacks ==> s in m.st.core.stacks && m.st.core.stacks[s] == c.stacks[s])
            && (forall u :: u in st.tealets && u != st.cur ==> u in m.st.tealets && m.st.tealets[u] == st.tealets[u])
  {
    hide Solid, GrowFor, FailOk, SaveCurrent, ExitCurrent;
    SolidBasics(st, x);
    GrownSame(st, x, t);
    var g := GrowFor(st, t);
    var v := st.tealets[st.cur];
    var st1 := SetT(st, st.cur, v.(flags := v.flags.(saveforce := false))).(core := g.core);
    CurrentLeaves(st1, sp, st.tealets[t].far, FailOk(st), id);
  }

  lemma CurrentLeaves<S, T>(st: State<S, T>, sp: int, stop: int, failOk: bool, id: S)
    requires st.cur in st.tealets && id !in st.core.stacks
    ensures var m := SaveCurrent(st, sp, stop, failOk, id);
            && m.st.core.mem == st.core.mem
            && (forall s :: s in st.core.stacks ==> s in m.st.core.stacks && m.st.core.stacks[s] == st.core.stacks[s])
            && (forall u :: u in st.tealets && u != st.cur ==> u in m.st.tealets && m.st.tealets[u] == st.tealets[u])
    ensures var e := ExitCurrent(st);
            && e.core.mem == st.core.mem && e.core.stacks == st.core.stacks
            && (forall u :: u in st.tealets && u != st.cur ==> u in e.tealets && e.tealets[u] == st.tealets[u])
  {
  }

  lemma SaveKeeps<S, T>(st: State<S, T>, x: Option<T>, t: T, sp: int, id: S, u: T)
    requires Solid(st, x) && CanReach(st, x, t) && u in st.tealets && u != st.cur && id !in st.core.stacks
    ensures var st1 := st.(core := GrowFor(st, t).core); var m := SaveState(st, t, sp, id);
            && u in m.st.tealets && ImageIn(m.st, u) == ImageIn(st1, u) && (Broken(m.st, u) <==> Broken(st1, u))
  {
    hide RestOk, MainOk, Owned, CoreOk, GrowFor, ImageOf, SaveState;
    GrownSame(st, x, t);
    SolidBasics(st, x);
    SaveLeaves(st, x, t, sp, id);
  }

  /** The tealet that just stopped running is suspended with all of its stack, or, when the transfer is forced and the
      request for its memory is refused, marked defunct. */
  lemma SaveSuspends<S, T>(st: State<S, T>, x: Option<T>, t: T, env: Env, id: S)
    requires Solid(st, x) && CanReach(st, x, t) && EnvOk(st, env, id) && Signals(st)
    requires !SaveState(st, t, env.sp, id).fail && !st.tealets[st.cur].flags.exiting
    ensures Known(st) && Suspended(st, SaveState(st, t, env.sp, id).st, env.sp, LosesCaller(st, t, FailOk(st), false))
  {
    hide RestOk, MainOk, Owned, CoreOk, GrowFor, Above, Handed, Asked, SaveCurrent, ImageIn, Broken, FailOk;
    GrownSame(st, x, t);
    SolidBasics(st, x);
    SavedGrows(st, t, env.sp, id);
    GrownIntro(st, x, t);
    GrowForEnds(st, x, t);
    var v := st.tealets[st.cur];
    var st1 := SetT(st, st.cur, v.(flags := v.flags.(saveforce := false))).(core := GrowFor(st, t).core);
    CurCanSave(st1, x, t, env.sp);
    CurrentSuspends(st1, env.sp, st.tealets[t].far, FailOk(st), id);
    CurrentRefused(st1, env.sp, st.tealets[t].far, FailOk(st), id);
  }

  /** What saving the running tealet, after the growth step, makes of it. */
  lemma CurrentSuspends<S, T>(st: State<S, T>, sp: int, stop: int, failOk: bool, id: S)
    requires st.cur in st.tealets && !st.tealets[st.cur].flags.defunct && st.tealets[st.cur].stack.None?
    requires CanSave(|st.core.mem|, sp, st.tealets[st.cur].far, stop) && !SaveCurrent(st, sp, stop, failOk, id).fail
    ensures Suspended(st, SaveCurrent(st, sp, stop, failOk, id).st, sp, !st.core.alloc(st.core.ticks))
  {
    hide SaveTo, SavedRecord, ImageOf;
    var far := st.tealets[st.cur].far;
    SaveToAlloc(st.core, id, sp, far, stop);
    if st.core.alloc(st.core.ticks) {
      SaveToRecord(st.core, id, sp, far, stop);
      RecordImage(st.core.mem, sp, far, stop);
    }
  }

  lemma CurrentRefused<S, T>(st: State<S, T>, sp: int, stop: int, failOk: bool, id: S)
    requires st.cur in st.tealets
    ensures SaveCurrent(st, sp, stop, failOk, id).fail <==> failOk && !st.core.alloc(st.core.ticks)
  {
  }

  /** The caller of a transfer to `t` is given up: the transfer is forced, and the request for its stack is refused. */
  ghost predicate LosesCaller<S, T>(st: State<S, T>, t: T, failOk: bool, isExit: bool)
    requires Known(st) && t in st.tealets
  {
    !failOk && !isExit && !st.core.alloc(st.core.ticks + Asked(st, t))
  }

  /** The tealet that was running is suspended in st2 with every byte from `sp` to its boundary, or it is lost. */
  ghost predicate Suspended<S, T>(st: State<S, T>, st2: State<S, T>, sp: int, lost: bool)
    requires st.cur in st.tealets
  {
    && st.cur in st2.tealets && (Broken(st2, st.cur) <==> lost)
    && ImageIn(st2, st.cur)
       == if lost then None else Some(Image(sp, Slice(st.core.mem, sp, End(st.tealets[st.cur].far, |st.core.mem|))))
  }

  /** The record of a freshly saved stack means everything from the stack pointer to the boundary. */
  lemma RecordImage(mem: seq<byte>, sp: int, far: int, stop: int)
    requires CanSave(|mem|, sp, far, stop)
    ensures var v := SavedRecord(mem, sp, far, stop);
            v.first.near == sp && !v.defunct && ImageOf(v, mem) == Slice(mem, sp, End(far, |mem|))
  {
    var v := SavedRecord(mem, sp, far, stop);
    assert v.Bytes() == v.first.data;
    SliceSplit(mem, sp, v.Edge(), End(far, |mem|));
  }

  /** Restoring the target keeps every other tealet. */
  lemma RestoreKeeps<S, T>(st: State<S, T>, t: T, u: T)
    requires Handed(st, t) && st.tealets[t].stack.Some? && u in st.tealets && u != t
    ensures var st2 := RestoreState(st, t);
            u in st2.tealets && ImageIn(st2, u) == ImageIn(st, u) && (Broken(st2, u) <==> Broken(st, u))
  {
    hide MainOk, StackOk, ImageOf, Staircase, Above, ListExact, Restore, StacksOk, Decref;
    var s := st.tealets[t].stack.value;
    assert RestOk(st, u);
    if st.tealets[u].stack.Some? {
      var w := st.tealets[u].stack.value;
      RestoredCore(st.core, st.tealets[t].far, s);
      DecrefRecords(Restore(st.core, s), s);
      if w == s {
        Shared(st, t, u);
        SharedRestore(st.core, st.tealets[t].far, s);
      } else {
        RestoreOthers(st.core, st.tealets[t].far, s, w);
      }
    }
  }

  lemma DecrefRecords<S>(c: Core<S>, s: S)
    requires s in c.stacks
    ensures var c2 := Decref(c, s);
            && c2.mem == c.mem
            && (forall u :: u in c.stacks && u != s ==> u in c2.stacks && c2.stacks[u] == c.stacks[u])
            && (c.stacks[s].refcount > 1 ==> s in c2.stacks
                                             && c2.stacks[s] == c.stacks[s].(refcount := c.stacks[s].refcount - 1))
  {
  }

  /** A shared target is wholly on the heap, so putting it back does not change what its other holders will find. */
  lemma SharedRestore<S>(c: Core<S>, b: int, s: S)
    requires CoreOk(c, b, Some(s)) && s in c.stacks && c.stacks[s].refcount > 1
    ensures var v := c.stacks[s].(refcount := c.stacks[s].refcount - 1);
            !v.defunct ==> ImageOf(v, Restore(c, s).mem) == ImageOf(c.stacks[s], c.mem)
  {
    hide Staircase, Above, ListExact, Tiled, Concat;
    var v := c.stacks[s];
    RestoredCore(c, b, s);
    SameRecord(v, v.refcount - 1, |c.mem|);
    if !v.defunct {
      SavedImage(v, c.mem);
      SavedImage(v.(refcount := v.refcount - 1), Restore(c, s).mem);
    }
  }

  /* ---- what the target finds ---- */

  /** What restoring a record leaves between its near edge and its boundary. */
  lemma RestoredBytes<S>(c: Core<S>, s: S)
    requires StacksOk(c) && s in c.stacks
    ensures var v := c.stacks[s]; var n := |c.mem|; var m2 := Restore(c, s).mem;
            && |m2| == n
            && Slice(m2, v.first.near, End(v.far, n)) == v.Bytes() + Slice(c.mem, v.first.near + |v.Bytes()|, End(v.far, n))
  {
    hide Tiled, Concat;
    var v := c.stacks[s];
    RestoreChunksIsPatch(c.mem, v);
    PatchSlice(c.mem, v.first.near, v.Bytes(), End(v.far, |c.mem|));
  }

  /** The bytes of a record that giving it up throws away still stand on the C stack. */
  ghost predicate DroppedStillThere(v: StackV, mem: seq<byte>) {
    Slice(mem, v.first.near + |v.first.data|, v.Edge()) == Concat(v.more)
  }

  lemma CatCancel<A>(x: seq<A>, y: seq<A>, y2: seq<A>, z: seq<A>)
    requires |y| == |y2|
    ensures x + y + z == x + (y2 + z) <==> y == y2
  {
    if x + y + z == x + (y2 + z) {
      assert y == (x + y + z)[|x|..|x| + |y|] == (x + (y2 + z))[|x|..|x| + |y2|] == y2;
    }
  }

  /** A target that has not been given up finds its stack as it was; one that was given up does so exactly when the
      bytes that were thrown away happen to be in place. */
  lemma TargetFinds<S>(c: Core<S>, c2: Core<S>, s: S)
    requires StacksOk(c) && StacksOk(c2) && s in c.stacks && s in c2.stacks && c2.mem == c.mem
    requires Kin(c.stacks[s], c2.stacks[s], c.mem) && !c.stacks[s].defunct
    ensures var v := c.stacks[s]; var n := |c.mem|;
            |Restore(c2, s).mem| == n
            && (Slice(Restore(c2, s).mem, v.first.near, End(v.far, n)) == ImageOf(v, c.mem)
                <==> (!c2.stacks[s].defunct || DroppedStillThere(v, c.mem)))
  {
    hide Tiled, Concat, Restore;
    var v, v2, n := c.stacks[s], c2.stacks[s], |c.mem|;
    RestoredBytes(c2, s);
    if v2.defunct {
      assert v2.Bytes() == v.first.data by { GivenUpBytes(v, v2); }
      var near := v.first.near + |v.first.data|;
      SliceSplit(c.mem, near, v.Edge(), End(v.far, n));
      CatCancel(v.first.data, Concat(v.more), Slice(c.mem, near, v.Edge()), Slice(c.mem, v.Edge(), End(v.far, n)));
    } else {
      KinImage(v, v2, c.mem);
      assert v2.Edge() == v2.first.near + |v2.Bytes()|;
    }
  }

  lemma GivenUpBytes(v: StackV, v2: StackV)
    requires v2.first == v.first && v2.more == []
    ensures v2.Bytes() == v.first.data
  {
  }

  /* ---- a whole transfer ---- */

  /** A transfer to `t` does not give up its own target, or giving it up loses nothing. `failOk` says that the caller
      does not force the transfer, or is main. */
  ghost predicate Intact<S, T>(st: State<S, T>, t: T, failOk: bool)
    requires Known(st) && t in st.tealets
  {
    st.tealets[t].stack.Some? ==>
      var s := st.tealets[t].stack.value;
      !GivesUp(st.core, s, failOk) || DroppedStillThere(st.core.stacks[s], st.core.mem)
  }

  ghost predicate TargetIntact<S, T>(st: State<S, T>, t: T)
    requires Known(st) && t in st.tealets
  {
    Intact(st, t, FailOk(st))
  }

  /** The growth step gives the target up exactly when it is listed and shared, the transfer is forced by a tealet other
      than main, and the allocator refuses the request for it. */
  lemma GivenUpIs<S, T>(st: State<S, T>, x: Option<T>, t: T)
    requires Solid(st, x) && CanReach(st, x, t) && st.tealets[t].stack.Some? && !GrowFor(st, t).fail
    ensures Known(st)
    ensures var s := st.tealets[t].stack.value; GrowFor(st, t).core.stacks[s].defunct <==> GivesUp(st.core, s, FailOk(st))
  {
    hide RestOk, MainOk, Owned, CoreOk, GrowList, Ends, CanGrow, Requests, FailOk, GrowPre, StackV.Partial, StackOk, Kin;
    SolidBasics(st, x);
    TransferPre(st, x, t);
    var c, s := st.core, st.tealets[t].stack.value;
    if s in c.plist {
      TornListed(st, x, t);
    } else {
      GrowListFollows(c, c.plist, st.tealets[t].far, st.tealets[t].stack, FailOk(st), st.tealets[st.main].stack);
    }
  }

  lemma TornListed<S, T>(st: State<S, T>, x: Option<T>, t: T)
    requires Solid(st, x) && CanReach(st, x, t) && !GrowFor(st, t).fail
    requires Listed(st.core.plist, st.tealets[t].stack)
    ensures Known(st)
    ensures var s := st.tealets[t].stack.value; GrowFor(st, t).core.stacks[s].defunct <==> GivesUp(st.core, s, FailOk(st))
  {
    hide Solid, GrowList, GrowPre, FailOk, StackV.Partial, Asked;
    SolidBasics(st, x);
    TransferPre(st, x, t);
    GrowForEnds(st, x, t);
    AskedListed(st, x, t);
    TargetEnds(st.core, st.tealets[t].far, st.tealets[t].stack);
    var c, s := st.core, st.tealets[t].stack.value;
    var k := Position(c.plist, s);
    GrowListTorn(c, c.plist, k, FailOk(st), st.tealets[st.main].stack);
    if c.stacks[s].refcount > 1 {
      assert !Stuck(c, c.plist, k, FailOk(st), st.tealets[st.main].stack);
    }
  }

  lemma TargetEnds<S>(c: Core<S>, stop: int, target: Option<S>)
    requires GrowPre(c, c.plist, stop, target) && Listed(c.plist, target)
    ensures target.value in c.stacks && c.stacks[target.value].far == stop
  {
    hide StackOk;
    PreListed(c, c.plist, stop, target);
  }

  /** Images and status depend on the stacks and the tealets only. */
  lemma ImageCong<S, T>(st: State<S, T>, st2: State<S, T>, u: T)
    requires st2.core == st.core && st2.tealets == st.tealets
    ensures ImageIn(st2, u) == ImageIn(st, u) && Broken(st2, u) == Broken(st, u)
  {
  }

  /** The save half of a transfer keeps every tealet but the one it suspends. */
  lemma SaveStateKeeps<S, T>(st: State<S, T>, x: Option<T>, t: T, sp: int, id: S, u: T)
    requires Solid(st, x) && CanReach(st, x, t) && u in st.tealets && u != st.cur && id !in st.core.stacks
    ensures Known(st) && Kept(st, SaveState(st, t, sp, id).st, u, Dooms(st, t, FailOk(st), u))
  {
    hide Solid, CanReach, ImageIn, Broken, SaveState, GrowFor, Dooms;
    GrowKeeps(st, x, t, u);
    SaveKeeps(st, x, t, sp, id, u);
  }

  /** What a transfer that takes place does to a tealet that neither stops nor starts running: it is kept, unless the
      transfer is forced and the request for its stack is refused. */
  lemma SwitchStackKeeps<S, T>(st: State<S, T>, x: Option<T>, t: T, env: Env, id: S, u: T)
    requires Solid(st, x) && t in st.tealets && t != st.cur && (x == Some(t) || x.None?)
    requires st.tealets[t].flags.bound && EnvOk(st, env, id) && Signals(st)
    requires SwitchStack(st, t, env, id).moved && u in st.tealets && u != t && u != st.cur
    ensures Known(st) && Kept(st, SwitchStack(st, t, env, id).st, u, Dooms(st, t, FailOk(st), u))
  {
    hide Solid, CanReach, ImageIn, Broken, SaveState, RestoreState, Signals, Handed, Dooms;
    SolidBasics(st, x);
    var st1 := st.(prev := Some(st.cur), target := Some(t));
    SolidCong(st, st1, x);
    CanReachIntro(st1, x, t);
    SaveStateKeeps(st1, x, t, env.sp, id, u);
    DoomsCong(st, st1, t);
    ImageCong(st, st1, u);
    SaveStateSafe(st1, x, t, env, id) by { SignalsCong(st, st1); }
    var m := SaveState(st1, t, env.sp, id);
    SaveStateFrame(st1, t, env.sp, id);
    var r := SwitchStack(st, t, env, id);
    if m.st.tealets[t].stack.Some? {
      RestoreKeeps(m.st, t, u);
      ImageCong(RestoreState(m.st, t), r.st, u);
    } else {
      ImageCong(m.st, r.st, u);
    }
  }

  lemma DoomsCong<S, T>(st: State<S, T>, st2: State<S, T>, t: T)
    requires Known(st) && Known(st2) && t in st.tealets
    requires st2.core == st.core && st2.tealets == st.tealets && st2.cur == st.cur && st2.main == st.main
    ensures FailOk(st2) == FailOk(st) && Asked(st2, t) == Asked(st, t)
    ensures forall failOk, u :: Dooms(st2, t, failOk, u) == Dooms(st, t, failOk, u)
    ensures forall failOk, isExit :: LosesCaller(st2, t, failOk, isExit) == LosesCaller(st, t, failOk, isExit)
  {
    hide GivenUp, Requests;
  }

  lemma SignalsCong<S, T>(st: State<S, T>, st2: State<S, T>)
    requires st.cur in st.tealets && Signals(st)
    requires st2.tealets == st.tealets && st2.cur == st.cur && st2.main == st.main
    ensures Signals(st2)
  {
  }

  /** The tealet that calls switch is suspended with every byte of its stack from the stack pointer on, or is reported
      defunct, exactly when the transfer is forced and the request for its stack is refused. */
  lemma SwitchStackSuspends<S, T>(st: State<S, T>, x: Option<T>, t: T, env: Env, id: S)
    requires Solid(st, x) && t in st.tealets && t != st.cur && (x == Some(t) || x.None?)
    requires st.tealets[t].flags.bound && EnvOk(st, env, id) && Signals(st)
    requires SwitchStack(st, t, env, id).moved && !st.tealets[st.cur].flags.exiting
    ensures Known(st) && Suspended(st, SwitchStack(st, t, env, id).st, env.sp, LosesCaller(st, t, FailOk(st), false))
  {
    hide Solid, CanReach, ImageIn, Broken, SaveState, RestoreState, Signals, Handed, LosesCaller;
    SolidBasics(st, x);
    var st1 := st.(prev := Some(st.cur), target := Some(t));
    SolidCong(st, st1, x);
    CanReachIntro(st1, x, t);
    SignalsCong(st, st1);
    SaveSuspends(st1, x, t, env, id);
    DoomsCong(st, st1, t);
    SaveStateSafe(st1, x, t, env, id);
    var m := SaveState(st1, t, env.sp, id);
    SaveStateFrame(st1, t, env.sp, id);
    var r := SwitchStack(st, t, env, id);
    if m.st.tealets[t].stack.Some? {
      RestoreKeeps(m.st, t, st.cur);
      ImageCong(RestoreState(m.st, t), r.st, st.cur);
    } else {
      ImageCong(m.st, r.st, st.cur);
    }
  }

  /** Saving does not touch the record of the target beyond the growth step. */
  lemma SaveTarget<S, T>(st: State<S, T>, x: Option<T>, t: T, sp: int, id: S)
    requires Solid(st, x) && CanReach(st, x, t) && id !in st.core.stacks && st.tealets[t].stack.Some?
    ensures var m := SaveState(st, t, sp, id); var s := st.tealets[t].stack.value;
            && m.st.core.mem == st.core.mem && s in m.st.core.stacks && s in st.core.stacks
            && m.st.core.stacks[s] == GrowFor(st, t).core.stacks[s]
  {
    hide RestOk, MainOk, Owned, CoreOk, GrowFor, SaveState;
    GrownSame(st, x, t);
    SolidBasics(st, x);
    SaveLeaves(st, x, t, sp, id);
  }

  lemma GrowTargetKin<S, T>(st: State<S, T>, x: Option<T>, t: T)
    requires Solid(st, x) && CanReach(st, x, t) && st.tealets[t].stack.Some?
    ensures var s := st.tealets[t].stack.value;
            && s in st.core.stacks && StacksOk(st.core) && !st.core.stacks[s].defunct
            && Kin(st.core.stacks[s], GrowFor(st, t).core.stacks[s], st.core.mem)
  {
    hide RestOk, MainOk, Owned, StackOk, GrowFor, Kin;
    GrowStep(st, x, t);
  }

  /** The resumed tealet finds exactly the private stack it was suspended with, unless the transfer itself had to give
      that stack up and thereby lost bytes of it. */
  lemma SwitchStackResumes<S, T>(st: State<S, T>, x: Option<T>, t: T, env: Env, id: S)
    requires Solid(st, x) && t in st.tealets && t != st.cur && (x == Some(t) || x.None?)
    requires st.tealets[t].flags.bound && EnvOk(st, env, id) && Signals(st)
    requires SwitchStack(st, t, env, id).moved && st.tealets[t].stack.Some?
    ensures Known(st)
    ensures var r := SwitchStack(st, t, env, id); var img := ImageIn(st, t);
            && img.Some? && |r.st.core.mem| == |st.core.mem|
            && img.value.near + |img.value.bytes| == End(st.tealets[t].far, |st.core.mem|)
            && (Slice(r.st.core.mem, img.value.near, End(st.tealets[t].far, |st.core.mem|)) == img.value.bytes
                <==> TargetIntact(st, t))
  {
    hide Solid, CanReach, SaveState, Signals, Handed, Restore, StackOk, StacksOk, Kin, GrowFor, DroppedStillThere, ImageOf,
      GivesUp, FailOk;
    SolidBasics(st, x);
    var st1 := st.(prev := Some(st.cur), target := Some(t));
    SolidCong(st, st1, x);
    CanReachIntro(st1, x, t);
    SignalsCong(st, st1);
    GrowForCong(st, st1, t);
    GrowTargetKin(st1, x, t);
    SavedGrows(st1, t, env.sp, id);
    GivenUpIs(st1, x, t);
    assert FailOk(st1) == FailOk(st) by { SameFailOk(st, st1); }
    SaveTarget(st1, x, t, env.sp, id);
    SaveStateSafe(st1, x, t, env, id);
    var m := SaveState(st1, t, env.sp, id);
    SaveStateFrame(st1, t, env.sp, id);
    var s := st.tealets[t].stack.value;
    HandedStacks(m.st, t);
    TargetFinds(st.core, m.st.core, s);
    RestoreRecords(m.st.core, s);
    DecrefRecords(Restore(m.st.core, s), s);
    TargetFar(st, x, t);
    ImageLength(st.core.stacks[s], st.core.mem);
  }

  lemma SavedGrows<S, T>(st: State<S, T>, t: T, sp: int, id: S)
    requires Known(st) && t in st.tealets && !SaveState(st, t, sp, id).fail
    ensures !GrowFor(st, t).fail
  {
    hide GrowFor, FailOk;
  }

  lemma SameFailOk<S, T>(st: State<S, T>, st2: State<S, T>)
    requires st.cur in st.tealets && st2.tealets == st.tealets && st2.cur == st.cur && st2.main == st.main
    ensures FailOk(st2) == FailOk(st)
  {
  }

  lemma RestoreRecords<S>(c: Core<S>, s: S)
    requires s in c.stacks
    ensures Restore(c, s).stacks == c.stacks
  {
  }

  lemma HandedStacks<S, T>(st: State<S, T>, t: T)
    requires Handed(st, t)
    ensures StacksOk(st.core)
  {
    hide StackOk;
  }

  lemma TargetFar<S, T>(st: State<S, T>, x: Option<T>, t: T)
    requires Solid(st, x) && t in st.tealets && t != st.cur && st.tealets[t].stack.Some?
    ensures st.tealets[t].stack.value in st.core.stacks
    ensures st.core.stacks[st.tealets[t].stack.value].far == st.tealets[t].far
    ensures StackOk(st.core.stacks[st.tealets[t].stack.value], |st.core.mem|)
  {
    hide Owned, StackOk;
    assert x != Some(t);
    assert RestOk(st, t);
  }

  lemma ImageLength(v: StackV, mem: seq<byte>)
    requires StackOk(v, |mem|) && !v.defunct
    ensures v.first.near + |ImageOf(v, mem)| == End(v.far, |mem|)
  {
    hide Tiled, Concat;
  }

  /** A transfer that does not take place keeps every other tealet, but for what its growth step gave up. */
  lemma SwitchStackStays<S, T>(st: State<S, T>, x: Option<T>, t: T, env: Env, id: S, u: T)
    requires Solid(st, x) && t in st.tealets && t != st.cur && (x == Some(t) || x.None?)
    requires st.tealets[t].flags.bound && id !in st.core.stacks
    requires !SwitchStack(st, t, env, id).moved && u in st.tealets && u != st.cur
    ensures Known(st)
    ensures var r := SwitchStack(st, t, env, id);
            Kept(st, r.st, u, r.code == ErrMem && Dooms(st, t, FailOk(st), u))
  {
    hide Solid, CanReach, ImageIn, Broken, SaveState, RestoreState, Dooms;
    SolidBasics(st, x);
    var r := SwitchStack(st, t, env, id);
    var st1 := st.(prev := Some(st.cur), target := Some(t));
    if r.code == ErrMem {
      SolidCong(st, st1, x);
      CanReachIntro(st1, x, t);
      SaveStateKeeps(st1, x, t, env.sp, id, u);
      DoomsCong(st, st1, t);
      ImageCong(st, st1, u);
      ImageCong(SaveState(st1, t, env.sp, id).st, r.st, u);
    } else if r.code == ErrDefunct {
      MarkImage(st, t, u);
      ImageCong(MarkDefunct(st, t), r.st, u);
    } else {
      ImageCong(st, r.st, u);
    }
  }

  lemma MarkImage<S, T>(st: State<S, T>, t: T, u: T)
    requires Known(st) && t in st.tealets && u in st.tealets && IsDefunct(st, t)
    ensures ImageIn(MarkDefunct(st, t), u) == ImageIn(st, u) && Broken(MarkDefunct(st, t), u) == Broken(st, u)
  {
  }
}
