/** A stack saved in one piece and grown any number of times at any later moments is restored exactly as it was when it
    was suspended. */
module RoundTrip {
  import opened Base
  import opened StackModel
  import opened StackProofs
  import opened Safety

  /** One growth: the size to grow to, and the C stack at that moment. */
  datatype Growth = Growth(size: int, mem: seq<byte>)

  ghost function GrowAll(v: StackV, gs: seq<Growth>): StackV {
    if gs == [] then v else GrownTo(GrowAll(v, gs[..|gs| - 1]), gs[|gs| - 1].size, gs[|gs| - 1].mem)
  }

  /** Each growth reaches farther than the one before, stays within the stack, and finds the bytes that are still to be
      saved as they were in `mem`. Whatever else happened to the C stack in between does not matter. */
  ghost predicate Undisturbed(v: StackV, mem: seq<byte>, gs: seq<Growth>) {
    forall i :: 0 <= i < |gs| ==>
      var edge := GrowAll(v, gs[..i]).Edge();
      && edge < v.first.near + gs[i].size <= End(v.far, |mem|)
      && |gs[i].mem| == |mem|
      && Slice(gs[i].mem, edge, End(v.far, |mem|)) == Slice(mem, edge, End(v.far, |mem|))
  }

  lemma SliceShorter(a: seq<byte>, b: seq<byte>, lo: int, mid: int, hi: int)
    requires |a| == |b| && 0 <= lo <= mid <= hi <= |a| && Slice(a, lo, hi) == Slice(b, lo, hi)
    ensures Slice(a, lo, mid) == Slice(b, lo, mid)
  {
    SubSlice(a, lo, hi, 0, mid - lo);
    SubSlice(b, lo, hi, 0, mid - lo);
  }

  /** One growth that finds its bytes undisturbed. */
  lemma OneGrowth(u: StackV, mem: seq<byte>, g: Growth)
    requires StackOk(u, |mem|) && !u.defunct && u.Bytes() == Slice(mem, u.first.near, u.Edge())
    requires u.Edge() < u.first.near + g.size <= End(u.far, |mem|) && |g.mem| == |mem|
    requires Slice(g.mem, u.Edge(), End(u.far, |mem|)) == Slice(mem, u.Edge(), End(u.far, |mem|))
    ensures var w := GrownTo(u, g.size, g.mem);
            StackOk(w, |mem|) && w.Bytes() == Slice(mem, u.first.near, u.first.near + g.size)
  {
    hide Tiled, Concat;
    var hi := u.first.near + g.size;
    GrownKeeps(u, g.size, g.mem);
    SliceShorter(g.mem, mem, u.Edge(), hi, End(u.far, |mem|));
    SliceSplit(mem, u.first.near, u.Edge(), hi);
    assert Kin(u, GrownTo(u, g.size, g.mem), g.mem);
  }

  lemma UndisturbedAt(v: StackV, mem: seq<byte>, gs: seq<Growth>, k: nat)
    requires Undisturbed(v, mem, gs) && k + 1 == |gs|
    ensures Undisturbed(v, mem, gs[..k])
    ensures var edge := GrowAll(v, gs[..k]).Edge();
            && edge < v.first.near + gs[k].size <= End(v.far, |mem|) && |gs[k].mem| == |mem|
            && Slice(gs[k].mem, edge, End(v.far, |mem|)) == Slice(mem, edge, End(v.far, |mem|))
  {
    hide GrowAll, Slice;
    forall i | 0 <= i < k ensures gs[..k][..i] == gs[..i] && gs[..k][i] == gs[i] { }
  }

  /** The chunks stay end to end, and together hold the bytes of the moment of suspension. */
  lemma {:induction false} GrowAllHolds(v: StackV, mem: seq<byte>, gs: seq<Growth>)
    requires StackOk(v, |mem|) && !v.defunct && v.Bytes() == Slice(mem, v.first.near, v.Edge())
    requires Undisturbed(v, mem, gs)
    ensures var w := GrowAll(v, gs);
            && StackOk(w, |mem|) && !w.defunct && w.first == v.first && w.far == v.far
            && |w.more| == |v.more| + |gs|
            && w.Bytes() == Slice(mem, v.first.near, w.Edge())
            && w.saved == (if gs == [] then v.saved else gs[|gs| - 1].size)
    decreases |gs|
  {
    hide StackOk, Slice, StackV.Bytes, Undisturbed;
    if gs != [] {
      var k := |gs| - 1;
      UndisturbedAt(v, mem, gs, k);
      GrowAllHolds(v, mem, gs[..k]);
      OneGrowth(GrowAll(v, gs[..k]), mem, gs[k]);
    }
  }

  /** Save, grow any number of times, restore: the bytes from the near edge to the last saved address are those of the
      moment of suspension, and no other byte of the C stack changes. */
  lemma RoundTrips(mem: seq<byte>, sp: int, far: int, stop: int, gs: seq<Growth>, later: seq<byte>)
    requires CanSave(|mem|, sp, far, stop) && |later| == |mem|
    requires Undisturbed(SavedRecord(mem, sp, far, stop), mem, gs)
    ensures var w := GrowAll(SavedRecord(mem, sp, far, stop), gs);
            && Tiled(w) && w.first.near == sp && w.saved == |w.Bytes()|
            && RestoreChunks(Patch(later, w.first.near, w.first.data), w.more)
                 == Patch(later, sp, Slice(mem, sp, w.Edge()))
  {
    var v := SavedRecord(mem, sp, far, stop);
    SavedRecordOk(mem, sp, far, stop);
    assert v.Bytes() == v.first.data;
    GrowAllHolds(v, mem, gs);
    hide Tiled, Concat;
    RestoreChunksIsPatch(later, GrowAll(v, gs));
  }
}
