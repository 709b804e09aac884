/** What the stack routines keep: chunks tile the saved range, the list `g_prev` is a staircase, and growing
    or dropping stacks never changes what a saved stack means. */
module StackProofs {
  import opened Base
  import opened StackModel

  /* ---- one saved stack ---- */

  /** Chunks lie end to end from the near edge on, without gap or overlap; grown chunks are never empty. */
  ghost predicate Tiled(v: StackV) { TiledFrom(v.first.near + |v.first.data|, v.more) }

  ghost predicate TiledFrom(at: int, chunks: seq<ChunkV>) {
    if chunks == [] then true
    else
      var k := |chunks| - 1;
      TiledFrom(at, chunks[..k]) && chunks[k].near == at + |Concat(chunks[..k])| && |chunks[k].data| > 0
  }

  /** Every chunk begins where the ones before it end. */
  lemma {:induction false} TiledAt(at: int, chunks: seq<ChunkV>, i: nat)
    requires TiledFrom(at, chunks) && i < |chunks|
    ensures chunks[i].near == at + |Concat(chunks[..i])| && |chunks[i].data| > 0
    decreases |chunks|
  {
    var k := |chunks| - 1;
    if i < k {
      TiledAt(at, chunks[..k], i);
      assert chunks[..k][..i] == chunks[..i];
    }
  }

  /** A saved stack on a C stack of `n` addresses. A defunct stack has given up everything but its first chunk. */
  ghost predicate StackOk(v: StackV, n: int) {
    && 0 <= v.first.near
    && v.first.near + |v.Bytes()| <= Min(n, v.far)
    && (v.far <= n || v.far == FURTHEST)
    && Tiled(v)
    && (if v.defunct then v.saved == 0 && v.more == [] else v.saved == |v.Bytes()|)
  }

  /** The far end of the addresses that belong to a stack: an unbounded one reaches to the end of memory. */
  ghost function End(far: int, n: int): int { Min(far, n) }

  /** What a suspended stack means: its saved bytes, then the bytes that are still in place on the C stack. */
  ghost function ImageOf(v: StackV, mem: seq<byte>): seq<byte> {
    v.Bytes() + Slice(mem, v.Edge(), End(v.far, |mem|))
  }

  /** v2 is v after some growing, or after giving up. */
  ghost predicate Kin(v: StackV, v2: StackV, mem: seq<byte>) {
    && v2.first == v.first && v2.far == v.far && v2.refcount == v.refcount
    && (v2 == v
        || (v2.defunct && v2.more == [] && v2.saved == 0)
        || (&& !v.defunct && !v2.defunct
            && v.saved < v2.saved
            && v.more <= v2.more
            && v2.Bytes() == v.Bytes() + Slice(mem, v.Edge(), v2.Edge())))
  }

  /** The record of a stack after growing it to `size` bytes on the C stack `mem`. */
  ghost function GrownTo(v: StackV, size: int, mem: seq<byte>): StackV {
    v.(saved := size, more := v.more + [ChunkV(v.Edge(), Slice(mem, v.Edge(), v.first.near + size))])
  }

  ghost function GaveUp(v: StackV): StackV { v.(defunct := true, saved := 0, more := []) }

  lemma {:induction false} ConcatAppend(chunks: seq<ChunkV>, c: ChunkV)
    ensures Concat(chunks + [c]) == Concat(chunks) + c.data
    ensures ChunkBytes(chunks + [c]) == ChunkBytes(chunks) + CHUNK_HDR + |c.data|
  {
    assert (chunks + [c])[..|chunks|] == chunks;
  }

  lemma ShorterOk(v: StackV)
    requires v.more != [] && Tiled(v)
    ensures var k := |v.more| - 1; var shorter := v.(more := v.more[..k], saved := v.saved - |v.more[k].data|);
            && Tiled(shorter) && v.Bytes() == shorter.Bytes() + v.more[k].data
            && v.more[k].near == v.first.near + |shorter.Bytes()|
  {
    var k := |v.more| - 1;
    assert v.Bytes() == v.first.data + (Concat(v.more[..k]) + v.more[k].data);
  }

  /** Restoring a tiled chain of chunks writes exactly the saved range and nothing else. */
  lemma {:induction false} RestoreChunksIsPatch(mem: seq<byte>, v: StackV)
    requires StackOk(v, |mem|)
    ensures RestoreChunks(Patch(mem, v.first.near, v.first.data), v.more) == Patch(mem, v.first.near, v.Bytes())
    decreases |v.more|
  {
    if v.more == [] {
      assert v.Bytes() == v.first.data;
    } else {
      var k := |v.more| - 1;
      var last := v.more[k];
      var shorter := v.(more := v.more[..k], saved := v.saved - |last.data|);
      assert v.more == v.more[..k] + [last];
      assert v.Bytes() == shorter.Bytes() + last.data;
      ShorterOk(v);
      RestoreChunksIsPatch(mem, shorter);
      PatchTwice(mem, v.first.near, shorter.Bytes(), last.data);
    }
  }

  lemma TiledAppend(v: StackV, chunk: ChunkV, size: int)
    requires Tiled(v) && chunk.near == v.first.near + |v.Bytes()| && |chunk.data| > 0
    ensures var v2 := v.(saved := size, more := v.more + [chunk]);
            Tiled(v2) && v2.Bytes() == v.Bytes() + chunk.data
  {
    hide Concat;
    var v2 := v.(saved := size, more := v.more + [chunk]);
    ConcatAppend(v.more, chunk);
    assert v2.Bytes() == v.first.data + (Concat(v.more) + chunk.data);
    assert v2.more[..|v.more|] == v.more;
  }

  /** Growing a stack appends one chunk and keeps it well formed and its meaning unchanged. */
  lemma GrownKeeps(v: StackV, size: int, mem: seq<byte>)
    requires StackOk(v, |mem|) && !v.defunct
    requires v.saved < size && v.first.near + size <= End(v.far, |mem|)
    ensures StackOk(GrownTo(v, size, mem), |mem|) && Kin(v, GrownTo(v, size, mem), mem)
  {
    hide Tiled, Concat;
    TiledAppend(v, ChunkV(v.Edge(), Slice(mem, v.Edge(), v.first.near + size)), size);
  }

  /** Growing or doing nothing keeps the meaning of a stack. */
  lemma KinImage(v: StackV, v2: StackV, mem: seq<byte>)
    requires StackOk(v, |mem|) && StackOk(v2, |mem|) && Kin(v, v2, mem) && (v2.defunct ==> v.defunct)
    ensures v2.defunct || ImageOf(v2, mem) == ImageOf(v, mem)
    ensures v2.defunct || v.Edge() <= v2.Edge()
  {
    hide Tiled, Concat;
    if v2 != v && !v2.defunct {
      SliceSplit(mem, v.Edge(), v2.Edge(), End(v.far, |mem|));
    }
  }

  /* ---- the list of half-saved stacks ---- */

  /** Newest first, every listed stack is half saved and ends at or before the saved edge of every older one. */
  ghost predicate Staircase<S>(stacks: map<S, StackV>, list: seq<S>) {
    && (forall i :: 0 <= i < |list| ==> list[i] in stacks && stacks[list[i]].Partial())
    && (forall i, j :: 0 <= i < j < |list| ==> stacks[list[i]].far <= stacks[list[j]].Edge())
  }

  /** No listed stack still needs the C stack below `b`. */
  ghost predicate Above<S>(stacks: map<S, StackV>, list: seq<S>, b: int) {
    forall i :: 0 <= i < |list| ==> list[i] in stacks && b <= stacks[list[i]].Edge()
  }

  ghost predicate StacksOk<S>(c: Core<S>) {
    && |c.mem| < FURTHEST
    && (forall s :: s in c.stacks ==> StackOk(c.stacks[s], |c.mem|))
  }

  /** The list holds every half-saved stack except possibly `x`. */
  ghost predicate ListExact<S>(c: Core<S>, x: Option<S>) {
    forall s :: s in c.stacks && x != Some(s) ==> (s in c.plist <==> c.stacks[s].Partial())
  }

  /** The invariant of the saved stacks while code runs below address `b`. */
  ghost predicate CoreInv<S>(c: Core<S>, b: int) {
    && StacksOk(c)
    && Staircase(c.stacks, c.plist)
    && Above(c.stacks, c.plist, b)
    && ListExact(c, None)
  }

  /** No listed stack starts its unsaved part beyond every address. */
  lemma NothingUnbounded<S>(c: Core<S>)
    requires StacksOk(c) && Above(c.stacks, c.plist, FURTHEST)
    ensures c.plist == []
  {
    hide StacksOk, Above;
    if c.plist != [] {
      HeadBelow(c, FURTHEST);
    }
  }

  lemma HeadBelow<S>(c: Core<S>, b: int)
    requires StacksOk(c) && Above(c.stacks, c.plist, b) && c.plist != []
    ensures b < FURTHEST
  {
    hide Tiled, StackV.Bytes;
    assert c.plist[0] in c.stacks && StackOk(c.stacks[c.plist[0]], |c.mem|);
  }

  /** A staircase has no duplicates. */
  lemma StaircaseNoDup<S>(stacks: map<S, StackV>, list: seq<S>)
    requires Staircase(stacks, list)
    ensures NoDup(list)
  {
  }

  /** How a stack may change while the list is grown, on a fixed C stack. */
  ghost predicate Follows<S>(c: Core<S>, c2: Core<S>) {
    && c2.mem == c.mem && c2.alloc == c.alloc
    && c2.stacks.Keys == c.stacks.Keys
    && (forall s :: s in c.stacks ==> Kin(c.stacks[s], c2.stacks[s], c.mem))
  }

  ghost predicate SameBut<S>(c: Core<S>, c2: Core<S>, s: S) {
    && c2.mem == c.mem && c2.alloc == c.alloc
    && c2.stacks.Keys == c.stacks.Keys
    && (forall u :: u in c.stacks && u != s ==> c2.stacks[u] == c.stacks[u])
  }

  /** Giving a stack up leaves its first chunk and makes it saved-nothing. */
  lemma DefunctKeeps(v: StackV, n: int)
    requires StackOk(v, n)
    ensures StackOk(GaveUp(v), n)
  {
    assert GaveUp(v).Bytes() == v.first.data;
  }

  /** What growing one half-saved stack up to `stop` does: it grows, stays as it is, fails where failing is
      allowed, or gives up where it is not. */
  ghost predicate GrowToPost(v: StackV, v2: StackV, mem: seq<byte>, stop: int, mayFail: bool, fail: bool, full: bool) {
    && StackOk(v2, |mem|) && Kin(v, v2, mem) && v2.far == v.far
    && (fail ==> v2 == v && mayFail)
    && (!fail ==> (full <==> !v2.Partial()))
    && (!fail && !full ==> stop <= v2.Edge() && stop < v2.far)
    && (v2.defunct ==> !mayFail)
    && (!v2.defunct && !fail ==> (full <==> v2.far <= stop))
  }

  lemma GrowToFrame<S>(c: Core<S>, s: S, stop: int, failOk: bool, mainStack: Option<S>)
    requires s in c.stacks
    ensures var g := GrowTo(c, s, stop, failOk, mainStack);
            var v := c.stacks[s];
            var size := Min(v.far, stop) - v.first.near;
            var mayFail := failOk || mainStack == Some(s);
            && SameBut(c, g.core, s) && g.core.plist == c.plist
            && (g.fail <==> size > v.saved && !c.alloc(c.ticks) && mayFail)
            && (g.full <==> (v.far <= stop || (size > v.saved && !c.alloc(c.ticks) && !mayFail)))
            && g.core.stacks[s] == (if size <= v.saved then v
                                    else if c.alloc(c.ticks) then GrownTo(v, size, c.mem)
                                    else if g.fail then v else GaveUp(v))
  {
  }

  /** What growing one half-saved record up to `stop` leaves. */
  lemma GrownRecord(v: StackV, mem: seq<byte>, stop: int)
    requires StackOk(v, |mem|) && v.Partial() && (stop <= |mem| || v.far <= |mem|)
    ensures var size := Min(v.far, stop) - v.first.near;
            size > v.saved ==> StackOk(GrownTo(v, size, mem), |mem|) && Kin(v, GrownTo(v, size, mem), mem)
    ensures StackOk(GaveUp(v), |mem|) && Kin(v, GaveUp(v), mem) && Kin(v, v, mem)
  {
    hide Tiled, Concat;
    DefunctKeeps(v, |mem|);
    var size := Min(v.far, stop) - v.first.near;
    if size > v.saved {
      GrownKeeps(v, size, mem);
    }
  }

  lemma GrowToEffect<S>(c: Core<S>, s: S, stop: int, failOk: bool, mainStack: Option<S>)
    requires StacksOk(c) && s in c.stacks && c.stacks[s].Partial()
    requires stop <= |c.mem| || c.stacks[s].far <= |c.mem|
    ensures var g := GrowTo(c, s, stop, failOk, mainStack);
            && SameBut(c, g.core, s) && g.core.plist == c.plist
            && GrowToPost(c.stacks[s], g.core.stacks[s], c.mem, stop, failOk || mainStack == Some(s), g.fail, g.full)
  {
    hide StackOk, Slice, Kin, SameBut, GrowTo;
    GrowToFrame(c, s, stop, failOk, mainStack);
    GrownRecord(c.stacks[s], c.mem, stop);
  }

  /* ---- grow_list ---- */

  /** When nothing in the list has to grow, grow_list changes nothing. */
  lemma {:induction false} GrowListIdle<S>(c: Core<S>, todo: seq<S>, stop: int, target: Option<S>, failOk: bool,
                                           mainStack: Option<S>)
    requires forall s :: s in todo ==> s in c.stacks
    requires forall s :: s in todo ==> c.stacks[s].Partial() && stop <= c.stacks[s].Edge() && target != Some(s)
    ensures GrowList(c, todo, stop, target, failOk, mainStack) == Grown(c, false, false)
    decreases |todo|
  {
    if todo != [] {
      GrowToFrame(c, todo[0], stop, failOk, mainStack);
      assert Visit(c, todo[0], stop, failOk, mainStack).core == c;
      GrowListIdle(c, todo[1..], stop, target, failOk, mainStack);
    }
  }

  /** What grow_list may assume: `target`, when listed, ends exactly at `stop`. */
  ghost predicate GrowPre<S>(c: Core<S>, todo: seq<S>, stop: int, target: Option<S>) {
    && StacksOk(c) && c.plist == todo && Staircase(c.stacks, todo)
    && (stop <= |c.mem| || forall s :: s in todo && target != Some(s) ==> c.stacks[s].far <= |c.mem|)
    && (target.Some? && target.value in todo ==>
          c.stacks[target.value].far == stop && (c.stacks[target.value].refcount > 1 ==> stop <= |c.mem|))
  }

  /** The head of the list has been visited and stays on the list. */
  ghost predicate HeadStays<S>(c: Core<S>, g: Grown<S>, todo: seq<S>, stop: int, failOk: bool, mainStack: Option<S>)
    requires todo != []
  {
    && SameBut(c, g.core, todo[0]) && StacksOk(g.core)
    && g.core.plist == todo
    && todo[0] in c.stacks && g.core.stacks[todo[0]].Partial()
    && (!g.fail ==> !g.full)
    && GrowToPost(c.stacks[todo[0]], g.core.stacks[todo[0]], c.mem, stop, failOk || mainStack == Some(todo[0]),
                  g.fail, g.full)
  }

  /** The state after the head of the list has been dealt with and dropped. */
  ghost predicate HeadDropped<S>(c: Core<S>, c2: Core<S>, todo: seq<S>, stop: int, failOk: bool, mainStack: Option<S>)
    requires todo != []
  {
    && SameBut(c, c2, todo[0]) && StacksOk(c2)
    && c2.plist == todo[1..]
    && todo[0] in c.stacks
    && Kin(c.stacks[todo[0]], c2.stacks[todo[0]], c.mem)
    && (c.stacks[todo[0]].far <= stop || c2.stacks[todo[0]].defunct)
    && (c2.stacks[todo[0]].defunct ==> c.stacks[todo[0]].defunct || (!failOk && mainStack != Some(todo[0])))
  }

  lemma SameButOk<S>(c: Core<S>, c2: Core<S>, s: S)
    requires StacksOk(c) && SameBut(c, c2, s) && s in c.stacks && StackOk(c2.stacks[s], |c.mem|)
    ensures StacksOk(c2)
  {
    hide StackOk;
  }

  lemma UnlinkHead<S>(c: Core<S>, s: S)
    requires c.plist != [] && c.plist[0] == s
    ensures Unlink(c, s) == c.(plist := c.plist[1..])
  {
  }

  /** Visiting the head of the list when it is not the target. */
  lemma GrowHeadEffect<S>(c: Core<S>, todo: seq<S>, stop: int, failOk: bool, mainStack: Option<S>)
    requires StacksOk(c) && c.plist == todo && todo != [] && todo[0] in c.stacks && c.stacks[todo[0]].Partial()
    requires stop <= |c.mem| || c.stacks[todo[0]].far <= |c.mem|
    ensures var v := Visit(c, todo[0], stop, failOk, mainStack);
            if !v.fail && v.full then
              HeadDropped(c, v.core, todo, stop, failOk, mainStack) && !v.core.stacks[todo[0]].Partial()
            else
              HeadStays(c, v, todo, stop, failOk, mainStack)
  {
    hide StackOk, Kin, GrowTo;
    var g := GrowTo(c, todo[0], stop, failOk, mainStack);
    GrowToEffect(c, todo[0], stop, failOk, mainStack);
    SameButOk(c, g.core, todo[0]);
    if !g.fail && g.full {
      UnlinkHead(g.core, todo[0]);
    }
  }

  /** Visiting the head of the list when it is the target. */
  lemma GrowTargetEffect<S>(c: Core<S>, todo: seq<S>, stop: int, failOk: bool, mainStack: Option<S>)
    requires StacksOk(c) && c.plist == todo && todo != [] && todo[0] in c.stacks && c.stacks[todo[0]].Partial()
    requires c.stacks[todo[0]].far == stop && (c.stacks[todo[0]].refcount > 1 ==> stop <= |c.mem|)
    ensures var v := VisitTarget(c, todo[0], stop, failOk, mainStack);
            if !v.fail then
              && HeadDropped(c, v.core, todo, stop, failOk, mainStack)
              && (if c.stacks[todo[0]].refcount > 1 then !v.core.stacks[todo[0]].Partial()
                  else v.core.stacks[todo[0]] == c.stacks[todo[0]])
            else
              HeadStays(c, v, todo, stop, failOk, mainStack)
  {
    hide StackOk, Kin, GrowTo;
    if c.stacks[todo[0]].refcount > 1 {
      var g := GrowTo(c, todo[0], stop, failOk, mainStack);
      GrowToEffect(c, todo[0], stop, failOk, mainStack);
      SameButOk(c, g.core, todo[0]);
      UnlinkHead(g.core, todo[0]);
    } else {
      UnlinkHead(c, todo[0]);
      KinRefl(c.stacks[todo[0]], c.mem);
    }
  }

  lemma KinRefl(v: StackV, mem: seq<byte>)
    ensures Kin(v, v, mem)
  {
  }
  /** Once the head stays, no older stack has to grow, and the target is not among them. */
  lemma RestIdle<S>(c: Core<S>, g: Grown<S>, todo: seq<S>, stop: int, target: Option<S>, failOk: bool,
                    mainStack: Option<S>)
    requires GrowPre(c, todo, stop, target) && todo != [] && target != Some(todo[0])
    requires HeadStays(c, g, todo, stop, failOk, mainStack) && !g.fail
    ensures !(target.Some? && target.value in todo)
    ensures forall s :: s in todo[1..] ==> s in g.core.stacks
    ensures forall s :: s in todo[1..] ==>
              g.core.stacks[s].Partial() && stop <= g.core.stacks[s].Edge() && target != Some(s)
  {
    hide StackOk, Kin;
    StaircaseNoDup(c.stacks, todo);
    forall i | 1 <= i < |todo|
      ensures g.core.stacks[todo[i]].Partial() && stop < g.core.stacks[todo[i]].Edge() && target != Some(todo[i])
    {
      assert g.core.stacks[todo[i]] == c.stacks[todo[i]];
      assert c.stacks[todo[0]].far <= c.stacks[todo[i]].Edge();
    }
  }

  /** Once the head is dropped, the rest of the list is again a list to grow. */
  lemma RestPre<S>(c: Core<S>, c2: Core<S>, todo: seq<S>, stop: int, target: Option<S>, failOk: bool,
                   mainStack: Option<S>)
    requires GrowPre(c, todo, stop, target) && todo != [] && target != Some(todo[0])
    requires HeadDropped(c, c2, todo, stop, failOk, mainStack)
    ensures GrowPre(c2, todo[1..], stop, target)
  {
    hide StackOk, Kin;
    StaircaseNoDup(c.stacks, todo);
    forall i | 0 <= i < |todo[1..]| ensures c2.stacks[todo[1..][i]] == c.stacks[todo[i + 1]] { }
  }

  /** The three ways a visit to the head of the list ends: grow_list is over because the target was reached, it
      is over because nothing else has to grow or growing failed, or the head is dropped and it goes on. */
  lemma GrowListCases<S>(c: Core<S>, todo: seq<S>, stop: int, target: Option<S>, failOk: bool, mainStack: Option<S>)
    requires GrowPre(c, todo, stop, target) && todo != [] && target != Some(todo[0])
    requires forall s :: s in todo ==> s in c.stacks
    ensures var g := GrowList(c, todo, stop, target, failOk, mainStack);
            var v := Visit(c, todo[0], stop, failOk, mainStack);
            if v.fail || !v.full then
              && g.core == v.core && g.fail == v.fail
              && HeadStays(c, v, todo, stop, failOk, mainStack)
              && (target.Some? && target.value in todo ==> g.fail)
            else
              && HeadDropped(c, v.core, todo, stop, failOk, mainStack) && !v.core.stacks[todo[0]].Partial()
              && GrowPre(v.core, todo[1..], stop, target)
              && (forall s :: s in todo[1..] ==> s in v.core.stacks)
              && g == GrowList(v.core, todo[1..], stop, target, failOk, mainStack)
  {
    hide StackOk, Kin, GrowTo, Visit, Staircase, HeadStays, HeadDropped, GrowToPost, SameBut;
    var v := Visit(c, todo[0], stop, failOk, mainStack);
    assert todo[0] in c.stacks && c.stacks[todo[0]].Partial() by { StaircaseHead(c.stacks, todo); }
    GrowHeadEffect(c, todo, stop, failOk, mainStack);
    if !v.fail && !v.full {
      RestIdle(c, v, todo, stop, target, failOk, mainStack);
      GrowListIdle(v.core, todo[1..], stop, target, failOk, mainStack);
    } else if !v.fail {
      RestPre(c, v.core, todo, stop, target, failOk, mainStack);
    }
  }

  lemma StaircaseHead<S>(stacks: map<S, StackV>, list: seq<S>)
    requires Staircase(stacks, list) && list != []
    ensures list[0] in stacks && stacks[list[0]].Partial()
    ensures forall s :: s in list ==> s in stacks && stacks[s].Partial()
  {
  }

  /** When the head is the target, grow_list ends there. */
  lemma GrowListTarget<S>(c: Core<S>, todo: seq<S>, stop: int, failOk: bool, mainStack: Option<S>)
    requires todo != [] && GrowPre(c, todo, stop, Some(todo[0]))
    requires forall s :: s in todo ==> s in c.stacks
    ensures var g := GrowList(c, todo, stop, Some(todo[0]), failOk, mainStack);
            if g.fail then HeadStays(c, g, todo, stop, failOk, mainStack)
            else
              && HeadDropped(c, g.core, todo, stop, failOk, mainStack)
              && (if c.stacks[todo[0]].refcount > 1 then !g.core.stacks[todo[0]].Partial()
                  else g.core.stacks[todo[0]] == c.stacks[todo[0]])
  {
    hide StackOk, Kin, VisitTarget, HeadStays, HeadDropped;
    GrowTargetEffect(c, todo, stop, failOk, mainStack);
  }

  lemma PreListed<S>(c: Core<S>, todo: seq<S>, stop: int, target: Option<S>)
    requires GrowPre(c, todo, stop, target)
    ensures forall s :: s in todo ==> s in c.stacks && c.stacks[s].Partial()
    ensures NoDup(todo) && StacksOk(c) && c.plist == todo
  {
    hide StackOk;
    StaircaseNoDup(c.stacks, todo);
    if todo != [] {
      StaircaseHead(c.stacks, todo);
    }
  }

  /** Growing the list leaves the C stack alone and every saved stack either as it was, longer, or given up; only
      listed stacks change, and the stack of main is never given up. */
  ghost predicate Followed<S>(c: Core<S>, c2: Core<S>, todo: seq<S>, failOk: bool, mainStack: Option<S>) {
    && Follows(c, c2) && StacksOk(c2)
    && (forall s :: s in c.stacks && s !in todo ==> c2.stacks[s] == c.stacks[s])
    && (forall s :: s in c.stacks && c2.stacks[s].defunct ==>
          c.stacks[s].defunct || (!failOk && mainStack != Some(s)))
  }

  lemma FollowsRefl<S>(c: Core<S>, todo: seq<S>, failOk: bool, mainStack: Option<S>)
    requires StacksOk(c)
    ensures Followed(c, c, todo, failOk, mainStack)
  {
    hide StackOk;
    forall s | s in c.stacks ensures Kin(c.stacks[s], c.stacks[s], c.mem) { KinRefl(c.stacks[s], c.mem); }
  }

  lemma FollowsHead<S>(c: Core<S>, c2: Core<S>, todo: seq<S>, failOk: bool, mainStack: Option<S>)
    requires todo != [] && todo[0] in c.stacks && SameBut(c, c2, todo[0]) && StacksOk(c2)
    requires Kin(c.stacks[todo[0]], c2.stacks[todo[0]], c.mem)
    requires c2.stacks[todo[0]].defunct ==> c.stacks[todo[0]].defunct || (!failOk && mainStack != Some(todo[0]))
    ensures Followed(c, c2, todo, failOk, mainStack)
  {
    hide Kin, StackOk;
    forall s | s in c.stacks ensures Kin(c.stacks[s], c2.stacks[s], c.mem) {
      if s != todo[0] { KinRefl(c.stacks[s], c.mem); }
    }
  }

  lemma FollowsRest<S>(c: Core<S>, c1: Core<S>, c2: Core<S>, todo: seq<S>, failOk: bool, mainStack: Option<S>)
    requires todo != [] && NoDup(todo) && SameBut(c, c1, todo[0])
    requires Followed(c, c1, todo, failOk, mainStack) && Followed(c1, c2, todo[1..], failOk, mainStack)
    ensures Followed(c, c2, todo, failOk, mainStack)
  {
    hide Kin, StackOk;
    forall s | s in c.stacks
      ensures Kin(c.stacks[s], c2.stacks[s], c.mem)
      ensures c2.stacks[s].defunct ==> c.stacks[s].defunct || (!failOk && mainStack != Some(s))
    {
      if s == todo[0] {
        assert s !in todo[1..] && c2.stacks[s] == c1.stacks[s];
      } else {
        assert c1.stacks[s] == c.stacks[s];
      }
    }
  }

  lemma {:induction false} GrowListFollows<S>(c: Core<S>, todo: seq<S>, stop: int, target: Option<S>, failOk: bool,
                                              mainStack: Option<S>)
    requires GrowPre(c, todo, stop, target)
    requires forall s :: s in todo ==> s in c.stacks
    ensures Followed(c, GrowList(c, todo, stop, target, failOk, mainStack).core, todo, failOk, mainStack)
    decreases |todo|
  {
    hide StackOk, Kin, GrowPre, Visit, VisitTarget, StackV.Partial, Followed;
    var c2 := GrowList(c, todo, stop, target, failOk, mainStack).core;
    PreListed(c, todo, stop, target);
    if todo == [] {
      FollowsRefl(c, todo, failOk, mainStack);
    } else if target == Some(todo[0]) {
      GrowListTarget(c, todo, stop, failOk, mainStack);
      FollowsHead(c, c2, todo, failOk, mainStack);
    } else {
      GrowListCases(c, todo, stop, target, failOk, mainStack);
      var v := Visit(c, todo[0], stop, failOk, mainStack);
      FollowsHead(c, v.core, todo, failOk, mainStack);
      if !v.fail && v.full {
        GrowListFollows(v.core, todo[1..], stop, target, failOk, mainStack);
        FollowsRest(c, v.core, c2, todo, failOk, mainStack);
      }
    }
  }

  /** Growing the list drops a prefix of it: the stacks dropped are those that end at or before `stop` or were
      given up, the target excepted; of the stacks kept only the newest may have grown. */
  ghost predicate Pruned<S>(c: Core<S>, c2: Core<S>, todo: seq<S>, stop: int, target: Option<S>)
    requires c2.stacks.Keys == c.stacks.Keys && forall s :: s in todo ==> s in c.stacks
  {
    && IsSuffix(c2.plist, todo)
    && (forall s :: s in todo && s !in c2.plist && target != Some(s) ==> !c2.stacks[s].Partial())
    && (forall s :: s in todo && s !in c2.plist ==> c.stacks[s].far <= stop || c2.stacks[s].defunct)
    && (forall s :: s in c2.plist ==> s in c2.stacks && c2.stacks[s].Partial())
    && (forall i :: 0 < i < |c2.plist| ==> c2.stacks[c2.plist[i]] == c.stacks[c2.plist[i]])
  }

  lemma PrunedNone<S>(c: Core<S>, c2: Core<S>, todo: seq<S>, stop: int, target: Option<S>)
    requires c2.plist == todo && c2.stacks.Keys == c.stacks.Keys && NoDup(todo)
    requires forall s :: s in todo ==> s in c.stacks && c.stacks[s].Partial()
    requires todo == [] || (SameBut(c, c2, todo[0]) && c2.stacks[todo[0]].Partial())
    ensures Pruned(c, c2, todo, stop, target)
  {
    hide StackV.Partial;
    assert c2.plist == todo[0..];
  }

  lemma PrunedHead<S>(c: Core<S>, c2: Core<S>, todo: seq<S>, stop: int, failOk: bool, mainStack: Option<S>)
    requires todo != [] && NoDup(todo)
    requires forall s :: s in todo ==> s in c.stacks && c.stacks[s].Partial()
    requires HeadDropped(c, c2, todo, stop, failOk, mainStack)
    ensures Pruned(c, c2, todo, stop, Some(todo[0]))
  {
    hide StackOk, Kin, StackV.Partial;
    assert c2.plist == todo[1..];
    forall i | 0 < i < |todo| ensures c2.stacks[todo[i]] == c.stacks[todo[i]] { }
  }

  lemma PrunedRest<S>(c: Core<S>, c1: Core<S>, c2: Core<S>, todo: seq<S>, stop: int, target: Option<S>, failOk: bool,
                      mainStack: Option<S>)
    requires todo != [] && NoDup(todo) && target != Some(todo[0])
    requires forall s :: s in todo ==> s in c.stacks
    requires HeadDropped(c, c1, todo, stop, failOk, mainStack) && !c1.stacks[todo[0]].Partial()
    requires c2.stacks.Keys == c1.stacks.Keys && Pruned(c1, c2, todo[1..], stop, target)
    requires c2.stacks[todo[0]] == c1.stacks[todo[0]]
    ensures Pruned(c, c2, todo, stop, target)
  {
    hide StackOk, Kin, StackV.Partial;
    var j := |todo| - |c2.plist|;
    assert c2.plist == todo[j..];
    forall s | s in todo && s !in c2.plist
      ensures target != Some(s) ==> !c2.stacks[s].Partial()
      ensures c.stacks[s].far <= stop || c2.stacks[s].defunct
    {
      if s != todo[0] {
        assert s in todo[1..];
      }
    }
    forall i | 0 < i < |c2.plist| ensures c2.stacks[c2.plist[i]] == c.stacks[c2.plist[i]] {
      assert c2.plist[i] == todo[j + i];
    }
  }

  lemma {:induction false} GrowListPrunes<S>(c: Core<S>, todo: seq<S>, stop: int, target: Option<S>, failOk: bool,
                                             mainStack: Option<S>)
    requires GrowPre(c, todo, stop, target)
    requires forall s :: s in todo ==> s in c.stacks
    ensures Pruned(c, GrowList(c, todo, stop, target, failOk, mainStack).core, todo, stop, target)
    decreases |todo|
  {
    hide StackOk, Kin, GrowPre, Visit, VisitTarget, GrowToPost, StackV.Partial, Pruned, Follows, StacksOk;
    var c2 := GrowList(c, todo, stop, target, failOk, mainStack).core;
    PreListed(c, todo, stop, target);
    if todo == [] {
      PrunedNone(c, c2, todo, stop, target);
    } else if target == Some(todo[0]) {
      GrowListTarget(c, todo, stop, failOk, mainStack);
      if GrowList(c, todo, stop, target, failOk, mainStack).fail {
        PrunedNone(c, c2, todo, stop, target);
      } else {
        PrunedHead(c, c2, todo, stop, failOk, mainStack);
      }
    } else {
      GrowListCases(c, todo, stop, target, failOk, mainStack);
      var v := Visit(c, todo[0], stop, failOk, mainStack);
      if v.fail || !v.full {
        PrunedNone(c, c2, todo, stop, target);
      } else {
        GrowListPrunes(v.core, todo[1..], stop, target, failOk, mainStack);
        GrowListFollows(v.core, todo[1..], stop, target, failOk, mainStack);
        PrunedRest(c, v.core, c2, todo, stop, target, failOk, mainStack);
      }
    }
  }

  /** How grow_list ends. It fails only where failing is allowed or on the stack of main. When the target is listed
      it leaves the list unless grow_list failed, fully saved if it is shared and untouched if it is not. When it
      is not listed, nothing left on the list needs the C stack below `stop`. */
  ghost predicate Reached<S>(c: Core<S>, g: Grown<S>, todo: seq<S>, stop: int, target: Option<S>, failOk: bool,
                             mainStack: Option<S>)
    requires g.core.stacks.Keys == c.stacks.Keys && forall s :: s in todo ==> s in c.stacks
  {
    && (g.fail ==> failOk || (&& mainStack.Some? && mainStack.value in g.core.plist && mainStack.value in todo
                              && (target == mainStack ==> c.stacks[mainStack.value].refcount > 1)))
    && (target.Some? && target.value in todo ==>
          && (g.fail <==> target.value in g.core.plist)
          && (!g.fail ==> if c.stacks[target.value].refcount > 1 then !g.core.stacks[target.value].Partial()
                          else g.core.stacks[target.value] == c.stacks[target.value]))
    && (!g.fail && !(target.Some? && target.value in todo) ==>
          forall s :: s in g.core.plist ==>
            s in g.core.stacks && stop <= g.core.stacks[s].Edge() && stop < g.core.stacks[s].far)
  }

  lemma ReachedRest<S>(c: Core<S>, c1: Core<S>, g: Grown<S>, todo: seq<S>, stop: int, target: Option<S>, failOk: bool,
                       mainStack: Option<S>)
    requires todo != [] && NoDup(todo) && target != Some(todo[0])
    requires forall s :: s in todo ==> s in c.stacks
    requires HeadDropped(c, c1, todo, stop, failOk, mainStack)
    requires g.core.stacks.Keys == c1.stacks.Keys && Reached(c1, g, todo[1..], stop, target, failOk, mainStack)
    ensures Reached(c, g, todo, stop, target, failOk, mainStack)
  {
    hide StackOk, Kin, StackV.Partial, StackV.Edge;
    assert forall s :: s in todo <==> s == todo[0] || s in todo[1..];
  }

  lemma ReachedStays<S>(c: Core<S>, g: Grown<S>, todo: seq<S>, stop: int, target: Option<S>, failOk: bool,
                        mainStack: Option<S>)
    requires todo != [] && forall s :: s in todo ==> s in c.stacks
    requires GrowPre(c, todo, stop, target)
    requires HeadStays(c, g, todo, stop, failOk, mainStack)
    requires target.Some? && target.value in todo ==> g.fail
    requires target == Some(todo[0]) ==> c.stacks[todo[0]].refcount > 1
    ensures Reached(c, g, todo, stop, target, failOk, mainStack)
  {
    hide StackOk, Kin;
    if !g.fail {
      RestIdle(c, g, todo, stop, target, failOk, mainStack);
    }
  }

  lemma {:induction false} GrowListReaches<S>(c: Core<S>, todo: seq<S>, stop: int, target: Option<S>, failOk: bool,
                                              mainStack: Option<S>)
    requires GrowPre(c, todo, stop, target)
    requires forall s :: s in todo ==> s in c.stacks
    ensures Reached(c, GrowList(c, todo, stop, target, failOk, mainStack), todo, stop, target, failOk, mainStack)
    decreases |todo|
  {
    hide StackOk, Kin, GrowPre, Visit, GrowToPost, StackV.Partial, Reached, StacksOk;
    var g := GrowList(c, todo, stop, target, failOk, mainStack);
    PreListed(c, todo, stop, target);
    if todo == [] {
      assert Reached(c, g, todo, stop, target, failOk, mainStack) by { ReachedNone(c, stop, target, failOk, mainStack); }
    } else if target == Some(todo[0]) {
      GrowListTarget(c, todo, stop, failOk, mainStack);
      if g.fail {
        ReachedStays(c, g, todo, stop, target, failOk, mainStack);
      } else {
        ReachedTarget(c, g, todo, stop, failOk, mainStack);
      }
    } else {
      GrowListCases(c, todo, stop, target, failOk, mainStack);
      var v := Visit(c, todo[0], stop, failOk, mainStack);
      if v.fail || !v.full {
        ReachedStays(c, v, todo, stop, target, failOk, mainStack);
        ReachedSame(c, v, g, todo, stop, target, failOk, mainStack);
      } else {
        GrowListReaches(v.core, todo[1..], stop, target, failOk, mainStack);
        ReachedRest(c, v.core, g, todo, stop, target, failOk, mainStack);
      }
    }
  }

  lemma ReachedNone<S>(c: Core<S>, stop: int, target: Option<S>, failOk: bool, mainStack: Option<S>)
    requires c.plist == []
    ensures Reached(c, GrowList(c, [], stop, target, failOk, mainStack), [], stop, target, failOk, mainStack)
  {
  }

  lemma ReachedTarget<S>(c: Core<S>, g: Grown<S>, todo: seq<S>, stop: int, failOk: bool, mainStack: Option<S>)
    requires todo != [] && NoDup(todo) && forall s :: s in todo ==> s in c.stacks
    requires !g.fail && HeadDropped(c, g.core, todo, stop, failOk, mainStack)
    requires if c.stacks[todo[0]].refcount > 1 then !g.core.stacks[todo[0]].Partial()
             else g.core.stacks[todo[0]] == c.stacks[todo[0]]
    ensures Reached(c, g, todo, stop, Some(todo[0]), failOk, mainStack)
  {
    hide StackOk, Kin, StackV.Partial;
  }

  lemma ReachedSame<S>(c: Core<S>, g: Grown<S>, g2: Grown<S>, todo: seq<S>, stop: int, target: Option<S>, failOk: bool,
                       mainStack: Option<S>)
    requires forall s :: s in todo ==> s in c.stacks
    requires g.core.stacks.Keys == c.stacks.Keys && g2.core == g.core && g2.fail == g.fail
    requires Reached(c, g, todo, stop, target, failOk, mainStack)
    ensures Reached(c, g2, todo, stop, target, failOk, mainStack)
  {
  }

  /* ---- what grow_list keeps ---- */

  /** Edges only move away from the near end, unless a stack is given up. */
  lemma KinEdges<S>(c: Core<S>, c2: Core<S>, s: S)
    requires Follows(c, c2) && s in c.stacks && c2.stacks[s].Partial()
    ensures c.stacks[s].Edge() <= c2.stacks[s].Edge() && c2.stacks[s].far == c.stacks[s].far
  {
    hide StackV.Bytes, Slice;
  }

  lemma SuffixIndex<S>(t: seq<S>, s: seq<S>, i: int)
    requires IsSuffix(t, s) && 0 <= i < |t|
    ensures t[i] == s[|s| - |t| + i]
  {
  }

  lemma BeforeSuffix<S>(t: seq<S>, s: seq<S>, k: int)
    requires IsSuffix(t, s) && 0 <= k < |s| && s[k] !in t
    ensures k < |s| - |t|
  {
    if k >= |s| - |t| {
      SuffixIndex(t, s, k - (|s| - |t|));
    }
  }

  lemma GrowListStaircase<S>(c: Core<S>, c2: Core<S>, todo: seq<S>, b: int, stop: int, target: Option<S>)
    requires Staircase(c.stacks, todo) && Above(c.stacks, todo, b)
    requires Follows(c, c2) && forall s :: s in todo ==> s in c.stacks
    requires Pruned(c, c2, todo, stop, target)
    ensures Staircase(c2.stacks, c2.plist) && Above(c2.stacks, c2.plist, b)
  {
    hide Kin, Follows;
    forall i | 0 <= i < |c2.plist| ensures b <= c2.stacks[c2.plist[i]].Edge() {
      SuffixIndex(c2.plist, todo, i);
      KinEdges(c, c2, c2.plist[i]);
    }
    forall i, j | 0 <= i < j < |c2.plist| ensures c2.stacks[c2.plist[i]].far <= c2.stacks[c2.plist[j]].Edge() {
      SuffixIndex(c2.plist, todo, i);
      SuffixIndex(c2.plist, todo, j);
      KinEdges(c, c2, c2.plist[i]);
      KinEdges(c, c2, c2.plist[j]);
    }
  }

  /** Past the target, every stack is saved at least up to where the target ends. */
  lemma GrowListAbove<S>(c: Core<S>, g: Grown<S>, todo: seq<S>, stop: int, target: Option<S>, failOk: bool,
                         mainStack: Option<S>)
    requires GrowPre(c, todo, stop, target) && forall s :: s in todo ==> s in c.stacks
    requires Follows(c, g.core) && Pruned(c, g.core, todo, stop, target)
    requires Reached(c, g, todo, stop, target, failOk, mainStack) && !g.fail
    ensures Above(g.core.stacks, g.core.plist, stop)
  {
    hide Kin, Follows, StackOk, StacksOk, IsSuffix;
    if target.Some? && target.value in todo {
      var k :| 0 <= k < |todo| && todo[k] == target.value;
      var d := |todo| - |g.core.plist|;
      BeforeSuffix(g.core.plist, todo, k);
      forall i | 0 <= i < |g.core.plist| ensures stop <= g.core.stacks[g.core.plist[i]].Edge() {
        SuffixIndex(g.core.plist, todo, i);
        KinEdges(c, g.core, g.core.plist[i]);
        assert c.stacks[todo[k]].far <= c.stacks[todo[d + i]].Edge();
      }
    }
  }

  /** Growing the list keeps the staircase. When it succeeds nothing on the list needs the C stack below `stop`, and
      the target is off the list; when it fails the list still holds exactly the half-saved stacks. */
  lemma GrowListKeeps<S>(c: Core<S>, b: int, stop: int, target: Option<S>, failOk: bool, mainStack: Option<S>)
    requires CoreInv(c, b) && GrowPre(c, c.plist, stop, target)
    requires forall s :: s in c.plist ==> s in c.stacks
    ensures var g := GrowList(c, c.plist, stop, target, failOk, mainStack);
            && StacksOk(g.core) && Staircase(g.core.stacks, g.core.plist) && Above(g.core.stacks, g.core.plist, b)
            && (g.fail ==> CoreInv(g.core, b))
            && (!g.fail ==> && Above(g.core.stacks, g.core.plist, stop)
                            && ListExact(g.core, target)
                            && (target.Some? ==> target.value !in g.core.plist))
  {
    hide StackOk, Kin, Above, GrowPre, GrowList;
    var g := GrowList(c, c.plist, stop, target, failOk, mainStack);
    GrowListFollows(c, c.plist, stop, target, failOk, mainStack);
    GrowListPrunes(c, c.plist, stop, target, failOk, mainStack);
    GrowListReaches(c, c.plist, stop, target, failOk, mainStack);
    GrowListStaircase(c, g.core, c.plist, b, stop, target);
    if !g.fail {
      GrowListAbove(c, g, c.plist, stop, target, failOk, mainStack);
    }
    GrowListExact(c, g, stop, target, failOk, mainStack);
    assert forall s :: s in g.core.plist ==> s in c.plist;
  }

  lemma GrowListExact<S>(c: Core<S>, g: Grown<S>, stop: int, target: Option<S>, failOk: bool, mainStack: Option<S>)
    requires ListExact(c, None) && forall s :: s in c.plist ==> s in c.stacks
    requires Followed(c, g.core, c.plist, failOk, mainStack) && Pruned(c, g.core, c.plist, stop, target)
    requires Reached(c, g, c.plist, stop, target, failOk, mainStack)
    ensures ListExact(g.core, if g.fail then None else target)
  {
    hide StackOk, Kin, StackV.Partial;
    forall s | s in g.core.stacks && (g.fail || target != Some(s))
      ensures s in g.core.plist <==> g.core.stacks[s].Partial()
    {
      assert s in c.plist || g.core.stacks[s] == c.stacks[s];
      if s in g.core.plist {
        var i :| 0 <= i < |g.core.plist| && g.core.plist[i] == s;
        SuffixIndex(g.core.plist, c.plist, i);
      }
    }
  }
}
