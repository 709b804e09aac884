/** Saved stacks as they are kept in memory: stacks and chunks are objects that are updated in place, half-saved stacks
    hang on an intrusive list, and the C stack is one array. Every method is proved to do to the objects what the
    function of the same name in StackModel does to their values. */
module StackStore {
  import opened Base
  import SM = StackModel
  import opened StackProofs

  /** tealet_chunk_t. The bytes are copied in when the chunk is made and never change. */
  class Chunk {
    const near: int
    const data: seq<byte>
    var refcount: int
    var next: Chunk?
    /** Whose chain this chunk is on, and where. */
    ghost var owner: Stack?
    ghost var pos: nat

    constructor (near: int, data: seq<byte>)
      ensures this.near == near && this.data == data && refcount == 1 && next == null
    {
      this.near, this.data, refcount, next := near, data, 1, null;
    }
  }

  /** tealet_stack_t::prev: the pointer variable that points at a stack. */
  datatype Slot = NoSlot | HeadSlot | NextOf(node: Stack)

  /** tealet_stack_t. */
  class Stack {
    var refcount: int
    var prev: Slot
    var next: Stack?
    var defunct: bool
    const far: int
    var saved: int
    var last: Chunk
    const chunk: Chunk
    /** The chain of chunks, the initial one first. */
    ghost var chain: seq<Chunk>

    constructor (near: int, far: int, data: seq<byte>)
      ensures fresh(chunk) && chunk.near == near && chunk.data == data && this.far == far
      ensures refcount == 1 && prev == NoSlot && !defunct && saved == |data|
      ensures chain == [chunk] && last == chunk && ChainOk()
    {
      var c := new Chunk(near, data);
      refcount, prev, next, defunct, this.far, saved := 1, NoSlot, null, false, far, |data|;
      chunk, last, chain := c, c, [c];
      new;
      chunk.owner, chunk.pos := this, 0;
    }

    /** The chunks hang together and belong to nobody else. */
    ghost predicate ChainOk()
      reads this`chain, this`last, chain
    {
      && |chain| > 0 && chain[0] == chunk && last == chain[|chain| - 1] && last.next == null
      && (forall i :: 0 <= i < |chain| ==> chain[i].owner == this && chain[i].pos == i && chain[i].refcount == 1)
      && (forall i, j :: 0 <= i < |chain| && j == i + 1 < |chain| ==> chain[i].next == chain[j])
    }

    ghost function Record(): SM.StackV
      reads this`refcount, this`defunct, this`saved, this`chain
    {
      SM.StackV(refcount, far, defunct, saved, SM.ChunkV(chunk.near, chunk.data),
                if |chain| > 0 then Values(chain[1..]) else [])
    }

    /** The first part of tealet_stack_defunct: everything but the first chunk is taken off the chain. */
    method GiveUp() returns (rest: Chunk?)
      requires ChainOk()
      modifies this`defunct, this`saved, this`last, this`chain, chunk`next
      ensures rest == old(chunk.next) && chain == [chunk] && ChainOk()
      ensures Record() == GaveUp(old(Record()))
    {
      rest := chunk.next;
      chunk.next := null;
      last := chunk;
      defunct := true;
      saved := 0;
      chain := [chunk];
    }

    /** tealet_get_stats: the size of all blocks of this stack. */
    method ExpandedSize() returns (n: int)
      requires ChainOk()
      ensures n == SM.StackBytes(Record())
    {
      hide SM.ChunkBytes, Values;
      ghost var run := chain[1..];
      NoBytes(run);
      n := SM.STACK_HDR + |chunk.data|;
      var at: Chunk? := chunk.next;
      ghost var i := 1;
      while at != null
        invariant 1 <= i <= |chain| && at == if i < |chain| then chain[i] else null
        invariant n == SM.STACK_HDR + |chunk.data| + SM.ChunkBytes(Values(run[..i - 1]))
        decreases |chain| - i
      {
        n := n + SM.CHUNK_HDR + |at.data|;
        BytesSnoc(run, i - 1);
        at := at.next;
        i := i + 1;
      }
      assert run[..i - 1] == run;
    }

    /** tealet_get_stats: the farthest end of a chunk. */
    method EffectiveFar() returns (far: int)
      requires ChainOk() && Tiled(Record())
      ensures far == chunk.near + |Record().Bytes()|
    {
      hide SM.Concat, Tiled;
      ghost var v := Record();
      far := chunk.near + |chunk.data|;
      var at: Chunk? := chunk.next;
      ghost var i := 1;
      NoneJoined(v.more);
      while at != null
        invariant 1 <= i <= |chain| && at == if i < |chain| then chain[i] else null
        invariant far == chunk.near + |chunk.data| + |SM.Concat(v.more[..i - 1])|
        decreases |chain| - i
      {
        assert v.more[i - 1] == SM.ChunkV(at.near, at.data);
        ChunkEnd(v, i);
        var chunkFar := at.near + |at.data|;
        if chunkFar > far {
          far := chunkFar;
        }
        at := at.next;
        i := i + 1;
      }
      assert v.more[..i - 1] == v.more;
    }

    lemma NoneJoined(more: seq<SM.ChunkV>)
      ensures SM.Concat(more[..0]) == []
    {
    }

    /** A chunk begins where the ones before it end. */
    lemma ChunkEnd(v: SM.StackV, i: nat)
      requires Tiled(v) && 1 <= i <= |v.more|
      ensures v.more[i - 1].near == v.first.near + |v.first.data| + |SM.Concat(v.more[..i - 1])|
      ensures |SM.Concat(v.more[..i])| == |SM.Concat(v.more[..i - 1])| + |v.more[i - 1].data|
    {
      TiledAt(v.first.near + |v.first.data|, v.more, i - 1);
      assert v.more[..i] == v.more[..i - 1] + [v.more[i - 1]];
      ConcatAppend(v.more[..i - 1], v.more[i - 1]);
    }

    /** tealet_stack_restore: the loop over the chunks. */
    method Restore(mem: array<byte>)
      requires ChainOk() && forall c :: c in chain ==> 0 <= c.near && c.near + |c.data| <= mem.Length
      modifies mem
      ensures var v := Record();
              mem[..] == SM.RestoreChunks(Patch(old(mem[..]), v.first.near, v.first.data), v.more)
    {
      hide Patch;
      CopyBack(mem, chunk.near, chunk.data);
      ghost var start := mem[..];
      var at: Chunk? := chunk.next;
      ghost var i := 1;
      while at != null
        invariant 1 <= i <= |chain| && at == if i < |chain| then chain[i] else null
        invariant mem[..] == SM.RestoreChunks(start, Values(chain[1..i]))
        decreases |chain| - i
      {
        CopyBack(mem, at.near, at.data);
        assert chain[1..i + 1] == chain[1..i] + [chain[i]];
        ValuesSnoc(chain[1..i], chain[i]);
        at := at.next;
        i := i + 1;
      }
      assert chain[1..i] == chain[1..];
    }

    /** The end of tealet_stack_grow: a new chunk goes to the end of the chain. */
    method Append(data: seq<byte>)
      requires ChainOk()
      modifies this`saved, this`last, this`chain, last`next
      ensures ChainOk() && |chain| == |old(chain)| + 1 && chain == old(chain) + [chain[|old(chain)|]]
      ensures fresh(chain[|old(chain)|])
      ensures last == chain[|old(chain)|] && Record() == Appended(old(Record()), data)
    {
      var c := new Chunk(chunk.near + saved, data);
      c.owner, c.pos := this, |chain|;
      last.next := c;
      last := c;
      saved := saved + |data|;
      chain := chain + [c];
      assert Values(chain[1..]) == Values(old(chain)[1..]) + [SM.ChunkV(c.near, c.data)];
    }
  }

  /** memcpy onto the C stack. */
  method CopyBack(mem: array<byte>, at: int, bytes: seq<byte>)
    requires 0 <= at && at + |bytes| <= mem.Length
    modifies mem
    ensures mem[..] == Patch(old(mem[..]), at, bytes)
  {
    var i := 0;
    while i < |bytes|
      invariant 0 <= i <= |bytes|
      invariant mem[..] == Patch(old(mem[..]), at, bytes[..i])
    {
      mem[at + i] := bytes[i];
      i := i + 1;
    }
    assert bytes[..i] == bytes;
  }

  /** A saved stack with one more chunk. */
  ghost function Appended(v: SM.StackV, data: seq<byte>): SM.StackV {
    v.(saved := v.saved + |data|, more := v.more + [SM.ChunkV(v.Edge(), data)])
  }

  /** The counters after one more chunk in a block of `size` bytes, which holds `k` stacks. */
  ghost function ChunkAdded(st: SM.Stats, size: int, k: int): SM.Stats {
    SM.Stats(st.bytes + size, st.blocks + 1, st.stackBytes + size, st.stackCount + k, st.chunkCount + 1)
  }

  function SomeStack(s: Stack?): Option<Stack?> { if s == null then None else Some(s) }

  ghost function Values(chunks: seq<Chunk>): seq<SM.ChunkV> {
    seq(|chunks|, i requires 0 <= i < |chunks| => SM.ChunkV(chunks[i].near, chunks[i].data))
  }

  lemma {:induction false} ConcatPart(chunks: seq<SM.ChunkV>, i: nat)
    requires i < |chunks|
    ensures |SM.Concat(chunks[..i])| + |chunks[i].data| <= |SM.Concat(chunks)|
  {
    var k := |chunks| - 1;
    if i < k {
      ConcatPart(chunks[..k], i);
      assert chunks[..k][..i] == chunks[..i];
    }
  }

  lemma ValuesSnoc(chunks: seq<Chunk>, c: Chunk)
    ensures Values(chunks + [c]) == Values(chunks) + [SM.ChunkV(c.near, c.data)]
  {
  }

  lemma NoBytes(run: seq<Chunk>)
    ensures SM.ChunkBytes(Values(run[..0])) == 0
  {
  }

  lemma BytesSnoc(run: seq<Chunk>, i: nat)
    requires i < |run|
    ensures SM.ChunkBytes(Values(run[..i + 1])) == SM.ChunkBytes(Values(run[..i])) + SM.CHUNK_HDR + |run[i].data|
  {
    assert run[..i + 1] == run[..i] + [run[i]];
    ValuesSnoc(run[..i], run[i]);
    ConcatAppend(Values(run[..i]), SM.ChunkV(run[i].near, run[i].data));
  }

  /** The part of tealet_main_t that the stack routines work on: the C stack, the allocator with its statistics, and
      the list of half-saved stacks. */
  class Store {
    const mem: array<byte>
    /** The allocator: its answer to the n-th request. */
    const alloc: nat -> bool
    var ticks: nat
    var stats: SM.Stats
    var gPrev: Stack?

    /** The live stacks, every chunk ever allocated, the contents of the list, and the copies made. */
    ghost var stacks: set<Stack>
    ghost var chunks: set<Chunk>
    ghost var plist: seq<Stack>
    ghost var log: seq<SM.Range>

    constructor (mem: array<byte>, alloc: nat -> bool, mainSize: int)
      requires mem.Length < FURTHEST
      ensures Valid() && this.mem == mem && stacks == {} && chunks == {}
      ensures CoreView() == SM.Core(mem[..], map[], [], alloc, 1, SM.Stats(mainSize, 1, 0, 0, 0), [])
    {
      this.mem, this.alloc, ticks, stats, gPrev := mem, alloc, 1, SM.Stats(mainSize, 1, 0, 0, 0), null;
      stacks, chunks, plist, log := {}, {}, [], [];
      new;
      assert StackMap() == map[];
    }

    /* ---- the values behind the objects ---- */

    ghost function StackMap(): map<Stack?, SM.StackV>
      reads this`stacks, stacks`refcount, stacks`defunct, stacks`saved, stacks`chain
    {
      map s: Stack? | s in stacks :: s.Record()
    }

    ghost function MemView(): seq<byte>
      reads mem
    {
      mem[..]
    }

    ghost function CoreView(): SM.Core<Stack?>
      reads this`plist, this`ticks, this`stats, this`log, mem
      reads this`stacks, stacks`refcount, stacks`defunct, stacks`saved, stacks`chain
    {
      SM.Core(MemView(), StackMap(), plist, alloc, ticks, stats, log)
    }

    /** The intrusive list: `next` leads to the next older stack, `prev` names the pointer that leads here. */
    ghost predicate ListOk()
      reads this`gPrev, this`plist, this`stacks, stacks`next, stacks`prev
    {
      && (forall s :: s in plist ==> s in stacks)
      && NoDup(plist)
      && (plist == [] ==> gPrev == null)
      && (plist != [] ==> gPrev == plist[0] && gPrev.prev == HeadSlot && plist[|plist| - 1].next == null)
      && (forall i, j :: 0 <= i < |plist| && j == i + 1 < |plist| ==>
            plist[i].next == plist[j] && plist[j].prev == NextOf(plist[i]))
      && (forall s :: s in stacks ==> (s.prev == NoSlot <==> s !in plist))
    }

    ghost predicate ChainsOk()
      reads this`stacks, this`chunks, stacks`chain, stacks`last, chunks
    {
      forall s :: s in stacks ==> (forall c :: c in s.chain ==> c in chunks) && s.ChainOk()
    }

    ghost predicate Valid()
      reads this`gPrev, this`plist, this`stacks, this`chunks
      reads stacks`next, stacks`prev, stacks`chain, stacks`last, chunks
    {
      ListOk() && ChainsOk()
    }

    lemma PlistOf()
      ensures CoreView().plist == plist && |CoreView().mem| == mem.Length
    {
    }

    lemma StackAt(s: Stack)
      ensures s in stacks <==> s in StackMap()
      ensures s in stacks ==> StackMap()[s] == s.Record()
    {
    }

    /* ---- allocation and its statistics ---- */

    /** tealet_int_malloc. */
    method Malloc() returns (ok: bool)
      modifies this`ticks
      ensures ok == alloc(old(ticks)) && ticks == old(ticks) + 1
    {
      ok := alloc(ticks);
      ticks := ticks + 1;
    }

    /** STATS_ADD_ALLOC. */
    method StatsAddAlloc(size: int)
      modifies this`stats
      ensures stats == old(stats).(bytes := old(stats).bytes + size, blocks := old(stats).blocks + 1)
    {
      stats := stats.(bytes := stats.bytes + size, blocks := stats.blocks + 1);
    }

    /** The first part of tealet_stack_new and tealet_stack_grow: a block of `size` bytes is allocated for one more chunk,
        with the bytes at lo..hi, and for `k` more stacks. */
    method Charge(size: int, k: int, ghost lo: int, ghost hi: int) returns (ok: bool)
      modifies this`ticks, this`stats, this`log
      ensures ok == alloc(old(ticks)) && ticks == old(ticks) + 1
      ensures stats == if ok then ChunkAdded(old(stats), size, k) else old(stats)
      ensures log == if ok then old(log) + [SM.Range(lo, hi)] else old(log)
    {
      ok := Malloc();
      if ok {
        StatsAddAlloc(size);
        stats := stats.(stackCount := stats.stackCount + k, chunkCount := stats.chunkCount + 1,
                        stackBytes := stats.stackBytes + size);
        log := log + [SM.Range(lo, hi)];
      }
    }

    /** STATS_SUB_ALLOC. */
    method StatsSubAlloc(size: int)
      modifies this`stats
      ensures stats == old(stats).(bytes := old(stats).bytes - size, blocks := old(stats).blocks - 1)
    {
      stats := stats.(bytes := stats.bytes - size, blocks := stats.blocks - 1);
    }

    /** The blocks of tealets come from the same allocator. */
    method AllocBlock(size: int) returns (ok: bool)
      modifies this`ticks, this`stats
      ensures var c := old(CoreView());
              && ok == c.alloc(c.ticks)
              && CoreView() == c.(
                ticks := c.ticks + 1,
                stats := if ok then c.stats.(bytes := c.stats.bytes + size, blocks := c.stats.blocks + 1) else c.stats)
    {
      hide StackMap, MemView;
      ok := Malloc();
      if ok {
        StatsAddAlloc(size);
      }
    }

    method FreeBlock(size: int)
      modifies this`stats
      ensures var c := old(CoreView());
              CoreView() == c.(stats := c.stats.(bytes := c.stats.bytes - size, blocks := c.stats.blocks - 1))
    {
      hide StackMap, MemView;
      StatsSubAlloc(size);
    }

    /* ---- saving, growing and restoring one stack ---- */

    /** A new stack and its chunk enter the domain. */
    method MakeStack(near: int, far: int, bytes: seq<byte>) returns (t: Stack)
      requires Valid()
      modifies this`stacks, this`chunks
      ensures Valid() && fresh(t) && t in stacks && t.prev == NoSlot && fresh(stacks - old(stacks)) && fresh(chunks - old(chunks))
      ensures StackMap() == old(StackMap())[t := SM.StackV(1, far, false, |bytes|, SM.ChunkV(near, bytes), [])]
    {
      t := new Stack(near, far, bytes);
      stacks, chunks := stacks + {t}, chunks + {t.chunk};
      assert t.Record().more == [];
      NewStackValid(t);
      NewStackMap(t);
    }

    twostate lemma NewStackValid(new t: Stack)
      requires old(Valid()) && unchanged(old(stacks)) && unchanged(old(chunks))
      requires unchanged(`gPrev) && unchanged(`plist)
      requires t !in old(stacks) && t.ChainOk() && t.chain == [t.chunk] && t.prev == NoSlot
      requires stacks == old(stacks) + {t} && chunks == old(chunks) + {t.chunk}
      ensures Valid()
    {
      hide Stack.ChainOk;
      assert ListOk();
      forall s | s in stacks ensures (forall c :: c in s.chain ==> c in chunks) && s.ChainOk() {
        if s != t {
          assert old(s.ChainOk());
        }
      }
    }

    twostate lemma NewStackMap(new t: Stack)
      requires unchanged(old(stacks)) && t !in old(stacks) && stacks == old(stacks) + {t}
      ensures StackMap() == old(StackMap())[t := t.Record()]
    {
      hide Stack.Record;
    }

    lemma StackNewIs(c: SM.Core<Stack?>, c2: SM.Core<Stack?>, s: Stack?, near: int, far: int, size: int)
      requires 0 <= near && 0 <= size && near + size <= |c.mem| && c.alloc(c.ticks)
      requires c2 == c.(
        ticks := c.ticks + 1,
        stacks := c.stacks[s := SM.StackV(1, far, false, size, SM.ChunkV(near, c.mem[near..near + size]), [])],
        log := c.log + [SM.Range(near, near + size)],
        stats := ChunkAdded(c.stats, SM.STACK_HDR + size, 1))
      ensures SM.StackNew(c, s, near, far, size) == SM.Grown(c2, false, false)
    {
    }

    /** tealet_stack_new. */
    method StackNew(near: int, far: int, size: int) returns (s: Stack?)
      requires Valid() && 0 <= near && 0 <= size && near + size <= mem.Length
      modifies this`ticks, this`stats, this`stacks, this`chunks, this`log
      ensures Valid() && fresh(stacks - old(stacks)) && fresh(chunks - old(chunks))
      ensures s != null ==> s in stacks && fresh(s) && s.prev == NoSlot
      ensures var g := SM.StackNew(old(CoreView()), s, near, far, size);
              (s == null <==> g.fail) && CoreView() == g.core
    {
      hide Valid, StackMap;
      var tsize := SM.STACK_HDR + size;
      var ok := Charge(tsize, 1, near, near + size);
      if !ok {
        return null;
      }
      s := MakeStack(near, far, mem[near..near + size]);
      StackNewIs(old(CoreView()), CoreView(), s, near, far, size);
    }

    twostate lemma GrownValid(s: Stack)
      requires old(Valid()) && s in stacks && stacks == old(stacks) && unchanged(`gPrev) && unchanged(`plist)
      requires forall u :: u in stacks && u != s ==> unchanged(u)
      requires unchanged(s`next) && unchanged(s`prev)
      requires forall c :: c in old(chunks) && c != old(s.last) ==> unchanged(c)
      requires s.ChainOk() && s.chain == old(s.chain) + [s.last]
      requires chunks == old(chunks) + {s.last}
      ensures Valid()
    {
      assert ListOk();
      assert old(s.ChainOk());
      forall u | u in stacks ensures (forall c :: c in u.chain ==> c in chunks) && u.ChainOk() {
        assert old(u.ChainOk());
        if u != s {
          forall i | 0 <= i < |u.chain| ensures u.chain[i] in old(chunks) && unchanged(u.chain[i]) {
            assert u.chain[i] in old(u.chain);
            assert old(u.chain[i].owner) == u;
            assert old(s.last.owner) == s;
          }
          assert unchanged(u.chain);
        }
      }
    }

    twostate lemma ChangedMap(s: Stack)
      requires s in stacks && stacks == old(stacks) && forall u :: u in stacks && u != s ==> unchanged(u)
      ensures StackMap() == old(StackMap())[s := s.Record()]
    {
      hide Stack.Record;
    }

    lemma ChainAt(s: Stack)
      requires Valid() && s in stacks
      ensures s.ChainOk() && s.last in chunks && s.last in s.chain
    {
    }

    /** A new chunk goes to the end of the chain. */
    method Extend(s: Stack, bytes: seq<byte>)
      requires Valid() && s in stacks
      modifies this`chunks, s`saved, s`last, s`chain, chunks`next
      ensures Valid() && fresh(chunks - old(chunks))
      ensures StackMap() == old(StackMap())[s := Appended(old(s.Record()), bytes)]
    {
      ChainAt(s);
      hide Appended, StackMap, Valid, ListOk, ChainsOk, Stack.ChainOk, Stack.Record;
      s.Append(bytes);
      chunks := chunks + {s.last};
      GrownValid(s);
      ChangedMap(s);
    }

    lemma StackGrowIs(c: SM.Core<Stack?>, c2: SM.Core<Stack?>, s: Stack?, size: int, bytes: seq<byte>)
      requires s in c.stacks && c.alloc(c.ticks)
      requires var v := c.stacks[s]; bytes == Slice(c.mem, v.Edge(), v.first.near + size) && |bytes| == size - v.saved
      requires c2 == c.(
        ticks := c.ticks + 1,
        stacks := c.stacks[s := Appended(c.stacks[s], bytes)],
        log := c.log + [SM.Range(c.stacks[s].Edge(), c.stacks[s].first.near + size)],
        stats := ChunkAdded(c.stats, SM.CHUNK_HDR + |bytes|, 0))
      ensures SM.GrowStack(c, s, size) == SM.Grown(c2, false, false)
    {
      hide Slice;
    }

    /** What growing a stack to `size` bytes copies. */
    lemma GrowthAt(s: Stack, size: int)
      requires s in stacks
      requires 0 <= s.chunk.near + s.saved <= s.chunk.near + size <= mem.Length
      ensures var c, v := CoreView(), s.Record(); var edge, end := s.chunk.near + s.saved, s.chunk.near + size;
              && s in c.stacks && c.stacks[s] == v && v.saved == s.saved && v.Edge() == edge && v.first.near + size == end
              && Slice(c.mem, edge, end) == mem[edge..end] && |mem[edge..end]| == end - edge
    {
    }

    /** tealet_stack_grow. */
    method StackGrow(s: Stack, size: int) returns (ok: bool)
      requires Valid() && s in stacks
      requires 0 <= s.chunk.near + s.saved && s.saved < size && s.chunk.near + size <= mem.Length
      modifies this`ticks, this`stats, this`chunks, this`log, s`saved, s`last, s`chain, chunks`next
      ensures Valid() && fresh(chunks - old(chunks))
      ensures var g := SM.GrowStack(old(CoreView()), s, size);
              (ok <==> !g.fail) && CoreView() == g.core
    {
      hide Valid, StackMap, MemView, Slice, Stack.Record, SM.StackV.Edge, Appended, ChunkAdded;
      ghost var c := CoreView();
      GrowthAt(s, size);
      var edge, end := s.chunk.near + s.saved, s.chunk.near + size;
      var tsize := SM.CHUNK_HDR + size - s.saved;
      ok := Charge(tsize, 0, edge, end);
      if !ok {
        return;
      }
      var bytes := mem[edge..end];
      Extend(s, bytes);
      StackGrowIs(c, CoreView(), s, size, bytes);
    }

    lemma CoreAt(s: Stack)
      ensures s in stacks <==> s in CoreView().stacks
      ensures s in stacks ==> CoreView().stacks[s] == s.Record()
    {
    }

    /** Every chunk of a well-formed stack lies inside the C stack. */
    lemma ChunksInside(s: Stack)
      requires Valid() && s in stacks && StackOk(s.Record(), mem.Length)
      ensures forall c :: c in s.chain ==> 0 <= c.near && c.near + |c.data| <= mem.Length
    {
      hide ListOk, SM.Concat;
      ChainParts(s);
      var v := s.Record();
      forall i | 0 <= i < |s.chain| ensures 0 <= s.chain[i].near && s.chain[i].near + |s.chain[i].data| <= mem.Length {
        if i > 0 {
          assert v.more[i - 1] == SM.ChunkV(s.chain[i].near, s.chain[i].data);
          ConcatPart(v.more, i - 1);
          TiledAt(v.first.near + |v.first.data|, v.more, i - 1);
        }
      }
    }

    /** tealet_stack_restore. */
    method StackRestore(s: Stack)
      requires Valid() && s in stacks
      requires forall c :: c in s.chain ==> 0 <= c.near && c.near + |c.data| <= mem.Length
      modifies mem
      ensures Valid() && CoreView() == SM.Restore(old(CoreView()), s)
    {
      hide Valid, StackMap, Stack.ChainOk, Stack.Record, SM.RestoreChunks, Patch;
      ChainAt(s);
      StackAt(s);
      s.Restore(mem);
    }

    /* ---- the list of half-saved stacks ---- */

    twostate lemma LinkedOk(s: Stack)
      requires old(ListOk()) && s in stacks && stacks == old(stacks) && old(s.prev) == NoSlot
      requires gPrev == s && s.next == old(gPrev) && s.prev == HeadSlot && plist == [s] + old(plist)
      requires forall u :: u in stacks && u != s ==> u.next == old(u.next)
      requires forall u :: u in stacks && u != s && u != old(gPrev) ==> u.prev == old(u.prev)
      requires old(gPrev) != null ==> old(gPrev).prev == NextOf(s)
      ensures ListOk()
    {
      forall i, j | 0 <= i < |plist| && j == i + 1 < |plist|
        ensures plist[i].next == plist[j] && plist[j].prev == NextOf(plist[i])
      {
        if i > 0 {
          assert plist[i] == old(plist)[i - 1] && plist[j] == old(plist)[i];
        }
      }
    }

    /** tealet_stack_link. */
    method StackLink(s: Stack)
      requires Valid() && s in stacks && s.prev == NoSlot
      modifies this`gPrev, this`plist, stacks`next, stacks`prev
      ensures Valid() && CoreView() == SM.Link(old(CoreView()), s)
    {
      hide ListOk, ChainsOk, StackMap;
      HeadOk(s);
      assert gPrev != s;
      assert gPrev != null ==> gPrev.prev == HeadSlot;
      s.next := gPrev;
      if s.next != null {
        s.next.prev := NextOf(s);
      }
      s.prev := HeadSlot;
      gPrev := s;
      plist := [s] + plist;
      LinkedOk(s);
    }

    lemma HeadOk(s: Stack)
      requires ListOk() && s in stacks && s.prev == NoSlot
      ensures gPrev != s && (gPrev != null ==> gPrev in stacks && gPrev.prev == HeadSlot)
    {
    }

    /** Where a listed stack is on the list, and what its pointers say. */
    lemma Listed(s: Stack) returns (k: nat)
      requires ListOk() && s in stacks && s.prev != NoSlot
      ensures k < |plist| && plist[k] == s
      ensures if k == 0 then s.prev == HeadSlot && gPrev == s
              else plist[k - 1] in stacks && s.prev == NextOf(plist[k - 1]) && plist[k - 1].next == s
      ensures if k == |plist| - 1 then s.next == null
              else plist[k + 1] in stacks && s.next == plist[k + 1] && plist[k + 1].prev == NextOf(s)
      ensures Remove<Stack?>(plist, s) == plist[..k] + plist[k + 1..]
      ensures forall i :: 0 <= i < |plist| && i != k ==> plist[i] != s
    {
      hide Remove;
      k :| k < |plist| && plist[k] == s;
      hide ListOk;
      LinksAt(k);
      OnceAt(k);
    }

    lemma LinksAt(k: nat)
      requires ListOk() && k < |plist|
      ensures if k == 0 then plist[k].prev == HeadSlot && gPrev == plist[k]
              else plist[k - 1] in stacks && plist[k].prev == NextOf(plist[k - 1]) && plist[k - 1].next == plist[k]
      ensures if k == |plist| - 1 then plist[k].next == null
              else plist[k + 1] in stacks && plist[k].next == plist[k + 1] && plist[k + 1].prev == NextOf(plist[k])
    {
    }

    lemma OnceAt(k: nat)
      requires ListOk() && k < |plist|
      ensures Remove<Stack?>(plist, plist[k]) == plist[..k] + plist[k + 1..]
      ensures forall i :: 0 <= i < |plist| && i != k ==> plist[i] != plist[k]
    {
      assert NoDup<Stack?>(plist);
      RemoveAt<Stack?>(plist, k);
    }

    /** The pointers after stack `s`, which was at index k, has been cut out of the list. */
    twostate predicate CutOut(s: Stack, new k: nat)
      reads this`gPrev, this`plist, this`stacks, stacks`next, stacks`prev
    {
      && s in stacks && stacks == old(stacks)
      && k < |old(plist)| && old(plist)[k] == s && plist == old(plist)[..k] + old(plist)[k + 1..]
      && (k == 0 ==> gPrev == old(s.next)) && (k > 0 ==> gPrev == old(gPrev))
      && s.prev == NoSlot
      && (k > 0 ==> old(plist)[k - 1] in stacks && old(plist)[k - 1].next == old(s.next))
      && (forall u :: u in stacks && u != s && !(k > 0 && u == old(plist)[k - 1]) ==> u.next == old(u.next))
      && (old(s.next) != null ==> old(s.next) in stacks && old(s.next).prev == old(s.prev))
      && (forall u :: u in stacks && u != s && u != old(s.next) ==> u.prev == old(u.prev))
    }

    twostate lemma CutLinks(s: Stack, new k: nat, new i: nat)
      requires old(ListOk()) && CutOut(s, k) && i + 1 < |plist|
      ensures plist[i] in stacks && plist[i + 1] in stacks
      ensures plist[i].next == plist[i + 1] && plist[i + 1].prev == NextOf(plist[i])
    {
      ghost var was := old(plist);
      if i + 1 < k {
        assert plist[i] == was[i] && plist[i + 1] == was[i + 1] && was[i] != was[k - 1];
        assert k + 1 < |was| ==> old(was[k].next) == was[k + 1] && was[i + 1] != was[k + 1];
      } else if i + 1 == k {
        assert plist[i] == was[i] && plist[i + 1] == was[k + 1];
        assert old(was[k].next) == was[k + 1] && old(was[k].prev) == NextOf(was[i]);
      } else {
        assert plist[i] == was[i + 1] && plist[i + 1] == was[i + 2] && was[i + 2] != was[k + 1];
        assert old(was[k].next) == was[k + 1] && old(was[i + 1].next) == was[i + 2];
      }
    }

    twostate lemma CutEnds(s: Stack, new k: nat)
      requires old(ListOk()) && CutOut(s, k)
      ensures if |plist| == 0 then gPrev == null
              else gPrev == plist[0] && gPrev in stacks && gPrev.prev == HeadSlot
                   && plist[|plist| - 1] in stacks && plist[|plist| - 1].next == null
    {
      ghost var was := old(plist);
      if k + 1 < |was| {
        assert old(was[k].next) == was[k + 1];
      }
      if plist != [] {
        assert plist[0] == if k == 0 then was[1] else was[0];
        assert plist[|plist| - 1] == if k == |was| - 1 then was[k - 1] else was[|was| - 1];
      }
    }

    twostate lemma CutMembers(s: Stack, new k: nat)
      requires old(ListOk()) && CutOut(s, k)
      ensures (forall u :: u in plist ==> u in stacks) && NoDup(plist)
      ensures forall u :: u in stacks ==> (u.prev == NoSlot <==> u !in plist)
    {
      CutElements<Stack?>(old(plist), k);
      forall u | u in stacks ensures u.prev == NoSlot <==> u !in plist {
        assert k + 1 < |old(plist)| ==> old(plist[k].next) == old(plist)[k + 1];
      }
    }

    twostate lemma UnlinkedOk(s: Stack, new k: nat)
      requires old(ListOk()) && CutOut(s, k)
      ensures ListOk()
    {
      CutMembers(s, k);
      CutEnds(s, k);
      forall i, j | 0 <= i < |plist| && j == i + 1 < |plist|
        ensures plist[i].next == plist[j] && plist[j].prev == NextOf(plist[i])
      {
        CutLinks(s, k, i);
      }
    }

    /** The pointer moves of tealet_stack_unlink. */
    method Bypass(s: Stack, ghost k: nat)
      requires ListOk() && s in stacks && s.prev != NoSlot && k < |plist| && plist[k] == s
      modifies this`gPrev, this`plist, stacks`next, stacks`prev
      ensures CutOut(s, k) && s.next == old(s.next)
    {
      ghost var i := Listed(s);
      hide ListOk;
      var next := s.next;
      assert next != null ==> next.prev == NextOf(s);
      if next != null {
        next.prev := s.prev;
      }
      match s.prev {
        case HeadSlot =>
          assert gPrev == s;
          gPrev := next;
        case NextOf(p) =>
          assert p.next == s;
          p.next := next;
      }
      s.prev := NoSlot;
      plist := plist[..k] + plist[k + 1..];
    }

    /** tealet_stack_unlink. The stack keeps its own `next`. */
    method StackUnlink(s: Stack)
      requires Valid() && s in stacks && s.prev != NoSlot
      modifies this`gPrev, this`plist, stacks`next, stacks`prev
      ensures Valid() && CoreView() == SM.Unlink(old(CoreView()), s) && s.next == old(s.next) && s.prev == NoSlot
    {
      hide ChainsOk, StackMap, Remove;
      ghost var k := Listed(s);
      hide ListOk;
      Bypass(s, k);
      UnlinkedOk(s, k);
    }

    /* ---- releasing ---- */

    /** tealet_chunk_decref. */
    method ChunkDecref(head: Chunk?, ghost run: seq<Chunk>)
      requires if run == [] then head == null else head == run[0] && run[|run| - 1].next == null
      requires forall i, j :: 0 <= i < |run| && j == i + 1 < |run| ==> run[i].next == run[j]
      requires NoDup(run) && forall c :: c in run ==> c.refcount == 1
      modifies this`stats, run`refcount
      ensures stats == SM.FreeChunks(old(stats), |run|, SM.ChunkBytes(Values(run)))
    {
      hide SM.ChunkBytes, Values;
      NoBytes(run);
      var chunk := head;
      ghost var i := 0;
      while chunk != null
        invariant 0 <= i <= |run| && chunk == if i < |run| then run[i] else null
        invariant forall k :: i <= k < |run| ==> run[k].refcount == 1
        invariant stats == SM.FreeChunks(old(stats), i, SM.ChunkBytes(Values(run[..i])))
        decreases |run| - i
      {
        chunk.refcount := chunk.refcount - 1;
        if chunk.refcount > 0 {
          return;
        }
        var next := chunk.next;
        StatsSubAlloc(SM.CHUNK_HDR + |chunk.data|);
        stats := stats.(chunkCount := stats.chunkCount - 1, stackBytes := stats.stackBytes - SM.CHUNK_HDR - |chunk.data|);
        BytesSnoc(run, i);
        chunk := next;
        i := i + 1;
      }
      assert run[..i] == run;
    }

    /** The chunks of a stack after the first, when they have been taken off its chain. */
    twostate predicate Detached(s: Stack)
      reads this`stacks, this`chunks, stacks`chain, stacks`last, chunks, s`chain
    {
      && s in old(stacks) && (stacks == old(stacks) || stacks == old(stacks) - {s}) && chunks == old(chunks)
      && (forall u :: u in stacks && u != s ==> u.chain == old(u.chain) && u.last == old(u.last))
      && (forall c :: c in old(chunks) && c !in old(s.chain) ==> unchanged(c))
      && (s in stacks ==> s.chain == [s.chunk] && s.chunk in chunks && s.ChainOk())
    }

    twostate lemma DetachedOk(s: Stack)
      requires old(ChainsOk()) && Detached(s)
      ensures ChainsOk()
    {
      assert old(s.ChainOk());
      forall u | u in stacks ensures (forall c :: c in u.chain ==> c in chunks) && u.ChainOk() {
        assert old(u.ChainOk());
        if u != s {
          forall i | 0 <= i < |u.chain| ensures u.chain[i] in old(chunks) && unchanged(u.chain[i]) {
            assert u.chain[i] in old(u.chain);
            assert old(u.chain[i].owner) == u;
            assert forall c :: c in old(s.chain) ==> old(c.owner) == s;
          }
          assert unchanged(u.chain);
        }
      }
    }

    /** tealet_stack_defunct. */
    method StackDefunct(s: Stack)
      requires Valid() && s in stacks
      modifies this`stats, s`defunct, s`saved, s`last, s`chain, chunks`next, chunks`refcount
      ensures Valid() && CoreView() == SM.Defunct(old(CoreView()), s)
    {
      hide ListOk, ChainsOk, StackMap, SM.ChunkBytes, SM.FreeChunks, Stack.Record, Stack.ChainOk;
      ChainParts(s);
      StackAt(s);
      ghost var run := s.chain[1..];
      var chunk := s.GiveUp();
      ChunkDecref(chunk, run);
      DetachedOk(s);
      ChangedMap(s);
    }

    /** A chain is its first chunk and a run of further ones. */
    lemma ChainParts(s: Stack)
      requires Valid() && s in stacks
      ensures s.ChainOk() && (forall c :: c in s.chain ==> c in chunks)
      ensures var run := s.chain[1..];
              && |s.Record().more| == |run| && s.Record().more == Values(run)
              && NoDup(run) && (forall c :: c in run ==> c.refcount == 1 && c != s.chunk && c in chunks)
              && (run == [] ==> s.chunk.next == null)
              && (run != [] ==> s.chunk.next == run[0] && run[|run| - 1].next == null)
              && (forall i, j :: 0 <= i < |run| && j == i + 1 < |run| ==> run[i].next == run[j])
    {
    }

    /** The stack structure itself is freed. */
    method StatsSubStack(size: int)
      modifies this`stats
      ensures var st := SM.FreeChunks(old(stats), 1, size); stats == st.(stackCount := st.stackCount - 1)
    {
      StatsSubAlloc(size);
      stats := stats.(stackCount := stats.stackCount - 1, chunkCount := stats.chunkCount - 1,
                      stackBytes := stats.stackBytes - size);
    }

    twostate lemma RemovedMap(s: Stack)
      requires s in old(stacks) && stacks == old(stacks) - {s} && forall u :: u in stacks ==> unchanged(u)
      ensures StackMap() == old(StackMap()) - {s}
    {
      hide Stack.Record;
    }

    twostate lemma RemovedOk(s: Stack)
      requires old(ListOk()) && s in old(stacks) && stacks == old(stacks) - {s} && old(s.prev) == NoSlot
      requires gPrev == old(gPrev) && plist == old(plist) && unchanged(old(stacks))
      ensures ListOk()
    {
      assert s !in plist && old(plist) == plist;
      forall u | u in plist ensures u in stacks {
        assert u in old(plist) && u in old(stacks);
      }
      forall i, j | 0 <= i < |plist| && j == i + 1 < |plist|
        ensures plist[i].next == plist[j] && plist[j].prev == NextOf(plist[i])
      {
        assert plist[i] in old(stacks) && plist[j] in old(stacks);
      }
    }

    /** The last part of tealet_stack_decref: an unlisted stack and its chunks are freed. */
    method FreeStack(s: Stack)
      requires Valid() && s in stacks && s.prev == NoSlot
      modifies this`stats, this`stacks, chunks`refcount
      ensures Valid() && stacks == old(stacks) - {s}
      ensures var c := old(CoreView());
              && s in c.stacks && var st := SM.FreeChunks(c.stats, |c.stacks[s].more| + 1, SM.StackBytes(c.stacks[s]));
                 CoreView() == c.(stacks := c.stacks - {s}, stats := st.(stackCount := st.stackCount - 1))
    {
      hide ListOk, ChainsOk, StackMap, SM.ChunkBytes, Stack.Record, Stack.ChainOk, SM.FreeChunks, SM.StackBytes;
      ChainParts(s);
      StackAt(s);
      FirstOf(s);
      FreedStats(stats, s.Record());
      ghost var run := s.chain[1..];
      var chunk := s.chunk.next;
      StatsSubStack(SM.STACK_HDR + |s.chunk.data|);
      stacks := stacks - {s};
      ChunkDecref(chunk, run);
      RemovedMap(s);
      RemovedOk(s);
      DetachedOk(s);
    }

    /** The first block of a stack and its further chunks, freed one after the other. */
    lemma FreedStats(st: SM.Stats, v: SM.StackV)
      ensures var st1 := SM.FreeChunks(st, 1, SM.STACK_HDR + |v.first.data|);
              var st2 := SM.FreeChunks(st, |v.more| + 1, SM.StackBytes(v));
              SM.FreeChunks(st1.(stackCount := st1.stackCount - 1), |v.more|, SM.ChunkBytes(v.more))
              == st2.(stackCount := st2.stackCount - 1)
    {
      hide SM.ChunkBytes;
    }

    lemma FirstOf(s: Stack)
      ensures var v := s.Record();
              && v.first == SM.ChunkV(s.chunk.near, s.chunk.data) && v.far == s.far && v.saved == s.saved
              && v.refcount == s.refcount && v.defunct == s.defunct
    {
    }

    method SetRefcount(s: Stack, n: int)
      requires Valid() && s in stacks
      modifies s`refcount
      ensures Valid() && s.refcount == n
      ensures s in old(CoreView()).stacks
      ensures var c := old(CoreView()); CoreView() == c.(stacks := c.stacks[s := c.stacks[s].(refcount := n)])
    {
      hide ListOk, ChainsOk, StackMap;
      StackAt(s);
      s.refcount := n;
      ChangedMap(s);
    }

    /** tealet_stack_dup. */
    method StackDup(s: Stack)
      requires Valid() && s in stacks
      modifies s`refcount
      ensures Valid() && s in old(CoreView()).stacks && CoreView() == SM.Dup(old(CoreView()), s)
    {
      hide Valid, StackMap, Stack.Record;
      StackAt(s);
      FirstOf(s);
      SetRefcount(s, s.refcount + 1);
    }

    /** The last reference: the stack leaves the list and is freed. */
    lemma DecrefIs(c: SM.Core<Stack?>, s: Stack, c2: SM.Core<Stack?>)
      requires s in c.stacks && c.stacks[s].refcount - 1 <= 0
      requires var v := c.stacks[s].(refcount := c.stacks[s].refcount - 1);
               var st := SM.FreeChunks(c.stats, |v.more| + 1, SM.StackBytes(v));
               c2 == c.(stacks := c.stacks[s := v] - {s}, plist := Remove(c.plist, s),
                        stats := st.(stackCount := st.stackCount - 1))
      ensures SM.Decref(c, s) == c2
    {
      hide SM.ChunkBytes, Remove;
      var v := c.stacks[s].(refcount := c.stacks[s].refcount - 1);
      assert c.stacks[s := v] - {s} == c.stacks - {s};
    }

    /** tealet_stack_decref. */
    method StackDecref(s: Stack?)
      requires Valid() && (s != null ==> s in stacks)
      modifies this`gPrev, this`plist, this`stats, this`stacks, stacks`next, stacks`prev, stacks`refcount, chunks`refcount
      ensures Valid() && stacks <= old(stacks) && chunks == old(chunks)
      ensures s == null ==> CoreView() == old(CoreView()) && stacks == old(stacks)
      ensures s != null ==> s in old(CoreView()).stacks && CoreView() == SM.Decref(old(CoreView()), s)
    {
      hide Valid, StackMap, Stack.Record, SM.StackBytes, SM.FreeChunks;
      if s == null {
        return;
      }
      StackAt(s);
      FirstOf(s);
      SetRefcount(s, s.refcount - 1);
      if s.refcount > 0 {
        return;
      }
      if s.prev != NoSlot {
        StackUnlink(s);
      } else {
        NotListed(s);
      }
      FreeStack(s);
      DecrefIs(old(CoreView()), s, CoreView());
    }

    lemma NotListed(s: Stack)
      requires Valid() && s in stacks && s.prev == NoSlot
      ensures Remove<Stack?>(plist, s) == plist
    {
      RemoveAbsent<Stack?>(plist, s);
    }

    /* ---- saving and growing on demand ---- */

    /** tealet_stack_saveto. */
    method StackSaveTo(near: int, far: int, stop: int) returns (s: Stack?, full: bool)
      requires Valid() && 0 <= near <= mem.Length && Min(far, stop) <= mem.Length < FURTHEST
      modifies this`ticks, this`stats, this`stacks, this`chunks, this`log
      ensures Valid() && fresh(stacks - old(stacks)) && fresh(chunks - old(chunks))
      ensures s != null ==> s in stacks && fresh(s) && s.prev == NoSlot
      ensures var g := SM.SaveTo(old(CoreView()), s, near, far, stop);
              (s == null <==> g.fail) && full == g.full && CoreView() == g.core
      ensures full <==> far <= stop
    {
      hide Valid, StackMap, SM.StackNew;
      var saveto := stop;
      full := far <= stop;
      if full {
        saveto := far;
      }
      assert saveto != FURTHEST;
      var size := saveto - near;
      if size < 0 {
        size := 0;
      }
      s := StackNew(near, far, size);
    }

    /** The bounds of what growing a half-saved stack up to `stop` copies. */
    lemma GrowBounds(s: Stack, stop: int)
      requires s in stacks && StackOk(s.Record(), mem.Length) && s.Record().Partial()
      requires stop <= mem.Length || s.far <= mem.Length
      ensures s in CoreView().stacks && CoreView().stacks[s] == s.Record() && s.Record().far == s.far
      ensures s.Record().first.near == s.chunk.near && s.Record().saved == s.saved
      ensures 0 <= s.chunk.near && 0 <= s.saved && s.far - s.chunk.near > s.saved
      ensures s.chunk.near + s.saved <= mem.Length
      ensures s.chunk.near + (Min(s.far, stop) - s.chunk.near) <= mem.Length < FURTHEST || FURTHEST <= mem.Length
    {
      hide Tiled, SM.Concat;
    }

    /** tealet_stack_growto. */
    method StackGrowTo(s: Stack, stop: int, failOk: bool, mainStack: Stack?) returns (fail: bool, full: bool)
      requires Valid() && s in stacks && StackOk(s.Record(), mem.Length) && s.Record().Partial()
      requires mem.Length < FURTHEST && (stop <= mem.Length || s.far <= mem.Length)
      modifies this`ticks, this`stats, this`chunks, this`log, s`saved, s`last, s`chain, s`defunct, chunks`next,
               chunks`refcount
      ensures Valid() && fresh(chunks - old(chunks))
      ensures s in old(CoreView()).stacks
      ensures var g := SM.GrowTo(old(CoreView()), s, stop, failOk, SomeStack(mainStack));
              fail == g.fail && full == g.full && CoreView() == g.core
    {
      hide Valid, StackMap, MemView, Stack.Record, StackOk, SM.StackV.Partial, SM.GrowStack, SM.Defunct, SM.StackV.Bytes;
      GrowBounds(s, stop);
      assert s.far != FURTHEST ==> s.far - s.chunk.near > s.saved;
      var saveto := stop;
      full := s.far <= stop;
      if full {
        saveto := s.far;
      }
      assert saveto != FURTHEST;
      var size := saveto - s.chunk.near;
      if size <= s.saved {
        return false, full;
      }
      var ok := StackGrow(s, size);
      if ok {
        return false, full;
      }
      if failOk {
        return true, full;
      }
      if s == mainStack {
        return true, full;
      }
      StackDefunct(s);
      return false, true;
    }

    /** The state of the walk along the list: either every visited stack has been dropped, or one has stayed and
        nothing that is left has to grow. */
    ghost predicate Walk(c: SM.Core<Stack?>, todo: seq<Stack?>, stop: int, target: Option<Stack?>) {
      && StacksOk(c) && IsSuffix(todo, c.plist)
      && (forall s :: s in todo ==> s in c.stacks && c.stacks[s].Partial())
      && (GrowPre(c, todo, stop, target)
          || (forall s :: s in todo ==> stop <= c.stacks[s].Edge() && target != Some(s)))
    }

    lemma WalkStart(c: SM.Core<Stack?>, todo: seq<Stack?>, stop: int, target: Option<Stack?>)
      requires GrowPre(c, todo, stop, target)
      ensures Walk(c, todo, stop, target) && forall s :: s in todo ==> s in c.stacks
    {
      hide StackOk;
      PreListed(c, todo, stop, target);
    }

    /** A stack that the walk reaches can be grown. */
    lemma WalkAt(c: SM.Core<Stack?>, todo: seq<Stack?>, stop: int, target: Option<Stack?>)
      requires Walk(c, todo, stop, target) && todo != []
      ensures todo[0] in c.stacks
      ensures var v := c.stacks[todo[0]];
              && StackOk(v, |c.mem|) && v.Partial() && |c.mem| < FURTHEST
              && (target != Some(todo[0]) ==> stop <= |c.mem| || v.far <= |c.mem|)
              && (target == Some(todo[0]) ==> v.far == stop && (v.refcount > 1 ==> stop <= |c.mem|))
    {
      hide Tiled, SM.Concat;
    }

    lemma VisitIdle(c: SM.Core<Stack?>, s: Stack?, stop: int, failOk: bool, mainStack: Option<Stack?>)
      requires s in c.stacks && c.stacks[s].Partial() && stop <= c.stacks[s].Edge()
      ensures SM.Visit(c, s, stop, failOk, mainStack) == SM.Grown(c, false, false)
    {
    }

    /** One visit that is not to the target: the walk goes on with the rest of the list. */
    lemma WalkOn(c: SM.Core<Stack?>, todo: seq<Stack?>, stop: int, target: Option<Stack?>, failOk: bool,
                 mainStack: Option<Stack?>)
      requires Walk(c, todo, stop, target) && todo != [] && target != Some(todo[0]) && todo[0] in c.stacks
      ensures var g := SM.Visit(c, todo[0], stop, failOk, mainStack);
              !g.fail ==> Walk(g.core, todo[1..], stop, target)
    {
      hide StackOk, Kin, SM.GrowTo, SM.Visit, Staircase;
      var g := SM.Visit(c, todo[0], stop, failOk, mainStack);
      if GrowPre(c, todo, stop, target) {
        GrowListCases(c, todo, stop, target, failOk, mainStack);
        if !g.fail && g.full {
          WalkStart(g.core, todo[1..], stop, target);
        } else if !g.fail {
          RestIdle(c, g, todo, stop, target, failOk, mainStack);
        }
      } else {
        VisitIdle(c, todo[0], stop, failOk, mainStack);
      }
    }

    /** What grow_list still has to do, one visit later. */
    lemma GrowListStep(c: SM.Core<Stack?>, todo: seq<Stack?>, stop: int, target: Option<Stack?>, failOk: bool,
                       mainStack: Option<Stack?>)
      requires todo != [] && forall s :: s in todo ==> s in c.stacks
      ensures var g := SM.GrowList(c, todo, stop, target, failOk, mainStack);
              if target == Some(todo[0]) then
                var v := SM.VisitTarget(c, todo[0], stop, failOk, mainStack); g.core == v.core && g.fail == v.fail
              else
                var v := SM.Visit(c, todo[0], stop, failOk, mainStack);
                && (forall s :: s in todo[1..] ==> s in v.core.stacks)
                && if v.fail then g.core == v.core && g.fail
                   else g == SM.GrowList(v.core, todo[1..], stop, target, failOk, mainStack)
    {
      hide SM.Visit, SM.VisitTarget;
    }

    /** The stack at the head of what is left of the list. */
    lemma VisitReady(todo: seq<Stack>, stop: int, target: Stack?)
      requires Valid() && Walk(CoreView(), todo, stop, SomeStack(target)) && todo != []
      ensures var s := todo[0];
              && s in stacks && StackOk(s.Record(), mem.Length) && s.Record().Partial() && s.prev != NoSlot
              && mem.Length < FURTHEST
              && (target != s ==> stop <= mem.Length || s.far <= mem.Length)
              && (target == s ==> s.far == stop && (s.refcount > 1 ==> stop <= mem.Length))
              && s.next == if |todo| > 1 then todo[1] else null
    {
      hide StackOk, ChainsOk, SM.StackV.Partial;
      WalkAt(CoreView(), todo, stop, SomeStack(target));
      var d := |plist| - |todo|;
      assert forall i :: 0 <= i < |todo| ==> todo[i] == plist[d + i];
      if |todo| > 1 {
        assert plist[d].next == plist[d + 1];
      }
    }

    lemma ListHead()
      requires Valid()
      ensures gPrev == if plist == [] then null else plist[0]
    {
    }

    /** The loop body of tealet_stack_grow_list for a stack that is not the target. */
    method VisitStack(s: Stack, stop: int, failOk: bool, mainStack: Stack?) returns (fail: bool, full: bool)
      requires Valid() && s in stacks && StackOk(s.Record(), mem.Length) && s.Record().Partial() && s.prev != NoSlot
      requires mem.Length < FURTHEST && (stop <= mem.Length || s.far <= mem.Length)
      modifies this`ticks, this`stats, this`gPrev, this`plist, this`chunks, this`log, stacks, chunks
      ensures Valid() && fresh(chunks - old(chunks)) && s.next == old(s.next) && s in old(CoreView()).stacks
      ensures var g := SM.Visit(old(CoreView()), s, stop, failOk, SomeStack(mainStack));
              fail == g.fail && full == g.full && CoreView() == g.core
    {
      hide Valid, StackMap, MemView, StackOk, SM.GrowTo, Stack.Record, SM.StackV.Partial;
      fail, full := StackGrowTo(s, stop, failOk, mainStack);
      if !fail && full {
        StackUnlink(s);
      }
    }

    /** The end of tealet_stack_grow_list at the target: it is grown only when it is shared. */
    method VisitTarget(s: Stack, stop: int, failOk: bool, mainStack: Stack?) returns (fail: bool)
      requires Valid() && s in stacks && StackOk(s.Record(), mem.Length) && s.Record().Partial() && s.prev != NoSlot
      requires mem.Length < FURTHEST && s.far == stop && (s.refcount > 1 ==> stop <= mem.Length)
      modifies this`ticks, this`stats, this`gPrev, this`plist, this`chunks, this`log, stacks, chunks
      ensures Valid() && fresh(chunks - old(chunks)) && s in old(CoreView()).stacks
      ensures var g := SM.VisitTarget(old(CoreView()), s, stop, failOk, SomeStack(mainStack));
              fail == g.fail && CoreView() == g.core
    {
      hide Valid, StackMap, MemView, StackOk, SM.GrowTo, Stack.Record, SM.StackV.Partial;
      StackAt(s);
      FirstOf(s);
      if s.refcount > 1 {
        var full;
        fail, full := StackGrowTo(s, stop, failOk, mainStack);
        if fail {
          return;
        }
        GrownFull(old(CoreView()), s, stop, failOk, SomeStack(mainStack));
        assert failOk ==> full;
      }
      StackUnlink(s);
      fail := false;
    }

    lemma GrownFull(c: SM.Core<Stack?>, s: Stack?, stop: int, failOk: bool, mainStack: Option<Stack?>)
      requires s in c.stacks && c.stacks[s].far == stop
      ensures SM.GrowTo(c, s, stop, failOk, mainStack).full
    {
    }

    /** tealet_stack_grow_list, called with the list `gPrev`. */
    method StackGrowList(stop: int, target: Stack?, failOk: bool, mainStack: Stack?) returns (fail: bool)
      requires Valid() && GrowPre(CoreView(), plist, stop, SomeStack(target))
      modifies this`ticks, this`stats, this`gPrev, this`plist, this`chunks, this`log, stacks, chunks
      ensures Valid() && fresh(chunks - old(chunks))
      ensures forall s :: s in old(plist) ==> s in old(CoreView()).stacks
      ensures var g := SM.GrowList(old(CoreView()), old(plist), stop, SomeStack(target), failOk, SomeStack(mainStack));
              fail == g.fail && CoreView() == g.core
    {
      hide Valid, StackMap, MemView, Walk, GrowPre, StackOk, SM.StackV.Partial, SM.GrowList, SM.Visit, SM.VisitTarget,
        Stack.Record, CoreView;
      ghost var todo := plist;
      var list := gPrev;
      ListHead();
      WalkStart(CoreView(), plist, stop, SomeStack(target));
      while list != null
        invariant Valid() && fresh(chunks - old(chunks))
        invariant list == if todo == [] then null else todo[0]
        invariant Walk(CoreView(), todo, stop, SomeStack(target))
        invariant forall s :: s in todo ==> s in CoreView().stacks
        invariant SM.GrowList(old(CoreView()), old(plist), stop, SomeStack(target), failOk, SomeStack(mainStack))
                  == SM.GrowList(CoreView(), todo, stop, SomeStack(target), failOk, SomeStack(mainStack))
        decreases |todo|
      {
        VisitReady(todo, stop, target);
        GrowListStep(CoreView(), todo, stop, SomeStack(target), failOk, SomeStack(mainStack));
        if list == target {
          fail := VisitTarget(list, stop, failOk, mainStack);
          return;
        }
        WalkOn(CoreView(), todo, stop, SomeStack(target), failOk, SomeStack(mainStack));
        var full;
        fail, full := VisitStack(list, stop, failOk, mainStack);
        if fail {
          return;
        }
        list := list.next;
        todo := todo[1..];
      }
      GrowListDone(CoreView(), stop, SomeStack(target), failOk, SomeStack(mainStack));
      fail := false;
    }

    lemma GrowListDone(c: SM.Core<Stack?>, stop: int, target: Option<Stack?>, failOk: bool, mainStack: Option<Stack?>)
      ensures SM.GrowList(c, [], stop, target, failOk, mainStack) == SM.Grown(c, false, false)
    {
    }
  }
}
