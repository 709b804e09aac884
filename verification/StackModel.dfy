/** Saved stacks on values: what `src/tealet.c` keeps on the heap for one suspended stack, the list of
    half-saved stacks, and the routines that save, grow, restore and free them.

    Addresses are integers on a descending stack: "near" is the low end, "far" the high end. */
module StackModel {
  import opened Base

  /** Header sizes (offsetof data) of the two heap blocks on a 64-bit build. */
  const CHUNK_HDR: nat := 32
  const STACK_HDR: nat := 88

  /** tealet_chunk_t: a saved segment. */
  datatype ChunkV = ChunkV(near: int, data: seq<byte>)

  /** tealet_stack_t: the initial chunk is embedded, later ones hang on a chain. */
  datatype StackV = StackV(refcount: int, far: int, defunct: bool, saved: int, first: ChunkV, more: seq<ChunkV>) {

    /** The far edge of what has been saved so far. */
    ghost function Edge(): int { first.near + saved }

    ghost predicate Partial() { !defunct && Edge() < far }

    /** The saved bytes in address order. */
    ghost function Bytes(): seq<byte> { first.data + Concat(more) }
  }

  ghost function Concat(chunks: seq<ChunkV>): seq<byte> {
    if chunks == [] then [] else Concat(chunks[..|chunks| - 1]) + chunks[|chunks| - 1].data
  }

  datatype Stats = Stats(bytes: int, blocks: int, stackBytes: int, stackCount: int, chunkCount: int)

  /** A half-open range of stack addresses that was copied to the heap. */
  datatype Range = Range(lo: int, hi: int)

  /** The C stack, the saved stacks, the list `g_prev`, the allocator and its statistics.
      `alloc` answers the n-th allocation request; `ticks` counts requests; `log` records every copy
      from the stack to the heap. */
  datatype Core<!S> = Core(
    mem: seq<byte>,
    stacks: map<S, StackV>,
    plist: seq<S>,
    alloc: nat -> bool,
    ticks: nat,
    stats: Stats,
    log: seq<Range>
  )

  datatype Grown<!S> = Grown(core: Core<S>, fail: bool, full: bool)

  ghost function StackBytes(v: StackV): int {
    STACK_HDR + |v.first.data| + ChunkBytes(v.more)
  }

  ghost function ChunkBytes(chunks: seq<ChunkV>): int {
    if chunks == [] then 0 else ChunkBytes(chunks[..|chunks| - 1]) + CHUNK_HDR + |chunks[|chunks| - 1].data|
  }

  /* ---- tealet_stack_new, tealet_stack_grow, tealet_stack_restore ---- */

  ghost function StackNew<S>(c: Core<S>, id: S, near: int, far: int, size: int): Grown<S> {
    if !c.alloc(c.ticks) then
      Grown(c.(ticks := c.ticks + 1), true, false)
    else
      var data := Slice(c.mem, near, near + size);
      var bytes := STACK_HDR + size;
      Grown(c.(
        ticks := c.ticks + 1,
        stacks := c.stacks[id := StackV(1, far, false, size, ChunkV(near, data), [])],
        stats := Stats(c.stats.bytes + bytes, c.stats.blocks + 1, c.stats.stackBytes + bytes,
                       c.stats.stackCount + 1, c.stats.chunkCount + 1),
        log := c.log + [Range(near, near + size)]), false, false)
  }

  ghost function GrowStack<S>(c: Core<S>, s: S, size: int): Grown<S>
    requires s in c.stacks
  {
    if !c.alloc(c.ticks) then
      Grown(c.(ticks := c.ticks + 1), true, false)
    else
      var v := c.stacks[s];
      var chunk := ChunkV(v.Edge(), Slice(c.mem, v.Edge(), v.first.near + size));
      var bytes := CHUNK_HDR + size - v.saved;
      Grown(c.(
        ticks := c.ticks + 1,
        stacks := c.stacks[s := v.(saved := size, more := v.more + [chunk])],
        stats := c.stats.(bytes := c.stats.bytes + bytes, blocks := c.stats.blocks + 1,
                          stackBytes := c.stats.stackBytes + bytes, chunkCount := c.stats.chunkCount + 1),
        log := c.log + [Range(v.Edge(), v.first.near + size)]), false, false)
  }

  /** Copies every chunk of the chain back to its own address, first to last. */
  ghost function RestoreChunks(mem: seq<byte>, chunks: seq<ChunkV>): seq<byte> {
    if chunks == [] then mem
    else
      var last := chunks[|chunks| - 1];
      Patch(RestoreChunks(mem, chunks[..|chunks| - 1]), last.near, last.data)
  }

  ghost function Restore<S>(c: Core<S>, s: S): Core<S>
    requires s in c.stacks
  {
    var v := c.stacks[s];
    c.(mem := RestoreChunks(Patch(c.mem, v.first.near, v.first.data), v.more))
  }

  /* ---- tealet_stack_link, tealet_stack_unlink ---- */

  ghost function Link<S>(c: Core<S>, s: S): Core<S> {
    c.(plist := [s] + c.plist)
  }

  ghost function Unlink<S>(c: Core<S>, s: S): Core<S> {
    c.(plist := Remove(c.plist, s))
  }

  /* ---- tealet_stack_dup, tealet_stack_decref, tealet_stack_defunct ---- */

  ghost function Dup<S>(c: Core<S>, s: S): Core<S>
    requires s in c.stacks
  {
    c.(stacks := c.stacks[s := c.stacks[s].(refcount := c.stacks[s].refcount + 1)])
  }

  /** Frees `k` chunk blocks holding `bytes` bytes, headers included. */
  ghost function FreeChunks(st: Stats, k: int, bytes: int): Stats {
    st.(bytes := st.bytes - bytes, blocks := st.blocks - k, stackBytes := st.stackBytes - bytes,
        chunkCount := st.chunkCount - k)
  }

  ghost function Decref<S>(c: Core<S>, s: S): Core<S>
    requires s in c.stacks
  {
    var v := c.stacks[s];
    if v.refcount - 1 > 0 then
      c.(stacks := c.stacks[s := v.(refcount := v.refcount - 1)])
    else
      var st := FreeChunks(c.stats, |v.more| + 1, StackBytes(v));
      c.(stacks := c.stacks - {s}, plist := Remove(c.plist, s), stats := st.(stackCount := st.stackCount - 1))
  }

  ghost function Defunct<S>(c: Core<S>, s: S): Core<S>
    requires s in c.stacks
  {
    var v := c.stacks[s];
    c.(stacks := c.stacks[s := v.(defunct := true, saved := 0, more := [])],
       stats := FreeChunks(c.stats, |v.more|, ChunkBytes(v.more)))
  }

  /* ---- tealet_stack_saveto, tealet_stack_growto, tealet_stack_grow_list ---- */

  /** Saves a new stack at least up to `stop`; `full` says that nothing of it is left unsaved. */
  ghost function SaveTo<S>(c: Core<S>, id: S, near: int, far: int, stop: int): Grown<S> {
    var full := far <= stop;
    var saveto := if full then far else stop;
    StackNew(c, id, near, far, Max(0, saveto - near)).(full := full)
  }

  ghost function GrowTo<S>(c: Core<S>, s: S, stop: int, failOk: bool, mainStack: Option<S>): (r: Grown<S>)
    requires s in c.stacks
    ensures r.core.stacks.Keys == c.stacks.Keys
  {
    var v := c.stacks[s];
    var full := v.far <= stop;
    var saveto := if full then v.far else stop;
    var size := saveto - v.first.near;
    if size <= v.saved then
      Grown(c, false, full)
    else
      var g := GrowStack(c, s, size);
      if !g.fail then Grown(g.core, false, full)
      else if failOk || mainStack == Some(s) then Grown(g.core, true, full)
      else Grown(Defunct(g.core, s), false, true)
  }

  /** One visit of grow_list to a stack that is not the target: grow, then unlink when nothing is left to save. */
  ghost function Visit<S>(c: Core<S>, s: S, stop: int, failOk: bool, mainStack: Option<S>): (r: Grown<S>)
    requires s in c.stacks
    ensures r.core.stacks.Keys == c.stacks.Keys
  {
    var g := GrowTo(c, s, stop, failOk, mainStack);
    if g.fail || !g.full then g else g.(core := Unlink(g.core, s))
  }

  /** The visit to the target: it is grown only when it is shared, and always leaves the list. */
  ghost function VisitTarget<S>(c: Core<S>, s: S, stop: int, failOk: bool, mainStack: Option<S>): (r: Grown<S>)
    requires s in c.stacks
    ensures r.core.stacks.Keys == c.stacks.Keys
  {
    if c.stacks[s].refcount > 1 then
      var g := GrowTo(c, s, stop, failOk, mainStack);
      if g.fail then g else g.(core := Unlink(g.core, s))
    else
      Grown(Unlink(c, s), false, false)
  }

  /** Grows the stacks `todo`, in list order, up to `stop`. */
  ghost function GrowList<S>(c: Core<S>, todo: seq<S>, stop: int, target: Option<S>, failOk: bool,
                             mainStack: Option<S>): (r: Grown<S>)
    requires forall s :: s in todo ==> s in c.stacks
    ensures r.core.stacks.Keys == c.stacks.Keys
    decreases |todo|
  {
    if todo == [] then
      Grown(c, false, false)
    else if target == Some(todo[0]) then
      VisitTarget(c, todo[0], stop, failOk, mainStack)
    else
      var g := Visit(c, todo[0], stop, failOk, mainStack);
      if g.fail then g else GrowList(g.core, todo[1..], stop, target, failOk, mainStack)
  }
}
