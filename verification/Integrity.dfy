/** The stack-integrity planner of `src/tealet.c`: which bytes past the far boundary of the running tealet are kept as a
    snapshot, which pages are guarded, and how large the preallocated snapshot workspace is. */
module Integrity {
  import opened Base

  const MODE_NONE: int := 0
  const MODE_READONLY: int := 1
  const MODE_NOACCESS: int := 2

  const FAIL_ASSERT: int := 0
  const FAIL_ERROR: int := 1
  const FAIL_ABORT: int := 2

  const WORD: nat := 0x1_0000_0000_0000_0000

  /** uintptr_t and size_t. */
  type word = x: int | 0 <= x < WORD

  /** offsetof(tealet_config_t, version) + sizeof(version), and the version that configure_set accepts. */
  const MIN_HEADER: nat := 12
  const VERSION: int := 1

  /** The values of a tealet_config_t; the three bits of its flag word are separate. */
  datatype Settings = Settings(integrity: bool, guard: bool, snapshot: bool, bytes: word, mode: int, policy: int,
                               limit: Option<word>, maxStackSize: word)

  /** What a build supports. */
  datatype Build = Build(guards: bool, snapshots: bool)

  datatype Status = Done | Invalid | NoMemory | Mismatch | Aborted

  /* ---- canonical settings ---- */

  /** Integrity checking stays on when something is to be checked and a supported backend is asked for. */
  predicate On(s: Settings, b: Build) {
    s.integrity && s.bytes > 0 && ((s.guard && b.guards) || (s.snapshot && b.snapshots))
  }

  /** The invariants that canonical settings meet. */
  predicate Canonical(s: Settings, b: Build) {
    && (s.guard ==> b.guards) && (s.snapshot ==> b.snapshots)
    && (s.integrity <==> s.guard || s.snapshot)
    && (s.integrity <==> s.bytes > 0)
    && (!s.integrity ==> s.limit == None)
    && (if s.guard then s.mode == MODE_READONLY || s.mode == MODE_NOACCESS else s.mode == MODE_NONE)
    && FAIL_ASSERT <= s.policy <= FAIL_ABORT
  }

  function Canon(s: Settings, b: Build): (r: Settings)
    ensures Canonical(r, b)
  {
    var on := On(s, b);
    var guard := on && s.guard && b.guards;
    Settings(on, guard, on && s.snapshot && b.snapshots, if on then s.bytes else 0,
             if !guard then MODE_NONE else if s.mode == MODE_READONLY then MODE_READONLY else MODE_NOACCESS,
             if FAIL_ASSERT <= s.policy <= FAIL_ABORT then s.policy else FAIL_ASSERT,
             if on then s.limit else None, s.maxStackSize)
  }

  /** Exactly the canonical settings are left as they are. */
  lemma CanonFixes(s: Settings, b: Build)
    ensures Canon(s, b) == s <==> Canonical(s, b)
    ensures Canon(Canon(s, b), b) == Canon(s, b)
  {
  }

  /** `c` asks for nothing that `s` does not ask for. */
  predicate AsksLess(c: Settings, s: Settings) {
    && (c.integrity ==> s.integrity) && (c.guard ==> s.guard) && (c.snapshot ==> s.snapshot)
    && (c.bytes > 0 ==> c.bytes == s.bytes)
  }

  /** The canonical settings are the most that may be had of what was asked for: nothing is added, and whatever canonical
      settings ask for no more are no more than these. What they keep they keep as it was, but for an access mode or a policy
      that there is not: then the guarded bytes may not be accessed at all, and a failure is an assertion. */
  lemma CanonIs(s: Settings, b: Build, c: Settings)
    ensures AsksLess(Canon(s, b), s)
    ensures Canonical(c, b) && AsksLess(c, s) ==> AsksLess(c, Canon(s, b))
    ensures var r := Canon(s, b);
            && r.maxStackSize == s.maxStackSize && (r.integrity ==> r.bytes == s.bytes && r.limit == s.limit)
            && (r.guard ==> r.mode == if s.mode == MODE_READONLY || s.mode == MODE_NOACCESS then s.mode else MODE_NOACCESS)
            && r.policy == if s.policy == FAIL_ERROR || s.policy == FAIL_ABORT then s.policy else FAIL_ASSERT
  {
  }

  /** tealet_config_t, which configure_set canonicalizes in place. */
  class Config {
    var size: nat
    var version: int
    var integrity: bool
    var guard: bool
    var snapshot: bool
    var bytes: word
    var mode: int
    var policy: int
    var limit: Option<word>
    var maxStackSize: word

    constructor (size: nat, version: int, s: Settings)
      ensures View() == s && this.size == size && this.version == version
    {
      this.size, this.version := size, version;
      integrity, guard, snapshot, bytes := s.integrity, s.guard, s.snapshot, s.bytes;
      mode, policy, limit, maxStackSize := s.mode, s.policy, s.limit, s.maxStackSize;
    }

    ghost function View(): Settings
      reads this
    {
      Settings(integrity, guard, snapshot, bytes, mode, policy, limit, maxStackSize)
    }

    /** tealet_config_canonicalize. */
    method Canonicalize(b: Build)
      modifies this
      ensures View() == Canon(old(View()), b) && size == old(size) && version == old(version)
    {
      var i, g, s := integrity && (b.guards || b.snapshots), guard && b.guards, snapshot && b.snapshots;
      if !i {
        g, s := false, false;
      }
      if !g && !s {
        i := false;
      }
      if bytes == 0 {
        i, g, s := false, false, false;
      }
      var m, p := mode, policy;
      if !g {
        m := MODE_NONE;
      } else if m != MODE_READONLY && m != MODE_NOACCESS {
        m := MODE_NOACCESS;
      }
      if p != FAIL_ASSERT && p != FAIL_ERROR && p != FAIL_ABORT {
        p := FAIL_ASSERT;
      }
      integrity, guard, snapshot, mode, policy := i, g, s, m, p;
      if !i {
        bytes, limit := 0, None;
      }
    }
  }

  /* ---- page arithmetic ---- */

  function Pow2(k: nat): (p: nat)
    ensures p > 0
  {
    if k == 0 then 1 else 2 * Pow2(k - 1)
  }

  /** x & ~mask, bit by bit. */
  function AndNot(x: nat, mask: nat): nat
    decreases mask
  {
    if mask == 0 then x else (if mask % 2 == 1 then 0 else x % 2) + 2 * AndNot(x / 2, mask / 2)
  }

  function Quotient(x: nat, p: nat): nat
    requires p > 0
  {
    x / p
  }

  /** The quotient is determined by a remainder in range. */
  lemma QuotientIs(x: nat, p: nat, q: nat, r: nat)
    requires p > 0 && r < p && x == q * p + r
    ensures Quotient(x, p) == q
  {
    var q2 := x / p;
    if q2 < q {
      MulMono(q2, q, p);
    } else if q < q2 {
      MulMono(q, q2, p);
    }
  }

  lemma QuotientOf(x: nat, p: nat) returns (r: nat)
    requires p > 0
    ensures r < p && x == Quotient(x, p) * p + r
  {
    r := x % p;
  }

  lemma {:induction false} MulMono(a: nat, b: nat, p: nat)
    requires a < b
    ensures a * p + p <= b * p
    decreases b
  {
    assert b * p == (b - 1) * p + p;
    if a < b - 1 {
      MulMono(a, b - 1, p);
    }
  }

  lemma MulAssoc(q: nat, p: nat)
    ensures q * (2 * p) == 2 * (q * p)
  {
  }

  lemma HalfQuotient(x: nat, p: nat)
    requires p > 0
    ensures Quotient(x / 2, p) == Quotient(x, 2 * p)
  {
    hide Quotient;
    var r := QuotientOf(x, 2 * p);
    var q := Quotient(x, 2 * p);
    MulAssoc(q, p);
    QuotientIs(x / 2, p, q, r / 2);
  }

  /** Clearing the bits below a power of two rounds down to a multiple of it. */
  lemma {:induction false} AndNotRounds(x: nat, k: nat)
    ensures AndNot(x, Pow2(k) - 1) == Quotient(x, Pow2(k)) * Pow2(k)
  {
    hide Quotient, AndNot;
    if k == 0 {
      QuotientIs(x, 1, x, 0);
      AndNotZero(x);
    } else {
      var p := Pow2(k - 1);
      AndNotStep(x, p);
      AndNotRounds(x / 2, k - 1);
      HalfQuotient(x, p);
      MulAssoc(Quotient(x, 2 * p), p);
    }
  }

  lemma AndNotZero(x: nat)
    ensures AndNot(x, 0) == x
  {
  }

  /** The lowest bit is cleared, and the others are those of one half. */
  lemma AndNotStep(x: nat, p: nat)
    requires p > 0
    ensures AndNot(x, 2 * p - 1) == 2 * AndNot(x / 2, p - 1)
  {
    assert (2 * p - 1) % 2 == 1 && (2 * p - 1) / 2 == p - 1;
  }

  /** The first page boundary at or above an address. */
  function FirstPage(x: nat, page: nat): nat
    requires page > 0
  {
    Quotient(x + page - 1, page) * page
  }

  predicate OnBoundary(b: nat, page: nat)
    requires page > 0
  {
    Quotient(b, page) * page == b
  }

  lemma PageBounds(x: nat, page: nat)
    requires page > 0
    ensures var b := FirstPage(x, page); x <= b < x + page && OnBoundary(b, page)
  {
    hide Quotient;
    var r := QuotientOf(x + page - 1, page);
    QuotientIs(FirstPage(x, page), page, Quotient(x + page - 1, page), 0);
  }

  /** (x + mask) & ~mask finds the first page boundary, as long as the sum does not wrap around. */
  lemma MaskRoundsUp(x: nat, page: nat, k: nat)
    requires page == Pow2(k) && x + page - 1 < WORD
    ensures AndNot((x + (page - 1)) % WORD, page - 1) == FirstPage(x, page)
  {
    hide Quotient, AndNot;
    AndNotRounds(x + page - 1, k);
  }

  /** The address space ends on a page boundary. */
  lemma {:induction false} WordPages(k: nat) returns (m: nat)
    requires Pow2(k) < WORD
    ensures WORD == m * Pow2(k)
  {
    assert Pow2(64) == WORD by { Pow2Of64(); }
    if k > 64 { Pow2Mono(64, k); }
    m := Pow2(64 - k);
    Pow2Sum(64 - k, k);
  }

  lemma Pow2Of8()
    ensures Pow2(8) == 0x100
  {
    assert Pow2(4) == 0x10;
  }

  lemma Pow2Of64()
    ensures Pow2(64) == WORD
  {
    hide Pow2;
    Pow2Of8();
    Pow2Sum(8, 8);
    Pow2Sum(16, 16);
    Pow2Sum(32, 32);
  }

  lemma {:induction false} Pow2Sum(j: nat, k: nat)
    ensures Pow2(j + k) == Pow2(j) * Pow2(k)
  {
    if j > 0 {
      Pow2Sum(j - 1, k);
      assert Pow2(j + k) == 2 * Pow2(j - 1 + k);
      DoubleTimes(Pow2(j - 1), Pow2(k));
    }
  }

  lemma DoubleTimes(a: nat, b: nat)
    ensures (2 * a) * b == 2 * (a * b)
  {
  }

  lemma {:induction false} Pow2Mono(j: nat, k: nat)
    requires j <= k
    ensures Pow2(j) <= Pow2(k)
    decreases k
  {
    if j < k { Pow2Mono(j, k - 1); }
  }

  /** The mask expression in full: the first boundary at or above x, but zero when that is the end of the address space. */
  lemma MaskRounds(x: word, page: nat, k: nat)
    requires page == Pow2(k) && page < WORD
    ensures AndNot((x + (page - 1)) % WORD, page - 1) == if x + page <= WORD then FirstPage(x, page) else 0
    ensures x + page > WORD ==> FirstPage(x, page) == WORD
    ensures FirstPage(x, page) <= WORD
  {
    hide Quotient, AndNot, Pow2;
    var m := WordPages(k);
    if x + page <= WORD {
      MaskRoundsUp(x, page, k);
      PageBounds(x, page);
      BelowWord(x, page, m);
    } else {
      QuotientIs(x + page - 1, page, m, x + page - 1 - WORD);
      AndNotRounds(x + page - 1 - WORD, k);
      QuotientIs(x + page - 1 - WORD, page, 0, x + page - 1 - WORD);
      assert (x + (page - 1)) % WORD == x + page - 1 - WORD;
    }
  }

  lemma BelowWord(x: nat, page: nat, m: nat)
    requires page > 0 && WORD == m * page && x + page <= WORD
    ensures FirstPage(x, page) <= WORD
  {
    hide Quotient;
    var r := QuotientOf(x + page - 1, page);
    var q := Quotient(x + page - 1, page);
    if m < q { MulMono(m, q, page); }
    MulLe(q, if q <= m then m else q, page);
  }

  /* ---- the plan ---- */

  /** The transient part of tealet_integrity_data_t: a snapshot from `base` on and a range of guarded pages. */
  datatype Plan = Plan(base: Option<nat>, snapshotBytes: nat, guardBase: Option<nat>, guardBytes: nat)

  const NO_PLAN: Plan := Plan(None, 0, None, 0)

  /** How many bytes from the far boundary on are watched, clamped to the limit. */
  function Window(s: Settings, far: int): nat {
    if far == FURTHEST || !s.integrity then 0
    else match s.limit
      case None => s.bytes
      case Some(l) => if l <= far then 0 else Min(s.bytes, l - far)
  }

  /** How a window of `len` bytes from `far` on is split between a snapshot and guarded pages. */
  function PlanOf(s: Settings, far: nat, len: nat, page: nat): Plan {
    if len == 0 then
      NO_PLAN
    else if !s.guard || page == 0 || far + len <= FirstPage(far, page) then
      Plan(Some(far), if s.snapshot then len else 0, None, 0)
    else
      var b := FirstPage(far, page);
      Plan(Some(far), if s.snapshot then b - far else 0, Some(b), FirstPage(far + len, page) - b)
  }

  /** The bytes that settings ask to be watched while a tealet with boundary `far` runs: so many from the boundary on, up to
      the limit when there is one; none of an unbounded stack. */
  ghost predicate Watched(s: Settings, far: int, a: int) {
    s.integrity && far != FURTHEST && far <= a < far + s.bytes && (s.limit.Some? ==> a < s.limit.value)
  }

  lemma Wraps(x: word, n: word)
    ensures (x + n) % WORD == if x + n < WORD then x + n else x + n - WORD
  {
  }

  lemma WindowFits(s: Settings, far: int)
    ensures Window(s, far) <= s.bytes
  {
  }

  lemma WindowIs(s: Settings, far: int, a: int)
    ensures Watched(s, far, a) <==> far <= a < far + Window(s, far)
  {
  }

  /** Pages are guarded. */
  predicate Paged(s: Settings, page: nat) { s.guard && page > 0 }

  ghost predicate SamePage(a: nat, w: nat, page: nat)
    requires page > 0
  {
    Quotient(a, page) == Quotient(w, page)
  }

  /** The page of `a` holds a byte that is watched. */
  ghost predicate PageWatched(s: Settings, far: nat, page: nat, a: nat)
    requires page > 0
  {
    exists w: nat :: Watched(s, far, w) && SamePage(a, w, page)
  }

  /** The plan watches what it should at `a`. With a guard the snapshot holds the watched bytes before the first page
      boundary, and from there on exactly the pages with a watched byte on them are guarded; without one the snapshot holds
      every watched byte. */
  ghost predicate WatchedAt(s: Settings, far: nat, page: nat, p: Plan, a: nat) {
    && (Snapped(p, a) <==> s.snapshot && Watched(s, far, a) && (Paged(s, page) ==> a < FirstPage(far, page)))
    && (Guarded(p, a) <==> Paged(s, page) && FirstPage(far, page) <= a && PageWatched(s, far, page, a))
  }

  ghost predicate Watches(s: Settings, far: nat, page: nat, p: Plan) {
    forall a: nat :: WatchedAt(s, far, page, p, a)
  }

  /** The pages with bytes of far..far + len on them from the first boundary on are those up to the first boundary after it. */
  lemma PagesOf(far: nat, len: nat, page: nat, a: nat)
    requires page > 0 && FirstPage(far, page) <= a
    ensures a < FirstPage(far + len, page) && FirstPage(far, page) < far + len
            ==> exists w: nat :: far <= w < far + len && SamePage(a, w, page)
    ensures forall w: nat :: far <= w < far + len && SamePage(a, w, page) ==>
              a < FirstPage(far + len, page) && FirstPage(far, page) < far + len
  {
    hide Quotient;
    var end := far + len;
    var r := QuotientOf(end + page - 1, page);
    var last := Quotient(end + page - 1, page);
    var ra := QuotientOf(a, page);
    var b := Quotient(far + page - 1, page);
    if a < last * page && b * page < end {
      if a < end {
        assert far <= a by { PageBounds(far, page); }
        assert SamePage(a, a, page);
      } else {
        assert last * page == (last - 1) * page + page;
        QuotientIs(end - 1, page, last - 1, r);
        QuotientIs(a, page, last - 1, a - (last - 1) * page);
        assert far <= end - 1 by { PageBounds(far, page); }
        assert SamePage(a, end - 1, page);
      }
    }
    forall w: nat | far <= w < end && SamePage(a, w, page) ensures a < last * page && b * page < end {
      var rw := QuotientOf(w, page);
      var q := Quotient(a, page);
      assert q * page < end;
      if last <= q { assert last * page <= q * page by { MulLe(last, q, page); } }
      assert q < last by { PageBounds(end, page); }
      MulMono(q, last, page);
      if q < b { MulMono(q, b, page); }
      MulLe(b, q, page);
    }
  }

  lemma MulLe(a: nat, b: nat, p: nat)
    requires a <= b
    ensures a * p <= b * p
  {
    if a < b { MulMono(a, b, p); }
  }

  /** The plan of a window watches exactly what the settings ask for. */
  lemma PlanWatches(s: Settings, far: nat, page: nat)
    ensures Watches(s, far, page, PlanOf(s, far, Window(s, far), page))
  {
    hide FirstPage, Window, Watched, Watches, WatchedAt;
    forall a: nat ensures WatchedAt(s, far, page, PlanOf(s, far, Window(s, far), page), a) {
      PlanWatchesAt(s, far, page, a);
    }
    WatchesAll(s, far, page, PlanOf(s, far, Window(s, far), page));
  }

  lemma WatchesAll(s: Settings, far: nat, page: nat, p: Plan)
    requires forall a: nat :: WatchedAt(s, far, page, p, a)
    ensures Watches(s, far, page, p)
  {
    hide WatchedAt;
  }

  lemma PlanWatchesAt(s: Settings, far: nat, page: nat, a: nat)
    ensures WatchedAt(s, far, page, PlanOf(s, far, Window(s, far), page), a)
  {
    hide FirstPage, Window, Watched, Quotient, SamePage;
    var len := Window(s, far);
    WindowIs(s, far, a);
    if page > 0 {
      PageBounds(far, page);
      PageBounds(far + len, page);
      forall w: nat ensures Watched(s, far, w) <==> far <= w < far + len { WindowIs(s, far, w); }
      if FirstPage(far, page) <= a { PagesOf(far, len, page, a); }
    }
  }

  /** Watched bytes that the guard would have to cover lie on the last page of the address space, or past its end. */
  ghost predicate OutOfReach(s: Settings, far: nat, page: nat) {
    Paged(s, page) && exists w: nat :: Watched(s, far, w) && FirstPage(far, page) <= w && WORD - page <= w
  }

  /** The same, told from the window. */
  lemma Reach(s: Settings, far: nat, page: nat, bytes: nat)
    requires bytes == Window(s, far)
    ensures OutOfReach(s, far, page)
            <==> Paged(s, page) && bytes > 0 && FirstPage(far, page) < far + bytes && far + bytes + page > WORD
  {
    hide FirstPage, Window, Watched;
    forall w: nat ensures Watched(s, far, w) <==> far <= w < far + bytes { WindowIs(s, far, w); }
    if page > 0 && bytes > 0 {
      PageBounds(far, page);
      if FirstPage(far, page) < far + bytes && far + bytes + page > WORD {
        assert Watched(s, far, far + bytes - 1);
      }
    }
  }

  /** Without a guard, a watched byte that the guard should cover is not watched. */
  lemma Unguarded(s: Settings, far: nat, page: nat, p: Plan)
    requires OutOfReach(s, far, page) && p.guardBase == None
    ensures !Watches(s, far, page, p)
  {
    hide FirstPage, Watched;
    var w: nat :| Watched(s, far, w) && FirstPage(far, page) <= w && WORD - page <= w;
    assert SamePage(w, w, page);
    assert PageWatched(s, far, page, w);
    assert !WatchedAt(s, far, page, p, w);
  }

  /** The end of the guarded pages is rounded up in 64 bits. For a stack that ends a page and a half below the end of the
      address space it comes out as zero. */
  lemma OutOfReachExample()
    ensures var s := Settings(true, true, true, 4096, MODE_NOACCESS, FAIL_ASSERT, None, 0);
            Canonical(s, Build(true, true)) && OutOfReach(s, WORD - 6144, 4096)
  {
    var s := Settings(true, true, true, 4096, MODE_NOACCESS, FAIL_ASSERT, None, 0);
    assert FirstPage(WORD - 6144, 4096) == WORD - 4096;
    assert Watched(s, WORD - 6144, WORD - 4096);
  }

  /** With both backends on, every byte of the window is in the snapshot or on a guarded page and never on both, and
      fewer bytes than a page are guarded beyond the window. */
  lemma PlanSplits(s: Settings, far: nat, len: nat, page: nat, a: int)
    requires s.guard && s.snapshot && page > 0
    ensures var p := PlanOf(s, far, len, page);
            && (far <= a < far + len ==> (Snapped(p, a) <==> !Guarded(p, a)))
            && !(Snapped(p, a) && Guarded(p, a))
            && (Snapped(p, a) ==> far <= a < far + len)
            && (Guarded(p, a) ==> far <= a < far + len + page - 1)
            && p.snapshotBytes < page
  {
    hide FirstPage;
    PageBounds(far, page);
    PageBounds(far + len, page);
  }

  /** Only whole pages are guarded. */
  lemma GuardsPages(s: Settings, far: nat, len: nat, page: nat)
    requires page > 0 && PlanOf(s, far, len, page).guardBytes > 0
    ensures var p := PlanOf(s, far, len, page);
            p.guardBase.Some? && OnBoundary(p.guardBase.value, page) && OnBoundary(p.guardBase.value + p.guardBytes, page)
  {
    hide FirstPage, OnBoundary;
    PageBounds(far, page);
    PageBounds(far + len, page);
  }

  /** While the guarded pages keep their contents, every change inside the window shows in the snapshot. */
  lemma NothingEscapes(s: Settings, far: nat, len: nat, page: nat, mem: seq<byte>, mem2: seq<byte>, a: int)
    requires s.guard && s.snapshot && page > 0 && |mem| == |mem2| && far + len <= |mem|
    requires far <= a < far + len && mem[a] != mem2[a]
    requires var p := PlanOf(s, far, len, page);
             forall g :: 0 <= g < |mem| && Guarded(p, g) ==> mem[g] == mem2[g]
    ensures var n := PlanOf(s, far, len, page).snapshotBytes;
            far + n <= |mem| && Slice(mem, far, far + n) != Slice(mem2, far, far + n)
  {
    hide FirstPage, OnBoundary;
    PageBounds(far, page);
    PlanSplits(s, far, len, page, a);
    var n := PlanOf(s, far, len, page).snapshotBytes;
    assert mem[far..far + n][a - far] != mem2[far..far + n][a - far];
  }

  predicate Snapped(p: Plan, a: int) { p.base.Some? && p.base.value <= a < p.base.value + p.snapshotBytes }

  predicate Guarded(p: Plan, a: int) { p.guardBase.Some? && p.guardBase.value <= a < p.guardBase.value + p.guardBytes }

  /** tealet_snapshot_required_capacity. */
  function Required(s: Settings, page: nat): nat {
    if !s.snapshot then 0
    else if s.guard && page > 1 then Min(s.bytes, page - 1)
    else s.bytes
  }

  /** The workspace that configure_set asks for holds the snapshot of every window, and no smaller one does. */
  lemma RequiredFits(s: Settings, far: nat, page: nat)
    ensures PlanOf(s, far, Window(s, far), page).snapshotBytes <= Required(s, page)
  {
    hide FirstPage;
    if page > 0 {
      PageBounds(far, page);
    }
  }

  /** No smaller workspace would do: one byte past a page boundary, the snapshot takes all of it. */
  lemma RequiredTight(s: Settings, b: Build, page: nat, far: nat, q: nat)
    requires Canonical(s, b) && s.limit.None? && far < FURTHEST
    requires page != 1 && (page > 1 ==> far == q * page + 1)
    ensures PlanOf(s, far, Window(s, far), page).snapshotBytes == Required(s, page)
  {
    hide Quotient;
    if page > 1 {
      assert (q + 1) * page == q * page + page;
      QuotientIs(far + page - 1, page, q + 1, 0);
    }
  }

  /* ---- the workspace and the plan of main ---- */

  /** The integrity part of tealet_main_t. */
  class Watcher {
    const build: Build
    /** sysconf(_SC_PAGESIZE), or 0 when it fails. */
    const page: word
    ghost const pageBits: nat
    var settings: Settings
    var plan: Plan
    var block: array?<byte>
    var capacity: nat

    /** The part of tealet_initialize that concerns integrity. */
    constructor (build: Build, page: word, ghost pageBits: nat, maxStackSize: word)
      requires page == 0 || page == Pow2(pageBits)
      ensures Valid() && plan == NO_PLAN && capacity == 0
    {
      this.build, this.page, this.pageBits := build, page, pageBits;
      settings := Settings(false, false, false, 0, MODE_NONE, FAIL_ASSERT, None, maxStackSize);
      plan, block, capacity := NO_PLAN, null, 0;
    }

    /** The settings are canonical, and the workspace is large enough for whatever they may ask for. */
    ghost predicate Valid()
      reads this
    {
      && (page == 0 || page == Pow2(pageBits))
      && Canonical(settings, build)
      && Required(settings, page) <= capacity
      && capacity == (if block == null then 0 else block.Length)
      && plan.snapshotBytes <= capacity && (plan.snapshotBytes > 0 ==> plan.base.Some?)
    }

    /** tealet_snapshot_ensure_capacity; `alloc` is the answer of the allocator. */
    method EnsureCapacity(required: nat, alloc: bool) returns (ok: bool)
      requires Valid()
      modifies this`plan, this`block, this`capacity
      ensures Valid() && (ok ==> required <= capacity) && old(capacity) <= capacity
      ensures ok <==> required <= old(capacity) || alloc
      ensures ok && required > old(capacity) ==> capacity == required && plan.snapshotBytes == 0
      ensures !ok || required <= old(capacity) ==> plan == old(plan) && block == old(block) && capacity == old(capacity)
    {
      if required == 0 {
        return true;
      }
      if capacity >= required {
        return true;
      }
      if !alloc {
        return false;
      }
      var newBlock := new byte[required];
      plan := plan.(snapshotBytes := 0, base := None);
      block := newBlock;
      capacity := required;
      ok := true;
    }

    /** The canonical form of a copy of what was asked for. */
    method CanonicalCopy(config: Config) returns (s: Settings)
      ensures s == Canon(config.View(), build) && Canonical(s, build)
    {
      hide Canon, Canonical;
      var requested := new Config(config.size, VERSION,
        Settings(config.integrity, config.guard, config.snapshot, config.bytes, config.mode, config.policy, config.limit,
                 config.maxStackSize));
      requested.Canonicalize(build);
      s := Settings(requested.integrity, requested.guard, requested.snapshot, requested.bytes, requested.mode,
                    requested.policy, requested.limit, requested.maxStackSize);
    }

    /** tealet_configure_set. Settings are committed only when the workspace for them is there. */
    method ConfigureSet(config: Config, alloc: bool) returns (r: Status)
      requires Valid()
      modifies this`settings, this`plan, this`block, this`capacity, config
      ensures Valid() && old(capacity) <= capacity
      ensures var asked := Canon(old(config.View()), build);
              var usable := old(config.size) >= MIN_HEADER && old(config.version) == VERSION;
              && (r == Invalid <==> !usable)
              && (r == NoMemory <==> usable && !alloc && Required(asked, page) > old(capacity))
              && (r == Done <==> r != Invalid && r != NoMemory)
              && (r == Done ==> settings == asked && config.View() == asked)
      ensures config.size == old(config.size) && config.version == old(config.version)
      ensures r != Done ==> settings == old(settings) && plan == old(plan) && block == old(block)
                            && capacity == old(capacity) && config.View() == old(config.View())
    {
      hide Canon, Canonical, Required, Pow2;
      if config.size < MIN_HEADER {
        return Invalid;
      }
      if config.version != VERSION {
        return Invalid;
      }
      var s := CanonicalCopy(config);
      var ok := EnsureCapacity(Required(s, page), alloc);
      if !ok {
        return NoMemory;
      }
      settings := s;
      config.integrity, config.guard, config.snapshot, config.bytes := s.integrity, s.guard, s.snapshot, s.bytes;
      config.mode, config.policy, config.limit, config.maxStackSize := s.mode, s.policy, s.limit, s.maxStackSize;
      r := Done;
    }

    /** The part of the planner that rounds to pages: the watched bytes begin..end are split at the first page boundary.
        Nothing is guarded when the end rounds up to the end of the address space, which wraps around to zero. */
    method SplitAtPage(begin: word, end: word, wanted: nat) returns (snapshotBytes: nat, guardBase: nat, guardBytes: nat)
      requires page > 0 && page == Pow2(pageBits) && begin < end
      ensures var b := FirstPage(begin, page);
              && snapshotBytes == Min(wanted, b - begin)
              && guardBytes == (if b >= end || end + page > WORD then 0 else FirstPage(end, page) - b)
              && (guardBytes > 0 ==> guardBase == b)
    {
      hide FirstPage, AndNot, Pow2, OnBoundary;
      var mask := page - 1;
      var alignedBegin := AndNot((begin + mask) % WORD, mask);
      var alignedEnd := AndNot((end + mask) % WORD, mask);
      MaskRounds(begin, page, pageBits);
      MaskRounds(end, page, pageBits);
      PageBounds(begin, page);
      PageBounds(end, page);
      if alignedBegin >= end {
        alignedEnd := alignedBegin;
      }
      snapshotBytes := wanted;
      if snapshotBytes != 0 {
        var prefixBytes := (alignedBegin - begin) % WORD;
        snapshotBytes := Min(snapshotBytes, prefixBytes);
      }
      guardBase, guardBytes := alignedBegin, 0;
      if alignedEnd > alignedBegin {
        guardBytes := alignedEnd - alignedBegin;
      }
    }

    /** The watched bytes of a running tealet that ends at `far`, clamped to the limit. */
    method ClampedWindow(far: nat) returns (bytes: nat)
      ensures bytes == Window(settings, far)
    {
      if far == FURTHEST {
        return 0;
      }
      if !settings.integrity {
        return 0;
      }
      bytes := settings.bytes;
      if bytes == 0 {
        return;
      }
      if settings.limit.Some? {
        var farLimit := settings.limit.value;
        if farLimit <= far {
          return 0;
        }
        bytes := Min(bytes, farLimit - far);
      }
    }

    /** How a window that is not empty is watched. Nothing is guarded when a watched byte lies on the last page of the address
        space, or past its end. */
    method PlanWindow(far: word, bytes: nat) returns (p: Plan)
      requires Valid() && bytes > 0 && bytes == Window(settings, far)
      ensures p.snapshotBytes <= capacity && p.base.Some?
      ensures if Paged(settings, page) && FirstPage(far, page) < far + bytes && far + bytes + page > WORD then p.guardBase == None
              else p == PlanOf(settings, far, bytes, page)
    {
      hide FirstPage, Pow2, OnBoundary, Canonical, Window, Required;
      p := NO_PLAN.(base := Some(far));
      WindowFits(settings, far);
      Wraps(far, bytes);
      RequiredFits(settings, far, page);
      if page > 0 {
        MaskRounds(far, page, pageBits);
        PageBounds(far, page);
      }
      var end := (far + bytes) % WORD;
      var snapshotBytes := 0;
      if settings.snapshot {
        snapshotBytes := bytes;
      }
      if settings.guard && page != 0 && end > far {
        var guardBase, guardBytes;
        snapshotBytes, guardBase, guardBytes := SplitAtPage(far, end, snapshotBytes);
        PageBounds(end, page);
        if guardBytes > 0 {
          p := p.(guardBase := Some(guardBase), guardBytes := guardBytes);
        }
      }
      if snapshotBytes != 0 {
        if capacity >= snapshotBytes {
          p := p.(snapshotBytes := snapshotBytes);
        }
      }
    }

    /** tealet_integrity_plan_for_current, for a running tealet that ends at `far`: it plans to watch exactly what the
        settings ask for, if and only if the guard reaches all of that. */
    method PlanForCurrent(far: word)
      requires Valid()
      modifies this`plan
      ensures Valid()
      ensures Watches(settings, far, page, plan) <==> !OutOfReach(settings, far, page)
      ensures if OutOfReach(settings, far, page) then plan.guardBase == None
              else plan == PlanOf(settings, far, Window(settings, far), page)
    {
      hide FirstPage, Pow2, OnBoundary, Canonical, Window, Required, Watches, OutOfReach;
      plan := NO_PLAN;
      var bytes := ClampedWindow(far);
      PlanWatches(settings, far, page);
      Reach(settings, far, page, bytes);
      if bytes == 0 {
        return;
      }
      plan := PlanWindow(far, bytes);
      if OutOfReach(settings, far, page) { Unguarded(settings, far, page, plan); }
    }

    /** The bytes that the plan watches by snapshot. */
    ghost predicate InMemory(mem: array<byte>)
      reads this
    {
      plan.snapshotBytes > 0 ==> plan.base.Some? && 0 <= plan.base.value && plan.base.value + plan.snapshotBytes <= mem.Length
    }

    ghost predicate Captured(mem: seq<byte>)
      reads this, block
      requires Valid()
    {
      plan.snapshotBytes > 0 ==>
        Slice(mem, plan.base.value, plan.base.value + plan.snapshotBytes) == block[..plan.snapshotBytes]
    }

    /** tealet_snapshot_capture_current. */
    method Capture(mem: array<byte>)
      requires Valid() && InMemory(mem) && block != mem
      modifies block
      ensures Valid() && Captured(mem[..])
    {
      var size := plan.snapshotBytes;
      if size == 0 {
        return;
      }
      var base := plan.base.value;
      var i := 0;
      while i < size
        invariant 0 <= i <= size && block[..i] == mem[base..base + i]
      {
        block[i] := mem[base + i];
        i := i + 1;
      }
    }

    /** tealet_snapshot_verify_current: whether the watched bytes are still what they were when they were captured. */
    method Verify(mem: array<byte>) returns (r: Status)
      requires Valid() && InMemory(mem)
      modifies this`plan
      ensures Valid() && plan == old(plan).(snapshotBytes := 0)
      ensures r == Done <==> old(Captured(mem[..]))
      ensures r == Aborted <==> !old(Captured(mem[..])) && settings.policy == FAIL_ABORT
      ensures r == Mismatch <==> !old(Captured(mem[..])) && settings.policy != FAIL_ABORT
    {
      if plan.snapshotBytes == 0 {
        return Done;
      }
      var base, size := plan.base.value, plan.snapshotBytes;
      var same := true;
      var i := 0;
      while i < size && same
        invariant 0 <= i <= size
        invariant if same then block[..i] == mem[base..base + i] else i < size && block[i] != mem[base + i]
        decreases size - i, same
      {
        if block[i] != mem[base + i] {
          same := false;
        } else {
          i := i + 1;
        }
      }
      assert same ==> mem[base..base + size] == block[..size];
      assert !same ==> mem[base..base + size][i] != block[..size][i];
      plan := plan.(snapshotBytes := 0);
      if !same {
        if settings.policy == FAIL_ABORT {
          return Aborted;
        }
        return Mismatch;
      }
      r := Done;
    }
  }
}
