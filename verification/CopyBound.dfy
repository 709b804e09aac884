/** How many bytes a transfer copies to the heap: no address twice, and to a target that ends at `far` never more than the
    distance from the stack pointer to `far`. */
module CopyBound {
  import opened Base
  import opened StackModel
  import opened StackProofs
  import opened TransferModel
  import opened Safety

  /** Non-empty ranges in ascending order without overlap, all within lo..hi. */
  ghost predicate Ordered(rs: seq<Range>, lo: int, hi: int) {
    && (forall i :: 0 <= i < |rs| ==> lo <= rs[i].lo < rs[i].hi <= hi)
    && (forall i, j :: 0 <= i < j < |rs| ==> rs[i].hi <= rs[j].lo)
  }

  ghost function Total(rs: seq<Range>): int {
    if rs == [] then 0 else Total(rs[1..]) + rs[0].hi - rs[0].lo
  }

  /** An address that a range covers. */
  ghost predicate Covers(r: Range, a: int) { r.lo <= a < r.hi }

  lemma {:induction false} OrderedTotal(rs: seq<Range>, lo: int, hi: int)
    requires Ordered(rs, lo, hi)
    ensures 0 <= Total(rs) <= Max(0, hi - lo)
  {
    if rs != [] {
      forall i | 0 <= i < |rs[1..]|
        ensures rs[0].hi <= rs[1..][i].lo < rs[1..][i].hi <= hi
      {
        assert rs[1..][i] == rs[i + 1];
      }
      OrderedTotal(rs[1..], rs[0].hi, hi);
    }
  }

  lemma OrderedCons(r: Range, rs: seq<Range>, lo: int, mid: int, hi: int)
    requires Ordered(rs, mid, hi) && lo <= r.lo < r.hi <= mid && r.hi <= hi
    ensures Ordered([r] + rs, lo, hi)
  {
    var x := [r] + rs;
    forall i | 0 <= i < |x| ensures lo <= x[i].lo < x[i].hi <= hi {
      if i > 0 { assert x[i] == rs[i - 1]; }
    }
    forall i, j | 0 <= i < j < |x| ensures x[i].hi <= x[j].lo {
      assert x[j] == rs[j - 1];
      if i > 0 { assert x[i] == rs[i - 1]; }
    }
  }

  ghost predicate Logs<S>(c: Core<S>, c2: Core<S>, rs: seq<Range>) { c2.log == c.log + rs }

  lemma GrowToLog<S>(c: Core<S>, s: S, stop: int, failOk: bool, mainStack: Option<S>)
    requires s in c.stacks
    ensures var g := GrowTo(c, s, stop, failOk, mainStack); var v := c.stacks[s]; var end := Min(v.far, stop);
            Logs(c, g.core, if end - v.first.near <= v.saved || !c.alloc(c.ticks) then [] else [Range(v.Edge(), end)])
  {
    assert c.log + [] == c.log;
  }

  lemma LogsTrans<S>(a: Core<S>, b: Core<S>, c: Core<S>, x: seq<Range>, y: seq<Range>)
    requires Logs(a, b, x) && Logs(b, c, y)
    ensures Logs(a, c, x + y)
  {
    assert a.log + x + y == a.log + (x + y);
  }

  /** Growing the list copies ascending, disjoint ranges between `b` and `stop`. */
  lemma {:induction false} GrowListCopies<S>(c: Core<S>, todo: seq<S>, b: int, stop: int, target: Option<S>, failOk: bool,
                                             mainStack: Option<S>) returns (rs: seq<Range>)
    requires GrowPre(c, todo, stop, target) && Above(c.stacks, todo, b) && forall s :: s in todo ==> s in c.stacks
    ensures Logs(c, GrowList(c, todo, stop, target, failOk, mainStack).core, rs) && Ordered(rs, b, stop)
    decreases |todo|
  {
    hide StackOk, Kin, GrowPre, GrowToPost, GrowTo, StacksOk, HeadDropped, HeadStays, Followed, Pruned, Staircase, Above;
    PreListed(c, todo, stop, target);
    if todo == [] {
      rs := [];
      assert c.log + [] == c.log;
    } else {
      var v := c.stacks[todo[0]];
      var end := Min(v.far, stop);
      HeadEdge(c, todo, b);
      GrowToLog(c, todo[0], stop, failOk, mainStack);
      var head := if end - v.first.near <= v.saved || !c.alloc(c.ticks) then [] else [Range(v.Edge(), end)];
      if target == Some(todo[0]) {
        rs := if v.refcount > 1 then head else [];
        assert c.log + [] == c.log;
      } else {
        GrowListCases(c, todo, stop, target, failOk, mainStack);
        var w := Visit(c, todo[0], stop, failOk, mainStack);
        if w.fail || !w.full {
          rs := head;
        } else {
          assert Staircase(c.stacks, todo) by { PreStaircase(c, todo, stop, target); }
          RestAbove(c, w.core, todo, stop, failOk, mainStack);
          var tail := GrowListCopies(w.core, todo[1..], v.far, stop, target, failOk, mainStack);
          rs := head + tail;
          LogsTrans(c, w.core, GrowList(c, todo, stop, target, failOk, mainStack).core, head, tail);
          if head != [] {
            OrderedCons(head[0], tail, b, v.far, stop);
          } else {
            OrderedWiden(tail, b, v.far, stop);
            assert head + tail == tail;
          }
        }
      }
    }
  }

  lemma PreStaircase<S>(c: Core<S>, todo: seq<S>, stop: int, target: Option<S>)
    requires GrowPre(c, todo, stop, target)
    ensures Staircase(c.stacks, todo)
  {
  }

  lemma OrderedWiden(rs: seq<Range>, lo: int, mid: int, hi: int)
    requires Ordered(rs, mid, hi) && lo <= mid
    ensures Ordered(rs, lo, hi)
  {
  }

  lemma HeadEdge<S>(c: Core<S>, todo: seq<S>, b: int)
    requires todo != [] && Above(c.stacks, todo, b)
    ensures todo[0] in c.stacks && b <= c.stacks[todo[0]].Edge()
  {
  }

  lemma RestAbove<S>(c: Core<S>, c2: Core<S>, todo: seq<S>, stop: int, failOk: bool, mainStack: Option<S>)
    requires todo != [] && NoDup(todo) && Staircase(c.stacks, todo) && HeadDropped(c, c2, todo, stop, failOk, mainStack)
    ensures Above(c2.stacks, todo[1..], c.stacks[todo[0]].far)
  {
    hide StackOk, Kin;
    forall i | 0 <= i < |todo[1..]|
      ensures todo[1..][i] in c2.stacks && c.stacks[todo[0]].far <= c2.stacks[todo[1..][i]].Edge()
    {
      assert todo[1..][i] == todo[i + 1] && todo[i + 1] != todo[0];
    }
  }

  /** No address is copied twice. */
  ghost predicate CopiesOnce(rs: seq<Range>) {
    forall i, j, a :: 0 <= i < j < |rs| && Covers(rs[i], a) ==> !Covers(rs[j], a)
  }

  lemma OrderedOnce(rs: seq<Range>, lo: int, hi: int)
    requires Ordered(rs, lo, hi)
    ensures CopiesOnce(rs)
  {
  }

  lemma {:induction false} TotalAppend(rs: seq<Range>, r: Range)
    ensures Total(rs + [r]) == Total(rs) + r.hi - r.lo
  {
    if rs == [] {
      assert rs + [r] == [r];
    } else {
      TotalAppend(rs[1..], r);
      assert (rs + [r])[1..] == rs[1..] + [r];
    }
  }

  /** The growth step of a transfer copies only what lies between the caller's boundary and the target's. */
  lemma GrowthCopies<S, T>(st: State<S, T>, x: Option<T>, t: T) returns (rs: seq<Range>)
    requires Solid(st, x) && CanReach(st, x, t)
    ensures Logs(st.core, GrowFor(st, t).core, rs) && Ordered(rs, st.tealets[st.cur].far, st.tealets[t].far)
  {
    hide RestOk, MainOk, Owned, StackOk, Staircase, ListExact, StacksOk, GrowList;
    TransferPre(st, x, t);
    StaircaseKnown(st.core);
    var v := st.tealets[t];
    rs := GrowListCopies(st.core, st.core.plist, st.tealets[st.cur].far, v.far, v.stack, FailOk(st),
                         st.tealets[st.main].stack);
  }

  /** The save of the caller adds at most one range, below everything the growth step copied. */
  lemma SaveCopies<S, T>(st: State<S, T>, x: Option<T>, t: T, env: Env, id: S) returns (rs: seq<Range>)
    requires Solid(st, x) && CanReach(st, x, t) && EnvOk(st, env, id)
    ensures Logs(st.core, SaveState(st, t, env.sp, id).st.core, rs)
    ensures CopiesOnce(rs) && 0 <= Total(rs) <= Max(0, st.tealets[t].far - env.sp)
    ensures forall i, a :: 0 <= i < |rs| && Covers(rs[i], a) ==> env.sp <= a < st.tealets[t].far
  {
    hide Solid, GrowFor, SaveState, CopiesOnce, Ordered;
    SolidBasics(st, x);
    GrownSame(st, x, t);
    SaveLogs(st, t, env.sp, id);
    var grown := GrowthCopies(st, x, t);
    var far, stop := st.tealets[st.cur].far, st.tealets[t].far;
    var c := GrowFor(st, t).core;
    OrderedTotal(grown, far, stop);
    OrderedOnce(grown, far, stop);
    OrderedCovers(grown, far, stop);
    if GrowFor(st, t).fail || st.tealets[st.cur].flags.exiting || !c.alloc(c.ticks) {
      rs := grown;
    } else {
      var own := Range(env.sp, env.sp + Max(0, Min(far, stop) - env.sp));
      rs := grown + [own];
      assert c.log + [own] == st.core.log + rs;
      TotalAppend(grown, own);
      OwnOnce(grown, own, far, stop);
    }
  }

  /** What the save of the caller adds to the log. */
  lemma SaveLogs<S, T>(st: State<S, T>, t: T, sp: int, id: S)
    requires Known(st) && t in st.tealets
    ensures var g := GrowFor(st, t); var far, stop := st.tealets[st.cur].far, st.tealets[t].far;
            SaveState(st, t, sp, id).st.core.log
            == if g.fail || st.tealets[st.cur].flags.exiting || !g.core.alloc(g.core.ticks) then g.core.log
               else g.core.log + [Range(sp, sp + Max(0, Min(far, stop) - sp))]
  {
    hide GrowFor;
  }

  lemma OrderedCovers(rs: seq<Range>, lo: int, hi: int)
    requires Ordered(rs, lo, hi)
    ensures forall i, a :: 0 <= i < |rs| && Covers(rs[i], a) ==> lo <= a < hi
  {
  }

  lemma OwnOnce(grown: seq<Range>, own: Range, far: int, stop: int)
    requires Ordered(grown, far, stop) && own.hi <= far
    ensures CopiesOnce(grown + [own])
  {
    var rs := grown + [own];
    forall i, j, a | 0 <= i < j < |rs| && Covers(rs[i], a) ensures !Covers(rs[j], a) {
      if j < |grown| { assert rs[i] == grown[i] && rs[j] == grown[j]; } else { assert rs[i] == grown[i] && rs[j] == own; }
    }
  }

  /** One transfer copies no address of the C stack twice, copies only addresses between the stack pointer and the
      boundary of its target, and so at most as many bytes as lie between them. */
  lemma TransferCopies<S, T>(st: State<S, T>, x: Option<T>, t: T, env: Env, id: S) returns (rs: seq<Range>)
    requires Solid(st, x) && t in st.tealets && t != st.cur && (x == Some(t) || x.None?)
    requires st.tealets[t].flags.bound && EnvOk(st, env, id) && Known(st)
    ensures Logs(st.core, SwitchStack(st, t, env, id).st.core, rs)
    ensures CopiesOnce(rs) && 0 <= Total(rs) <= Max(0, st.tealets[t].far - env.sp)
    ensures forall i, a :: 0 <= i < |rs| && Covers(rs[i], a) ==> env.sp <= a < st.tealets[t].far
  {
    hide Solid, SaveState, CopiesOnce, Covers, Total;
    var r := SwitchStack(st, t, env, id);
    if !r.moved && r.code != ErrMem {
      rs := [];
      assert st.core.log + [] == st.core.log;
      NoCopies();
    } else {
      var st1 := st.(prev := Some(st.cur), target := Some(t));
      SolidBasics(st, x);
      SolidCong(st, st1, x);
      MovedReach(st, x, t, env, id);
      CanReachIntro(st1, x, t);
      rs := SaveCopies(st1, x, t, env, id);
    }
  }

  lemma NoCopies()
    ensures CopiesOnce([]) && Total([]) == 0
  {
  }

  lemma MovedReach<S, T>(st: State<S, T>, x: Option<T>, t: T, env: Env, id: S)
    requires Known(st) && t in st.tealets
    requires var r := SwitchStack(st, t, env, id); r.moved || r.code == ErrMem
    ensures !st.tealets[t].flags.exited && !IsDefunct(st, t)
  {
    hide StackmanSwitch;
  }
}
