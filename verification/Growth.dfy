/** What growing the list will ask of the allocator, and how it will end, told from the state before it. */
module Growth {
  import opened Base
  import opened StackModel
  import opened StackProofs

  /** The place of a stack on the list. */
  ghost function Position<S>(list: seq<S>, s: S): (k: nat)
    requires s in list
    ensures k < |list| && list[k] == s
  {
    if list[0] == s then 0 else 1 + Position(list[1..], s)
  }

  lemma {:induction false} PositionAt<S>(list: seq<S>, k: nat)
    requires NoDup(list) && k < |list|
    ensures Position(list, list[k]) == k
  {
    if k > 0 {
      assert list[k] == list[1..][k - 1] && list[0] != list[k];
      PositionAt(list[1..], k - 1);
    }
  }

  /** How many of the newest listed stacks still need the C stack below `stop`. */
  ghost function Needy<S>(stacks: map<S, StackV>, list: seq<S>, stop: int): (n: nat)
    requires forall s :: s in list ==> s in stacks
    ensures n <= |list|
  {
    if list == [] || stop <= stacks[list[0]].Edge() then 0 else 1 + Needy(stacks, list[1..], stop)
  }

  ghost predicate Listed<S>(list: seq<S>, target: Option<S>) { target.Some? && target.value in list }

  /** How many requests for memory growing the list takes: one for each stack that needs the C stack below `stop`, the
      target excepted when nobody shares it. */
  ghost function Requests<S>(c: Core<S>, list: seq<S>, stop: int, target: Option<S>): (n: nat)
    requires forall s :: s in list ==> s in c.stacks
    ensures n <= |list|
  {
    var n := Needy(c.stacks, list, stop);
    if Listed(list, target) && c.stacks[target.value].refcount <= 1 && n > 0 then n - 1 else n
  }

  /** The allocator refuses the request for the i-th stack, which may not be given up. */
  ghost predicate Stuck<S>(c: Core<S>, list: seq<S>, i: nat, failOk: bool, mainStack: Option<S>)
    requires i < |list|
  {
    !c.alloc(c.ticks + i) && (failOk || mainStack == Some(list[i]))
  }

  /** No request is refused that growing cannot do without. */
  ghost predicate CanGrow<S>(c: Core<S>, list: seq<S>, n: nat, failOk: bool, mainStack: Option<S>)
    requires n <= |list|
  {
    forall i :: 0 <= i < n ==> !Stuck(c, list, i, failOk, mainStack)
  }

  /** The i-th stack is given up: it is one of the `n` that ask for memory, growing gets that far, the request for it is
      refused, and nothing forbids giving it up. */
  ghost predicate GivenUp<S>(c: Core<S>, list: seq<S>, i: nat, n: nat, failOk: bool, mainStack: Option<S>)
    requires i < |list|
  {
    i < n && !failOk && mainStack != Some(list[i]) && !c.alloc(c.ticks + i) && CanGrow(c, list, i, failOk, mainStack)
  }

  /** The listed target is given up: it is shared, and the request for it is refused. */
  ghost predicate GivesUp<S>(c: Core<S>, s: S, failOk: bool)
    requires s in c.stacks
  {
    !failOk && s in c.plist && c.stacks[s].refcount > 1 && !c.alloc(c.ticks + Position(c.plist, s))
  }

  /** How growing the list ends. */
  ghost predicate Ends<S>(c: Core<S>, g: Grown<S>, list: seq<S>, n: nat, failOk: bool, mainStack: Option<S>)
    requires n <= |list|
  {
    && (g.fail <==> !CanGrow(c, list, n, failOk, mainStack))
    && (!g.fail ==> g.core.ticks == c.ticks + n)
    && (g.fail ==> exists i :: 0 <= i < n && FailsAt(c, g, list, i, failOk, mainStack))
  }

  /** The i-th stack is the first one that is stuck; the newer ones have left the list. */
  ghost predicate FailsAt<S>(c: Core<S>, g: Grown<S>, list: seq<S>, i: nat, failOk: bool, mainStack: Option<S>)
    requires i < |list|
  {
    Stuck(c, list, i, failOk, mainStack) && g.core.ticks == c.ticks + i + 1 && g.core.plist == list[i..]
  }

  lemma NeedyCong<S>(stacks: map<S, StackV>, stacks2: map<S, StackV>, list: seq<S>, stop: int)
    requires forall s :: s in list ==> s in stacks && s in stacks2 && stacks2[s] == stacks[s]
    ensures Needy(stacks2, list, stop) == Needy(stacks, list, stop)
  {
    if list != [] {
      NeedyCong(stacks, stacks2, list[1..], stop);
    }
  }

  /** Nothing past a stack that ends beyond `stop` needs the C stack below `stop`. */
  lemma NeedyEnd<S>(stacks: map<S, StackV>, list: seq<S>, stop: int)
    requires Staircase(stacks, list) && list != [] && stop <= stacks[list[0]].far
    ensures forall s :: s in list ==> s in stacks
    ensures Needy(stacks, list, stop) == if stop <= stacks[list[0]].Edge() then 0 else 1
  {
    if |list| > 1 {
      assert stacks[list[0]].far <= stacks[list[1]].Edge();
      assert list[1..][0] == list[1];
    }
  }

  /** A listed target that ends at `stop` is the last stack that needs the C stack below it. */
  lemma {:induction false} NeedyTarget<S>(stacks: map<S, StackV>, list: seq<S>, k: nat)
    requires Staircase(stacks, list) && k < |list|
    ensures forall s :: s in list ==> s in stacks
    ensures Needy(stacks, list, stacks[list[k]].far) == k + 1
  {
    hide StackV.Bytes;
    if k == 0 {
      NeedyEnd(stacks, list, stacks[list[0]].far);
    } else {
      var rest := list[1..];
      assert rest[k - 1] == list[k];
      RestStaircase(stacks, list);
      NeedyTarget(stacks, rest, k - 1);
      assert stacks[list[0]].far <= stacks[list[k]].Edge();
    }
  }

  lemma RestStaircase<S>(stacks: map<S, StackV>, list: seq<S>)
    requires Staircase(stacks, list) && list != []
    ensures Staircase(stacks, list[1..])
  {
    hide StackV.Partial, StackV.Edge;
  }

  /** What one visit asks of the allocator. */
  lemma VisitAsks<S>(c: Core<S>, s: S, stop: int, failOk: bool, mainStack: Option<S>)
    requires s in c.stacks && c.stacks[s].Partial()
    ensures var v := Visit(c, s, stop, failOk, mainStack);
            if stop <= c.stacks[s].Edge() then v.core == c && !v.fail && !v.full
            else
              && v.core.ticks == c.ticks + 1
              && (v.fail <==> !c.alloc(c.ticks) && (failOk || mainStack == Some(s)))
              && (!v.fail && c.alloc(c.ticks) ==> (v.full <==> c.stacks[s].far <= stop))
              && (!v.fail ==> (v.core.stacks[s].defunct <==> !c.alloc(c.ticks)))
              && (!v.fail && !c.alloc(c.ticks) ==> v.full)
              && (v.fail ==> v.core.plist == c.plist && v.core.stacks == c.stacks)
  {
  }

  lemma TargetAsks<S>(c: Core<S>, s: S, stop: int, failOk: bool, mainStack: Option<S>)
    requires s in c.stacks && c.stacks[s].Partial() && c.stacks[s].far == stop
    ensures var v := VisitTarget(c, s, stop, failOk, mainStack);
            if c.stacks[s].refcount <= 1 then v.core.ticks == c.ticks && !v.fail && v.core.stacks == c.stacks
            else
              && v.core.ticks == c.ticks + 1
              && (v.fail <==> !c.alloc(c.ticks) && (failOk || mainStack == Some(s)))
              && (!v.fail ==> (v.core.stacks[s].defunct <==> !c.alloc(c.ticks)))
              && (v.fail ==> v.core.plist == c.plist && v.core.stacks == c.stacks)
  {
  }

  lemma EndsHead<S>(c: Core<S>, g: Grown<S>, list: seq<S>, failOk: bool, mainStack: Option<S>)
    requires list != [] && c.plist == list && g.core.ticks == c.ticks + 1
    requires g.fail <==> !c.alloc(c.ticks) && (failOk || mainStack == Some(list[0]))
    requires g.fail ==> g.core.plist == list
    ensures Ends(c, g, list, 1, failOk, mainStack)
  {
    if g.fail {
      assert list[0..] == list;
      assert FailsAt(c, g, list, 0, failOk, mainStack);
      assert Stuck(c, list, 0, failOk, mainStack);
    }
  }

  lemma EndsNone<S>(c: Core<S>, g: Grown<S>, list: seq<S>, failOk: bool, mainStack: Option<S>)
    requires !g.fail && g.core.ticks == c.ticks
    ensures Ends(c, g, list, 0, failOk, mainStack)
  {
  }

  lemma EndsRest<S>(c: Core<S>, c1: Core<S>, g: Grown<S>, list: seq<S>, n: nat, failOk: bool, mainStack: Option<S>)
    requires list != [] && c1.ticks == c.ticks + 1 && c1.alloc == c.alloc && !Stuck(c, list, 0, failOk, mainStack)
    requires n <= |list[1..]| && Ends(c1, g, list[1..], n, failOk, mainStack)
    ensures Ends(c, g, list, n + 1, failOk, mainStack)
  {
    var rest := list[1..];
    assert forall i :: 0 <= i < n ==> (Stuck(c1, rest, i, failOk, mainStack) <==> Stuck(c, list, i + 1, failOk, mainStack));
    if g.fail {
      var i :| 0 <= i < n && FailsAt(c1, g, rest, i, failOk, mainStack);
      assert rest[i..] == list[i + 1..];
      assert FailsAt(c, g, list, i + 1, failOk, mainStack);
      assert Stuck(c, list, i + 1, failOk, mainStack);
    } else {
      forall i | 0 <= i < n + 1 ensures !Stuck(c, list, i, failOk, mainStack) {
        if i > 0 {
          assert !Stuck(c1, rest, i - 1, failOk, mainStack);
        }
      }
    }
  }

  /** Growing the list fails exactly when a request is refused for a stack that may not be given up, and takes exactly
      the requests that were counted beforehand. */
  lemma {:induction false} GrowListEnds<S>(c: Core<S>, todo: seq<S>, stop: int, target: Option<S>, failOk: bool,
                                           mainStack: Option<S>)
    requires GrowPre(c, todo, stop, target) && forall s :: s in todo ==> s in c.stacks
    ensures Ends(c, GrowList(c, todo, stop, target, failOk, mainStack), todo, Requests(c, todo, stop, target), failOk, mainStack)
    decreases |todo|
  {
    hide StackOk, Kin, GrowPre, Visit, VisitTarget, GrowToPost, StackV.Partial, StackV.Edge, HeadStays, HeadDropped, Ends,
      Staircase, StacksOk;
    var g := GrowList(c, todo, stop, target, failOk, mainStack);
    PreListed(c, todo, stop, target);
    if todo == [] {
      EndsNone(c, g, todo, failOk, mainStack);
    } else if target == Some(todo[0]) {
      TargetFirst(c, todo, stop);
      TargetAsks(c, todo[0], stop, failOk, mainStack);
      if c.stacks[todo[0]].refcount > 1 {
        EndsHead(c, g, todo, failOk, mainStack);
      } else {
        EndsNone(c, g, todo, failOk, mainStack);
      }
    } else {
      GrowListCases(c, todo, stop, target, failOk, mainStack);
      VisitAsks(c, todo[0], stop, failOk, mainStack);
      var v := Visit(c, todo[0], stop, failOk, mainStack);
      if stop <= c.stacks[todo[0]].Edge() {
        EndsNone(c, g, todo, failOk, mainStack);
      } else if v.fail {
        StuckFirst(c, g, todo, Requests(c, todo, stop, target), failOk, mainStack) by {
          RequestsFirst(c, todo, stop, target);
        }
      } else if !v.full {
        LastNeedy(c, todo, stop, target);
        EndsHead(c, g, todo, failOk, mainStack);
      } else {
        GrowListEnds(v.core, todo[1..], stop, target, failOk, mainStack);
        RequestsRest(c, v.core, todo, stop, target, failOk, mainStack);
        DroppedAlloc(c, v.core, todo, stop, failOk, mainStack);
        EndsRest(c, v.core, g, todo, Requests(v.core, todo[1..], stop, target), failOk, mainStack);
      }
    }
  }

  lemma TargetFirst<S>(c: Core<S>, todo: seq<S>, stop: int)
    requires todo != [] && GrowPre(c, todo, stop, Some(todo[0])) && forall s :: s in todo ==> s in c.stacks
    ensures c.stacks[todo[0]].far == stop
    ensures Requests(c, todo, stop, Some(todo[0])) == if c.stacks[todo[0]].refcount > 1 then 1 else 0
  {
    hide StackOk, StackV.Edge;
    NeedyTarget(c.stacks, todo, 0);
  }

  lemma StuckFirst<S>(c: Core<S>, g: Grown<S>, list: seq<S>, n: nat, failOk: bool, mainStack: Option<S>)
    requires list != [] && 0 < n <= |list| && c.plist == list
    requires g.fail && g.core.ticks == c.ticks + 1 && g.core.plist == list && Stuck(c, list, 0, failOk, mainStack)
    ensures Ends(c, g, list, n, failOk, mainStack)
  {
    assert list[0..] == list;
    assert FailsAt(c, g, list, 0, failOk, mainStack);
  }

  lemma RequestsFirst<S>(c: Core<S>, todo: seq<S>, stop: int, target: Option<S>)
    requires GrowPre(c, todo, stop, target) && todo != [] && target != Some(todo[0])
    requires forall s :: s in todo ==> s in c.stacks
    requires c.stacks[todo[0]].Edge() < stop
    ensures 0 < Requests(c, todo, stop, target) <= |todo|
  {
    hide StackOk, StackV.Edge;
    if Listed(todo, target) {
      var k := Position(todo, target.value);
      NeedyTarget(c.stacks, todo, k);
    }
  }

  lemma LastNeedy<S>(c: Core<S>, todo: seq<S>, stop: int, target: Option<S>)
    requires GrowPre(c, todo, stop, target) && todo != [] && target != Some(todo[0]) && stop < c.stacks[todo[0]].far
    requires forall s :: s in todo ==> s in c.stacks
    requires c.stacks[todo[0]].Edge() < stop && !Listed(todo, target)
    ensures Requests(c, todo, stop, target) == 1
  {
    NeedyEnd(c.stacks, todo, stop);
  }

  lemma RequestsRest<S>(c: Core<S>, c1: Core<S>, todo: seq<S>, stop: int, target: Option<S>, failOk: bool,
                        mainStack: Option<S>)
    requires GrowPre(c, todo, stop, target) && todo != [] && target != Some(todo[0])
    requires forall s :: s in todo ==> s in c.stacks
    requires c.stacks[todo[0]].Edge() < stop && HeadDropped(c, c1, todo, stop, failOk, mainStack)
    ensures forall s :: s in todo[1..] ==> s in c1.stacks
    ensures Requests(c, todo, stop, target) == Requests(c1, todo[1..], stop, target) + 1
  {
    hide StackOk, Kin, StackV.Edge, StacksOk;
    PreListed(c, todo, stop, target);
    NeedyCong(c.stacks, c1.stacks, todo[1..], stop);
    if Listed(todo, target) {
      var k := Position(todo, target.value);
      NeedyTarget(c.stacks, todo, k);
      assert target.value in todo[1..];
    }
  }

  lemma DroppedAlloc<S>(c: Core<S>, c1: Core<S>, todo: seq<S>, stop: int, failOk: bool, mainStack: Option<S>)
    requires todo != [] && HeadDropped(c, c1, todo, stop, failOk, mainStack)
    ensures c1.alloc == c.alloc && c1.plist == todo[1..]
  {
    hide StackOk, Kin, StacksOk;
  }

  /* ---- which stacks are given up ---- */

  /** After growing the list to `c2`, exactly the stacks of `list` that were refused their request are defunct. */
  ghost predicate Refused<S>(c: Core<S>, c2: Core<S>, list: seq<S>, n: nat, failOk: bool, mainStack: Option<S>) {
    forall i :: 0 <= i < |list| ==>
      list[i] in c2.stacks && (c2.stacks[list[i]].defunct <==> GivenUp(c, list, i, n, failOk, mainStack))
  }

  lemma RefusedNone<S>(c: Core<S>, c2: Core<S>, list: seq<S>, n: nat, failOk: bool, mainStack: Option<S>)
    requires forall s :: s in list ==> s in c.stacks && c.stacks[s].Partial() && s in c2.stacks && c2.stacks[s] == c.stacks[s]
    requires n == 0 || (list != [] && Stuck(c, list, 0, failOk, mainStack))
    ensures Refused(c, c2, list, n, failOk, mainStack)
  {
    if n > 0 {
      forall i | 0 <= i < |list| ensures !GivenUp(c, list, i, n, failOk, mainStack) {
        if i > 0 { assert Stuck(c, list, 0, failOk, mainStack); }
      }
    }
  }

  lemma RefusedHead<S>(c: Core<S>, c2: Core<S>, list: seq<S>, failOk: bool, mainStack: Option<S>)
    requires list != [] && NoDup(list) && SameBut(c, c2, list[0]) && !Stuck(c, list, 0, failOk, mainStack)
    requires forall s :: s in list ==> s in c.stacks && c.stacks[s].Partial()
    requires c2.stacks[list[0]].defunct <==> !c.alloc(c.ticks)
    ensures Refused(c, c2, list, 1, failOk, mainStack)
  {
    forall i | 0 < i < |list| ensures list[i] in c2.stacks && !c2.stacks[list[i]].defunct {
      assert list[i] != list[0] && list[i] in list;
    }
  }

  lemma RefusedRest<S>(c: Core<S>, c1: Core<S>, c2: Core<S>, list: seq<S>, n: nat, failOk: bool, mainStack: Option<S>)
    requires list != [] && c1.ticks == c.ticks + 1 && c1.alloc == c.alloc && !Stuck(c, list, 0, failOk, mainStack)
    requires list[0] in c2.stacks && (c2.stacks[list[0]].defunct <==> !c.alloc(c.ticks))
    requires Refused(c1, c2, list[1..], n, failOk, mainStack)
    ensures Refused(c, c2, list, n + 1, failOk, mainStack)
  {
    var rest := list[1..];
    forall i | 0 < i < |list|
      ensures GivenUp(c, list, i, n + 1, failOk, mainStack) <==> GivenUp(c1, rest, i - 1, n, failOk, mainStack)
      ensures rest[i - 1] == list[i]
    {
      CanGrowRest(c, c1, list, i, failOk, mainStack);
    }
  }

  lemma CanGrowRest<S>(c: Core<S>, c1: Core<S>, list: seq<S>, i: nat, failOk: bool, mainStack: Option<S>)
    requires 0 < i <= |list| && c1.ticks == c.ticks + 1 && c1.alloc == c.alloc && !Stuck(c, list, 0, failOk, mainStack)
    ensures CanGrow(c, list, i, failOk, mainStack) <==> CanGrow(c1, list[1..], i - 1, failOk, mainStack)
  {
    var rest := list[1..];
    assert forall j :: 0 <= j < |rest| ==> (Stuck(c1, rest, j, failOk, mainStack) <==> Stuck(c, list, j + 1, failOk, mainStack));
    if CanGrow(c1, rest, i - 1, failOk, mainStack) {
      forall j | 0 <= j < i ensures !Stuck(c, list, j, failOk, mainStack) {
        if j > 0 { assert !Stuck(c1, rest, j - 1, failOk, mainStack); }
      }
    }
  }

  /** Growing the list leaves every stack as it was, longer, or given up; it gives up exactly the stacks whose request is
      refused and that may be given up, as far as it gets. */
  lemma {:induction false} GrowListGivesUp<S>(c: Core<S>, todo: seq<S>, stop: int, target: Option<S>, failOk: bool,
                                              mainStack: Option<S>)
    requires GrowPre(c, todo, stop, target) && forall s :: s in todo ==> s in c.stacks
    ensures Followed(c, GrowList(c, todo, stop, target, failOk, mainStack).core, todo, failOk, mainStack)
    ensures Refused(c, GrowList(c, todo, stop, target, failOk, mainStack).core, todo, Requests(c, todo, stop, target),
                    failOk, mainStack)
    decreases |todo|
  {
    hide StackOk, Kin, GrowPre, Visit, VisitTarget, GrowToPost, StackV.Partial, StackV.Edge, HeadStays, HeadDropped, Refused,
      Staircase, StacksOk, SameBut, GivenUp, Followed;
    var g := GrowList(c, todo, stop, target, failOk, mainStack);
    GrowListFollows(c, todo, stop, target, failOk, mainStack);
    var n := Requests(c, todo, stop, target);
    PreListed(c, todo, stop, target);
    if todo == [] {
      RefusedNone(c, g.core, todo, n, failOk, mainStack);
    } else if target == Some(todo[0]) {
      TargetFirst(c, todo, stop);
      TargetAsks(c, todo[0], stop, failOk, mainStack);
      TargetSame(c, todo, stop, failOk, mainStack);
      if n == 0 || g.fail {
        RefusedNone(c, g.core, todo, n, failOk, mainStack);
      } else {
        RefusedHead(c, g.core, todo, failOk, mainStack);
      }
    } else {
      GrowListCases(c, todo, stop, target, failOk, mainStack);
      VisitAsks(c, todo[0], stop, failOk, mainStack);
      VisitSame(c, todo, stop, target, failOk, mainStack);
      var v := Visit(c, todo[0], stop, failOk, mainStack);
      if stop <= c.stacks[todo[0]].Edge() {
        NoneNeedy(c, todo, stop, target);
        RefusedNone(c, g.core, todo, n, failOk, mainStack);
      } else if v.fail {
        RefusedNone(c, g.core, todo, n, failOk, mainStack);
      } else if !v.full {
        LastNeedy(c, todo, stop, target);
        RefusedHead(c, g.core, todo, failOk, mainStack);
      } else {
        GrowListGivesUp(v.core, todo[1..], stop, target, failOk, mainStack);
        RequestsRest(c, v.core, todo, stop, target, failOk, mainStack);
        DroppedAlloc(c, v.core, todo, stop, failOk, mainStack);
        HeadKept(v.core, g.core, todo, stop, target, failOk, mainStack);
        RefusedRest(c, v.core, g.core, todo, Requests(v.core, todo[1..], stop, target), failOk, mainStack);
      }
    }
  }

  lemma NoneNeedy<S>(c: Core<S>, todo: seq<S>, stop: int, target: Option<S>)
    requires todo != [] && (forall s :: s in todo ==> s in c.stacks) && stop <= c.stacks[todo[0]].Edge()
    ensures Requests(c, todo, stop, target) == 0
  {
  }

  lemma TargetSame<S>(c: Core<S>, todo: seq<S>, stop: int, failOk: bool, mainStack: Option<S>)
    requires todo != [] && GrowPre(c, todo, stop, Some(todo[0])) && forall s :: s in todo ==> s in c.stacks
    ensures SameBut(c, GrowList(c, todo, stop, Some(todo[0]), failOk, mainStack).core, todo[0])
  {
    hide StackOk, Kin, StacksOk, GrowToPost;
    GrowListTarget(c, todo, stop, failOk, mainStack);
  }

  lemma VisitSame<S>(c: Core<S>, todo: seq<S>, stop: int, target: Option<S>, failOk: bool, mainStack: Option<S>)
    requires GrowPre(c, todo, stop, target) && todo != [] && target != Some(todo[0])
    requires forall s :: s in todo ==> s in c.stacks
    ensures var v := Visit(c, todo[0], stop, failOk, mainStack);
            SameBut(c, v.core, todo[0]) && (!v.fail && !v.full ==> !Listed(todo, target) && stop < c.stacks[todo[0]].far)
  {
    hide StackOk, Kin, StacksOk, Visit;
    GrowListCases(c, todo, stop, target, failOk, mainStack);
    if !Visit(c, todo[0], stop, failOk, mainStack).fail && !Visit(c, todo[0], stop, failOk, mainStack).full {
      RestIdle(c, Visit(c, todo[0], stop, failOk, mainStack), todo, stop, target, failOk, mainStack);
    }
  }

  lemma HeadKept<S>(c1: Core<S>, c2: Core<S>, todo: seq<S>, stop: int, target: Option<S>, failOk: bool, mainStack: Option<S>)
    requires todo != [] && NoDup(todo) && GrowPre(c1, todo[1..], stop, target) && todo[0] in c1.stacks
    requires forall s :: s in todo[1..] ==> s in c1.stacks
    requires c2 == GrowList(c1, todo[1..], stop, target, failOk, mainStack).core
    ensures todo[0] in c2.stacks && c2.stacks[todo[0]] == c1.stacks[todo[0]]
  {
    hide StackOk, Kin, GrowPre, GrowList;
    GrowListFollows(c1, todo[1..], stop, target, failOk, mainStack);
    assert todo[0] !in todo[1..];
  }

  /** A listed target survives a growth that succeeds unless it is shared and the request for it is refused. */
  lemma GrowListTorn<S>(c: Core<S>, todo: seq<S>, k: nat, failOk: bool, mainStack: Option<S>)
    requires k < |todo| && forall s :: s in todo ==> s in c.stacks
    requires GrowPre(c, todo, c.stacks[todo[k]].far, Some(todo[k]))
    requires !GrowList(c, todo, c.stacks[todo[k]].far, Some(todo[k]), failOk, mainStack).fail
    ensures GrowList(c, todo, c.stacks[todo[k]].far, Some(todo[k]), failOk, mainStack).core.stacks[todo[k]].defunct
            <==> c.stacks[todo[k]].refcount > 1 && !c.alloc(c.ticks + k)
  {
    hide StackOk, Kin, GrowList, StackV.Edge, StacksOk;
    var stop, target := c.stacks[todo[k]].far, Some(todo[k]);
    var n := Requests(c, todo, stop, target);
    GrowListGivesUp(c, todo, stop, target, failOk, mainStack);
    GrowListEnds(c, todo, stop, target, failOk, mainStack);
    NeedyTarget(c.stacks, todo, k);
    if k < n { assert !Stuck(c, todo, k, failOk, mainStack); }
  }
}
