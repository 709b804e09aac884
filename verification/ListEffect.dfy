/** Exactly what a transfer does to the list of half-saved stacks, told from the state before it and from what the allocator
    will answer. */
module ListEffect {
  import opened Base
  import opened StackModel
  import opened StackProofs
  import opened Growth
  import opened TransferModel
  import opened Safety
  import opened Operations
  import opened Refinement
  import opened PrivateStacks

  /** grow_list stops at a listed target: what is older than the target stays, untouched. */
  lemma {:induction false} StopsAtTarget<S>(c: Core<S>, todo: seq<S>, stop: int, failOk: bool, mainStack: Option<S>, k: nat)
    requires k < |todo| && GrowPre(c, todo, stop, Some(todo[k])) && forall s :: s in todo ==> s in c.stacks
    requires !GrowList(c, todo, stop, Some(todo[k]), failOk, mainStack).fail
    ensures var c2 := GrowList(c, todo, stop, Some(todo[k]), failOk, mainStack).core;
            && c2.plist == todo[k + 1..]
            && forall i :: k < i < |todo| ==> c2.stacks[todo[i]] == c.stacks[todo[i]]
    decreases |todo|
  {
    hide StackOk, Kin, GrowPre, Visit, VisitTarget, GrowToPost, StackV.Partial, StacksOk;
    var target := Some(todo[k]);
    var c2 := GrowList(c, todo, stop, target, failOk, mainStack).core;
    PreListed(c, todo, stop, target);
    if k == 0 {
      GrowListTarget(c, todo, stop, failOk, mainStack);
    } else {
      assert todo[k] in todo[1..] by { assert todo[1..][k - 1] == todo[k]; }
      GrowListCases(c, todo, stop, target, failOk, mainStack);
      var v := Visit(c, todo[0], stop, failOk, mainStack);
      assert todo[1..][k - 1] == todo[k];
      StopsAtTarget(v.core, todo[1..], stop, failOk, mainStack, k - 1);
      assert todo[1..][k..] == todo[k + 1..];
      forall i | k < i < |todo| ensures c2.stacks[todo[i]] == c.stacks[todo[i]] {
        assert todo[1..][i - 1] == todo[i];
      }
    }
  }

  /** Fully saved: every byte up to the boundary is on the heap. */
  ghost predicate FullySaved(v: StackV) { !v.defunct && v.Edge() == v.far }

  ghost predicate SameStack<S>(c: Core<S>, c2: Core<S>, s: S) {
    s in c.stacks && s in c2.stacks && c2.stacks[s] == c.stacks[s]
  }

  /** `s` has left the list: it ended at or before `stop` and has been saved to its end, if its request for memory was
      granted; otherwise it has been given up. */
  ghost predicate Dropped<S>(c: Core<S>, c2: Core<S>, s: S, stop: int, granted: bool) {
    && s in c.stacks && s in c2.stacks
    && if granted then c.stacks[s].far <= stop && FullySaved(c2.stacks[s]) else c2.stacks[s].defunct
  }

  /** `s` is still listed: it ends beyond `stop` and needs nothing of the C stack below it. */
  ghost predicate StillListed<S>(c: Core<S>, c2: Core<S>, s: S, stop: int) {
    && s in c.stacks && s in c2.stacks && stop < c.stacks[s].far
    && c2.stacks[s].Partial() && stop <= c2.stacks[s].Edge()
  }

  /** How many of the newest listed stacks end at or before `stop`. */
  ghost function Ended<S>(stacks: map<S, StackV>, list: seq<S>, stop: int): (n: nat)
    requires forall s :: s in list ==> s in stacks
    ensures n <= |list|
  {
    if list == [] || stop < stacks[list[0]].far then 0 else 1 + Ended(stacks, list[1..], stop)
  }

  /** How many stacks leave the list when it is grown up to `stop`: those that end at or before `stop`, and the next one as
      well if it needs the C stack below `stop` and its request is refused. */
  ghost function Leavers<S>(c: Core<S>, stop: int): (n: nat)
    requires forall s :: s in c.plist ==> s in c.stacks
    ensures n <= |c.plist|
  {
    var e := Ended(c.stacks, c.plist, stop);
    if e < Needy(c.stacks, c.plist, stop) && !c.alloc(c.ticks + e) then e + 1 else e
  }

  /** Along the staircase the stacks that end at or before `stop` come first; each of them needs the C stack below `stop`,
      and at most one more does. */
  lemma {:induction false} EndedSplits<S>(stacks: map<S, StackV>, list: seq<S>, stop: int)
    requires Staircase(stacks, list)
    ensures forall s :: s in list ==> s in stacks
    ensures var e := Ended(stacks, list, stop);
            && (forall i :: 0 <= i < |list| ==> (stacks[list[i]].far <= stop <==> i < e))
            && e <= Needy(stacks, list, stop) <= e + 1
    decreases |list|
  {
    hide StackV.Bytes;
    StairsKnown(stacks, list);
    if list != [] {
      assert list[0] in stacks;
      if stop < stacks[list[0]].far {
        NeedyEnd(stacks, list, stop);
        forall i | 0 <= i < |list| ensures stop < stacks[list[i]].far {
          if i > 0 { assert stacks[list[0]].far <= stacks[list[i]].Edge() && stacks[list[i]].Partial(); }
        }
      } else {
        RestStaircase(stacks, list);
        EndedSplits(stacks, list[1..], stop);
        forall i | 0 < i < |list| ensures stacks[list[i]].far <= stop <==> i - 1 < Ended(stacks, list[1..], stop) {
          assert list[1..][i - 1] == list[i];
        }
        assert stacks[list[0]].Partial();
      }
    }
  }

  lemma StairsKnown<S>(stacks: map<S, StackV>, list: seq<S>)
    requires Staircase(stacks, list)
    ensures forall s :: s in list ==> s in stacks
  {
  }

  lemma NotPartialFull(v: StackV, n: int)
    requires StackOk(v, n) && !v.defunct && !v.Partial() && n < FURTHEST
    ensures FullySaved(v)
  {
    hide StackV.Bytes, Tiled;
  }

  /** What growing does to a listed stack that leaves the list, the unshared target excepted. */
  lemma LeaverFate<S, T>(st: State<S, T>, x: Option<T>, t: T, i: nat)
    requires Solid(st, x) && CanReach(st, x, t) && !GrowFor(st, t).fail && i < |st.core.plist|
    requires st.core.plist[i] !in GrowFor(st, t).core.plist
    requires st.tealets[t].stack == Some(st.core.plist[i]) ==> st.core.stacks[st.core.plist[i]].refcount > 1
    ensures Known(st)
    ensures var s := st.core.plist[i];
            && i < Asked(st, t)
            && Dropped(st.core, GrowFor(st, t).core, s, st.tealets[t].far, st.core.alloc(st.core.ticks + i))
  {
    hide RestOk, MainOk, Owned, RunnerOk, StackOk, GrowList, GrowPre, FailOk, Requests, Staircase, Above, ListExact, Kin, Stuck,
      StackV.Edge;
    SolidBasics(st, x);
    TransferPre(st, x, t);
    StaircaseKnown(st.core);
    var c, v, g, m := st.core, st.tealets[t], GrowFor(st, t), st.tealets[st.main].stack;
    var s := c.plist[i];
    GrowListPrunes(c, c.plist, v.far, v.stack, FailOk(st), m);
    GrowListFollows(c, c.plist, v.far, v.stack, FailOk(st), m);
    GrowListReaches(c, c.plist, v.far, v.stack, FailOk(st), m);
    GrowForEnds(st, x, t);
    GrowRefuses(st, x, t, i);
    LeaverAsks(st, x, t, i);
    assert !Stuck(c, c.plist, i, FailOk(st), m);
    assert !c.alloc(c.ticks + i) ==> !FailOk(st) && m != Some(s) by { StuckIs(c, c.plist, i, FailOk(st), m); }
    if !g.core.stacks[s].defunct { NotPartialFull(g.core.stacks[s], |g.core.mem|); }
  }

  lemma StuckIs<S>(c: Core<S>, list: seq<S>, i: nat, failOk: bool, mainStack: Option<S>)
    requires i < |list| && !Stuck(c, list, i, failOk, mainStack)
    ensures !c.alloc(c.ticks + i) ==> !failOk && mainStack != Some(list[i])
  {
  }

  /** A stack that leaves the list has asked for memory. */
  lemma LeaverAsks<S, T>(st: State<S, T>, x: Option<T>, t: T, i: nat)
    requires Solid(st, x) && CanReach(st, x, t) && !GrowFor(st, t).fail && i < |st.core.plist|
    requires st.core.plist[i] !in GrowFor(st, t).core.plist
    requires st.core.plist[i] in st.core.stacks
    requires st.tealets[t].stack == Some(st.core.plist[i]) ==> st.core.stacks[st.core.plist[i]].refcount > 1
    ensures Known(st) && i < Asked(st, t)
  {
    hide RestOk, MainOk, Owned, RunnerOk, StackOk, GrowList, GrowPre, FailOk, Requests, Above, ListExact, Needy;
    SolidBasics(st, x);
    TransferPre(st, x, t);
    var c, v, g, m := st.core, st.tealets[t], GrowFor(st, t), st.tealets[st.main].stack;
    var s := c.plist[i];
    if Listed(c.plist, v.stack) {
      var k := Position(c.plist, v.stack.value);
      StopsAtTarget(c, c.plist, v.far, FailOk(st), m, k);
      AskedListed(st, x, t);
      SuffixHolds(c.plist, k, i);
    } else {
      GrowListPrunes(c, c.plist, v.far, v.stack, FailOk(st), m);
      GrowRefuses(st, x, t, i);
      EndedSplits(c.stacks, c.plist, v.far);
      UnlistedAsked(st, t);
      if c.stacks[s].far > v.far { assert g.core.stacks[s].defunct; }
    }
  }

  lemma SuffixHolds<A>(s: seq<A>, k: nat, i: nat)
    requires k < |s| && i < |s|
    ensures k < i ==> s[i] in s[k + 1..]
  {
    if k < i { assert s[k + 1..][i - k - 1] == s[i]; }
  }

  lemma UnlistedAsked<S, T>(st: State<S, T>, t: T)
    requires Known(st) && t in st.tealets && !Listed(st.core.plist, st.tealets[t].stack)
    ensures Asked(st, t) == Needy(st.core.stacks, st.core.plist, st.tealets[t].far)
  {
  }

  /** The growth step to a target off the list drops exactly the listed stacks that end at or before the target's boundary,
      and the next one as well if it needed memory and was refused; whether a stack that is dropped is fully saved or given
      up is the allocator's answer to its request. What stays listed needs nothing below the boundary, and all but the first
      of it is untouched. */
  lemma OffListGrowth<S, T>(st: State<S, T>, x: Option<T>, t: T)
    requires Solid(st, x) && CanReach(st, x, t) && !GrowFor(st, t).fail && !Listed(st.core.plist, st.tealets[t].stack)
    ensures Known(st)
    ensures var c, c2, stop := st.core, GrowFor(st, t).core, st.tealets[t].far; var j := Leavers(c, stop);
            && c2.plist == c.plist[j..]
            && (forall i :: 0 <= i < j ==> Dropped(c, c2, c.plist[i], stop, c.alloc(c.ticks + i)))
            && (forall i :: j <= i < |c.plist| ==> StillListed(c, c2, c.plist[i], stop))
            && (forall i :: j < i < |c.plist| ==> SameStack(c, c2, c.plist[i]))
  {
    hide Solid, StackOk, GrowFor, Dropped, StillListed, SameStack, Leavers, Staircase;
    SolidBasics(st, x);
    OffListRest(st, x, t);
    var c, v, c2 := st.core, st.tealets[t], GrowFor(st, t).core;
    SuffixParts(c.plist, c2.plist);
    var j := |c.plist| - |c2.plist|;
    forall i | 0 <= i < j ensures Dropped(c, c2, c.plist[i], v.far, c.alloc(c.ticks + i)) {
      LeaverFate(st, x, t, i);
    }
    forall i | j <= i < |c.plist| ensures StillListed(c, c2, c.plist[i], v.far) {
      assert c2.plist[i - j] == c.plist[i];
    }
    LeaversCount(st, x, t, j);
  }

  /** What is left on the list. */
  lemma OffListRest<S, T>(st: State<S, T>, x: Option<T>, t: T)
    requires Solid(st, x) && CanReach(st, x, t) && !GrowFor(st, t).fail && !Listed(st.core.plist, st.tealets[t].stack)
    ensures var c, c2 := st.core, GrowFor(st, t).core;
            && NoDup(c.plist) && IsSuffix(c2.plist, c.plist)
            && (forall s :: s in c2.plist ==> StillListed(c, c2, s, st.tealets[t].far))
            && (forall i :: 0 < i < |c2.plist| ==> SameStack(c, c2, c2.plist[i]))
  {
    hide RestOk, MainOk, Owned, StackOk, StackV.Partial, StackV.Edge, GrowList, Above, Follows, Staircase, GrowPre, FailOk;
    SolidBasics(st, x);
    TransferPre(st, x, t);
    StaircaseKnown(st.core);
    var c, v, c2 := st.core, st.tealets[t], GrowFor(st, t).core;
    GrowListPrunes(c, c.plist, v.far, v.stack, FailOk(st), st.tealets[st.main].stack);
    GrowListReaches(c, c.plist, v.far, v.stack, FailOk(st), st.tealets[st.main].stack);
    GrowListFollows(c, c.plist, v.far, v.stack, FailOk(st), st.tealets[st.main].stack);
    StaircaseNoDup(c.stacks, c.plist);
    forall s | s in c2.plist ensures StillListed(c, c2, s, v.far) {
      KinFar(c, c2, s);
    }
  }

  lemma SuffixParts<A>(s: seq<A>, t: seq<A>)
    requires NoDup(s) && IsSuffix(t, s)
    ensures var j := |s| - |t|;
            t == s[j..] && (forall i :: 0 <= i < j ==> s[i] !in t) && (forall i :: j <= i < |s| ==> t[i - j] == s[i])
  {
  }

  lemma LeaversCount<S, T>(st: State<S, T>, x: Option<T>, t: T, j: nat)
    requires Solid(st, x) && CanReach(st, x, t) && !GrowFor(st, t).fail && !Listed(st.core.plist, st.tealets[t].stack)
    requires j <= |st.core.plist|
    requires forall i :: 0 <= i < j ==>
               st.core.plist[i] !in GrowFor(st, t).core.plist
               && Dropped(st.core, GrowFor(st, t).core, st.core.plist[i], st.tealets[t].far, st.core.alloc(st.core.ticks + i))
    requires forall i :: j <= i < |st.core.plist| ==>
               StillListed(st.core, GrowFor(st, t).core, st.core.plist[i], st.tealets[t].far)
    ensures Known(st) && j == Leavers(st.core, st.tealets[t].far)
  {
    hide RestOk, MainOk, Owned, StackOk, GrowFor, Above, ListExact, FailOk, Asked, CanGrow, StacksOk;
    SolidBasics(st, x);
    var c, stop := st.core, st.tealets[t].far;
    EndedSplits(c.stacks, c.plist, stop);
    UnlistedAsked(st, t);
    GrowForEnds(st, x, t);
    var e := Ended(c.stacks, c.plist, stop);
    if j < |c.plist| {
      assert StillListed(c, GrowFor(st, t).core, c.plist[j], stop);
    }
    assert e <= j;
    if e < j {
      LeaverFate(st, x, t, e);
      LeaverFate(st, x, t, j - 1);
    } else if e < Needy(c.stacks, c.plist, stop) {
      GrowRefuses(st, x, t, e);
      NotStuck(c, c.plist, e, Needy(c.stacks, c.plist, stop), FailOk(st), st.tealets[st.main].stack);
      assert StillListed(c, GrowFor(st, t).core, c.plist[e], stop);
    }
  }

  lemma NotStuck<S>(c: Core<S>, list: seq<S>, i: nat, n: nat, failOk: bool, mainStack: Option<S>)
    requires i < n <= |list| && CanGrow(c, list, n, failOk, mainStack)
    ensures GivenUp(c, list, i, n, failOk, mainStack) <==> !c.alloc(c.ticks + i)
  {
    assert !Stuck(c, list, i, failOk, mainStack);
  }

  lemma KinFar<S>(c: Core<S>, c2: Core<S>, s: S)
    requires Follows(c, c2) && s in c.stacks
    ensures c2.stacks[s].far == c.stacks[s].far
  {
    hide StackV.Bytes, Slice;
  }

  /* ---- whole transfers ---- */

  /** The caller of a transfer is saved, whole or up to `stop`; a caller that exits, or is given up, is not. */
  ghost predicate CallerSaved<S, T>(st: State<S, T>, t: T)
    requires Known(st) && t in st.tealets
  {
    !st.tealets[st.cur].flags.exiting && st.core.alloc(st.core.ticks + Asked(st, t))
  }

  /** The new record of the caller. */
  ghost predicate SavedUpTo<S>(c2: Core<S>, id: S, sp: int, far: int, stop: int) {
    && id in c2.stacks && c2.stacks[id].far == far
    && if stop < far then c2.stacks[id].Partial() && c2.stacks[id].Edge() == Max(sp, stop) else FullySaved(c2.stacks[id])
  }

  /** What the save half does after the growth step: it pushes the caller if it is saved and not to its end. */
  lemma SaveEnds<S, T>(st: State<S, T>, x: Option<T>, t: T, env: Env, id: S)
    requires Solid(st, x) && CanReach(st, x, t) && EnvOk(st, env, id) && Signals(st) && !SaveState(st, t, env.sp, id).fail
    ensures Known(st) && !GrowFor(st, t).fail
    ensures var c, c2 := GrowFor(st, t).core, SaveState(st, t, env.sp, id).st.core;
            var far, stop, saved := st.tealets[st.cur].far, st.tealets[t].far, CallerSaved(st, t);
            && c2.plist == (if saved && stop < far then [id] else []) + c.plist
            && (forall s :: s in c.stacks ==> s in c2.stacks && c2.stacks[s] == c.stacks[s])
            && (if saved then SavedUpTo(c2, id, env.sp, far, stop) else id !in c2.stacks)
  {
    hide RestOk, MainOk, Owned, CoreOk, GrowFor, Above, Asked, SaveTo, SavedRecord, FailOk;
    SolidBasics(st, x);
    SaveLeaves(st, x, t, env.sp, id);
    GrownSame(st, x, t);
    SavedGrows(st, t, env.sp, id);
    GrownIntro(st, x, t);
    GrowForEnds(st, x, t);
    var w, v := st.tealets[st.cur], st.tealets[t];
    var c1 := GrowFor(st, t).core;
    var st1 := SetT(st, st.cur, w.(flags := w.flags.(saveforce := false))).(core := c1);
    CurCanSave(st1, x, t, env.sp);
    SaveToAlloc(c1, id, env.sp, w.far, v.far);
    if c1.alloc(c1.ticks) {
      SaveToRecord(c1, id, env.sp, w.far, v.far);
      RecordEnds(c1.mem, env.sp, w.far, v.far);
    } else {
      SaveToRefused(c1, id, env.sp, w.far, v.far);
    }
  }

  lemma SaveToRefused<S>(c: Core<S>, id: S, sp: int, far: int, stop: int)
    requires !c.alloc(c.ticks)
    ensures var g := SaveTo(c, id, sp, far, stop).core; g.plist == c.plist && g.stacks == c.stacks
  {
  }

  lemma RecordEnds(mem: seq<byte>, sp: int, far: int, stop: int)
    requires CanSave(|mem|, sp, far, stop)
    ensures var v := SavedRecord(mem, sp, far, stop);
            && v.far == far && (if stop < far then v.Partial() && v.Edge() == Max(sp, stop) else FullySaved(v))
  {
  }

  /** A transfer to a listed tealet leaves the list with exactly the stacks older than the target, untouched; the newer ones
      are fully saved or given up, and so is a target that is shared, by the allocator's answers; the caller is saved in
      full, unless it exits or is given up, and is never listed. */
  lemma ToListedTarget<S, T>(st: State<S, T>, x: Option<T>, t: T, env: Env, id: S, k: nat)
    requires Solid(st, x) && CanReach(st, x, t) && EnvOk(st, env, id) && Signals(st)
    requires k < |st.core.plist| && st.tealets[t].stack == Some(st.core.plist[k])
    requires !SaveState(st, t, env.sp, id).fail
    ensures Known(st)
    ensures var c, c2, stop := st.core, SaveState(st, t, env.sp, id).st.core, st.tealets[t].far;
            && c2.plist == c.plist[k + 1..]
            && (forall i :: k < i < |c.plist| ==> SameStack(c, c2, c.plist[i]))
            && (forall i :: 0 <= i < k ==> Dropped(c, c2, c.plist[i], stop, c.alloc(c.ticks + i)))
            && (if c.stacks[c.plist[k]].refcount > 1 then Dropped(c, c2, c.plist[k], stop, c.alloc(c.ticks + k))
                else SameStack(c, c2, c.plist[k]))
            && (if CallerSaved(st, t) then id in c2.stacks && FullySaved(c2.stacks[id]) else id !in c2.stacks)
  {
    hide Solid, GrowFor, Dropped, FailOk, SaveState, IsDefunct, CallerSaved, FullySaved, Signals, EnvOk;
    SolidBasics(st, x);
    SaveEnds(st, x, t, env, id);
    OnListGrowth(st, x, t, k);
    GrownSame(st, x, t);
    CallerNewer(st, x, t, k);
    var c, g, v := st.core, GrowFor(st, t), st.tealets[t];
    var c2 := SaveState(st, t, env.sp, id).st.core;
    forall i | 0 <= i <= k && (i == k ==> c.stacks[c.plist[k]].refcount > 1)
      ensures Dropped(c, c2, c.plist[i], v.far, c.alloc(c.ticks + i))
    {
      DroppedCong(c, g.core, c2, c.plist[i], v.far, c.alloc(c.ticks + i));
    }
  }

  /** The caller ends before anything listed does. */
  lemma CallerNewer<S, T>(st: State<S, T>, x: Option<T>, t: T, k: nat)
    requires Solid(st, x) && CanReach(st, x, t) && k < |st.core.plist| && st.tealets[t].stack == Some(st.core.plist[k])
    ensures st.cur in st.tealets && st.tealets[st.cur].far < st.tealets[t].far
  {
    hide RestOk, MainOk, Owned, CoreOk;
    ListedFar(st.core, st.tealets[st.cur].far, k);
    TargetIsListed(st, x, t, k);
  }

  /** The growth step to a listed target. */
  lemma OnListGrowth<S, T>(st: State<S, T>, x: Option<T>, t: T, k: nat)
    requires Solid(st, x) && CanReach(st, x, t) && !GrowFor(st, t).fail
    requires k < |st.core.plist| && st.tealets[t].stack == Some(st.core.plist[k])
    ensures Known(st)
    ensures var c, c2, stop := st.core, GrowFor(st, t).core, st.tealets[t].far;
            && c2.plist == c.plist[k + 1..]
            && (forall i :: k < i < |c.plist| ==> SameStack(c, c2, c.plist[i]))
            && (forall i :: 0 <= i < k ==> Dropped(c, c2, c.plist[i], stop, c.alloc(c.ticks + i)))
            && (if c.stacks[c.plist[k]].refcount > 1 then Dropped(c, c2, c.plist[k], stop, c.alloc(c.ticks + k))
                else SameStack(c, c2, c.plist[k]))
  {
    hide RestOk, MainOk, Owned, StackOk, ListExact, StackV.Partial, StackV.Edge, GrowList, GrowPre, Dropped, FailOk, Above,
      Staircase, StacksOk;
    SolidBasics(st, x);
    StaircaseKnown(st.core);
    TransferPre(st, x, t);
    var c, g, v, m := st.core, GrowFor(st, t), st.tealets[t], st.tealets[st.main].stack;
    StopsAtTarget(c, c.plist, v.far, FailOk(st), m, k);
    GrowListReaches(c, c.plist, v.far, v.stack, FailOk(st), m);
    StaircaseNoDup(c.stacks, c.plist);
    forall i | 0 <= i <= k && (i == k ==> c.stacks[c.plist[k]].refcount > 1)
      ensures Dropped(c, g.core, c.plist[i], v.far, c.alloc(c.ticks + i))
    {
      OlderOnly(c.plist, k, i);
      LeaverFate(st, x, t, i);
    }
  }

  lemma OlderOnly<A>(s: seq<A>, k: nat, i: nat)
    requires NoDup(s) && i <= k < |s|
    ensures s[i] !in s[k + 1..] && (i < k ==> s[i] != s[k])
  {
  }

  lemma DroppedCong<S>(c: Core<S>, c1: Core<S>, c2: Core<S>, s: S, stop: int, granted: bool)
    requires Dropped(c, c1, s, stop, granted) && s in c2.stacks && c2.stacks[s] == c1.stacks[s]
    ensures Dropped(c, c2, s, stop, granted)
  {
  }

  lemma StillListedCong<S>(c: Core<S>, c1: Core<S>, c2: Core<S>, s: S, stop: int)
    requires StillListed(c, c1, s, stop) && s in c2.stacks && c2.stacks[s] == c1.stacks[s]
    ensures StillListed(c, c2, s, stop)
  {
  }

  /** Everything listed ends beyond the boundary of the running tealet. */
  lemma ListedFar<S>(c: Core<S>, b: int, k: nat)
    requires CoreOk(c, b, None) && k < |c.plist|
    ensures c.plist[k] in c.stacks && b < c.stacks[c.plist[k]].far
  {
    hide StackOk, StacksOk, ListExact;
  }

  lemma TargetIsListed<S, T>(st: State<S, T>, x: Option<T>, t: T, k: nat)
    requires Solid(st, x) && CanReach(st, x, t) && k < |st.core.plist| && st.tealets[t].stack == Some(st.core.plist[k])
    ensures st.core.plist[k] in st.core.stacks && st.core.stacks[st.core.plist[k]].far == st.tealets[t].far
  {
    hide Owned, StackOk, StacksOk, ListExact, Above;
    if x != Some(t) { assert RestOk(st, t); }
  }

  /** A transfer to a tealet off the list drops exactly what its growth step drops, and pushes the caller exactly when it is
      saved and ends beyond the target's boundary; then nothing is dropped, and nothing else changes. */
  lemma ToUnlistedTarget<S, T>(st: State<S, T>, x: Option<T>, t: T, env: Env, id: S)
    requires Solid(st, x) && CanReach(st, x, t) && EnvOk(st, env, id) && Signals(st)
    requires !Listed(st.core.plist, st.tealets[t].stack) && !SaveState(st, t, env.sp, id).fail
    ensures Known(st)
    ensures var c, c2 := st.core, SaveState(st, t, env.sp, id).st.core;
            var far, stop, saved := st.tealets[st.cur].far, st.tealets[t].far, CallerSaved(st, t); var j := Leavers(c, stop);
            && c2.plist == (if saved && stop < far then [id] else []) + c.plist[j..]
            && (forall i :: 0 <= i < j ==> Dropped(c, c2, c.plist[i], stop, c.alloc(c.ticks + i)))
            && (forall i :: j <= i < |c.plist| ==> StillListed(c, c2, c.plist[i], stop))
            && (forall i :: j < i < |c.plist| ==> SameStack(c, c2, c.plist[i]))
            && (stop < far ==> j == 0 && forall s :: s in c.stacks ==> SameStack(c, c2, s))
            && (if saved then SavedUpTo(c2, id, env.sp, far, stop) else id !in c2.stacks)
  {
    hide RestOk, MainOk, Owned, CoreOk, GrowFor, Dropped, StillListed, CallerSaved, SavedUpTo, SaveState, Leavers;
    SolidBasics(st, x);
    SaveEnds(st, x, t, env, id);
    OffListGrowth(st, x, t);
    GrownSame(st, x, t);
    var c, g, v := st.core, GrowFor(st, t), st.tealets[t];
    var c2, j := SaveState(st, t, env.sp, id).st.core, Leavers(c, v.far);
    forall i | 0 <= i < j ensures Dropped(c, c2, c.plist[i], v.far, c.alloc(c.ticks + i)) {
      DroppedCong(c, g.core, c2, c.plist[i], v.far, c.alloc(c.ticks + i));
    }
    forall i | j <= i < |c.plist| ensures StillListed(c, c2, c.plist[i], v.far) {
      StillListedCong(c, g.core, c2, c.plist[i], v.far);
    }
    if v.far < st.tealets[st.cur].far {
      GrowthIdle(st, x, t);
      assert |c.plist[j..]| == |c.plist| - j;
    }
  }

  /** Going down the staircase grows nothing. */
  lemma GrowthIdle<S, T>(st: State<S, T>, x: Option<T>, t: T)
    requires Solid(st, x) && CanReach(st, x, t) && st.tealets[t].far <= st.tealets[st.cur].far
    requires !Listed(st.core.plist, st.tealets[t].stack)
    ensures GrowFor(st, t).core == st.core
  {
    hide RestOk, MainOk, Owned, StackOk, StacksOk, ListExact, StackV.Partial, StackV.Edge;
    ListedAbove(st.core, st.tealets[st.cur].far);
    var v := st.tealets[t];
    GrowListIdle(st.core, st.core.plist, v.far, v.stack, FailOk(st), st.tealets[st.main].stack);
  }
}
