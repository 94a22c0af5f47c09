/**
 * What the grouping index (`SortBugsIntoLoops`) must contain, stated over
 * the sequence of the bugs' loop numbers: per-loop counts, the members of
 * each loop in bug-index order, and the start offset of each loop's slice
 * of the shared pointer array.
 */
module Grouping {
  import opened Entities

  /** Every bug belongs to one of the first n loops. */
  predicate InRange(ls: seq<int>, n: nat) {
    forall i :: 0 <= i < |ls| ==> 0 <= ls[i] < n
  }

  /** How many bugs belong to loop l. */
  function Count(ls: seq<int>, l: int): nat {
    if |ls| == 0 then 0
    else Count(ls[..|ls| - 1], l) + (if ls[|ls| - 1] == l then 1 else 0)
  }

  /** The indices of the bugs of loop l, ascending. */
  function Members(ls: seq<int>, l: int): seq<nat> {
    if |ls| == 0 then []
    else Members(ls[..|ls| - 1], l) + (if ls[|ls| - 1] == l then [|ls| - 1] else [])
  }

  /** The summed counts of loops 0 .. l-1: where loop l's slice starts. */
  function Offset(ls: seq<int>, l: nat): nat {
    if l == 0 then 0 else Offset(ls, l - 1) + Count(ls, l - 1)
  }

  /** The summed `nBugs` of a run of loops. */
  function TotalBugs(loops: seq<BugLoop>): nat {
    if loops == [] then 0 else TotalBugs(loops[..|loops| - 1]) + loops[|loops| - 1].nBugs
  }

  /** The slice of the pointer array that a loop's view denotes. */
  function ViewOf(ptrs: seq<int>, loop: BugLoop): seq<int>
    requires loop.bugs.Shared? && loop.bugs.start + loop.nBugs <= |ptrs|
  {
    ptrs[loop.bugs.start .. loop.bugs.start + loop.nBugs]
  }

  /**
   * The index is current for the loop numbers `ls`: loop l counts its bugs,
   * its view starts at `Offset(ls, l)`, and the view lists its members in
   * ascending bug-index order.
   */
  predicate IndexMatches(ls: seq<int>, loops: seq<BugLoop>, ptrs: seq<int>) {
    forall l :: 0 <= l < |loops| ==> LoopMatches(ls, l, loops[l], ptrs)
  }

  /** Loop l's record agrees with the loop numbers `ls`. */
  predicate LoopMatches(ls: seq<int>, l: nat, loop: BugLoop, ptrs: seq<int>) {
    && loop.nBugs == Count(ls, l)
    && loop.bugs == Shared(Offset(ls, l))
    && Offset(ls, l) + Count(ls, l) <= |ptrs|
    && ViewOf(ptrs, loop) == Members(ls, l)
  }

  /** The view can be read: a fresh arena block with no members, or a slice inside the pointer array. */
  predicate Readable(loop: BugLoop, ptrs: seq<int>) {
    match loop.bugs
    case ArenaBlock(_) => loop.nBugs == 0
    case Shared(start) => start + loop.nBugs <= |ptrs|
  }

  /** The bug indices a loop's view lists (none for a fresh arena block). */
  function Listed(ptrs: seq<int>, loop: BugLoop): (r: seq<int>)
    requires Readable(loop, ptrs)
    ensures |r| == loop.nBugs
  {
    if loop.bugs.ArenaBlock? then [] else ViewOf(ptrs, loop)
  }

  /**
   * Every view can be read and lists only indices of the first `live` bugs:
   * what loops that walk the views (the centre, the collisions) rely on.
   */
  predicate ViewsSound(live: nat, loops: seq<BugLoop>, ptrs: seq<int>) {
    forall l :: 0 <= l < |loops| ==> ViewSound(live, loops[l], ptrs)
  }

  predicate ViewSound(live: nat, loop: BugLoop, ptrs: seq<int>) {
    && Readable(loop, ptrs)
    && forall k :: 0 <= k < loop.nBugs ==> 0 <= Listed(ptrs, loop)[k] < live
  }

  lemma CountSnoc(ls: seq<int>, x: int, l: int)
    ensures Count(ls + [x], l) == Count(ls, l) + (if x == l then 1 else 0)
    ensures Members(ls + [x], l) == Members(ls, l) + (if x == l then [|ls|] else [])
  {
    assert (ls + [x])[..|ls|] == ls;
  }

  /**
   * The members of loop l are exactly the bugs whose loop number is l, once
   * each and in ascending order, and there are `Count(ls, l)` of them.
   */
  lemma {:induction false} MembersOfLoop(ls: seq<int>, l: int)
    ensures |Members(ls, l)| == Count(ls, l)
    ensures forall k :: 0 <= k < |Members(ls, l)| ==> Members(ls, l)[k] < |ls| && ls[Members(ls, l)[k]] == l
    ensures forall j, k :: 0 <= j < k < |Members(ls, l)| ==> Members(ls, l)[j] < Members(ls, l)[k]
    ensures forall i :: 0 <= i < |ls| && ls[i] == l ==> i in Members(ls, l)
  {
    if |ls| > 0 {
      var p := ls[..|ls| - 1];
      MembersOfLoop(p, l);
      assert ls == p + [ls[|ls| - 1]];
      forall i | 0 <= i < |ls| && ls[i] == l
        ensures i in Members(ls, l)
      {
        if i < |p| {
          assert p[i] == ls[i];
        }
      }
    }
  }

  lemma {:induction false} OffsetSnoc(ls: seq<int>, x: int, n: nat)
    ensures Offset(ls + [x], n) == Offset(ls, n) + (if 0 <= x < n then 1 else 0)
  {
    if n > 0 {
      OffsetSnoc(ls, x, n - 1);
      CountSnoc(ls, x, n - 1);
    }
  }

  /** The per-loop counts add up to the number of bugs. */
  lemma {:induction false} OffsetsAddUp(ls: seq<int>, n: nat)
    requires InRange(ls, n)
    ensures Offset(ls, n) == |ls|
  {
    if |ls| > 0 {
      var p := ls[..|ls| - 1];
      assert ls == p + [ls[|ls| - 1]];
      OffsetsAddUp(p, n);
      OffsetSnoc(p, ls[|ls| - 1], n);
    } else {
      OffsetOfEmpty(n);
    }
  }

  lemma {:induction false} OffsetOfEmpty(n: nat)
    ensures Offset([], n) == 0
  {
    if n > 0 {
      OffsetOfEmpty(n - 1);
    }
  }

  /** Slices are laid out in loop order, each ending before the next starts. */
  lemma {:induction false} OffsetsOrdered(ls: seq<int>, k: nat, k': nat)
    requires k < k'
    ensures Offset(ls, k) + Count(ls, k) <= Offset(ls, k')
  {
    if k + 1 < k' {
      OffsetsOrdered(ls, k, k' - 1);
    }
  }

  /** The loop whose slice holds slot s (the last one that starts at or before s). */
  function SlotLoop(ls: seq<int>, n: nat, s: nat): (l: nat)
    requires s < Offset(ls, n)
    ensures l < n && Offset(ls, l) <= s < Offset(ls, l) + Count(ls, l)
  {
    if s >= Offset(ls, n - 1) then n - 1 else SlotLoop(ls, n - 1, s)
  }

  /** With every bug in range, the loops' counts add up to the number of bugs. */
  lemma {:induction false} CountsAddUp(ls: seq<int>, loops: seq<BugLoop>)
    requires InRange(ls, |loops|)
    requires forall l :: 0 <= l < |loops| ==> loops[l].nBugs == Count(ls, l)
    ensures TotalBugs(loops) == |ls|
  {
    TotalIsOffset(ls, loops);
    OffsetsAddUp(ls, |loops|);
  }

  lemma {:induction false} TotalIsOffset(ls: seq<int>, loops: seq<BugLoop>)
    requires forall l :: 0 <= l < |loops| ==> loops[l].nBugs == Count(ls, l)
    ensures TotalBugs(loops) == Offset(ls, |loops|)
  {
    if loops != [] {
      TotalIsOffset(ls, loops[..|loops| - 1]);
    }
  }

  /**
   * A current index partitions the bugs: the first |ls| slots hold bug
   * indices, no bug is held twice, every bug is in its own loop's view, and
   * distinct loops' views do not overlap.
   */
  lemma IndexIsPartition(ls: seq<int>, loops: seq<BugLoop>, ptrs: seq<int>)
    requires InRange(ls, |loops|) && IndexMatches(ls, loops, ptrs)
    ensures |ls| <= |ptrs|
    ensures forall s :: 0 <= s < |ls| ==> 0 <= ptrs[s] < |ls|
    ensures forall s, s' :: 0 <= s < s' < |ls| ==> ptrs[s] != ptrs[s']
    ensures forall i :: 0 <= i < |ls| ==> i in ViewOf(ptrs, loops[ls[i]])
    ensures forall l, l' :: 0 <= l < l' < |loops| ==>
      loops[l].bugs.start + loops[l].nBugs <= loops[l'].bugs.start
  {
    OffsetsAddUp(ls, |loops|);
    var n := |loops|;
    if n > 0 {
      assert LoopMatches(ls, n - 1, loops[n - 1], ptrs);
    }
    forall s | 0 <= s < |ls|
      ensures 0 <= ptrs[s] < |ls|
    {
      SlotValue(ls, loops, ptrs, s);
    }
    forall s, s' | 0 <= s < s' < |ls|
      ensures ptrs[s] != ptrs[s']
    {
      SlotsDistinct(ls, loops, ptrs, s, s');
    }
    forall i | 0 <= i < |ls|
      ensures i in ViewOf(ptrs, loops[ls[i]])
    {
      InOwnView(ls, loops, ptrs, i);
    }
    forall l, l' | 0 <= l < l' < n
      ensures loops[l].bugs.start + loops[l].nBugs <= loops[l'].bugs.start
    {
      assert LoopMatches(ls, l, loops[l], ptrs) && LoopMatches(ls, l', loops[l'], ptrs);
      OffsetsOrdered(ls, l, l');
    }
  }

  lemma SlotsDistinct(ls: seq<int>, loops: seq<BugLoop>, ptrs: seq<int>, s: nat, s': nat)
    requires InRange(ls, |loops|) && IndexMatches(ls, loops, ptrs)
    requires s < s' < Offset(ls, |loops|)
    ensures s' < |ptrs| && ptrs[s] != ptrs[s']
  {
    var n := |loops|;
    SlotValue(ls, loops, ptrs, s);
    SlotValue(ls, loops, ptrs, s');
    var l := SlotLoop(ls, n, s);
    if SlotLoop(ls, n, s') == l {
      MembersOfLoop(ls, l);
    }
  }

  lemma InOwnView(ls: seq<int>, loops: seq<BugLoop>, ptrs: seq<int>, i: nat)
    requires InRange(ls, |loops|) && IndexMatches(ls, loops, ptrs)
    requires i < |ls|
    ensures LoopMatches(ls, ls[i], loops[ls[i]], ptrs) && i in ViewOf(ptrs, loops[ls[i]])
  {
    assert LoopMatches(ls, ls[i], loops[ls[i]], ptrs);
    MembersOfLoop(ls, ls[i]);
  }

  lemma SlotValue(ls: seq<int>, loops: seq<BugLoop>, ptrs: seq<int>, s: nat)
    requires InRange(ls, |loops|) && IndexMatches(ls, loops, ptrs)
    requires s < Offset(ls, |loops|)
    ensures s < |ptrs| && 0 <= ptrs[s] < |ls| && ls[ptrs[s]] == SlotLoop(ls, |loops|, s)
    ensures var l := SlotLoop(ls, |loops|, s);
      |Members(ls, l)| == Count(ls, l) && ptrs[s] == Members(ls, l)[s - Offset(ls, l)]
  {
    OffsetsAddUp(ls, |loops|);
    var l := SlotLoop(ls, |loops|, s);
    assert LoopMatches(ls, l, loops[l], ptrs);
    MembersOfLoop(ls, l);
    var k := s - Offset(ls, l);
    assert ptrs[s] == ViewOf(ptrs, loops[l])[k];
  }

  /**
   * The index is a function of the loop numbers alone: two indexes current
   * for the same loop numbers have the same counts, the same views and the
   * same packed pointer array, so rebuilding twice gives identical views.
   */
  lemma IndexDetermined(ls: seq<int>, loops1: seq<BugLoop>, ptrs1: seq<int>, loops2: seq<BugLoop>, ptrs2: seq<int>)
    requires |loops1| == |loops2| && InRange(ls, |loops1|)
    requires IndexMatches(ls, loops1, ptrs1) && IndexMatches(ls, loops2, ptrs2)
    ensures forall l :: 0 <= l < |loops1| ==> loops1[l].nBugs == loops2[l].nBugs && loops1[l].bugs == loops2[l].bugs
    ensures |ls| <= |ptrs1| && |ls| <= |ptrs2| && ptrs1[..|ls|] == ptrs2[..|ls|]
  {
    OffsetsAddUp(ls, |loops1|);
    forall l | 0 <= l < |loops1|
      ensures loops1[l].nBugs == loops2[l].nBugs && loops1[l].bugs == loops2[l].bugs
    {
      assert LoopMatches(ls, l, loops1[l], ptrs1) && LoopMatches(ls, l, loops2[l], ptrs2);
    }
    if |ls| > 0 {
      SlotValue(ls, loops1, ptrs1, |ls| - 1);
      SlotValue(ls, loops2, ptrs2, |ls| - 1);
    }
    forall s | 0 <= s < |ls|
      ensures s < |ptrs1| && s < |ptrs2| && ptrs1[s] == ptrs2[s]
    {
      SlotValue(ls, loops1, ptrs1, s);
      SlotValue(ls, loops2, ptrs2, s);
    }
  }

  /** A current index is sound for the bugs it indexes, and each view lists its loop's members. */
  lemma IndexSound(ls: seq<int>, loops: seq<BugLoop>, ptrs: seq<int>)
    requires IndexMatches(ls, loops, ptrs)
    ensures ViewsSound(|ls|, loops, ptrs)
    ensures forall l :: 0 <= l < |loops| ==> Readable(loops[l], ptrs) && Listed(ptrs, loops[l]) == Members(ls, l)
  {
    forall l | 0 <= l < |loops|
      ensures ViewSound(|ls|, loops[l], ptrs) && Listed(ptrs, loops[l]) == Members(ls, l)
    {
      assert LoopMatches(ls, l, loops[l], ptrs);
      MembersOfLoop(ls, l);
    }
  }

  /** A prefix has no more members of a loop than the whole. */
  lemma {:induction false} CountPrefix(ls: seq<int>, b: nat, l: int)
    requires b <= |ls|
    ensures Count(ls[..b], l) <= Count(ls, l)
  {
    if b < |ls| {
      var init := ls[..|ls| - 1];
      assert init[..b] == ls[..b];
      CountPrefix(init, b, l);
    } else {
      assert ls[..b] == ls;
    }
  }

  /**
   * The rebuild's progress after appending bugs 0 .. b-1: for each loop, the
   * start of its slice holds its members among those bugs, in order.
   */
  predicate SlicesFilled(ls: seq<int>, done: seq<int>, n: nat, ptrs: seq<int>) {
    forall l: nat, k: nat :: l < n && k < |Members(done, l)| ==> HoldsMember(ls, done, ptrs, l, k)
  }

  /** Slot k of loop l's slice holds the k-th member of l among `done`. */
  predicate HoldsMember(ls: seq<int>, done: seq<int>, ptrs: seq<int>, l: nat, k: nat)
    requires k < |Members(done, l)|
  {
    Offset(ls, l) + k < |ptrs| && ptrs[Offset(ls, l) + k] == Members(done, l)[k]
  }

  /**
   * Appending bug b writes the slot just past what its loop holds so far;
   * that slot lies inside the loop's slice (so below |ls|) and the write
   * disturbs no other loop's slice.
   */
  lemma FillStep(ls: seq<int>, b: nat, n: nat, ptrs: seq<int>)
    requires InRange(ls, n) && b < |ls| && |ls| <= |ptrs|
    requires SlicesFilled(ls, ls[..b], n, ptrs)
    ensures Slot(ls, b) < |ls| && SlicesFilled(ls, ls[..b + 1], n, ptrs[Slot(ls, b) := b])
  {
    SlotInSlice(ls, b, n);
    var now := ls[..b + 1];
    var ptrs' := ptrs[Slot(ls, b) := b];
    forall l': nat, k: nat | l' < n && k < |Members(now, l')|
      ensures HoldsMember(ls, now, ptrs', l', k)
    {
      FillStepAt(ls, b, n, ptrs, l', k);
    }
  }

  /** Where the rebuild writes bug b: just past what its loop's slice holds of bugs 0 .. b-1. */
  function Slot(ls: seq<int>, b: nat): nat
    requires b < |ls| && ls[b] >= 0
  {
    Offset(ls, ls[b]) + Count(ls[..b], ls[b])
  }

  /** Bug b's slot lies inside its loop's slice, which ends at or before |ls|. */
  lemma SlotInSlice(ls: seq<int>, b: nat, n: nat)
    requires InRange(ls, n) && b < |ls|
    ensures var l := ls[b];
      Offset(ls, l) + Count(ls[..b], l) < Offset(ls, l) + Count(ls, l) <= |ls|
  {
    var l := ls[b];
    assert ls[..b + 1] == ls[..b] + [l];
    CountSnoc(ls[..b], l, l);
    CountPrefix(ls, b + 1, l);
    OffsetsAddUp(ls, n);
    OffsetsOrdered(ls, l, n);
  }

  /** Before any bug is appended there is nothing to hold. */
  lemma NothingFilled(ls: seq<int>, n: nat, ptrs: seq<int>)
    ensures SlicesFilled(ls, [], n, ptrs)
  {
    forall l: int
      ensures Members([], l) == []
    {
    }
  }

  lemma FillStepAt(ls: seq<int>, b: nat, n: nat, ptrs: seq<int>, l': nat, k: nat)
    requires InRange(ls, n) && b < |ls| && |ls| <= |ptrs|
    requires SlicesFilled(ls, ls[..b], n, ptrs)
    requires l' < n && k < |Members(ls[..b + 1], l')|
    ensures Slot(ls, b) < |ls| && Offset(ls, l') + k < |ptrs| && ptrs[Slot(ls, b) := b][Offset(ls, l') + k] == Members(ls[..b + 1], l')[k]
  {
    var l := ls[b];
    var pre := ls[..b];
    SlotInSlice(ls, b, n);
    assert ls[..b + 1] == pre + [l];
    CountSnoc(pre, l, l');
    MembersOfLoop(pre, l');
    var mem := Members(ls[..b + 1], l');
    assert mem == Members(pre, l') + (if l == l' then [b] else []);
    if l' == l && k == |Members(pre, l)| {
      assert mem[k] == b && Offset(ls, l') + k == Slot(ls, b);
    } else {
      assert mem[k] == Members(pre, l')[k];
      assert HoldsMember(ls, pre, ptrs, l', k);
      if l' < l {
        CountPrefix(ls, b, l');
        OffsetsOrdered(ls, l', l);
      } else if l < l' {
        CountPrefix(ls, b, l');
        OffsetsOrdered(ls, l, l');
      }
      assert Offset(ls, l') + k != Slot(ls, b);
    }
  }

  /** When every bug has been appended and the counts and starts are right, the index is current. */
  lemma FilledIsIndex(ls: seq<int>, loops: seq<BugLoop>, ptrs: seq<int>)
    requires InRange(ls, |loops|) && |ls| <= |ptrs| && SlicesFilled(ls, ls, |loops|, ptrs)
    requires forall l :: 0 <= l < |loops| ==> loops[l].nBugs == Count(ls, l) && loops[l].bugs == Shared(Offset(ls, l))
    ensures IndexMatches(ls, loops, ptrs)
  {
    forall l | 0 <= l < |loops|
      ensures LoopMatches(ls, l, loops[l], ptrs)
    {
      FilledLoop(ls, loops, ptrs, l);
    }
  }

  lemma FilledLoop(ls: seq<int>, loops: seq<BugLoop>, ptrs: seq<int>, l: nat)
    requires InRange(ls, |loops|) && |ls| <= |ptrs| && SlicesFilled(ls, ls, |loops|, ptrs)
    requires l < |loops| && loops[l].nBugs == Count(ls, l) && loops[l].bugs == Shared(Offset(ls, l))
    ensures LoopMatches(ls, l, loops[l], ptrs)
  {
    OffsetsAddUp(ls, |loops|);
    MembersOfLoop(ls, l);
    OffsetsOrdered(ls, l, |loops|);
    var view := ptrs[Offset(ls, l) .. Offset(ls, l) + Count(ls, l)];
    forall k | 0 <= k < |view|
      ensures view[k] == Members(ls, l)[k]
    {
      assert HoldsMember(ls, ls, ptrs, l, k);
    }
  }

  /** The loops as a rebuild leaves them: counts and slice starts from `ls`, all else as before. */
  function Regrouped(loops: seq<BugLoop>, ls: seq<int>): seq<BugLoop> {
    seq(|loops|, l requires 0 <= l < |loops| => loops[l].(nBugs := Count(ls, l), bugs := Shared(Offset(ls, l))))
  }

  /** Regrouping loops whose index is already current changes nothing: the rebuild is idempotent. */
  lemma CurrentIsRegrouped(ls: seq<int>, loops: seq<BugLoop>, ptrs: seq<int>)
    requires IndexMatches(ls, loops, ptrs)
    ensures Regrouped(loops, ls) == loops
  {
    forall l | 0 <= l < |loops|
      ensures Regrouped(loops, ls)[l] == loops[l]
    {
      assert LoopMatches(ls, l, loops[l], ptrs);
    }
  }

  /** The index stays current under any change that keeps every loop's count and view. */
  lemma IndexKept(ls: seq<int>, loops: seq<BugLoop>, loops': seq<BugLoop>, ptrs: seq<int>)
    requires IndexMatches(ls, loops, ptrs) && |loops'| == |loops|
    requires forall l :: 0 <= l < |loops| ==> loops'[l].nBugs == loops[l].nBugs && loops'[l].bugs == loops[l].bugs
    ensures IndexMatches(ls, loops', ptrs)
  {
    forall l | 0 <= l < |loops|
      ensures LoopMatches(ls, l, loops'[l], ptrs)
    {
      assert LoopMatches(ls, l, loops[l], ptrs);
    }
  }

  /** Views sound for `live` bugs stay sound when more bugs are added. */
  lemma ViewsSoundGrow(live: nat, live': nat, loops: seq<BugLoop>, ptrs: seq<int>)
    requires ViewsSound(live, loops, ptrs) && live <= live'
    ensures ViewsSound(live', loops, ptrs)
  {
    forall l | 0 <= l < |loops|
      ensures ViewSound(live', loops[l], ptrs)
    {
      assert ViewSound(live, loops[l], ptrs);
    }
  }
}
