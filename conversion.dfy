/**
 * Conversion between loops (`MoveBugToLoop`, `CollideLoops` and the driver
 * that runs it over every pair of loops), stated on the world's bugs and
 * dirty flag. A loop's members are the indices its view lists; the draws a
 * touching pair consumes are supplied per (loop a, loop b, i, j).
 */
module Conversion {
  import opened Geometry
  import opened Entities
  import opened Grouping

  /** The part of the world that conversions change: the bugs and the dirty flag. */
  datatype Sim = Sim(bugs: seq<Bug>, dirty: bool)

  /** The two unit draws of a touching pair: whether it converts, and which way. */
  datatype Roll = Roll(contact: real, choice: real)

  /** The draws for the pair (i, j) of the collision between loops a and b. */
  type Rolls = (nat, nat, nat, nat) -> Roll

  /** `MoveBugToLoop`'s effect on the bug: join loop l, hop (zVel 1) and grow by a quarter. */
  function Moved(b: Bug, l: int): Bug {
    b.(loopNumber := l, zVel := 1.0, scale := b.scale + 0.25)
  }

  /** The fields no conversion touches: position, heading and legs. */
  predicate Kept(b: Bug, b': Bug) {
    b'.pos == b.pos && b'.orientation == b.orientation && b'.feetFrom == b.feetFrom && b'.feetTo == b.feetTo
  }

  /** A moved bug is recognisably moved (it grew), and keeps where it is and how it stands. */
  lemma MovedRule(b: Bug, l: int)
    ensures Moved(b, l) != b && Kept(b, Moved(b, l))
    ensures Moved(b, l).loopNumber == l && Moved(b, l).scale > b.scale
  {
    assert Moved(b, l).scale != b.scale;
  }

  /** A pair converts when closer than 2 in the plane and the contact draw is below 0.1. */
  predicate Converts(s: Sim, p: nat, q: nat, roll: Roll)
    requires p < |s.bugs| && q < |s.bugs|
  {
    PlanarDist2(s.bugs[p].pos, s.bugs[q].pos) < 4.0 && roll.contact < 0.1
  }

  /**
   * The inner step of `CollideLoops` for bug p of loop A and bug q of loop
   * B: on conversion, q joins p's current loop when the choice draw is
   * below `probA`, and otherwise p joins q's.
   */
  function Touch(s: Sim, p: nat, q: nat, roll: Roll, probA: real): (r: Sim)
    requires p < |s.bugs| && q < |s.bugs|
    ensures |r.bugs| == |s.bugs|
  {
    if Converts(s, p, q, roll) then
      if roll.choice < probA then Sim(s.bugs[q := Moved(s.bugs[q], s.bugs[p].loopNumber)], true)
      else Sim(s.bugs[p := Moved(s.bugs[p], s.bugs[q].loopNumber)], true)
    else s
  }

  /**
   * Nothing happens to a pair that does not convert; a converting pair
   * changes exactly one of its two bugs (q when the choice draw is below
   * `probA`, p otherwise), which takes the other's current loop, and marks
   * the distribution dirty. No other bug changes.
   */
  lemma TouchRule(s: Sim, p: nat, q: nat, roll: Roll, probA: real)
    requires p < |s.bugs| && q < |s.bugs| && p != q
    ensures !Converts(s, p, q, roll) ==> Touch(s, p, q, roll, probA) == s
    ensures var r := Touch(s, p, q, roll, probA);
      Converts(s, p, q, roll) ==>
        && r.dirty
        && (r.bugs[q] != s.bugs[q] <==> roll.choice < probA)
        && (r.bugs[p] != s.bugs[p] <==> !(roll.choice < probA))
        && (roll.choice < probA ==> r.bugs[q].loopNumber == s.bugs[p].loopNumber)
        && (!(roll.choice < probA) ==> r.bugs[p].loopNumber == s.bugs[q].loopNumber)
    ensures var r := Touch(s, p, q, roll, probA);
      forall k :: 0 <= k < |s.bugs| && k != p && k != q ==> r.bugs[k] == s.bugs[k]
  {
    MovedRule(s.bugs[p], s.bugs[q].loopNumber);
    MovedRule(s.bugs[q], s.bugs[p].loopNumber);
  }

  /**
   * What any run of conversions keeps: the number of bugs, every bug's
   * position, heading and legs, loop numbers within [0, n), a set dirty
   * flag; and any change to the bugs leaves the flag set.
   */
  predicate Conserves(s0: Sim, s: Sim, n: nat) {
    && |s.bugs| == |s0.bugs|
    && (s0.dirty ==> s.dirty)
    && (s.bugs != s0.bugs ==> s.dirty)
    && (forall k :: 0 <= k < |s.bugs| ==> Kept(s0.bugs[k], s.bugs[k]))
    && (InRange(LoopNumbers(s0.bugs), n) ==> InRange(LoopNumbers(s.bugs), n))
  }

  lemma ConservesTrans(s0: Sim, s1: Sim, s2: Sim, n: nat)
    requires Conserves(s0, s1, n) && Conserves(s1, s2, n)
    ensures Conserves(s0, s2, n)
  {
  }

  lemma TouchConserves(s: Sim, p: nat, q: nat, roll: Roll, probA: real, n: nat)
    requires p < |s.bugs| && q < |s.bugs|
    ensures Conserves(s, Touch(s, p, q, roll, probA), n)
  {
    var r := Touch(s, p, q, roll, probA);
    MovedRule(s.bugs[p], s.bugs[q].loopNumber);
    MovedRule(s.bugs[q], s.bugs[p].loopNumber);
    if InRange(LoopNumbers(s.bugs), n) {
      assert forall k :: 0 <= k < |s.bugs| ==> 0 <= s.bugs[k].loopNumber < n;
      assert forall k :: 0 <= k < |r.bugs| ==> r.bugs[k].loopNumber == LoopNumbers(r.bugs)[k];
    }
  }

  /** Every listed member is a bug index. */
  predicate Indices(view: seq<int>, n: nat) {
    forall k :: 0 <= k < |view| ==> 0 <= view[k] < n
  }

  /** The inner loop of `CollideLoops`: bug p (row i) against members 0 .. j-1 of B. */
  function CollideRow(s: Sim, a: nat, b: nat, i: nat, p: nat, B: seq<int>, j: nat, rolls: Rolls, probA: real): (r: Sim)
    requires p < |s.bugs| && j <= |B| && Indices(B, |s.bugs|)
    ensures |r.bugs| == |s.bugs|
  {
    if j == 0 then s
    else Touch(CollideRow(s, a, b, i, p, B, j - 1, rolls, probA), p, B[j - 1], rolls(a, b, i, j - 1), probA)
  }

  /** The outer loop of `CollideLoops`: members 0 .. i-1 of A, each against all of B. */
  function CollideRows(s: Sim, a: nat, b: nat, A: seq<int>, B: seq<int>, i: nat, rolls: Rolls, probA: real): (r: Sim)
    requires i <= |A| && Indices(A, |s.bugs|) && Indices(B, |s.bugs|)
    ensures |r.bugs| == |s.bugs|
  {
    if i == 0 then s
    else CollideRow(CollideRows(s, a, b, A, B, i - 1, rolls, probA), a, b, i - 1, A[i - 1], B, |B|, rolls, probA)
  }

  /** A's share of the two loops' bugs: the probability that B's bug is the one converted. */
  function ProbA(nA: nat, nB: nat): (r: real)
    ensures 0.0 <= r <= 1.0
    ensures nA + nB > 0 ==> r * (nA + nB) as real == nA as real
    ensures nA == 0 <==> r == 0.0
  {
    if nA + nB == 0 then 0.0 else nA as real / (nA + nB) as real
  }

  /** `CollideLoops(world, loops[a], loops[b])` with A and B the members the views list. */
  function CollidePair(s: Sim, a: nat, b: nat, A: seq<int>, B: seq<int>, rolls: Rolls): (r: Sim)
    requires Indices(A, |s.bugs|) && Indices(B, |s.bugs|)
    ensures |r.bugs| == |s.bugs|
  {
    CollideRows(s, a, b, A, B, |A|, rolls, ProbA(|A|, |B|))
  }

  lemma {:induction false} CollideRowConserves(s: Sim, a: nat, b: nat, i: nat, p: nat, B: seq<int>, j: nat, rolls: Rolls, probA: real, n: nat)
    requires p < |s.bugs| && j <= |B| && Indices(B, |s.bugs|)
    ensures Conserves(s, CollideRow(s, a, b, i, p, B, j, rolls, probA), n)
    ensures forall k :: 0 <= k < |s.bugs| && k != p && k !in B ==>
      CollideRow(s, a, b, i, p, B, j, rolls, probA).bugs[k] == s.bugs[k]
  {
    if j > 0 {
      var mid := CollideRow(s, a, b, i, p, B, j - 1, rolls, probA);
      CollideRowConserves(s, a, b, i, p, B, j - 1, rolls, probA, n);
      TouchConserves(mid, p, B[j - 1], rolls(a, b, i, j - 1), probA, n);
      ConservesTrans(s, mid, Touch(mid, p, B[j - 1], rolls(a, b, i, j - 1), probA), n);
      if p != B[j - 1] {
        TouchRule(mid, p, B[j - 1], rolls(a, b, i, j - 1), probA);
      }
    }
  }

  lemma {:induction false} CollideRowsConserves(s: Sim, a: nat, b: nat, A: seq<int>, B: seq<int>, i: nat, rolls: Rolls, probA: real, n: nat)
    requires i <= |A| && Indices(A, |s.bugs|) && Indices(B, |s.bugs|)
    ensures Conserves(s, CollideRows(s, a, b, A, B, i, rolls, probA), n)
    ensures forall k :: 0 <= k < |s.bugs| && k !in A && k !in B ==>
      CollideRows(s, a, b, A, B, i, rolls, probA).bugs[k] == s.bugs[k]
  {
    if i > 0 {
      CollideRowsConserves(s, a, b, A, B, i - 1, rolls, probA, n);
      NextRowConserves(s, CollideRows(s, a, b, A, B, i - 1, rolls, probA), a, b, A, B, i - 1, rolls, probA, n);
    }
  }

  /** Row i of A after rows that conserved the bugs and kept those outside A and B conserves and keeps them too. */
  lemma NextRowConserves(s: Sim, mid: Sim, a: nat, b: nat, A: seq<int>, B: seq<int>, i: nat, rolls: Rolls, probA: real, n: nat)
    requires i < |A| && Indices(A, |s.bugs|) && Indices(B, |s.bugs|)
    requires Conserves(s, mid, n)
    requires forall k :: 0 <= k < |s.bugs| && k !in A && k !in B ==> mid.bugs[k] == s.bugs[k]
    ensures Conserves(s, CollideRow(mid, a, b, i, A[i], B, |B|, rolls, probA), n)
    ensures forall k :: 0 <= k < |s.bugs| && k !in A && k !in B ==> CollideRow(mid, a, b, i, A[i], B, |B|, rolls, probA).bugs[k] == s.bugs[k]
  {
    var row := CollideRow(mid, a, b, i, A[i], B, |B|, rolls, probA);
    CollideRowConserves(mid, a, b, i, A[i], B, |B|, rolls, probA, n);
    ConservesTrans(s, mid, row, n);
    assert A[i] in A;
  }

  /**
   * One collision between two loops conserves the bugs (`Conserves`), and
   * changes no bug that neither view lists; the loops themselves are not
   * arguments, so their counts and views cannot change.
   */
  lemma CollidePairConserves(s: Sim, a: nat, b: nat, A: seq<int>, B: seq<int>, rolls: Rolls, n: nat)
    requires Indices(A, |s.bugs|) && Indices(B, |s.bugs|)
    ensures Conserves(s, CollidePair(s, a, b, A, B, rolls), n)
    ensures forall k :: 0 <= k < |s.bugs| && k !in A && k !in B ==> CollidePair(s, a, b, A, B, rolls).bugs[k] == s.bugs[k]
  {
    CollideRowsConserves(s, a, b, A, B, |A|, rolls, ProbA(|A|, |B|), n);
  }

  /**
   * Two loops that come apart in every pair (squared planar distance 4 or
   * more between every member of A and every member of B) exchange no bugs.
   */
  lemma {:induction false} FarApartNoConversion(s: Sim, a: nat, b: nat, A: seq<int>, B: seq<int>, i: nat, rolls: Rolls, probA: real)
    requires i <= |A| && Indices(A, |s.bugs|) && Indices(B, |s.bugs|)
    requires forall x, y :: 0 <= x < |A| && 0 <= y < |B| ==> PlanarDist2(s.bugs[A[x]].pos, s.bugs[B[y]].pos) >= 4.0
    ensures CollideRows(s, a, b, A, B, i, rolls, probA) == s
  {
    if i > 0 {
      FarApartNoConversion(s, a, b, A, B, i - 1, rolls, probA);
      FarRowNoConversion(s, a, b, i - 1, A[i - 1], B, |B|, rolls, probA);
    }
  }

  lemma {:induction false} FarRowNoConversion(s: Sim, a: nat, b: nat, i: nat, p: nat, B: seq<int>, j: nat, rolls: Rolls, probA: real)
    requires p < |s.bugs| && j <= |B| && Indices(B, |s.bugs|)
    requires forall y :: 0 <= y < |B| ==> PlanarDist2(s.bugs[p].pos, s.bugs[B[y]].pos) >= 4.0
    ensures CollideRow(s, a, b, i, p, B, j, rolls, probA) == s
  {
    if j > 0 {
      FarRowNoConversion(s, a, b, i, p, B, j - 1, rolls, probA);
    }
  }

  // -------------------------------------------------------- the pair driver

  /** The pairs (a, a+1) .. (a, n-1) that the inner driver loop visits for row a. */
  function Row(a: nat, n: nat): (r: seq<(nat, nat)>)
    requires a < n
    ensures |r| == n - a - 1
    ensures forall k :: 0 <= k < |r| ==> r[k] == (a, a + 1 + k)
  {
    seq(n - a - 1, k requires 0 <= k < n - a - 1 => (a, a + 1 + k))
  }

  /** The pairs of rows 0 .. rows-1, in visiting order. */
  function Pairs(n: nat, rows: nat): seq<(nat, nat)>
    requires rows <= n
  {
    if rows == 0 then [] else Pairs(n, rows - 1) + Row(rows - 1, n)
  }

  /** Every pair the driver visits: rows 0 .. n-2. */
  function AllPairs(n: nat): seq<(nat, nat)> {
    if n == 0 then [] else Pairs(n, n - 1)
  }

  predicate LexLess(x: (nat, nat), y: (nat, nat)) {
    x.0 < y.0 || (x.0 == y.0 && x.1 < y.1)
  }

  lemma {:induction false} PairsExact(n: nat, rows: nat)
    requires rows <= n
    ensures forall x: (nat, nat) :: x in Pairs(n, rows) <==> x.0 < rows && x.0 < x.1 < n
    ensures forall i, j :: 0 <= i < j < |Pairs(n, rows)| ==> LexLess(Pairs(n, rows)[i], Pairs(n, rows)[j])
  {
    if rows > 0 {
      PairsExact(n, rows - 1);
      var front := Pairs(n, rows - 1);
      var row := Row(rows - 1, n);
      var all := front + row;
      forall x: (nat, nat) | x.0 < rows && x.0 < x.1 < n
        ensures x in all
      {
        if x.0 < rows - 1 {
          assert x in front;
        } else {
          assert row[x.1 - rows] == x;
        }
      }
      forall i, j | 0 <= i < j < |all|
        ensures LexLess(all[i], all[j])
      {
        if j < |front| {
          assert all[i] == front[i] && all[j] == front[j];
        } else if i < |front| {
          assert all[i] == front[i] && all[i] in front;
        }
      }
    }
  }

  /**
   * The driver visits exactly the pairs a < b < n, each once (the visiting
   * order is strictly increasing), so no loop is paired with itself.
   */
  lemma AllPairsExact(n: nat)
    ensures forall x: (nat, nat) :: x in AllPairs(n) <==> x.0 < x.1 < n
    ensures forall i, j :: 0 <= i < j < |AllPairs(n)| ==> LexLess(AllPairs(n)[i], AllPairs(n)[j])
    ensures forall i, j :: 0 <= i < j < |AllPairs(n)| ==> AllPairs(n)[i] != AllPairs(n)[j]
  {
    if n > 0 {
      PairsExact(n, n - 1);
    }
  }

  /** Each pair's loops can be looked up and their views read. */
  predicate PairsValid(ps: seq<(nat, nat)>, loops: seq<BugLoop>, ptrs: seq<int>, live: nat) {
    && ViewsSound(live, loops, ptrs)
    && forall k :: 0 <= k < |ps| ==> ps[k].0 < |loops| && ps[k].1 < |loops|
  }

  /** `CollideLoops` applied to the pairs `ps` in order. */
  function FoldPairs(s: Sim, ps: seq<(nat, nat)>, loops: seq<BugLoop>, ptrs: seq<int>, rolls: Rolls): (r: Sim)
    requires PairsValid(ps, loops, ptrs, |s.bugs|)
    ensures |r.bugs| == |s.bugs|
  {
    if ps == [] then s
    else
      var x := ps[|ps| - 1];
      var mid := FoldPairs(s, ps[..|ps| - 1], loops, ptrs, rolls);
      assert ViewSound(|s.bugs|, loops[x.0], ptrs) && ViewSound(|s.bugs|, loops[x.1], ptrs);
      CollidePair(mid, x.0, x.1, Listed(ptrs, loops[x.0]), Listed(ptrs, loops[x.1]), rolls)
  }

  /** The whole collision phase conserves the bugs in the sense of `Conserves`. */
  lemma {:induction false} FoldPairsConserves(s: Sim, ps: seq<(nat, nat)>, loops: seq<BugLoop>, ptrs: seq<int>, rolls: Rolls, n: nat)
    requires PairsValid(ps, loops, ptrs, |s.bugs|)
    ensures Conserves(s, FoldPairs(s, ps, loops, ptrs, rolls), n)
  {
    if ps != [] {
      var x := ps[|ps| - 1];
      var mid := FoldPairs(s, ps[..|ps| - 1], loops, ptrs, rolls);
      FoldPairsConserves(s, ps[..|ps| - 1], loops, ptrs, rolls, n);
      assert ViewSound(|s.bugs|, loops[x.0], ptrs) && ViewSound(|s.bugs|, loops[x.1], ptrs);
      CollidePairConserves(mid, x.0, x.1, Listed(ptrs, loops[x.0]), Listed(ptrs, loops[x.1]), rolls, n);
      ConservesTrans(s, mid, FoldPairs(s, ps, loops, ptrs, rolls), n);
    }
  }

  /** Every pair of the first `rows` rows names two of the n loops. */
  lemma PairsInRange(n: nat, rows: nat)
    requires rows <= n
    ensures forall k :: 0 <= k < |Pairs(n, rows)| ==> Pairs(n, rows)[k].0 < n && Pairs(n, rows)[k].1 < n
  {
    PairsExact(n, rows);
    forall k | 0 <= k < |Pairs(n, rows)|
      ensures Pairs(n, rows)[k].0 < n && Pairs(n, rows)[k].1 < n
    {
      assert Pairs(n, rows)[k] in Pairs(n, rows);
    }
  }

  /**
   * The inner driver loop's progress: with row a visited up to loop b-1,
   * visiting (a, b) extends the prefix by one; when b reaches n the first
   * a + 1 rows are done.
   */
  lemma RowGrows(n: nat, a: nat, b: nat, ps: seq<(nat, nat)>)
    requires a < b <= n && ps == Pairs(n, a) + Row(a, n)[..b - a - 1]
    ensures b < n ==> ps + [(a, b)] == Pairs(n, a) + Row(a, n)[..b - a]
    ensures b == n ==> ps == Pairs(n, a + 1)
  {
    var row := Row(a, n);
    if b < n {
      assert row[..b - a] == row[..b - a - 1] + [(a, b)];
    } else {
      assert row[..b - a - 1] == row;
    }
  }

  /** Folding one more pair is one more `CollideLoops` on the result so far. */
  lemma FoldPairsSnoc(s: Sim, ps: seq<(nat, nat)>, x: (nat, nat), loops: seq<BugLoop>, ptrs: seq<int>, rolls: Rolls)
    requires PairsValid(ps, loops, ptrs, |s.bugs|) && x.0 < |loops| && x.1 < |loops|
    ensures PairsValid(ps + [x], loops, ptrs, |s.bugs|)
    ensures ViewSound(|s.bugs|, loops[x.0], ptrs) && ViewSound(|s.bugs|, loops[x.1], ptrs)
    ensures FoldPairs(s, ps + [x], loops, ptrs, rolls)
      == CollidePair(FoldPairs(s, ps, loops, ptrs, rolls), x.0, x.1, Listed(ptrs, loops[x.0]), Listed(ptrs, loops[x.1]), rolls)
  {
    assert (ps + [x])[..|ps|] == ps;
    assert forall k :: 0 <= k < |ps| ==> ps[k] == (ps + [x])[k];
    assert (ps + [x])[|ps|] == x;
  }

  /**
   * The collision phase of `UpdateAndRenderBugs`: `CollideLoops` for every
   * pair a < b of the loops, in the driver's order. It conserves the bugs
   * (`Conserves`), so loop numbers stay in range and any change sets the
   * dirty flag.
   */
  function Collisions(s: Sim, loops: seq<BugLoop>, ptrs: seq<int>, rolls: Rolls): (r: Sim)
    requires ViewsSound(|s.bugs|, loops, ptrs)
    ensures Conserves(s, r, |loops|)
  {
    if |loops| == 0 then s
    else
      PairsInRange(|loops|, |loops| - 1);
      FoldPairsConserves(s, AllPairs(|loops|), loops, ptrs, rolls, |loops|);
      FoldPairs(s, AllPairs(|loops|), loops, ptrs, rolls)
  }
}
