/**
 * The per-frame rules of `UpdateAndRenderLoops` and `UpdateAndRenderBugs`,
 * as functions of the state they read: loop settling and radius, the
 * nearest-rival scan, seek or flee, the edge push, and one bug's step
 * (speed, bounce, steering, clamping, legs).
 */
module Behaviour {
  import opened Geometry
  import opened Entities

  datatype Option<T> = None | Some(value: T)

  // ---------------------------------------------------------------- loops

  /** The summed positions of the bugs listed in `view`. */
  function PosSum(bs: seq<Bug>, view: seq<int>): Vec3
    requires forall k :: 0 <= k < |view| ==> 0 <= view[k] < |bs|
  {
    if view == [] then Vec3(0.0, 0.0, 0.0)
    else Add(PosSum(bs, view[..|view| - 1]), bs[view[|view| - 1]].pos)
  }

  /** `GetBugCenter`: the mean position of the bugs listed in `view`. */
  function BugCenter(bs: seq<Bug>, view: seq<int>): Vec3
    requires |view| > 0
    requires forall k :: 0 <= k < |view| ==> 0 <= view[k] < |bs|
  {
    Scale(PosSum(bs, view), 1.0 / |view| as real)
  }

  /** n copies of x added up. */
  function Times(n: nat, x: real): real {
    if n == 0 then 0.0 else Times(n - 1, x) + x
  }

  lemma {:induction false} TimesIsProduct(n: nat, x: real)
    ensures Times(n, x) == n as real * x
  {
    if n > 0 {
      TimesIsProduct(n - 1, x);
      assert n as real * x == (n - 1) as real * x + x;
    }
  }

  lemma {:induction false} PosSumBounds(bs: seq<Bug>, view: seq<int>, lo: Vec3, hi: Vec3)
    requires forall k :: 0 <= k < |view| ==> 0 <= view[k] < |bs|
    requires forall k :: 0 <= k < |view| ==>
      lo.x <= bs[view[k]].pos.x <= hi.x && lo.y <= bs[view[k]].pos.y <= hi.y
    ensures Times(|view|, lo.x) <= PosSum(bs, view).x <= Times(|view|, hi.x)
    ensures Times(|view|, lo.y) <= PosSum(bs, view).y <= Times(|view|, hi.y)
  {
    if view != [] {
      var init := view[..|view| - 1];
      assert forall k :: 0 <= k < |init| ==> init[k] == view[k];
      PosSumBounds(bs, init, lo, hi);
      var last := |view| - 1;
      assert lo.x <= bs[view[last]].pos.x <= hi.x && lo.y <= bs[view[last]].pos.y <= hi.y;
    }
  }

  /**
   * The centre lies in every axis-aligned box that holds all the members, so
   * a loop whose bugs are inside the arena settles toward a point inside it.
   */
  lemma CenterWithinMembers(bs: seq<Bug>, view: seq<int>, lo: Vec3, hi: Vec3)
    requires |view| > 0
    requires forall k :: 0 <= k < |view| ==> 0 <= view[k] < |bs|
    requires forall k :: 0 <= k < |view| ==>
      lo.x <= bs[view[k]].pos.x <= hi.x && lo.y <= bs[view[k]].pos.y <= hi.y
    ensures lo.x <= BugCenter(bs, view).x <= hi.x
    ensures lo.y <= BugCenter(bs, view).y <= hi.y
  {
    PosSumBounds(bs, view, lo, hi);
    var sum := PosSum(bs, view);
    var c := BugCenter(bs, view);
    assert c == Scale(sum, 1.0 / |view| as real);
    DivideBounds(sum.x, |view|, lo.x, hi.x);
    DivideBounds(sum.y, |view|, lo.y, hi.y);
  }

  lemma DivideBounds(sum: real, n: nat, lo: real, hi: real)
    requires n > 0 && Times(n, lo) <= sum <= Times(n, hi)
    ensures lo <= sum * (1.0 / n as real) <= hi
  {
    TimesIsProduct(n, lo);
    TimesIsProduct(n, hi);
    var r := n as real;
    assert sum * (1.0 / r) == sum / r;
    assert (r * lo) / r == lo && (r * hi) / r == hi;
  }

  /** With a single member the centre is that member's position. */
  lemma CenterOfOne(bs: seq<Bug>, i: int)
    requires 0 <= i < |bs|
    ensures BugCenter(bs, [i]) == bs[i].pos
  {
    assert [i][..0] == [];
    assert PosSum(bs, [i]) == Add(Vec3(0.0, 0.0, 0.0), bs[i].pos);
    assert 1.0 / (|[i]| as real) == 1.0;
  }

  /**
   * A loop's radius and position after settling on its members: an empty
   * loop shrinks to radius 1 and stays put (its centre is never computed);
   * otherwise radius 2·sqrt(n) and 5% of the way toward `center`.
   */
  function Settle(loop: BugLoop, center: Vec3, m: MathLib): (r: BugLoop)
    ensures r.nBugs == loop.nBugs && r.bugs == loop.bugs && r.speedFactor == loop.speedFactor
    ensures loop.nBugs == 0 ==> r.radius == 1.0 && r.pos == loop.pos
    ensures loop.nBugs > 0 ==> r.radius == 2.0 * m.sqrt(loop.nBugs as real)
    ensures loop.nBugs > 0 ==> r.pos == Add(Scale(center, 0.05), Scale(loop.pos, 0.95))
  {
    if loop.nBugs > 0 then
      loop.(radius := 2.0 * m.sqrt(loop.nBugs as real), pos := Lerp(center, loop.pos, 0.95))
    else
      loop.(radius := 1.0)
  }

  /** The result of the rival scan: the chosen loop, its distance and the offset to it. */
  datatype Rival = Rival(enemy: Option<nat>, minDist: real, diff: Vec3)

  /** The scan's starting distance; a rival this far or farther is never chosen. */
  const NoRivalDistance: real := 1000000.0

  /** Loop e competes with loop `self`: another loop that has bugs. */
  predicate Eligible(loops: seq<BugLoop>, self: nat, e: nat)
    requires e < |loops|
  {
    e != self && loops[e].nBugs > 0
  }

  function RivalDist(loops: seq<BugLoop>, from: Vec3, e: nat, m: MathLib): real
    requires e < |loops|
  {
    m.length(Sub(loops[e].pos, from))
  }

  /** The scan of `UpdateAndRenderLoops` over loops e .. |loops|-1, keeping a strictly nearer one. */
  function ScanRivals(loops: seq<BugLoop>, self: nat, from: Vec3, m: MathLib, e: nat, best: Rival): Rival
    requires e <= |loops|
    decreases |loops| - e
  {
    if e == |loops| then best
    else
      var diff := Sub(loops[e].pos, from);
      var dist := m.length(diff);
      var best' := if Eligible(loops, self, e) && dist < best.minDist then Rival(Some(e), dist, diff) else best;
      ScanRivals(loops, self, from, m, e + 1, best')
  }

  function NearestRival(loops: seq<BugLoop>, self: nat, from: Vec3, m: MathLib): Rival {
    ScanRivals(loops, self, from, m, 0, Rival(None, NoRivalDistance, Vec3(0.0, 0.0, 0.0)))
  }

  /** The scan's result describes the nearest eligible loop among loops 0 .. e-1. */
  predicate IsNearestSoFar(loops: seq<BugLoop>, self: nat, from: Vec3, m: MathLib, e: nat, r: Rival)
    requires e <= |loops|
  {
    && (r.enemy.None? ==>
          && r.minDist == NoRivalDistance
          && (forall k :: 0 <= k < e && Eligible(loops, self, k) ==> RivalDist(loops, from, k, m) >= NoRivalDistance))
    && (r.enemy.Some? ==>
          && r.enemy.value < e && Eligible(loops, self, r.enemy.value)
          && r.minDist == RivalDist(loops, from, r.enemy.value, m) < NoRivalDistance
          && r.diff == Sub(loops[r.enemy.value].pos, from)
          && (forall k :: 0 <= k < e && Eligible(loops, self, k) ==> RivalDist(loops, from, k, m) >= r.minDist)
          && (forall k :: 0 <= k < r.enemy.value && Eligible(loops, self, k) ==> RivalDist(loops, from, k, m) > r.minDist))
  }

  lemma {:induction false} ScanRivalsFinds(loops: seq<BugLoop>, self: nat, from: Vec3, m: MathLib, e: nat, best: Rival)
    requires e <= |loops| && IsNearestSoFar(loops, self, from, m, e, best)
    ensures IsNearestSoFar(loops, self, from, m, |loops|, ScanRivals(loops, self, from, m, e, best))
    decreases |loops| - e
  {
    if e < |loops| {
      var diff := Sub(loops[e].pos, from);
      var dist := m.length(diff);
      var best' := if Eligible(loops, self, e) && dist < best.minDist then Rival(Some(e), dist, diff) else best;
      assert IsNearestSoFar(loops, self, from, m, e + 1, best');
      ScanRivalsFinds(loops, self, from, m, e + 1, best');
    }
  }

  /**
   * The rival is the nearest other non-empty loop, the first index winning
   * ties; no rival is chosen when every candidate is 1000000 or farther.
   */
  lemma NearestRivalIsNearest(loops: seq<BugLoop>, self: nat, from: Vec3, m: MathLib)
    ensures IsNearestSoFar(loops, self, from, m, |loops|, NearestRival(loops, self, from, m))
  {
    ScanRivalsFinds(loops, self, from, m, 0, Rival(None, NoRivalDistance, Vec3(0.0, 0.0, 0.0)));
  }

  /** The chosen rival is another live loop with bugs. */
  lemma NearestRivalEligible(loops: seq<BugLoop>, self: nat, from: Vec3, m: MathLib)
    ensures var r := NearestRival(loops, self, from, m);
      r.enemy.Some? ==> r.enemy.value < |loops| && Eligible(loops, self, r.enemy.value)
  {
    NearestRivalIsNearest(loops, self, from, m);
  }

  /**
   * Seek or flee: move `speed` along the normalised offset toward a rival
   * with strictly fewer bugs, away from one with as many or more, and only
   * when the rival is farther than half the loop's radius.
   */
  function Chase(pos: Vec3, radius: real, ownBugs: nat, rival: Rival, rivalBugs: nat, speed: real, m: MathLib): (r: Vec3)
    ensures rival.enemy.None? || rival.minDist <= radius / 2.0 ==> r == pos
    ensures rival.enemy.Some? && rival.minDist > radius / 2.0 && rivalBugs < ownBugs ==>
      r == Add(pos, Scale(m.norm(rival.diff), speed))
    ensures rival.enemy.Some? && rival.minDist > radius / 2.0 && rivalBugs >= ownBugs ==>
      r == Sub(pos, Scale(m.norm(rival.diff), speed))
  {
    if rival.enemy.Some? && rival.minDist > radius / 2.0 then
      var step := Scale(m.norm(rival.diff), speed);
      if rivalBugs < ownBugs then Add(pos, step) else Sub(pos, step)
    else pos
  }

  /** The four arena edges, in the order the source tests them. */
  datatype Edge = NoEdge | Left | Right | Bottom | Top

  /** Distance from p to an edge of the [0, w] x [0, h] arena. */
  function EdgeDistance(p: Vec3, w: real, h: real, e: Edge): real {
    match e
    case NoEdge => NoRivalDistance
    case Left => p.x
    case Right => w - p.x
    case Bottom => p.y
    case Top => h - p.y
  }

  function EdgeRank(e: Edge): nat {
    match e
    case NoEdge => 0
    case Left => 1
    case Right => 2
    case Bottom => 3
    case Top => 4
  }

  /** The first edge that is strictly nearer than every edge tested before it. */
  function NearestEdge(p: Vec3, w: real, h: real): (e: Edge)
    ensures e != NoEdge ==> EdgeDistance(p, w, h, e) < NoRivalDistance
    ensures e == NoEdge ==> forall f: Edge :: EdgeDistance(p, w, h, f) >= NoRivalDistance
    ensures forall f: Edge :: f != NoEdge ==> EdgeDistance(p, w, h, f) >= EdgeDistance(p, w, h, e)
    ensures forall f: Edge :: f != NoEdge && EdgeRank(f) < EdgeRank(e) ==> EdgeDistance(p, w, h, f) > EdgeDistance(p, w, h, e)
  {
    var e1 := if EdgeDistance(p, w, h, Left) < NoRivalDistance then Left else NoEdge;
    var e2 := if EdgeDistance(p, w, h, Right) < EdgeDistance(p, w, h, e1) then Right else e1;
    var e3 := if EdgeDistance(p, w, h, Bottom) < EdgeDistance(p, w, h, e2) then Bottom else e2;
    if EdgeDistance(p, w, h, Top) < EdgeDistance(p, w, h, e3) then Top else e3
  }

  /** The unit direction that points away from an edge, into the arena. */
  function AwayFrom(e: Edge): (int, int) {
    match e
    case NoEdge => (0, 0)
    case Left => (1, 0)
    case Right => (-1, 0)
    case Bottom => (0, 1)
    case Top => (0, -1)
  }

  /** How far the threshold of 100 pushes a loop that is d from its nearest edge. */
  function EdgePushAmount(d: real): real {
    (100.0 - d) * 2.0 / 100.0
  }

  /** Edge avoidance: a push away from the nearest edge alone, when it is nearer than 100. */
  function EdgePush(p: Vec3, w: real, h: real): Vec3 {
    var e := NearestEdge(p, w, h);
    var d := EdgeDistance(p, w, h, e);
    if d < 100.0 then
      var k := EdgePushAmount(d);
      var dir := AwayFrom(e);
      Add(p, Vec3(dir.0 as real * k, dir.1 as real * k, 0.0))
    else p
  }

  /**
   * The push moves along one axis only and keeps the height; it happens
   * exactly when the nearest edge is nearer than 100, and then it increases
   * the distance to that edge by (100 - d)/50 > 0.
   */
  lemma EdgePushRule(p: Vec3, w: real, h: real)
    ensures EdgePush(p, w, h).z == p.z
    ensures EdgePush(p, w, h).x == p.x || EdgePush(p, w, h).y == p.y
    ensures var e := NearestEdge(p, w, h);
      var d := EdgeDistance(p, w, h, e);
      && (d >= 100.0 <==> EdgePush(p, w, h) == p)
      && (d < 100.0 ==>
            && e != NoEdge && EdgePushAmount(d) > 0.0
            && EdgeDistance(EdgePush(p, w, h), w, h, e) == d + EdgePushAmount(d))
  {
  }

  /**
   * Where an AI loop moves to from its (settled) record `loops[self]`: seek
   * or flee its nearest rival at `aiSpeed` times its own speed factor, then
   * push off the nearest edge.
   */
  function Steered(loops: seq<BugLoop>, self: nat, w: real, h: real, aiSpeed: real, m: MathLib): Vec3
    requires self < |loops|
  {
    var me := loops[self];
    var rival := NearestRival(loops, self, me.pos, m);
    var rivalBugs := if rival.enemy.Some? && rival.enemy.value < |loops| then loops[rival.enemy.value].nBugs else 0;
    EdgePush(Chase(me.pos, me.radius, me.nBugs, rival, rivalBugs, aiSpeed * me.speedFactor, m), w, h)
  }

  /** Steered, given the scan's rival and the chase's result. */
  lemma SteeredFrom(loops: seq<BugLoop>, self: nat, w: real, h: real, aiSpeed: real, m: MathLib, rival: Rival, chased: Vec3)
    requires self < |loops|
    requires rival == NearestRival(loops, self, loops[self].pos, m)
    requires chased == Chase(loops[self].pos, loops[self].radius, loops[self].nBugs, rival,
      if rival.enemy.Some? && rival.enemy.value < |loops| then loops[rival.enemy.value].nBugs else 0,
      aiSpeed * loops[self].speedFactor, m)
    ensures Steered(loops, self, w, h, aiSpeed, m) == EdgePush(chased, w, h)
  {
  }

  /**
   * One loop's update in frame order: settle on the members (written back
   * before the scan, as the source does), then, for every loop but the
   * player's loop 0, seek or flee the nearest rival and push off the
   * nearest edge. `center` is the members' mean when there are any.
   */
  function LoopStep(loops: seq<BugLoop>, self: nat, center: Vec3, w: real, h: real, aiSpeed: real, m: MathLib): (r: BugLoop)
    requires self < |loops|
    ensures r.nBugs == loops[self].nBugs && r.bugs == loops[self].bugs && r.speedFactor == loops[self].speedFactor
    ensures r.radius == Settle(loops[self], center, m).radius
    ensures self == 0 ==> r == Settle(loops[self], center, m)
  {
    var settled := Settle(loops[self], center, m);
    if self == 0 then settled
    else settled.(pos := Steered(loops[self := settled], self, w, h, aiSpeed, m))
  }

  /** The loops after the first k iterations of the update loop; `centers[l]` is loop l's members' mean. */
  function LoopsAfter(loops: seq<BugLoop>, centers: seq<Vec3>, w: real, h: real, aiSpeed: real, m: MathLib, k: nat): (r: seq<BugLoop>)
    requires |centers| == |loops| && k <= |loops|
    ensures |r| == |loops|
  {
    if k == 0 then loops
    else
      var prev := LoopsAfter(loops, centers, w, h, aiSpeed, m, k - 1);
      prev[k - 1 := LoopStep(prev, k - 1, centers[k - 1], w, h, aiSpeed, m)]
  }

  /**
   * r is `loops` after the first k iterations of the update loop as far as
   * these rules go: every loop keeps its count, view and speed factor; a
   * visited loop has radius 2·sqrt(n), or 1 when empty; loops not yet
   * visited are untouched; and the player's loop 0 is only settled, never
   * moved by the AI.
   */
  predicate Visited(loops: seq<BugLoop>, centers: seq<Vec3>, r: seq<BugLoop>, k: nat, m: MathLib)
    requires |centers| == |loops|
  {
    && |r| == |loops|
    && (forall l :: 0 <= l < |loops| ==>
          r[l].nBugs == loops[l].nBugs && r[l].bugs == loops[l].bugs && r[l].speedFactor == loops[l].speedFactor)
    && (forall l :: k <= l < |loops| ==> r[l] == loops[l])
    && (forall l :: 0 <= l < k && l < |loops| ==> r[l].radius == (if loops[l].nBugs > 0 then 2.0 * m.sqrt(loops[l].nBugs as real) else 1.0))
    && (k > 0 && |loops| > 0 ==> r[0] == Settle(loops[0], centers[0], m))
  }

  /** The update loop follows the rules of `Visited`. */
  lemma {:induction false} LoopsAfterRules(loops: seq<BugLoop>, centers: seq<Vec3>, w: real, h: real, aiSpeed: real, m: MathLib, k: nat)
    requires |centers| == |loops| && k <= |loops|
    ensures Visited(loops, centers, LoopsAfter(loops, centers, w, h, aiSpeed, m, k), k, m)
  {
    if k > 0 {
      LoopsAfterRules(loops, centers, w, h, aiSpeed, m, k - 1);
      var prev := LoopsAfter(loops, centers, w, h, aiSpeed, m, k - 1);
      var step := LoopStep(prev, k - 1, centers[k - 1], w, h, aiSpeed, m);
      assert prev[k - 1] == loops[k - 1];
      VisitOne(loops, centers, prev, step, k, m);
      assert LoopsAfter(loops, centers, w, h, aiSpeed, m, k) == prev[k - 1 := step];
    }
  }

  /** Iteration k - 1 of the update loop keeps to the rules of `Visited`. */
  lemma VisitOne(loops: seq<BugLoop>, centers: seq<Vec3>, prev: seq<BugLoop>, step: BugLoop, k: nat, m: MathLib)
    requires |centers| == |loops| && 0 < k <= |loops| && Visited(loops, centers, prev, k - 1, m)
    requires var settled := Settle(loops[k - 1], centers[k - 1], m);
      && step.nBugs == loops[k - 1].nBugs && step.bugs == loops[k - 1].bugs && step.speedFactor == loops[k - 1].speedFactor
      && step.radius == settled.radius && (k == 1 ==> step == settled)
    ensures Visited(loops, centers, prev[k - 1 := step], k, m)
  {
  }

  // ----------------------------------------------------------------- bugs

  /** The random draws one bug consumes in a frame, as unit values. */
  datatype BugDraws = BugDraws(speed: real, turn: real, jitter: Jitter)

  /** The x and y offsets drawn for each of the six feet. */
  type Jitter = s: seq<(real, real)> | |s| == 6 witness seq(6, _ => (0.0, 0.0))

  predicate DrawsInRange(d: BugDraws) {
    && IsUnit(d.speed) && IsUnit(d.turn)
    && forall k :: 0 <= k < 6 ==> IsUnit(d.jitter[k].0) && IsUnit(d.jitter[k].1)
  }

  const TurnInfluence: real := 0.14

  /**
   * Heading drift: toward the loop's side when outside its circle, away
   * from it when inside, by the drawn amount `turn`.
   */
  function Steer(orientation: real, loopDiff: Vec3, distToLoop: real, c: real, s: real, turn: real): real {
    var perpDot := -loopDiff.x * s + loopDiff.y * c;
    if perpDot > 0.0 then
      (if distToLoop > 0.0 then orientation + turn else orientation - turn)
    else
      (if distToLoop > 0.0 then orientation - turn else orientation + turn)
  }

  /** The heading turns by exactly the drawn amount, whichever way. */
  lemma SteerTurnsByDraw(orientation: real, loopDiff: Vec3, distToLoop: real, c: real, s: real, u: real)
    requires IsUnit(u)
    ensures var turn := RandomFloat(0.0, TurnInfluence, u);
      var o := Steer(orientation, loopDiff, distToLoop, c, s, turn);
      Abs(o - orientation) == turn && 0.0 <= turn < TurnInfluence
    ensures var turn := RandomFloat(0.0, TurnInfluence, u);
      var toward := (-loopDiff.x * s + loopDiff.y * c > 0.0) == (distToLoop > 0.0);
      && (toward ==> Steer(orientation, loopDiff, distToLoop, c, s, turn) == orientation + turn)
      && (!toward ==> Steer(orientation, loopDiff, distToLoop, c, s, turn) == orientation - turn)
    ensures var turn := RandomFloat(0.0, TurnInfluence, u);
      turn > 0.0 ==>
        ((-loopDiff.x * s + loopDiff.y * c > 0.0) == (distToLoop > 0.0) <==>
          Steer(orientation, loopDiff, distToLoop, c, s, turn) > orientation)
  {
  }

  /** Gravity, then the ground bounce: below height 1 the bug is put back at 1 and its fall reversed at 80%. */
  function Bounce(z: real, zVel: real): (r: (real, real)) {
    var v := zVel - 0.05;
    var z' := z + v;
    if z' < 1.0 then (1.0, v * -0.8) else (z', v)
  }

  /** The bounce never leaves a bug below the ground plane at height 1. */
  lemma BounceKeepsAboveGround(z: real, zVel: real)
    ensures Bounce(z, zVel).0 >= 1.0
    ensures Bounce(z, zVel).0 > 1.0 ==> Bounce(z, zVel) == (z + zVel - 0.05, zVel - 0.05)
    ensures z + zVel - 0.05 < 1.0 ==> Bounce(z, zVel) == (1.0, (zVel - 0.05) * -0.8)
    ensures z + zVel - 0.05 < 1.0 ==> (Bounce(z, zVel).1 >= 0.0 <==> zVel - 0.05 <= 0.0)
    ensures z + zVel - 0.05 < 1.0 ==> Abs(Bounce(z, zVel).1) == 0.8 * Abs(zVel - 0.05)
  {
  }

  /** The four boundary tests of the source, in order. */
  function Clamp(p: Vec3, w: real, h: real): Vec3 {
    var x1 := if p.x < 0.0 then 0.0 else p.x;
    var y1 := if p.y < 0.0 then 0.0 else p.y;
    var x2 := if x1 > w then w else x1;
    var y2 := if y1 > h then h else y1;
    Vec3(x2, y2, p.z)
  }

  /** For a non-negative arena the clamped position is inside it, and a position inside is kept. */
  lemma ClampInArena(p: Vec3, w: real, h: real)
    requires w >= 0.0 && h >= 0.0
    ensures 0.0 <= Clamp(p, w, h).x <= w && 0.0 <= Clamp(p, w, h).y <= h
    ensures Clamp(p, w, h).z == p.z
    ensures 0.0 <= p.x <= w && 0.0 <= p.y <= h ==> Clamp(p, w, h) == p
  {
  }

  /** `CalculateFeetPos`: the two feet either side of `center`, across `direction`. */
  function FeetPair(center: Vec3, direction: Vec3): (Vec3, Vec3) {
    (Vec3(center.x - direction.y, center.y + direction.x, center.z),
     Vec3(center.x + direction.y, center.y - direction.x, center.z))
  }

  /**
   * The pair is symmetric: its midpoint is the centre, both feet are at the
   * centre's height, and each foot's offset is perpendicular to the direction.
   */
  lemma FeetPairSymmetric(center: Vec3, direction: Vec3)
    ensures var (f0, f1) := FeetPair(center, direction);
      && (f0.x + f1.x) / 2.0 == center.x && (f0.y + f1.y) / 2.0 == center.y
      && f0.z == center.z && f1.z == center.z
      && (f0.x - center.x) * direction.x + (f0.y - center.y) * direction.y == 0.0
      && Sub(f0, center) == Scale(Sub(f1, center), -1.0)
  {
  }

  function Ground(p: Vec3): Vec3 {
    p.(z := 0.0)
  }

  /** Where leg k starts on the body: the front, the middle or the back. */
  function FootAnchor(from: Vec3, to: Vec3, k: nat): Vec3 {
    Lerp(from, to, 0.5 * (k / 2) as real)
  }

  /** Where leg k wants to stand: beside a point a little ahead of its anchor. */
  function FootTarget(from: Vec3, to: Vec3, direction: Vec3, k: nat): Vec3 {
    var pair := k / 2;
    var center := Lerp(Ground(from), Ground(to), 0.5 * pair as real + 0.5).(z := FootAnchor(from, to, k).z - 1.0);
    var feet := FeetPair(center, direction);
    if k % 2 == 0 then feet.0 else feet.1
  }

  /** Legs 2·pair and 2·pair + 1 share their anchor and split the pair's two targets. */
  lemma FootPair(from: Vec3, to: Vec3, direction: Vec3, pair: nat)
    ensures FootAnchor(from, to, 2 * pair) == FootAnchor(from, to, 2 * pair + 1) == Lerp(from, to, 0.5 * pair as real)
    ensures var center := Lerp(Ground(from), Ground(to), 0.5 * pair as real + 0.5).(z := Lerp(from, to, 0.5 * pair as real).z - 1.0);
      FootTarget(from, to, direction, 2 * pair) == FeetPair(center, direction).0 &&
      FootTarget(from, to, direction, 2 * pair + 1) == FeetPair(center, direction).1
  {
    assert (2 * pair) / 2 == pair && (2 * pair + 1) / 2 == pair;
    assert (2 * pair) % 2 == 0 && (2 * pair + 1) % 2 == 1;
  }

  /** The threshold beyond which a foot is re-planted. */
  const StepThreshold: real := 1.0

  /** Keep the planted foot unless the new target is more than one unit away; then plant near it. */
  function Replant(planted: Vec3, target: Vec3, jitter: (real, real), m: MathLib): Vec3 {
    if m.length(Sub(target, planted)) > StepThreshold then
      Vec3(target.x + RandomFloat(-0.2, 0.2, jitter.0), target.y + RandomFloat(-0.2, 0.2, jitter.1), target.z)
    else planted
  }

  /**
   * A foot moves only when its target is more than one unit away, and then
   * lands within 0.2 of the target in x and y, at the target's height.
   */
  lemma ReplantRule(planted: Vec3, target: Vec3, jitter: (real, real), m: MathLib)
    requires IsUnit(jitter.0) && IsUnit(jitter.1)
    ensures m.length(Sub(target, planted)) <= StepThreshold ==> Replant(planted, target, jitter, m) == planted
    ensures m.length(Sub(target, planted)) > StepThreshold ==>
      var r := Replant(planted, target, jitter, m);
      Abs(r.x - target.x) <= 0.2 && Abs(r.y - target.y) <= 0.2 && r.z == target.z
  {
  }

  /** A bug's planar speed this frame: up to 0.6, doubled when more than 10 from its loop's boundary. */
  function BugSpeed(u: real, distToLoop: real): real {
    var speed := 0.6 * RandomFloat(0.0, 1.0, u);
    if Abs(distToLoop) > 10.0 then speed * 2.0 else speed
  }

  /**
   * The body half of a bug's step: move along the heading (c, s) =
   * (sin, cos) of the old orientation, fall and bounce, drift the heading,
   * then clamp to the arena.
   */
  function Body(b: Bug, loop: BugLoop, w: real, h: real, m: MathLib, d: BugDraws): Bug {
    var loopDiff := Sub(b.pos, loop.pos);
    var distToLoop := m.length(loopDiff) - loop.radius;
    var speed := BugSpeed(d.speed, distToLoop);
    var c := m.sin(b.orientation);
    var s := m.cos(b.orientation);
    var moved := Add(b.pos, Vec3(c * speed, s * speed, 0.0));
    var (z, zVel) := Bounce(moved.z, b.zVel);
    var orientation := Steer(b.orientation, loopDiff, distToLoop, c, s, RandomFloat(0.0, TurnInfluence, d.turn));
    b.(orientation := orientation, pos := Clamp(moved.(z := z), w, h), zVel := zVel)
  }

  /** The six leg anchors along a body from `from` to `to`. */
  function Anchors(from: Vec3, to: Vec3): Feet {
    seq(6, k requires 0 <= k < 6 => FootAnchor(from, to, k))
  }

  /** The six foot targets for a body from `from` to `to` heading along `direction`. */
  function Targets(from: Vec3, to: Vec3, direction: Vec3): Feet {
    seq(6, k requires 0 <= k < 6 => FootTarget(from, to, direction, k))
  }

  /** Every planted foot after re-planting against its target. */
  function Replanted(planted: Feet, targets: Feet, jitter: Jitter, m: MathLib): Feet {
    seq(6, k requires 0 <= k < 6 => Replant(planted[k], targets[k], jitter[k], m))
  }

  /**
   * The leg half, for a body running from `bug.pos` to `to` and heading
   * along `direction`: the anchors along the body, and every planted foot
   * re-planted if its target moved too far.
   */
  function Legs(bug: Bug, to: Vec3, direction: Vec3, m: MathLib, jitter: Jitter): Bug {
    bug.(feetFrom := Anchors(bug.pos, to), feetTo := Replanted(bug.feetTo, Targets(bug.pos, to, direction), jitter, m))
  }

  /**
   * One bug's step for a frame: the body half, then the legs of a body one
   * `scale` long along the old heading (sin, cos).
   */
  function StepBug(b: Bug, loop: BugLoop, w: real, h: real, m: MathLib, d: BugDraws): Bug {
    var body := Body(b, loop, w, h, m, d);
    var direction := Heading(m, b.orientation);
    Legs(body, Front(body.pos, direction, b.scale), direction, m, d.jitter)
  }

  /** A step never changes which loop a bug belongs to, nor its size. */
  lemma StepBugKeepsLoop(b: Bug, loop: BugLoop, w: real, h: real, m: MathLib, d: BugDraws)
    ensures StepBug(b, loop, w, h, m, d).loopNumber == b.loopNumber
    ensures StepBug(b, loop, w, h, m, d).scale == b.scale
  {
  }

  /** The unit heading (sin, cos, 0) of an orientation. */
  function Heading(m: MathLib, orientation: real): Vec3 {
    Vec3(m.sin(orientation), m.cos(orientation), 0.0)
  }

  /** The front of a body `scale` long starting at `from` along `direction`, at the same height. */
  function Front(from: Vec3, direction: Vec3, scale: real): Vec3 {
    Add(from, Vec3(direction.x * scale, direction.y * scale, 0.0))
  }

  /**
   * The body half leaves a bug inside a non-negative arena and not below
   * the ground, with its loop, size and legs, and its heading moved by less
   * than 0.14.
   */
  lemma BodyRules(b: Bug, loop: BugLoop, w: real, h: real, m: MathLib, d: BugDraws)
    requires w >= 0.0 && h >= 0.0 && DrawsInRange(d)
    ensures var r := Body(b, loop, w, h, m, d);
      && 0.0 <= r.pos.x <= w && 0.0 <= r.pos.y <= h && r.pos.z >= 1.0
      && r.loopNumber == b.loopNumber && r.scale == b.scale
      && r.feetFrom == b.feetFrom && r.feetTo == b.feetTo
      && Abs(r.orientation - b.orientation) < TurnInfluence
  {
    var loopDiff := Sub(b.pos, loop.pos);
    var distToLoop := m.length(loopDiff) - loop.radius;
    var speed := BugSpeed(d.speed, distToLoop);
    var c := m.sin(b.orientation);
    var s := m.cos(b.orientation);
    var moved := Add(b.pos, Vec3(c * speed, s * speed, 0.0));
    BounceKeepsAboveGround(moved.z, b.zVel);
    ClampInArena(moved.(z := Bounce(moved.z, b.zVel).0), w, h);
    SteerTurnsByDraw(b.orientation, loopDiff, distToLoop, c, s, d.turn);
  }

  /** Foot k after re-planting: kept, or within 0.2 of its target. */
  lemma ReplantedRule(planted: Feet, targets: Feet, jitter: Jitter, m: MathLib, k: nat)
    requires k < 6 && IsUnit(jitter[k].0) && IsUnit(jitter[k].1)
    ensures var foot := Replanted(planted, targets, jitter, m)[k];
      foot == planted[k] || (Abs(foot.x - targets[k].x) <= 0.2 && Abs(foot.y - targets[k].y) <= 0.2)
  {
    ReplantRule(planted[k], targets[k], jitter[k], m);
  }

  /**
   * The leg half keeps everything but the legs; each foot either stays
   * planted or is re-planted within 0.2 of its target.
   */
  lemma LegsRule(bug: Bug, to: Vec3, direction: Vec3, m: MathLib, jitter: Jitter)
    requires forall k :: 0 <= k < 6 ==> IsUnit(jitter[k].0) && IsUnit(jitter[k].1)
    ensures var r := Legs(bug, to, direction, m, jitter);
      r == bug.(feetFrom := r.feetFrom, feetTo := r.feetTo)
    ensures var r := Legs(bug, to, direction, m, jitter);
      forall k :: 0 <= k < 6 ==>
        r.feetTo[k] == bug.feetTo[k] ||
        (Abs(r.feetTo[k].x - Targets(bug.pos, to, direction)[k].x) <= 0.2 &&
         Abs(r.feetTo[k].y - Targets(bug.pos, to, direction)[k].y) <= 0.2)
  {
    forall k | 0 <= k < 6 {
      ReplantedRule(bug.feetTo, Targets(bug.pos, to, direction), jitter, m, k);
    }
  }

  /**
   * After a step the bug is inside a non-negative arena and not below the
   * ground; it keeps its loop and its size; its heading moved by less than
   * 0.14; and each foot either stayed planted (target within one unit) or
   * was re-planted within 0.2 of its new target.
   */
  lemma StepBugRules(b: Bug, loop: BugLoop, w: real, h: real, m: MathLib, d: BugDraws)
    requires w >= 0.0 && h >= 0.0 && DrawsInRange(d)
    ensures var r := StepBug(b, loop, w, h, m, d);
      && 0.0 <= r.pos.x <= w && 0.0 <= r.pos.y <= h && r.pos.z >= 1.0
      && r.loopNumber == b.loopNumber && r.scale == b.scale
      && Abs(r.orientation - b.orientation) < TurnInfluence
    ensures var r := StepBug(b, loop, w, h, m, d);
      forall k :: 0 <= k < 6 ==>
        r.feetTo[k] == b.feetTo[k] ||
        (Abs(r.feetTo[k].x - Target(b, loop, w, h, m, d, k).x) <= 0.2 &&
         Abs(r.feetTo[k].y - Target(b, loop, w, h, m, d, k).y) <= 0.2)
  {
    var body := Body(b, loop, w, h, m, d);
    var direction := Heading(m, b.orientation);
    BodyRules(b, loop, w, h, m, d);
    LegsRule(body, Front(body.pos, direction, b.scale), direction, m, d.jitter);
  }

  /** The target of leg k for the step `StepBug(b, loop, w, h, m, d)` computes. */
  function Target(b: Bug, loop: BugLoop, w: real, h: real, m: MathLib, d: BugDraws, k: nat): Vec3
    requires k < 6
  {
    var body := Body(b, loop, w, h, m, d);
    var direction := Heading(m, b.orientation);
    Targets(body.pos, Front(body.pos, direction, b.scale), direction)[k]
  }
}
