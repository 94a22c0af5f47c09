/**
 * The `World` of bug.h and the operations of bug.c that update it in place:
 * the grouping rebuild, membership change, construction of loops and bugs,
 * the per-frame loop and bug updates, and the collision pass. Bug pointers
 * are bug indices; `loopBugPointers` holds them.
 */
module Simulation {
  import opened Geometry
  import opened Entities
  import opened Grouping
  import opened Behaviour
  import opened Conversion
  import Memory

  /** The byte sizes of the records the arena hands out room for. */
  datatype Sizes = Sizes(bug: nat, loop: nat, pointer: nat)

  /** The three unit draws `AddLoop` makes: x, y and speed factor. */
  datatype LoopDraws = LoopDraws(x: real, y: real, speed: real)

  /**
   * A loop as `AddLoop` creates it: at a drawn point of the arena floor,
   * radius 20, a speed factor drawn from [0.8, 1.0], no members yet, and a
   * fresh arena block for its view.
   */
  function NewLoop(w: real, h: real, d: LoopDraws, addr: nat): (r: BugLoop)
    ensures r.radius == 20.0 && r.nBugs == 0 && r.bugs == ArenaBlock(addr) && r.pos.z == 0.0
    ensures IsUnit(d.x) && IsUnit(d.y) && w >= 0.0 && h >= 0.0 ==> 0.0 <= r.pos.x <= w && 0.0 <= r.pos.y <= h
    ensures IsUnit(d.speed) ==> 0.8 <= r.speedFactor < 1.0
  {
    BugLoop(Vec3(RandomFloat(0.0, w, d.x), RandomFloat(0.0, h, d.y), 0.0), 20.0, RandomFloat(0.8, 1.0, d.speed), 0, ArenaBlock(addr))
  }

  /**
   * A bug as `AddBug` initialises it: scale 1, hopping (zVel 1) at height 1
   * above its loop's centre; the fields `AddBug` does not set keep what the
   * slot held.
   */
  function Hatched(b: Bug, loop: BugLoop, l: int): (r: Bug)
    ensures r.scale == 1.0 && r.zVel == 1.0 && r.loopNumber == l
    ensures r.pos.x == loop.pos.x && r.pos.y == loop.pos.y && r.pos.z == 1.0
    ensures r.orientation == b.orientation && r.feetFrom == b.feetFrom && r.feetTo == b.feetTo
  {
    b.(scale := 1.0, pos := Vec3(loop.pos.x, loop.pos.y, 1.0), zVel := 1.0, loopNumber := l)
  }

  /** The mean position of loop l's members (the origin for an empty loop, whose mean is never used). */
  function Center(bs: seq<Bug>, ls: seq<int>, l: int): Vec3
    requires |ls| == |bs|
  {
    MembersOfLoop(ls, l);
    if Count(ls, l) > 0 then BugCenter(bs, Members(ls, l)) else Vec3(0.0, 0.0, 0.0)
  }

  function Centers(bs: seq<Bug>, ls: seq<int>, n: nat): (r: seq<Vec3>)
    requires |ls| == |bs|
    ensures |r| == n
  {
    seq(n, l requires 0 <= l < n => Center(bs, ls, l))
  }

  /** Every bug after its step for the frame, each against its own loop. */
  function Stepped(bs: seq<Bug>, loops: seq<BugLoop>, w: real, h: real, m: MathLib, draws: nat -> BugDraws): (r: seq<Bug>)
    requires InRange(LoopNumbers(bs), |loops|)
    ensures |r| == |bs|
  {
    seq(|bs|, i requires 0 <= i < |bs| => StepBug(bs[i], loops[LoopNumbers(bs)[i]], w, h, m, draws(i)))
  }

  /** Stepping keeps every bug in its loop. */
  lemma SteppedKeepsLoops(bs: seq<Bug>, loops: seq<BugLoop>, w: real, h: real, m: MathLib, draws: nat -> BugDraws)
    requires InRange(LoopNumbers(bs), |loops|)
    ensures LoopNumbers(Stepped(bs, loops, w, h, m, draws)) == LoopNumbers(bs)
  {
    var r := Stepped(bs, loops, w, h, m, draws);
    forall i | 0 <= i < |bs|
      ensures r[i].loopNumber == bs[i].loopNumber
    {
      StepBugKeepsLoop(bs[i], loops[LoopNumbers(bs)[i]], w, h, m, draws(i));
    }
  }

  /** Gravity, the move along the heading, and the ground bounce, in the source's statement order. */
  method MoveAndBounce(pos: Vec3, zVel: real, c: real, s: real, speed: real) returns (pos': Vec3, zVel': real)
    ensures var moved := Add(pos, Vec3(c * speed, s * speed, 0.0));
      pos' == moved.(z := Bounce(moved.z, zVel).0) && zVel' == Bounce(moved.z, zVel).1
  {
    zVel' := zVel - 0.05;
    pos' := Add(pos, Vec3(c * speed, s * speed, 0.0));
    pos' := pos'.(z := pos'.z + zVel');
    if pos'.z < 1.0 {
      pos' := pos'.(z := 1.0);
      zVel' := zVel' * -0.8;
    }
  }

  /** The heading drift: which way the bug turns depends on the loop's side and on being in or out. */
  method Drift(orientation: real, loopDiff: Vec3, distToLoop: real, c: real, s: real, turn: real) returns (o: real)
    ensures o == Steer(orientation, loopDiff, distToLoop, c, s, turn)
  {
    var perpDot := -loopDiff.x * s + loopDiff.y * c;
    if perpDot > 0.0 {
      if distToLoop > 0.0 {
        o := orientation + turn;
      } else {
        o := orientation - turn;
      }
    } else {
      if distToLoop > 0.0 {
        o := orientation - turn;
      } else {
        o := orientation + turn;
      }
    }
  }

  /** The four boundary tests, in the source's order. */
  method Bound(p: Vec3, w: real, h: real) returns (q: Vec3)
    ensures q == Clamp(p, w, h)
  {
    q := p;
    if q.x < 0.0 {
      q := q.(x := 0.0);
    }
    if q.y < 0.0 {
      q := q.(y := 0.0);
    }
    if q.x > w {
      q := q.(x := w);
    }
    if q.y > h {
      q := q.(y := h);
    }
  }

  /**
   * The feet-pair loop of `UpdateAndRenderBugs`: each pair's body anchor
   * and the two foot targets beside a point a little ahead of it.
   */
  method PlaceLegs(from: Vec3, to: Vec3, direction: Vec3) returns (feetFrom: Feet, feet: Feet)
    ensures feetFrom == Anchors(from, to)
    ensures feet == Targets(from, to, direction)
  {
    var groundFrom := from.(z := 0.0);
    var groundTo := to.(z := 0.0);
    feetFrom := seq(6, _ => from);
    feet := seq(6, _ => from);
    var pair := 0;
    while pair < 3
      invariant 0 <= pair <= 3
      invariant forall k :: 0 <= k < 2 * pair ==> feetFrom[k] == FootAnchor(from, to, k)
      invariant forall k :: 0 <= k < 2 * pair ==> feet[k] == FootTarget(from, to, direction, k)
    {
      var bodyPos := Lerp(from, to, 0.5 * pair as real);
      feetFrom := feetFrom[2 * pair := bodyPos][2 * pair + 1 := bodyPos];
      var center := Lerp(groundFrom, groundTo, 0.5 * pair as real + 0.5).(z := bodyPos.z - 1.0);
      var pairFeet := FeetPair(center, direction);
      feet := feet[2 * pair := pairFeet.0][2 * pair + 1 := pairFeet.1];
      FootPair(from, to, direction, pair);
      pair := pair + 1;
    }
    assert forall k :: 0 <= k < 6 ==> feetFrom[k] == Anchors(from, to)[k];
    assert forall k :: 0 <= k < 6 ==> feet[k] == Targets(from, to, direction)[k];
  }

  /** The foot loop of `UpdateAndRenderBugs`: re-plant every foot whose target moved too far. */
  method ReplantFeet(planted: Feet, feet: Feet, jitter: Jitter, m: MathLib) returns (feetTo: Feet)
    ensures feetTo == Replanted(planted, feet, jitter, m)
  {
    feetTo := planted;
    var foot := 0;
    while foot < 6
      invariant 0 <= foot <= 6
      invariant forall k :: 0 <= k < foot ==> feetTo[k] == Replant(planted[k], feet[k], jitter[k], m)
      invariant forall k :: foot <= k < 6 ==> feetTo[k] == planted[k]
    {
      var newFootPos := feet[foot];
      var diff := m.length(Sub(newFootPos, feetTo[foot]));
      if diff > StepThreshold {
        feetTo := feetTo[foot := Vec3(newFootPos.x + RandomFloat(-0.2, 0.2, jitter[foot].0),
                                      newFootPos.y + RandomFloat(-0.2, 0.2, jitter[foot].1),
                                      newFootPos.z)];
      }
      foot := foot + 1;
    }
    assert forall k :: 0 <= k < 6 ==> feetTo[k] == Replanted(planted, feet, jitter, m)[k];
  }

  /**
   * The movement part of the per-bug body of `UpdateAndRenderBugs`: speed,
   * gravity and bounce, heading drift and the four boundary tests, for bug
   * b of loop `loop` in a w x h arena.
   */
  method MoveBug(b: Bug, loop: BugLoop, w: real, h: real, m: MathLib, d: BugDraws) returns (bug: Bug)
    ensures bug == Body(b, loop, w, h, m, d)
  {
    var speed := 0.6 * RandomFloat(0.0, 1.0, d.speed);
    var loopDiff := Sub(b.pos, loop.pos);
    var distToLoop := m.length(loopDiff) - loop.radius;
    var absDistToLoop := if distToLoop < 0.0 then -distToLoop else distToLoop;
    if absDistToLoop > 10.0 {
      speed := speed * 2.0;
    }
    assert speed == BugSpeed(d.speed, distToLoop);
    var c := m.sin(b.orientation);
    var s := m.cos(b.orientation);
    var pos, zVel := MoveAndBounce(b.pos, b.zVel, c, s, speed);
    var orientation := Drift(b.orientation, loopDiff, distToLoop, c, s, RandomFloat(0.0, TurnInfluence, d.turn));
    pos := Bound(pos, w, h);
    bug := b.(orientation := orientation, pos := pos, zVel := zVel);
  }

  /** The leg part: both leg loops for a moved bug whose body runs from its position to `to`. */
  method MoveLegs(bug: Bug, to: Vec3, direction: Vec3, m: MathLib, jitter: Jitter) returns (bug': Bug)
    ensures bug' == Legs(bug, to, direction, m, jitter)
  {
    var feetFrom, feet := PlaceLegs(bug.pos, to, direction);
    var feetTo := ReplantFeet(bug.feetTo, feet, jitter, m);
    bug' := bug.(feetFrom := feetFrom, feetTo := feetTo);
  }

  /** Loop k emptied, with its view at the start of its slice. */
  function LaidOut(loop: BugLoop, ls: seq<int>, k: nat): (r: BugLoop)
    ensures r.nBugs == 0 && r.bugs == Shared(Offset(ls, k))
  {
    loop.(nBugs := 0, bugs := Shared(Offset(ls, k)))
  }

  class World {
    var width: real
    var height: real
    var aiSpeed: real
    var nBugs: nat
    var maxBugs: nat
    var bugs: array<Bug>
    var isLoopDistributionDirty: bool
    var nLoops: nat
    var maxLoops: nat
    var loops: array<BugLoop>
    var loopBugPointers: array<int>

    /** The arrays have the world's capacities. */
    predicate Layout()
      reads this`bugs, this`loops, this`loopBugPointers, this`maxBugs, this`maxLoops
    {
      bugs.Length == maxBugs && loops.Length == maxLoops && loopBugPointers.Length == maxBugs
    }

    predicate Shape()
      reads this`bugs, this`loops, this`loopBugPointers, this`maxBugs, this`maxLoops, this`nBugs, this`nLoops
    {
      Layout() && nBugs <= maxBugs && nLoops <= maxLoops
    }

    /** The loop number of every live bug. */
    function LoopNumbersNow(): seq<int>
      reads this, bugs
      requires nBugs <= bugs.Length
    {
      LoopNumbers(bugs[..nBugs])
    }

    /**
     * Every live bug belongs to a live loop, and every live loop's view can
     * be walked and lists live bugs.
     */
    predicate Sound()
      reads this, bugs, loops, loopBugPointers
    {
      && Shape()
      && InRange(LoopNumbersNow(), nLoops)
      && ViewsSound(nBugs, loops[..nLoops], loopBugPointers[..])
    }

    /** The loops' counts and views agree with the bugs' loop numbers. */
    predicate IndexCurrent()
      reads this, bugs, loops, loopBugPointers
      requires Shape()
    {
      IndexMatches(LoopNumbersNow(), loops[..nLoops], loopBugPointers[..])
    }

    /** The dirty-flag protocol: a clear flag means the index is current. */
    predicate Valid()
      reads this, bugs, loops, loopBugPointers
    {
      Sound() && (!isLoopDistributionDirty ==> IndexCurrent())
    }

    /**
     * `SortBugsIntoLoops`: count each loop's bugs, lay the loops' slices out
     * back to back in `loopBugPointers`, then append every bug to its loop's
     * slice in index order. Afterwards the index is current; only the live
     * loops' counts and views and the first `nBugs` pointer slots change.
     */
    method SortBugsIntoLoops()
      requires Shape() && InRange(LoopNumbersNow(), nLoops)
      modifies loops, loopBugPointers
      ensures IndexCurrent()
      ensures loops[..nLoops] == Regrouped(old(loops[..nLoops]), LoopNumbersNow())
      ensures loops[nLoops..] == old(loops[nLoops..])
      ensures loopBugPointers[nBugs..] == old(loopBugPointers[nBugs..])
    {
      ghost var ls := LoopNumbersNow();
      var counts := CountBugsPerLoop();
      LayOutSlices(counts, ls);
      FillSlices(ls, loops[..nLoops]);
      assert ls[..|ls|] == ls;
      FilledIsIndex(ls, loops[..nLoops], loopBugPointers[..]);
      assert loops[..nLoops] == Regrouped(old(loops[..nLoops]), ls);
    }

    /** The first pass of the rebuild: how many live bugs each live loop has. */
    method CountBugsPerLoop() returns (counts: array<nat>)
      requires Shape() && InRange(LoopNumbersNow(), nLoops)
      ensures fresh(counts) && counts.Length == nLoops
      ensures forall l :: 0 <= l < nLoops ==> counts[l] == Count(LoopNumbersNow(), l)
    {
      ghost var ls := LoopNumbersNow();
      counts := new nat[nLoops](_ => 0);
      var b := 0;
      while b < nBugs
        modifies counts
        invariant 0 <= b <= nBugs
        invariant forall l :: 0 <= l < nLoops ==> counts[l] == Count(ls[..b], l)
      {
        var l := bugs[b].loopNumber;
        assert l == ls[b];
        assert ls[..b + 1] == ls[..b] + [l];
        forall l' | 0 <= l' < nLoops
          ensures Count(ls[..b + 1], l') == Count(ls[..b], l') + (if l == l' then 1 else 0)
        {
          CountSnoc(ls[..b], l, l');
        }
        counts[l] := counts[l] + 1;
        b := b + 1;
      }
      assert ls[..nBugs] == ls;
    }

    /** The second pass: empty every live loop and start its view at the summed counts before it. */
    method LayOutSlices(counts: array<nat>, ghost ls: seq<int>)
      requires Shape() && counts.Length == nLoops && ls == LoopNumbersNow()
      requires forall l :: 0 <= l < nLoops ==> counts[l] == Count(ls, l)
      modifies loops
      ensures forall k :: 0 <= k < nLoops ==> loops[k] == LaidOut(old(loops[k]), ls, k)
      ensures forall k :: nLoops <= k < loops.Length ==> loops[k] == old(loops[k])
    {
      var cumulative := 0;
      var l := 0;
      while l < nLoops
        invariant 0 <= l <= nLoops
        invariant cumulative == Offset(ls, l)
        invariant forall k :: 0 <= k < l ==> loops[k] == LaidOut(old(loops[k]), ls, k)
        invariant forall k :: l <= k < loops.Length ==> loops[k] == old(loops[k])
      {
        loops[l] := loops[l].(nBugs := 0, bugs := Shared(cumulative));
        cumulative := cumulative + counts[l];
        l := l + 1;
      }
    }

    /** The third pass: append each live bug, in index order, to its loop's view. */
    method FillSlices(ghost ls: seq<int>, ghost start: seq<BugLoop>)
      requires Shape() && ls == LoopNumbersNow() && InRange(ls, nLoops) && start == loops[..nLoops]
      requires forall k :: 0 <= k < nLoops ==> start[k].nBugs == 0 && start[k].bugs == Shared(Offset(ls, k))
      modifies loops, loopBugPointers
      ensures Filling(ls, start, |ls|)
      ensures forall k :: nLoops <= k < loops.Length ==> loops[k] == old(loops[k])
      ensures loopBugPointers[nBugs..] == old(loopBugPointers[nBugs..])
    {
      var b := 0;
      NothingFilled(ls, nLoops, loopBugPointers[..]);
      assert ls[..0] == [];
      while b < nBugs
        invariant 0 <= b <= nBugs
        invariant Filling(ls, start, b)
        invariant forall k :: nLoops <= k < loops.Length ==> loops[k] == old(loops[k])
        invariant loopBugPointers[nBugs..] == old(loopBugPointers[nBugs..])
      {
        AppendBug(b, ls, start);
        b := b + 1;
      }
    }

    /** The live loops are `start` with the counts of the first b bugs, and those b bugs are in their slices. */
    ghost predicate Filling(ls: seq<int>, start: seq<BugLoop>, b: nat)
      reads this, loops, loopBugPointers
      requires b <= |ls| && nLoops <= loops.Length
    {
      && |start| == nLoops
      && (forall k :: 0 <= k < nLoops ==> loops[k] == start[k].(nBugs := Count(ls[..b], k)))
      && SlicesFilled(ls, ls[..b], nLoops, loopBugPointers[..])
    }

    /** One iteration of the third pass: bug b goes into the next free slot of its loop's slice. */
    method AppendBug(b: nat, ghost ls: seq<int>, ghost start: seq<BugLoop>)
      requires Shape() && ls == LoopNumbersNow() && InRange(ls, nLoops) && b < nBugs
      requires |start| == nLoops && forall k :: 0 <= k < nLoops ==> start[k].bugs == Shared(Offset(ls, k))
      requires Filling(ls, start, b)
      modifies loops, loopBugPointers
      ensures Filling(ls, start, b + 1)
      ensures forall k :: nLoops <= k < loops.Length ==> loops[k] == old(loops[k])
      ensures loopBugPointers[nBugs..] == old(loopBugPointers[nBugs..])
    {
      var l := bugs[b].loopNumber;
      assert l == ls[b];
      var loop := loops[l];
      ghost var before := loopBugPointers[..];
      FillStep(ls, b, nLoops, before);
      loopBugPointers[loop.bugs.start + loop.nBugs] := b;
      assert loopBugPointers[..] == before[Offset(ls, l) + Count(ls[..b], l) := b];
      loops[l] := loop.(nBugs := loop.nBugs + 1);
      assert ls[..b + 1] == ls[..b] + [l];
      forall l' | 0 <= l' < nLoops
        ensures Count(ls[..b + 1], l') == Count(ls[..b], l') + (if l == l' then 1 else 0)
      {
        CountSnoc(ls[..b], l, l');
      }
    }

    /**
     * `MoveBugToLoop`: bug i joins loop l, hops and grows; the distribution
     * is marked dirty. Nothing else changes, and the world stays valid when
     * the bug is live and the loop exists.
     */
    method MoveBugToLoop(i: nat, l: int)
      requires i < bugs.Length
      modifies bugs, this`isLoopDistributionDirty
      ensures bugs[..] == old(bugs[..])[i := Moved(old(bugs[i]), l)]
      ensures isLoopDistributionDirty
      ensures old(Sound()) && i < nBugs && 0 <= l < nLoops ==> Valid()
    {
      bugs[i] := Moved(bugs[i], l);
      isLoopDistributionDirty := true;
    }

    /**
     * `AddLoop`: claim the next loop slot, check it is within `maxLoops`,
     * then take the loop's view block from the arena (whose own check can
     * fail too). `ok` is false exactly when one of the two asserts fires.
     */
    method AddLoop(arena: Memory.MemoryArena, sizes: Sizes, d: LoopDraws) returns (ok: bool, idx: nat)
      requires Layout()
      modifies this`nLoops, loops, arena`used
      ensures nLoops == old(nLoops) + 1 && idx == old(nLoops)
      ensures arena.size == old(arena.size)
      ensures arena.used == old(arena.used) + (if nLoops <= maxLoops then sizes.pointer * maxBugs else 0)
      ensures ok <==> nLoops <= maxLoops && arena.used < arena.size
      ensures ok ==> loops[..] == old(loops[..])[idx := NewLoop(width, height, d, old(arena.used))]
      ensures !ok ==> loops[..] == old(loops[..])
      ensures ok && old(Sound()) ==> Sound()
    {
      idx := nLoops;
      nLoops := nLoops + 1;
      if nLoops > maxLoops {
        return false, idx;
      }
      var pushed, addr := arena.PushArray(sizes.pointer, maxBugs);
      if !pushed {
        return false, idx;
      }
      loops[idx] := NewLoop(width, height, d, addr);
      ok := true;
      if old(Sound()) {
        assert loops[..nLoops] == old(loops[..])[..idx] + [loops[idx]];
        forall k | 0 <= k < nLoops
          ensures ViewSound(nBugs, loops[..nLoops][k], loopBugPointers[..])
        {
          if k < idx {
            assert old(ViewSound(nBugs, loops[..nLoops][k], loopBugPointers[..]));
          }
        }
      }
    }

    /**
     * `AddBug`: claim the next bug slot and check it is within `maxBugs`;
     * the new bug belongs to loop l and starts at its centre.
     */
    method AddBug(l: int) returns (ok: bool, idx: nat)
      requires Layout() && 0 <= l < nLoops <= maxLoops
      modifies this`nBugs, bugs
      ensures nBugs == old(nBugs) + 1 && idx == old(nBugs)
      ensures ok <==> nBugs <= maxBugs
      ensures ok ==> bugs[..] == old(bugs[..])[idx := Hatched(old(bugs[..])[idx], loops[l], l)]
      ensures !ok ==> bugs[..] == old(bugs[..])
      ensures ok && old(Sound()) ==> Sound()
    {
      idx := nBugs;
      nBugs := nBugs + 1;
      if nBugs > maxBugs {
        return false, idx;
      }
      bugs[idx] := Hatched(bugs[idx], loops[l], l);
      ok := true;
      if old(Sound()) {
        assert bugs[..nBugs] == old(bugs[..])[..idx] + [bugs[idx]];
        ViewsSoundGrow(idx, nBugs, loops[..nLoops], loopBugPointers[..]);
      }
    }

    /**
     * The rival scan of `UpdateAndRenderLoops` for loop `self` standing at
     * `from`: the first strictly nearest other loop that has bugs.
     */
    method FindNearestRival(self: nat, from: Vec3, m: MathLib) returns (rival: Rival)
      requires Shape()
      ensures rival == NearestRival(loops[..nLoops], self, from, m)
    {
      ghost var all := loops[..nLoops];
      rival := Rival(None, NoRivalDistance, Vec3(0.0, 0.0, 0.0));
      var e := 0;
      while e < nLoops
        invariant 0 <= e <= nLoops
        invariant ScanRivals(all, self, from, m, e, rival) == NearestRival(all, self, from, m)
      {
        if e != self {
          var enemy := loops[e];
          if enemy.nBugs > 0 {
            var diff := Sub(enemy.pos, from);
            var dist := m.length(diff);
            if dist < rival.minDist {
              rival := Rival(Some(e), dist, diff);
            }
          }
        }
        e := e + 1;
      }
    }

    /** Seek or flee for loop `self` against the scan's result. */
    method ChaseRival(self: nat, rival: Rival, m: MathLib) returns (pos: Vec3)
      requires Shape() && self < nLoops
      requires rival.enemy.Some? ==> rival.enemy.value < nLoops
      ensures pos == Chase(loops[self].pos, loops[self].radius, loops[self].nBugs, rival,
        if rival.enemy.Some? then loops[rival.enemy.value].nBugs else 0, aiSpeed * loops[self].speedFactor, m)
    {
      var loop := loops[self];
      var speed := aiSpeed * loop.speedFactor;
      var rivalBugs := if rival.enemy.Some? then loops[rival.enemy.value].nBugs else 0;
      pos := loop.pos;
      if rival.enemy.Some? && rival.minDist > loop.radius / 2.0 {
        var step := Scale(m.norm(rival.diff), speed);
        if rivalBugs < loop.nBugs {
          pos := Add(pos, step);
        } else {
          pos := Sub(pos, step);
        }
      }
    }

    /** The edge scan and push of `UpdateAndRenderLoops` for a loop at p. */
    method PushOffEdge(p: Vec3) returns (pos: Vec3)
      ensures pos == EdgePush(p, width, height)
    {
      ghost var edge := NoEdge;
      var x0 := p.x;
      var x1 := width - p.x;
      var y0 := p.y;
      var y1 := height - p.y;
      var min := 1000000.0;
      var xDir, yDir := 0, 0;
      if x0 < min { min, xDir, yDir := x0, 1, 0; edge := Left; }
      if x1 < min { min, xDir, yDir := x1, -1, 0; edge := Right; }
      if y0 < min { min, xDir, yDir := y0, 0, 1; edge := Bottom; }
      if y1 < min { min, xDir, yDir := y1, 0, -1; edge := Top; }
      assert edge == NearestEdge(p, width, height);
      assert min == EdgeDistance(p, width, height, edge) && (xDir, yDir) == AwayFrom(edge);
      pos := p;
      if min < 100.0 {
        var e := (100.0 - min) * 2.0 / 100.0;
        pos := Add(p, Vec3(xDir as real * e, yDir as real * e, 0.0));
      }
    }

    /** The first half of the update of loop l: its settled record, the centre read through its view. */
    method SettledLoop(l: nat, m: MathLib) returns (settled: BugLoop)
      requires Shape() && l < nLoops && IndexCurrent()
      ensures settled == Settle(loops[l], Center(bugs[..nBugs], LoopNumbersNow(), l), m)
    {
      ghost var ls := LoopNumbersNow();
      assert LoopMatches(ls, l, loops[..nLoops][l], loopBugPointers[..]);
      MembersOfLoop(ls, l);
      var loop := loops[l];
      settled := loop.(radius := 1.0);
      if loop.nBugs > 0 {
        var view := loopBugPointers[loop.bugs.start .. loop.bugs.start + loop.nBugs];
        assert view == Members(ls, l);
        var center := BugCenter(bugs[..nBugs], view);
        settled := loop.(radius := 2.0 * m.sqrt(loop.nBugs as real), pos := Lerp(center, loop.pos, 0.95));
      }
    }

    /** The second half for an AI loop l, once settled: scan, chase or flee, then push off the edge. */
    method SteerLoop(l: nat, m: MathLib) returns (pos: Vec3)
      requires Shape() && l < nLoops
      ensures pos == Steered(loops[..nLoops], l, width, height, aiSpeed, m)
    {
      ghost var all := loops[..nLoops];
      ghost var me := all[l];
      var rival := FindNearestRival(l, loops[l].pos, m);
      NearestRivalEligible(all, l, me.pos, m);
      assert rival == NearestRival(all, l, me.pos, m);
      ghost var rivalBugs := if rival.enemy.Some? && rival.enemy.value < |all| then all[rival.enemy.value].nBugs else 0;
      pos := ChaseRival(l, rival, m);
      assert pos == Chase(me.pos, me.radius, me.nBugs, rival, rivalBugs, aiSpeed * me.speedFactor, m);
      ghost var chased := pos;
      SteeredFrom(all, l, width, height, aiSpeed, m, rival, chased);
      pos := PushOffEdge(pos);
    }

    /**
     * One iteration of the loop update for loop l: settle on the members
     * read through the view, then (except for loop 0) chase or flee and
     * push off the edge. The index stays current.
     */
    method UpdateLoop(l: nat, m: MathLib)
      requires Shape() && l < nLoops && IndexCurrent()
      modifies loops
      ensures loops[..nLoops] == old(loops[..nLoops])[l := LoopStep(old(loops[..nLoops]), l,
        Center(bugs[..nBugs], LoopNumbersNow(), l), width, height, aiSpeed, m)]
      ensures loops[nLoops..] == old(loops[nLoops..])
      ensures IndexCurrent()
    {
      ghost var ls := LoopNumbersNow();
      ghost var prev := loops[..nLoops];
      ghost var center := Center(bugs[..nBugs], ls, l);
      var settled := SettledLoop(l, m);
      loops[l] := settled;
      assert loops[..nLoops] == prev[l := settled];
      if l != 0 {
        SteerSettled(l, m, prev, center);
      } else {
        assert LoopStep(prev, l, center, width, height, aiSpeed, m) == settled;
      }
      IndexKept(ls, prev, loops[..nLoops], loopBugPointers[..]);
    }

    /** The AI half of the update of loop l, once its settled record is in place. */
    method SteerSettled(l: nat, m: MathLib, ghost prev: seq<BugLoop>, ghost center: Vec3)
      requires Shape() && 0 < l < nLoops && |prev| == nLoops
      requires loops[..nLoops] == prev[l := Settle(prev[l], center, m)]
      modifies loops
      ensures loops[..nLoops] == prev[l := LoopStep(prev, l, center, width, height, aiSpeed, m)]
      ensures loops[nLoops..] == old(loops[nLoops..])
    {
      var settled := loops[l];
      var pos := SteerLoop(l, m);
      loops[l] := settled.(pos := pos);
      assert loops[..nLoops] == old(loops[..nLoops])[l := settled.(pos := pos)];
    }

    /**
     * The rebuild step of `UpdateAndRenderLoops`: rebuild the index if and
     * only if the flag is set, clearing it. Either way the live loops are
     * then the regrouped ones and the index is current.
     */
    method RegroupIfDirty()
      requires Valid()
      modifies loops, loopBugPointers, this`isLoopDistributionDirty
      ensures Sound() && IndexCurrent() && !isLoopDistributionDirty
      ensures loops[..nLoops] == Regrouped(old(loops[..nLoops]), LoopNumbersNow())
      ensures loops[nLoops..] == old(loops[nLoops..])
      ensures loopBugPointers[nBugs..] == old(loopBugPointers[nBugs..])
      ensures !old(isLoopDistributionDirty) ==> loopBugPointers[..] == old(loopBugPointers[..])
    {
      if isLoopDistributionDirty {
        isLoopDistributionDirty := false;
        SortBugsIntoLoops();
      } else {
        CurrentIsRegrouped(LoopNumbersNow(), loops[..nLoops], loopBugPointers[..]);
      }
      IndexSound(LoopNumbersNow(), loops[..nLoops], loopBugPointers[..]);
    }

    /** Iteration l of the update loop, stated against the loops after the first l iterations. */
    method UpdateNextLoop(l: nat, m: MathLib, ghost start: seq<BugLoop>, ghost centers: seq<Vec3>, ghost tail: seq<BugLoop>,
                          ghost after: nat -> seq<BugLoop>)
      requires AfterIs(after, start, centers, width, height, aiSpeed, m)
      requires l < nLoops && Updating(l, m, start, centers, tail, after)
      modifies loops
      ensures Updating(l + 1, m, start, centers, tail, after)
    {
      ghost var prev := loops[..nLoops];
      AfterStep(after, start, centers, width, height, aiSpeed, m, l);
      AfterKeepsIndex(after, start, centers, width, height, aiSpeed, m, l, LoopNumbersNow(), loopBugPointers[..]);
      assert prev == after(l);
      assert centers[l] == Center(bugs[..nBugs], LoopNumbersNow(), l);
      UpdateLoop(l, m);
      assert loops[..nLoops] == after(l + 1);
      assert loops[..] == after(l + 1) + tail;
    }

    /** The update loop after l iterations, with `after` standing for `LoopsAfter` from `start`. */
    ghost predicate Updating(l: nat, m: MathLib, start: seq<BugLoop>, centers: seq<Vec3>, tail: seq<BugLoop>, after: nat -> seq<BugLoop>)
      reads this, bugs, loops, loopBugPointers
    {
      && Shape() && l <= nLoops
      && IndexMatches(LoopNumbersNow(), start, loopBugPointers[..])
      && |start| == nLoops && centers == Centers(bugs[..nBugs], LoopNumbersNow(), nLoops)
      && loops[..] == after(l) + tail
    }

    /** The loop itself: iterations 0 .. nLoops-1, each against the loops the one before left. */
    method UpdateLoopsInOrder(m: MathLib, ghost start: seq<BugLoop>, ghost centers: seq<Vec3>, ghost tail: seq<BugLoop>,
                              ghost after: nat -> seq<BugLoop>)
      requires AfterIs(after, start, centers, width, height, aiSpeed, m)
      requires Updating(0, m, start, centers, tail, after)
      modifies loops
      ensures Updating(nLoops, m, start, centers, tail, after)
    {
      var l := 0;
      while l < nLoops
        invariant Updating(l, m, start, centers, tail, after)
      {
        UpdateNextLoop(l, m, start, centers, tail, after);
        l := l + 1;
      }
    }

    /** `after` agrees with `LoopsAfter` from `start` wherever the latter is defined. */
    static ghost predicate AfterIs(after: nat -> seq<BugLoop>, start: seq<BugLoop>, centers: seq<Vec3>, w: real, h: real, aiSpeed: real, m: MathLib) {
      && |centers| == |start|
      && forall k: nat {:trigger LoopsAfter(start, centers, w, h, aiSpeed, m, k)} :: k <= |start| ==> after(k) == LoopsAfter(start, centers, w, h, aiSpeed, m, k)
    }

    /** One iteration of the update loop, in terms of `after`. */
    static lemma AfterStep(after: nat -> seq<BugLoop>, start: seq<BugLoop>, centers: seq<Vec3>, w: real, h: real, aiSpeed: real, m: MathLib, l: nat)
      requires AfterIs(after, start, centers, w, h, aiSpeed, m) && l < |start|
      ensures |after(l)| == |start|
      ensures after(l + 1) == after(l)[l := LoopStep(after(l), l, centers[l], w, h, aiSpeed, m)]
    {
      assert after(l) == LoopsAfter(start, centers, w, h, aiSpeed, m, l);
      assert after(l + 1) == LoopsAfter(start, centers, w, h, aiSpeed, m, l + 1);
    }

    /** The update loop keeps every count and view, so the index stays valid throughout. */
    static lemma AfterKeepsIndex(after: nat -> seq<BugLoop>, start: seq<BugLoop>, centers: seq<Vec3>, w: real, h: real, aiSpeed: real, m: MathLib,
                                 l: nat, ls: seq<int>, ptrs: seq<int>)
      requires AfterIs(after, start, centers, w, h, aiSpeed, m) && l <= |start| && IndexMatches(ls, start, ptrs)
      ensures IndexMatches(ls, after(l), ptrs)
    {
      assert after(l) == LoopsAfter(start, centers, w, h, aiSpeed, m, l);
      LoopsAfterRules(start, centers, w, h, aiSpeed, m, l);
      IndexKept(ls, start, after(l), ptrs);
    }

    /** The update loop of `UpdateAndRenderLoops`: every live loop in index order. */
    method UpdateAllLoops(m: MathLib)
      requires Shape() && IndexCurrent()
      modifies loops
      ensures IndexCurrent()
      ensures loops[..] == LoopsAfter(old(loops[..nLoops]),
        Centers(bugs[..nBugs], LoopNumbersNow(), nLoops), width, height, aiSpeed, m, nLoops) + old(loops[nLoops..])
    {
      ghost var start := loops[..nLoops];
      ghost var tail := loops[nLoops..];
      ghost var centers := Centers(bugs[..nBugs], LoopNumbersNow(), nLoops);
      ghost var w, h, speed := width, height, aiSpeed;
      ghost var after := (k: nat) => if k <= |start| && |centers| == |start| then LoopsAfter(start, centers, w, h, speed, m, k) else start;
      assert AfterIs(after, start, centers, width, height, aiSpeed, m);
      assert LoopsAfter(start, centers, w, h, speed, m, 0) == start;
      assert loops[..] == start + tail;
      UpdateLoopsInOrder(m, start, centers, tail, after);
      assert loops[..nLoops] == LoopsAfter(start, centers, width, height, aiSpeed, m, nLoops);
      LoopsAfterRules(start, centers, width, height, aiSpeed, m, nLoops);
      IndexKept(LoopNumbersNow(), start, loops[..nLoops], loopBugPointers[..]);
    }

    /**
     * `UpdateAndRenderLoops` without drawing: rebuild the index if the flag
     * is set, then update every live loop in order. Afterwards the world is
     * valid with the flag clear.
     */
    method UpdateAndRenderLoops(m: MathLib)
      requires Valid()
      modifies loops, loopBugPointers, this`isLoopDistributionDirty
      ensures Valid() && !isLoopDistributionDirty
      ensures loops[..nLoops] == LoopsAfter(Regrouped(old(loops[..nLoops]), LoopNumbersNow()),
        Centers(bugs[..nBugs], LoopNumbersNow(), nLoops), width, height, aiSpeed, m, nLoops)
      ensures loops[nLoops..] == old(loops[nLoops..])
      ensures loopBugPointers[nBugs..] == old(loopBugPointers[nBugs..])
      ensures !old(isLoopDistributionDirty) ==> loopBugPointers[..] == old(loopBugPointers[..])
    {
      RegroupIfDirty();
      UpdateAllLoops(m);
      assert loops[..nLoops] == loops[..][..nLoops];
      IndexSound(LoopNumbersNow(), loops[..nLoops], loopBugPointers[..]);
    }

    /** The per-bug step applied in place to bug i, against its own loop; no other bug changes. */
    method StepBugAt(i: nat, m: MathLib, d: BugDraws)
      requires Shape() && i < nBugs && 0 <= bugs[i].loopNumber < nLoops
      modifies bugs
      ensures bugs[..] == old(bugs[..])[i := StepBug(old(bugs[i]), loops[old(bugs[i]).loopNumber], width, height, m, d)]
    {
      var bug := bugs[i];
      var loop := loops[bug.loopNumber];
      var body := MoveBug(bug, loop, width, height, m, d);
      var direction := Heading(m, bug.orientation);
      var stepped := MoveLegs(body, Front(body.pos, direction, bug.scale), direction, m, d.jitter);
      bugs[i] := stepped;
    }

    // ------------------------------------------------------- conversions

    /** The part of the world conversions change: the live bugs and the dirty flag. */
    function State(): Sim
      reads this, bugs
      requires nBugs <= bugs.Length
    {
      Sim(bugs[..nBugs], isLoopDistributionDirty)
    }

    /** The bugs loop l's view lists; each is a live bug. */
    function ListedBy(l: nat): (r: seq<int>)
      reads this, bugs, loops, loopBugPointers
      requires Sound() && l < nLoops
      ensures |r| == loops[l].nBugs && Indices(r, nBugs)
    {
      assert ViewSound(nBugs, loops[..nLoops][l], loopBugPointers[..]);
      Listed(loopBugPointers[..], loops[l])
    }

    /** `loopA->bugs[k]`: the bug the k-th entry of a loop's view points at. */
    method MemberAt(loop: BugLoop, k: nat) returns (p: nat)
      requires ViewSound(nBugs, loop, loopBugPointers[..]) && k < loop.nBugs
      ensures p == Listed(loopBugPointers[..], loop)[k] && p < nBugs
    {
      assert Listed(loopBugPointers[..], loop)[k] == loopBugPointers[loop.bugs.start + k];
      p := loopBugPointers[loop.bugs.start + k];
    }

    /**
     * One (bug0, bug1) step of `CollideLoops`: a pair closer than 2 in the
     * plane converts on a contact draw below 0.1; then bug1 joins bug0's
     * loop when the choice draw is below `probA`, and bug0 joins bug1's
     * otherwise.
     */
    method TouchPair(p: nat, q: nat, roll: Roll, probA: real)
      requires Shape() && p < nBugs && q < nBugs
      modifies bugs, this`isLoopDistributionDirty
      ensures State() == Touch(old(State()), p, q, roll, probA)
      ensures bugs[nBugs..] == old(bugs[nBugs..])
    {
      var bug0 := bugs[p];
      var bug1 := bugs[q];
      var dx := bug1.pos.x - bug0.pos.x;
      var dy := bug1.pos.y - bug0.pos.y;
      var len2 := dx * dx + dy * dy;
      ghost var s0 := State();
      assert len2 == PlanarDist2(s0.bugs[p].pos, s0.bugs[q].pos);
      if len2 < 4.0 {
        if roll.contact < 0.1 {
          if roll.choice < probA {
            MoveBugToLoop(q, bug0.loopNumber);
            assert bugs[..nBugs] == old(bugs[..nBugs])[q := Moved(bug1, bug0.loopNumber)];
          } else {
            MoveBugToLoop(p, bug1.loopNumber);
            assert bugs[..nBugs] == old(bugs[..nBugs])[p := Moved(bug0, bug1.loopNumber)];
          }
        }
      }
    }

    /**
     * `CollideLoops(world, loops[a], loops[b])`: every member of a's view
     * against every member of b's, with the pair (i, j) using the draws
     * `rolls(a, b, i, j)`. The loops and the index are not touched; the
     * world stays sound, and stays valid because any change sets the flag.
     */
    method CollideLoops(a: nat, b: nat, rolls: Rolls)
      requires Sound() && a < nLoops && b < nLoops
      modifies bugs, this`isLoopDistributionDirty
      ensures State() == CollidePair(old(State()), a, b, old(ListedBy(a)), old(ListedBy(b)), rolls)
      ensures bugs[nBugs..] == old(bugs[nBugs..])
      ensures Sound() && (old(Valid()) ==> Valid())
    {
      ghost var s0 := State();
      ghost var A := ListedBy(a);
      ghost var B := ListedBy(b);
      var loopA := loops[a];
      var loopB := loops[b];
      assert ViewSound(nBugs, loops[..nLoops][a], loopBugPointers[..]);
      assert ViewSound(nBugs, loops[..nLoops][b], loopBugPointers[..]);
      var total := loopA.nBugs + loopB.nBugs;
      var probA := if total == 0 then 0.0 else loopA.nBugs as real / total as real;
      assert probA == ProbA(|A|, |B|);
      CollideMembers(a, b, loopA, loopB, rolls, probA);
      CollidePairConserves(s0, a, b, A, B, rolls, nLoops);
      assert loops[..nLoops] == old(loops[..nLoops]);
      assert loopBugPointers[..] == old(loopBugPointers[..]);
      assert InRange(LoopNumbersNow(), nLoops);
      if old(Valid()) && !isLoopDistributionDirty {
        assert bugs[..nBugs] == old(bugs[..nBugs]);
      }
    }

    /** The outer loop of `CollideLoops`: every member of loop a's view against every member of loop b's. */
    method CollideMembers(a: nat, b: nat, loopA: BugLoop, loopB: BugLoop, rolls: Rolls, probA: real)
      requires Shape() && ViewSound(nBugs, loopA, loopBugPointers[..]) && ViewSound(nBugs, loopB, loopBugPointers[..])
      modifies bugs, this`isLoopDistributionDirty
      ensures State() == CollideRows(old(State()), a, b, Listed(loopBugPointers[..], loopA), Listed(loopBugPointers[..], loopB), loopA.nBugs, rolls, probA)
      ensures bugs[nBugs..] == old(bugs[nBugs..])
    {
      ghost var s0 := State();
      ghost var A := Listed(loopBugPointers[..], loopA);
      ghost var B := Listed(loopBugPointers[..], loopB);
      ghost var rows := (k: nat) =>
        if k <= |A| && Indices(A, |s0.bugs|) && Indices(B, |s0.bugs|) then CollideRows(s0, a, b, A, B, k, rolls, probA) else s0;
      assert RowsIs(rows, s0, a, b, A, B, rolls, probA);
      assert CollideRows(s0, a, b, A, B, 0, rolls, probA) == s0;
      ghost var tail := bugs[nBugs..];
      var i := 0;
      while i < loopA.nBugs
        invariant Crossing(i, a, b, loopA, loopB, rolls, probA, s0, tail, rows)
      {
        CollideNextMember(i, a, b, loopA, loopB, rolls, probA, s0, tail, rows);
        i := i + 1;
      }
      assert State() == CollideRows(s0, a, b, A, B, |A|, rolls, probA);
    }

    /** The outer loop of `CollideLoops` after i of A's members, with `rows` standing for `CollideRows` from s0. */
    ghost predicate Crossing(i: nat, a: nat, b: nat, loopA: BugLoop, loopB: BugLoop, rolls: Rolls, probA: real, s0: Sim, tail: seq<Bug>, rows: nat -> Sim)
      reads this, bugs, loopBugPointers
    {
      && Shape() && i <= loopA.nBugs && |s0.bugs| == nBugs
      && ViewSound(nBugs, loopA, loopBugPointers[..]) && ViewSound(nBugs, loopB, loopBugPointers[..])
      && RowsIs(rows, s0, a, b, Listed(loopBugPointers[..], loopA), Listed(loopBugPointers[..], loopB), rolls, probA)
      && State() == rows(i) && bugs[nBugs..] == tail
    }

    /** Member i of A against every member of B. */
    method CollideNextMember(i: nat, a: nat, b: nat, loopA: BugLoop, loopB: BugLoop, rolls: Rolls, probA: real, ghost s0: Sim, ghost tail: seq<Bug>, ghost rows: nat -> Sim)
      requires i < loopA.nBugs && Crossing(i, a, b, loopA, loopB, rolls, probA, s0, tail, rows)
      modifies bugs, this`isLoopDistributionDirty
      ensures Crossing(i + 1, a, b, loopA, loopB, rolls, probA, s0, tail, rows)
    {
      var p := MemberAt(loopA, i);
      RowsStep(rows, s0, a, b, Listed(loopBugPointers[..], loopA), Listed(loopBugPointers[..], loopB), rolls, probA, i);
      CollideBugWithLoop(a, b, i, p, loopB, rolls, probA);
    }

    /** `rows` agrees with `CollideRows` from s0 wherever the latter is defined. */
    static ghost predicate RowsIs(rows: nat -> Sim, s0: Sim, a: nat, b: nat, A: seq<int>, B: seq<int>, rolls: Rolls, probA: real) {
      && Indices(A, |s0.bugs|) && Indices(B, |s0.bugs|)
      && forall k: nat {:trigger CollideRows(s0, a, b, A, B, k, rolls, probA)} :: k <= |A| ==> rows(k) == CollideRows(s0, a, b, A, B, k, rolls, probA)
    }

    /** One row of `CollideLoops`' outer loop, in terms of `rows`. */
    static lemma RowsStep(rows: nat -> Sim, s0: Sim, a: nat, b: nat, A: seq<int>, B: seq<int>, rolls: Rolls, probA: real, i: nat)
      requires RowsIs(rows, s0, a, b, A, B, rolls, probA) && i < |A|
      ensures |rows(i).bugs| == |s0.bugs|
      ensures rows(i + 1) == CollideRow(rows(i), a, b, i, A[i], B, |B|, rolls, probA)
    {
      assert rows(i) == CollideRows(s0, a, b, A, B, i, rolls, probA);
      assert rows(i + 1) == CollideRows(s0, a, b, A, B, i + 1, rolls, probA);
    }

    /** The inner loop of `CollideLoops`: bug p, member i of loop a, against every member of loop b. */
    method CollideBugWithLoop(a: nat, b: nat, i: nat, p: nat, loopB: BugLoop, rolls: Rolls, probA: real)
      requires Shape() && p < nBugs && ViewSound(nBugs, loopB, loopBugPointers[..])
      modifies bugs, this`isLoopDistributionDirty
      ensures State() == CollideRow(old(State()), a, b, i, p, Listed(loopBugPointers[..], loopB), loopB.nBugs, rolls, probA)
      ensures bugs[nBugs..] == old(bugs[nBugs..])
    {
      ghost var s0 := State();
      ghost var B := Listed(loopBugPointers[..], loopB);
      ghost var row := (k: nat) =>
        if k <= |B| && p < |s0.bugs| && Indices(B, |s0.bugs|) then CollideRow(s0, a, b, i, p, B, k, rolls, probA) else s0;
      assert RowIs(row, s0, a, b, i, p, B, rolls, probA);
      assert CollideRow(s0, a, b, i, p, B, 0, rolls, probA) == s0;
      ghost var tail := bugs[nBugs..];
      var j := 0;
      while j < loopB.nBugs
        invariant Touching(j, a, b, i, p, loopB, rolls, probA, s0, tail, row)
      {
        TouchNextMember(j, a, b, i, p, loopB, rolls, probA, s0, tail, row);
        j := j + 1;
      }
      assert State() == CollideRow(s0, a, b, i, p, B, |B|, rolls, probA);
    }

    /** `row` agrees with `CollideRow` from s0 wherever the latter is defined. */
    static ghost predicate RowIs(row: nat -> Sim, s0: Sim, a: nat, b: nat, i: nat, p: nat, B: seq<int>, rolls: Rolls, probA: real) {
      && p < |s0.bugs| && Indices(B, |s0.bugs|)
      && forall k: nat {:trigger CollideRow(s0, a, b, i, p, B, k, rolls, probA)} :: k <= |B| ==> row(k) == CollideRow(s0, a, b, i, p, B, k, rolls, probA)
    }

    /** One touch of `CollideLoops`' inner loop, in terms of `row`. */
    static lemma RowStep(row: nat -> Sim, s0: Sim, a: nat, b: nat, i: nat, p: nat, B: seq<int>, rolls: Rolls, probA: real, j: nat)
      requires RowIs(row, s0, a, b, i, p, B, rolls, probA) && j < |B|
      ensures |row(j).bugs| == |s0.bugs|
      ensures row(j + 1) == Touch(row(j), p, B[j], rolls(a, b, i, j), probA)
    {
      assert row(j) == CollideRow(s0, a, b, i, p, B, j, rolls, probA);
      assert row(j + 1) == CollideRow(s0, a, b, i, p, B, j + 1, rolls, probA);
    }

    /** The inner loop of `CollideLoops` after j of B's members, with `row` standing for `CollideRow` from s0. */
    ghost predicate Touching(j: nat, a: nat, b: nat, i: nat, p: nat, loopB: BugLoop, rolls: Rolls, probA: real, s0: Sim, tail: seq<Bug>, row: nat -> Sim)
      reads this, bugs, loopBugPointers
    {
      && Shape() && j <= loopB.nBugs && |s0.bugs| == nBugs
      && ViewSound(nBugs, loopB, loopBugPointers[..])
      && RowIs(row, s0, a, b, i, p, Listed(loopBugPointers[..], loopB), rolls, probA)
      && State() == row(j) && bugs[nBugs..] == tail
    }

    /** Bug p against member j of B. */
    method TouchNextMember(j: nat, a: nat, b: nat, i: nat, p: nat, loopB: BugLoop, rolls: Rolls, probA: real, ghost s0: Sim, ghost tail: seq<Bug>, ghost row: nat -> Sim)
      requires j < loopB.nBugs && Touching(j, a, b, i, p, loopB, rolls, probA, s0, tail, row)
      modifies bugs, this`isLoopDistributionDirty
      ensures Touching(j + 1, a, b, i, p, loopB, rolls, probA, s0, tail, row)
    {
      var q := MemberAt(loopB, j);
      RowStep(row, s0, a, b, i, p, Listed(loopBugPointers[..], loopB), rolls, probA, j);
      TouchPair(p, q, rolls(a, b, i, j), probA);
    }

    /**
     * The pair driver at the end of `UpdateAndRenderBugs`: `CollideLoops`
     * for every pair a < b of live loops, row by row.
     */
    method CollideAllLoops(rolls: Rolls)
      requires Sound()
      modifies bugs, this`isLoopDistributionDirty
      ensures State() == Collisions(old(State()), loops[..nLoops], loopBugPointers[..], rolls)
      ensures bugs[nBugs..] == old(bugs[nBugs..])
      ensures Sound() && (old(Valid()) ==> Valid())
    {
      ghost var s0 := State();
      ghost var all := loops[..nLoops];
      ghost var ptrs := loopBugPointers[..];
      ghost var fold := (qs: seq<(nat, nat)>) =>
        if PairsValid(qs, all, ptrs, |s0.bugs|) then FoldPairs(s0, qs, all, ptrs, rolls) else s0;
      assert FoldIs(fold, s0, all, ptrs, rolls);
      assert Pairs(nLoops, 0) == [];
      var rows, ps := CollideRowsOfLoops(rolls, s0, all, ptrs, bugs[nBugs..], fold);
      assert ps == AllPairs(nLoops);
      assert State() == Collisions(s0, all, ptrs, rolls);
      FoldPairsConserves(s0, ps, all, ptrs, rolls, nLoops);
      assert InRange(LoopNumbersNow(), nLoops);
      if old(Valid()) && !isLoopDistributionDirty {
        assert bugs[..nBugs] == old(bugs[..nBugs]);
      }
    }

    /**
     * `fold` is the collision phase over any valid run of pairs from `s0`.
     * The outer loops of the driver only carry it; the step that applies
     * one more pair unfolds it.
     */
    ghost predicate FoldIs(fold: seq<(nat, nat)> -> Sim, s0: Sim, all: seq<BugLoop>, ptrs: seq<int>, rolls: Rolls) {
      forall qs {:trigger FoldPairs(s0, qs, all, ptrs, rolls)} :: PairsValid(qs, all, ptrs, |s0.bugs|) ==>
        fold(qs) == FoldPairs(s0, qs, all, ptrs, rolls)
    }

    /** The row loop of the pair driver: rows 0 .. nLoops-2, each `CollideLaterLoops`. */
    method CollideRowsOfLoops(rolls: Rolls, ghost s0: Sim, ghost all: seq<BugLoop>, ghost ptrs: seq<int>, ghost tail: seq<Bug>, ghost fold: seq<(nat, nat)> -> Sim)
        returns (a: nat, ghost ps: seq<(nat, nat)>)
      requires FoldIs(fold, s0, all, ptrs, rolls) && RowsFolded(0, [], s0, all, ptrs, tail, fold)
      modifies bugs, this`isLoopDistributionDirty
      ensures a + 1 >= nLoops && RowsFolded(a, ps, s0, all, ptrs, tail, fold)
    {
      a := 0;
      ps := [];
      while a + 1 < nLoops
        invariant RowsFolded(a, ps, s0, all, ptrs, tail, fold)
      {
        ps := CollideLaterLoops(a, rolls, s0, all, ptrs, tail, fold, ps);
        a := a + 1;
      }
    }

    /**
     * The pair driver's progress: the loops, index and unused bug slots are
     * those of the start, whose loop numbers were in range, and the bugs and
     * flag are `fold(ps)`, the start's with the pairs `ps` collided in order.
     */
    ghost predicate Folded(s0: Sim, ps: seq<(nat, nat)>, all: seq<BugLoop>, ptrs: seq<int>, tail: seq<Bug>, fold: seq<(nat, nat)> -> Sim)
      reads this, bugs, loops, loopBugPointers
    {
      && Shape() && InRange(LoopNumbers(s0.bugs), nLoops)
      && |s0.bugs| == nBugs && loops[..nLoops] == all && loopBugPointers[..] == ptrs && bugs[nBugs..] == tail
      && PairsValid(ps, all, ptrs, nBugs)
      && State() == fold(ps)
    }

    /** The row loop's progress: rows 0 .. a-1 are done. */
    ghost predicate RowsFolded(a: nat, ps: seq<(nat, nat)>, s0: Sim, all: seq<BugLoop>, ptrs: seq<int>, tail: seq<Bug>, fold: seq<(nat, nat)> -> Sim)
      reads this, bugs, loops, loopBugPointers
    {
      && a <= nLoops && (nLoops > 0 ==> a < nLoops) && ps == Pairs(nLoops, a)
      && Folded(s0, ps, all, ptrs, tail, fold)
    }

    /** One row of the pair driver: loop a against loops a+1 .. nLoops-1. */
    method CollideLaterLoops(a: nat, rolls: Rolls, ghost s0: Sim, ghost all: seq<BugLoop>, ghost ptrs: seq<int>, ghost tail: seq<Bug>, ghost fold: seq<(nat, nat)> -> Sim, ghost done: seq<(nat, nat)>)
        returns (ghost ps: seq<(nat, nat)>)
      requires FoldIs(fold, s0, all, ptrs, rolls)
      requires a + 1 < nLoops && RowsFolded(a, done, s0, all, ptrs, tail, fold)
      modifies bugs, this`isLoopDistributionDirty
      ensures RowsFolded(a + 1, ps, s0, all, ptrs, tail, fold)
    {
      ps := done;
      var b: nat := a + 1;
      while b < nLoops
        invariant a + 1 <= b <= nLoops && ps == done + Row(a, nLoops)[..b - a - 1]
        invariant Folded(s0, ps, all, ptrs, tail, fold)
      {
        CollideNextPair(a, b, rolls, s0, ps, all, ptrs, tail, fold);
        RowGrows(nLoops, a, b, ps);
        ps := ps + [(a, b)];
        b := b + 1;
      }
      RowGrows(nLoops, a, b, ps);
    }

    /** One step of the pair driver: `CollideLoops` on the pair (a, b) after the pairs `ps`. */
    method CollideNextPair(a: nat, b: nat, rolls: Rolls, ghost s0: Sim, ghost ps: seq<(nat, nat)>, ghost all: seq<BugLoop>, ghost ptrs: seq<int>, ghost tail: seq<Bug>, ghost fold: seq<(nat, nat)> -> Sim)
      requires FoldIs(fold, s0, all, ptrs, rolls)
      requires a < nLoops && b < nLoops && Folded(s0, ps, all, ptrs, tail, fold)
      modifies bugs, this`isLoopDistributionDirty
      ensures Folded(s0, ps + [(a, b)], all, ptrs, tail, fold)
    {
      FoldStep(fold, s0, ps, (a, b), all, ptrs, rolls, State());
      assert Sound();
      assert ListedBy(a) == Listed(ptrs, all[a]) && ListedBy(b) == Listed(ptrs, all[b]);
      CollideLoops(a, b, rolls);
      assert loops[..nLoops] == all && loopBugPointers[..] == ptrs;
    }

    /** From `fold(ps)` to `fold(ps + [x])`: one more `CollideLoops`, on loops x.0 and x.1. */
    lemma FoldStep(fold: seq<(nat, nat)> -> Sim, s0: Sim, ps: seq<(nat, nat)>, x: (nat, nat), all: seq<BugLoop>, ptrs: seq<int>, rolls: Rolls, cur: Sim)
      requires FoldIs(fold, s0, all, ptrs, rolls) && PairsValid(ps, all, ptrs, |s0.bugs|) && cur == fold(ps)
      requires x.0 < |all| && x.1 < |all| && InRange(LoopNumbers(s0.bugs), |all|)
      ensures PairsValid(ps + [x], all, ptrs, |s0.bugs|) && |cur.bugs| == |s0.bugs|
      ensures ViewSound(|s0.bugs|, all[x.0], ptrs) && ViewSound(|s0.bugs|, all[x.1], ptrs)
      ensures InRange(LoopNumbers(cur.bugs), |all|)
      ensures fold(ps + [x]) == CollidePair(cur, x.0, x.1, Listed(ptrs, all[x.0]), Listed(ptrs, all[x.1]), rolls)
    {
      FoldPairsConserves(s0, ps, all, ptrs, rolls, |all|);
      FoldPairsSnoc(s0, ps, x, all, ptrs, rolls);
    }

    // ------------------------------------------------------- bug update

    /**
     * The per-bug loop of `UpdateAndRenderBugs`: every live bug takes its
     * step against its own loop, bug i using the draws `draws(i)`.
     */
    method StepAllBugs(m: MathLib, draws: nat -> BugDraws)
      requires Sound()
      modifies bugs
      ensures bugs[..nBugs] == Stepped(old(bugs[..nBugs]), loops[..nLoops], width, height, m, draws)
      ensures bugs[nBugs..] == old(bugs[nBugs..])
      ensures LoopNumbersNow() == old(LoopNumbersNow())
    {
      ghost var bs := bugs[..nBugs];
      ghost var ls := LoopNumbersNow();
      var i := 0;
      while i < nBugs
        invariant 0 <= i <= nBugs
        invariant forall k :: 0 <= k < i ==> bugs[k] == StepBug(bs[k], loops[ls[k]], width, height, m, draws(k))
        invariant forall k :: i <= k < bugs.Length ==> bugs[k] == old(bugs[k])
      {
        assert bugs[i] == bs[i] && bs[i].loopNumber == ls[i];
        StepBugAt(i, m, draws(i));
        i := i + 1;
      }
      assert bugs[..nBugs] == Stepped(bs, loops[..nLoops], width, height, m, draws);
      SteppedKeepsLoops(bs, loops[..nLoops], width, height, m, draws);
    }

    /**
     * The logic of `UpdateAndRenderBugs`: step every bug, then run the
     * collision phase. The world stays valid.
     */
    method UpdateAndRenderBugs(m: MathLib, draws: nat -> BugDraws, rolls: Rolls)
      requires Valid()
      modifies bugs, this`isLoopDistributionDirty
      ensures Valid()
      ensures State() == Collisions(Sim(Stepped(old(bugs[..nBugs]), loops[..nLoops], width, height, m, draws), old(isLoopDistributionDirty)),
                                    loops[..nLoops], loopBugPointers[..], rolls)
      ensures bugs[nBugs..] == old(bugs[nBugs..])
    {
      StepAllBugs(m, draws);
      CollideAllLoops(rolls);
    }
  }
}
