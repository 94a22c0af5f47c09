/** The records of bug.h: a bug, a loop and the loop's view of its members. */
module Entities {
  import opened Geometry

  /** Six leg positions: three left/right pairs along the body. */
  type Feet = s: seq<Vec3> | |s| == 6 witness seq(6, _ => Vec3(0.0, 0.0, 0.0))

  /** One agent. `loopNumber` is the index of the loop that owns it. */
  datatype Bug = Bug(
    orientation: real,
    pos: Vec3,
    zVel: real,
    scale: real,
    feetFrom: Feet,
    feetTo: Feet,
    loopNumber: int)

  /**
   * Where a loop's `bugs` pointer points: a block of the arena (as `AddLoop`
   * leaves it) or a start slot of the world's shared `loopBugPointers` array
   * (as the grouping rebuild leaves it). The view's length is the loop's `nBugs`.
   */
  datatype View = ArenaBlock(addr: nat) | Shared(start: nat)

  /** A territorial group of bugs. */
  datatype BugLoop = BugLoop(
    pos: Vec3,
    radius: real,
    speedFactor: real,
    nBugs: nat,
    bugs: View)

  /** The owning loop of every bug, in bug-index order. */
  function LoopNumbers(bs: seq<Bug>): (r: seq<int>)
    ensures |r| == |bs|
    ensures forall i :: 0 <= i < |bs| ==> r[i] == bs[i].loopNumber
  {
    seq(|bs|, i requires 0 <= i < |bs| => bs[i].loopNumber)
  }
}
