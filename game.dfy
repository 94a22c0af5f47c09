/**
 * The game layer of main.c that the simulation depends on: `SetupWorld`,
 * which builds the starting world (32 loops; the player's loop 0 gets 50
 * bugs and every rival 30), and the end-of-game check on the player's loop.
 */
module Game {
  import opened Entities
  import opened Grouping
  import opened Simulation
  import Memory

  /** The starting world's floor and capacities. */
  const Width: real := 500.0
  const Height: real := 320.0
  const MaxBugs: nat := 1200
  const MaxLoops: nat := 32

  /** How many bugs `SetupWorld` hatches for loop l. */
  function BugsOf(l: nat): nat {
    if l == 0 then 50 else 30
  }

  /** `k` bugs of loop l, in a row. */
  function Repeat(l: int, k: nat): (r: seq<int>)
    ensures |r| == k && forall i :: 0 <= i < k ==> r[i] == l
  {
    seq(k, _ => l)
  }

  /** The loop numbers of the bugs `SetupWorld` has hatched once loops 0 .. n-1 are filled. */
  function SetupLoopNumbers(n: nat): seq<int> {
    if n == 0 then [] else SetupLoopNumbers(n - 1) + Repeat(n - 1, BugsOf(n - 1))
  }

  lemma {:induction false} CountRepeat(ls: seq<int>, x: int, k: nat, l: int)
    ensures Count(ls + Repeat(x, k), l) == Count(ls, l) + (if x == l then k else 0)
  {
    if k > 0 {
      CountRepeat(ls, x, k - 1, l);
      assert ls + Repeat(x, k) == (ls + Repeat(x, k - 1)) + [x];
      CountSnoc(ls + Repeat(x, k - 1), x, l);
    } else {
      assert ls + Repeat(x, k) == ls;
    }
  }

  /**
   * After n loops are filled there are 50 + 30 (n - 1) bugs, each in one of
   * those loops, and loop l < n holds exactly `BugsOf(l)` of them.
   */
  lemma {:induction false} SetupCounts(n: nat)
    ensures |SetupLoopNumbers(n)| == if n == 0 then 0 else 50 + 30 * (n - 1)
    ensures InRange(SetupLoopNumbers(n), n)
    ensures forall l :: 0 <= l < n ==> Count(SetupLoopNumbers(n), l) == BugsOf(l)
  {
    if n > 0 {
      SetupCounts(n - 1);
      var pre := SetupLoopNumbers(n - 1);
      var ls := SetupLoopNumbers(n);
      forall l | 0 <= l < n
        ensures Count(ls, l) == BugsOf(l)
      {
        CountRepeat(pre, n - 1, BugsOf(n - 1), l);
        if l < n - 1 {
          assert Count(pre, l) == BugsOf(l);
        } else {
          CountAbsent(pre, n - 1);
        }
      }
      forall i | 0 <= i < |ls|
        ensures 0 <= ls[i] < n
      {
        if i < |pre| {
          assert ls[i] == pre[i];
        }
      }
    }
  }

  /**
   * The hatch order in closed form: bugs 0 .. 49 belong to loop 0 and then
   * each run of 30 to the next loop, so every loop's bugs sit in one
   * contiguous run of indices, in loop order.
   */
  function HatchedInto(i: nat): nat {
    if i < 50 then 0 else (i - 50) / 30 + 1
  }

  lemma {:induction false} SetupIsContiguous(n: nat)
    ensures forall i :: 0 <= i < |SetupLoopNumbers(n)| ==> SetupLoopNumbers(n)[i] == HatchedInto(i)
  {
    if n > 0 {
      SetupIsContiguous(n - 1);
      SetupCounts(n - 1);
      var pre := SetupLoopNumbers(n - 1);
      var ls := SetupLoopNumbers(n);
      forall i | 0 <= i < |ls|
        ensures ls[i] == HatchedInto(i)
      {
        if i < |pre| {
          assert ls[i] == pre[i];
        } else if n > 1 {
          RunOf(i - 50, n - 2);
        }
      }
    }
  }

  lemma RunOf(x: nat, q: nat)
    requires 30 * q <= x < 30 * q + 30
    ensures x / 30 == q
  {
  }

  /** A loop number outside the range of `ls` has no bugs in it. */
  lemma {:induction false} CountAbsent(ls: seq<int>, l: nat)
    requires InRange(ls, l)
    ensures Count(ls, l) == 0
  {
    if |ls| > 0 {
      CountAbsent(ls[..|ls| - 1], l);
    }
  }

  /** The first n loops as `SetupWorld` adds them: loop l from draw l, its view block at its place in the arena. */
  function SetupLoops(n: nat, used0: nat, sizes: Sizes, draws: nat -> LoopDraws): (r: seq<BugLoop>)
    ensures |r| == n
  {
    if n == 0 then [] else SetupLoops(n - 1, used0, sizes, draws) + [NewLoop(Width, Height, draws(n - 1), used0 + SetupBytes(sizes, n - 1))]
  }

  /** Loop k of the setup is the one drawn for k, its view block after the k blocks before it. */
  lemma {:induction false} SetupLoopAt(n: nat, k: nat, used0: nat, sizes: Sizes, draws: nat -> LoopDraws)
    requires k < n
    ensures SetupLoops(n, used0, sizes, draws)[k] == NewLoop(Width, Height, draws(k), used0 + SetupBytes(sizes, k))
  {
    if k < n - 1 {
      SetupLoopAt(n - 1, k, used0, sizes, draws);
    }
  }

  /** The arena bytes `SetupWorld` has taken once loops 0 .. l-1 have their view blocks. */
  function SetupBytes(sizes: Sizes, l: nat): nat {
    if l == 0 then sizes.bug * MaxBugs + sizes.loop * MaxLoops + sizes.pointer * MaxBugs
    else SetupBytes(sizes, l - 1) + sizes.pointer * MaxBugs
  }

  lemma {:induction false} SetupBytesGrow(sizes: Sizes, l: nat, l': nat)
    requires l <= l'
    ensures SetupBytes(sizes, l) <= SetupBytes(sizes, l')
    decreases l' - l
  {
    if l < l' {
      SetupBytesGrow(sizes, l, l' - 1);
    }
  }

  lemma {:induction false} SetupBytesIs(sizes: Sizes, l: nat)
    ensures SetupBytes(sizes, l) == sizes.bug * MaxBugs + sizes.loop * MaxLoops + (l + 1) * (sizes.pointer * MaxBugs)
  {
    if l > 0 {
      SetupBytesIs(sizes, l - 1);
    }
  }

  /**
   * The game arena main.c creates (20 MiB) holds the `World` record and
   * everything `SetupWorld` takes, for records no larger than 256 (bug),
   * 64 (loop), 8 (pointer) and 1024 (world) bytes.
   */
  lemma SetupFitsGameArena(sizes: Sizes, worldBytes: nat)
    requires sizes.bug <= 256 && sizes.loop <= 64 && sizes.pointer <= 8 && worldBytes <= 1024
    ensures worldBytes + SetupBytes(sizes, MaxLoops) < 1024 * 1024 * 20
  {
    SetupBytesIs(sizes, MaxLoops);
  }

  /** The fields `SetupWorld` sets before it adds loops, with `nBugs` bugs hatched so far. */
  predicate Configured(world: World, aiSpeed: real, nBugs: nat)
    reads world
  {
    && world.width == Width && world.height == Height && world.aiSpeed == aiSpeed
    && world.maxBugs == MaxBugs && world.maxLoops == MaxLoops && world.isLoopDistributionDirty
    && world.Layout() && world.nBugs == nBugs
  }

  /**
   * What `SetupWorld` has built so far: n loops, each as `AddLoop` made it
   * with its view block at its place in the arena, and bugs with loop
   * numbers `ls`, each hatched at its loop's centre; the unused slots still
   * hold what the arena held. The world is valid (the flag is set).
   */
  predicate Built(world: World, n: nat, ls: seq<int>, aiSpeed: real, blankBug: Bug, used0: nat, sizes: Sizes, draws: nat -> LoopDraws)
    reads world, world.bugs, world.loops, world.loopBugPointers
  {
    && Configured(world, aiSpeed, |ls|)
    && world.Valid() && world.nLoops == n
    && world.LoopNumbersNow() == ls
    && n <= world.loops.Length && world.loops[..n] == SetupLoops(n, used0, sizes, draws)
    && (forall i :: 0 <= i < world.nBugs ==> world.bugs[i] == Hatched(blankBug, world.loops[ls[i]], ls[i]))
    && (forall i :: world.nBugs <= i < MaxBugs ==> world.bugs[i] == blankBug)
  }

  /**
   * `SetupWorld`: set the floor (500 x 320), the capacities (1200 bugs, 32
   * loops) and the AI speed, empty the bugs, take the three arrays from the
   * arena (whose contents `blankBug`, `blankLoop` and 0 stand for), set the
   * flag, then add 32 loops, hatching 50 bugs into loop 0 and 30 into each
   * other loop. `nLoops` is not reset: every assert passes (`ok`) exactly
   * when the world came in with no loops and the whole take fits strictly
   * below the arena size; the bug asserts always pass. The built world is
   * valid, with the flag set so that the first frame sorts the bugs into
   * their loops.
   */
  method SetupWorld(arena: Memory.MemoryArena, world: World, sizes: Sizes, aiSpeed: real, blankBug: Bug, blankLoop: BugLoop, draws: nat -> LoopDraws)
    returns (ok: bool)
    modifies arena, world
    ensures arena.size == old(arena.size)
    ensures ok <==> old(world.nLoops) == 0 && old(arena.used) + SetupBytes(sizes, MaxLoops) < arena.size
    ensures ok ==> arena.used == old(arena.used) + SetupBytes(sizes, MaxLoops)
    ensures ok ==> Built(world, MaxLoops, SetupLoopNumbers(MaxLoops), aiSpeed, blankBug, old(arena.used), sizes, draws)
  {
    ghost var used0 := arena.used;
    ghost var n0 := world.nLoops;
    SetupBytesGrow(sizes, 0, MaxLoops);
    var bugs := new Bug[MaxBugs](_ => blankBug);
    var loops := new BugLoop[MaxLoops](_ => blankLoop);
    var pointers := new int[MaxBugs](_ => 0);
    ok := TakeArrays(arena, world, sizes, aiSpeed, bugs, loops, pointers);
    if !ok {
      return;
    }
    if n0 == 0 {
      NothingBuilt(world, aiSpeed, blankBug, used0, sizes, draws);
    }
    SetupCounts(0);
    ok := AddSetupLoops(world, arena, n0, used0, aiSpeed, blankBug, sizes, draws);
    if ok {
      SetupDone(world, arena, n0, used0, aiSpeed, blankBug, sizes, draws);
    }
  }

  /** The outer loop of `SetupWorld`: 32 loops, each added and filled in turn. */
  method AddSetupLoops(world: World, arena: Memory.MemoryArena, ghost n0: nat, ghost used0: nat, aiSpeed: real, blankBug: Bug, sizes: Sizes, draws: nat -> LoopDraws)
    returns (ok: bool)
    requires Stage(world, arena, 0, n0, used0, aiSpeed, blankBug, sizes, draws)
    modifies world`nLoops, world`nBugs, world.loops, world.bugs, arena`used
    ensures arena.size == old(arena.size)
    ensures ok ==> Stage(world, arena, MaxLoops, n0, used0, aiSpeed, blankBug, sizes, draws)
    ensures !ok ==> !(n0 == 0 && used0 + SetupBytes(sizes, MaxLoops) < arena.size)
  {
    var loopN := 0;
    while loopN < MaxLoops
      invariant Stage(world, arena, loopN, n0, used0, aiSpeed, blankBug, sizes, draws)
      invariant arena.size == old(arena.size)
    {
      var added := SetupLoop(world, arena, loopN, n0, used0, aiSpeed, blankBug, sizes, draws);
      if !added {
        return false;
      }
      loopN := loopN + 1;
    }
    ok := true;
  }

  /** After the last loop every assert has passed, so the world came in with no loops. */
  lemma SetupDone(world: World, arena: Memory.MemoryArena, n0: nat, used0: nat, aiSpeed: real, blankBug: Bug, sizes: Sizes, draws: nat -> LoopDraws)
    requires Stage(world, arena, MaxLoops, n0, used0, aiSpeed, blankBug, sizes, draws)
    ensures n0 == 0 && arena.used == used0 + SetupBytes(sizes, MaxLoops) < arena.size
    ensures Built(world, MaxLoops, SetupLoopNumbers(MaxLoops), aiSpeed, blankBug, used0, sizes, draws)
  {
  }

  /**
   * The state of `SetupWorld` once loops 0 .. l-1 are added (counted from
   * the n0 loops the world came in with) and filled with their bugs.
   */
  predicate Stage(world: World, arena: Memory.MemoryArena, l: nat, n0: nat, used0: nat, aiSpeed: real, blankBug: Bug, sizes: Sizes, draws: nat -> LoopDraws)
    reads world, world.bugs, world.loops, world.loopBugPointers, arena
  {
    && l <= MaxLoops
    && arena.used == used0 + SetupBytes(sizes, l) && arena.used < arena.size
    && world.nLoops == n0 + l && (l > 0 ==> world.nLoops <= MaxLoops)
    && Configured(world, aiSpeed, |SetupLoopNumbers(l)|)
    && (n0 == 0 ==> Built(world, l, SetupLoopNumbers(l), aiSpeed, blankBug, used0, sizes, draws))
  }

  /**
   * One iteration of the outer loop of `SetupWorld`: add loop l and hatch its
   * bugs. It stops (`added` false) only where the setup as a whole fails.
   */
  method SetupLoop(world: World, arena: Memory.MemoryArena, l: nat, ghost n0: nat, ghost used0: nat, aiSpeed: real, blankBug: Bug, sizes: Sizes, draws: nat -> LoopDraws)
    returns (added: bool)
    requires l < MaxLoops && Stage(world, arena, l, n0, used0, aiSpeed, blankBug, sizes, draws)
    modifies world`nLoops, world`nBugs, world.loops, world.bugs, arena`used
    ensures arena.size == old(arena.size)
    ensures added ==> Stage(world, arena, l + 1, n0, used0, aiSpeed, blankBug, sizes, draws)
    ensures !added ==> !(n0 == 0 && used0 + SetupBytes(sizes, MaxLoops) < arena.size)
  {
    added := AddSetupLoop(world, arena, l, aiSpeed, blankBug, used0, sizes, draws);
    if !added {
      SetupBytesGrow(sizes, l + 1, MaxLoops);
      return;
    }
    HatchBugs(world, l, aiSpeed, blankBug, used0, sizes, draws);
  }

  /**
   * The first part of `SetupWorld`: set the fields, take the three arrays
   * from the arena and set the flag; `ok` when all three fit. The arrays
   * given stand for the blocks the three pushes hand out.
   */
  method TakeArrays(arena: Memory.MemoryArena, world: World, sizes: Sizes, aiSpeed: real,
                    bugs: array<Bug>, loops: array<BugLoop>, pointers: array<int>)
    returns (ok: bool)
    requires bugs.Length == MaxBugs && loops.Length == MaxLoops && pointers.Length == MaxBugs
    modifies arena, world
    ensures arena.size == old(arena.size) && world.nLoops == old(world.nLoops)
    ensures ok <==> old(arena.used) + SetupBytes(sizes, 0) < arena.size
    ensures ok ==> arena.used == old(arena.used) + SetupBytes(sizes, 0)
    ensures ok ==> Configured(world, aiSpeed, 0)
    ensures ok ==> world.bugs == bugs && world.loops == loops && world.loopBugPointers == pointers
  {
    world.width := Width;
    world.height := Height;
    world.nBugs := 0;
    world.maxBugs := MaxBugs;
    var at;
    ok, at := arena.PushArray(sizes.bug, MaxBugs);
    world.bugs := bugs;
    if ok {
      world.maxLoops := MaxLoops;
      world.aiSpeed := aiSpeed;
      ok, at := arena.PushArray(sizes.loop, MaxLoops);
      world.loops := loops;
      if ok {
        ok, at := arena.PushArray(sizes.pointer, MaxBugs);
        world.loopBugPointers := pointers;
        world.isLoopDistributionDirty := true;
      }
    }
  }

  /** A configured world with no loops, no bugs and every slot blank is built to stage 0. */
  lemma NothingBuilt(world: World, aiSpeed: real, blankBug: Bug, used0: nat, sizes: Sizes, draws: nat -> LoopDraws)
    requires Configured(world, aiSpeed, 0) && world.nLoops == 0
    requires forall i :: 0 <= i < world.bugs.Length ==> world.bugs[i] == blankBug
    ensures Built(world, 0, [], aiSpeed, blankBug, used0, sizes, draws)
  {
  }

  /** The `AddLoop` call of `SetupWorld` for loop l (the world may have come in with loops). */
  method AddSetupLoop(world: World, arena: Memory.MemoryArena, l: nat, aiSpeed: real, blankBug: Bug, ghost used0: nat, sizes: Sizes, draws: nat -> LoopDraws)
    returns (ok: bool)
    requires l < MaxLoops && Configured(world, aiSpeed, |SetupLoopNumbers(l)|)
    requires arena.used == used0 + SetupBytes(sizes, l)
    modifies world`nLoops, world.loops, arena`used
    ensures world.nLoops == old(world.nLoops) + 1 && Configured(world, aiSpeed, |SetupLoopNumbers(l)|)
    ensures arena.size == old(arena.size)
    ensures world.nLoops <= MaxLoops ==> arena.used == used0 + SetupBytes(sizes, l + 1)
    ensures ok <==> world.nLoops <= MaxLoops && arena.used < arena.size
    ensures ok && old(Built(world, l, SetupLoopNumbers(l), aiSpeed, blankBug, used0, sizes, draws)) ==>
      Built(world, l + 1, SetupLoopNumbers(l), aiSpeed, blankBug, used0, sizes, draws)
  {
    ghost var built := Built(world, l, SetupLoopNumbers(l), aiSpeed, blankBug, used0, sizes, draws);
    ghost var ls := SetupLoopNumbers(l);
    ghost var before := world.loops[..];
    assert built ==> InRange(ls, l);
    var idx;
    ok, idx := world.AddLoop(arena, sizes, draws(l));
    if ok && built {
      assert world.loops[..l + 1] == before[..l] + [world.loops[l]];
      forall i | 0 <= i < world.nBugs
        ensures world.bugs[i] == Hatched(blankBug, world.loops[ls[i]], ls[i])
      {
        assert world.loops[ls[i]] == before[ls[i]];
      }
    }
  }

  /** The inner loop of `SetupWorld`: hatch `BugsOf(l)` bugs into loop l. */
  method HatchBugs(world: World, l: nat, aiSpeed: real, blankBug: Bug, ghost used0: nat, sizes: Sizes, draws: nat -> LoopDraws)
    requires l < world.nLoops <= MaxLoops && Configured(world, aiSpeed, |SetupLoopNumbers(l)|)
    modifies world`nBugs, world.bugs
    ensures Configured(world, aiSpeed, |SetupLoopNumbers(l + 1)|)
    ensures old(Built(world, l + 1, SetupLoopNumbers(l), aiSpeed, blankBug, used0, sizes, draws)) ==>
      Built(world, l + 1, SetupLoopNumbers(l + 1), aiSpeed, blankBug, used0, sizes, draws)
  {
    SetupCounts(l);
    ghost var ls := SetupLoopNumbers(l);
    ghost var built := Built(world, l + 1, ls, aiSpeed, blankBug, used0, sizes, draws);
    var k := 0;
    while k < BugsOf(l)
      invariant 0 <= k <= BugsOf(l) && ls == SetupLoopNumbers(l) + Repeat(l, k)
      invariant Hatching(world, ls, built, aiSpeed, blankBug, used0, sizes, draws)
    {
      HatchBug(world, l, ls, built, aiSpeed, blankBug, used0, sizes, draws);
      assert SetupLoopNumbers(l) + Repeat(l, k + 1) == ls + [l];
      ls := ls + [l];
      k := k + 1;
    }
  }

  /** The world is configured with the bugs `ls` hatched, and built so far when `built` is set. */
  predicate Hatching(world: World, ls: seq<int>, built: bool, aiSpeed: real, blankBug: Bug, used0: nat, sizes: Sizes, draws: nat -> LoopDraws)
    reads world, world.bugs, world.loops, world.loopBugPointers
  {
    && Configured(world, aiSpeed, |ls|)
    && (built ==> Built(world, world.nLoops, ls, aiSpeed, blankBug, used0, sizes, draws))
  }

  /** One `AddBug(world, l)` call of `SetupWorld`, with room left for the bug. */
  method HatchBug(world: World, l: nat, ghost ls: seq<int>, ghost built: bool, aiSpeed: real, blankBug: Bug, ghost used0: nat, sizes: Sizes, draws: nat -> LoopDraws)
    requires l < world.nLoops <= MaxLoops && |ls| < MaxBugs
    requires Hatching(world, ls, built, aiSpeed, blankBug, used0, sizes, draws)
    modifies world`nBugs, world.bugs
    ensures Hatching(world, ls + [l], built, aiSpeed, blankBug, used0, sizes, draws)
  {
    var hatched, idx := world.AddBug(l);
    if built {
      ghost var ls' := ls + [l];
      assert world.LoopNumbersNow() == ls' by {
        assert world.bugs[..world.nBugs] == old(world.bugs[..world.nBugs]) + [world.bugs[idx]];
      }
      forall i | 0 <= i < world.nBugs
        ensures world.bugs[i] == Hatched(blankBug, world.loops[ls'[i]], ls'[i])
      {
        if i < idx {
          assert world.bugs[i] == old(world.bugs[i]) && ls'[i] == ls[i];
        }
      }
    }
  }

  // ------------------------------------------------------------ the outcome

  datatype Outcome = Playing | Won | Lost

  /**
   * The check main.c makes each frame on the player's loop (loop 0): the
   * game is over when that loop has no bugs (lost) or at least 80% of all
   * bugs (won).
   */
  function OutcomeOf(playerBugs: int, allBugs: int): Outcome {
    if playerBugs <= 0 || playerBugs as real >= allBugs as real * 0.8 then
      if playerBugs <= 0 then Lost else Won
    else Playing
  }

  /** The three outcomes in integer terms: lost at 0, won from four fifths on, playing in between. */
  lemma OutcomeRule(playerBugs: int, allBugs: int)
    ensures OutcomeOf(playerBugs, allBugs) == Lost <==> playerBugs <= 0
    ensures OutcomeOf(playerBugs, allBugs) == Won <==> playerBugs > 0 && 5 * playerBugs >= 4 * allBugs
    ensures OutcomeOf(playerBugs, allBugs) == Playing <==> playerBugs > 0 && 5 * playerBugs < 4 * allBugs
  {
  }

  /**
   * Right after setup the first frame's rebuild gives the player's loop its
   * 50 of the 980 bugs, so the first check finds the game in play.
   */
  lemma FirstCheckInPlay()
    ensures |SetupLoopNumbers(MaxLoops)| == 980
    ensures Count(SetupLoopNumbers(MaxLoops), 0) == 50
    ensures OutcomeOf(Count(SetupLoopNumbers(MaxLoops), 0), |SetupLoopNumbers(MaxLoops)|) == Playing
  {
    SetupCounts(MaxLoops);
  }

  /**
   * With a current index the player's loop never counts more bugs than the
   * world has, so a win needs a positive share of them.
   */
  lemma PlayerWithinAll(ls: seq<int>, loops: seq<BugLoop>, ptrs: seq<int>)
    requires |loops| > 0 && InRange(ls, |loops|) && IndexMatches(ls, loops, ptrs)
    ensures loops[0].nBugs <= |ls|
    ensures OutcomeOf(loops[0].nBugs, |ls|) == Won ==> loops[0].nBugs > 0 && 5 * loops[0].nBugs >= 4 * |ls|
  {
    assert LoopMatches(ls, 0, loops[0], ptrs);
    OffsetsAddUp(ls, |loops|);
    if |loops| > 1 {
      OffsetsOrdered(ls, 0, |loops|);
    } else {
      assert Offset(ls, 1) == Count(ls, 0);
    }
  }
}
