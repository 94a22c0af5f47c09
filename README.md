# Bug loops: a verified model of the simulation core

The game is a top-down simulation of 32 *loops*: territorial groups of small
six-legged *bugs* on a 500 x 320 floor. Loop 0 belongs to the player. Each
frame, every loop moves:

- it settles toward the centre of its bugs;
- a rival loop (any loop but 0) chases its nearest rival when that rival is
  smaller, and flees it when it is at least as large;
- it is pushed off the nearest edge.

Every bug then walks:

- it circles its loop's rim at a randomised speed;
- it bounces on the ground;
- it is clamped to the floor;
- it re-plants its legs when they fall too far behind.

Finally every pair of loops is tested for contact. Two bugs of different
loops that are close enough can convert, and one of them joins the other's
loop. Membership changes set a dirty flag. The next frame then rebuilds the
grouping index: one shared array of bug references, sliced per loop. All
storage comes from a bump arena. The player wins when the player's loop holds
at least 80% of all bugs and loses when it is empty.

The model has eight modules:

- `Geometry`: vectors, plus the math routines and the random generator, which
  are supplied from outside.
- `Entities`: the bug and loop records.
- `Memory`: the arena, as a class with `used` and `size`, and runs of pushes.
- `Grouping`: what the grouping index must contain, stated over the sequence
  of loop numbers.
- `Behaviour`: the per-frame rules, as functions.
- `Conversion`: conversion and the pair-wise collision pass, as functions of
  the bugs and the flag.
- `Simulation`: the `World` class. It holds the arrays `bugs`, `loops` and
  `loopBugPointers`, and its methods update them in place. Each method is
  proved against the functions above.
- `Game`: `SetupWorld` and the end-of-game check.

A bug pointer is a bug index. A loop's `bugs` pointer is a `View`: either its
own arena block or a start slot of `loopBugPointers`. Random draws are
parameters: every `RandomFloat(lo, hi)` is `lo + (hi - lo) * u` for a
supplied unit value `u`. The world invariant `Valid` holds three things:

- every live bug belongs to a live loop;
- every view lists live bugs;
- when the dirty flag is clear, the index is current.

## Model

| member | source | states |
|---|---|---|
| Geometry.RandomFloat | src/bug.c:68-70 | a draw of `RandomFloat(lo, hi)` lies in [lo, hi], and below hi when lo < hi |
| Behaviour.CenterWithinMembers | src/bug.c:9-20 | a loop's centre lies within the bounding box of its listed bugs' positions |
| Behaviour.CenterOfOne | src/bug.c:9-20 | the centre of a one-bug loop is that bug's position |
| Behaviour.Settle | src/bug.c:104-113 | a loop with bugs gets radius 2·sqrt(nBugs) and moves 5% of the way to its bugs' centre; an empty loop gets radius 1 and stays put; count, view and speed factor are kept |
| Behaviour.NearestRivalIsNearest | src/bug.c:119-143 | the scan picks a loop other than itself with bugs, closer than 1000000 and no farther than any other such loop, and the first of equally near ones; it picks none exactly when no such loop exists |
| Behaviour.NearestRivalEligible | src/bug.c:124-143 | a chosen rival is a loop index other than the loop itself and has bugs |
| Behaviour.Chase | src/bug.c:144-155 | without a rival, or with one within half the radius, the loop stays; otherwise it moves one AI step toward a smaller rival and away from a rival at least as large |
| Behaviour.NearestEdge | src/bug.c:156-169 | the chosen edge is the nearest of the four, ties going to the first in the order left, right, bottom, top; no edge is chosen only when all are at least 1000000 away |
| Behaviour.EdgePushRule | src/bug.c:157-174 | within 100 units of the nearest edge the loop moves away from that edge, perpendicular to it, by 2·(100 − distance)/100; otherwise it stays; height is unchanged |
| Behaviour.SteeredFrom | src/bug.c:115-175 | a rival loop's new position is the edge push applied to the seek-or-flee step from its nearest rival |
| Behaviour.LoopStep | src/bug.c:101-175 | one loop's update keeps its count, view and speed factor and sets its radius from the count; the player's loop (0) is only settled |
| Behaviour.LoopsAfterRules | src/bug.c:97-176 | after the first k loops are updated, every loop keeps its count, view and speed factor; each updated loop has radius 2·sqrt(n), or 1 when empty; the rest are untouched; loop 0 is only settled |
| Behaviour.SteerTurnsByDraw | src/bug.c:253-276 | the heading turns by the drawn amount, toward the loop when outside its rim and away when inside, with the sign given by which side the loop centre is on |
| Behaviour.BounceKeepsAboveGround | src/bug.c:244-251 | after gravity a bug is never below height 1; above the ground it keeps its fall; on hitting the ground its vertical speed is reversed and damped by 0.8 |
| Behaviour.ClampInArena | src/bug.c:278-294 | a clamped position lies on the floor [0, w] x [0, h] with its height kept, and a position already on the floor is unchanged |
| Behaviour.FeetPairSymmetric | src/bug.c:2-7 | the two feet of a pair sit on either side of the centre, perpendicular to the heading, at the centre's height |
| Behaviour.ReplantRule | src/bug.c:333-345 | a foot within one unit of its target stays planted; otherwise it moves to within 0.2 of the target in x and y, at the target's height |
| Behaviour.BodyRules | src/bug.c:228-294 | a stepped body is on the floor and not below height 1; it keeps its loop, size and legs; its heading moves by less than 0.14 |
| Behaviour.LegsRule | src/bug.c:313-347 | the leg update changes only the legs; each foot is kept or lands within 0.2 of its new target |
| Behaviour.StepBugRules | src/bug.c:222-347 | one bug's frame keeps it on the floor, at height 1 or more, in its loop and at its size, turns it by less than 0.14, and keeps or re-plants each foot near its target |
| Behaviour.StepBugKeepsLoop | src/bug.c:222-347 | a step never changes a bug's loop number or scale |
| Conversion.MovedRule | src/bug.c:54-61 | a moved bug has the new loop number and a strictly larger scale; its position, heading and legs are kept |
| Conversion.TouchRule | src/bug.c:193-209 | a pair that is not close (squared distance 4 or more) or whose contact draw is 0.1 or more leaves everything alone; otherwise exactly one bug of the pair changes and joins the other's loop (the B bug when the choice draw is below probA, else the A bug), and the flag is set |
| Conversion.TouchConserves | src/bug.c:193-209 | a touch keeps the number of bugs, every position and leg, and loop numbers in range, and any change sets the flag |
| Conversion.ProbA | src/bug.c:182-183 | probA is in [0, 1] and is loop A's share of the two loops' bugs; it is 0 exactly when A is empty |
| Conversion.CollidePairConserves | src/bug.c:179-213 | colliding two loops keeps the bug count, positions and legs, and loop numbers in range; bugs in neither loop are untouched |
| Conversion.FarApartNoConversion | src/bug.c:194-197 | two loops whose bugs are all at least 2 units apart change nothing, whatever the draws |
| Conversion.AllPairsExact | src/bug.c:350-362 | the driver visits each pair a < b < n exactly once, in lexicographic order |
| Conversion.FoldPairsConserves | src/bug.c:350-362 | any run of pair collisions conserves bugs, positions, legs and the loop range |
| Conversion.Collisions | src/bug.c:350-362 | the whole collision pass conserves bugs, positions, legs and the loop range |
| Memory.MemoryArena.Create | src/cool_memory.c:2-12 | a new arena has nothing used and the requested size |
| Memory.MemoryArena.Push | src/cool_memory.c:14-20 | a push advances `used` by the request and returns the old `used` as the block's offset; it passes exactly when the new `used` is strictly below the size |
| Memory.MemoryArena.PushStruct | src/cool_memory.c:21 | `PushStruct` is a push of the record's size |
| Memory.MemoryArena.PushArray | src/cool_memory.c:22 | `PushArray` is a push of element size times count |
| Memory.PushRunBlocks | src/cool_memory.c:14-20 | a run of pushes passes exactly when the total fits strictly below the size; the blocks are then adjacent, in order, and inside the arena |
| Memory.PushRunDisjoint | src/cool_memory.c:14-20 | blocks handed out by a passing run never overlap |
| Memory.PushWrapped | src/cool_memory.c:14-20 | with 64-bit `size_t`, the arithmetic agrees with the unbounded push whenever the sum does not wrap |
| Memory.WrappedPushAcceptsOversize | src/cool_memory.c:17-19 | with 64-bit wrap-around the assert accepts a request far larger than the arena |
| Grouping.MembersOfLoop | src/bug.c:44-51 | a loop's member list holds exactly the bugs with its loop number, in increasing index order |
| Grouping.OffsetsAddUp | src/bug.c:35-43 | when every bug is in range, the slices of all loops together cover exactly the live bugs |
| Grouping.OffsetsOrdered | src/bug.c:35-43 | the slices are laid out back to back in loop order and do not overlap |
| Grouping.CountsAddUp | src/bug.c:25-34 | the per-loop counts add up to the number of live bugs |
| Grouping.IndexIsPartition | src/bug.c:22-52 | a current index lists every live bug exactly once, in its own loop's slice, and the slices are disjoint and ordered |
| Grouping.IndexDetermined | src/bug.c:22-52 | the index is determined by the loop numbers alone, so rebuilding it twice gives identical counts, views and pointer slots |
| Grouping.IndexSound | src/bug.c:22-52 | a current index can be walked, and loop l's view lists exactly its members |
| Grouping.FilledIsIndex | src/bug.c:44-51 | once every bug has been appended, with counts and slice starts as laid out, the index is current |
| Grouping.CurrentIsRegrouped | src/bug.c:92-96 | rebuilding an index that is already current leaves the loops unchanged |
| Grouping.IndexKept | src/bug.c:101-175 | the loop update changes positions and radii only, so a current index stays current |
| Simulation.NewLoop | src/bug.c:63-74 | a new loop has radius 20, no bugs and its own arena block; it lies on the floor and has a speed factor in [0.8, 1.0) |
| Simulation.Hatched | src/bug.c:76-87 | a hatched bug has scale 1, vertical speed 1, the given loop number and its loop's planar position at height 1; its heading and legs are left as they were |
| Simulation.Stepped | src/bug.c:222-348 | stepping every bug keeps the number of bugs |
| Simulation.SteppedKeepsLoops | src/bug.c:222-348 | stepping every bug keeps every loop number |
| Simulation.MoveAndBounce | src/bug.c:242-251 | the move-and-bounce statements compute the moved position with the bounce rule |
| Simulation.Drift | src/bug.c:253-276 | the branches of the steering code compute the steering rule |
| Simulation.Bound | src/bug.c:278-294 | the four bounds checks compute the clamp |
| Simulation.PlaceLegs | src/bug.c:313-331 | the feet-pair loop puts anchor k at the body lerp and target k from `CalculateFeetPos`, for all six feet |
| Simulation.ReplantFeet | src/bug.c:333-347 | the foot loop computes the re-plant rule for each of the six feet |
| Simulation.MoveBug | src/bug.c:226-294 | the body half of a bug's frame computes the body rule |
| Simulation.MoveLegs | src/bug.c:313-347 | the leg half of a bug's frame computes the leg rule |
| Simulation.World.SortBugsIntoLoops | src/bug.c:22-52 | afterwards the index is current and each live loop's count and slice start are rebuilt from the loop numbers; nothing past the live loops or the first nBugs slots changes |
| Simulation.World.CountBugsPerLoop | src/bug.c:25-34 | counts[l] is the number of live bugs with loop number l |
| Simulation.World.LayOutSlices | src/bug.c:35-43 | each live loop gets count 0 and a slice starting at the running total of the earlier counts |
| Simulation.World.FillSlices | src/bug.c:44-51 | each bug index is appended to its loop's slice in index order; the counts end at the per-loop totals |
| Simulation.World.MoveBugToLoop | src/bug.c:54-61 | only bug i changes, to its moved form; the flag is set; the world stays valid |
| Simulation.World.AddLoop | src/bug.c:63-74 | nLoops grows by one; the assert passes exactly when the count stays within capacity and the view block fits the arena; on a pass the new slot holds the new loop and nothing else changes |
| Simulation.World.AddBug | src/bug.c:76-87 | nBugs grows by one; the assert passes exactly within capacity; on a pass the new slot holds the hatched bug of loop l |
| Simulation.World.FindNearestRival | src/bug.c:119-143 | the scan loop returns the nearest rival as specified |
| Simulation.World.ChaseRival | src/bug.c:144-155 | the seek-or-flee branch computes the chase rule |
| Simulation.World.PushOffEdge | src/bug.c:156-174 | the edge scan and push compute the edge push |
| Simulation.World.SettledLoop | src/bug.c:104-113 | the settle branch computes the settle rule from the centre of the loop's current members |
| Simulation.World.SteerLoop | src/bug.c:115-175 | the AI branch computes the steering rule |
| Simulation.World.UpdateLoop | src/bug.c:101-175 | only loop l changes, to its loop step; the index stays current |
| Simulation.World.RegroupIfDirty | src/bug.c:92-96 | afterwards the flag is clear and the index is current; when the flag was clear the pointer slots are untouched |
| Simulation.World.UpdateAllLoops | src/bug.c:97-176 | the loops end as every loop updated in order, with each rival seeing the loops before it already moved; the index stays current |
| Simulation.World.UpdateAndRenderLoops | src/bug.c:89-177 | a frame's loop pass regroups when dirty and then updates every loop; the world stays valid with the flag clear |
| Simulation.World.StepBugAt | src/bug.c:222-347 | only bug i changes, to its stepped form against its own loop |
| Simulation.World.ListedBy | src/bug.c:188 | loop l's view has nBugs entries, each a live bug index |
| Simulation.World.MemberAt | src/bug.c:188 | entry k of a view is a live bug index |
| Simulation.World.TouchPair | src/bug.c:193-209 | one pair's test changes the bugs and flag as the touch rule says |
| Simulation.World.CollideMembers | src/bug.c:184-212 | the outer loop runs the inner loop for each member of loop A in view order |
| Simulation.World.CollideBugWithLoop | src/bug.c:189-211 | the inner loop applies the touch rule to bug p and each member of loop B in order |
| Simulation.World.CollideLoops | src/bug.c:179-213 | the bugs and flag become the pair collision of loops a and b, over their views as they were on entry; the world stays valid |
| Simulation.World.CollideLaterLoops | src/bug.c:355-361 | the inner driver loop collides loop a with every later loop in order |
| Simulation.World.CollideAllLoops | src/bug.c:350-362 | the bugs and flag become the collision pass over every pair in driver order; the world stays valid |
| Simulation.World.StepAllBugs | src/bug.c:222-348 | every live bug becomes its step and no loop number changes |
| Simulation.World.UpdateAndRenderBugs | src/bug.c:215-364 | a frame's bug pass steps every bug and then runs the collision pass; the world stays valid |
| Game.SetupCounts | src/main.c:157-169 | after n loops are set up there are 50 + 30(n − 1) bugs, all in those loops, with 50 in loop 0 and 30 in each other loop |
| Game.SetupIsContiguous | src/main.c:157-169 | bug i belongs to loop 0 for i < 50 and to loop (i − 50)/30 + 1 after that, so each loop's bugs form one contiguous run, in loop order |
| Game.SetupLoopAt | src/main.c:157-161 | loop k of setup is the loop `AddLoop` makes from draw k, with its view block after the three arrays and the k blocks before it |
| Game.SetupBytesIs | src/main.c:142-161 | the arena bytes setup takes are the three arrays plus one pointer block of 1200 entries per loop |
| Game.SetupFitsGameArena | src/main.c:323 | for records of at most 256, 64 and 8 bytes and a world of at most 1024, the whole setup fits in a 20 MiB arena |
| Game.SetupWorld | src/main.c:134-170 | every assert passes exactly when the world comes in with no loops and the whole take fits below the arena size; the built world then has the fixed floor and capacities, 32 new loops with arena blocks in order, 980 bugs hatched at their loops' centres, the flag set, and is valid |
| Game.TakeArrays | src/main.c:137-155 | the fields are set and the three arrays are taken; this passes exactly when all three fit |
| Game.AddSetupLoop | src/main.c:161 | one `AddLoop` of setup passes exactly when the loop count stays within 32 and the arena has room |
| Game.HatchBugs | src/main.c:162-168 | the inner loop hatches 50 bugs into loop 0, or 30 into any other loop |
| Game.HatchBug | src/main.c:167 | one `AddBug` of setup appends a bug of loop l |
| Game.OutcomeRule | src/main.c:506-508 | the player has lost exactly when loop 0 is empty; won exactly when it is not empty and holds at least 4/5 of all bugs; otherwise play goes on |
| Game.FirstCheckInPlay | src/main.c:506 | right after setup, 50 of 980 bugs are the player's, so the game is in play |
| Game.PlayerWithinAll | src/main.c:506 | with a current index the player's count never exceeds the number of bugs, and a win means at least 4/5 of them |

## Left out

- Rendering is not modelled: meshes, colours (`loopColors` and its
  initialisation), circles, trapezoids, antennae, the antenna clock
  (`local_persist time`), and `SetupWorldMesh`. None of it affects the state.
- Floating point is modelled as exact reals. `sqrtf`, `sinf`, `cosf`,
  `v3_length` and `v3_norm` come from a supplied `MathLib`, and the
  properties hold for any such functions. Rounding and NaN are not modelled.
- `RandomFloat` is a supplied unit draw per call site. Per bug, the draws are
  given by bug index. Per touching pair, they are given by (loop a, loop b,
  i, j). The C generator consumes one shared stream, and only conditionally
  for the choice draw. The model does not fix the order in which draws are
  consumed.
- `Memory.MemoryArena`: the arena records `used` and `size` as byte counts;
  `base`, `memory` and the bytes themselves are not modelled. The world's
  arrays are Dafny arrays, and a push returns only the block's offset.
  Arena contents handed out by `PushArray` are represented by the parameters
  `blankBug` and `blankLoop`.
- `SetupWorld` receives the world record from its caller. Where that record
  comes from (`PushStruct` in `ResetWorld`, after `ClearArena`) is not part
  of this model, and neither is `ClearArena`.
- `Memory.MemoryArena.Push`: an `Assert` that fails is the `ok` result being
  false. A failed `Assert` always prints a message and then writes through a
  null pointer, which in practice crashes the program; the model stops at
  `ok == false` and does not model what happens after it.
- `Behaviour.Chase`, `Behaviour.EdgePushRule`: the C `int` direction
  multipliers are reals here. No value reaches a range where that differs.
- `Conversion.ProbA`: for two empty loops C divides 0 by 0 (NaN). The model
  returns 0.0. No bug pair is tested in that case, so the value is never read.
- `Behaviour.CenterWithinMembers`: `GetBugCenter` divides by `nBugs`, and it
  is only modelled for `nBugs > 0`, which is the only way the source calls it.
- The menu, input handling, audio, the window loop and the state machine of
  main.c are not part of this model. Only the win/lose predicate is.
- tims_math and the vector library are not part of this model beyond the
  vector arithmetic the core uses.

## Findings

| source | as written | input that shows it | evidently intended | confidence | as-written member | corrected member |
|---|---|---|---|---|---|---|
| src/cool_memory.c:17-19 | `used += size` on 64-bit `size_t` wraps, and the assert compares the wrapped value with the size | arena with 1024 bytes, 16 used, request of 2^64 − 8 bytes: `used` becomes 8 and passes the assert, and the block starting at 16 runs far past the arena end | a push passes only when `used + size` really fits below the size, and the blocks stay inside the arena and disjoint | low; not executed; only reachable with sizes far beyond any the game requests | Memory.WrappedPushAcceptsOversize | Memory.PushRunBlocks |
