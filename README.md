# canvas-duel: the duel simulation, verified

canvas-duel is a two-player canvas game. Two heroes patrol vertically at opposite edges of an arena.
Each hero fires projectiles horizontally at the other on a cooldown.
A hero reverses direction at the top and bottom walls, and also when it touches the mouse cursor.
Clicking a hero pauses it.
A projectile that overlaps the opposing hero scores a hit for its shooter.
A projectile that reaches a side wall is lost.
Each hero keeps at most 1000 projectiles in flight.

This project models the simulation core, `src/lib/board.ts`, in Dafny, and proves what each step does.
The modules follow the source's entities:

- `Constants`: the fixed radii, the projectile speed, the queue bound and the starting positions.
- `Collision`: `detectCollision`, as an exact integer test on squared distances.
  It is proved equal to the source's square-root form through a reference ceiling square root.
- `Projectiles`: `ProjectileResult` and `Projectile.tick`, as the function `Advance`.
  The side-effecting `filter` that advances a whole queue against the opposing hero becomes `Resolve`.
  `Resolve` returns the survivors and the number of hits.
- `Heroes`: `Hero` is a class with the source's mutable fields.
  Its `Tick` method follows the source statement by statement.
  It is proved equal to the pure step `HeroTick` on the value `HeroView`.
- `Board`: `Paused` and `BoardManager`.
  `BoardManager` is a class that holds the two heroes and the two projectile queues.
  Its `Tick` re-pins hero2, moves both heroes, shifts and pushes each queue, and resolves each queue against the opposing hero.
  `Tick` is proved equal to the pure step `BoardStep` on the value `BoardView`, and it keeps the manager's invariant `Valid`.
  `PauseHero` is the cursor hit-test.

Coordinates, velocities and timestamps are integers.
The canvas, the clock and the mouse are not modelled; their values are parameters of `Tick`.

## Model

| member | source | states |
|---|---|---|
| Collision.DetectCollision | src/lib/board.ts:9-18 | the circle-overlap test on squared distances: a negative sum of radii never collides; concentric circles collide iff the sum of radii is not negative; colliding circles lie within the sum of radii of each other on each axis |
| Collision.DetectCollisionMatchesSqrt | src/lib/board.ts:9-18 | the squared-distance test holds iff `radius1 + radius2` is at least the ceiling of the square root of the squared distance, which is the source's `Math.sqrt` comparison over integers |
| Collision.DetectCollisionSymmetric | src/lib/board.ts:9-18 | swapping the two circles does not change the outcome |
| Collision.PointInCircle | src/lib/board.ts:9-18 | with a second radius of 0, as `pauseHero` uses it, the test is "the point lies in the closed disc" |
| Projectiles.Advance | src/lib/board.ts:34-52 | Hit iff the current circle overlaps the hero; Miss iff there is no overlap and the next position reaches or crosses either wall (inclusive); otherwise None, with `x` moved by `velocity` and the survivor strictly inside the arena; `x` is unchanged on Hit and Miss; `y`, `velocity` and `radius` never change |
| Projectiles.BoundaryMiss | src/lib/board.ts:46-48 | a projectile 2 pixels from the left wall, flying left, is a Miss |
| Projectiles.Resolve | src/lib/board.ts:228-262 | the survivors plus the hits never outnumber the queue, and every survivor lies strictly inside the arena |
| Projectiles.ResolveFrom | src/lib/board.ts:228-262 | on the suffix from index `i`, `Resolve` keeps exactly the moved None-outcome projectiles in their order, and counts exactly the Hits |
| Projectiles.ResolveExactly | src/lib/board.ts:228-262 | the filter keeps exactly the None-outcome projectiles, each moved, in their original order, and credits one hit per Hit; every other projectile was a Miss |
| Projectiles.HitsAreCollisions | src/lib/board.ts:41-45 | the projectiles counted as hits are exactly those whose circle overlaps the target |
| Projectiles.WhereSound | src/lib/board.ts:236-244 | every index listed for an outcome has that outcome |
| Projectiles.WhereIncreasing | src/lib/board.ts:229 | the listed indices are strictly increasing: the filter keeps queue order |
| Projectiles.WhereComplete | src/lib/board.ts:236-244 | every index with the outcome is listed |
| Projectiles.OutcomesPartition | src/lib/board.ts:236-244 | the None, Hit and Miss counts add up to the queue length |
| Projectiles.ResolveKeepsFired | src/lib/board.ts:229-245 | the filter keeps each survivor's velocity and radius |
| Heroes.Move | src/lib/board.ts:94-130 | the phase `up` flips exactly when the next position meets the near wall or the hero touches the cursor; `y` moves by exactly `velocity`, in the direction of the new phase; a step that does not turn stays clear of the wall it is heading to |
| Heroes.Shoot | src/lib/board.ts:133-137 | a shot starts at the hero's centre with radius 5, and flies at +5 when the hero faces right and at -5 otherwise |
| Heroes.HeroTick | src/lib/board.ts:81-141 | a paused hero is unchanged and fires nothing; `x`, `radius`, `direction` and `hits` never change; the movement is `Move`; the hero fires iff `time - lastShot >= firerate`, from its position after the move, and then `lastShot` becomes `time`; otherwise `lastShot` is unchanged |
| Heroes.StaysInsideAwayFromCursor | src/lib/board.ts:94-130 | away from the cursor, in an arena taller than twice `radius + velocity`, a hero strictly inside the arena stays strictly inside after a tick |
| Heroes.CursorTurnCanLeaveArena | src/lib/board.ts:113-126 | a hero 16 pixels from the top, moving down onto the cursor, turns and ends partly above the arena |
| Heroes.Hero.constructor | src/lib/board.ts:62-76 | a new hero has the given position, radius and facing; it moves down, has never fired and has no hits |
| Heroes.Hero.Tick | src/lib/board.ts:81-141 | the hero's new fields and the returned projectile are those of `HeroTick` on its old fields |
| Board.Evict | src/lib/board.ts:205-207 | the oldest projectile is dropped exactly when the queue already holds the maximum, whether or not the hero fires; what remains is a suffix |
| Board.Enqueue | src/lib/board.ts:205-210 | the queue stays bounded; a new shot becomes the newest entry, behind what `Evict` kept; without a shot the queue is what `Evict` kept |
| Board.FireAllKeepsNewest | src/lib/board.ts:205-210 | firing any sequence of shots into a bounded queue leaves exactly the newest `max` of the old entries and the shots, oldest first |
| Board.EvictionScenario | src/lib/board.ts:205-210 | five shots into a queue of three leave the last three, in order |
| Board.BoardStep | src/lib/board.ts:182-263 | hero2 is re-pinned to `width - 50` and hero1 keeps its column; both queues stay within 1000; scores never fall; a paused hero keeps its `y`, phase and cooldown, and a paused hero2 is still re-pinned |
| Board.InitialBoard | src/lib/board.ts:166-180 | the state after construction satisfies the manager's invariant; both queues are empty and both scores zero; both heroes start at the same height, moving down, hero1 at 50 from the left edge and hero2 at 50 from the right |
| Board.Step1 | src/lib/board.ts:196-204 | hero1 keeps its column; a paused hero1 neither moves nor fires |
| Board.Step2 | src/lib/board.ts:212-220 | after the re-pin of line 194, hero2 stands at `width - 50` after its tick, paused or not; a paused hero2 neither moves nor fires; its shot starts from the re-pinned column |
| Board.Queued1 | src/lib/board.ts:205-210 | queue1 stays within 1000, and hero1's shot, if any, is its newest entry |
| Board.Queued2 | src/lib/board.ts:221-226 | queue2 stays within 1000, and hero2's shot, if any, is its newest entry |
| Board.Resolved | src/lib/board.ts:228-262 | each queue can only shrink; each shooter gains at most one hit per projectile and never loses any; nothing about a hero but its score changes |
| Board.BoardStepKeepsWellFormed | src/lib/board.ts:182-263 | a tick keeps the invariant: the facings and radii are fixed, both queues are bounded, and every projectile in a queue has its shooter's velocity and radius |
| Board.EnqueueKeepsFired | src/lib/board.ts:205-226 | adding the shooter's shot keeps every projectile of the queue fired by that shooter |
| Board.OpponentIsTheTarget | src/lib/board.ts:228-262 | queue1 is resolved only against hero2 after its move, and its hits go to hero1; queue2 only against hero1, with its hits going to hero2 |
| Board.PointBlankHit | src/lib/board.ts:41-45 | a shot at the centre of the opposing hero is a hit and leaves the queue at once |
| Board.FirstTickFires | src/lib/board.ts:132-140 | on the first tick, with a cooldown already elapsed and zero speed, both heroes hold still and fire |
| Board.ImmediateHitScenario | src/lib/board.ts:178-179 | in a 100-pixel arena both heroes start in the same column, so their first shots hit each other on the same tick |
| Board.BoardManager.constructor | src/lib/board.ts:172-180 | the heroes start at (50, 20) facing right and at (width-50, 20) facing left, with empty queues, and the invariant holds |
| Board.BoardManager.Tick | src/lib/board.ts:182-263 | the new state of both heroes and both queues is `BoardStep` of the old state, and the invariant is kept |
| Board.BoardManager.MoveAndFire | src/lib/board.ts:194-226 | after re-pinning hero2, each hero has taken its own tick and each queue has been shifted as needed and has received its hero's shot |
| Board.BoardManager.FireHero1 | src/lib/board.ts:196-210 | hero1's tick, then the shift and push of queue1; queue2 is untouched |
| Board.BoardManager.FireHero2 | src/lib/board.ts:212-226 | hero2's tick, then the shift and push of queue2; queue1 is untouched |
| Board.BoardManager.ResolveQueues | src/lib/board.ts:228-262 | both filters: each queue becomes its survivors against the opposing hero, and each shooter gains its queue's hits |
| Board.BoardManager.PauseHero | src/lib/board.ts:279-286 | Hero1 iff the cursor point is in hero1's circle; Hero2 iff it is not in hero1's circle but is in hero2's; None iff it is in neither. Nothing changes |

## Left out

- The `draw` methods and every canvas call are rendering through a foreign API: the save and restore, arcs, text, font and colour, and the score offset constant.
- The drawing context given to the constructor is rendering state, so the constructor takes only the width.
- The React component, the animation loop and the controls are user interface outside `src/lib/board.ts`.
  Their value ranges for fire rate and speed are not needed by any proof, so they are not preconditions.
- JavaScript numbers are floating point. Coordinates, velocities and timestamps here are unbounded integers, and `Math.sqrt` is replaced by an exactly equivalent integer comparison.
- Projectiles.Advance: returns the updated projectile as a value instead of assigning `this.x` in place. A projectile is created fresh and sits in exactly one queue, so no aliasing is lost.
- `radius <= y <= height - radius` is not claimed as an invariant, because the code does not keep it: a turn caused by the cursor, or a speed change between ticks, can carry a hero past a wall.
  The model proves only the per-step facts (`Heroes.Move`, `Heroes.StaysInsideAwayFromCursor`), and `Heroes.CursorTurnCanLeaveArena` exhibits the overshoot.
- `Board.FireAll` is the repeated shift-and-push of one queue. It exists only to state `Board.FireAllKeepsNewest`; the source pushes at most one shot per tick.
