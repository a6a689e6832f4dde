# flappy_bird_AI.py as a verified Dafny model

This project models the game logic of `flappy_bird_AI.py`. In that script a NEAT population of
neural networks plays Flappy Bird, one bird per genome. The model covers four parts:

- **The bird** (`bird.dfy`, module `BirdKinematics`). `Bird` is a class with the source's
  fields. Its `Jump`, `Move` and `SelectFrame` (the frame-selection half of `draw`) each change
  the object exactly as a pure step function does to a `BirdState` value: `Jumped`, `Moved`,
  `Drawn`. The lemmas are stated about those step functions.
- **The pipe** (`pipe.dfy`, module `PipeGeometry`). `Pipe` is a class whose constructor,
  `SetHeight` and `Move` follow `Placed`, `Heighted` and `Scrolled`. The random draw of
  `set_height` is a parameter `drawn` with `50 <= drawn < 450`.
- **The ground** (`base.dfy`, module `BaseScroller`). `Base` is a class whose `Move` follows
  `Scrolled`. It holds two tiles of width `width` that scroll left together; a tile that has
  left the screen is put back right behind the other.
- **One generation of `main`** (`generation.dfy`, module `GenerationLoop`; `tick.dfy`,
  module `GameTick`; `lists.dfy`, module `Lists`). This is the state `main` carries from one
  tick to the next:
  - birds, networks, genomes;
  - the fitness of every genome;
  - pipes, ground and score.

  `Start` is the set-up of `main`. Each phase of the body of `while runGame` is a method with
  its own loop (`MoveAndSteer`, `CheckPipes`, `Reward`, `DropPipes`, `RetireOutOfBounds`,
  `SelectFrames`). `GameTick.Tick` runs them in the source's order. `GameTick.Ticked` is the
  same tick as one function of the state before it. `Tick` is proved equal to it, and the
  properties of a tick are proved about `Ticked`.
- **The loop of ticks** (`run.dfy`, module `GenerationRun`). `Played` is a whole generation as a
  function of the state it starts from and of the random draws its ticks use, and the method
  `RunGeneration`, the `while runGame` loop, is proved to end in it. With networks that never
  answer "jump", a population of fewer than 2^m birds is gone after at most 25 + m ticks
  (`NeverFlappingGenerationEnds`). The y of every bird reaches 730, the ground line, on its 26th move. From then on
  each floor check removes only every other bird, because of the way birds are removed (below).

The model represents the source's objects as follows:

- **Genomes** are numbers: genome `i` is the `i`-th entry of `main`'s `genomes`.
- **Fitness** is a sequence indexed by genome number. A genome object outlives its removal
  from `ge`, and the fitness it carries then is still the one NEAT reads.
- **Networks** are named by their genome's number, so `nets == ge` is part of the invariant.
  `activate` followed by the test `output[0] > 0.5` is the parameter
  `decide(net, y, |y - height|, |y - bottom|)`.
- **`Pipe.collide`** (a pixel-mask overlap) is the parameter `collide(pipe.x, pipe.top,
  pipe.bottom, bird)`.
- **Sprite sizes** that the source reads off its images are the fields of `Sprites`:
  - the heights of the three bird frames;
  - the pipe's width and the height of the top pipe's sprite;
  - the ground's width.

### Removing birds while enumerating them

The source removes birds with `birds.pop(x)` (and the same for `neural_nets` and `ge`) inside
`for x, bird in enumerate(birds)`. It does this both in the pipe checks
(`flappy_bird_AI.py:242-249`) and in the floor check (`flappy_bird_AI.py:273-278`).

After a pop, the next bird slides into slot `x`, and the loop moves on to `x + 1`. The bird
right after a removed bird is therefore never looked at in that pass: it is neither checked
for collision nor for passing the pipe.

The model keeps this behaviour. `Lists.Retirement(cond)` marks the birds such a pass removes:
a bird is removed exactly when its condition holds and the bird before it was not removed.
The lemmas about it say:

- only birds meeting the condition go (`RetirementSound`);
- the bird right after a removed one always stays (`RetirementSkipsSuccessor`);
- of two neighbours that both hit, the first of which the pass looks at, only the first is removed (`RetirementMissesSecondOfPair`).

`PopStep` and `PassStep3` prove that the loop as written, popping in place, leaves exactly
`Keep(list, Retirement(cond))`.

In the pipe loop the skipped bird also misses the `passed` test. The model therefore marks a
pipe passed only when some bird that was actually looked at is right of it (`PassedBy`). Every
bird has x = 230, so with at least one bird looked at this is the same as "the pipe is left
of x = 230" (`PassedByAligned`).

Some further details of the code that the model keeps:

- A new pipe is always spawned at x = 600, wherever the other pipes are.
- The offscreen test uses the pipe's x before that tick's move.
- The pipe the networks sense depends on `birds[0]` only.
- Fitness is changed only for genomes still in `ge`. A genome removed earlier keeps its
  fitness.

## Model

| member | source | states |
|---|---|---|
| `Lists.Retirement` | flappy_bird_AI.py:242-249 | the removals of one pass, one flag per entry of the enumerated list |
| `Lists.RetirementAt` | flappy_bird_AI.py:242-249 | an entry is removed if and only if its condition holds and the entry before it was not removed |
| `Lists.RetirementSound` | flappy_bird_AI.py:245-249 | only entries whose condition holds are removed |
| `Lists.RetirementSkipsSuccessor` | flappy_bird_AI.py:245-249 | the entry right after a removed entry is never removed by the same pass |
| `Lists.RetirementCatchesIsolated` | flappy_bird_AI.py:245-249 | an entry that meets the condition, right after one that does not, is removed |
| `Lists.RetirementMissesSecondOfPair` | flappy_bird_AI.py:273-278 | of two neighbours that both meet the condition, where the pass looks at the first (it is the first entry or its predecessor stayed), the first is removed and the second stays |
| `Lists.PopStep` | flappy_bird_AI.py:245-249 | slot `x` holds the original entry the pass is at; `pop(x)` exactly when its condition holds moves the pass to the next entry it looks at |
| `Lists.PassStep3` | flappy_bird_AI.py:246-249 | `birds`, `neural_nets` and `ge` popped at the same slot stay three aligned copies of one pass |
| `Lists.Keep` | flappy_bird_AI.py:270-271 | compaction of a list by removal flags never makes it longer |
| `Lists.KeepFrom` | flappy_bird_AI.py:270-271 | every entry left was an entry whose removal flag was false |
| `Lists.KeepRetains` | flappy_bird_AI.py:270-271 | every entry whose removal flag is false is left |
| `BirdKinematics.Hatched` | flappy_bird_AI.py:24-32 | a new bird is at (x, y) with velocity 0 and within the bounds move, jump and draw keep |
| `BirdKinematics.Bird.constructor` | flappy_bird_AI.py:24-32 | the object's fields are those of `Hatched(x, y)` |
| `BirdKinematics.Jumped` | flappy_bird_AI.py:34-37 | a jump sets the velocity to -10.5, the tick counter to 0 and `height` to the current y, and changes nothing else |
| `BirdKinematics.Bird.Jump` | flappy_bird_AI.py:34-37 | velocity becomes -10.5, the tick counter 0 and `height` the current y; nothing else changes |
| `BirdKinematics.Displacement` | flappy_bird_AI.py:42-50 | the displacement is at most 16; it is negative exactly when v*t + 1.5*t^2 is, and then it is that value minus 2; otherwise it is that value capped at 16 |
| `BirdKinematics.Moved` | flappy_bird_AI.py:39-60 | the tick counter goes up by one; y falls at most 16, rises by more than 2 exactly when the formula is negative; tilt never rises above max(tilt, 25) and only drops by 20 from above -90; only y, tilt and the counter change |
| `BirdKinematics.Bird.Move` | flappy_bird_AI.py:39-60 | the object's new fields are `Moved` of its old ones, and the tilt and counter bounds are kept |
| `BirdKinematics.JumpThenMoveRises` | flappy_bird_AI.py:34-52 | the move right after a jump lifts the bird by exactly 11 and sets the tilt to at least 25 |
| `BirdKinematics.MoveKeepsSane` | flappy_bird_AI.py:34-81 | move, jump and frame selection keep tilt in (-110, 25], the frame counter in [0, 20) and the frame index below 3 |
| `BirdKinematics.FallSaturates` | flappy_bird_AI.py:42-46 | from the ninth tick after a jump on, each move drops the bird by exactly 16 |
| `BirdKinematics.FreeFall` | flappy_bird_AI.py:39-52 | a new bird that never jumps is 21 + 16*(n-3) below its start after n >= 3 moves |
| `BirdKinematics.NeverJumpingBirdLands` | flappy_bird_AI.py:39-52 | a bird created at y = 350 that never jumps is above y = 730 after 25 moves and at or below it after 26 |
| `BirdKinematics.Drawn` | flappy_bird_AI.py:62-81 | frame selection changes only the frame counter and the frame; a counter in [0, 20) stays there and the frame index stays below 3 |
| `BirdKinematics.Bird.SelectFrame` | flappy_bird_AI.py:62-81 | the object's new fields are `Drawn` of its old ones; the counter stays in [0, 20) |
| `BirdKinematics.DrawFollowsFlapCycle` | flappy_bird_AI.py:63-77 | when not diving, the counter goes to (count+1) mod 20 and the frame is 0, 1, 2, 1 by bands of 5; nothing else changes |
| `BirdKinematics.DrawWhileDiving` | flappy_bird_AI.py:79-81 | with tilt <= -80, the frame is 1 and the counter is 10 |
| `BirdKinematics.FlapCounterCycles` | flappy_bird_AI.py:63-81 | n draws of a bird that is not diving advance the counter by n modulo 20 |
| `PipeGeometry.Placed` | flappy_bird_AI.py:96-110 | a new pipe is at x, not passed, with `top = height - topImageHeight`, `bottom = height + 200`, and 50 <= height < 450 |
| `PipeGeometry.Pipe.constructor` | flappy_bird_AI.py:96-104 | the object's fields are those of `Placed(x, drawn, topImageHeight)` |
| `PipeGeometry.Heighted` | flappy_bird_AI.py:107-110 | the height is the draw, the bottom pipe starts 200 below it, the top pipe's sprite ends at it; nothing else changes |
| `PipeGeometry.Pipe.SetHeight` | flappy_bird_AI.py:107-110 | 50 <= height < 450 and `bottom == height + 200`; the fields are `Heighted` of the old ones |
| `PipeGeometry.OpeningBetweenPipes` | flappy_bird_AI.py:107-110 | the top pipe ends above the bottom pipe, and the opening lies between y = 50 and y = 650 |
| `PipeGeometry.Pipe.Move` | flappy_bird_AI.py:113-114 | x drops by exactly 5 and nothing else changes |
| `PipeGeometry.Scrolled` | flappy_bird_AI.py:113-114 | a move changes x by -5 and no other field |
| `PipeGeometry.ScrolledTimesShift` | flappy_bird_AI.py:113-114 | n moves shift x by exactly -5n |
| `PipeGeometry.SpawnedPipeReachesBird` | flappy_bird_AI.py:252-260 | a pipe spawned at x = 600 is left of a bird at x = 230 after 75 moves and not after 74 |
| `BaseScroller.Base.constructor` | flappy_bird_AI.py:144-147 | the tiles are at 0 and `width` |
| `BaseScroller.Laid` | flappy_bird_AI.py:144-147 | the ground line is y; the initial tiles sit exactly `width` apart with the left one at the screen's edge, which is tiled |
| `BaseScroller.Base.Move` | flappy_bird_AI.py:149-161 | the fields are `Scrolled` of the old ones, and tiling is kept when width > 5 |
| `BaseScroller.Scrolled` | flappy_bird_AI.py:149-161 | the ground line stays; with width > 5, a move keeps the tiles exactly `width` apart, the left one within one width of the edge |
| `BaseScroller.ScrollRepositionsOnlyOffscreen` | flappy_bird_AI.py:153-161 | a tile moves other than by -5 only when it has fully left the screen, and it then lands right after the other tile |
| `BaseScroller.TiledCoversScreen` | flappy_bird_AI.py:144-161 | tiled segments cover every column from 0 to `width` |
| `GenerationLoop.Start` | flappy_bird_AI.py:191-207 | one new bird at (230, 350) and fitness 0 per genome; networks and genomes numbered in order; one pipe at 600; the base laid at y = 730; score 0; the invariant holds |
| `GenerationLoop.Ids` | flappy_bird_AI.py:195-200 | genome `i` is the `i`-th genome, with no repeats |
| `GenerationLoop.SensedPipe` | flappy_bird_AI.py:223-229 | the index is 1 exactly when there are two or more pipes and `birds[0]` is right of the first pipe's right edge; otherwise 0 |
| `GenerationLoop.Steered` | flappy_bird_AI.py:232-237 | the bird is moved; when its network says so for the moved y and the sensed pipe it is the moved bird after `jump` (velocity -10.5, counter 0, `height` its new y), and otherwise it is just the moved bird; x never changes |
| `GenerationLoop.Collisions` | flappy_bird_AI.py:245 | one collision answer per bird |
| `GenerationLoop.OutOfBoundsFlags` | flappy_bird_AI.py:275 | one floor-or-ceiling answer per bird |
| `GenerationLoop.SeenPastNext` | flappy_bird_AI.py:252-254 | each bird the loop looks at adds its own `pipe.x < bird.x` test to the pass mark |
| `GenerationLoop.PassedByAligned` | flappy_bird_AI.py:252-254 | with every bird at x = 230, a pipe is marked passed exactly when a bird meets it and the pipe's x is below 230 |
| `GenerationLoop.MoveAndSteer` | flappy_bird_AI.py:231-237 | each bird is moved and then jumps exactly when its network says so for the sensed pipe; every genome in `ge` earns 0.1 and no other genome's fitness changes |
| `GenerationLoop.CollideAndPass` | flappy_bird_AI.py:242-254 | the three lists lose exactly the birds that `Retirement` marks from the collision answers; each removed genome loses 1.0; the pipe is marked passed exactly when a bird it looked at is right of it; only `passed` changes |
| `GenerationLoop.Survivors` | flappy_bird_AI.py:241-249 | the three lists after the collision passes of the pipes have equal length |
| `GenerationLoop.SweepOne` | flappy_bird_AI.py:244-254 | one round of the inner loop: the bird at slot x is checked against the pipe, popped with a penalty of 1.0 if it hits, and the pipe is marked passed if the bird is right of it; the pass then stands at the next bird the source looks at |
| `GenerationLoop.SurvivorsKeepPairs` | flappy_bird_AI.py:241-249 | the genomes left are distinct genomes of the flock, each bird left is its genome's bird, and each network still matches its genome |
| `GenerationLoop.CheckPipes` | flappy_bird_AI.py:241-260 | the birds left are `Survivors`; the genomes removed lose 1.0; each pipe is moved, marked passed by the birds the inner loop looks at on its turn (those that survived the earlier pipes), and flagged offscreen by its x before the move; `addPipe` is true exactly when some pipe became passed |
| `GenerationLoop.CheckOne` | flappy_bird_AI.py:242-260 | one round of `for pipe in pipes`: given the state after pipes 0 .. k-1 (`Checked`), the collisions, the penalty, the pass mark, the move and the offscreen flag of pipe k extend it to the state after pipes 0 .. k |
| `GenerationLoop.Reward` | flappy_bird_AI.py:265-266 | every genome still in `ge` earns exactly 5.0; no other changes |
| `GenerationLoop.DropPipes` | flappy_bird_AI.py:270-271 | the pipes left are the unflagged pipes, in their order |
| `GenerationLoop.RetireOutOfBounds` | flappy_bird_AI.py:273-278 | the three lists lose exactly the birds `Retirement` marks from the floor and ceiling test (`y + height of frame >= 730` or `y < 0`) |
| `GenerationLoop.SelectFrames` | flappy_bird_AI.py:183-184 | every bird gets the frame selection of `draw` applied once |
| `GameTick.Steering` | flappy_bird_AI.py:231-237 | one moved-and-steered bird per bird |
| `GameTick.Cleared` | flappy_bird_AI.py:241-249 | the birds, networks and genomes left by the pipe checks stay aligned |
| `GameTick.MovedPipes` | flappy_bird_AI.py:241-260 | one moved pipe per pipe |
| `GameTick.OffscreenFlags` | flappy_bird_AI.py:257-258 | one offscreen answer per pipe |
| `GenerationLoop.Raised` | flappy_bird_AI.py:233 | a bonus keeps one fitness per genome |
| `GenerationLoop.Charged` | flappy_bird_AI.py:246 | a penalty keeps one fitness per genome |
| `GameTick.Scored` | flappy_bird_AI.py:239-254 | `addPipe` holds exactly when the newest pipe is left of x = 230 and some bird survives the earlier pipes, so that the inner loop looks at it for the newest one |
| `GameTick.TickPipes` | flappy_bird_AI.py:239-271 | the pipes after a tick are at most the pipes before it, plus one when the tick scored |
| `GameTick.TickFitness` | flappy_bird_AI.py:231-266 | a tick keeps one fitness per genome |
| `GameTick.Grounded` | flappy_bird_AI.py:273-278 | the floor check keeps the three lists aligned |
| `GameTick.DrawnAll` | flappy_bird_AI.py:183-184 | drawing keeps one bird per bird |
| `GameTick.Ticked` | flappy_bird_AI.py:223-280 | one tick with a bird left: the three lists stay equally long, there is still one fitness per genome, and the score rises by 0 or 1 |
| `GameTick.PlayPipes` | flappy_bird_AI.py:223-271 | the loops over the birds and over the pipes, scoring and pipe removal leave the flock, fitness and pipes that `Ticked` describes |
| `GameTick.Play` | flappy_bird_AI.py:223-281 | a tick with birds left ends in exactly `Ticked` |
| `GameTick.Tick` | flappy_bird_AI.py:211-281 | the generation stops exactly when no bird is left, and then nothing changes; otherwise the state becomes `Ticked`; the invariant is kept, no bird or genome is added, and the score rises by at most one |
| `GameTick.NewestPassed` | flappy_bird_AI.py:252-254 | the newest pipe becomes passed exactly when it is left of x = 230 and some bird survives the earlier pipes, so that the inner loop looks at it for the newest one |
| `GameTick.OnlyNewestFlips` | flappy_bird_AI.py:252-255 | when all older pipes are passed, some pipe becomes passed exactly when the newest does |
| `GameTick.ScoredIsNewest` | flappy_bird_AI.py:252-264 | `addPipe` is the newest pipe's new passed mark |
| `GameTick.ScoreCountsNewestPipe` | flappy_bird_AI.py:252-264 | the score rises by one exactly when the newest pipe is left of x = 230 and a bird meets it; it rises by one or not at all; birds left after the pipe checks are enough to pass it |
| `GameTick.MovedPipesShape` | flappy_bird_AI.py:252-260 | the pipe loop only moves pipes and never clears a passed mark |
| `GameTick.AheadAfterTick` | flappy_bird_AI.py:252-271 | after scoring, spawning and removal, the pipes again end in one unpassed pipe not behind x = 225, all others passed |
| `GameTick.TickKeepsPipesAhead` | flappy_bird_AI.py:241-271 | while a bird is left, the pipes after a tick end in an unpassed pipe ahead of the birds, and all older pipes are passed |
| `GameTick.GroundedPairs` | flappy_bird_AI.py:273-278 | after the floor check, the genomes left are distinct genomes of the tick's start, each with its own network and its own steered bird; no bird is added |
| `GameTick.SurvivorsShrink` | flappy_bird_AI.py:241-249 | the pipe checks never add a bird |
| `GameTick.TickKeepsInv` | flappy_bird_AI.py:211-281 | a tick keeps the invariant: equal list lengths, networks match genomes, distinct genomes, birds at x = 230 with sane kinematics, ground tiled, newest pipe ahead |
| `GameTick.TickedBounds` | flappy_bird_AI.py:211-281 | a tick keeps the invariant, adds no bird and no genome, and adds 0 or 1 to the score |
| `GameTick.TickFitnessAccounts` | flappy_bird_AI.py:231-266 | per genome: unchanged if it was gone; +0.1 - 1.0 if a pipe check removed it; +0.1 + 5.0 if it is left after the pipe checks and the tick scored; +0.1 otherwise |
| `GameTick.TickBirdsFollowGenomes` | flappy_bird_AI.py:231-278 | every bird left after a tick is its own genome's bird, moved, steered and drawn; the lists only shrink and stay aligned |
| `GameTick.TickPipesAccount` | flappy_bird_AI.py:257-271 | the pipes after a tick are the moved pipes that were not offscreen, plus the new pipe at 600, which comes last when the tick scored |
| `GameTick.GroundedHalves` | flappy_bird_AI.py:273-278 | when every bird that reaches the floor check is out of bounds, the check leaves half of them, rounded down |
| `Lists.RetirementAlternates` | flappy_bird_AI.py:273-278 | when every entry meets the condition, the pass removes the entries at even positions and keeps those at odd ones |
| `Lists.RetirementHalves` | flappy_bird_AI.py:273-278 | when every entry meets the condition, the pass leaves half the entries, rounded down |
| `GenerationRun.Played` | flappy_bird_AI.py:211-280 | a generation from a state that holds the invariant: the invariant holds at its end, no bird or genome is added, and the score rises by at most one per tick |
| `GenerationRun.PlayedStep` | flappy_bird_AI.py:211-229 | a generation with a bird left plays one tick and goes on from the state after it |
| `GenerationRun.RunGeneration` | flappy_bird_AI.py:211-229 | the loop ends in exactly `Played` of the draws; it stops early only when no bird is left; the score rises by at most one per tick |
| `GenerationRun.FlownFalls` | flappy_bird_AI.py:39-81 | a bird that never jumps is, apart from its frame, the new bird moved k times |
| `GenerationRun.FlownLands` | flappy_bird_AI.py:39-52 | from its 26th move on, such a bird is at or below y = 730 |
| `GenerationRun.NeverFlappingTick` | flappy_bird_AI.py:223-280 | with networks that never jump, a flock of identical birds stays one of identical birds one tick older, never grows, and from the 26th tick on keeps at most half its birds |
| `GenerationRun.FlockDwindles` | flappy_bird_AI.py:211-280 | such a flock, fewer than 2^m birds k ticks old, is gone once the draws cover the ticks up to the 25th and m more |
| `GenerationRun.NeverFlappingGenerationEnds` | flappy_bird_AI.py:191-280 | a population as `main` sets it up, of fewer than 2^m birds whose networks never jump, is gone after at most 25 + m ticks |

## Left out

- Rendering is not modelled: the rotate-and-blit half of `Bird.draw`, `Pipe.draw`, `Base.draw`, `draw_window`, fonts, image loading, the score and generation text. Drawing a bird keeps only its frame selection (`SelectFrames`).
- `Bird.get_mask` and `Pipe.collide` are pixel-mask overlaps in pygame. They are the parameter `collide`.
- NEAT is not modelled: network creation, `activate` and its floating-point output, `Population.run`, the configuration, and the reporters. The jump decision is the parameter `decide`.
- `random.randrange` is not modelled. Each tick takes a `drawn` value in [50, 450), used only if a pipe is spawned.
- Not modelled: `clock.tick(60)`, the pygame event loop, the quit path (`pygame.quit`, `quit`), the global `GEN` counter, and the `__main__` path handling. These are timing, I/O and process control.
- `pipes.remove(rem)` removes a pipe object by identity. The model removes by position. Each pipe object is in the list once, so this is the same removal.
- The tick's lists are values that the methods reassign, not lists changed in place. Each bird and pipe object sits in exactly one list and nothing else refers to it, so no aliasing is lost.
- GenerationRun.RunGeneration: the source loop runs until no bird is left, with no bound. The model runs at most one tick per element of `draws`; what it ends in is `Played` of those draws.
- Fitness is a float in the source; the model adds exactly in `real`, so the rounding of the 0.1 steps is not modelled. No part of a tick reads fitness.
- GameTick.Steering: its own contract states only the number of birds; which bird each one is, is stated by `TickBirdsFollowGenomes`.
- GameTick.Cleared: its own contract states only that the three lists stay aligned; their content is stated by `CheckPipes` and `SurvivorsKeepPairs`.
- GameTick.Grounded: its own contract states only that the three lists stay aligned; their content is stated by `RetireOutOfBounds` and `GroundedPairs`.
- GameTick.MovedPipes: its own contract states only the number of pipes; each moved pipe is stated by `CheckPipes` and `MovedPipesShape`.
- GameTick.OffscreenFlags: its own contract states only the number of flags; which pipes go is stated by `TickPipesAccount`.
- GenerationLoop.Raised: its own contract states only the number of fitness values; the amounts are stated by `TickFitnessAccounts`.
- GenerationLoop.Charged: its own contract states only the number of fitness values; the amounts are stated by `TickFitnessAccounts`.
- GameTick.TickFitness: its own contract states only the number of fitness values; the amounts are stated by `TickFitnessAccounts`.
- GameTick.Ticked: its own contract states only list lengths and the score step; the rest is stated by `TickedBounds`, `TickKeepsInv`, `TickFitnessAccounts`, `TickBirdsFollowGenomes` and `TickPipesAccount`.
- GameTick.TickPipes: its own contract states only the number of pipes; which pipes they are is stated by `TickPipesAccount`.
- GameTick.DrawnAll: its own contract states only the number of birds; each drawn bird is stated by `SelectFrames` and `TickBirdsFollowGenomes`.
- GenerationLoop.Collisions: its own contract states only the number of answers; their effect is stated by `CollideAndPass`.
- GenerationLoop.OutOfBoundsFlags: its own contract states only the number of answers; their effect is stated by `RetireOutOfBounds`.
- GenerationLoop.Survivors: its own contract states only that the three lists stay aligned; their content is stated by `SurvivorsKeepPairs` and `CheckPipes`.
- Lists.Retirement: its own contract states only the number of flags; what they mean is stated by `RetirementAt`.
- Lists.Keep: its own contract states only that the list does not grow; what is left is stated by `KeepFrom` and `KeepRetains`.
- GenerationRun.NeverFlappingGenerationEnds: the bound 25 + m does not use the frame heights. A frame of height h > 0 takes a bird out of bounds a few moves earlier; the model only assumes h >= 0.
- GenerationLoop.SensedPipe: no lemma ties the choice to "the nearest pipe not yet passed". That needs the spacing between pipes, which the invariant does not track.
