# Stack Plus simulation core in Dafny

This project models the game logic of Stack Plus (`script.js`), a block-stacking game.

**The run**
- A moving block oscillates along one horizontal axis above the tower.
- A drop resolves it against the block below it, in one of three ways:
  - a perfect drop snaps it into place;
  - a partial drop keeps the overlap and cuts the rest off as a falling debris piece;
  - a miss ends the run.
- Every third perfect drop in a row grows the block back toward its initial size.
- After every placement the axis flips and a new moving block is spawned one level up.

**Each animation frame**
- The frame delta is clamped.
- The moving block takes an oscillator step.
- Debris falls under gravity and is pruned below the floor.
- Particle bursts age, fade and are pruned.

**The save data**
- A profile holds the best score, stars, owned and equipped skins and skies, statistics and the daily challenges.
- The challenge reducer, the shop's buy/equip handler and the challenge claim handler change it.

**How the model is built**
- `GameState` (module `Game`) is a class.
  - Its fields are the run flags, the score, the axis, the perfect streak, the block stack, the debris list, the burst list, the frame clock and the menu-overlay flag.
  - Its methods are the source's operations, each with its full effect stated against specification functions.
- `Profile` (module `Profile`) is a class holding the save data. Its methods are the save-data updates.
- Block records, debris pieces and bursts are datatype values stored in `seq` fields that the methods reassign.
- The pure parts are functions, with lemmas proving what the game relies on:
  - the drop resolver (`Geometry.Resolve`);
  - the growth rule;
  - the oscillator step;
  - the debris and burst updates;
  - the challenge reducer.
- The loops of the source are methods with loop invariants, each proved equal to a specification function:
  - `StepPieces` for updateFallingPieces, equal to `Survivors`;
  - `AgeBursts` and `UpdatePositions` for updateParticles, equal to `LiveBursts` and `AgedPositions`;
  - `UpdateChallengeProgress`, equal to `ProgressAll`;
  - `CreateDailyChallenges`, equal to `DailySelection`.
- `Scenarios` drives short sessions through the public operations:
  - a miss on the first drop;
  - resuming a lost run;
  - restarting;
  - input ignored while the menu is shown;
  - claiming a reward once and spending it in the shop.

**Invariant kept by every state-changing method** (`GameState.Valid`)
- The stack holds the base and the moving block, with one level of `BlockHeight` per index.
- Every block's sizes stay in (0, initial size].
- Only the top block moves, with the same sizes as its support and aligned with it on the other axis.
- The score equals the number of placed blocks.
- A lost run is not being played.
- The perfect streak never exceeds the score.
- Every burst has one position per particle.
- The profile's save data is valid: no repeated owned items, equipped items are owned, and every challenge is completed exactly when its progress has reached its goal.

A lost run can be resumed without a reset.
- After a loss, the close button (script.js:1132-1136) or the menu button (script.js:1120-1130) hides the menu without starting anything.
- The next primary action (script.js:1105-1114) then sets `playing` and clears `gameOver` on the same tower.
- `GameState.PrimaryAction`, `CloseMenuButton` and `MenuButton` state this, and `Scenarios.LostRunResumes` walks through it. Its second drop misses again and counts a second game.

## Model

| member | source | states |
|---|---|---|
| `Geometry.Clamp` | script.js:3 | clampNumber returns the value when it lies in [min, max] and the nearer bound otherwise, so the result is in range whenever min ≤ max; with min > max it returns min |
| `Geometry.FrameDelta` | script.js:1085 | the frame delta always lies in [0, 0.033] seconds, equals the elapsed time when that is already in range, is exactly 0.033 after a longer frame and exactly 0 when the clock ran backwards |
| `Geometry.Resolve` | script.js:908-947 | the drop decision along one axis: perfect within 0.08 of the support, a miss when the overlap is at most 0.0001, otherwise the overlap kept and the rest cut on the far side; its properties are the Resolve lemmas below |
| `Geometry.ResolvePerfect` | script.js:911-924 | a drop is perfect exactly when the offset from the support is at most 0.08 (inclusive); then the block is snapped to the support's centre, keeps its size and nothing is cut |
| `Geometry.ResolveMiss` | script.js:926-941 | a drop misses exactly when it is not perfect and the two extents overlap by at most 0.0001 |
| `Geometry.ResolvePartial` | script.js:943-952 | a partial drop keeps a footprint exactly as wide as the overlap (more than 0.0001, at most the moving block's size) and kept size plus cut size equals the moving block's size |
| `Geometry.ResolveKeepsIntersection` | script.js:926-944 | the kept footprint of a partial drop is exactly the intersection of the moving block's and the support's extents (a point is in one iff it is in both of the others) |
| `Geometry.ResolveCutSide` | script.js:946-947 | for a block no wider than its support, the cut piece is the part beyond the support on the side away from it and shares an edge with the kept footprint |
| `Geometry.ResolveEqualWidths` | script.js:943-947 | with equal widths the cut piece is exactly as wide as the offset between the two blocks |
| `Sequences.FilterExactly` | script.js:998-1002 | rebuilding a `remaining` array keeps exactly the elements passing the test: every kept element was in the list and passes, every passing element is kept |
| `Sequences.FilterConcat` | script.js:1036-1040 | the pruning keeps relative order: filtering a concatenation is the concatenation of the filtered parts |
| `Sequences.Dedupe` | script.js:441 | `Array.from(new Set(list))` has no repeats, holds exactly the list's elements, is no longer than it, and leaves a list without repeats unchanged |
| `Debris.CutPiece` | script.js:823-848 | the cut-off piece: the cut's width on the axis, the block's width on the other axis, at the cut centre and the block's level, kicked at 2.2 away from the kept block and lifted at 2.0, with the drawn spin; its properties are in CutPieceFliesOutward |
| `Debris.CutPieceFliesOutward` | script.js:818-847 | a cut piece has the cut's width on the axis and the block's on the other, sits at the cut centre and the block's level, is kicked away from the kept block along the axis only, and rises at first |
| `Debris.StepPiece` | script.js:989-997 | one Euler step: the vertical velocity is lowered by 20·dt first, then the position advances by the new velocity and the rotation by the angular velocity |
| `Debris.Survivors` | script.js:985-1002 | the debris list after a frame: every piece stepped and only those above y = -14 kept, in order; characterised by SurvivorsExactly and computed by StepPieces |
| `Debris.SurvivorsExactly` | script.js:985-1003 | after a frame the debris list holds exactly the stepped pieces still above y = -14, each coming from a piece of the old list |
| `Game.StepPieces` | script.js:985-1003 | the updateFallingPieces loop (vertical velocity lowered by 20·dt first, then position and rotation advanced) returns exactly the survivors of the frame |
| `Bursts.NewBurst` | script.js:786-791 | spawnBurstAt creates a burst at the given origin with the drawn particles, age 0 and opacity 0.9, every particle at the closed-form position for age 0, that is at the origin (as createBurstPoints writes them at lines 626-628 and 651) |
| `Bursts.Fade` | script.js:1017-1018 | the fade factor lies in [0, 1], is 1 at age 0, reaches 0 at age 0.7 and falls linearly in between |
| `Bursts.UpdatePositions` | script.js:1020-1034 | the particle loop sets every live particle to its closed-form position at the burst's age and leaves every expired particle where it was |
| `Bursts.AgeBurst` | script.js:1007-1034 | a frame adds the delta to the burst's age, sets its opacity to 0.9 times the fade at the new age (so within [0, 0.9] and 0 from age 0.7 on), moves its particles to their positions at the new age, and keeps origin, colour and particles |
| `Bursts.AgedPosition` | script.js:1020-1033 | a particle's position at a burst age: unchanged once the age exceeds its lifetime, otherwise (vx·t, (vy − 2.6·t)·t, vz·t) |
| `Bursts.LiveBursts` | script.js:1005-1040 | the burst list after a frame: every burst aged and only those younger than 0.8 kept, in order; characterised by LiveBurstsExactly and computed by AgeBursts |
| `Bursts.LiveBurstsExactly` | script.js:1036-1040 | after a frame the burst list holds exactly the aged bursts younger than 0.8 |
| `Bursts.AgeIsElapsedTime` | script.js:1008 | a burst's age is the sum of the frame deltas it has lived through |
| `Bursts.FrozenParticleStaysPut` | script.js:1021-1022 | a particle whose lifetime has passed stays where it is for every later frame |
| `Bursts.LiveParticleClosedForm` | script.js:1024-1033 | a particle within its lifetime is at (vx·t, (vy − 2.6·t)·t, vz·t) for the burst age t, whatever its earlier positions were |
| `Game.AgeBursts` | script.js:1005-1041 | the updateParticles loop returns exactly the surviving aged bursts, all well formed |
| `Tower.SpawnOn` | script.js:722-745 | the spawned block sits one block height above the top, has its sizes, starts 5.2 back along the new axis and aligned on the other, moves, with direction +1 |
| `Tower.Grow` | script.js:862-864 | a grown size stays within [0.6, initial size], is never smaller than a size already within the initial size, is exactly size + 0.16 when that is in range, exactly 0.6 when size + 0.16 falls below that, and exactly the initial size when size + 0.16 exceeds it |
| `Tower.Commit` | script.js:809-868 | the top block after finalizePlacedBlock's writes: kept centre and size on the axis, not moving, pulse 0.12, and both sizes grown when growth is due; its properties are in CommitGeometry |
| `Tower.CommitGeometry` | script.js:801-868 | the committed block takes the kept centre (and, without growth, the kept size) on the axis, keeps its other centre, level and direction, stops moving with pulse 0.12; with growth both sizes grow; sizes never leave (0, initial size] |
| `Tower.Speed` | script.js:965 | the oscillator speed is never below the base speed 2.25 |
| `Tower.OscillatorStep` | script.js:965-982 | the moving block after one step: moved by direction·speed·dt and stopped at origin ± range with its direction turned back; its properties are in OscillatorStepBounds |
| `Tower.SpeedRises` | script.js:965 | the speed rises strictly with the score, by exactly 0.03 per point |
| `Tower.SpeedUncapped` | script.js:965 | the ramp has no cap: every speed is exceeded at some score |
| `Tower.OscillatorStepBounds` | script.js:955-983 | an oscillator step changes only the position on the axis and the direction; the position stays within origin ± range; inside it moves by direction·speed·dt keeping direction, below it stops at the low bound with direction +1, above it at the high bound with direction −1 |
| `Tower.FreshTowerStacked` | script.js:747-763 | the tower resetGame builds has the shape the game keeps |
| `Tower.CommitKeepsShape` | script.js:801-880 | committing a placement and spawning the next block on the other axis keeps the stack's shape |
| `Tower.OscillatorKeepsShape` | script.js:955-983 | an oscillator step keeps the stack's shape |
| `Economy.Completion` | script.js:529-533 | applyCompletion: completed is recomputed as progress ≥ goal |
| `Economy.ProgressOne` | script.js:535-560 | one challenge after one event: claimed ones are skipped, counting challenges add one, record challenges keep the maximum, completion is recomputed; its properties are in ProgressOneSpec |
| `Economy.ProgressAll` | script.js:535-561 | every challenge of the list progressed by the event, in place; its properties are in ProgressAllSpec and UpdateChallengeProgress computes it |
| `Economy.ProgressOneSpec` | script.js:529-561 | one event leaves a claimed or unconcerned challenge unchanged; otherwise only progress and completion change, progress never goes down, counting challenges advance by exactly one, record challenges move to exactly the larger of their progress and the reported value, completion equals progress ≥ goal |
| `Economy.ProgressAllSpec` | script.js:539-561 | over the whole list claimed challenges are untouched, no progress goes down, and consistent challenges stay consistent |
| `Economy.SelectFromExtends` | script.js:301-317 | the selection keeps the challenges chosen so far first, in pick order, and every later one is the fresh instance of a remaining pick |
| `Economy.FirstPickTaken` | script.js:301-317 | the first template drawn is always the day's first challenge |
| `Economy.CreateDailyChallenges` | script.js:286-322 | the loop returns exactly `DailySelection` of the picks (the first three distinct kind:goal keys in pick order): at most three challenges, all fresh instances of the pool, with distinct kind and goal, all among the picks, and all distinct picks when fewer than three |
| `Profile.AppendNew` | script.js:441 | adding an item not owned to an owned list without repeats leaves nothing for the de-duplication to remove |
| `Profile.ShopKeepsValid` | script.js:433-443 | equipping an owned item, or buying and equipping a new one, keeps the save data valid |
| `Profile.PlacementRecorded` | script.js:851-860 | a placement raises the total placed blocks by one and the best score and streak to the maximum of the old and current values, awards one star plus one for a perfect drop, and runs the challenges through the placed-block event and then, on a perfect drop, the perfect event with the new streak; every other field stays |
| `Profile.PlacementEvents` | script.js:859-860 | per challenge: open place-blocks challenges count one more block, open perfect-total challenges one more perfect drop on a perfect drop only, open perfect-streak challenges reach the maximum of their progress and the streak on a perfect drop; score challenges and claimed ones are untouched |
| `Profile.AfterPlacement` | script.js:851-873 | the save data after a placement: the best score and streak are the maxima, one more placed block, stars as in a placement plus two more when the block grew, the challenges as in `PlacementRecorded`, and every other field (games played, owned and equipped items, day key) unchanged |
| `Profile.Profile.constructor` | script.js:58-75 | createDefaultSaveData with today's challenges: nothing scored, classic skin and day sky owned and equipped |
| `Profile.Profile.AwardStars` | script.js:793-799 | a positive amount is added to the stars, anything else changes nothing |
| `Profile.Profile.UpdateChallengeProgress` | script.js:524-562 | every challenge is replaced by its progressed value and nothing else changes; `changed` is true exactly when some challenge became completed |
| `Profile.Profile.RecordPlacement` | script.js:851-860 | the save data becomes `PlacementRecorded` of the old save data |
| `Profile.Profile.RecordDrop` | script.js:851-873 | the save data becomes `AfterPlacement` of the old save data |
| `Profile.Profile.BuyOrEquip` | script.js:433-443 | for an item of the tab's catalogue, the click equips exactly when the item is owned or the stars cover its price; a purchase lowers the stars by the price (never below zero) and appends the item to the owned list; a refused purchase changes nothing |
| `Profile.Profile.SetOwned` | script.js:441 | the owned list of the given kind is replaced, nothing else changes |
| `Profile.Profile.SetSelected` | script.js:443 | the equipped item of the given kind is replaced, nothing else changes |
| `Profile.Profile.Claim` | script.js:506-510 | a claim succeeds exactly on a completed, unclaimed challenge, adds its reward once and leaves it claimed; any other click changes nothing |
| `Game.AfterRun` | script.js:882-887 | ending a run counts one more game, runs the challenges through the run-end event with the score, and leaves every other field of the save data as it was |
| `Game.RunEndEvent` | script.js:887 | per challenge: an open single-run score challenge moves to the maximum of its progress and the final score and is completed exactly when that reaches its goal; every other challenge is untouched |
| `Game.MoveBlock` | script.js:955-983 | the updateMovingBlock body computes exactly the oscillator step |
| `Game.MoveTopBlock` | script.js:955-983 | the top block of the stack takes one oscillator step and the stack keeps its shape |
| `Game.SettleBlock` | script.js:801-868 | the writes into the top block yield the committed block; without growth the block before and after the growth step is the same; growth does not move the burst origin |
| `Game.PerfectDropLands` | script.js:911-924 | on a perfect drop the committed block sits exactly on its support's centre, keeps both sizes unless growth is due, and no debris is cut |
| `Game.GameState.constructor` | script.js:1193-1198 | the page load: a fresh tower, nothing played, the menu shown |
| `Game.GameState.SpawnMovingBlock` | script.js:722-745 | exactly one block, the spawn over the old top, is appended; nothing else changes |
| `Game.GameState.ResetGame` | script.js:747-763 | a fresh run state: the base block and one moving block, no debris or bursts, score and streak zero, axis x, not playing |
| `Game.GameState.EndRun` | script.js:882-890 | the run stops as lost with the tower, lists and score unchanged, the menu shown, one more game counted and the run-end event applied to the challenges |
| `Game.GameState.PlaceBlock` | script.js:801-880 | the top block becomes the committed block and a new moving block is spawned on the flipped axis, earlier blocks untouched; debris is pushed only for a cut wider than 0.001 and a growth burst only when growth is due |
| `Game.GameState.FinalizePlacedBlock` | script.js:801-880 | the score rises by exactly one, the axis flips, the stack, debris and bursts change as in PlaceBlock, and the save data becomes `AfterPlacement` |
| `Game.GameState.TryDrop` | script.js:892-953 | nothing changes unless a run is being played; a miss ends the run leaving tower, debris, score and streak unchanged; a perfect drop raises the streak by one and adds its burst; a partial drop resets the streak; an accepted drop lands as in FinalizePlacedBlock |
| `Game.GameState.Tick` | script.js:1084-1098 | one frame with the clamped delta: the oscillator step only while playing and not lost, then the debris and burst updates, and the frame clock set to now |
| `Game.GameState.PrimaryAction` | script.js:1105-1114 | ignored while the menu is shown; with no run being played it starts or resumes one without touching the tower; otherwise it drops |
| `Game.GameState.PlayButton` | script.js:1138-1149 | closes the menu and plays; after a loss on a fresh run, otherwise on the same run |
| `Game.GameState.RestartButton` | script.js:1151-1157 | always a fresh run, played at once |
| `Game.GameState.MenuButton` | script.js:1120-1130 | opening the menu pauses; closing it resumes a run that is not lost |
| `Game.GameState.CloseMenuButton` | script.js:1132-1136 | closes the menu and resumes a run that is not lost, leaving a lost run not played |

## Left out

- Three.js scene, meshes, materials, textures, renderer, camera follow and shake, sound, DOM rendering, toasts, tabs and `localStorage` persistence are foreign library calls or I/O. Block and piece positions are plain fields instead of `mesh.position`.
- The settle-pulse decay (`updatePlacedBlockPulse`) and the hue cycling of spawned blocks are cosmetic. A committed block only records its pulse start of 0.12.
- Every `Math.random` draw is a parameter: the debris spin and the particles' velocities and lifetimes (`Game.Draws`). The seeded generator (`createSeededRng`) and the wall-clock day key (`formatTodayKey`) are parameters as well: a pick sequence and a `today` string.
- `ensureChallengesForToday` (which reads the wall clock) is not called from `UpdateChallengeProgress`, and challenge ids, names and descriptions are display text.
- `Economy.CreateDailyChallenges`: the source loops until it has three challenges, which ends only with probability one. The model reads a finite pick sequence and may stop early when the picks run out; its contract then says every distinct pick was taken.
- Floating-point rounding: geometry uses `real`, so equalities such as kept + cut = current hold exactly here, not necessarily bit for bit in JavaScript.
- The `requestAnimationFrame` loop: `GameState.Tick` is one frame. Its results are computed on copies of the lists and written back in one assignment, where the source mutates list elements in place. No other reference to those elements exists in the core, so the end state is the same.
- `Game.GameState.FinalizePlacedBlock`:
  - It applies the save-data part (`Profile.RecordDrop`) before the tower part (`PlaceBlock`), where the source interleaves them. The two touch disjoint state, so the end state is the same.
  - Sound, toasts and camera shake between the steps are left out.
- `Profile.Profile.BuyOrEquip`: the source decides "owned" when it renders the shop card, not when the card is clicked. The model decides it at the click, which differs only if the owned list changes between the render and the click.
- `Profile.Profile.Claim`: the source's handler holds a reference to the challenge object rendered on the card. The model takes its index in the current list and requires that index to exist.
- The guards `!current || !previous` in tryDropCurrentBlock and `!current?.isMoving || !previous` in updateMovingBlock are never taken in a valid state, because the stack always holds at least two blocks and the top one moves. They are therefore not modelled as branches.
