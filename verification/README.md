# Async space game — a Dafny model of its scheduler and obstacle protocol

`main.py` is a terminal arcade game. A spaceship dodges and shoots falling
garbage. Every moving thing is a coroutine in the global list `COROUTINES`,
and `draw` drives them cooperatively. On each tick it resumes every
coroutine of a copy of the list once, in list order. It drops the ones that
return. Coroutines appended during the tick are first resumed on the next
tick. The coroutines share four globals:

- the obstacle registry `OBSTACLES`;
- the collision record `OBSTACLES_IN_LAST_COLLISIONS`;
- the year `YEAR`;
- `life_points`.

This project models that core as pure functions:

- **Tasks** (`tasks.dfy`). Each coroutine is an explicit task state: where it
  is suspended, its local variables, and how many yields of its current
  `sleep` remain. One resumption (`Tasks.Resume`) is a pure step. It takes
  the shared state to a new one, and may append tasks and end the coroutine.
- **Registry** (`registry.dfy`, `lists.dfy`). Python object identity becomes
  a numeric identity handed out by a counter. `list.remove` becomes
  `Lists.RemoveFirst`. The scans `for obstacle in OBSTACLES: … has_collision`
  become `Registry.FirstHit`.
- **Scheduler** (`scheduler.dfy`). One tick is `Scheduler.Tick`.
  `Scheduler.RunTick` is the loop over the list copy, written as a method.
  The scheduler is generic over the step it runs. Its theorems take the
  step's laws as premises:
  - it keeps the identity of each task;
  - it trades obstacles only with its own task.
- **Frames** (`frames.dfy`). What one resumption leaves to the other
  coroutines: their obstacles and their collision-record entries. It also
  shows that the record changes in only two ways: a shot's hit appends and
  a garbage's own check removes.
- **Difficulty clock** (`difficulty.dfy`, `clock.dfy`): the spawn-delay table
  and the counting of `change_year`.
- **Geometry** (`geometry.dfy`): the clamps of the ship, the spawner and the
  garbage.
- **Per-coroutine laws** (`garbage.dfy`, `shots.dfy`, `ship.dfy`): what one
  resumption of `fly_garbage`, `fire` and `animate_spaceship` does, branch
  by branch.
- **Game** (`game.dfy`): the initial list built by `draw`, and the
  `while COROUTINES` loop run over a finite sequence of inputs.

The central invariant is `Scheduler.Inv`. Every registered obstacle is held
by exactly one live coroutine, and registry and task identities are
distinct. Because of it, every unguarded `OBSTACLES.remove` in the source
finds its obstacle:

- the ship-hit branch of `fly_garbage`;
- the collision-record branch of `fly_garbage`;
- the hit branch of `fire`;
- the ship's removal after its explosion.

So the `ValueError` that `list.remove` raises on a missing element cannot
happen. That is why `RemoveFirst` may be a no-op on absent elements.

Notes on how the model reads the code:

- A coroutine suspended in `sleep(n)` is resumed n times. The first
  resumption runs the code up to the sleep. The next n - 1 resumptions
  only yield. The n-th resumption after that continues the code.
- The ship fires from its unclamped position. The shot is appended before
  the clamp (main.py lines 188-189 come before 191-197).
- A garbage that touches the ship is checked for that first. It then returns
  without looking at the collision record. If a shot had recorded it, that
  record entry stays behind. Two shots hitting the same garbage in one tick
  also leave one entry behind. Identities are never reused, so a stale
  entry is never matched again. It is harmless, and the model keeps it as
  the source does.

## Model

| member | source | states |
|---|---|---|
| Difficulty.GarbageDelayTics | main.py:68-82 | The delay is one of 30, 20, 14, 10, 8, 6, 2 ticks: 30 before 1961 and 2 from 2020 on |
| Difficulty.DelayMatchesSchedule | main.py:68-82 | For every year, the if-chain gives the delay of the first bracket of the year table (1961:30, 1969:20, 1981:14, 1995:10, 2010:8, 2020:6, then 2) whose bound lies above the year |
| Difficulty.DelayNonIncreasing | main.py:68-82 | Garbage never spawns more slowly in a later year: the delay is non-increasing in the year |
| ClockLaws.SleepYieldsExactly | main.py:310-312 | `await sleep(n)` yields exactly n times. The n - 1 resumptions after the suspending one change nothing and leave the task waiting. The next one continues in the body it slept in |
| ClockLaws.SleepCountsDown | main.py:310-312 | While a sleep lasts, resuming the task leaves the shared state alone, spawns nothing and only counts down |
| ClockLaws.ClockCount | main.py:85-89 | A change_year inside its loop adds one year every fifteenth resumption (⌈(n - wait)/15⌉ after n resumptions), never ends, and changes nothing else |
| ClockLaws.ClockFromStart | main.py:85-89 | A fresh change_year has raised YEAR by 0 for n = 0, otherwise ⌊(n - 1)/15⌋, after n resumptions, and touched nothing else |
| Geometry.Uniform | main.py:281 | `random.randint(lo, hi)` returns a value in [lo, hi], and every value in that range comes from some draw |
| Geometry.HalfRounded | main.py:328 | Python's `round(n / 2)` is within one half of n/2 and goes to the even neighbour on a tie |
| Geometry.ClampShip | main.py:193-197 | The clamped ship corner is never above or left of the border. Axis by axis: where the frame fits, the corner lies between the borders, unchanged when already there; where it does not fit, the corner is on the top (left) border |
| Geometry.ClampShipIdempotent | main.py:193-197 | Clamping a clamped corner changes nothing |
| Geometry.ClampShipNearest | main.py:193-197 | On each axis, the clamp picks the position inside the borders nearest to where the ship's speed carried it |
| Geometry.SpawnColumn | main.py:286-287 | The spawner's column is at least the border width. It lies inside the right border when the frame fits and is unchanged when already inside. A draw left of the border gives the border width; a draw right of the last fitting column gives that column; when the frame does not fit, the column is the border width |
| Geometry.GarbageColumn | main.py:123-124 | fly_garbage's start column lies in [0, columns - 1] and is unchanged when already there. A negative column becomes 0 (when the canvas has a column), and one past the right edge becomes columns - 1 |
| Geometry.SpawnStart | main.py:281-289 | The column a spawned garbage starts at lies between 0 and the spawner's clamped column, and left of the right border when the frame fits |
| Geometry.SpawnedColumnSurvivesGarbageClamp | main.py:289 | When the frame fits, fly_garbage's own clamp never moves a column the spawner picked |
| Lists.RemoveFirst | main.py:149-150 | `list.remove(x)` drops exactly the first occurrence of x and keeps everything else in order |
| Lists.RemoveFirstOfDistinct | main.py:145 | Removing an identity from a duplicate-free registry leaves it duplicate-free, with that identity gone |
| Registry.Unregister | main.py:154-155 | Removing an obstacle drops its identity's first occurrence and no other obstacle, and leaves the registry alone when it is absent |
| Registry.Move | main.py:235-236 | Writing a new corner into an obstacle changes only that obstacle's corner. The identities and tags of the registry are unchanged |
| Registry.FirstHit | main.py:238-245 | The scan finds nothing exactly when no obstacle of the tag overlaps. Otherwise it returns the first obstacle, in registry order, with the tag that overlaps |
| Ownership.RegisterOk | main.py:109-115 | create_frame_obstacles keeps the registry well formed: identities stay distinct and below the counter, and the multiset of registered identities grows by exactly the one fresh identity |
| Tasks.Resume | main.py:344-349 | A resumption never changes which coroutine it is. YEAR grows, by one, only when change_year finishes a sleep. life_points changes only on a resumption of a falling garbage that then ends, and then drops by one (GarbageLaws.GarbageShipHitLaw shows this is the ship-hit branch). change_year never returns or appends, and no other coroutine becomes or appends a change_year |
| Ownership.ResumeKeepsOwnership | main.py:118-248 | Every resumption keeps the registry's identities distinct and below the counter, and trades obstacles only with the resumed task. The tasks it appends are new and hold nothing |
| Frames.ResumeKeepsOthers | main.py:118-248 | A resumption never moves, resizes, retags or removes an obstacle that the resumed coroutine does not hold: every such obstacle is still registered, unchanged, afterwards |
| Frames.ResumeRecord | main.py:139-245 | The collision record changes in only two ways: a flying shot that hits appends the identity of a registered garbage and ends, or a falling garbage that finds its own identity takes one copy out and explodes or ends. Every entry naming an obstacle the resumed coroutine does not hold stays in the record |
| Frames.PassKeepsRecord | main.py:148-150 | From the start of a pass: an entry of the record survives every resumption of coroutines that do not hold that obstacle, so it is still there when the garbage that holds it is resumed in the next tick |
| Frames.RecordSurvivesRest | main.py:243 | Inside the tick of the hit: once a resumption leaves g in the record, g is still there in the state of every later resumption of the pass up to the first coroutine that holds g, and at the end of the pass |
| Frames.ShotRecordReachesHolder | main.py:238-245 | Only a flying shot appends to the record, and the identity it appends is still there when the game's pass reaches the garbage that holds it, or the end of the tick |
| Frames.TickKeepsRecord | main.py:345-349 | A tick in which no coroutine holds obstacle g leaves g in the collision record |
| GarbageLaws.GarbageStartLaw | main.py:121-130 | A garbage's first resumption registers its box at row 0 in the clamped column. It enters the loop only when the canvas has a row, and otherwise leaves with nothing registered |
| GarbageLaws.GarbageShipHitLaw | main.py:139-146 | A garbage that overlaps the ship after moving costs exactly one life point, removes its own obstacle and ends, and leaves the collision record alone |
| GarbageLaws.GarbageRecordLaw | main.py:148-152 | A garbage a shot recorded, and that missed the ship, removes itself from the registry and one entry from the record. It then explodes, or ends when the explosion has no frames. Life is unchanged |
| GarbageLaws.GarbageFallLaw | main.py:130-137 | Untouched garbage moves down by its speed and stays registered at its new row while that row is above the bottom. Otherwise it removes its obstacle and ends |
| GarbageLaws.GarbageExitsClean | main.py:154-156 | A garbage's obstacle is gone exactly when the coroutine leaves its loop (ends or explodes). While it loops, it still holds its obstacle |
| GarbageLaws.GarbageFalls | main.py:130-136 | With a positive speed, every pass that stays in the loop strictly lowers a natural-number budget, so fly_garbage returns |
| GarbageLaws.SpawnerLaw | main.py:278-294 | The spawner never ends. It sleeps for the delay of the current year, then launches the garbage it drew before the sleep, with a frame from the list, at a column within the clamped spawn column |
| ShotLaws.ShipFiresIff | main.py:188-189 | The ship appends a shot exactly when space was pressed and YEAR > 2020. The shot is fire(row - 1, column + 2) with a new identity and three yields of muzzle flash still to come |
| ShotLaws.ShotArmedLaw | main.py:213-229 | After its muzzle flash, a shot moves once and registers a one-cell obstacle there. It keeps flying only while strictly inside the canvas, and otherwise leaves with nothing registered |
| ShotLaws.ShotHitLaw | main.py:238-245 | On a hit, the first overlapping garbage is appended to the collision record and stays registered. The shot's own obstacle is removed and the shot ends |
| ShotLaws.ShotMissLaw | main.py:229-237 | A shot that hits nothing leaves the record alone. It flies on while inside, and otherwise removes its obstacle and ends |
| ShotLaws.ShotExitsClean | main.py:246-248 | A shot's obstacle is gone exactly when the shot ends. While it flies, it holds its obstacle |
| ShipLaws.ShipStartLaw | main.py:159-184 | run_spaceship's first resumption registers exactly one Spaceship obstacle of the first frame's size at the start corner under the next identity. It then enters animate_spaceship with frame 0, the speed `update_speed` gives from rest, and the corner moved by that speed; the record, YEAR and life are unchanged |
| ShipLaws.ShipLandingLaw | main.py:176-200 | While life remains, after each pass the ship's obstacle sits at the clamped corner, inside the borders when the frame fits. The next pass moves on from that clamped corner by the speed `update_speed` gives, with the next frame of the cycle |
| ShipLaws.ShipDeathLaw | main.py:202-206 | Once life is gone, the ship keeps its obstacle through the explosion and never ends. Without explosion frames it removes the obstacle at once |
| ShipLaws.ShipExplodedLaw | main.py:203-205 | The resumption that ends the ship's explosion removes exactly its obstacle, after which only the game-over banner is shown. The coroutine keeps its identity and does not sleep. It appends nothing and leaves the record, YEAR, life and the counter unchanged |
| Scheduler.RunTick | main.py:345-349 | The loop over a copy of the list gives the tick: survivors in their old order, then everything appended during the tick |
| Scheduler.TickKeepsInv | main.py:344-349 | A tick keeps the world invariant: every registered obstacle is held by exactly one live coroutine, and identities stay distinct |
| Scheduler.TickFates | main.py:347-349 | A coroutine of the snapshot is still in the list after the tick exactly when its own resumption did not return |
| Scheduler.TickDefersSpawned | main.py:345 | Coroutines appended during a tick come after the survivors, carry new identities, and were not resumed in that tick |
| Scheduler.TickNeverRevives | main.py:349 | A coroutine that has left the list never comes back |
| Game.InitialWorld | main.py:327-342 | The list starts with 150 stars, then the ship at the rounded centre, the spawner (not yet started; its frame is a placeholder it replaces before launching anything), change_year and show_phrase: identities 0 to 153, none sleeping, nothing registered, YEAR 1957 and one life point |
| Game.InitialWorldOk | main.py:340-342 | The starting world satisfies the world invariant and holds a coroutine that never returns |
| Game.ResumeKeepsEndless | main.py:159-167 | Resuming a never-ending coroutine never ends it, whether it is the ship, the spawner, change_year, a star or a banner |
| Game.RunKeepsInv | main.py:344-352 | The world invariant holds after any number of ticks |
| Game.RunNeverEmpties | main.py:344 | From a list with a never-ending coroutine, such as `draw`'s, COROUTINES never becomes empty, so the loop never stops for lack of coroutines (drawing errors aside, see below) |
| YearLaws.RunYears | main.py:85-89 | Over any run of a list whose one change_year has been resumed n times, YEAR grows by exactly the increments that change_year makes on its next resumptions |
| YearLaws.YearsFromStart | main.py:85-89 | From `draw`'s list, after n ticks YEAR is 1957, plus 0 for n = 0 and otherwise ⌊(n - 1)/15⌋: the one change_year is the only coroutine that moves YEAR |
| Game.RunMonotone | main.py:89 | Over any run YEAR never decreases and life_points never increases |

## Left out

- Drawing. All curses output is left out: `draw_frame`, `addstr`, `border`, `refresh`, `beep`, the erase-before-redraw passes and `derwin`. None of it writes the shared globals. The model assumes drawing never raises. curses does raise when `addstr` gets a position off the window, and `draw` catches only `StopIteration`, so such an error would end the game loop. One way this can happen: a shot's muzzle flash draws at the ship's unclamped row - 1 (main.py:180, 189, 213-215), which is negative when the ship on the top border moves up by more than 0.5 in one tick.
- Real time. `time.sleep(TIC_TIMEOUT)` between ticks is left out, as is `TIC_SECOND`. A tick is one step of the model.
- Stars and text. `blink`, `show_phrase` and `show_game_over` become the `Idle` task: draw, then `sleep(1)`, forever. Their sleep lengths, `OFFSET_TICS` and the star parameters from `create_stars_params` only affect drawing. They are not modelled.
- Frames. `load_frames` and `get_frame_size` are replaced by the frame sizes in `Config`. The `frames = None` crash for an empty directory is excluded by `ValidConfig`: at least one frame of each kind.
- Collaborators. curses_tools, physics, obstacles and explosion are not part of this model:
  - `Obstacle.has_collision` is the parameter `hit`;
  - `update_speed` is the parameter `updateSpeed`;
  - `explode` is the number of times it suspends, `explosionTicks`.
- Inputs. `read_controls` and the spawner's three `random` draws are fields of one `Input` per tick. Only the ship reads the keyboard and only the spawner draws. The model's single-spawner world therefore loses nothing by sharing one input among all tasks.
- Float vs real. Positions and speeds are exact reals, where Python uses floats. The rounding of `-0.3` and of repeated `+= 0.5` is not modelled. Neither is `round()` of shot positions, which only affects drawing.
- Obstacle identity. `in` and `remove` on OBSTACLES and OBSTACLES_IN_LAST_COLLISIONS are taken to compare obstacle objects by identity. obstacles.py, which would show whether `Obstacle` defines `__eq__`, is not part of this model.
- Debug view. `DEBUG_MODE` and `show_obstacles` are left out: the constant is 0, so that branch never runs.
- Concurrency. None exists: the game is single-threaded and the model is sequential.
- Game.RunNeverEmpties: covers finite runs only, one tick per input. It shows the loop stays non-empty for any number of ticks, not that an infinite run exists.
- Ship frames. The four-frame list `[rocket_frames[0], rocket_frames[0], rocket_frames[1], rocket_frames[1]]` is the `shipFrames` parameter. It is not built from two loaded frames.
