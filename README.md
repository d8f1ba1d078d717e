# Flappy Bird: the per-frame simulation, modelled in Dafny

This project models the simulation core of the single-file pygame game
`game_Flappy_Bird.py`. It covers what happens in one frame of the main loop once
drawing and event plumbing are stripped away:

- the scrolling background with its two tiles;
- the bird, a fixed column with a height and a vertical speed under gravity;
- the pipes, each a top and a bottom column with a gap, moving left;
- the `main` state machine: idle, then playing, then game over. While playing,
  a step moves everything, checks collisions, scores passed pipes, culls pipes
  that have left the screen and spawns a new pipe.

The model has two layers.

- Objects the game updates in place are Dafny classes. Their methods change the
  same fields the Python methods change:
  - `Scenery.Background`
  - `Flight.Bird`
  - `Obstacles.Pipe`
  - `GameLoop.Game`, which holds the locals of `main`.
- Module `Rules` states the same frame on values. `World` holds the background
  offsets, the bird's height and speed, the pipe list, the score and the two
  flags. `Rules.Step`, `Rules.Frame` and `Rules.Run` are the specification.
  Each `Game` method is proved to move its state exactly as these functions
  say, and the game's properties are proved as lemmas about them.

Modelling choices:

- Positions and speeds are `real`, because gravity 0.4 and pipe speed 2.5 are
  fractional.
- A pygame `Rect` is a `Rects.Box`. `colliderect` is `Rects.Overlaps`, a strict
  overlap in which touching edges do not collide.
- `random.randint(120, HEIGHT - gap - 150)` becomes a parameter `h` that every
  pipe-creating operation receives, constrained to the range (`TopHInRange`).
  `Rules.Tick` pairs each frame's input with the value drawn in that frame.
- The events polled in one frame become one boolean, "a key or mouse button was
  pressed". This loses nothing:
  - When the game is not over, every such event sets `start` and flaps, so
    several of them act like one.
  - When the game is over, the first such event calls `main()` again. That
    call never returns, so the remaining events of the frame are dropped.
- The recursive `main()` on restart becomes `Game.Restart`. It replaces every
  object with a fresh one and yields `Rules.Initial`.

## Model

| member | source | states |
|---|---|---|
| Rects.CenteredAt | game_Flappy_Bird.py:48 | the box has the requested size and its centre is the given point |
| Rects.Overlaps | game_Flappy_Bird.py:94 | `colliderect` as strict overlap: for boxes with area it holds exactly when the intersection has positive width and height |
| Rects.OverlapsIffCommonPoint | game_Flappy_Bird.py:94 | two boxes with area overlap exactly when some point lies strictly inside both |
| Scenery.Scroll | game_Flappy_Bird.py:28-34 | one frame of a tile offset: it moves left by one or wraps to WIDTH, and an offset in (-WIDTH, WIDTH] stays there |
| Scenery.Background.constructor | game_Flappy_Bird.py:22-25 | the tiles start at 0 and WIDTH, one screen apart |
| Scenery.Background.Update | game_Flappy_Bird.py:27-34 | each offset moves left by the speed, wraps to WIDTH once it reaches -WIDTH, and the tiles stay in range and one screen apart |
| Scenery.ScrollNClosedForm | game_Flappy_Bird.py:27-34 | after n frames a tile that started on screen is at its start minus n, wrapped into (-WIDTH, WIDTH] |
| Scenery.TilesStayOneScreenApart | game_Flappy_Bird.py:23-34 | after any number of updates from the initial offsets, both lie in (-WIDTH, WIDTH] and differ by exactly WIDTH |
| Scenery.ScrollPeriod | game_Flappy_Bird.py:27-34 | the backdrop returns to the same offset every 2 * WIDTH frames |
| Flight.BirdRect | game_Flappy_Bird.py:56 | the bird's rectangle has area and contains the bird's column and height strictly inside |
| Flight.Bird.constructor | game_Flappy_Bird.py:42-48 | a new bird is at HEIGHT // 2 with speed 0, its rectangle centred on it, and it is not dead |
| Flight.Bird.Flap | game_Flappy_Bird.py:50-51 | the speed becomes the jump speed whatever it was, nothing else changes, and the rectangle still follows the bird |
| Flight.Bird.Update | game_Flappy_Bird.py:53-56 | gravity is added to the speed first, the new speed moves the bird, and the rectangle follows |
| Flight.Bird.Dead | game_Flappy_Bird.py:61-62 | a live bird has its centre on screen and its whole sprite above the bottom edge |
| Flight.Gravity | game_Flappy_Bird.py:54-55 | one frame of motion on values: the speed grows, and the bird moves by the new speed |
| Flight.FallClosedForm | game_Flappy_Bird.py:53-55 | after n frames without a flap the speed is vel + n * 0.4 and the height is y + n * vel + 0.4 * n(n+1)/2 |
| Flight.FallSpeedNeverDecreases | game_Flappy_Bird.py:53-54 | between flaps the speed never decreases |
| Flight.FirstFlapSurvives | game_Flappy_Bird.py:44-62 | a bird that starts the game with its first flap and never flaps again stays in bounds for 59 frames |
| Flight.FirstFlapFallsOut | game_Flappy_Bird.py:44-62 | that bird is out of bounds in frame 60 |
| Obstacles.Pipe.constructor | game_Flappy_Bird.py:66-82 | a new pipe is at the given x with top height h in [120, 230], bottom start h + 220, not passed, and both rectangles placed at x |
| Obstacles.Pipe.Update | game_Flappy_Bird.py:84-87 | only x changes: it decreases by 2.5, both rectangles move with it, and the gap geometry is kept |
| Obstacles.Pipe.Collide | game_Flappy_Bird.py:93-94 | the rectangle test holds exactly when the bird at its height meets the top or bottom column at the pipe's x |
| Obstacles.GapFitsOnScreen | game_Flappy_Bird.py:68-71 | for every drawable top height both columns have area and the bottom one is at least 150 tall |
| Obstacles.HitsPipeIff | game_Flappy_Bird.py:93-94 | a box hits a pipe exactly when it is horizontally within the columns and reaches above the gap or below it |
| Obstacles.GapIsPassable | game_Flappy_Bird.py:68-71 | for every drawable top height some bird height is in bounds and touches neither column |
| Obstacles.Pipe.Offscreen | game_Flappy_Bird.py:96-97 | a pipe is off screen exactly when x < -80, and then both its columns lie entirely left of the screen |
| Rules.Moved | game_Flappy_Bird.py:135-139 | one frame of a pipe on values: x drops by 2.5, the top height is kept, and the passed flag is never cleared and is set only once the pipe is left of the bird |
| Rules.Scores | game_Flappy_Bird.py:138-140 | a pipe earns a point in a frame exactly when that frame turns its passed flag from false to true |
| Rules.Cull | game_Flappy_Bird.py:142 | the filtered list is no longer than the list (membership and order are in CullSubset and CullConcat) |
| Rules.Spawned | game_Flappy_Bird.py:144-145 | spawning only appends, at most one pipe, and afterwards the last pipe is right of the spawn line |
| Rules.Advance | game_Flappy_Bird.py:128-140 | the first half of a step on values: the score does not drop, start is kept, game over is never cleared, and the pipe count is unchanged |
| Rules.Initial | game_Flappy_Bird.py:107-112 | the start state satisfies the frame invariant and the bird is in bounds |
| Rules.NextPipes | game_Flappy_Bird.py:142-145 | after moving, culling and spawning the list is not empty, its last pipe is right of the spawn line and every top height is drawable |
| Rules.Step | game_Flappy_Bird.py:127-145 | a simulation step keeps the invariant: tiles one screen apart, pipe list non-empty with its last pipe right of the spawn line, drawable heights, score not negative |
| Rules.Frame | game_Flappy_Bird.py:114-145 | a whole frame, input then step, keeps the invariant |
| Rules.Run | game_Flappy_Bird.py:114-145 | any sequence of frames keeps the invariant |
| Rules.CullSubset | game_Flappy_Bird.py:142 | a pipe survives the filter exactly when it was in the list and is not off screen |
| Rules.CullConcat | game_Flappy_Bird.py:142 | filtering distributes over concatenation, so survivors keep their relative order |
| Rules.CullKeepsLast | game_Flappy_Bird.py:142-144 | an on-screen last pipe survives the filter and stays last, so `pipes[-1]` exists |
| Rules.AnyHitIff | game_Flappy_Bird.py:134-137 | the loop's collision flag is set exactly when some pipe of the list is hit |
| Rules.ScoreIsFlagGain | game_Flappy_Bird.py:138-140 | the points of a step equal the number of passed flags that went from false to true |
| Rules.ScoresAtMostOnce | game_Flappy_Bird.py:138-140 | over any number of frames a pipe earns at most one point, and none once passed |
| Rules.ScoresOnceEventually | game_Flappy_Bird.py:138-140 | an unpassed pipe scores exactly once within any number of frames that carries it left of the bird |
| Rules.UnpassedStaysOnScreen | game_Flappy_Bird.py:138-142 | a pipe still unpassed after a move is at x >= 80, so culling at x < -80 never removes a pipe that has not scored |
| Rules.StepScoring | game_Flappy_Bird.py:138-140 | a step adds exactly the number of unpassed pipes now left of the bird, and each of them is then passed |
| Rules.StepPipes | game_Flappy_Bird.py:142-145 | after a step no pipe is off screen, and a pipe at WIDTH is appended to the survivors exactly when the last survivor is left of WIDTH - 250 |
| Rules.IdleFrameChangesNothing | game_Flappy_Bird.py:127 | before the first input a frame without input changes nothing |
| Rules.InputStartsAndFlaps | game_Flappy_Bird.py:120-129 | input in a game that is not over starts it, and after the step the speed is JUMP + GRAVITY |
| Rules.StepGameOver | game_Flappy_Bird.py:131-137 | after a step the game is over exactly when it was, or the bird is out of bounds, or it meets a moved pipe |
| Rules.GameOverLatches | game_Flappy_Bird.py:120-127 | once the game is over a frame changes nothing without input and restarts with input |
| Rules.ScoreNeverDecreases | game_Flappy_Bird.py:120-140 | the score never decreases except by a restart |
| Rules.GameOverStaysWithoutInput | game_Flappy_Bird.py:114-127 | a game that is over stays exactly as it is for any run of frames without input |
| GameLoop.Game.constructor | game_Flappy_Bird.py:107-112 | the locals of `main` start in the initial state with one pipe at WIDTH + 200 |
| GameLoop.Game.Restart | game_Flappy_Bird.py:121-122 | input after game over rebuilds every object and yields the initial state |
| GameLoop.Game.MovePipe | game_Flappy_Bird.py:135-140 | one pipe moves, the game ends if it meets the bird, and it scores one point the first time it is left of the bird |
| GameLoop.Game.MoveNext | game_Flappy_Bird.py:134-140 | one more pipe of the loop moved, with the score and collision flag of the longer prefix |
| GameLoop.Game.MovePipes | game_Flappy_Bird.py:134-140 | the loop moves every pipe, adds the points of the pipes that score, and sets game over if any moved pipe meets the bird |
| GameLoop.Game.RemoveOffscreen | game_Flappy_Bird.py:142 | the new list holds exactly the on-screen pipes in their order, all of them objects of the old list, with no pipe twice |
| GameLoop.Game.SpawnIfNeeded | game_Flappy_Bird.py:144-145 | a fresh pipe at WIDTH is appended exactly when the last pipe is left of WIDTH - 250 |
| GameLoop.Game.MaintainPipes | game_Flappy_Bird.py:142-145 | culling and spawning together give the pipe list the rules prescribe |
| GameLoop.Game.MoveEverything | game_Flappy_Bird.py:128-140 | the background scrolls, the bird falls one frame, the pipes move and score, and game over is set on death or collision |
| GameLoop.Game.Simulate | game_Flappy_Bird.py:127-145 | one playing step moves the whole state exactly as the step rule says and keeps the invariant |
| GameLoop.Game.Frame | game_Flappy_Bird.py:114-145 | one iteration of the main loop moves the state exactly as the frame rule says and keeps the invariant |
| GameLoop.Game.Play | game_Flappy_Bird.py:114-145 | running the loop for a sequence of frames yields the state the rules prescribe for that sequence |

## Left out

- Rendering is not modelled: the `draw` methods, `draw_text`, `screen.blit` and
  `pygame.display.update`. They have no state to speak of.
- Asset loading and `pygame.transform.scale`/`flip` are not modelled. Only the
  sizes they are given (50 x 40 for the bird, 70 wide for the pipes) appear, as
  constants.
- Event polling, `pygame.quit`/`sys.exit` and `clock.tick(FPS)` are I/O and
  timing. The input of a frame is a parameter.
- `random.randint` is a parameter of the operations that create a pipe, with the
  requirement that it lies in the range the call allows.
- pygame `Rect` stores integer coordinates and truncates the floats assigned to
  it. The model keeps rectangle coordinates as reals, so collisions of a few
  pixels near an edge may differ from the game's.
- The death line at line 62 is HEIGHT - 50, where 50 is the bird sprite's width,
  not its height (40). The model follows the code (`Flight.FLOOR_Y`): a live bird's
  sprite ends at most 20 pixels below that line and 30 pixels above the bottom
  edge of the screen.
- IEEE-754 rounding of 0.4 and 2.5 is not modelled. Arithmetic is on reals.
- The restart calls `main()` recursively, so the Python call stack grows by one
  frame per restart. With Python's default recursion limit of 1000, the game
  raises RecursionError after about a thousand restarts. The model replaces the
  state instead of nesting calls, and so allows any number of restarts.
