/** The rules of one frame of the main loop, stated on values: the specification
    the class Game in GameLoop is proved against. */
module Rules {
  import opened Settings
  import opened Scenery
  import opened Flight
  import opened Obstacles

  /** x of the pipe a run starts with, WIDTH + 200. */
  const FIRST_PIPE_X: real := (WIDTH + 200) as real
  /** x of every pipe spawned during a run. */
  const SPAWN_X: real := WIDTH as real
  /** A new pipe is spawned once the last one is left of this, WIDTH - 250. */
  const SPAWN_BELOW: real := (WIDTH - 250) as real

  /** What the game knows of a pipe: position, top height, whether it has scored. */
  datatype PipeState = PipeState(x: real, topH: int, passed: bool)

  /** The whole simulation state of `main`: background offsets, bird motion,
      the pipe list, the score and the two flags. */
  datatype World = World(x1: int, x2: int, y: real, vel: real,
                         pipes: seq<PipeState>, score: int, start: bool, gameOver: bool)

  /** One frame of a pipe: it moves left and is marked passed once left of the bird.
      The top height never changes and the flag is never cleared. */
  function Moved(p: PipeState): (q: PipeState)
    ensures q.topH == p.topH && q.x == p.x - PIPE_SPEED
    ensures p.passed ==> q.passed
    ensures q.passed ==> p.passed || q.x < BIRD_X
  {
    var x := p.x - PIPE_SPEED;
    PipeState(x, p.topH, p.passed || x < BIRD_X)
  }

  /** The pipe earns a point in this frame: exactly when the frame turns its
      passed flag from false to true. */
  function Scores(p: PipeState): (earns: bool)
    ensures earns <==> !p.passed && Moved(p).passed
  {
    !p.passed && p.x - PIPE_SPEED < BIRD_X
  }

  function MoveAll(ps: seq<PipeState>): seq<PipeState> {
    seq(|ps|, i requires 0 <= i < |ps| => Moved(ps[i]))
  }

  /** Number of pipes that earn a point in this frame. */
  function NewlyPassed(ps: seq<PipeState>): nat {
    if ps == [] then 0
    else NewlyPassed(ps[..|ps| - 1]) + (if Scores(ps[|ps| - 1]) then 1 else 0)
  }

  /** Number of pipes already marked passed. */
  function PassedCount(ps: seq<PipeState>): nat {
    if ps == [] then 0
    else PassedCount(ps[..|ps| - 1]) + (if ps[|ps| - 1].passed then 1 else 0)
  }

  predicate Hit(y: real, p: PipeState) {
    HitsPipe(BirdRect(y), p.x, p.topH)
  }

  /** Some pipe of the list collides with a bird at height y. */
  predicate AnyHit(y: real, ps: seq<PipeState>) {
    ps != [] && (AnyHit(y, ps[..|ps| - 1]) || Hit(y, ps[|ps| - 1]))
  }

  /** The list comprehension that drops off-screen pipes. */
  function Cull(ps: seq<PipeState>): (kept: seq<PipeState>)
    ensures |kept| <= |ps|
  {
    if ps == [] then []
    else Cull(ps[..|ps| - 1]) + (if PastLeftEdge(ps[|ps| - 1].x) then [] else [ps[|ps| - 1]])
  }

  function Last(ps: seq<PipeState>): PipeState
    requires ps != []
  {
    ps[|ps| - 1]
  }

  /** What holds of every state `main` reaches: the tiles are one screen apart,
      the pipe list is non-empty with its last pipe right of the spawn line,
      every top height is one `random.randint` can draw, the score is not negative. */
  predicate Inv(w: World) {
    && TilesValid(w.x1, w.x2)
    && w.pipes != []
    && (forall i :: 0 <= i < |w.pipes| ==> TopHInRange(w.pipes[i].topH))
    && Last(w.pipes).x >= SPAWN_BELOW
    && w.score >= 0
  }

  /** The state `main` starts from, with h the first drawn top height. */
  function Initial(h: int): (w: World)
    requires TopHInRange(h)
    ensures Inv(w) && !OutOfBounds(w.y)
  {
    World(0, WIDTH, START_Y, 0.0, [PipeState(FIRST_PIPE_X, h, false)], 0, false, false)
  }

  /** Append a pipe at the right edge when the last one has crossed the spawn line. */
  function Spawned(ps: seq<PipeState>, h: int): (r: seq<PipeState>)
    requires ps != []
    ensures ps <= r && |r| <= |ps| + 1
    ensures Last(r).x >= SPAWN_BELOW
  {
    if Last(ps).x < SPAWN_BELOW then ps + [PipeState(SPAWN_X, h, false)] else ps
  }

  /** Culling followed by spawning; the last pipe, still on screen, is what
      line 144 reads. */
  function Upkeep(moved: seq<PipeState>, h: int): seq<PipeState>
    requires moved != [] && !PastLeftEdge(Last(moved).x)
  {
    CullKeepsLast(moved);
    Spawned(Cull(moved), h)
  }

  /** The pipe list after one step: moved, culled, and extended if its last pipe
      has crossed the spawn line. */
  function NextPipes(ps: seq<PipeState>, h: int): (r: seq<PipeState>)
    requires ps != [] && Last(ps).x >= SPAWN_BELOW && TopHInRange(h)
    requires forall i :: 0 <= i < |ps| ==> TopHInRange(ps[i].topH)
    ensures r != [] && Last(r).x >= SPAWN_BELOW
    ensures forall i :: 0 <= i < |r| ==> TopHInRange(r[i].topH)
  {
    var moved := MoveAll(ps);
    CullKeepsLast(moved);
    CullSubset(moved);
    var kept := Cull(moved);
    assert forall i :: 0 <= i < |kept| ==> kept[i] in moved;
    Upkeep(moved, h)
  }

  /** The first half of a step: scroll, fall, move every pipe, score, and check
      the bird against the screen and the moved pipes. */
  function Advance(w: World): (r: World)
    ensures r.score >= w.score && r.start == w.start
    ensures w.gameOver ==> r.gameOver
    ensures |r.pipes| == |w.pipes|
  {
    var m := Gravity(Motion(w.y, w.vel));
    var moved := MoveAll(w.pipes);
    World(Scroll(w.x1), Scroll(w.x2), m.y, m.vel, moved,
          w.score + NewlyPassed(w.pipes), w.start,
          w.gameOver || OutOfBounds(m.y) || AnyHit(m.y, moved))
  }

  /** One simulation step (the body of `if start and not game_over`), with h the
      top height drawn if a pipe is spawned. */
  function Step(w: World, h: int): (r: World)
    requires Inv(w) && TopHInRange(h)
    ensures Inv(r)
  {
    Advance(w).(pipes := NextPipes(w.pipes, h))
  }

  /** One iteration of the main loop: input first (restart when the game is over,
      otherwise start and flap), then a simulation step if the game is running. */
  function Frame(w: World, input: bool, h: int): (r: World)
    requires Inv(w) && TopHInRange(h)
    ensures Inv(r)
  {
    if input && w.gameOver then Initial(h)
    else
      var w' := if input then w.(start := true, vel := JUMP) else w;
      if w'.start && !w'.gameOver then Step(w', h) else w'
  }

  /** What happens in one frame: whether a key or button was pressed, and the
      top height `random.randint` draws if a pipe is created. */
  datatype Tick = Tick(input: bool, drawnTopH: int)

  predicate DrawsInRange(ts: seq<Tick>) {
    forall i :: 0 <= i < |ts| ==> TopHInRange(ts[i].drawnTopH)
  }

  /** The state after running the frames ts in order. */
  function Run(w: World, ts: seq<Tick>): (r: World)
    requires Inv(w) && DrawsInRange(ts)
    ensures Inv(r)
  {
    if ts == [] then w
    else
      var t := ts[|ts| - 1];
      Frame(Run(w, ts[..|ts| - 1]), t.input, t.drawnTopH)
  }

  // ---------------------------------------------------------------- culling

  /** Culling keeps exactly the pipes that are not past the left edge. */
  lemma {:induction false} CullSubset(ps: seq<PipeState>)
    ensures forall q :: q in Cull(ps) <==> q in ps && !PastLeftEdge(q.x)
  {
    if ps != [] {
      CullSubset(ps[..|ps| - 1]);
      assert ps == ps[..|ps| - 1] + [ps[|ps| - 1]];
    }
  }

  /** Culling distributes over concatenation, so the survivors keep their order. */
  lemma {:induction false} CullConcat(a: seq<PipeState>, b: seq<PipeState>)
    ensures Cull(a + b) == Cull(a) + Cull(b)
  {
    if b != [] {
      CullConcat(a, b[..|b| - 1]);
      assert (a + b)[..|a + b| - 1] == a + b[..|b| - 1];
    } else {
      assert a + b == a;
    }
  }

  /** A last pipe that is still on screen survives culling and stays last. */
  lemma CullKeepsLast(ps: seq<PipeState>)
    requires ps != [] && !PastLeftEdge(Last(ps).x)
    ensures Cull(ps) != [] && Last(Cull(ps)) == Last(ps)
  {
  }

  /** AnyHit holds exactly when one of the pipes is hit. */
  lemma {:induction false} AnyHitIff(y: real, ps: seq<PipeState>)
    ensures AnyHit(y, ps) <==> exists i :: 0 <= i < |ps| && Hit(y, ps[i])
  {
    if ps != [] {
      var init := ps[..|ps| - 1];
      AnyHitIff(y, init);
      assert forall i :: 0 <= i < |init| ==> init[i] == ps[i];
    }
  }

  // ---------------------------------------------------------------- scoring

  /** Moving the pipes raises the number of passed flags by exactly the number of
      pipes that score: every scoring pipe's flag goes from false to true. */
  lemma {:induction false} ScoreIsFlagGain(ps: seq<PipeState>)
    ensures PassedCount(MoveAll(ps)) == PassedCount(ps) + NewlyPassed(ps)
  {
    if ps != [] {
      var init := ps[..|ps| - 1];
      ScoreIsFlagGain(init);
      assert MoveAll(ps)[..|ps| - 1] == MoveAll(init);
    }
  }

  /** The number of frames, among the first n, in which the pipe p earns a point. */
  function ScoringFrames(p: PipeState, n: nat): nat
    decreases n
  {
    if n == 0 then 0 else (if Scores(p) then 1 else 0) + ScoringFrames(Moved(p), n - 1)
  }

  /** A pipe earns at most one point over its whole life, and none once passed. */
  lemma {:induction false} ScoresAtMostOnce(p: PipeState, n: nat)
    ensures ScoringFrames(p, n) <= (if p.passed then 0 else 1)
    decreases n
  {
    if n > 0 {
      ScoresAtMostOnce(Moved(p), n - 1);
    }
  }

  /** An unpassed pipe scores exactly once within the first n frames as soon as n
      frames carry it left of the bird. */
  lemma {:induction false} ScoresOnceEventually(p: PipeState, n: nat)
    requires !p.passed && n >= 1 && (n as real) * PIPE_SPEED > p.x - BIRD_X
    ensures ScoringFrames(p, n) == 1
    decreases n
  {
    if Scores(p) {
      ScoresAtMostOnce(Moved(p), n - 1);
    } else {
      ScoresOnceEventually(Moved(p), n - 1);
    }
  }

  /** A pipe still unpassed after a move is at x >= BIRD_X, far right of the cull
      line, so culling never removes a pipe that has not scored. */
  lemma UnpassedStaysOnScreen(p: PipeState)
    ensures !Moved(p).passed ==> Moved(p).x >= BIRD_X && !PastLeftEdge(Moved(p).x)
  {
  }

  /** Within one step the score grows by the number of unpassed pipes that are now
      left of the bird, and each of them is then marked passed. */
  lemma StepScoring(w: World, h: int)
    requires Inv(w) && TopHInRange(h)
    ensures Step(w, h).score == w.score + NewlyPassed(w.pipes)
    ensures forall i :: 0 <= i < |w.pipes| && Scores(w.pipes[i]) ==> MoveAll(w.pipes)[i].passed
    ensures Step(w, h).score - w.score == PassedCount(MoveAll(w.pipes)) - PassedCount(w.pipes)
  {
    ScoreIsFlagGain(w.pipes);
  }

  // ---------------------------------------------------------------- pipe list

  /** After a step no pipe is off screen, the survivors keep their order, and a
      pipe at WIDTH with a fresh gap is appended exactly when the last survivor is
      left of the spawn line. */
  lemma StepPipes(w: World, h: int)
    requires Inv(w) && TopHInRange(h)
    ensures forall q :: q in Step(w, h).pipes ==> !PastLeftEdge(q.x)
    ensures var kept := Cull(MoveAll(w.pipes));
      kept != [] &&
      if Last(kept).x < SPAWN_BELOW
      then Step(w, h).pipes == kept + [PipeState(SPAWN_X, h, false)]
      else Step(w, h).pipes == kept
  {
    var moved := MoveAll(w.pipes);
    CullSubset(moved);
    CullKeepsLast(moved);
  }

  // ---------------------------------------------------------------- state machine

  /** Before the first input nothing moves. */
  lemma IdleFrameChangesNothing(w: World, h: int)
    requires Inv(w) && TopHInRange(h) && !w.start
    ensures Frame(w, false, h) == w
  {
  }

  /** Input in a running or idle game starts it and flaps: whatever the speed was,
      after the step it is JUMP + GRAVITY and the bird has risen by that much. */
  lemma InputStartsAndFlaps(w: World, h: int)
    requires Inv(w) && TopHInRange(h) && !w.gameOver
    ensures var r := Frame(w, true, h);
      r.start && r.vel == JUMP + GRAVITY && r.y == w.y + (JUMP + GRAVITY)
  {
  }

  /** A step ends the game exactly when the bird leaves the screen or touches a
      pipe; game over is never cleared by a step. */
  lemma StepGameOver(w: World, h: int)
    requires Inv(w) && TopHInRange(h)
    ensures var r := Step(w, h);
      r.gameOver <==>
        w.gameOver || OutOfBounds(r.y) || exists i :: 0 <= i < |w.pipes| && Hit(r.y, Moved(w.pipes[i]))
  {
    var moved := MoveAll(w.pipes);
    AnyHitIff(Step(w, h).y, moved);
    assert forall i :: 0 <= i < |moved| ==> moved[i] == Moved(w.pipes[i]);
  }

  /** Game over latches: without input the frame changes nothing, with input the
      game restarts from the initial state. */
  lemma GameOverLatches(w: World, input: bool, h: int)
    requires Inv(w) && TopHInRange(h) && w.gameOver
    ensures Frame(w, input, h) == if input then Initial(h) else w
  {
  }

  /** The score never decreases except by a restart. */
  lemma ScoreNeverDecreases(w: World, input: bool, h: int)
    requires Inv(w) && TopHInRange(h) && !(input && w.gameOver)
    ensures Frame(w, input, h).score >= w.score
  {
  }

  /** Once over, a game with no further input stays exactly as it is. */
  lemma {:induction false} GameOverStaysWithoutInput(w: World, ts: seq<Tick>)
    requires Inv(w) && DrawsInRange(ts) && w.gameOver
    requires forall i :: 0 <= i < |ts| ==> !ts[i].input
    ensures Run(w, ts) == w
  {
    if ts != [] {
      GameOverStaysWithoutInput(w, ts[..|ts| - 1]);
    }
  }
}
