/** The state `main` keeps between frames, as an object whose methods perform one
    frame of the loop, proved against the rules in module Rules. */
module GameLoop {
  import opened Scenery
  import opened Flight
  import opened Obstacles
  import Rules

  /** What the rules see of a pipe object. */
  ghost function ViewOf(p: Pipe): Rules.PipeState
    reads p
  {
    Rules.PipeState(p.x, p.topH, p.passed)
  }

  ghost function Views(ps: seq<Pipe>): (vs: seq<Rules.PipeState>)
    reads ps
    ensures |vs| == |ps|
  {
    seq(|ps|, i requires 0 <= i < |ps| reads ps => ViewOf(ps[i]))
  }

  lemma ViewsAppend(ps: seq<Pipe>, p: Pipe)
    ensures Views(ps + [p]) == Views(ps) + [ViewOf(p)]
  {
    var l, r := Views(ps + [p]), Views(ps) + [ViewOf(p)];
    assert |l| == |r|;
    forall i | 0 <= i < |l|
      ensures l[i] == r[i]
    {
      if i < |ps| {
        assert (ps + [p])[i] == ps[i];
      }
    }
  }

  /** Moving one more pipe of a partly moved list: the list, the points and the
      collisions of the longer prefix. */
  lemma MoveOneMore(ps: seq<Rules.PipeState>, i: int, y: real)
    requires 0 <= i < |ps|
    ensures (Rules.MoveAll(ps[..i]) + ps[i..])[i := Rules.Moved(ps[i])]
         == Rules.MoveAll(ps[..i + 1]) + ps[i + 1..]
    ensures Rules.NewlyPassed(ps[..i + 1])
         == Rules.NewlyPassed(ps[..i]) + (if Rules.Scores(ps[i]) then 1 else 0)
    ensures Rules.AnyHit(y, Rules.MoveAll(ps[..i + 1]))
         == (Rules.AnyHit(y, Rules.MoveAll(ps[..i])) || Rules.Hit(y, Rules.Moved(ps[i])))
  {
    assert ps[..i + 1][..i] == ps[..i];
    assert Rules.MoveAll(ps[..i + 1])[..i] == Rules.MoveAll(ps[..i]);
    var l := (Rules.MoveAll(ps[..i]) + ps[i..])[i := Rules.Moved(ps[i])];
    var r := Rules.MoveAll(ps[..i + 1]) + ps[i + 1..];
    assert |l| == |r|;
    forall k | 0 <= k < |l|
      ensures l[k] == r[k]
    {
    }
  }

  /** Culling one more pipe of a list. */
  lemma CullOneMore(ps: seq<Rules.PipeState>, i: int)
    requires 0 <= i < |ps|
    ensures Rules.Cull(ps[..i + 1])
         == Rules.Cull(ps[..i]) + (if PastLeftEdge(ps[i].x) then [] else [ps[i]])
  {
    assert ps[..i + 1][..i] == ps[..i];
  }

  /** Every pipe is valid and no pipe appears twice in the list. */
  ghost predicate PipesValid(ps: seq<Pipe>)
    reads ps
  {
    && (forall i :: 0 <= i < |ps| ==> ps[i].Valid())
    && PipesDistinct(ps)
  }

  predicate PipesDistinct(ps: seq<Pipe>) {
    forall i, j :: 0 <= i < j < |ps| ==> ps[i] != ps[j]
  }

  class Game {
    var bg: Background
    var player: Bird
    var pipes: seq<Pipe>
    var score: int
    var start: bool
    var gameOver: bool

    /** The simulation state as the rules see it. */
    ghost function State(): Rules.World
      reads this, bg, player, pipes
    {
      Rules.World(bg.x1, bg.x2, player.y, player.vel, Views(pipes), score, start, gameOver)
    }

    ghost predicate Valid()
      reads this, bg, player, pipes
    {
      && bg.Valid()
      && player.Valid()
      && PipesValid(pipes)
      && Rules.Inv(State())
    }

    /** The state `main` builds before its loop; h is the first drawn top height. */
    constructor (h: int)
      requires TopHInRange(h)
      ensures Valid() && State() == Rules.Initial(h)
    {
      bg := new Background();
      player := new Bird();
      var p := new Pipe(Rules.FIRST_PIPE_X, h);
      pipes := [p];
      score := 0;
      start := false;
      gameOver := false;
      new;
      assert Views(pipes) == [ViewOf(p)];
      assert State() == Rules.Initial(h);
    }

    /** Input after game over: `main` starts again with new objects. */
    method Restart(h: int)
      requires TopHInRange(h)
      modifies this
      ensures Valid() && State() == Rules.Initial(h)
      ensures fresh(bg) && fresh(player) && forall p :: p in pipes ==> fresh(p)
    {
      bg := new Background();
      player := new Bird();
      var p := new Pipe(Rules.FIRST_PIPE_X, h);
      pipes := [p];
      score := 0;
      start := false;
      gameOver := false;
      assert Views(pipes) == [ViewOf(p)];
      assert State() == Rules.Initial(h);
    }

    /** The body of the `for p in pipes` loop for one pipe: move it, check it
        against the bird, and score it the first time it is left of the bird. */
    method MovePipe(p: Pipe)
      requires p.Valid() && player.Valid()
      modifies this`score, this`gameOver, p
      ensures p.Valid()
      ensures ViewOf(p) == Rules.Moved(old(ViewOf(p)))
      ensures score == old(score) + (if Rules.Scores(old(ViewOf(p))) then 1 else 0)
      ensures gameOver == (old(gameOver) || Rules.Hit(player.y, ViewOf(p)))
    {
      p.Update();
      if p.Collide(player) {
        gameOver := true;
      }
      if !p.passed && p.x < player.x {
        p.passed := true;
        score := score + 1;
      }
    }

    /** One iteration of the `for p in pipes` loop, on the i-th pipe, stated as
        the step from the first i pipes moved to the first i + 1. */
    method MoveNext(i: int, ghost before: seq<Rules.PipeState>, ghost score0: int, ghost over0: bool)
      requires 0 <= i < |pipes| == |before|
      requires PipesValid(pipes) && player.Valid()
      requires Views(pipes) == Rules.MoveAll(before[..i]) + before[i..]
      requires score == score0 + Rules.NewlyPassed(before[..i])
      requires gameOver == (over0 || Rules.AnyHit(player.y, Rules.MoveAll(before[..i])))
      modifies this`score, this`gameOver, pipes
      ensures PipesValid(pipes)
      ensures Views(pipes) == Rules.MoveAll(before[..i + 1]) + before[i + 1..]
      ensures score == score0 + Rules.NewlyPassed(before[..i + 1])
      ensures gameOver == (over0 || Rules.AnyHit(player.y, Rules.MoveAll(before[..i + 1])))
    {
      var p := pipes[i];
      assert |Rules.MoveAll(before[..i])| == i;
      assert ViewOf(p) == Views(pipes)[i] == before[i];
      MovePipe(p);
      MoveOneMore(before, i, player.y);
    }

    /** The `for p in pipes` loop. */
    method MovePipes()
      requires PipesValid(pipes) && player.Valid()
      modifies this`score, this`gameOver, pipes
      ensures PipesValid(pipes)
      ensures Views(pipes) == Rules.MoveAll(old(Views(pipes)))
      ensures score == old(score) + Rules.NewlyPassed(old(Views(pipes)))
      ensures gameOver == (old(gameOver) || Rules.AnyHit(player.y, Views(pipes)))
    {
      ghost var before := Views(pipes);
      for i := 0 to |pipes|
        invariant PipesValid(pipes)
        invariant Views(pipes) == Rules.MoveAll(before[..i]) + before[i..]
        invariant score == old(score) + Rules.NewlyPassed(before[..i])
        invariant gameOver == (old(gameOver) || Rules.AnyHit(player.y, Rules.MoveAll(before[..i])))
      {
        MoveNext(i, before, old(score), old(gameOver));
      }
      assert before[..|pipes|] == before && before[|pipes|..] == [];
    }

    /** `pipes = [p for p in pipes if not p.offscreen()]`. */
    method RemoveOffscreen()
      requires PipesValid(pipes)
      modifies this`pipes
      ensures PipesValid(pipes)
      ensures Views(pipes) == Rules.Cull(old(Views(pipes)))
      ensures forall p :: p in pipes ==> p in old(pipes)
    {
      var ps := pipes;
      ghost var before := Views(ps);
      var kept: seq<Pipe> := [];
      for i := 0 to |ps|
        invariant |before| == |ps|
        invariant PipesValid(kept)
        invariant forall a :: 0 <= a < |kept| ==> kept[a] in ps[..i]
        invariant Views(kept) == Rules.Cull(before[..i])
      {
        var p := ps[i];
        assert before[i] == ViewOf(p);
        CullOneMore(before, i);
        if !p.Offscreen() {
          assert forall a :: 0 <= a < |kept| ==> kept[a] != p;
          ViewsAppend(kept, p);
          kept := kept + [p];
        }
      }
      assert before[..|ps|] == before;
      pipes := kept;
    }

    /** `if pipes[-1].x < WIDTH - 250: pipes.append(Pipe(WIDTH))`, with h the drawn
        top height; the list is not empty when its last pipe is read. */
    method SpawnIfNeeded(h: int)
      requires PipesValid(pipes) && pipes != [] && TopHInRange(h)
      modifies this`pipes
      ensures PipesValid(pipes)
      ensures Views(pipes) == Rules.Spawned(old(Views(pipes)), h)
      ensures forall p :: p in pipes ==> p in old(pipes) || fresh(p)
    {
      ghost var before := Views(pipes);
      assert Rules.Last(before) == ViewOf(pipes[|pipes| - 1]);
      if pipes[|pipes| - 1].x < Rules.SPAWN_BELOW {
        var p := new Pipe(Rules.SPAWN_X, h);
        ViewsAppend(pipes, p);
        pipes := pipes + [p];
      }
    }

    /** Lines 142-145: cull the list, then spawn if needed. */
    method MaintainPipes(h: int)
      requires PipesValid(pipes) && TopHInRange(h)
      requires Views(pipes) != [] && !PastLeftEdge(Rules.Last(Views(pipes)).x)
      modifies this`pipes
      ensures PipesValid(pipes)
      ensures Views(pipes) == Rules.Upkeep(old(Views(pipes)), h)
      ensures forall p :: p in pipes ==> p in old(pipes) || fresh(p)
    {
      Rules.CullKeepsLast(Views(pipes));
      RemoveOffscreen();
      assert |Views(pipes)| == |pipes|;
      SpawnIfNeeded(h);
    }

    /** The first half of a step: scroll the background, move the bird and check
        it, then move, check and score every pipe. */
    method MoveEverything()
      requires bg.Valid() && player.Valid() && PipesValid(pipes)
      modifies bg, player, this`score, this`gameOver, pipes
      ensures bg.Valid() && player.Valid() && PipesValid(pipes)
      ensures bg.x1 == Scroll(old(bg.x1)) && bg.x2 == Scroll(old(bg.x2))
      ensures Motion(player.y, player.vel) == Gravity(Motion(old(player.y), old(player.vel)))
      ensures Views(pipes) == Rules.MoveAll(old(Views(pipes)))
      ensures score == old(score) + Rules.NewlyPassed(old(Views(pipes)))
      ensures gameOver == (old(gameOver) || OutOfBounds(player.y) || Rules.AnyHit(player.y, Views(pipes)))
    {
      ghost var before := Views(pipes);
      bg.Update();
      player.Update();
      if player.Dead() {
        gameOver := true;
      }
      assert Views(pipes) == before;
      MovePipes();
    }

    /** The body of `if start and not game_over`, with h the top height drawn if a
        pipe is spawned. */
    method Simulate(h: int)
      requires Valid() && TopHInRange(h)
      modifies this, bg, player, pipes
      ensures Valid()
      ensures State() == Rules.Step(old(State()), h)
      ensures bg == old(bg) && player == old(player)
      ensures forall p :: p in pipes ==> p in old(pipes) || fresh(p)
    {
      ghost var w := State();
      MoveEverything();
      ghost var a := State();
      assert a == Rules.Advance(w);
      Rules.CullKeepsLast(a.pipes);
      MaintainPipes(h);
      assert State() == a.(pipes := Rules.Upkeep(a.pipes, h));
      assert State() == Rules.Step(w, h);
      assert Rules.Inv(State());
    }

    /** One iteration of the main loop; input tells whether a key or mouse button
        was pressed in this frame. */
    method Frame(input: bool, h: int)
      requires Valid() && TopHInRange(h)
      modifies this, bg, player, pipes
      ensures Valid()
      ensures State() == Rules.Frame(old(State()), input, h)
      ensures (bg == old(bg) || fresh(bg)) && (player == old(player) || fresh(player))
      ensures forall p :: p in pipes ==> p in old(pipes) || fresh(p)
    {
      ghost var w := State();
      if input {
        if gameOver {
          Restart(h);
          return;
        }
        start := true;
        player.Flap();
      }
      ghost var w' := State();
      assert w' == if input then w.(start := true, vel := JUMP) else w;
      if start && !gameOver {
        Simulate(h);
      }
    }

    /** The `while True` loop of `main`, run for the frames ts. */
    method Play(ts: seq<Rules.Tick>)
      requires Valid() && Rules.DrawsInRange(ts)
      modifies this, bg, player, pipes
      ensures Valid()
      ensures State() == Rules.Run(old(State()), ts)
    {
      ghost var w := State();
      for i := 0 to |ts|
        invariant Valid()
        invariant State() == Rules.Run(w, ts[..i])
        invariant (bg == old(bg) || fresh(bg)) && (player == old(player) || fresh(player))
        invariant forall p :: p in pipes ==> p in old(pipes) || fresh(p)
      {
        assert ts[..i + 1][..i] == ts[..i];
        assert forall k :: 0 <= k < |pipes| ==> pipes[k] in old(pipes) || fresh(pipes[k]);
        Frame(ts[i].input, ts[i].drawnTopH);
      }
      assert ts[..|ts|] == ts;
    }
  }
}
