/** The object-oriented gesture catch game (Day8/day8-withopencv-game.py):
    a Player disc, FallingObject instances updated in place, and a Game that
    owns them, keeps score and lives and latches game over.  The frame body of
    main (hand position, gesture and its effect on speeds) is Frame.
    Camera, tracker and drawing are left out; random draws are parameters. */
module CatchGame {
  import opened CatchRules

  class Player {
    var x: int
    var y: int
    var radius: int

    constructor (x0: int, y0: int, r: int)
      ensures x == x0 && y == y0 && radius == r
    {
      x, y, radius := x0, y0, r;
    }

    function Disc(): CatchRules.Disc
      reads this
    {
      CatchRules.Disc(x, y, radius)
    }

    /** The player jumps to the fingertip; its size stays. */
    method UpdateFromHand(nx: int, ny: int)
      modifies this
      ensures x == nx && y == ny && radius == old(radius)
    {
      x := nx;
      y := ny;
    }
  }

  class FallingObject {
    var x: int
    var y: int
    var speed: int
    var radius: int

    function Value(): Obj
      reads this
    {
      Obj(x, y, speed, radius)
    }

    /** __init__: radius 15, then a respawn. */
    constructor (d: Spawn)
      requires SpawnInRange(d)
      ensures Value() == SpawnObject(d)
    {
      radius := ObjectRadius;
      x, y, speed := d.x, d.y, d.speed;
    }

    /** A new random position and speed; the radius is kept. */
    method Respawn(d: Spawn)
      requires SpawnInRange(d) && radius == ObjectRadius
      modifies this
      ensures Value() == SpawnObject(d)
    {
      x := d.x;
      y := d.y;
      speed := d.speed;
    }

    /** Fall by the current speed. */
    method Fall()
      modifies this
      ensures Value() == old(Value()).(y := old(y) + old(speed))
    {
      y := y + speed;
    }
  }

  /** The values of a list of objects, in order. */
  function ValuesOf(objs: seq<FallingObject>): (r: seq<Obj>)
    reads objs
  {
    seq(|objs|, i reads objs requires 0 <= i < |objs| => objs[i].Value())
  }

  predicate Distinct(objs: seq<FallingObject>)
  {
    forall i, j :: 0 <= i < j < |objs| ==> objs[i] != objs[j]
  }

  class Game {
    var player: Player
    var objects: seq<FallingObject>
    var score: int
    var lives: int
    var gameOver: bool

    function Abstract(): GameState
      reads this, objects
    {
      GameState(ValuesOf(objects), score, lives, gameOver)
    }

    function PlayerDisc(): CatchRules.Disc
      reads this, player
    {
      player.Disc()
    }

    /** Two or three distinct objects, a 20-pixel player, and the shared
        invariant: objects of radius 15 with speeds in [1, 4], and game over
        exactly when no life is left. */
    ghost predicate Valid()
      reads this, player, objects
    {
      && player.radius == PlayerRadius
      && 2 <= |objects| <= 3
      && Distinct(objects)
      && Consistent(Abstract())
    }

    /** __init__: the player in the middle of the screen, count (a random
        choice of 2 or 3) freshly spawned objects, score 0, three lives. */
    constructor (count: nat, draws: seq<Spawn>)
      requires count == 2 || count == 3
      requires |draws| == count && AllSpawnsInRange(draws)
      ensures Valid()
      ensures Abstract() == InitialState(draws)
      ensures PlayerDisc() == CatchRules.Disc(ScreenWidth / 2, ScreenHeight / 2, PlayerRadius)
      ensures fresh(player) && forall i :: 0 <= i < |objects| ==> fresh(objects[i])
    {
      var objs: seq<FallingObject> := [];
      for i := 0 to count
        invariant |objs| == i
        invariant Distinct(objs)
        invariant forall j :: 0 <= j < i ==> fresh(objs[j]) && objs[j].Value() == SpawnObject(draws[j])
      {
        var o := new FallingObject(draws[i]);
        objs := objs + [o];
      }
      player := new Player(ScreenWidth / 2, ScreenHeight / 2, PlayerRadius);
      objects := objs;
      score := 0;
      lives := StartLives;
      gameOver := false;
      new;
      assert ValuesOf(objects) == InitialState(draws).objects;
    }

    /** The body of update's loop for one object: it falls, then a catch
        scores and respawns it, or else a miss below the screen costs a life
        and respawns it. */
    method UpdateObject(obj: FallingObject, d: Spawn)
      requires SpawnInRange(d) && obj.radius == ObjectRadius
      modifies this, obj
      ensures objects == old(objects) && player == old(player) && gameOver == old(gameOver)
      ensures var (o, out) := ObjectStep(old(obj.Value()), PlayerDisc(), d);
        && obj.Value() == o
        && score == old(score) + (if out == Caught then 1 else 0)
        && lives == old(lives) - (if out == Missed then 1 else 0)
    {
      obj.Fall();
      if Collides(PlayerDisc(), obj.Value()) {
        score := score + 1;
        obj.Respawn(d);
      } else if obj.y > ScreenHeight {
        lives := lives - 1;
        obj.Respawn(d);
      }
    }

    /** update(): unless the game is over, every object falls and is then
        caught (score) or missed below the screen (a life), respawning in
        either case; game over is latched once lives reach zero.  The new
        state is the shared rule applied to the old one. */
    method Update(draws: seq<Spawn>)
      requires Valid()
      requires |draws| == |objects| && AllSpawnsInRange(draws)
      modifies this, objects
      ensures objects == old(objects) && player == old(player)
      ensures Abstract() == CatchRules.Update(old(Abstract()), PlayerDisc(), draws)
      ensures Valid()
    {
      if gameOver {
        return;
      }
      ghost var g0 := Abstract();
      ghost var p := PlayerDisc();
      ghost var t := Pass(g0.objects, p, draws, |g0.objects|);
      RunningUpdate(g0, p, draws, t);
      UpdateEach(g0.objects, draws);
      PassObjects(g0.objects, p, draws, ValuesOf(objects));
    }

    /** The running part of update: the loop over the objects in list order,
        then the game-over latch. */
    method UpdateEach(ghost vs: seq<Obj>, draws: seq<Spawn>)
      requires |vs| == |objects| && |draws| == |objects| && AllSpawnsInRange(draws)
      requires Distinct(objects) && !gameOver
      requires forall j :: 0 <= j < |objects| ==> objects[j].Value() == vs[j] && vs[j].radius == ObjectRadius
      modifies this, objects
      ensures objects == old(objects) && player == old(player) && gameOver == (lives <= 0)
      ensures forall j :: 0 <= j < |objects| ==> objects[j].Value() == ObjectStep(vs[j], PlayerDisc(), draws[j]).0
      ensures score == old(score) + Pass(vs, PlayerDisc(), draws, |vs|).caught
      ensures lives == old(lives) - Pass(vs, PlayerDisc(), draws, |vs|).missed
    {
      var objs := objects;
      ghost var p := PlayerDisc();
      for i := 0 to |objs|
        invariant objects == objs && player == old(player) && PlayerDisc() == p && !gameOver
        invariant forall j :: 0 <= j < i ==> objs[j].Value() == ObjectStep(vs[j], p, draws[j]).0
        invariant forall j :: i <= j < |objs| ==> objs[j].Value() == vs[j]
        invariant score == old(score) + Pass(vs, p, draws, i).caught
        invariant lives == old(lives) - Pass(vs, p, draws, i).missed
      {
        UpdateObject(objs[i], draws[i]);
      }
      if lives <= 0 {
        gameOver := true;
      }
    }
  }

  /** Slow motion: every object's speed drops by one, not below 1. */
  method SlowDownAll(game: Game)
    requires game.Valid()
    modifies game.objects
    ensures game.Abstract() == old(game.Abstract()).(objects := SlowDown(old(game.Abstract()).objects))
    ensures game.Valid()
  {
    ghost var vs := ValuesOf(game.objects);
    for i := 0 to |game.objects|
      invariant forall j :: 0 <= j < i ==> game.objects[j].Value() == SlowDown(vs)[j]
      invariant forall j :: i <= j < |game.objects| ==> game.objects[j].Value() == vs[j]
    {
      var obj := game.objects[i];
      obj.speed := Max(1, obj.speed - 1);
    }
    assert ValuesOf(game.objects) == SlowDown(vs);
    SpeedRulesKeepConsistent(old(game.Abstract()));
  }

  /** Normal speed: every object's speed clamped back into [2, 4]. */
  method ClampAll(game: Game)
    requires game.Valid()
    modifies game.objects
    ensures game.Abstract() == old(game.Abstract()).(objects := ClampSpeeds(old(game.Abstract()).objects))
    ensures game.Valid()
  {
    ghost var vs := ValuesOf(game.objects);
    for i := 0 to |game.objects|
      invariant forall j :: 0 <= j < i ==> game.objects[j].Value() == ClampSpeeds(vs)[j]
      invariant forall j :: i <= j < |game.objects| ==> game.objects[j].Value() == vs[j]
    {
      var obj := game.objects[i];
      obj.speed := Min(Max(obj.speed, 2), 4);
    }
    assert ValuesOf(game.objects) == ClampSpeeds(vs);
    SpeedRulesKeepConsistent(old(game.Abstract()));
  }

  /** The hand step of main's loop: follow the fingertip and classify the
      hand when one is seen; UNKNOWN otherwise.  The game state is untouched. */
  method TrackHand(game: Game, hand: Option<HandReading>) returns (gesture: Gesture)
    requires ReadingOk(hand)
    modifies game.player
    ensures gesture == FrameGesture(hand)
    ensures game.PlayerDisc() == MovePlayer(old(game.PlayerDisc()), hand)
  {
    gesture := Unknown;
    if hand.Some? {
      game.player.UpdateFromHand(hand.value.tipX, hand.value.tipY);
      gesture := Classify(hand.value.landmarks);
    }
  }

  /** The gesture effects of main's loop: pause on a fist, slow down on two
      fingers, restore normal speeds otherwise, updating the game in the last
      two cases. */
  method ApplyGesture(game: Game, gesture: Gesture, draws: seq<Spawn>)
    requires game.Valid()
    requires |draws| == |game.objects| && AllSpawnsInRange(draws)
    modifies game, game.objects
    ensures game.objects == old(game.objects) && game.player == old(game.player)
    ensures game.Abstract() == GestureEffect(old(game.Abstract()), gesture, game.PlayerDisc(), draws)
    ensures game.Valid()
  {
    if gesture == Fist {
    } else if gesture == TwoFingers {
      SlowDownAll(game);
      game.Update(draws);
    } else {
      ClampAll(game);
      game.Update(draws);
    }
  }

  /** One pass of main's loop after the camera read; the result is the
      gesture shown. */
  method Frame(game: Game, hand: Option<HandReading>, draws: seq<Spawn>) returns (gesture: Gesture)
    requires game.Valid() && ReadingOk(hand)
    requires |draws| == |game.objects| && AllSpawnsInRange(draws)
    modifies game, game.player, game.objects
    ensures game.objects == old(game.objects) && game.player == old(game.player)
    ensures gesture == FrameGesture(hand)
    ensures game.PlayerDisc() == MovePlayer(old(game.PlayerDisc()), hand)
    ensures game.Abstract() == GestureEffect(old(game.Abstract()), gesture, game.PlayerDisc(), draws)
    ensures game.Valid()
  {
    gesture := TrackHand(game, hand);
    ApplyGesture(game, gesture, draws);
  }
}
