/** The script version of the catch game (Day8/day8-obj-cathing-game.py):
    module-level player, score, lives and game-over flag, and a list of
    object records updated in place, here an array of Obj values.  The
    module-level variables become in- and out-parameters of one frame. */
module CatchScript {
  import opened CatchRules

  /** The module-level setup: the player in the middle of the screen, count
      (a random choice of 2 or 3) spawned objects, score 0, three lives. */
  method Start(count: nat, draws: seq<Spawn>)
    returns (objects: array<Obj>, player: Disc, score: int, lives: int, gameOver: bool)
    requires count == 2 || count == 3
    requires |draws| == count && AllSpawnsInRange(draws)
    ensures fresh(objects)
    ensures GameState(objects[..], score, lives, gameOver) == InitialState(draws)
    ensures Consistent(GameState(objects[..], score, lives, gameOver))
    ensures player == Disc(ScreenWidth / 2, ScreenHeight / 2, PlayerRadius)
  {
    player := Disc(ScreenWidth / 2, ScreenHeight / 2, PlayerRadius);
    score, lives, gameOver := 0, StartLives, false;
    objects := new Obj[count];
    for i := 0 to count
      invariant forall j :: 0 <= j < i ==> objects[j] == SpawnObject(draws[j])
    {
      objects[i] := SpawnObject(draws[i]);
    }
    assert objects[..] == InitialState(draws).objects;
  }

  /** The loop body for object i: it falls, then is caught (score) or missed
      below the screen (a life), being replaced by a fresh spawn either way. */
  method UpdateObject(objects: array<Obj>, i: nat, player: Disc, d: Spawn, score: int, lives: int)
    returns (newScore: int, newLives: int)
    requires i < objects.Length && SpawnInRange(d)
    modifies objects
    ensures var (o, out) := ObjectStep(old(objects[i]), player, d);
      && objects[..] == old(objects[..])[i := o]
      && newScore == score + (if out == Caught then 1 else 0)
      && newLives == lives - (if out == Missed then 1 else 0)
  {
    newScore, newLives := score, lives;
    objects[i] := objects[i].(y := objects[i].y + objects[i].speed);
    if Collides(player, objects[i]) {
      newScore := newScore + 1;
      objects[i] := SpawnObject(d);
    } else if objects[i].y > ScreenHeight {
      newLives := newLives - 1;
      objects[i] := SpawnObject(d);
    }
  }

  /** The loop over the objects, in list order. */
  method UpdateObjects(objects: array<Obj>, player: Disc, draws: seq<Spawn>, score: int, lives: int)
    returns (newScore: int, newLives: int)
    requires |draws| == objects.Length && AllSpawnsInRange(draws)
    modifies objects
    ensures var t := Pass(old(objects[..]), player, draws, objects.Length);
      objects[..] == t.objects && newScore == score + t.caught && newLives == lives - t.missed
  {
    ghost var vs := objects[..];
    newScore, newLives := score, lives;
    for i := 0 to objects.Length
      invariant forall j :: 0 <= j < i ==> objects[j] == ObjectStep(vs[j], player, draws[j]).0
      invariant forall j :: i <= j < objects.Length ==> objects[j] == vs[j]
      invariant newScore == score + Pass(vs, player, draws, i).caught
      invariant newLives == lives - Pass(vs, player, draws, i).missed
    {
      newScore, newLives := UpdateObject(objects, i, player, draws[i], newScore, newLives);
    }
    PassObjects(vs, player, draws, objects[..]);
  }

  /** One pass of the main loop after detection: the player follows the
      index fingertip when a hand is seen; then, unless the game is over, the
      objects are updated and game over is latched when lives are gone.  The
      result is the shared update rule. */
  method Frame(objects: array<Obj>, player: Disc, score: int, lives: int, gameOver: bool,
               hand: Option<HandReading>, draws: seq<Spawn>)
    returns (newPlayer: Disc, newScore: int, newLives: int, newGameOver: bool)
    requires |draws| == objects.Length && AllSpawnsInRange(draws)
    modifies objects
    ensures newPlayer == MovePlayer(player, hand)
    ensures GameState(objects[..], newScore, newLives, newGameOver)
         == Update(GameState(old(objects[..]), score, lives, gameOver), newPlayer, draws)
  {
    newPlayer := player;
    if hand.Some? {
      newPlayer := newPlayer.(x := hand.value.tipX, y := hand.value.tipY);
    }
    newScore, newLives, newGameOver := score, lives, gameOver;
    if !newGameOver {
      newScore, newLives := UpdateObjects(objects, newPlayer, draws, newScore, newLives);
      if newLives <= 0 {
        newGameOver := true;
      }
    }
  }
}
