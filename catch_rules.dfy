/** The rules shared by the two versions of the gesture catch game
    (Day8/day8-withopencv-game.py and Day8/day8-obj-cathing-game.py):
    falling objects, the integer collision test, one frame of object updates
    with score, lives and the game-over latch, the four-way gesture
    classifier and the per-frame speed rules.  Everything is integer
    arithmetic on pixel coordinates, except the classifier, which reads the
    tracker's normalised landmark heights. */
module CatchRules {

  const ScreenWidth := 640
  const ScreenHeight := 480
  const ObjectRadius := 15
  const PlayerRadius := 20
  const StartLives := 3

  /** A falling object's fields. */
  datatype Obj = Obj(x: int, y: int, speed: int, radius: int)

  /** The player disc. */
  datatype Disc = Disc(x: int, y: int, radius: int)

  /** One set of random draws for spawning an object. */
  datatype Spawn = Spawn(x: int, y: int, speed: int)

  /** The ranges randint draws spawn values from. */
  predicate SpawnInRange(d: Spawn)
  {
    0 <= d.x <= ScreenWidth && -300 <= d.y <= -50 && 2 <= d.speed <= 4
  }

  /** spawn_object / FallingObject.respawn: fresh position and speed, radius 15. */
  function SpawnObject(d: Spawn): (o: Obj)
    requires SpawnInRange(d)
    ensures 0 <= o.x <= ScreenWidth && -300 <= o.y <= -50 && 2 <= o.speed <= 4
    ensures o.radius == ObjectRadius
  {
    Obj(d.x, d.y, d.speed, ObjectRadius)
  }

  function Square(n: int): nat
  {
    n * n
  }

  /** check_collision without the square root: the squared centre distance
      is below the squared sum of the radii. */
  predicate Collides(p: Disc, o: Obj)
  {
    Square(p.x - o.x) + Square(p.y - o.y) < Square(p.radius + o.radius)
  }

  /** Squaring is strictly monotone on non-negative reals. */
  lemma SquareOrder(d: real, r: real)
    requires d >= 0.0 && r >= 0.0
    ensures d < r <==> d * d < r * r
  {
    if d < r {
      calc {
        d * d;
      <= d * r;
      <  r * r;
      }
    } else {
      calc {
        r * r;
      <= r * d;
      <= d * d;
      }
    }
  }

  lemma SquareAsReal(n: int)
    ensures Square(n) as real == (n as real) * (n as real)
  {
  }

  /** For non-negative radii the squared test agrees with the source's
      sqrt(dx*dx + dy*dy) < r_player + r_obj: dist is the non-negative root. */
  lemma CollisionMatchesDistance(p: Disc, o: Obj, dist: real)
    requires p.radius + o.radius >= 0
    requires dist >= 0.0 && dist * dist == (Square(p.x - o.x) + Square(p.y - o.y)) as real
    ensures Collides(p, o) <==> dist < (p.radius + o.radius) as real
  {
    var r := (p.radius + o.radius) as real;
    SquareAsReal(p.radius + o.radius);
    SquareOrder(dist, r);
  }

  /** What happened to one object in a frame. */
  datatype Outcome = Caught | Missed | StillFalling

  /** One object's part of a frame: fall by its speed; a collision catches it,
      otherwise dropping below the screen misses it; either way it respawns. */
  function ObjectStep(o: Obj, p: Disc, d: Spawn): (Obj, Outcome)
    requires SpawnInRange(d)
  {
    var moved := o.(y := o.y + o.speed);
    if Collides(p, moved) then (SpawnObject(d), Caught)
    else if moved.y > ScreenHeight then (SpawnObject(d), Missed)
    else (moved, StillFalling)
  }

  predicate AllSpawnsInRange(draws: seq<Spawn>)
  {
    forall i :: 0 <= i < |draws| ==> SpawnInRange(draws[i])
  }

  /** The objects after a pass over them, and how many were caught and missed. */
  datatype Tally = Tally(objects: seq<Obj>, caught: nat, missed: nat)

  /** The loop over the first n objects, one step per object in list
      order, with draws[i] the spawn values object i would take. */
  function Pass(objs: seq<Obj>, p: Disc, draws: seq<Spawn>, n: nat): (t: Tally)
    requires |draws| == |objs| && AllSpawnsInRange(draws) && n <= |objs|
    ensures |t.objects| == n
    ensures t.caught + t.missed <= n
    ensures forall i :: 0 <= i < n ==> t.objects[i] == ObjectStep(objs[i], p, draws[i]).0
  {
    if n == 0 then Tally([], 0, 0)
    else
      var t := Pass(objs, p, draws, n - 1);
      var (o, out) := ObjectStep(objs[n - 1], p, draws[n - 1]);
      Tally(t.objects + [o], t.caught + (if out == Caught then 1 else 0),
            t.missed + (if out == Missed then 1 else 0))
  }

  /** The objects of a pass are determined object by object. */
  lemma PassObjects(objs: seq<Obj>, p: Disc, draws: seq<Spawn>, after: seq<Obj>)
    requires |draws| == |objs| && AllSpawnsInRange(draws) && |after| == |objs|
    requires forall j :: 0 <= j < |objs| ==> after[j] == ObjectStep(objs[j], p, draws[j]).0
    ensures after == Pass(objs, p, draws, |objs|).objects
  {
  }

  /** The game's state. */
  datatype GameState = GameState(objects: seq<Obj>, score: int, lives: int, gameOver: bool)

  /** Game.update and the script's frame block: nothing once the game is over;
      otherwise step every object, then latch game over when lives run out. */
  function Update(g: GameState, p: Disc, draws: seq<Spawn>): GameState
    requires |draws| == |g.objects| && AllSpawnsInRange(draws)
  {
    if g.gameOver then g
    else
      var t := Pass(g.objects, p, draws, |g.objects|);
      var lives := g.lives - t.missed;
      GameState(t.objects, g.score + t.caught, lives, lives <= 0)
  }

  /** The invariant both versions keep between frames. */
  predicate Consistent(g: GameState)
  {
    && (g.gameOver <==> g.lives <= 0)
    && forall i :: 0 <= i < |g.objects| ==> g.objects[i].radius == ObjectRadius && 1 <= g.objects[i].speed <= 4
  }

  function InitialState(draws: seq<Spawn>): (g: GameState)
    requires AllSpawnsInRange(draws)
    ensures Consistent(g)
  {
    GameState(seq(|draws|, i requires 0 <= i < |draws| => SpawnObject(draws[i])), 0, StartLives, false)
  }

  /** Each object ends a frame in exactly one of three ways: caught (and
      respawned), missed (no collision, below the screen, respawned), or
      simply moved down by its speed. */
  lemma ObjectStepCases(o: Obj, p: Disc, d: Spawn)
    requires SpawnInRange(d)
    ensures var (r, out) := ObjectStep(o, p, d);
      && (out == Caught <==> Collides(p, o.(y := o.y + o.speed)))
      && (out == Missed <==> !Collides(p, o.(y := o.y + o.speed)) && o.y + o.speed > ScreenHeight)
      && (out == StillFalling ==> r == o.(y := o.y + o.speed))
      && (out != StillFalling ==> r == SpawnObject(d))
      && r.y <= ScreenHeight
  {
  }

  /** Update leaves a finished game unchanged. */
  lemma GameOverIsFinal(g: GameState, p: Disc, draws: seq<Spawn>)
    requires |draws| == |g.objects| && AllSpawnsInRange(draws)
    requires g.gameOver
    ensures Update(g, p, draws) == g
  {
  }

  /** The frame update of a running game, given the pass t over its objects;
      the result keeps the invariant. */
  lemma RunningUpdate(g: GameState, p: Disc, draws: seq<Spawn>, t: Tally)
    requires |draws| == |g.objects| && AllSpawnsInRange(draws)
    requires Consistent(g) && !g.gameOver
    requires t == Pass(g.objects, p, draws, |g.objects|)
    ensures Update(g, p, draws) == GameState(t.objects, g.score + t.caught, g.lives - t.missed, g.lives - t.missed <= 0)
    ensures Consistent(GameState(t.objects, g.score + t.caught, g.lives - t.missed, g.lives - t.missed <= 0))
  {
    UpdateKeepsInvariant(g, p, draws);
  }

  /** A frame keeps the object count and the invariant, never lowers the
      score, costs at most one life per object, and ends with game over
      exactly when lives are gone (which it never undoes). */
  lemma {:induction false} UpdateKeepsInvariant(g: GameState, p: Disc, draws: seq<Spawn>)
    requires |draws| == |g.objects| && AllSpawnsInRange(draws)
    requires Consistent(g)
    ensures var g' := Update(g, p, draws);
      && Consistent(g')
      && |g'.objects| == |g.objects|
      && g'.score >= g.score
      && g.lives - |g.objects| <= g'.lives <= g.lives
      && (g'.score - g.score) + (g.lives - g'.lives) <= |g.objects|
      && (g.gameOver ==> g'.gameOver)
      && (!g.gameOver ==> forall i :: 0 <= i < |g'.objects| ==> g'.objects[i].y <= ScreenHeight)
  {
    if !g.gameOver {
      var t := Pass(g.objects, p, draws, |g.objects|);
      forall i | 0 <= i < |g.objects|
        ensures t.objects[i].radius == ObjectRadius && 1 <= t.objects[i].speed <= 4
        ensures t.objects[i].y <= ScreenHeight
      {
        ObjectStepCases(g.objects[i], p, draws[i]);
      }
    }
  }

  // ---------------------------------------------------------------------------
  // GestureDetector.classify (with-OpenCV version only)

  /** A tracker landmark in normalised image coordinates. */
  datatype Landmark = Landmark(x: real, y: real)

  datatype Gesture = Fist | TwoFingers | Open | Unknown

  /** Higher on screen: the tip's y is strictly smaller than the base's. */
  predicate Extended(lm: seq<Landmark>, tip: nat, base: nat)
    requires tip < |lm| && base < |lm|
  {
    lm[tip].y < lm[base].y
  }

  function B2I(b: bool): nat { if b then 1 else 0 }

  function ExtendedCount(lm: seq<Landmark>): (n: nat)
    requires |lm| >= 21
    ensures n <= 5
  {
    B2I(Extended(lm, 4, 2)) + B2I(Extended(lm, 8, 5)) + B2I(Extended(lm, 12, 9))
    + B2I(Extended(lm, 16, 13)) + B2I(Extended(lm, 20, 17))
  }

  /** Index and middle up, ring and pinky folded. */
  predicate TwoFingerPattern(lm: seq<Landmark>)
    requires |lm| >= 21
  {
    Extended(lm, 8, 5) && Extended(lm, 12, 9) && !Extended(lm, 16, 13) && !Extended(lm, 20, 17)
  }

  function Classify(lm: seq<Landmark>): Gesture
    requires |lm| >= 21
  {
    var count := ExtendedCount(lm);
    if count <= 1 then Fist
    else if TwoFingerPattern(lm) then TwoFingers
    else if count >= 4 then Open
    else Unknown
  }

  /** The four classes, each stated without the order of the tests: at most
      one finger is a fist; the two-finger pattern always counts at least two
      and at most three fingers, so it is never a fist or open; four or more
      is open; the rest is unknown. */
  lemma ClassifyCases(lm: seq<Landmark>)
    requires |lm| >= 21
    ensures Classify(lm) == Fist <==> ExtendedCount(lm) <= 1
    ensures Classify(lm) == TwoFingers <==> TwoFingerPattern(lm)
    ensures Classify(lm) == Open <==> ExtendedCount(lm) >= 4
    ensures Classify(lm) == Unknown <==> 2 <= ExtendedCount(lm) <= 3 && !TwoFingerPattern(lm)
  {
  }

  // ---------------------------------------------------------------------------
  // The per-frame gesture effects of main (with-OpenCV version)

  function Max(a: int, b: int): int { if a >= b then a else b }
  function Min(a: int, b: int): int { if a <= b then a else b }

  /** Slow motion: every speed drops by one, but not below 1. */
  function SlowDown(objs: seq<Obj>): (r: seq<Obj>)
    ensures |r| == |objs|
    ensures forall i :: 0 <= i < |r| ==> r[i] == objs[i].(speed := r[i].speed) && 1 <= r[i].speed
    ensures forall i :: 0 <= i < |r| ==> (objs[i].speed > 1 ==> r[i].speed == objs[i].speed - 1) && (objs[i].speed <= 1 ==> r[i].speed == 1)
  {
    seq(|objs|, i requires 0 <= i < |objs| => objs[i].(speed := Max(1, objs[i].speed - 1)))
  }

  /** Normal speed: every speed clamped into [2, 4]. */
  function ClampSpeeds(objs: seq<Obj>): (r: seq<Obj>)
    ensures |r| == |objs|
    ensures forall i :: 0 <= i < |r| ==> r[i] == objs[i].(speed := r[i].speed) && 2 <= r[i].speed <= 4
    ensures forall i :: 0 <= i < |r| ==> (2 <= objs[i].speed <= 4 ==> r[i].speed == objs[i].speed)
    ensures forall i :: 0 <= i < |r| ==> (objs[i].speed < 2 ==> r[i].speed == 2) && (objs[i].speed > 4 ==> r[i].speed == 4)
  {
    seq(|objs|, i requires 0 <= i < |objs| => objs[i].(speed := Min(Max(objs[i].speed, 2), 4)))
  }

  /** What the hand tracker reports in a frame: the index fingertip in pixels
      and the 21 landmarks. */
  datatype HandReading = HandReading(tipX: int, tipY: int, landmarks: seq<Landmark>)

  predicate ReadingOk(hand: Option<HandReading>)
  {
    hand.Some? ==> |hand.value.landmarks| >= 21
  }

  datatype Option<T> = None | Some(value: T)

  /** The frame's gesture: the classifier on the hand, or UNKNOWN without one. */
  function FrameGesture(hand: Option<HandReading>): Gesture
    requires ReadingOk(hand)
  {
    if hand.Some? then Classify(hand.value.landmarks) else Unknown
  }

  /** The gesture effect: FIST pauses, TWO_FINGERS slows then updates, any
      other gesture restores normal speeds then updates. */
  function GestureEffect(g: GameState, gesture: Gesture, p: Disc, draws: seq<Spawn>): GameState
    requires |draws| == |g.objects| && AllSpawnsInRange(draws)
  {
    match gesture
    case Fist => g
    case TwoFingers => Update(g.(objects := SlowDown(g.objects)), p, draws)
    case _ => Update(g.(objects := ClampSpeeds(g.objects)), p, draws)
  }

  /** Speeds stay in [1, 4] under every gesture, and after any gesture other
      than FIST and TWO_FINGERS every speed is back in [2, 4]; FIST changes
      nothing at all. */
  lemma {:induction false} GestureEffectSpeeds(g: GameState, gesture: Gesture, p: Disc, draws: seq<Spawn>)
    requires |draws| == |g.objects| && AllSpawnsInRange(draws)
    requires Consistent(g)
    ensures var g' := GestureEffect(g, gesture, p, draws);
      && Consistent(g')
      && (gesture == Fist ==> g' == g)
      && (gesture != Fist && gesture != TwoFingers ==>
            forall i :: 0 <= i < |g'.objects| ==> 2 <= g'.objects[i].speed <= 4)
  {
    match gesture
    case Fist =>
    case TwoFingers =>
      var s := g.(objects := SlowDown(g.objects));
      assert Consistent(s);
      UpdateKeepsInvariant(s, p, draws);
    case _ =>
      var s := g.(objects := ClampSpeeds(g.objects));
      assert Consistent(s);
      UpdateKeepsInvariant(s, p, draws);
      if !s.gameOver {
        var t := Pass(s.objects, p, draws, |s.objects|);
        forall i | 0 <= i < |s.objects|
          ensures 2 <= t.objects[i].speed <= 4
        {
          ObjectStepCases(s.objects[i], p, draws[i]);
        }
      }
  }

  /** After game over a gesture can still lower or clamp the speeds, but
      changes nothing else: not the score, the lives, the flag, the number
      of objects or any object's position or radius. */
  lemma GameOverOnlySpeedsChange(g: GameState, gesture: Gesture, p: Disc, draws: seq<Spawn>)
    requires |draws| == |g.objects| && AllSpawnsInRange(draws)
    requires g.gameOver
    ensures var g' := GestureEffect(g, gesture, p, draws);
      && g'.score == g.score && g'.lives == g.lives && g'.gameOver
      && |g'.objects| == |g.objects|
      && forall i :: 0 <= i < |g.objects| ==> g'.objects[i] == g.objects[i].(speed := g'.objects[i].speed)
  {
    match gesture
    case Fist =>
    case TwoFingers => GameOverIsFinal(g.(objects := SlowDown(g.objects)), p, draws);
    case _ => GameOverIsFinal(g.(objects := ClampSpeeds(g.objects)), p, draws);
  }

  /** Both speed rules keep the invariant; clamping also lifts every speed to
      at least 2. */
  lemma SpeedRulesKeepConsistent(g: GameState)
    requires Consistent(g)
    ensures Consistent(g.(objects := SlowDown(g.objects)))
    ensures Consistent(g.(objects := ClampSpeeds(g.objects)))
    ensures forall i :: 0 <= i < |g.objects| ==> 2 <= ClampSpeeds(g.objects)[i].speed <= 4
  {
  }

  /** The player follows the index fingertip when a hand is seen and stays
      put otherwise; the radius never changes. */
  function MovePlayer(p: Disc, hand: Option<HandReading>): (q: Disc)
    ensures q.radius == p.radius
    ensures hand.None? ==> q == p
    ensures hand.Some? ==> q.x == hand.value.tipX && q.y == hand.value.tipY
  {
    if hand.Some? then Disc(hand.value.tipX, hand.value.tipY, p.radius) else p
  }
}
