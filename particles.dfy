/** Particle lifecycle of the hand-gesture simulator (Day7/day7-handgestures.py,
    Particle.reset, the integrate/fade/recycle tail of Particle.update, and the
    per-frame pool update in main).

    Random draws (position, velocity, life, colour) arrive as a ResetDraw whose
    ranges are those of random.uniform/randint.  The velocity after the force
    rules, friction and the speed cap is floating-point physics and arrives as
    a parameter; what is modelled is which rule is chosen, the integration of
    that velocity, the life decay and the reset rule. */
module Particles {
  import opened HandPose
  import opened ForceField
  import GestureCatalog

  const Width: real := 1280.0
  const Height: real := 720.0

  /** Life lost per frame. */
  const LifeDecay: real := 0.004

  /** One set of random draws for reset(). */
  datatype ResetDraw = ResetDraw(x: real, y: real, vx: real, vy: real, life: real,
                                 color: GestureCatalog.Color)

  predicate InFrame(x: real, y: real)
  {
    0.0 <= x <= Width && 0.0 <= y <= Height
  }

  predicate ChannelOk(c: int)
  {
    100 <= c <= 255
  }

  /** The ranges reset() draws from. */
  predicate DrawInRange(d: ResetDraw)
  {
    && InFrame(d.x, d.y)
    && -1.0 <= d.vx <= 1.0 && -1.0 <= d.vy <= 1.0
    && 0.5 <= d.life <= 1.0
    && ChannelOk(d.color.b) && ChannelOk(d.color.g) && ChannelOk(d.color.r)
  }

  /** The value of a particle's fields. */
  datatype ParticleState = ParticleState(x: real, y: real, vx: real, vy: real, life: real,
                                         color: GestureCatalog.Color, size: int)

  /** The state reset() leaves behind for a given draw. */
  function Respawned(d: ResetDraw): ParticleState
  {
    ParticleState(d.x, d.y, d.vx, d.vy, d.life, d.color, 1)
  }

  /** The expiry test after fading: life used up or outside the frame. */
  predicate NeedsReset(s: ParticleState)
  {
    s.life <= 0.0 || !InFrame(s.x, s.y)
  }

  /** Take the new velocity, move by it and fade. */
  function Advanced(s: ParticleState, nvx: real, nvy: real): ParticleState
  {
    s.(vx := nvx, vy := nvy, x := s.x + nvx, y := s.y + nvy, life := s.life - LifeDecay)
  }

  /** The tail of update(): advance, and reset when expired. */
  function FadeStep(s: ParticleState, nvx: real, nvy: real, d: ResetDraw): ParticleState
  {
    var moved := Advanced(s, nvx, nvy);
    if NeedsReset(moved) then Respawned(d) else moved
  }

  /** What a live particle satisfies whenever update() returns. */
  predicate Live(s: ParticleState)
  {
    0.0 < s.life <= 1.0 && InFrame(s.x, s.y)
  }

  /** After one step the particle either aged by exactly LifeDecay, stayed
      alive and inside the frame, having moved by the new velocity, or it was
      reset from the draw; either way it is live. */
  lemma FadeStepOutcome(s: ParticleState, nvx: real, nvy: real, d: ResetDraw)
    requires DrawInRange(d)
    requires s.life <= 1.0
    ensures var r := FadeStep(s, nvx, nvy, d);
      || (&& r.life == s.life - LifeDecay && r.life > 0.0
          && r.x == s.x + nvx && r.y == s.y + nvy && InFrame(r.x, r.y)
          && r.vx == nvx && r.vy == nvy && r.color == s.color && r.size == s.size)
      || r == Respawned(d)
    ensures Live(FadeStep(s, nvx, nvy, d))
  {
  }

  /** A reset particle has never more than a full life and a one-pixel size. */
  lemma RespawnedIsFresh(d: ResetDraw)
    requires DrawInRange(d)
    ensures var r := Respawned(d);
      Live(r) && r.life >= 0.5 && -1.0 <= r.vx <= 1.0 && -1.0 <= r.vy <= 1.0 && r.size == 1
      && ChannelOk(r.color.b) && ChannelOk(r.color.g) && ChannelOk(r.color.r)
  {
  }

  /** The inputs of one frame for one particle. */
  datatype StepInput = StepInput(nvx: real, nvy: real, draw: ResetDraw)

  /** A run of frames in which the particle is never reset. */
  predicate NoResetRun(s: ParticleState, ins: seq<StepInput>)
    decreases |ins|
  {
    ins == []
    || (var moved := Advanced(s, ins[0].nvx, ins[0].nvy);
        !NeedsReset(moved) && NoResetRun(moved, ins[1..]))
  }

  /** Every frame without a reset costs LifeDecay, and life stays positive. */
  lemma {:induction false} NoResetRunLife(s: ParticleState, ins: seq<StepInput>)
    requires NoResetRun(s, ins)
    ensures ins != [] ==> |ins| as real * LifeDecay < s.life
    decreases |ins|
  {
    if ins != [] {
      var moved := Advanced(s, ins[0].nvx, ins[0].nvy);
      assert !NeedsReset(moved) && NoResetRun(moved, ins[1..]);
      NoResetRunLife(moved, ins[1..]);
    }
  }

  /** A particle with at most a full life is reset within 250 frames,
      whatever the velocities: no run of 250 frames avoids a reset. */
  lemma ResetWithin250Frames(s: ParticleState, ins: seq<StepInput>)
    requires s.life <= 1.0
    requires |ins| >= 250
    ensures !NoResetRun(s, ins)
  {
    if NoResetRun(s, ins) {
      NoResetRunLife(s, ins);
    }
  }

  /** k frames standing still. */
  function StandStill(k: nat, d: ResetDraw): seq<StepInput>
  {
    seq(k, _ => StepInput(0.0, 0.0, d))
  }

  /** A particle inside the frame with more than k frames of life left that
      stands still is not reset during those k frames. */
  lemma {:induction false} StandingStillLasts(s: ParticleState, d: ResetDraw, k: nat)
    requires InFrame(s.x, s.y) && s.life > k as real * LifeDecay
    ensures NoResetRun(s, StandStill(k, d))
    decreases k
  {
    if k > 0 {
      var ins := StandStill(k, d);
      assert ins[0] == StepInput(0.0, 0.0, d) && ins[1..] == StandStill(k - 1, d);
      StandingStillLasts(Advanced(s, 0.0, 0.0), d, k - 1);
    }
  }

  /** The bound of 250 frames is the best one: a particle with a full life
      that stands still inside the frame lasts 249 frames without a reset. */
  lemma ResetBoundIsTight(s: ParticleState, d: ResetDraw)
    requires InFrame(s.x, s.y) && s.life == 1.0
    ensures NoResetRun(s, StandStill(249, d))
  {
    StandingStillLasts(s, d, 249);
  }

  class Particle {
    var x: real
    var y: real
    var vx: real
    var vy: real
    var life: real
    var color: GestureCatalog.Color
    var size: int

    function State(): ParticleState
      reads this
    {
      ParticleState(x, y, vx, vy, life, color, size)
    }

    ghost predicate Valid()
      reads this
    {
      Live(State())
    }

    /** __init__ simply resets. */
    constructor (d: ResetDraw)
      requires DrawInRange(d)
      ensures State() == Respawned(d) && Valid()
    {
      x, y, vx, vy, life := d.x, d.y, d.vx, d.vy, d.life;
      size := 1;
      color := d.color;
    }

    method Reset(d: ResetDraw)
      requires DrawInRange(d)
      modifies this
      ensures State() == Respawned(d) && Valid()
    {
      x := d.x;
      y := d.y;
      vx := d.vx;
      vy := d.vy;
      life := d.life;
      size := 1;
      color := d.color;
    }

    /** update(all_hands_data, gesture_key, num_hands): the rule of the
        selection chain is returned (None when no hand is present); the
        velocity it leads to, after friction and the speed cap, is (nvx, nvy). */
    method Update(hands: seq<seq<Point>>, key: FingerKey, numHands: int,
                  nvx: real, nvy: real, d: ResetDraw) returns (applied: Option<ForceRule>)
      requires DrawInRange(d)
      requires Valid()
      modifies this
      ensures applied == SelectRule(key, numHands, |hands|)
      ensures State() == FadeStep(old(State()), nvx, nvy, d)
      ensures Valid()
    {
      applied := SelectRule(key, numHands, |hands|);
      vx, vy := nvx, nvy;
      x := x + vx;
      y := y + vy;
      life := life - LifeDecay;
      if life <= 0.0 || !(0.0 <= x <= Width) || !(0.0 <= y <= Height) {
        Reset(d);
      }
      FadeStepOutcome(old(State()), nvx, nvy, d);
    }
  }

  /** The frame loop of main: classify the hands for display, then update
      every particle of the pool with the first hand's key and the hand
      count; rules[i] is the rule particle i was updated with. */
  method UpdatePool(pool: seq<Particle>, hands: seq<seq<Point>>,
                    nvx: seq<real>, nvy: seq<real>, draws: seq<ResetDraw>)
    returns (hud: GestureCatalog.Hud, rules: seq<Option<ForceRule>>)
    requires forall i, j :: 0 <= i < j < |pool| ==> pool[i] != pool[j]
    requires |nvx| == |pool| && |nvy| == |pool| && |draws| == |pool|
    requires forall i :: 0 <= i < |draws| ==> DrawInRange(draws[i])
    requires forall i :: 0 <= i < |pool| ==> pool[i].Valid()
    modifies pool
    ensures hud == GestureCatalog.FrameHud(hands)
    ensures |rules| == |pool|
    ensures forall i :: 0 <= i < |pool| ==> rules[i] == SelectRule(hud.key, hud.numHands, |hands|)
    ensures forall i :: 0 <= i < |pool| ==>
      pool[i].Valid() && pool[i].State() == FadeStep(old(pool[i].State()), nvx[i], nvy[i], draws[i])
  {
    hud := GestureCatalog.FrameHud(hands);
    rules := [];
    for i := 0 to |pool|
      invariant |rules| == i
      invariant forall j :: 0 <= j < i ==> rules[j] == SelectRule(hud.key, hud.numHands, |hands|)
      invariant forall j :: 0 <= j < i ==>
        pool[j].Valid() && pool[j].State() == FadeStep(old(pool[j].State()), nvx[j], nvy[j], draws[j])
      invariant forall j :: i <= j < |pool| ==> pool[j].State() == old(pool[j].State())
    {
      var applied := pool[i].Update(hands, hud.key, hud.numHands, nvx[i], nvy[i], draws[i]);
      rules := rules + [applied];
    }
  }
}
