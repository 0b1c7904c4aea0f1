/** Force-rule selection of the particle simulator (Day7/day7-handgestures.py,
    the if/elif chain at the top of Particle.update).

    Each branch of the chain calls apply_force one or more times and may then
    nudge the velocity.  A ForceRule records exactly those parameters; the
    floating-point effect of apply_force itself is not modelled. */
module ForceField {
  import opened HandPose

  datatype Option<T> = None | Some(value: T)

  /** Where a pull is anchored: a landmark of the first hand, or the
      floor-division midpoint of the first two wrists. */
  datatype Target = Landmark(index: nat) | WristMidpoint

  /** One apply_force(tx, ty, strength, attract, swirl) call. */
  datatype Pull = Pull(target: Target, strength: int, attract: bool, swirl: real)

  /** The pulls of one branch, in call order, then the constant change to vy
      (negative is upwards on screen) and the half-width of the uniform jitter
      added to both velocity components (0.0 for none). */
  datatype ForceRule = ForceRule(pulls: seq<Pull>, dvy: real, jitter: real)

  const Wrist := Landmark(0)
  const ThumbTip := Landmark(4)
  const IndexTip := Landmark(8)
  const MiddleTip := Landmark(12)
  const RingTip := Landmark(16)
  const PinkyTip := Landmark(20)

  function Single(p: Pull): ForceRule { ForceRule([p], 0.0, 0.0) }

  const TwoHandsRule := Single(Pull(WristMidpoint, 40, true, 1.5))
  const FistRule := Single(Pull(Wrist, 50, true, 1.2))
  const OpenHandRule := Single(Pull(Wrist, 120, false, 0.0))
  const ThumbOnlyRule := ForceRule([Pull(Wrist, 30, true, 0.0)], -0.8, 0.0)
  const IndexOnlyRule := Single(Pull(IndexTip, 60, true, 0.0))
  const MiddleOnlyRule := ForceRule([Pull(Wrist, 100, false, 0.0)], 0.0, 0.5)
  const RingOnlyRule := Single(Pull(Wrist, 25, true, 0.5))
  const PinkyOnlyRule := ForceRule([Pull(Wrist, 15, false, 0.0)], 0.0, 0.3)
  const PeaceRule := ForceRule([Pull(IndexTip, 40, true, 0.0), Pull(MiddleTip, 40, true, 0.0)], 0.0, 0.0)
  const HangLooseRule := ForceRule([Pull(ThumbTip, 30, true, 0.0), Pull(PinkyTip, 30, true, 0.0)], -0.3, 0.0)
  const PinchRule := ForceRule([Pull(ThumbTip, 40, false, 0.0), Pull(IndexTip, 40, false, 0.0)], 0.0, 0.0)
  const RockRule := ForceRule([Pull(IndexTip, 35, false, 0.0), Pull(PinkyTip, 35, false, 0.0)], 0.0, 0.0)
  const TriFanRule := ForceRule([Pull(IndexTip, 30, true, 0.0), Pull(MiddleTip, 30, true, 0.0),
                                 Pull(RingTip, 30, true, 0.0)], 0.0, 0.0)
  const FourNoPinkyRule := Single(Pull(Wrist, 90, false, 0.0))
  const FountainRule := ForceRule([Pull(Wrist, 50, true, 0.8)], -0.6, 0.0)
  const DefaultOrbitRule := Single(Pull(Wrist, 35, true, 0.6))

  /** The selection chain, first match wins.  None means the hand list is
      empty and no force is applied at all. */
  function SelectRule(key: FingerKey, numHands: int, handsLen: nat): Option<ForceRule>
  {
    var FingerKey(t, i, m, r, p) := key;
    if handsLen == 0 then None
    else if numHands == 2 && handsLen >= 2 then Some(TwoHandsRule)
    else if !(t || i || m || r || p) then Some(FistRule)
    else if t && i && m && r && p then Some(OpenHandRule)
    else if t && !(i || m || r || p) then Some(ThumbOnlyRule)
    else if i && !(t || m || r || p) then Some(IndexOnlyRule)
    else if m && !(t || i || r || p) then Some(MiddleOnlyRule)
    else if r && !(t || i || m || p) then Some(RingOnlyRule)
    else if p && !(t || i || m || r) then Some(PinkyOnlyRule)
    else if i && m && !r && !p then Some(PeaceRule)
    else if t && p && !(i || m || r) then Some(HangLooseRule)
    else if t && i && !(m || r || p) then Some(PinchRule)
    else if i && p && !(t || m || r) then Some(RockRule)
    else if i && m && r && !t && !p then Some(TriFanRule)
    else if t && i && m && r && !p then Some(FourNoPinkyRule)
    else if i && m && r && p && !t then Some(FountainRule)
    else Some(DefaultOrbitRule)
  }

  /** The key packed into 0..31, thumb as the most significant bit. */
  function Pack(k: FingerKey): (c: nat)
    ensures c < 32
  {
    (if k.thumb then 16 else 0) + (if k.index then 8 else 0) + (if k.middle then 4 else 0)
    + (if k.ring then 2 else 0) + (if k.pinky then 1 else 0)
  }

  /** The key of a code, peeling off one bit at a time from the top. */
  function Unpack(c: nat): FingerKey
    requires c < 32
  {
    var c4 := if c >= 16 then c - 16 else c;
    var c3 := if c4 >= 8 then c4 - 8 else c4;
    var c2 := if c3 >= 4 then c3 - 4 else c3;
    var c1 := if c2 >= 2 then c2 - 2 else c2;
    FingerKey(c >= 16, c4 >= 8, c3 >= 4, c2 >= 2, c1 >= 1)
  }

  lemma PackIsBijective(k: FingerKey, c: nat)
    requires c < 32
    ensures Unpack(Pack(k)) == k
    ensures Pack(Unpack(c)) == c
  {
  }

  /** The single-hand rules as a table indexed by the packed key, written
      independently of the chain. */
  const RuleTable: seq<ForceRule> := [
    FistRule,          // 00000
    PinkyOnlyRule,     // 00001
    RingOnlyRule,      // 00010
    DefaultOrbitRule,  // 00011 ring+pinky
    MiddleOnlyRule,    // 00100
    DefaultOrbitRule,  // 00101 middle+pinky
    DefaultOrbitRule,  // 00110 middle+ring
    DefaultOrbitRule,  // 00111 last three
    IndexOnlyRule,     // 01000
    RockRule,          // 01001
    DefaultOrbitRule,  // 01010 index+ring
    DefaultOrbitRule,  // 01011 index+ring+pinky
    PeaceRule,         // 01100
    DefaultOrbitRule,  // 01101 index+middle+pinky
    TriFanRule,        // 01110
    FountainRule,      // 01111
    ThumbOnlyRule,     // 10000
    HangLooseRule,     // 10001
    DefaultOrbitRule,  // 10010 thumb+ring
    DefaultOrbitRule,  // 10011 thumb+ring+pinky
    DefaultOrbitRule,  // 10100 thumb+middle
    DefaultOrbitRule,  // 10101 thumb+middle+pinky
    DefaultOrbitRule,  // 10110 thumb+middle+ring
    DefaultOrbitRule,  // 10111 four without index
    PinchRule,         // 11000
    DefaultOrbitRule,  // 11001 thumb+index+pinky
    DefaultOrbitRule,  // 11010 thumb+index+ring
    DefaultOrbitRule,  // 11011 four without middle
    PeaceRule,         // 11100 peace test ignores the thumb
    DefaultOrbitRule,  // 11101 four without ring
    FourNoPinkyRule,   // 11110
    OpenHandRule       // 11111
  ]

  /** Without hands nothing is applied, whatever the key and count. */
  lemma NoHandsNoForce(key: FingerKey, numHands: int)
    ensures SelectRule(key, numHands, 0) == None
  {
  }

  /** Two hands reported and present: the midpoint rule, whatever the key. */
  lemma TwoHandsOverride(key: FingerKey, handsLen: nat)
    requires handsLen >= 2
    ensures SelectRule(key, 2, handsLen) == Some(TwoHandsRule)
    ensures TwoHandsRule.pulls == [Pull(WristMidpoint, 40, true, 1.5)]
  {
  }

  /** Otherwise the chain picks exactly the table's rule for the packed key:
      the chain is total over the 32 keys and its order decides every overlap. */
  lemma ChainMatchesTable(key: FingerKey, numHands: int, handsLen: nat)
    requires handsLen > 0 && !(numHands == 2 && handsLen >= 2)
    ensures |RuleTable| == 32
    ensures SelectRule(key, numHands, handsLen) == Some(RuleTable[Pack(key)])
  {
    if key.thumb {
      ThumbHalf(key, numHands, handsLen);
    } else {
      NoThumbHalf(key, numHands, handsLen);
    }
  }

  lemma ThumbHalf(key: FingerKey, numHands: int, handsLen: nat)
    requires handsLen > 0 && !(numHands == 2 && handsLen >= 2) && key.thumb
    ensures SelectRule(key, numHands, handsLen) == Some(RuleTable[Pack(key)])
  {
  }

  lemma NoThumbHalf(key: FingerKey, numHands: int, handsLen: nat)
    requires handsLen > 0 && !(numHands == 2 && handsLen >= 2) && !key.thumb
    ensures SelectRule(key, numHands, handsLen) == Some(RuleTable[Pack(key)])
  {
  }

  /** The fifteen keys with a rule of their own. */
  const DedicatedKeys: set<FingerKey> := {
    FingerKey(false, false, false, false, false), FingerKey(true, true, true, true, true),
    FingerKey(true, false, false, false, false), FingerKey(false, true, false, false, false),
    FingerKey(false, false, true, false, false), FingerKey(false, false, false, true, false),
    FingerKey(false, false, false, false, true), FingerKey(false, true, true, false, false),
    FingerKey(true, true, true, false, false), FingerKey(true, false, false, false, true),
    FingerKey(true, true, false, false, false), FingerKey(false, true, false, false, true),
    FingerKey(false, true, true, true, false), FingerKey(true, true, true, true, false),
    FingerKey(false, true, true, true, true)
  }

  /** A single-hand key falls to the default orbit exactly when it is not one
      of the fifteen dedicated keys; the other seventeen keys share it. */
  lemma DefaultOrbitIffNotDedicated(key: FingerKey, numHands: int, handsLen: nat)
    requires handsLen > 0 && !(numHands == 2 && handsLen >= 2)
    ensures SelectRule(key, numHands, handsLen) == Some(DefaultOrbitRule) <==> key !in DedicatedKeys
  {
    if key.thumb {
      DefaultOrbitWithThumb(key, numHands, handsLen);
    } else {
      DefaultOrbitWithoutThumb(key, numHands, handsLen);
    }
  }

  lemma DefaultOrbitWithThumb(key: FingerKey, numHands: int, handsLen: nat)
    requires handsLen > 0 && !(numHands == 2 && handsLen >= 2) && key.thumb
    ensures SelectRule(key, numHands, handsLen) == Some(DefaultOrbitRule) <==> key !in DedicatedKeys
  {
  }

  lemma DefaultOrbitWithoutThumb(key: FingerKey, numHands: int, handsLen: nat)
    requires handsLen > 0 && !(numHands == 2 && handsLen >= 2) && !key.thumb
    ensures SelectRule(key, numHands, handsLen) == Some(DefaultOrbitRule) <==> key !in DedicatedKeys
  {
  }

  lemma DedicatedKeyCount()
    ensures |DedicatedKeys| == 15
  {
  }

  /** The peace test ignores the thumb: with or without it, index and middle
      up and ring and pinky down select the dual fingertip rule. */
  lemma PeaceIgnoresThumb(numHands: int, handsLen: nat)
    requires handsLen > 0 && !(numHands == 2 && handsLen >= 2)
    ensures SelectRule(FingerKey(false, true, true, false, false), numHands, handsLen) == Some(PeaceRule)
    ensures SelectRule(FingerKey(true, true, true, false, false), numHands, handsLen) == Some(PeaceRule)
  {
  }

  /** Whether a hand list has the landmarks a rule's targets read. */
  predicate CanResolve(hands: seq<seq<Point>>, t: Target)
  {
    match t
    case Landmark(j) => |hands| >= 1 && j < |hands[0]|
    case WristMidpoint => |hands| >= 2 && |hands[0]| >= 1 && |hands[1]| >= 1
  }

  /** The pixel point a target denotes; the midpoint uses floor division. */
  function TargetPoint(hands: seq<seq<Point>>, t: Target): (pt: Point)
    requires CanResolve(hands, t)
    ensures t.WristMidpoint? ==>
      && 2 * pt.x <= hands[0][0].x + hands[1][0].x < 2 * pt.x + 2
      && 2 * pt.y <= hands[0][0].y + hands[1][0].y < 2 * pt.y + 2
  {
    match t
    case Landmark(j) => hands[0][j]
    case WristMidpoint =>
      Point((hands[0][0].x + hands[1][0].x) / 2, (hands[0][0].y + hands[1][0].y) / 2)
  }

  /** Every rule the chain can pick reads only landmarks a full first hand has,
      and the midpoint only when two hands are present. */
  lemma SelectedTargetsResolve(hands: seq<seq<Point>>, key: FingerKey, numHands: int)
    requires |hands| > 0 && |hands[0]| >= Landmarks
    requires |hands| >= 2 ==> |hands[1]| >= 1
    ensures SelectRule(key, numHands, |hands|).Some?
    ensures forall q :: q in SelectRule(key, numHands, |hands|).value.pulls ==> CanResolve(hands, q.target)
  {
  }
}
