/** Finger-state detection of the hand-gesture particle simulator
    (Day7/day7-handgestures.py, get_fingers_up).

    A hand is a sequence of integer pixel points in the landmark order of the
    hand tracker: 0 wrist, 2 thumb base, 4 thumb tip, 6/8 index PIP/tip,
    10/12 middle, 14/16 ring, 18/20 pinky.  Pixel y grows downwards, so a
    finger is "up" when its tip has a smaller y than its PIP joint. */
module HandPose {

  datatype Point = Point(x: int, y: int)

  /** The per-frame finger key (thumb, index, middle, ring, pinky). */
  datatype FingerKey = FingerKey(thumb: bool, index: bool, middle: bool, ring: bool, pinky: bool)

  const AllDown := FingerKey(false, false, false, false, false)

  /** Number of landmarks a complete hand has. */
  const Landmarks := 21

  /** Minimal vertical PIP-to-tip rise, in pixels, for a finger to be up. */
  const Threshold := 12

  function Abs(n: int): (r: nat)
    ensures r == n || r == -n
  {
    if n < 0 then -n else n
  }

  /** Number of raised fingers in a key. */
  function CountUp(k: FingerKey): (n: nat)
    ensures n <= 5
    ensures n == 0 <==> k == AllDown
  {
    (if k.thumb then 1 else 0) + (if k.index then 1 else 0) + (if k.middle then 1 else 0)
    + (if k.ring then 1 else 0) + (if k.pinky then 1 else 0)
  }

  /** The thumb moves sideways: it is up when its tip is horizontally further
      from the wrist than its base joint, strictly. */
  predicate ThumbUp(pts: seq<Point>)
    requires |pts| >= Landmarks
  {
    Abs(pts[4].x - pts[0].x) > Abs(pts[2].x - pts[0].x)
  }

  /** A long finger is up when its PIP joint lies more than Threshold pixels
      below its tip, strictly. */
  predicate FingerUp(pts: seq<Point>, tip: nat, pip: nat)
    requires tip < |pts| && pip < |pts|
  {
    pts[pip].y - pts[tip].y > Threshold
  }

  /** The key get_fingers_up returns, stated declaratively. */
  function FingerKeyOf(pts: seq<Point>): FingerKey
  {
    if |pts| < Landmarks then AllDown
    else FingerKey(ThumbUp(pts), FingerUp(pts, 8, 6), FingerUp(pts, 12, 10),
                   FingerUp(pts, 16, 14), FingerUp(pts, 20, 18))
  }

  /** The (tip, pip) pairs the four long fingers are compared on, in order. */
  const LongFingerPairs: seq<(nat, nat)> := [(8, 6), (12, 10), (16, 14), (20, 18)]

  /** get_fingers_up: the thumb test, then a loop appending one flag per long finger. */
  method GetFingersUp(pts: seq<Point>) returns (key: FingerKey)
    ensures key == FingerKeyOf(pts)
    ensures |pts| < Landmarks ==> key == AllDown
    ensures |pts| >= Landmarks ==>
      && (key.thumb <==> Abs(pts[4].x - pts[0].x) > Abs(pts[2].x - pts[0].x))
      && (key.index <==> pts[6].y - pts[8].y > Threshold)
      && (key.middle <==> pts[10].y - pts[12].y > Threshold)
      && (key.ring <==> pts[14].y - pts[16].y > Threshold)
      && (key.pinky <==> pts[18].y - pts[20].y > Threshold)
  {
    if |pts| < Landmarks {
      return AllDown;
    }
    var wristX := pts[0].x;
    var thumbTip := pts[4].x;
    var thumbMcp := pts[2].x;
    var thumbUp := Abs(thumbTip - wristX) > Abs(thumbMcp - wristX);
    var other: seq<bool> := [];
    for j := 0 to |LongFingerPairs|
      invariant |other| == j
      invariant forall k :: 0 <= k < j ==>
        other[k] == (pts[LongFingerPairs[k].1].y - pts[LongFingerPairs[k].0].y > Threshold)
    {
      var (tipId, pipId) := LongFingerPairs[j];
      other := other + [pts[pipId].y - pts[tipId].y > Threshold];
    }
    key := FingerKey(thumbUp, other[0], other[1], other[2], other[3]);
  }

  /** Two hands that agree on the eleven landmark coordinates the classifier
      reads get the same key: the x of points 0, 2, 4 and the y of points
      6, 8, ..., 20.  Every other point and coordinate is irrelevant. */
  lemma OnlyReadCoordinatesMatter(p: seq<Point>, q: seq<Point>)
    requires |p| >= Landmarks && |q| >= Landmarks
    requires p[0].x == q[0].x && p[2].x == q[2].x && p[4].x == q[4].x
    requires forall i :: i in {6, 8, 10, 12, 14, 16, 18, 20} ==> p[i].y == q[i].y
    ensures FingerKeyOf(p) == FingerKeyOf(q)
  {
    assert p[6].y == q[6].y && p[8].y == q[8].y && p[10].y == q[10].y && p[12].y == q[12].y;
    assert p[14].y == q[14].y && p[16].y == q[16].y && p[18].y == q[18].y && p[20].y == q[20].y;
  }

  /** A hand with every point at the origin except the given index finger
      tip height; used for the threshold boundary examples. */
  function IndexTipHand(rise: int): (h: seq<Point>)
    ensures |h| == Landmarks
  {
    seq(Landmarks, i => if i == 8 then Point(0, -rise) else Point(0, 0))
  }

  /** A rise of exactly Threshold leaves the index finger down; one pixel more
      raises it, and nothing else changes. */
  lemma ThresholdIsStrict()
    ensures FingerKeyOf(IndexTipHand(12)) == AllDown
    ensures FingerKeyOf(IndexTipHand(13)) == FingerKey(false, true, false, false, false)
  {
    var h12, h13 := IndexTipHand(12), IndexTipHand(13);
    assert h12[6].y - h12[8].y == 12;
    assert h13[6].y - h13[8].y == 13;
  }

  /** A thumb tip exactly as far from the wrist as the thumb base is down. */
  lemma ThumbTieIsDown(pts: seq<Point>)
    requires |pts| >= Landmarks
    requires Abs(pts[4].x - pts[0].x) == Abs(pts[2].x - pts[0].x)
    ensures !FingerKeyOf(pts).thumb
  {
  }
}
