/** The static gesture catalogue of the particle simulator
    (Day7/day7-handgestures.py, GESTURE_MAP and the per-frame display lookup in main).
    Colours are (blue, green, red) triples, as OpenCV draws them. */
module GestureCatalog {
  import opened HandPose

  datatype Option<T> = None | Some(value: T)

  datatype Color = Color(b: int, g: int, r: int)

  datatype Descriptor = Descriptor(name: string, color: Color, description: string)

  /** GESTURE_MAP: the descriptor of every one of the 32 finger keys, grouped
      by the number of raised fingers as in the source.  The match is
      exhaustive, so the table has no gap. */
  function GestureOf(key: FingerKey): Descriptor
  {
    match key
    // no finger raised
    case FingerKey(false, false, false, false, false) => Descriptor("FIST", Color(80, 80, 255), "Particles spiral inward")
    // one finger raised
    case FingerKey(true, false, false, false, false) => Descriptor("THUMBS UP", Color(0, 220, 255), "Particles float upward")
    case FingerKey(false, true, false, false, false) => Descriptor("POINTING", Color(80, 255, 80), "Stream to index tip")
    case FingerKey(false, false, true, false, false) => Descriptor("MIDDLE FINGER", Color(255, 50, 50), "Particles explode out")
    case FingerKey(false, false, false, true, false) => Descriptor("RING UP", Color(200, 100, 255), "Slow spiral")
    case FingerKey(false, false, false, false, true) => Descriptor("PINKY UP", Color(255, 200, 0), "Tiny scatter")
    // two fingers raised
    case FingerKey(true, true, false, false, false) => Descriptor("THUMB+INDEX", Color(100, 255, 200), "Pinch repel")
    case FingerKey(false, true, true, false, false) => Descriptor("PEACE / V", Color(200, 80, 255), "Dual stream")
    case FingerKey(false, true, false, true, false) => Descriptor("INDEX+RING", Color(255, 150, 0), "Cross stream")
    case FingerKey(false, true, false, false, true) => Descriptor("INDEX+PINKY", Color(0, 150, 255), "Wide repel")
    case FingerKey(false, false, true, true, false) => Descriptor("MIDDLE+RING", Color(150, 255, 100), "Slow attract")
    case FingerKey(false, false, true, false, true) => Descriptor("MIDDLE+PINKY", Color(255, 80, 200), "Zigzag")
    case FingerKey(false, false, false, true, true) => Descriptor("RING+PINKY", Color(80, 200, 255), "Gentle wave")
    case FingerKey(true, false, false, false, true) => Descriptor("HANG LOOSE", Color(255, 220, 0), "Surfer wave")
    case FingerKey(true, false, true, false, false) => Descriptor("THUMB+MIDDLE", Color(100, 200, 255), "Orbit")
    case FingerKey(true, false, false, true, false) => Descriptor("THUMB+RING", Color(200, 255, 100), "Spin")
    // three fingers raised
    case FingerKey(true, true, true, false, false) => Descriptor("THREE / OK", Color(0, 255, 180), "Triangle burst")
    case FingerKey(false, true, true, true, false) => Descriptor("THREE MIDDLE", Color(255, 100, 100), "Fan out")
    case FingerKey(false, true, true, false, true) => Descriptor("INDEX+MID+PINK", Color(100, 255, 255), "Wide fan")
    case FingerKey(false, true, false, true, true) => Descriptor("INDEX+RING+PINK", Color(255, 180, 50), "Spread")
    case FingerKey(false, false, true, true, true) => Descriptor("LAST THREE", Color(180, 100, 255), "Sweep")
    case FingerKey(true, true, false, true, false) => Descriptor("THUMB+IDX+RING", Color(50, 255, 150), "Vortex")
    case FingerKey(true, true, false, false, true) => Descriptor("THUMB+IDX+PINK", Color(255, 255, 50), "Star burst")
    case FingerKey(true, false, true, true, false) => Descriptor("THUMB+MID+RING", Color(100, 150, 255), "Orbit ring")
    case FingerKey(true, false, true, false, true) => Descriptor("THUMB+MID+PINK", Color(255, 100, 180), "Scatter")
    case FingerKey(true, false, false, true, true) => Descriptor("THUMB+RING+PINK", Color(150, 255, 200), "Wave up")
    // four fingers raised
    case FingerKey(true, true, true, true, false) => Descriptor("FOUR / NO PINKY", Color(0, 200, 255), "Strong repel")
    case FingerKey(true, true, true, false, true) => Descriptor("FOUR / NO RING", Color(255, 150, 100), "Swirl out")
    case FingerKey(true, true, false, true, true) => Descriptor("FOUR / NO MID", Color(100, 255, 150), "Explode")
    case FingerKey(true, false, true, true, true) => Descriptor("FOUR / NO IDX", Color(200, 100, 255), "Pull in")
    case FingerKey(false, true, true, true, true) => Descriptor("FOUR / NO THUMB", Color(255, 200, 80), "Fountain")
    // all five raised
    case FingerKey(true, true, true, true, true) => Descriptor("OPEN HAND", Color(0, 255, 255), "Mega repel")
  }

  /** Inverse of the name column: which key carries a given gesture name. */
  function KeyOfName(name: string): Option<FingerKey>
  {
    if name == "FIST" then Some(FingerKey(false, false, false, false, false))
    else if name == "THUMBS UP" then Some(FingerKey(true, false, false, false, false))
    else if name == "POINTING" then Some(FingerKey(false, true, false, false, false))
    else if name == "MIDDLE FINGER" then Some(FingerKey(false, false, true, false, false))
    else if name == "RING UP" then Some(FingerKey(false, false, false, true, false))
    else if name == "PINKY UP" then Some(FingerKey(false, false, false, false, true))
    else if name == "THUMB+INDEX" then Some(FingerKey(true, true, false, false, false))
    else if name == "PEACE / V" then Some(FingerKey(false, true, true, false, false))
    else if name == "INDEX+RING" then Some(FingerKey(false, true, false, true, false))
    else if name == "INDEX+PINKY" then Some(FingerKey(false, true, false, false, true))
    else if name == "MIDDLE+RING" then Some(FingerKey(false, false, true, true, false))
    else if name == "MIDDLE+PINKY" then Some(FingerKey(false, false, true, false, true))
    else if name == "RING+PINKY" then Some(FingerKey(false, false, false, true, true))
    else if name == "HANG LOOSE" then Some(FingerKey(true, false, false, false, true))
    else if name == "THUMB+MIDDLE" then Some(FingerKey(true, false, true, false, false))
    else if name == "THUMB+RING" then Some(FingerKey(true, false, false, true, false))
    else if name == "THREE / OK" then Some(FingerKey(true, true, true, false, false))
    else if name == "THREE MIDDLE" then Some(FingerKey(false, true, true, true, false))
    else if name == "INDEX+MID+PINK" then Some(FingerKey(false, true, true, false, true))
    else if name == "INDEX+RING+PINK" then Some(FingerKey(false, true, false, true, true))
    else if name == "LAST THREE" then Some(FingerKey(false, false, true, true, true))
    else if name == "THUMB+IDX+RING" then Some(FingerKey(true, true, false, true, false))
    else if name == "THUMB+IDX+PINK" then Some(FingerKey(true, true, false, false, true))
    else if name == "THUMB+MID+RING" then Some(FingerKey(true, false, true, true, false))
    else if name == "THUMB+MID+PINK" then Some(FingerKey(true, false, true, false, true))
    else if name == "THUMB+RING+PINK" then Some(FingerKey(true, false, false, true, true))
    else if name == "FOUR / NO PINKY" then Some(FingerKey(true, true, true, true, false))
    else if name == "FOUR / NO RING" then Some(FingerKey(true, true, true, false, true))
    else if name == "FOUR / NO MID" then Some(FingerKey(true, true, false, true, true))
    else if name == "FOUR / NO IDX" then Some(FingerKey(true, false, true, true, true))
    else if name == "FOUR / NO THUMB" then Some(FingerKey(false, true, true, true, true))
    else if name == "OPEN HAND" then Some(FingerKey(true, true, true, true, true))
    else None
  }

  /** The name column round-trips through KeyOfName, so no two keys share a
      name.  Proved heading by heading (the helpers below). */
  lemma NameRoundTrip(key: FingerKey)
    ensures KeyOfName(GestureOf(key).name) == Some(key)
    ensures GestureOf(key).name in HeadingNames(CountUp(key))
  {
    var n := CountUp(key);
    if n <= 1 {
      FewFingerEntries(key);
    } else if n == 2 {
      if key.thumb { TwoFingerEntriesThumb(key); } else { TwoFingerEntriesNoThumb(key); }
    } else if n == 3 {
      if !key.thumb {
        ThreeFingerEntriesNoThumb(key);
      } else if key.index {
        ThreeFingerEntriesThumbIndex(key);
      } else {
        ThreeFingerEntriesThumbNoIndex(key);
      }
    } else {
      if key.thumb && key.index { ManyFingerEntriesThumbIndex(key); } else { ManyFingerEntriesOther(key); }
    }
  }

  /** All 32 names are distinct, and none is the "CUSTOM" fallback name the
      display would use for a key missing from the table. */
  lemma {:induction false} NamesAreDistinct(k1: FingerKey, k2: FingerKey)
    ensures GestureOf(k1).name == GestureOf(k2).name ==> k1 == k2
    ensures GestureOf(k1).name != "CUSTOM"
  {
    NameRoundTrip(k1);
    NameRoundTrip(k2);
  }

  lemma FewFingerEntries(key: FingerKey)
    requires CountUp(key) <= 1
    ensures KeyOfName(GestureOf(key).name) == Some(key)
    ensures GestureOf(key).name in HeadingNames(CountUp(key))
  {
  }

  lemma TwoFingerEntriesThumb(key: FingerKey)
    requires CountUp(key) == 2 && key.thumb
    ensures KeyOfName(GestureOf(key).name) == Some(key)
    ensures GestureOf(key).name in HeadingNames(CountUp(key))
  {
  }

  lemma TwoFingerEntriesNoThumb(key: FingerKey)
    requires CountUp(key) == 2 && !key.thumb
    ensures KeyOfName(GestureOf(key).name) == Some(key)
    ensures GestureOf(key).name in HeadingNames(CountUp(key))
  {
  }

  lemma ThreeFingerEntriesThumbIndex(key: FingerKey)
    requires CountUp(key) == 3 && key.thumb && key.index
    ensures KeyOfName(GestureOf(key).name) == Some(key)
    ensures GestureOf(key).name in HeadingNames(CountUp(key))
  {
  }

  lemma ThreeFingerEntriesThumbNoIndex(key: FingerKey)
    requires CountUp(key) == 3 && key.thumb && !key.index
    ensures KeyOfName(GestureOf(key).name) == Some(key)
    ensures GestureOf(key).name in HeadingNames(CountUp(key))
  {
  }

  lemma ThreeFingerEntriesNoThumb(key: FingerKey)
    requires CountUp(key) == 3 && !key.thumb
    ensures KeyOfName(GestureOf(key).name) == Some(key)
    ensures GestureOf(key).name in HeadingNames(CountUp(key))
  {
  }

  lemma ManyFingerEntriesThumbIndex(key: FingerKey)
    requires CountUp(key) >= 4 && key.thumb && key.index
    ensures KeyOfName(GestureOf(key).name) == Some(key)
    ensures GestureOf(key).name in HeadingNames(CountUp(key))
  {
  }

  lemma ManyFingerEntriesOther(key: FingerKey)
    requires CountUp(key) >= 4 && !(key.thumb && key.index)
    ensures KeyOfName(GestureOf(key).name) == Some(key)
    ensures GestureOf(key).name in HeadingNames(CountUp(key))
  {
  }

  /** The names listed under each "n fingers" heading of the table. */
  function HeadingNames(n: nat): set<string>
  {
    if n == 0 then {"FIST"}
    else if n == 1 then {"THUMBS UP", "POINTING", "MIDDLE FINGER", "RING UP", "PINKY UP"}
    else if n == 2 then {"THUMB+INDEX", "PEACE / V", "INDEX+RING", "INDEX+PINKY", "MIDDLE+RING",
                         "MIDDLE+PINKY", "RING+PINKY", "HANG LOOSE", "THUMB+MIDDLE", "THUMB+RING"}
    else if n == 3 then {"THREE / OK", "THREE MIDDLE", "INDEX+MID+PINK", "INDEX+RING+PINK", "LAST THREE",
                         "THUMB+IDX+RING", "THUMB+IDX+PINK", "THUMB+MID+RING", "THUMB+MID+PINK",
                         "THUMB+RING+PINK"}
    else if n == 4 then {"FOUR / NO PINKY", "FOUR / NO RING", "FOUR / NO MID", "FOUR / NO IDX",
                         "FOUR / NO THUMB"}
    else if n == 5 then {"OPEN HAND"}
    else {}
  }

  /** What the head-up display shows for one frame (main, lines 335-363). */
  datatype Hud = Hud(numHands: nat, key: FingerKey, gesture: Descriptor)

  const NoHand := Descriptor("NO HAND", Color(180, 180, 180), "Show your hand to camera")

  /** The first detected hand decides the displayed key and gesture; with no
      hand the display falls back to the all-down key and "NO HAND".  The
      lookup's "CUSTOM" default is never what is shown. */
  function FrameHud(hands: seq<seq<Point>>): (h: Hud)
    ensures h.numHands == |hands|
    ensures |hands| == 0 ==> h.key == AllDown && h.gesture == NoHand
    ensures |hands| > 0 ==> h.key == FingerKeyOf(hands[0]) && h.gesture == GestureOf(h.key)
    ensures h.gesture.name != "CUSTOM"
  {
    if |hands| == 0 then Hud(0, AllDown, NoHand)
    else
      var key := FingerKeyOf(hands[0]);
      NamesAreDistinct(key, key);
      Hud(|hands|, key, GestureOf(key))
  }
}
