/**
 * The on-screen bar drawn for a released note (`Sprite` in keyboard_demo.py):
 * when it expires, and the fade factor its colour is scaled by. Times are
 * exact reals standing in for Python floats.
 */
module Sprites {
  import opened NoteSchedule

  /** A bar: top-left corner, width and height, base colour, expiry time and its note. */
  datatype Sprite = Sprite(location: (int, int), size: (int, int), color: (int, int, int), endTime: real, note: Note)

  /** The sprite lasts exactly as long as its note: how `Control.update` builds every sprite. */
  ghost predicate Lifetime(s: Sprite)
  {
    s.note.duration > 0.0 && s.endTime == s.note.startTime + s.note.duration
  }

  /**
   * `hasExpired`: strictly past the expiry time, so a sprite is still live at
   * its expiry time, and a sprite that lasts as long as its note has expired
   * only once the note has ended.
   */
  predicate HasExpired(s: Sprite, t: real): (r: bool)
    ensures t == s.endTime ==> !r
    ensures Lifetime(s) && r ==> t > s.note.startTime + s.note.duration
  {
    t > s.endTime
  }

  function Max(a: real, b: real): (r: real) { if a >= b then a else b }

  function Min(a: real, b: real): (r: real) { if a <= b then a else b }

  /**
   * The fade factor computed in `draw`: one minus the fraction of the
   * duration elapsed since `end_time - duration`, clamped below at 0 and
   * above at 255.
   */
  function Intensity(s: Sprite, t: real): (r: real)
    requires s.note.duration > 0.0
    ensures 0.0 <= r <= 255.0
  {
    var fade := 1.0 - (t - (s.endTime - s.note.duration)) / s.note.duration;
    Min(Max(0.0, fade), 255.0)
  }

  /** A sprite is live at its expiry time and expired at every later time. */
  lemma ExpiryIsStrict(s: Sprite, t: real)
    ensures !HasExpired(s, s.endTime)
    ensures HasExpired(s, t) <==> t > s.endTime
    ensures HasExpired(s, t) ==> forall u :: u >= t ==> HasExpired(s, u)
  {
  }

  /** Dividing by a positive duration keeps order. */
  lemma DivMonotone(a: real, b: real, d: real)
    requires a <= b && d > 0.0
    ensures a / d <= b / d
  {
    assert (b / d - a / d) * d == b - a;
  }

  /**
   * Between the note's start and the sprite's expiry the fade factor stays
   * within [0, 1]: it is 1 at the start and 0 at the expiry time.
   */
  lemma IntensityOverLifetime(s: Sprite, t: real)
    requires Lifetime(s)
    requires s.note.startTime <= t <= s.endTime
    ensures 0.0 <= Intensity(s, t) <= 1.0
    ensures Intensity(s, s.note.startTime) == 1.0
    ensures Intensity(s, s.endTime) == 0.0
  {
    var d := s.note.duration;
    DivMonotone(0.0, t - s.note.startTime, d);
    DivMonotone(t - s.note.startTime, d, d);
  }

  /** The fade factor never grows as time goes on. */
  lemma IntensityNonIncreasing(s: Sprite, t1: real, t2: real)
    requires s.note.duration > 0.0
    requires t1 <= t2
    ensures Intensity(s, t2) <= Intensity(s, t1)
  {
    var start := s.endTime - s.note.duration;
    DivMonotone(t1 - start, t2 - start, s.note.duration);
  }

  /** Once expired, a sprite would be drawn black. */
  lemma ExpiredIsDark(s: Sprite, t: real)
    requires Lifetime(s)
    requires HasExpired(s, t)
    ensures Intensity(s, t) == 0.0
  {
    DivMonotone(s.note.duration, t - s.note.startTime, s.note.duration);
  }

  /**
   * Before the note starts the clamp does not stop at 1: a duration before the
   * start the factor is 2 (and up to 255 earlier still).
   */
  lemma IntensityBeforeStart(s: Sprite)
    requires Lifetime(s)
    ensures Intensity(s, s.note.startTime - s.note.duration) == 2.0
  {
    var d := s.note.duration;
    assert (s.note.startTime - d) - (s.endTime - d) == -d;
    assert -d / d == -1.0;
  }
}
