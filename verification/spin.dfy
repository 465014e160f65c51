/** The spin animation: which segment won, the rotation the wheel is
    turned to, and the eased rotation of each of the 60 frames, the last
    of which is shown again with the winner highlighted. Frame pacing is
    the host's business and is not modelled. */
module Spin {
  import opened Restaurants
  import opened Wheel

  /** Full turns added before the wheel settles. */
  const Spins: nat := 5
  /** Frames of the animation. */
  const FrameCount: nat := 60

  /** One rendered state of the wheel: the rotation it is turned by
      (degrees, clockwise) and the segment shown in gold, if any. */
  datatype Frame = Frame(rotation: real, highlight: Option<nat>)

  /** The position of the first entry at or after i named `result`; 0 when
      there is none. */
  function FirstMatch(rs: seq<Restaurant>, result: string, i: nat): (k: nat)
    requires i <= |rs|
    ensures (exists j :: i <= j < |rs| && rs[j].name == result) ==>
      i <= k < |rs| && rs[k].name == result && forall j :: i <= j < k ==> rs[j].name != result
    ensures (forall j :: i <= j < |rs| ==> rs[j].name != result) ==> k == 0
    decreases |rs| - i
  {
    if i == |rs| then 0
    else if rs[i].name == result then i
    else FirstMatch(rs, result, i + 1)
  }

  /** The winner's index: the first entry whose name is the drawn result,
      or 0 when no entry carries that name. */
  function WinnerIndex(rs: seq<Restaurant>, result: string): (k: nat)
    ensures rs != [] ==> k < |rs|
    ensures (exists j :: 0 <= j < |rs| && rs[j].name == result) <==> k < |rs| && rs[k].name == result
    ensures forall j :: 0 <= j < k && j < |rs| ==> rs[j].name != result
    ensures (forall j :: 0 <= j < |rs| ==> rs[j].name != result) ==> k == 0
  {
    FirstMatch(rs, result, 0)
  }

  /** The rotation the animation aims at, as the app computes it: five
      full turns plus 360 times the share of the weights up to and
      including the winner's. That is five turns plus the angle at which
      the winner's segment ends (not its centre), so it lies in
      [1800, 2160]. */
  function TargetRotation(rs: seq<Restaurant>, winner: nat): (r: real)
    requires Total(rs) > 0 && winner < |rs|
    ensures r == 1800.0 + Layout(rs, None)[winner].start + Layout(rs, None)[winner].sweep
    ensures 1800.0 <= r <= 2160.0
    ensures rs[winner].probability > 0 ==> 1800.0 < r
  {
    SegmentsTileCircle(rs, None, winner);
    PrefixStep(rs, winner);
    PrefixAtMostTotal(rs, winner + 1);
    ShareOfCircle(Prefix(rs, winner + 1) as real, Total(rs) as real);
    AngleStep(Prefix(rs, winner) as real, rs[winner].probability as real, Total(rs) as real);
    360.0 * Spins as real + 360.0 * Prefix(rs, winner + 1) as real / Total(rs) as real
  }

  function Cube(x: real): real
  {
    x * x * x
  }

  /** A cube of a number in (0, 1] lies in (0, 1]. */
  lemma CubeOfUnit(b: real)
    ensures 0.0 < b <= 1.0 ==> 0.0 < Cube(b) <= 1.0
  {
    if 0.0 < b <= 1.0 {
      assert 0.0 < b * b <= b;
      assert 0.0 < b * b * b <= b * b;
    }
  }

  /** Ease-out cubic progress of a frame, 1 - (1 - frame/60)^3: 0 at the
      first frame and in [0, 1) on every frame of the loop. */
  function Eased(frame: nat): (e: real)
    ensures frame == 0 ==> e == 0.0
    ensures frame < FrameCount ==> 0.0 <= e < 1.0
  {
    CubeOfUnit(1.0 - frame as real / FrameCount as real);
    1.0 - Cube(1.0 - frame as real / FrameCount as real)
  }

  /** x t is monotone in x for a non-negative t. */
  lemma ScaleMonotone(x: real, y: real, t: real)
    requires x <= y && 0.0 <= t
    ensures x * t <= y * t
  {
    assert (y - x) * t >= 0.0;
  }

  /** x t is strictly increasing in x for a positive t. */
  lemma ScaleStrict(x: real, y: real, t: real)
    requires x < y && 0.0 < t
    ensures x * t < y * t
  {
    assert (y - x) * t > 0.0;
  }

  /** A fraction e in [0, 1) of a positive target lies in [0, target). */
  lemma PartOfTarget(e: real, target: real)
    ensures 0.0 <= e < 1.0 && 0.0 < target ==> 0.0 <= e * target < target
  {
    if 0.0 <= e < 1.0 && 0.0 < target {
      ScaleMonotone(0.0, e, target);
      ScaleStrict(e, 1.0, target);
    }
  }

  /** The rotation shown in a frame, eased progress times the target: for
      a positive target and a frame of the loop it lies in [0, target). */
  function Rotation(target: real, frame: nat): (r: real)
    ensures frame == 0 ==> r == 0.0
    ensures 0.0 < target && frame < FrameCount ==> 0.0 <= r < target
  {
    PartOfTarget(Eased(frame), target);
    Eased(frame) * target
  }

  lemma CubeMonotone(a: real, b: real)
    requires 0.0 <= b <= a
    ensures Cube(b) <= Cube(a)
  {
    assert b * b <= a * b;
    assert b * b * b <= a * b * b;
    assert a * b * b <= a * a * b;
    assert a * a * b <= a * a * a;
  }

  /** The eased progress starts at 0, never decreases and stays below 1
      on every frame of the loop. */
  lemma EasedProgress(f: nat, g: nat)
    requires f <= g < FrameCount
    ensures Eased(0) == 0.0
    ensures 0.0 <= Eased(f) <= Eased(g) < 1.0
  {
    var a := 1.0 - f as real / FrameCount as real;
    var b := 1.0 - g as real / FrameCount as real;
    CubeMonotone(a, b);
    CubeMonotone(1.0, a);
    assert b > 0.0;
    assert b * b > 0.0;
    assert Cube(b) > 0.0;
  }

  /** Frame 0 is unrotated, the rotation never decreases from frame to
      frame, and every frame of the loop, the last included, stays
      strictly short of a positive target. */
  lemma RotationSchedule(target: real, f: nat, g: nat)
    requires 0.0 < target && f <= g < FrameCount
    ensures Rotation(target, 0) == 0.0
    ensures 0.0 <= Rotation(target, f) <= Rotation(target, g) < target
  {
    EasedProgress(f, g);
    var ef, eg := Eased(f), Eased(g);
    ScaleMonotone(0.0, ef, target);
    ScaleMonotone(ef, eg, target);
    ScaleStrict(eg, 1.0, target);
    calc {
      Rotation(target, f);
    ==
      ef * target;
    <=
      eg * target;
    ==
      Rotation(target, g);
    }
  }

  /** The last frame of the loop reaches 1 - 1/216000 of the target, not
      the target itself. */
  lemma LastFrameShortfall(target: real)
    ensures Rotation(target, FrameCount - 1) == target - target / 216000.0
  {
    assert 1.0 - (FrameCount - 1) as real / FrameCount as real == 1.0 / 60.0;
    assert Cube(1.0 / 60.0) == 1.0 / 216000.0;
  }

  /** The frames the app shows for a spin towards `target`: the 60 eased
      frames without highlight, then the last rotation again with the
      winner highlighted. */
  function Schedule(target: real, winner: nat): (frames: seq<Frame>)
    ensures |frames| == FrameCount + 1
  {
    seq(FrameCount + 1, f requires 0 <= f <= FrameCount =>
      if f < FrameCount then Frame(Rotation(target, f), None)
      else Frame(Rotation(target, FrameCount - 1), Some(winner)))
  }

  /** Only the final frame carries the highlight, it repeats the last
      rotation of the loop, and the rotations climb from 0 and never
      reach the target. */
  lemma ScheduleProperties(target: real, winner: nat, f: nat, g: nat)
    requires 0.0 < target && f <= g <= FrameCount
    ensures Schedule(target, winner)[0].rotation == 0.0
    ensures Schedule(target, winner)[f].highlight.Some? <==> f == FrameCount
    ensures Schedule(target, winner)[FrameCount] ==
      Frame(Schedule(target, winner)[FrameCount - 1].rotation, Some(winner))
    ensures 0.0 <= Schedule(target, winner)[f].rotation <= Schedule(target, winner)[g].rotation < target
  {
    var f', g' := if f < FrameCount then f else FrameCount - 1, if g < FrameCount then g else FrameCount - 1;
    RotationSchedule(target, f', g');
  }

  /** The rotation of a frame written out as the app computes it: the
      eased progress of the frame times the app's full turn. */
  lemma FrameRotation(rs: seq<Restaurant>, winner: nat, frame: nat, eased: real, turn: real)
    requires Total(rs) > 0 && winner < |rs|
    requires eased == 1.0 - Cube(1.0 - frame as real / FrameCount as real)
    requires turn == 360.0 * Spins as real + 360.0 * Prefix(rs, winner + 1) as real / Total(rs) as real
    ensures eased * turn == Rotation(TargetRotation(rs, winner), frame)
  {
  }

  /** The schedule grows one loop frame at a time, and its final frame
      repeats the last loop rotation with the highlight. */
  lemma ScheduleStep(target: real, winner: nat, frame: nat)
    requires frame < FrameCount
    ensures Schedule(target, winner)[..frame + 1] ==
      Schedule(target, winner)[..frame] + [Frame(Rotation(target, frame), None)]
    ensures frame == FrameCount - 1 ==>
      Schedule(target, winner) ==
        Schedule(target, winner)[..FrameCount] + [Frame(Rotation(target, frame), Some(winner))]
  {
    var s := Schedule(target, winner);
    assert s[..frame + 1] == s[..frame] + [s[frame]];
    if frame == FrameCount - 1 {
      assert s == s[..FrameCount] + [s[FrameCount]];
    }
  }

  /** The app's spin: find the winner, then run the frame loop, each pass
      computing the eased rotation; finally show the last rotation with the
      winner highlighted. */
  method Animate(rs: seq<Restaurant>, result: string) returns (frames: seq<Frame>)
    requires Total(rs) > 0
    ensures var winner := WinnerIndex(rs, result);
      frames == Schedule(TargetRotation(rs, winner), winner)
  {
    var winner := WinnerIndex(rs, result);
    var total := Total(rs) as real;
    ghost var target := TargetRotation(rs, winner);
    frames := [];
    var rotation := 0.0;
    var frame := 0;
    while frame < FrameCount
      invariant 0 <= frame <= FrameCount
      invariant frames == Schedule(target, winner)[..frame]
      invariant frame > 0 ==> rotation == Rotation(target, frame - 1)
    {
      var progress := frame as real / FrameCount as real;
      var eased := 1.0 - Cube(1.0 - progress);
      var turn := 360.0 * Spins as real + 360.0 * Prefix(rs, winner + 1) as real / total;
      rotation := eased * turn;
      FrameRotation(rs, winner, frame, eased, turn);
      ScheduleStep(target, winner, frame);
      frames := frames + [Frame(rotation, None)];
      frame := frame + 1;
    }
    frames := frames + [Frame(rotation, Some(winner))];
  }

  /** The wheel angle under the fixed pointer at the top once the wheel is
      turned clockwise by r degrees: the angle a in [0, 360) with
      a + r a multiple of 360. */
  function PointerAngle(r: real): (a: real)
    ensures 0.0 <= a < 360.0
  {
    var k := (r / 360.0).Floor;
    var off := r - 360.0 * k as real;
    if off == 0.0 then 0.0 else 360.0 - off
  }

  lemma PointerAngleOf(r: real, k: int, a: real)
    requires 0.0 <= a < 360.0 && r == 360.0 * k as real - a
    ensures PointerAngle(r) == a
  {
    if a == 0.0 {
      assert r / 360.0 == k as real;
    } else {
      assert (k - 1) as real < r / 360.0 < k as real;
      assert (r / 360.0).Floor == k - 1;
    }
  }

  /** As the app computes the target, the target puts the pointer over
      the mirror image of the winner's segment end, 360 - end, which in
      general lies in another segment. */
  lemma AsWrittenPointerAngle(rs: seq<Restaurant>, winner: nat)
    requires Total(rs) > 0 && winner < |rs| && rs[winner].probability > 0
    ensures PointerAngle(TargetRotation(rs, winner)) ==
      360.0 - (Layout(rs, None)[winner].start + Layout(rs, None)[winner].sweep)
  {
    var e := Layout(rs, None)[winner].start + Layout(rs, None)[winner].sweep;
    PointerAngleOf(TargetRotation(rs, winner), Spins + 1, 360.0 - e);
  }

  /** Options weighted 10, 10 and 80 with "A" drawn: the target is 1836
      degrees and puts the pointer at 324 degrees, inside C's segment
      [72, 360) rather than A's [0, 36). The highlighted frame the app
      finally shows stops 1836/216000 degrees short of the target, so its
      pointer rests just past 324, still inside C's segment. */
  lemma AsWrittenPointerMissesWinner()
    ensures var rs := [Restaurant("A", 10), Restaurant("B", 10), Restaurant("C", 80)];
      var winner := WinnerIndex(rs, "A");
      var segs := Layout(rs, None);
      && winner == 0
      && TargetRotation(rs, winner) == 1836.0
      && PointerAngle(TargetRotation(rs, winner)) == 324.0
      && !(segs[0].start <= 324.0 < segs[0].start + segs[0].sweep)
      && segs[2].start <= 324.0 < segs[2].start + segs[2].sweep
      && var shown := Schedule(TargetRotation(rs, winner), winner)[FrameCount];
      && shown.highlight == Some(0)
      && PointerAngle(shown.rotation) == 324.0 + 1836.0 / 216000.0
      && segs[2].start <= PointerAngle(shown.rotation) < segs[2].start + segs[2].sweep
  {
    var rs := [Restaurant("A", 10), Restaurant("B", 10), Restaurant("C", 80)];
    ThreeOptionExample();
    PointerAngleOf(1836.0, Spins + 1, 324.0);
    LastFrameShortfall(1836.0);
    PointerAngleOf(1836.0 - 1836.0 / 216000.0, Spins + 1, 324.0 + 1836.0 / 216000.0);
  }

  /** The rotation that brings the centre of the winner's segment under
      the pointer: five full turns plus 360 minus the segment's centre. It
      lies in [1800, 2160], and whenever the centre is short of a full turn
      it is the angle the target puts under the pointer. */
  function CentredTarget(rs: seq<Restaurant>, winner: nat): (r: real)
    requires Total(rs) > 0 && winner < |rs|
    ensures 1800.0 <= r <= 2160.0
    ensures Layout(rs, None)[winner].labelAngle < 360.0 ==>
      PointerAngle(r) == Layout(rs, None)[winner].labelAngle
  {
    var s := Layout(rs, None)[winner];
    PrefixAtMostTotal(rs, winner);
    ShareOfCircle(Prefix(rs, winner) as real, Total(rs) as real);
    assert 0.0 <= s.start && s.start + s.sweep <= 360.0 by {
      assert TargetRotation(rs, winner) <= 2160.0;
    }
    var r := 360.0 * Spins as real + 360.0 - s.labelAngle;
    if s.labelAngle < 360.0 then PointerAngleOf(r, Spins + 1, s.labelAngle); r else r
  }

  /** With the centred target the pointer rests on the centre of the
      winner's segment, strictly inside it, after more than five turns.
      (The highlighted frame the app shows stops target/216000 degrees
      short of the target, as for the app's own target.) */
  lemma CentredTargetPointsAtWinner(rs: seq<Restaurant>, winner: nat)
    requires Total(rs) > 0 && winner < |rs| && rs[winner].probability > 0
    ensures var s := Layout(rs, None)[winner];
      && PointerAngle(CentredTarget(rs, winner)) == s.labelAngle
      && s.start < PointerAngle(CentredTarget(rs, winner)) < s.start + s.sweep
      && 1800.0 < CentredTarget(rs, winner) < 2160.0
  {
    var s := Layout(rs, None)[winner];
    LabelInsideSegment(rs, None, winner);
    assert s.start + s.sweep <= 360.0 by {
      assert TargetRotation(rs, winner) <= 2160.0;
    }
  }
}
