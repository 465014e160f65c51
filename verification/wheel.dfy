/** generate_wheel_svg reduced to its bookkeeping: for each option a
    segment with its start angle, sweep, the SVG large-arc flag (section
    8.3.8 of SVG 1.1), its fill colour and its label. Angles are degrees
    from the top of the wheel, clockwise. Coordinates and markup are not
    modelled. */
module Wheel {
  import opened Restaurants
  import opened Selector

  /** The ten fill colours, cycled by segment index. */
  const Palette: seq<string> := ["#FF6B6B", "#4ECDC4", "#45B7D1", "#FFA07A", "#98D8C8",
                                 "#F7DC6F", "#BB8FCE", "#85C1E2", "#F8B739", "#52C97F"]

  /** The fill of the highlighted (winning) segment. */
  const Gold: string := "#FFD700"

  /** One wedge of the wheel as the renderer emits it. */
  datatype Segment = Segment(start: real, sweep: real, largeArc: nat, color: string,
                             labelAngle: real, text: string)

  /** The renderer divides by the total weight with no fallback, so a
      non-empty list needs a positive total (else the division fails). */
  predicate Renderable(rs: seq<Restaurant>)
  {
    rs == [] || Total(rs) > 0
  }

  /** The label text: names longer than 15 characters are cut to their
      first 13 characters followed by "...". */
  function Label(name: string): (l: string)
    ensures |l| <= 16
    ensures |name| <= 15 ==> l == name
    ensures |name| > 15 ==> |l| == 16 && l[..13] == name[..13] && l[13..] == "..."
  {
    if |name| > 15 then name[..13] + "..." else name
  }

  /** No palette colour is the highlight's gold. */
  lemma GoldNotInPalette()
    ensures forall k :: 0 <= k < |Palette| ==> Palette[k] != Gold
  {
    forall k | 0 <= k < |Palette| ensures Palette[k] != Gold {
      assert Palette[k][2] != Gold[2] || Palette[k][3] != Gold[3];
    }
  }

  /** The fill of segment i: gold exactly when it is highlighted, and
      otherwise its palette colour, cycled with period 10. */
  function Color(i: nat, highlight: Option<nat>): (c: string)
    ensures c == Gold <==> highlight == Some(i)
    ensures highlight != Some(i) ==> c == Palette[i % 10]
  {
    GoldNotInPalette();
    if highlight == Some(i) then Gold else Palette[i % |Palette|]
  }

  /** Where segment i begins: 360 degrees times the share of the weights
      before it. */
  function StartAngle(rs: seq<Restaurant>, i: nat): real
    requires Total(rs) > 0 && i <= |rs|
  {
    360.0 * Prefix(rs, i) as real / Total(rs) as real
  }

  /** A share p/t of the circle, for 0 <= p <= t, is an angle in [0, 360],
      positive when p is. */
  lemma ShareOfCircle(p: real, t: real)
    requires 0.0 <= p <= t && 0.0 < t
    ensures 0.0 <= 360.0 * p / t <= 360.0
    ensures 0.0 < p ==> 0.0 < 360.0 * p / t
  {
    assert 360.0 * p / t <= 360.0 * t / t;
    assert t / t == 1.0;
  }

  /** Segment i, drawn from the given start angle: its sweep is its share
      of the circle, at most a full turn; the large-arc flag marks a sweep
      over half a turn; the label, its name cut to length, sits halfway
      along the sweep; the fill is the segment's colour. */
  function SegmentAt(rs: seq<Restaurant>, i: nat, start: real, highlight: Option<nat>): (s: Segment)
    requires Total(rs) > 0 && i < |rs|
    ensures s.start == start
    ensures s.sweep == 360.0 * rs[i].probability as real / Total(rs) as real
    ensures 0.0 <= s.sweep <= 360.0 && (rs[i].probability > 0 ==> 0.0 < s.sweep)
    ensures s.largeArc == 1 <==> s.sweep > 180.0
    ensures s.labelAngle - s.start == s.start + s.sweep - s.labelAngle
    ensures s.color == Color(i, highlight) && s.text == Label(rs[i].name)
  {
    WeightAtMostTotal(rs, i);
    ShareOfCircle(rs[i].probability as real, Total(rs) as real);
    AngleStep(0.0, rs[i].probability as real, Total(rs) as real);
    var sweep := (rs[i].probability as real / Total(rs) as real) * 360.0;
    Segment(start, sweep, if sweep > 180.0 then 1 else 0, Color(i, highlight),
            start + sweep / 2.0, Label(rs[i].name))
  }

  /** The wheel's segments, one per option, in list order. */
  function Layout(rs: seq<Restaurant>, highlight: Option<nat>): (segs: seq<Segment>)
    requires Renderable(rs)
    ensures |segs| == |rs|
  {
    seq(|rs|, i requires 0 <= i < |rs| => SegmentAt(rs, i, StartAngle(rs, i), highlight))
  }

  /** Angle arithmetic: adding a share of the circle to an angle given as a
      share of the circle. */
  lemma AngleStep(p: real, a: real, t: real)
    requires t > 0.0
    ensures 360.0 * p / t + (a / t) * 360.0 == 360.0 * (p + a) / t
  {
  }

  lemma FullCircle(t: real)
    requires t > 0.0
    ensures 360.0 * t / t == 360.0
  {
  }

  /** The layout grows one segment at a time, each drawn from its start
      angle. */
  lemma LayoutStep(rs: seq<Restaurant>, highlight: Option<nat>, idx: nat)
    requires Renderable(rs) && idx < |rs|
    ensures Layout(rs, highlight)[..idx + 1] ==
      Layout(rs, highlight)[..idx] + [SegmentAt(rs, idx, StartAngle(rs, idx), highlight)]
  {
    var segs := Layout(rs, highlight);
    assert segs[idx] == SegmentAt(rs, idx, StartAngle(rs, idx), highlight);
    assert segs[..idx + 1] == segs[..idx] + [segs[idx]];
  }

  /** The renderer's loop: a running angle accumulates each segment's
      sweep, and every segment is appended in turn. */
  method BuildSegments(rs: seq<Restaurant>, highlight: Option<nat>) returns (segs: seq<Segment>)
    requires Renderable(rs)
    ensures segs == Layout(rs, highlight)
  {
    segs := [];
    if rs == [] {
      return;
    }
    var total := Total(rs) as real;
    var current := 0.0;
    var idx := 0;
    while idx < |rs|
      invariant 0 <= idx <= |rs|
      invariant current == StartAngle(rs, idx)
      invariant segs == Layout(rs, highlight)[..idx]
    {
      var angle := (rs[idx].probability as real / total) * 360.0;
      var largeArc := if angle > 180.0 then 1 else 0;
      var color := Palette[idx % |Palette|];
      if highlight == Some(idx) {
        color := Gold;
      }
      var textRotation := current + angle / 2.0;
      var name := Label(rs[idx].name);
      var seg := Segment(current, angle, largeArc, color, textRotation, name);
      assert seg == SegmentAt(rs, idx, current, highlight);
      LayoutStep(rs, highlight, idx);
      segs := segs + [seg];
      StartAngleStep(rs, idx);
      current := current + angle;
      idx := idx + 1;
    }
  }

  /** Segment i starts at 360 P(i) / total and sweeps 360 w(i) / total,
      where P(i) is the sum of the weights before it. */
  lemma SegmentAngles(rs: seq<Restaurant>, highlight: Option<nat>, i: nat)
    requires Renderable(rs) && i < |rs|
    ensures Layout(rs, highlight)[i].start == 360.0 * Prefix(rs, i) as real / Total(rs) as real
    ensures Layout(rs, highlight)[i].sweep == 360.0 * rs[i].probability as real / Total(rs) as real
  {
    AngleStep(0.0, rs[i].probability as real, Total(rs) as real);
  }

  /** The segments tile the circle: the first starts at 0, each ends where
      the next starts, and the last ends at 360. */
  lemma SegmentsTileCircle(rs: seq<Restaurant>, highlight: Option<nat>, i: nat)
    requires Renderable(rs) && i < |rs|
    ensures i == 0 ==> Layout(rs, highlight)[i].start == 0.0
    ensures i + 1 < |rs| ==>
      Layout(rs, highlight)[i].start + Layout(rs, highlight)[i].sweep == Layout(rs, highlight)[i + 1].start
    ensures i + 1 == |rs| ==>
      Layout(rs, highlight)[i].start + Layout(rs, highlight)[i].sweep == 360.0
  {
    var segs := Layout(rs, highlight);
    var t := Total(rs) as real;
    PrefixStep(rs, i);
    AngleStep(Prefix(rs, i) as real, rs[i].probability as real, t);
    assert segs[i].start + segs[i].sweep == StartAngle(rs, i + 1);
    if i + 1 == |rs| {
      PrefixAll(rs);
      FullCircle(t);
    }
    if i == 0 {
      assert Weights(rs)[..0] == [];
      assert Prefix(rs, 0) == 0;
    }
  }

  /** The sweeps of the segments, in order. */
  function Sweeps(segs: seq<Segment>): (s: seq<real>)
    ensures |s| == |segs|
    ensures forall i :: 0 <= i < |segs| ==> s[i] == segs[i].sweep
  {
    seq(|segs|, i requires 0 <= i < |segs| => segs[i].sweep)
  }

  /** The start angle after the last segment is a full turn. */
  lemma StartAngleAll(rs: seq<Restaurant>)
    requires Total(rs) > 0
    ensures StartAngle(rs, |rs|) == 360.0
  {
    PrefixAll(rs);
    FullCircle(Total(rs) as real);
  }

  /** Each extra segment moves the start angle on by that segment's sweep. */
  lemma StartAngleStep(rs: seq<Restaurant>, k: nat)
    requires Total(rs) > 0 && k < |rs|
    ensures StartAngle(rs, k + 1) == StartAngle(rs, k) + (rs[k].probability as real / Total(rs) as real) * 360.0
  {
    PrefixStep(rs, k);
    AngleStep(Prefix(rs, k) as real, rs[k].probability as real, Total(rs) as real);
  }

  lemma {:induction false} SweepsUpTo(rs: seq<Restaurant>, highlight: Option<nat>, k: nat)
    requires Renderable(rs) && rs != [] && k <= |rs|
    ensures Cum(Sweeps(Layout(rs, highlight)), k) == StartAngle(rs, k)
  {
    var sw := Sweeps(Layout(rs, highlight));
    if k > 0 {
      SweepsUpTo(rs, highlight, k - 1);
      CumStep(sw, k - 1);
      assert sw[k - 1] == (rs[k - 1].probability as real / Total(rs) as real) * 360.0;
      StartAngleStep(rs, k - 1);
    }
  }

  /** The sweeps of a non-empty wheel add up to a full turn. */
  lemma SweepsSumTo360(rs: seq<Restaurant>, highlight: Option<nat>)
    requires Renderable(rs) && rs != []
    ensures SumR(Sweeps(Layout(rs, highlight))) == 360.0
  {
    SweepsUpTo(rs, highlight, |rs|);
    CumAll(Sweeps(Layout(rs, highlight)));
    StartAngleAll(rs);
  }

  /** The large-arc flag is 1 exactly when the sweep exceeds 180 degrees,
      and at most one segment of a wheel can carry it. */
  lemma AtMostOneLargeArc(rs: seq<Restaurant>, highlight: Option<nat>, i: nat, j: nat)
    requires Renderable(rs) && i < j < |rs|
    ensures Layout(rs, highlight)[i].largeArc == 1 <==> Layout(rs, highlight)[i].sweep > 180.0
    ensures Layout(rs, highlight)[i].largeArc == 0 || Layout(rs, highlight)[j].largeArc == 0
  {
    TwoWeightsAtMostTotal(rs, i, j);
    var a, b, t := rs[i].probability as real, rs[j].probability as real, Total(rs) as real;
    AngleStep(a, b, t);
    AngleStep(0.0, a, t);
    AngleStep(0.0, b, t);
    ShareOfCircle(a + b, t);
  }

  /** Exactly the highlighted segment is gold; every other segment keeps
      its palette colour, cycled with period 10. */
  lemma OnlyHighlightIsGold(rs: seq<Restaurant>, highlight: Option<nat>, i: nat)
    requires Renderable(rs) && i < |rs|
    ensures Layout(rs, highlight)[i].color == Gold <==> highlight == Some(i)
    ensures highlight != Some(i) ==> Layout(rs, highlight)[i].color == Palette[i % 10]
  {
  }

  /** The label sits at the middle of its segment: strictly inside it
      whenever the segment has a positive sweep. */
  lemma LabelInsideSegment(rs: seq<Restaurant>, highlight: Option<nat>, i: nat)
    requires Renderable(rs) && i < |rs|
    ensures var s := Layout(rs, highlight)[i];
      s.labelAngle - s.start == s.start + s.sweep - s.labelAngle &&
      (rs[i].probability > 0 ==> s.start < s.labelAngle < s.start + s.sweep)
  {
  }

  /** The worked example of three options weighted 10, 10 and 80: sweeps
      of 36, 36 and 288 degrees, the last segment spanning 72 to 360 and
      alone drawn with the large arc. */
  lemma ThreeOptionExample()
    ensures var rs := [Restaurant("A", 10), Restaurant("B", 10), Restaurant("C", 80)];
      var segs := Layout(rs, None);
      && segs[0].start == 0.0 && segs[0].sweep == 36.0 && segs[0].largeArc == 0
      && segs[1].start == 36.0 && segs[1].sweep == 36.0 && segs[1].largeArc == 0
      && segs[2].start == 72.0 && segs[2].sweep == 288.0 && segs[2].largeArc == 1
  {
    var rs := [Restaurant("A", 10), Restaurant("B", 10), Restaurant("C", 80)];
    PrefixStep(rs, 0);
    PrefixStep(rs, 1);
    PrefixStep(rs, 2);
    PrefixAll(rs);
  }
}
