/** The pure geometry of one lane-detection pass: the line segments the
    probabilistic Hough transform returned are filtered and classified by
    slope, each side's candidates are averaged into one lane line, each lane
    line is extrapolated to two image rows, and the centre between the lanes'
    bottom ends is taken when both lanes exist. Image coordinates: y grows
    downward. Slopes and means are exact rationals. */
module LaneDetection {
  import opened Wrappers
  import PyNum

  /** Segments flatter than this (in absolute slope) are discarded. */
  const MinAbsSlope: real := 0.3

  /** The upper extrapolation row, as a fraction of the frame height. */
  const UpperRowFraction: real := 4.0 / 5.0

  /** One segment `(x1, y1, x2, y2)` as the line detector reports it. */
  datatype Segment = Segment(x1: int, y1: int, x2: int, y2: int)

  /** A lane line `y = slope * x + intercept`. */
  datatype LaneFit = LaneFit(slope: real, intercept: real)

  datatype Side = Left | Right

  /** A segment that survived the filters, with the side it was sorted to. */
  datatype Candidate = Candidate(side: Side, fit: LaneFit)

  /** The candidate lines of one frame, per side, in detection order. */
  datatype Buckets = Buckets(left: seq<LaneFit>, right: seq<LaneFit>)

  /** A lane's two drawn end points: `(x1, y1)` on the bottom row, `(x2, y2)` higher up. */
  datatype LanePoints = LanePoints(x1: int, y1: int, x2: int, y2: int)

  /** One detected lane: the averaged line and its extrapolated end points. */
  datatype Lane = Lane(fit: LaneFit, points: LanePoints)

  datatype Point = Point(x: int, y: int)

  /** Everything one pass computes; each part may be absent. */
  datatype LaneFrame = LaneFrame(left: Option<Lane>, right: Option<Lane>, center: Option<Point>)

  function Abs(x: real): real {
    if x < 0.0 then -x else x
  }

  function AbsInt(x: int): int {
    if x < 0 then -x else x
  }

  // ---------------------------------------------------------------------------
  // Filtering and classification of one segment

  /** A segment with `x1 == x2` has no slope and is skipped. */
  predicate IsVertical(s: Segment) {
    s.x1 == s.x2
  }

  /** `np.polyfit((x1, x2), (y1, y2), 1)`: the degree-one fit through two
      points with different x passes exactly through both. */
  function Fit(s: Segment): (f: LaneFit)
    requires !IsVertical(s)
    ensures f.slope * s.x1 as real + f.intercept == s.y1 as real
    ensures f.slope * s.x2 as real + f.intercept == s.y2 as real
  {
    var slope := (s.y2 - s.y1) as real / (s.x2 - s.x1) as real;
    LaneFit(slope, s.y1 as real - slope * s.x1 as real)
  }

  /** The line through both end points is unique, so the exact fit is the
      only candidate a least-squares fit of two points can return. */
  lemma FitUnique(s: Segment, g: LaneFit)
    requires !IsVertical(s)
    requires g.slope * s.x1 as real + g.intercept == s.y1 as real
    requires g.slope * s.x2 as real + g.intercept == s.y2 as real
    ensures g == Fit(s)
  {
    var f := Fit(s);
    assert (g.slope - f.slope) * (s.x2 - s.x1) as real == 0.0;
    assert g.slope == f.slope;
  }

  /** Integer restatement of the slope filter: `|dy / dx| >= 0.3`. */
  predicate SteepEnough(s: Segment) {
    10 * AbsInt(s.y2 - s.y1) >= 3 * AbsInt(s.x2 - s.x1)
  }

  /** Integer restatement of a negative slope: the coordinates change in
      opposite directions. */
  predicate Falling(s: Segment) {
    (s.y2 - s.y1) * (s.x2 - s.x1) < 0
  }

  /** A segment that ends up in the left bucket, stated on its coordinates alone. */
  predicate IsLeftSegment(s: Segment) {
    !IsVertical(s) && SteepEnough(s) && Falling(s)
  }

  /** A segment that ends up in the right bucket, stated on its coordinates alone. */
  predicate IsRightSegment(s: Segment) {
    !IsVertical(s) && SteepEnough(s) && !Falling(s)
  }

  /** For a positive factor, scaling preserves strict order both ways. */
  lemma ScaleStrict(a: real, b: real, d: real)
    requires d > 0.0
    ensures a < b <==> a * d < b * d
  {
    assert (b - a) * d == b * d - a * d;
    if a < b {
      assert (b - a) * d > 0.0;
    }
    if a * d < b * d {
      assert (b - a) * d > 0.0;
    }
  }

  lemma AbsQuotient(dy: int, dx: int)
    requires dx != 0
    ensures Abs(dy as real / dx as real) == AbsInt(dy) as real / AbsInt(dx) as real
  {
    if dx < 0 {
      assert dy as real / dx as real == (-dy) as real / (-dx) as real;
    }
  }

  lemma QuotientBelow(a: real, b: real)
    requires a >= 0.0 && b > 0.0
    ensures a / b < MinAbsSlope <==> 10.0 * a < 3.0 * b
  {
    ScaleStrict(a / b, MinAbsSlope, b);
    assert (a / b) * b == a;
  }

  /** The real-valued flatness test agrees with its integer restatement. */
  lemma SlopeFilterFacts(dy: int, dx: int)
    requires dx != 0
    ensures Abs(dy as real / dx as real) < MinAbsSlope <==> 10 * AbsInt(dy) < 3 * AbsInt(dx)
  {
    AbsQuotient(dy, dx);
    QuotientBelow(AbsInt(dy) as real, AbsInt(dx) as real);
  }

  /** The sign of the slope agrees with its integer restatement. */
  lemma SlopeSignFacts(dy: int, dx: int)
    requires dx != 0
    ensures dy as real / dx as real < 0.0 <==> dy * dx < 0
  {
    var m := dy as real / dx as real;
    assert m * dx as real == dy as real;
    if dx > 0 {
      assert dy < 0 <==> dy * dx < 0;
    } else {
      assert dy > 0 <==> dy * dx < 0;
    }
  }

  /** Dividing a bound by the positive count it was multiplied by. */
  lemma DivideBound(sum: real, n: real, bound: real)
    requires n > 0.0
    ensures sum <= n * bound ==> sum / n <= bound
    ensures sum >= n * bound ==> sum / n >= bound
  {
    assert (sum / n) * n == sum;
    if sum / n > bound {
      ScaleStrict(bound, sum / n, n);
    }
    if sum / n < bound {
      ScaleStrict(sum / n, bound, n);
    }
  }

  /** The body of the per-segment loop: skip vertical segments, fit the line,
      skip flat lines, then sort by the sign of the slope. */
  function Classify(s: Segment): (c: Option<Candidate>)
    ensures c.Some? <==> !IsVertical(s) && SteepEnough(s)
    ensures c.Some? ==> c.value.fit == Fit(s)
    ensures c.Some? ==> (c.value.side == Left <==> Falling(s))
    ensures c.Some? && c.value.side == Left ==> c.value.fit.slope <= -MinAbsSlope
    ensures c.Some? && c.value.side == Right ==> c.value.fit.slope >= MinAbsSlope
  {
    if IsVertical(s) then None
    else
      var f := Fit(s);
      SlopeFilterFacts(s.y2 - s.y1, s.x2 - s.x1);
      SlopeSignFacts(s.y2 - s.y1, s.x2 - s.x1);
      if Abs(f.slope) < MinAbsSlope then None
      else if f.slope < 0.0 then Some(Candidate(Left, f))
      else if f.slope > 0.0 then Some(Candidate(Right, f))
      else None
  }

  /** The classifier agrees with the coordinate-only description of both buckets. */
  lemma ClassifyBySide(s: Segment)
    ensures Classify(s).Some? && Classify(s).value.side == Left <==> IsLeftSegment(s)
    ensures Classify(s).Some? && Classify(s).value.side == Right <==> IsRightSegment(s)
  {
  }

  // ---------------------------------------------------------------------------
  // The two buckets

  /** How many segments belong to the left bucket by their coordinates. */
  function CountLeft(segs: seq<Segment>): nat
    decreases |segs|
  {
    if |segs| == 0 then 0
    else CountLeft(segs[..|segs| - 1]) + (if IsLeftSegment(segs[|segs| - 1]) then 1 else 0)
  }

  /** How many segments belong to the right bucket by their coordinates. */
  function CountRight(segs: seq<Segment>): nat
    decreases |segs|
  {
    if |segs| == 0 then 0
    else CountRight(segs[..|segs| - 1]) + (if IsRightSegment(segs[|segs| - 1]) then 1 else 0)
  }

  /** How many segments classify to exactly the candidate `c`. */
  function CountCandidate(segs: seq<Segment>, c: Candidate): nat
    decreases |segs|
  {
    if |segs| == 0 then 0
    else CountCandidate(segs[..|segs| - 1], c) + (if Classify(segs[|segs| - 1]) == Some(c) then 1 else 0)
  }

  /** The per-segment loop over all segments, appending in detection order:
      every kept segment adds exactly one fit to its side's bucket. */
  function Sort(segs: seq<Segment>): (b: Buckets)
    ensures |b.left| == CountLeft(segs) && |b.right| == CountRight(segs)
    ensures |b.left| + |b.right| <= |segs|
    ensures forall i :: 0 <= i < |b.left| ==> b.left[i].slope <= -MinAbsSlope
    ensures forall i :: 0 <= i < |b.right| ==> b.right[i].slope >= MinAbsSlope
    decreases |segs|
  {
    if |segs| == 0 then Buckets([], [])
    else
      var rest := Sort(segs[..|segs| - 1]);
      match Classify(segs[|segs| - 1])
      case None => rest
      case Some(Candidate(Left, f)) => rest.(left := rest.left + [f])
      case Some(Candidate(Right, f)) => rest.(right := rest.right + [f])
  }

  /** A fit is in the left bucket exactly when some segment classifies to the
      left with that fit; likewise on the right. */
  lemma {:induction false} SortMembers(segs: seq<Segment>, f: LaneFit)
    ensures f in Sort(segs).left <==>
              exists i :: 0 <= i < |segs| && Classify(segs[i]) == Some(Candidate(Left, f))
    ensures f in Sort(segs).right <==>
              exists i :: 0 <= i < |segs| && Classify(segs[i]) == Some(Candidate(Right, f))
    decreases |segs|
  {
    if |segs| > 0 {
      var init := segs[..|segs| - 1];
      SortMembers(init, f);
      forall i | 0 <= i < |init|
        ensures init[i] == segs[i]
      {
      }
    }
  }

  /** Each fit occurs in a bucket exactly as often as segments classify to it,
      so the averages below weigh every kept segment once. */
  lemma {:induction false} SortMultiplicity(segs: seq<Segment>, f: LaneFit)
    ensures multiset(Sort(segs).left)[f] == CountCandidate(segs, Candidate(Left, f))
    ensures multiset(Sort(segs).right)[f] == CountCandidate(segs, Candidate(Right, f))
    decreases |segs|
  {
    if |segs| > 0 {
      SortMultiplicity(segs[..|segs| - 1], f);
    }
  }

  /** A bucket is non-empty exactly when some segment belongs to it by its coordinates. */
  lemma BucketsNonEmpty(segs: seq<Segment>)
    ensures |Sort(segs).left| > 0 <==> exists i :: 0 <= i < |segs| && IsLeftSegment(segs[i])
    ensures |Sort(segs).right| > 0 <==> exists i :: 0 <= i < |segs| && IsRightSegment(segs[i])
  {
    var b := Sort(segs);
    if |b.left| > 0 {
      SortMembers(segs, b.left[0]);
      var i :| 0 <= i < |segs| && Classify(segs[i]) == Some(Candidate(Left, b.left[0]));
      ClassifyBySide(segs[i]);
    }
    if i :| 0 <= i < |segs| && IsLeftSegment(segs[i]) {
      ClassifyBySide(segs[i]);
      SortMembers(segs, Classify(segs[i]).value.fit);
    }
    if |b.right| > 0 {
      SortMembers(segs, b.right[0]);
      var i :| 0 <= i < |segs| && Classify(segs[i]) == Some(Candidate(Right, b.right[0]));
      ClassifyBySide(segs[i]);
    }
    if i :| 0 <= i < |segs| && IsRightSegment(segs[i]) {
      ClassifyBySide(segs[i]);
      SortMembers(segs, Classify(segs[i]).value.fit);
    }
  }

  /** Sorting a concatenation concatenates the buckets. */
  lemma {:induction false} SortConcat(a: seq<Segment>, b: seq<Segment>)
    ensures Sort(a + b).left == Sort(a).left + Sort(b).left
    ensures Sort(a + b).right == Sort(a).right + Sort(b).right
    decreases |b|
  {
    if |b| > 0 {
      var b' := b[..|b| - 1];
      assert (a + b)[..|a + b| - 1] == a + b';
      assert (a + b)[|a + b| - 1] == b[|b| - 1];
      SortConcat(a, b');
    } else {
      assert a + b == a;
    }
  }

  /** A rejected segment, wherever it sits, leaves both buckets as they were. */
  lemma RejectedSegmentIgnoredBySort(a: seq<Segment>, s: Segment, b: seq<Segment>)
    requires Classify(s).None?
    ensures Sort(a + [s] + b) == Sort(a + b)
  {
    SortConcat(a + [s], b);
    SortConcat(a, [s]);
    SortConcat(a, b);
    assert Sort([s]) == Buckets([], []) by {
      assert [s][..0] == [];
    }
  }

  // ---------------------------------------------------------------------------
  // Averaging a bucket

  function SumSlopes(fits: seq<LaneFit>): real
    decreases |fits|
  {
    if |fits| == 0 then 0.0 else SumSlopes(fits[..|fits| - 1]) + fits[|fits| - 1].slope
  }

  function SumIntercepts(fits: seq<LaneFit>): real
    decreases |fits|
  {
    if |fits| == 0 then 0.0 else SumIntercepts(fits[..|fits| - 1]) + fits[|fits| - 1].intercept
  }

  /** `np.average(bucket, axis=0)`: the unweighted mean of the slopes and of
      the intercepts. */
  function Mean(fits: seq<LaneFit>): (m: LaneFit)
    requires |fits| > 0
    ensures |fits| as real * m.slope == SumSlopes(fits)
    ensures |fits| as real * m.intercept == SumIntercepts(fits)
  {
    LaneFit(SumSlopes(fits) / |fits| as real, SumIntercepts(fits) / |fits| as real)
  }

  lemma {:induction false} SumSlopesAtMost(fits: seq<LaneFit>, bound: real)
    requires forall i :: 0 <= i < |fits| ==> fits[i].slope <= bound
    ensures SumSlopes(fits) <= |fits| as real * bound
    decreases |fits|
  {
    if |fits| > 0 {
      SumSlopesAtMost(fits[..|fits| - 1], bound);
    }
  }

  lemma {:induction false} SumSlopesAtLeast(fits: seq<LaneFit>, bound: real)
    requires forall i :: 0 <= i < |fits| ==> fits[i].slope >= bound
    ensures SumSlopes(fits) >= |fits| as real * bound
    decreases |fits|
  {
    if |fits| > 0 {
      SumSlopesAtLeast(fits[..|fits| - 1], bound);
    }
  }

  /** The mean of a bucket whose every slope is at most `-0.3` (at least
      `0.3`) keeps that bound, so it is never zero. */
  lemma MeanSlopeBounds(fits: seq<LaneFit>)
    requires |fits| > 0
    ensures (forall i :: 0 <= i < |fits| ==> fits[i].slope <= -MinAbsSlope) ==> Mean(fits).slope <= -MinAbsSlope
    ensures (forall i :: 0 <= i < |fits| ==> fits[i].slope >= MinAbsSlope) ==> Mean(fits).slope >= MinAbsSlope
  {
    var n := |fits| as real;
    if forall i :: 0 <= i < |fits| ==> fits[i].slope <= -MinAbsSlope {
      SumSlopesAtMost(fits, -MinAbsSlope);
      DivideBound(SumSlopes(fits), n, -MinAbsSlope);
    }
    if forall i :: 0 <= i < |fits| ==> fits[i].slope >= MinAbsSlope {
      SumSlopesAtLeast(fits, MinAbsSlope);
      DivideBound(SumSlopes(fits), n, MinAbsSlope);
    }
  }

  lemma {:induction false} SumsOfUniform(fits: seq<LaneFit>, c: LaneFit)
    requires forall i :: 0 <= i < |fits| ==> fits[i] == c
    ensures SumSlopes(fits) == |fits| as real * c.slope
    ensures SumIntercepts(fits) == |fits| as real * c.intercept
    decreases |fits|
  {
    if |fits| > 0 {
      SumsOfUniform(fits[..|fits| - 1], c);
    }
  }

  /** A bucket whose members all share one line averages to exactly that line. */
  lemma MeanOfUniform(fits: seq<LaneFit>, c: LaneFit)
    requires |fits| > 0
    requires forall i :: 0 <= i < |fits| ==> fits[i] == c
    ensures Mean(fits) == c
  {
    SumsOfUniform(fits, c);
  }

  // ---------------------------------------------------------------------------
  // Extrapolation and centre

  /** `make_points`: the lane line evaluated at the bottom row (`height`) and
      at `int(height * 4/5)`, each x being `(y - intercept) / slope` truncated
      toward zero by `int()`. */
  function MakePoints(height: nat, avg: LaneFit): (p: LanePoints)
    requires avg.slope != 0.0
    ensures p.y1 == height
    ensures 0 <= p.y2 <= p.y1
    ensures 5 * p.y2 <= 4 * height < 5 * p.y2 + 5
    ensures PyNum.IsTruncation((p.y1 as real - avg.intercept) / avg.slope, p.x1)
    ensures PyNum.IsTruncation((p.y2 as real - avg.intercept) / avg.slope, p.x2)
  {
    var y1 := height;
    var y2 := PyNum.Trunc(y1 as real * UpperRowFraction);
    var x1 := PyNum.Trunc((y1 as real - avg.intercept) / avg.slope);
    var x2 := PyNum.Trunc((y2 as real - avg.intercept) / avg.slope);
    LanePoints(x1, y1, x2, y2)
  }

  /** The centre between the bottom end points of both lanes, by floor division. */
  function Center(left: LanePoints, right: LanePoints): (c: Point)
    ensures 2 * c.x <= left.x1 + right.x1 < 2 * c.x + 2
    ensures 2 * c.y <= left.y1 + right.y1 < 2 * c.y + 2
  {
    Point(PyNum.FloorDiv(left.x1 + right.x1, 2), PyNum.FloorDiv(left.y1 + right.y1, 2))
  }

  /** A side's lane from its non-empty bucket: the mean line and its end points. */
  function LaneOf(fits: seq<LaneFit>, height: nat): (l: Lane)
    requires |fits| > 0
    requires (forall i :: 0 <= i < |fits| ==> fits[i].slope <= -MinAbsSlope)
          || (forall i :: 0 <= i < |fits| ==> fits[i].slope >= MinAbsSlope)
    ensures (forall i :: 0 <= i < |fits| ==> fits[i].slope <= -MinAbsSlope) ==> l.fit.slope <= -MinAbsSlope
    ensures (forall i :: 0 <= i < |fits| ==> fits[i].slope >= MinAbsSlope) ==> l.fit.slope >= MinAbsSlope
    ensures l.fit == Mean(fits)
    ensures l.points == MakePoints(height, l.fit)
  {
    MeanSlopeBounds(fits);
    var avg := Mean(fits);
    Lane(avg, MakePoints(height, avg))
  }

  /** The geometry of `process_LaneDetection`, from the detector's result
      (`None` when it found no lines) and the frame height. */
  function Detect(lines: Option<seq<Segment>>, height: nat): (r: LaneFrame)
    ensures lines.None? ==> r == LaneFrame(None, None, None)
    ensures r.left.Some? <==>
              lines.Some? && exists i :: 0 <= i < |lines.value| && IsLeftSegment(lines.value[i])
    ensures r.right.Some? <==>
              lines.Some? && exists i :: 0 <= i < |lines.value| && IsRightSegment(lines.value[i])
    ensures r.center.Some? <==> r.left.Some? && r.right.Some?
    ensures lines.Some? && |Sort(lines.value).left| > 0 ==> r.left == Some(LaneOf(Sort(lines.value).left, height))
    ensures lines.Some? && |Sort(lines.value).right| > 0 ==> r.right == Some(LaneOf(Sort(lines.value).right, height))
    ensures r.center.Some? ==> r.center.value == Center(r.left.value.points, r.right.value.points)
    ensures r.left.Some? ==> r.left.value.fit.slope <= -MinAbsSlope && r.left.value.points.y1 == height
    ensures r.right.Some? ==> r.right.value.fit.slope >= MinAbsSlope && r.right.value.points.y1 == height
    ensures r.center.Some? ==> r.center.value.y == height
    ensures r.center.Some? ==>
              var sum := r.left.value.points.x1 + r.right.value.points.x1;
              2 * r.center.value.x <= sum < 2 * r.center.value.x + 2
  {
    match lines
    case None => LaneFrame(None, None, None)
    case Some(segs) =>
      var b := Sort(segs);
      BucketsNonEmpty(segs);
      var left := if |b.left| > 0 then Some(LaneOf(b.left, height)) else None;
      var right := if |b.right| > 0 then Some(LaneOf(b.right, height)) else None;
      var center := if left.Some? && right.Some? then Some(Center(left.value.points, right.value.points)) else None;
      LaneFrame(left, right, center)
  }

  // ---------------------------------------------------------------------------
  // Properties of a whole pass

  /** No lines from the detector and an empty list of lines give the same,
      empty result. */
  lemma NoLinesNoLanes(height: nat)
    ensures Detect(None, height) == Detect(Some([]), height)
    ensures Detect(None, height) == LaneFrame(None, None, None)
  {
  }

  /** A vertical or flat segment, inserted anywhere, changes nothing in the
      result: neither bucket, nor either mean, nor the centre. */
  lemma RejectedSegmentIgnored(a: seq<Segment>, s: Segment, b: seq<Segment>, height: nat)
    requires IsVertical(s) || !SteepEnough(s)
    ensures Detect(Some(a + [s] + b), height) == Detect(Some(a + b), height)
  {
    RejectedSegmentIgnoredBySort(a, s, b);
  }

  /** With left-lane segments only, the left lane is present and neither the
      right lane nor the centre is. */
  lemma OnlyLeftSegments(segs: seq<Segment>, height: nat)
    requires |segs| > 0
    requires forall i :: 0 <= i < |segs| ==> IsLeftSegment(segs[i])
    ensures Detect(Some(segs), height).left.Some?
    ensures Detect(Some(segs), height).right.None?
    ensures Detect(Some(segs), height).center.None?
  {
    assert IsLeftSegment(segs[0]);
  }

  /** When every segment lies on one left-leaning line, the left lane is
      exactly that line. */
  lemma UniformLeftLane(segs: seq<Segment>, c: LaneFit, height: nat)
    requires |segs| > 0
    requires forall i :: 0 <= i < |segs| ==> Classify(segs[i]) == Some(Candidate(Left, c))
    ensures Detect(Some(segs), height).left.Some?
    ensures Detect(Some(segs), height).left.value.fit == c
  {
    var fits := Sort(segs).left;
    forall k | 0 <= k < |fits|
      ensures fits[k] == c
    {
      SortMembers(segs, fits[k]);
    }
    SortMembers(segs, c);
    assert segs[0] == segs[0];
    MeanOfUniform(fits, c);
  }

  /** A lane of slope -1 and intercept 100 in a 400-row frame is drawn from
      (-300, 400) to (-220, 320). */
  lemma ExtrapolationExample()
    ensures MakePoints(400, LaneFit(-1.0, 100.0)) == LanePoints(-300, 400, -220, 320)
  {
    PyNum.TruncationUnique(400.0 * UpperRowFraction, PyNum.Trunc(400.0 * UpperRowFraction), 320);
    PyNum.TruncationUnique((400.0 - 100.0) / -1.0, PyNum.Trunc((400.0 - 100.0) / -1.0), -300);
    PyNum.TruncationUnique((320.0 - 100.0) / -1.0, PyNum.Trunc((320.0 - 100.0) / -1.0), -220);
  }

  /** The two segments of the end-to-end example sort into one fit per side. */
  lemma ExampleBuckets()
    ensures Sort([Segment(0, 500, 100, 420), Segment(500, 300, 600, 380)])
            == Buckets([LaneFit(-0.8, 500.0)], [LaneFit(0.8, -100.0)])
  {
    var segs := [Segment(0, 500, 100, 420), Segment(500, 300, 600, 380)];
    assert Classify(segs[0]) == Some(Candidate(Left, LaneFit(-0.8, 500.0)));
    assert Classify(segs[1]) == Some(Candidate(Right, LaneFit(0.8, -100.0)));
    assert segs[..1] == [segs[0]];
    assert segs[..1][..0] == [];
  }

  lemma ExampleLanes()
    ensures LaneOf([LaneFit(-0.8, 500.0)], 400) == Lane(LaneFit(-0.8, 500.0), LanePoints(125, 400, 225, 320))
    ensures LaneOf([LaneFit(0.8, -100.0)], 400) == Lane(LaneFit(0.8, -100.0), LanePoints(625, 400, 525, 320))
  {
    MeanOfUniform([LaneFit(-0.8, 500.0)], LaneFit(-0.8, 500.0));
    MeanOfUniform([LaneFit(0.8, -100.0)], LaneFit(0.8, -100.0));
    PyNum.TruncationUnique(400.0 * UpperRowFraction, PyNum.Trunc(400.0 * UpperRowFraction), 320);
    PyNum.TruncationUnique((400.0 - 500.0) / -0.8, PyNum.Trunc((400.0 - 500.0) / -0.8), 125);
    PyNum.TruncationUnique((320.0 - 500.0) / -0.8, PyNum.Trunc((320.0 - 500.0) / -0.8), 225);
    PyNum.TruncationUnique((400.0 + 100.0) / 0.8, PyNum.Trunc((400.0 + 100.0) / 0.8), 625);
    PyNum.TruncationUnique((320.0 + 100.0) / 0.8, PyNum.Trunc((320.0 + 100.0) / 0.8), 525);
  }

  /** One segment on the line of slope -0.8 and intercept 500, one on the line
      of slope 0.8 and intercept -100, in a 400-row frame: the lanes reach the
      bottom row at x = 125 and x = 625, and the centre is (375, 400). */
  lemma EndToEndExample()
    ensures Detect(Some([Segment(0, 500, 100, 420), Segment(500, 300, 600, 380)]), 400)
            == LaneFrame(Some(Lane(LaneFit(-0.8, 500.0), LanePoints(125, 400, 225, 320))),
                         Some(Lane(LaneFit(0.8, -100.0), LanePoints(625, 400, 525, 320))),
                         Some(Point(375, 400)))
  {
    ExampleBuckets();
    ExampleLanes();
  }
}
