/** ListFeatures and RecordRoute, each written twice: as a blocking handler and as a reactor driven by callbacks.
    The reactors refine the handlers.
 */
module RouteGuideServices {
  import opened Common
  import opened RouteTypes

  function Min(a: int, b: int): int { if b < a then b else a }
  function Max(a: int, b: int): int { if a < b then b else a }

  datatype Rectangle = Rectangle(lo: Point, hi: Point)

  // ----- GetFeatureName

  /** The name of the first feature at the point, or the empty string. */
  function FeatureName(features: seq<Feature>, p: Point): string {
    if features == [] then ""
    else if features[0].location == p then features[0].name
    else FeatureName(features[1..], p)
  }

  method GetFeatureName(p: Point, features: seq<Feature>) returns (name: string)
    ensures name == FeatureName(features, p)
  {
    for i := 0 to |features|
      invariant FeatureName(features, p) == FeatureName(features[i..], p)
    {
      if features[i].location.latitude == p.latitude && features[i].location.longitude == p.longitude {
        return features[i].name;
      }
      assert features[i..][1..] == features[i + 1..];
    }
    name := "";
  }

  /** The name is that of the first feature at the point; without one it is empty. */
  lemma {:induction false} FirstFeature(features: seq<Feature>, p: Point) returns (i: nat)
    ensures i <= |features| && forall j :: 0 <= j < i ==> features[j].location != p
    ensures FeatureName(features, p) == if i < |features| then features[i].name else ""
    ensures i < |features| ==> features[i].location == p
    decreases |features|
  {
    if features == [] || features[0].location == p {
      i := 0;
    } else {
      i := FirstFeature(features[1..], p);
      i := i + 1;
    }
  }

  // ----- ListFeatures

  /** A point lies between the corners, whichever corner supplies which bound. */
  predicate Between(a: int, v: int, b: int) {
    a <= v <= b || b <= v <= a
  }

  predicate Inside(r: Rectangle, p: Point) {
    Between(r.lo.longitude, p.longitude, r.hi.longitude) && Between(r.lo.latitude, p.latitude, r.hi.latitude)
  }

  /** The features inside the rectangle, in order. */
  function Selected(features: seq<Feature>, r: Rectangle): seq<Feature> {
    if features == [] then []
    else Selected(features[..|features| - 1], r)
         + if Inside(r, features[|features| - 1].location) then [features[|features| - 1]] else []
  }

  lemma SelectedNext(features: seq<Feature>, r: Rectangle, i: nat)
    requires i < |features|
    ensures Selected(features[..i + 1], r)
         == Selected(features[..i], r) + if Inside(r, features[i].location) then [features[i]] else []
  {
    assert features[..i + 1][..i] == features[..i];
  }

  lemma {:induction false} SelectedGrows(features: seq<Feature>, r: Rectangle, i: nat, j: nat)
    requires i <= j <= |features|
    ensures Selected(features[..i], r) <= Selected(features[..j], r)
    decreases j
  {
    if i < j {
      SelectedGrows(features, r, i, j - 1);
      SelectedNext(features, r, j - 1);
    }
  }

  /** The blocking handler; `written` is what it writes to the stream. */
  method ListFeatures(features: seq<Feature>, r: Rectangle) returns (written: seq<Feature>)
    ensures written == Selected(features, r)
  {
    var left := Min(r.lo.longitude, r.hi.longitude);
    var right := Max(r.lo.longitude, r.hi.longitude);
    var top := Max(r.lo.latitude, r.hi.latitude);
    var bottom := Min(r.lo.latitude, r.hi.latitude);
    written := [];
    for i := 0 to |features|
      invariant written == Selected(features[..i], r)
    {
      SelectedNext(features, r, i);
      var p := features[i].location;
      if p.longitude >= left && p.longitude <= right && p.latitude >= bottom && p.latitude <= top {
        written := written + [features[i]];
      }
    }
    assert features[..|features|] == features;
  }

  /** The state of the reactor: the position of `next_feature_`, the writes started, whether one is outstanding, and
      how often `Finish` was called. */
  datatype Listing = Listing(next: nat, started: seq<Feature>, outstanding: bool, finishes: nat)

  /** The reactor has looked at a prefix and started the writes for it; it waits for a write whose feature is the last
      of the prefix, or has finished with nothing left. */
  ghost predicate ListingOk(features: seq<Feature>, r: Rectangle, s: Listing) {
    && s.next <= |features| && s.started == Selected(features[..s.next], r)
    && s.finishes == (if s.outstanding then 0 else 1)
    && (s.outstanding ==> s.started != [])
    && (!s.outstanding ==> s.next == |features|)
  }

  class Lister {
    const features: seq<Feature>
    const left: int
    const right: int
    const top: int
    const bottom: int
    ghost const rectangle: Rectangle
    var next: nat
    var started: seq<Feature>
    var outstanding: bool
    var finishes: nat

    ghost function View(): Listing
      reads this
    {
      Listing(next, started, outstanding, finishes)
    }

    ghost predicate Valid()
      reads this
    {
      && left == Min(rectangle.lo.longitude, rectangle.hi.longitude)
      && right == Max(rectangle.lo.longitude, rectangle.hi.longitude)
      && top == Max(rectangle.lo.latitude, rectangle.hi.latitude)
      && bottom == Min(rectangle.lo.latitude, rectangle.hi.latitude)
      && next <= |features| && started == Selected(features[..next], rectangle)
    }

    constructor (r: Rectangle, features: seq<Feature>)
      ensures Valid() && this.features == features && rectangle == r
      ensures ListingOk(features, r, View()) && |started| == if outstanding then 1 else 0
    {
      left := Min(r.lo.longitude, r.hi.longitude);
      right := Max(r.lo.longitude, r.hi.longitude);
      top := Max(r.lo.latitude, r.hi.latitude);
      bottom := Min(r.lo.latitude, r.hi.latitude);
      this.features, rectangle := features, r;
      next, started, outstanding, finishes := 0, [], false, 0;
      new;
      NextWrite();
    }

    /** The next write, if a feature is left; otherwise `Finish`. */
    method NextWrite()
      requires Valid() && !outstanding && finishes == 0
      modifies this
      ensures Valid() && ListingOk(features, rectangle, View())
      ensures if outstanding then |started| == |old(started)| + 1 else started == old(started)
    {
      while next != |features|
        invariant Valid() && !outstanding && finishes == 0 && started == old(started)
        decreases |features| - next
      {
        var f := features[next];
        SelectedNext(features, rectangle, next);
        next := next + 1;
        if f.location.longitude >= left && f.location.longitude <= right
           && f.location.latitude >= bottom && f.location.latitude <= top {
          started, outstanding := started + [f], true;
          return;
        }
      }
      finishes := finishes + 1;
    }

    /** A write completed, successfully or not. */
    method OnWriteDone(ok: bool)
      requires Valid() && ListingOk(features, rectangle, View()) && outstanding
      modifies this
      ensures Valid() && ListingOk(features, rectangle, View())
      ensures if outstanding then |started| == |old(started)| + 1 else started == old(started)
    {
      outstanding := false;
      NextWrite();
    }
  }

  /** Main result.  Whatever the completions report, the reactor starts the writes of the blocking handler, in order and
      one at a time: after `n` completions it has started the first n + 1 of them and waits, and after as many
      completions as there are writes it has finished exactly once. */
  method DriveLister(features: seq<Feature>, r: Rectangle, completions: seq<bool>) returns (s: Listing)
    requires |completions| <= |Selected(features, r)|
    ensures var all := Selected(features, r);
            if |completions| < |all|
            then s.outstanding && s.started == all[..|completions| + 1] && s.finishes == 0
            else !s.outstanding && s.started == all && s.finishes == 1
  {
    var lister := new Lister(r, features);
    ListingComplete(features, r, lister.View());
    for i := 0 to |completions|
      invariant fresh(lister) && lister.features == features && lister.rectangle == r
      invariant lister.Valid() && ListingOk(features, r, lister.View())
      invariant if lister.outstanding then |lister.started| == i + 1 else |lister.started| == i
      invariant lister.outstanding || i >= |Selected(features, r)|
    {
      lister.OnWriteDone(completions[i]);
      ListingComplete(features, r, lister.View());
    }
    ListingComplete(features, r, lister.View());
    s := Listing(lister.next, lister.started, lister.outstanding, lister.finishes);
  }

  lemma ListingComplete(features: seq<Feature>, r: Rectangle, s: Listing)
    requires ListingOk(features, r, s)
    ensures s.started <= Selected(features, r)
    ensures !s.outstanding ==> s.started == Selected(features, r)
  {
    SelectedGrows(features, r, s.next, |features|);
    assert features[..|features|] == features;
  }

  /** No smaller than both and no larger than both corners, in either coordinate. */
  predicate Bounded(r: Rectangle, p: Point) {
    && (r.lo.longitude <= p.longitude || r.hi.longitude <= p.longitude)
    && (p.longitude <= r.lo.longitude || p.longitude <= r.hi.longitude)
    && (r.lo.latitude <= p.latitude || r.hi.latitude <= p.latitude)
    && (p.latitude <= r.lo.latitude || p.latitude <= r.hi.latitude)
  }

  /** Main result: the features written are those at the positions `at`, in order and each once, which are the positions
      of the features within the bounds and no others. */
  lemma {:induction false} SelectedExactly(features: seq<Feature>, r: Rectangle) returns (at: seq<nat>)
    ensures Picks(features, at, Selected(features, r))
    ensures forall i: nat :: i < |features| ==> (i in at <==> Bounded(r, features[i].location))
    decreases |features|
  {
    if features == [] {
      at := [];
    } else {
      var n := |features| - 1;
      var front, f := features[..n], features[n];
      at := SelectedExactly(front, r);
      PicksSkip(front, f, at, Selected(front, r));
      PicksTake(front, f, at, Selected(front, r));
      assert features == front + [f];
      if Bounded(r, f.location) {
        at := at + [n];
      }
    }
  }

  /** The answer does not depend on which corner of the rectangle supplies which bound. */
  lemma {:induction false} CornersDoNotMatter(features: seq<Feature>, a: int, b: int, c: int, d: int)
    ensures Selected(features, Rectangle(Point(a, c), Point(b, d)))
         == Selected(features, Rectangle(Point(b, c), Point(a, d)))
    ensures Selected(features, Rectangle(Point(a, c), Point(b, d)))
         == Selected(features, Rectangle(Point(a, d), Point(b, c)))
    decreases |features|
  {
    if features != [] {
      CornersDoNotMatter(features[..|features| - 1], a, b, c, d);
    }
  }

  // ----- RecordRoute

  /** The distance is a float that the code sums in stream order; only the order matters here, so its type and
      operations are parameters.  `toLong` is the final conversion of the summary. */
  datatype Metric<!D> = Metric(zero: D, add: (D, D) -> D, between: (Point, Point) -> D, toLong: D -> int)

  datatype Summary = Summary(pointCount: int, featureCount: int, distance: int)

  function Named(features: seq<Feature>, points: seq<Point>): nat {
    if points == [] then 0
    else Named(features, points[..|points| - 1])
         + if FeatureName(features, points[|points| - 1]) != "" then 1 else 0
  }

  /** The left fold of the distance over consecutive points. */
  function Travelled<D>(m: Metric<D>, points: seq<Point>): D {
    if |points| <= 1 then m.zero
    else m.add(Travelled(m, points[..|points| - 1]), m.between(points[|points| - 2], points[|points| - 1]))
  }

  /** What the summary says of a point stream. */
  function Summarized<D>(m: Metric<D>, features: seq<Feature>, points: seq<Point>): Summary {
    Summary(|points|, Named(features, points), m.toLong(Travelled(m, points)))
  }

  /** The first feature at the point has a name. */
  ghost predicate HasName(features: seq<Feature>, p: Point) {
    exists k :: 0 <= k < |features| && features[k].location == p && features[k].name != "" &&
                forall j :: 0 <= j < k ==> features[j].location != p
  }

  lemma NameIsFound(features: seq<Feature>, p: Point)
    ensures HasName(features, p) <==> FeatureName(features, p) != ""
  {
    var i := FirstFeature(features, p);
    if k :| 0 <= k < |features| && features[k].location == p && features[k].name != "" &&
            forall j :: 0 <= j < k ==> features[j].location != p
    {
      assert k == i;
    }
  }

  ghost function NamedAt(features: seq<Feature>, points: seq<Point>): set<int> {
    set i | 0 <= i < |points| && HasName(features, points[i])
  }

  lemma NamedNext(features: seq<Feature>, points: seq<Point>, p: Point)
    ensures NamedAt(features, points + [p])
         == NamedAt(features, points) + if HasName(features, p) then {|points|} else {}
    ensures |NamedAt(features, points + [p])| == |NamedAt(features, points)| + if HasName(features, p) then 1 else 0
  {
    assert |points| !in NamedAt(features, points);
    var all := points + [p];
    assert forall i :: 0 <= i < |points| ==> all[i] == points[i];
    assert all[|points|] == p;
  }

  lemma {:induction false} NamedCounts(features: seq<Feature>, points: seq<Point>)
    ensures Named(features, points) == |NamedAt(features, points)|
    decreases |points|
  {
    if points != [] {
      var n := |points| - 1;
      var front, p := points[..n], points[n];
      NamedCounts(features, front);
      NameIsFound(features, p);
      NamedNext(features, front, p);
      assert points == front + [p];
    }
  }

  /** The distances from each point to the next. */
  function Legs<D>(m: Metric<D>, points: seq<Point>): seq<D> {
    seq(if points == [] then 0 else |points| - 1,
        i requires 0 <= i < |points| - 1 => m.between(points[i], points[i + 1]))
  }

  function Sum<D>(m: Metric<D>, start: D, legs: seq<D>): D
    decreases |legs|
  {
    if legs == [] then start else Sum(m, m.add(start, legs[0]), legs[1..])
  }

  lemma {:induction false} SumLast<D>(m: Metric<D>, start: D, legs: seq<D>, leg: D)
    ensures Sum(m, start, legs + [leg]) == m.add(Sum(m, start, legs), leg)
    decreases |legs|
  {
    if legs == [] {
      assert (legs + [leg])[1..] == [];
    } else {
      assert (legs + [leg])[1..] == legs[1..] + [leg];
      SumLast(m, m.add(start, legs[0]), legs[1..], leg);
    }
  }

  lemma {:induction false} TravelledIsSum<D>(m: Metric<D>, points: seq<Point>)
    ensures Travelled(m, points) == Sum(m, m.zero, Legs(m, points))
    decreases |points|
  {
    if |points| > 1 {
      var n := |points| - 1;
      TravelledIsSum(m, points[..n]);
      assert Legs(m, points) == Legs(m, points[..n]) + [m.between(points[n - 1], points[n])];
      SumLast(m, m.zero, Legs(m, points[..n]), m.between(points[n - 1], points[n]));
    }
  }

  /** Main result: the summary counts the points, counts those of them whose first feature has a name, and adds up the
      distances from each point to the next, in stream order. */
  lemma SummaryExactly<D>(m: Metric<D>, features: seq<Feature>, points: seq<Point>)
    ensures var summary := Summarized(m, features, points);
            && summary.pointCount == |points| && summary.featureCount == |NamedAt(features, points)|
            && summary.distance == m.toLong(Sum(m, m.zero, Legs(m, points)))
  {
    NamedCounts(features, points);
    TravelledIsSum(m, points);
  }

  /** The counters after a prefix of the stream; `previous` matters only once there is a point. */
  ghost predicate Recorded<D>(m: Metric<D>, features: seq<Feature>, points: seq<Point>,
                              pointCount: int, featureCount: int, distance: D, previous: Point) {
    && pointCount == |points| && featureCount == Named(features, points) && distance == Travelled(m, points)
    && (points != [] ==> previous == points[|points| - 1])
  }

  lemma RecordedNext<D>(m: Metric<D>, features: seq<Feature>, points: seq<Point>, p: Point)
    ensures Named(features, points + [p]) == Named(features, points) + if FeatureName(features, p) != "" then 1 else 0
    ensures Travelled(m, points + [p]) == if points == [] then m.zero
                                          else m.add(Travelled(m, points), m.between(points[|points| - 1], p))
  {
    assert (points + [p])[..|points|] == points;
  }

  /** The blocking handler; `points` is what its reads deliver. */
  method RecordRoute<D>(m: Metric<D>, features: seq<Feature>, points: seq<Point>) returns (summary: Summary)
    ensures summary == Summarized(m, features, points)
  {
    var pointCount, featureCount, distance, previous := 0, 0, m.zero, Point(0, 0);
    for i := 0 to |points|
      invariant Recorded(m, features, points[..i], pointCount, featureCount, distance, previous)
    {
      RecordedNext(m, features, points[..i], points[i]);
      assert points[..i + 1] == points[..i] + [points[i]];
      pointCount := pointCount + 1;
      var name := GetFeatureName(points[i], features);
      if name != "" {
        featureCount := featureCount + 1;
      }
      if pointCount != 1 {
        distance := m.add(distance, m.between(previous, points[i]));
      }
      previous := points[i];
    }
    assert points[..|points|] == points;
    summary := Summary(pointCount, featureCount, m.toLong(distance));
  }

  class Recorder<D> {
    const metric: Metric<D>
    const features: seq<Feature>
    var pointCount: int
    var featureCount: int
    var distance: D
    var previous: Point
    var summary: Summary
    var reading: bool
    var finishes: nat

    constructor (metric: Metric<D>, features: seq<Feature>, blank: Summary)
      ensures this.metric == metric && this.features == features && reading && finishes == 0
      ensures Recorded(metric, features, [], pointCount, featureCount, distance, previous)
    {
      this.metric, this.features := metric, features;
      pointCount, featureCount, distance, previous := 0, 0, metric.zero, Point(0, 0);
      summary, reading, finishes := blank, true, 0;
    }

    /** A read completed: `points` have been delivered before it. */
    method OnReadDone(ok: bool, point: Point, ghost points: seq<Point>)
      requires reading && finishes == 0
      requires Recorded(metric, features, points, pointCount, featureCount, distance, previous)
      modifies this
      ensures ok ==> reading && finishes == 0
                     && Recorded(metric, features, points + [point], pointCount, featureCount, distance, previous)
      ensures !ok ==> !reading && finishes == 1 && summary == Summarized(metric, features, points)
    {
      RecordedNext(metric, features, points, point);
      if ok {
        pointCount := pointCount + 1;
        var name := GetFeatureName(point, features);
        if name != "" {
          featureCount := featureCount + 1;
        }
        if pointCount != 1 {
          distance := metric.add(distance, metric.between(previous, point));
        }
        previous := point;
      } else {
        summary := Summary(pointCount, featureCount, metric.toLong(distance));
        reading := false;
        finishes := finishes + 1;
      }
    }
  }

  /** The reactor, driven by the same points and the end of the stream, gives the summary of the blocking handler and
      finishes once. */
  method DriveRecorder<D>(m: Metric<D>, features: seq<Feature>, points: seq<Point>, blank: Summary)
    returns (summary: Summary, finishes: nat)
    ensures summary == Summarized(m, features, points) && finishes == 1
  {
    var recorder := new Recorder(m, features, blank);
    for i := 0 to |points|
      invariant fresh(recorder) && recorder.metric == m && recorder.features == features
      invariant recorder.reading && recorder.finishes == 0
      invariant Recorded(m, features, points[..i], recorder.pointCount, recorder.featureCount,
                         recorder.distance, recorder.previous)
    {
      recorder.OnReadDone(true, points[i], points[..i]);
      assert points[..i + 1] == points[..i] + [points[i]];
    }
    assert points[..|points|] == points;
    recorder.OnReadDone(false, Point(0, 0), points);
    summary, finishes := recorder.summary, recorder.finishes;
  }
}
