/** The two samplers a drive passes through: _osrm_leg_path picks points of the road polyline, and the route history
    service thins the recorded pings. Real-valued steps are exact fractions. */
module Downsampling {
  import opened Arithmetic
  import opened Outcomes
  import opened Rounding

  // ---- _osrm_leg_path ----

  /** int(round(i * step)) with step = (length - 1) / (points - 1). */
  function RoundedIndex(i: nat, length: nat, points: nat): int
    requires points >= 2
  {
    RoundHalfEven(i * (length - 1), points - 1)
  }

  function ChosenIndex(i: nat, length: nat, points: nat): int
    requires points >= 2
  {
    if RoundedIndex(i, length, points) < length - 1 then RoundedIndex(i, length, points) else length - 1
  }

  /** The clamp to the last index never acts. */
  lemma ClampNeverFires(i: nat, length: nat, points: nat)
    requires points >= 2 && length > points && i < points
    ensures 0 <= RoundedIndex(i, length, points) <= length - 1
    ensures ChosenIndex(i, length, points) == RoundedIndex(i, length, points)
  {
    var p, l := points - 1, length - 1;
    MulMonotone(0, i, l);
    MulMonotone(i, p, l);
    RoundMonotone(0, i * l, p);
    RoundMonotone(i * l, p * l, p);
    RoundMultiple(0, p);
    RoundMultiple(l, p);
  }

  lemma ChosenIndicesIncrease(i: nat, length: nat, points: nat)
    requires points >= 2 && length > points && i + 1 < points
    ensures ChosenIndex(i, length, points) < ChosenIndex(i + 1, length, points)
  {
    ClampNeverFires(i, length, points);
    ClampNeverFires(i + 1, length, points);
    assert (i + 1) * (length - 1) - i * (length - 1) == length - 1;
    RoundSeparates(i * (length - 1), (i + 1) * (length - 1), points - 1);
  }

  lemma {:induction false} ChosenIndicesOrdered(i: nat, j: nat, length: nat, points: nat)
    requires points >= 2 && length > points && i < j < points
    ensures ChosenIndex(i, length, points) < ChosenIndex(j, length, points)
    decreases j
  {
    ChosenIndicesIncrease(j - 1, length, points);
    if i < j - 1 {
      ChosenIndicesOrdered(i, j - 1, length, points);
    }
  }

  /** The polyline as the script uses it: untouched when short enough, otherwise exactly points of its entries. */
  function LegPath<T>(raw: seq<T>, points: nat): (path: seq<T>)
    requires points >= 2
    ensures |path| == if |raw| <= points then |raw| else points
  {
    if |raw| <= points then raw
    else seq(points, i requires 0 <= i < points => (ClampNeverFires(i, |raw|, points); raw[ChosenIndex(i, |raw|, points)]))
  }

  /** x is the integer nearest to n / d, and the even one of two equally near. */
  predicate NearestTo(x: int, n: int, d: int)
    requires d >= 1
  {
    -d <= 2 * (d * x - n) <= d && (2 * (d * x - n) == d || 2 * (d * x - n) == -d ==> x % 2 == 0)
  }

  lemma RoundIsNearest(n: int, d: int)
    requires d >= 1
    ensures NearestTo(RoundHalfEven(n, d), n, d)
  {
    RoundCharacterised(n, d, RoundHalfEven(n, d));
  }

  /** Sampling keeps the order, both end points and no entry twice, and takes evenly spread entries: entry i of the path is
      the one nearest to the i-th of points - 1 equal steps. */
  lemma LegPathSamples<T>(raw: seq<T>, points: nat)
    requires points >= 2 && |raw| > points
    ensures var path := LegPath(raw, points);
      && path[0] == raw[0] && path[points - 1] == raw[|raw| - 1]
      && (forall i :: 0 <= i < points ==>
            0 <= ChosenIndex(i, |raw|, points) < |raw| && path[i] == raw[ChosenIndex(i, |raw|, points)])
      && (forall i, j :: 0 <= i < j < points ==> ChosenIndex(i, |raw|, points) < ChosenIndex(j, |raw|, points))
      && ChosenIndex(0, |raw|, points) == 0 && ChosenIndex(points - 1, |raw|, points) == |raw| - 1
      && (forall i :: 0 <= i < points ==> NearestTo(ChosenIndex(i, |raw|, points), i * (|raw| - 1), points - 1))
  {
    var p, l := points - 1, |raw| - 1;
    RoundMultiple(0, p);
    RoundMultiple(l, p);
    assert RoundedIndex(0, |raw|, points) == 0;
    assert RoundedIndex(p, |raw|, points) == l;
    forall i | 0 <= i < points
      ensures 0 <= ChosenIndex(i, |raw|, points) < |raw|
      ensures NearestTo(ChosenIndex(i, |raw|, points), i * (|raw| - 1), points - 1)
    {
      ClampNeverFires(i, |raw|, points);
      RoundIsNearest(i * (|raw| - 1), points - 1);
    }
    forall i, j | 0 <= i < j < points ensures ChosenIndex(i, |raw|, points) < ChosenIndex(j, |raw|, points) {
      ChosenIndicesOrdered(i, j, |raw|, points);
    }
  }

  // ---- _linear_path ----

  /** Longitude and latitude. */
  datatype Point = Point(lon: real, lat: real)

  /** The coordinate i of p steps from x to y. */
  function Between(x: real, y: real, i: nat, p: nat): real
    requires p >= 1
  {
    x + (y - x) * (i as real / p as real)
  }

  lemma BetweenSteps(x: real, y: real, i: nat, p: nat)
    requires p >= 1
    ensures Between(x, y, 0, p) == x && Between(x, y, p, p) == y
    ensures Between(x, y, i + 1, p) - Between(x, y, i, p) == (y - x) / p as real
  {
  }

  /** A straight path: as many points as asked, from the first place to the second in equal steps. */
  ghost predicate Straight(path: seq<Point>, start: Point, end: Point, points: nat)
    requires points >= 2
  {
    && |path| == points && path[0] == start && path[points - 1] == end
    && (forall i | 0 <= i < points - 1 ::
          && path[i + 1].lon - path[i].lon == (end.lon - start.lon) / (points - 1) as real
          && path[i + 1].lat - path[i].lat == (end.lat - start.lat) / (points - 1) as real)
  }

  function Interpolate(start: Point, end: Point, i: nat, points: nat): Point
    requires points >= 2
  {
    Point(Between(start.lon, end.lon, i, points - 1), Between(start.lat, end.lat, i, points - 1))
  }

  lemma InterpolationIsStraight(start: Point, end: Point, points: nat, path: seq<Point>)
    requires points >= 2 && |path| == points && forall i :: 0 <= i < points ==> path[i] == Interpolate(start, end, i, points)
    ensures Straight(path, start, end, points)
  {
    hide Between;
    forall i: nat | i < points - 1
      ensures path[i + 1].lon - path[i].lon == (end.lon - start.lon) / (points - 1) as real
      ensures path[i + 1].lat - path[i].lat == (end.lat - start.lat) / (points - 1) as real
    {
      BetweenSteps(start.lon, end.lon, i, points - 1);
      BetweenSteps(start.lat, end.lat, i, points - 1);
    }
    BetweenSteps(start.lon, end.lon, 0, points - 1);
    BetweenSteps(start.lat, end.lat, 0, points - 1);
  }

  method LinearPath(start: Point, end: Point, points: nat) returns (out: seq<Point>)
    ensures points <= 1 ==> out == [end]
    ensures points >= 2 ==> Straight(out, start, end, points)
  {
    hide Straight, Interpolate;
    if points <= 1 {
      return [end];
    }
    out := [];
    for i := 0 to points
      invariant |out| == i && forall j :: 0 <= j < i ==> out[j] == Interpolate(start, end, j, points)
    {
      out := out + [Interpolate(start, end, i, points)];
    }
    InterpolationIsStraight(start, end, points, out);
  }

  /** The path of a leg: the sampled road polyline if there is one, else a straight line. Only a polyline without a
      readable point leaves nothing to drive along. */
  method DriveLegPath(polyline: Option<seq<Point>>, start: Point, end: Point, points: nat) returns (path: seq<Point>)
    requires points >= 2
    ensures polyline.Some? ==> path == LegPath(polyline.value, points)
    ensures polyline.Some? && |polyline.value| <= points ==> path == polyline.value
    ensures polyline.None? ==> Straight(path, start, end, points)
    ensures |path| <= points && (path == [] <==> polyline == Some([]))
  {
    match polyline {
      case Some(raw) => path := LegPath(raw, points);
      case None => path := LinearPath(start, end, points);
    }
  }

  // ---- RouteGeometryService._downsample ----

  /** int(i * step) with step = length / max. */
  function FlooredIndex(i: nat, length: nat, max: nat): int
    requires max >= 1
  {
    i * length / max
  }

  lemma FlooredIndexBounds(i: nat, length: nat, max: nat)
    requires max >= 1 && length > max && i < max
    ensures 0 <= FlooredIndex(i, length, max) < length - 1
  {
    var q := FlooredIndex(i, length, max);
    DivMod(i * length, max);
    MulMonotone(i, max - 1, length);
    MulMonotone(0, i, length);
    Distribute(length, max, 1);
    Distribute(max, length, 1);
    CancelFactor(max, 0, q);
    assert max * q < max * (length - 1);
    if q >= length - 1 {
      MulMonotone(length - 1, q, max);
    }
  }

  lemma FlooredIndicesIncrease(i: nat, length: nat, max: nat)
    requires max >= 1 && length > max
    ensures FlooredIndex(i, length, max) < FlooredIndex(i + 1, length, max)
  {
  }

  lemma {:induction false} FlooredIndicesOrdered(i: nat, j: nat, length: nat, max: nat)
    requires max >= 1 && length > max && i < j
    ensures FlooredIndex(i, length, max) < FlooredIndex(j, length, max)
    decreases j
  {
    FlooredIndicesIncrease(j - 1, length, max);
    if i < j - 1 {
      FlooredIndicesOrdered(i, j - 1, length, max);
    }
  }

  /** The indices kept: all of them up to max, otherwise max floored ones and the last. */
  ghost function Thinned(length: nat, max: nat): (kept: seq<nat>)
    requires max >= 1
    ensures |kept| == if length <= max then length else max + 1
  {
    if length <= max then seq(length, i => i)
    else seq(max, i requires 0 <= i < max => (FlooredIndexBounds(i, length, max); FlooredIndex(i, length, max))) + [length - 1]
  }

  /** The sampler, on indices: an entry is a separate record, so two are the same one when their indices are equal. */
  method Thin(length: nat, max: nat) returns (out: seq<nat>)
    requires max >= 1
    ensures out == Thinned(length, max)
    ensures length <= max ==> |out| == length && forall i :: 0 <= i < length ==> out[i] == i
  {
    if length <= max {
      return seq(length, i => i);
    }
    var seen: set<nat> := {};
    out := [];
    var i := 0;
    while i < max
      invariant 0 <= i <= max && |out| == i
      invariant forall j :: 0 <= j < i ==> out[j] == FlooredIndex(j, length, max) < length - 1
      invariant forall x :: x in seen ==> exists j :: 0 <= j < i && x == out[j]
    {
      FlooredIndexBounds(i, length, max);
      var idx := FlooredIndex(i, length, max);
      forall j | 0 <= j < i ensures out[j] != idx {
        FlooredIndicesOrdered(j, i, length, max);
      }
      if idx !in seen {
        seen := seen + {idx};
        out := out + [idx];
      }
      i := i + 1;
    }
    if length - 1 != out[|out| - 1] {
      out := out + [length - 1];
    }
    assert out == Thinned(length, max);
  }

  /** The i-th of max equal steps over length records begins in record x. */
  predicate BeginsIn(i: nat, x: int, length: nat, max: nat) {
    max * x <= i * length < max * (x + 1)
  }

  /** Records a and b are less than one step and one apart. */
  predicate Close(a: int, b: int, length: nat, max: nat) {
    max * (b - a) < length + max
  }

  lemma FlooredIndexSpread(i: nat, length: nat, max: nat)
    requires max >= 1
    ensures BeginsIn(i, FlooredIndex(i, length, max), length, max)
  {
    DivMod(i * length, max);
    Distribute(max, FlooredIndex(i, length, max), 1);
  }

  /** Steps of length / max that start at or before the i-th and end after the next are closer than one step and one. */
  lemma SpreadGap(max: nat, length: nat, i: nat, a: int, b: int)
    requires i * length < max * (a + 1) && max * b <= (i + 1) * length
    ensures max * (b - a) < length + max
  {
    Distribute(max, b, a);
    Distribute(max, a, 1);
    assert (i + 1) * length == i * length + length;
  }

  lemma ThinnedAt(length: nat, max: nat, i: nat)
    requires max >= 1 && length > max && i <= max
    ensures Thinned(length, max)[i] == if i < max then FlooredIndex(i, length, max) else length - 1
  {
    hide FlooredIndex;
  }

  lemma ThinnedSpreadAt(length: nat, max: nat, i: nat)
    requires max >= 1 && length > max && i < max
    ensures var kept := Thinned(length, max);
      BeginsIn(i, kept[i], length, max) && Close(kept[i], kept[i + 1], length, max)
  {
    hide FlooredIndex, Thinned;
    ThinnedAt(length, max, i);
    ThinnedAt(length, max, i + 1);
    var a, b := Thinned(length, max)[i], Thinned(length, max)[i + 1];
    FlooredIndexSpread(i, length, max);
    if i + 1 < max {
      FlooredIndexSpread(i + 1, length, max);
    } else {
      MulMonotone(length - 1, length, max);
    }
    SpreadGap(max, length, i, a, b);
  }

  lemma ThinnedOrdered(length: nat, max: nat, i: nat, j: nat)
    requires max >= 1 && length > max && i < j <= max
    ensures Thinned(length, max)[i] < Thinned(length, max)[j]
  {
    hide FlooredIndex, Thinned;
    ThinnedAt(length, max, i);
    ThinnedAt(length, max, j);
    FlooredIndexBounds(i, length, max);
    if j < max {
      FlooredIndicesOrdered(i, j, length, max);
    }
  }

  /** Thinning more than max records leaves max + 1 of them, one above the limit it is given: no index repeats and the
      last record is never among the floored ones. The kept records are spread over all: record i is the one in which the
      i-th of max equal steps begins, and consecutive ones are less than one step and one apart. */
  lemma ThinnedKeepsEnds(length: nat, max: nat)
    requires max >= 1 && length > max
    ensures var kept := Thinned(length, max);
      && |kept| == max + 1 && kept[0] == 0 && kept[max] == length - 1
      && (forall i, j :: 0 <= i < j <= max ==> kept[i] < kept[j])
      && (forall i :: 0 <= i < max ==> BeginsIn(i, kept[i], length, max))
      && (forall i :: 0 <= i < max ==> Close(kept[i], kept[i + 1], length, max))
  {
    hide FlooredIndex, Thinned, BeginsIn, Close;
    var kept := Thinned(length, max);
    ThinnedAt(length, max, 0);
    ThinnedAt(length, max, max);
    FirstFloored(length, max);
    forall i, j | 0 <= i < j <= max ensures kept[i] < kept[j] {
      ThinnedOrdered(length, max, i, j);
    }
    forall i | 0 <= i < max
      ensures BeginsIn(i, kept[i], length, max) && Close(kept[i], kept[i + 1], length, max)
    {
      ThinnedSpreadAt(length, max, i);
    }
  }

  lemma FirstFloored(length: nat, max: nat)
    requires max >= 1
    ensures FlooredIndex(0, length, max) == 0
  {
  }
}
