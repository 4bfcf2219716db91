/** Reading a value off a plotted curve: the y of the first sample to the
    right of a given x, found by binary search over samples ordered by x. */
module CurveLookup {
  import opened Wrappers

  /** One sample of a curve. Curves plot doubles; the model reads them as
      exact reals. */
  datatype Point = Point(x: real, y: real)

  /** Samples are ordered by x (ties allowed). */
  ghost predicate Sorted(s: seq<Point>)
  {
    forall i, j :: 0 <= i <= j < |s| ==> s[i].x <= s[j].x
  }

  /** Reference definition by linear scan: the index of the first sample
      whose x is strictly greater than `x`. */
  function FirstAbove(s: seq<Point>, x: real): (r: Option<nat>)
    ensures r.Some? ==> r.value < |s| && s[r.value].x > x
    ensures r.Some? ==> forall j :: 0 <= j < r.value ==> s[j].x <= x
    ensures r.None? ==> forall j :: 0 <= j < |s| ==> s[j].x <= x
  {
    if |s| == 0 then None
    else if s[0].x > x then Some(0)
    else match FirstAbove(s[1..], x)
      case None => None
      case Some(k) => Some(k + 1)
  }

  /** The value the source's lookup gives for `x` on `curve` (None for a
      missing curve), `round` being the rounding to the series' number of
      decimals: 0 for a missing or empty curve or for an x outside the
      curve's x range, 0 when no sample lies to the right of x, else the
      rounded y of the first sample that does. */
  function CurveValue(x: real, curve: Option<seq<Point>>, round: real -> real): real
  {
    match curve
    case None => 0.0
    case Some(s) =>
      if |s| == 0 || x < s[0].x || x > s[|s| - 1].x then 0.0
      else match FirstAbove(s, x)
        case None => 0.0
        case Some(k) => round(s[k].y)
  }

  /** A point where a sorted curve crosses x is its first sample above x. */
  lemma CrossingIsFirstAbove(s: seq<Point>, x: real, k: nat)
    requires Sorted(s)
    requires 0 < k < |s| && s[k - 1].x <= x < s[k].x
    ensures FirstAbove(s, x) == Some(k)
  {
  }

  /** The last sample of a sorted curve lies at or left of x exactly when
      no sample lies to the right of x. */
  lemma NoneAboveLast(s: seq<Point>, x: real)
    requires Sorted(s) && |s| > 0
    ensures FirstAbove(s, x).None? <==> s[|s| - 1].x <= x
  {
  }

  /** The binary search of the source. Without any assumption on the order
      of the samples it returns 0 or the rounded y of a sample where the
      curve crosses x (the sample before it at or left of x, it right of x);
      on a sorted curve that is exactly CurveValue. */
  method CurveToPoint(x: real, curve: Option<seq<Point>>, round: real -> real) returns (result: real)
    ensures curve.None? ==> result == 0.0
    ensures curve.Some? && (|curve.value| == 0 || x < curve.value[0].x || x > curve.value[|curve.value| - 1].x)
      ==> result == 0.0
    ensures curve.Some? && result != 0.0 ==>
      exists k :: 0 < k < |curve.value| && curve.value[k - 1].x <= x < curve.value[k].x
        && result == round(curve.value[k].y)
    ensures curve.Some? && Sorted(curve.value) ==> result == CurveValue(x, curve, round)
    ensures curve.Some? && Sorted(curve.value) && |curve.value| > 0 && x == curve.value[|curve.value| - 1].x
      ==> result == 0.0
  {
    result := 0.0;
    if curve.Some? {
      var data := curve.value;
      if |data| > 0 {
        if x < data[0].x || x > data[|data| - 1].x {
          return 0.0;
        }
        var min, mid, max := 0, 0, |data|;
        while min < max - 1
          invariant 0 <= min < max <= |data|
          invariant data[min].x <= x
          invariant max == |data| || x < data[max].x
          invariant result == if max == |data| then 0.0 else round(data[max].y)
          decreases max - min
        {
          mid := (max - min) / 2 + min;
          if x < data[mid].x {
            result := round(data[mid].y);
            max := mid;
          } else {
            min := mid;
          }
        }
        if max < |data| {
          assert data[max - 1].x <= x < data[max].x;
          if Sorted(data) {
            CrossingIsFirstAbove(data, x, max);
          }
        } else if Sorted(data) {
          assert data[|data| - 1].x <= x;
          NoneAboveLast(data, x);
        }
      }
    }
  }
}
