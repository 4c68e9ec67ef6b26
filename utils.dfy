/** utils.py: the RFC 3339 time stamps sent to the search service, and the
    buffered bounding-box ring built from an AOI's coordinate arrays. */
module Utils {
  import opened Base
  import opened Text
  import opened Dates

  // ---------------------------------------------------------------- rfc3339

  /** `strftime(d, '%Y-%m-%dT%H:%M:%SZ')`: the `date-time` of section 5.6 of RFC 3339 with a
      literal `Z` offset; the fields are written as they are, so no time-zone conversion. */
  function Rfc3339(d: Instant): (s: string)
    ensures |s| == 20
    ensures s[4] == '-' && s[7] == '-' && s[10] == 'T' && s[13] == ':' && s[16] == ':' && s[19] == 'Z'
  {
    Pad4(d.year) + "-" + Pad2(d.month) + "-" + Pad2(d.day) + "T"
      + Pad2(d.hour) + ":" + Pad2(d.minute) + ":" + Pad2(d.second) + "Z"
  }

  /** Round trip: the digit groups at their fixed positions decode back to the
      instant's year, month, day, hour, minute and second; only the sub-second part is lost. */
  lemma Rfc3339Fields(d: Instant)
    ensures var s := Rfc3339(d);
      && AllDigits(s[..4]) && DecimalValue(s[..4]) == d.year
      && AllDigits(s[5..7]) && DecimalValue(s[5..7]) == d.month
      && AllDigits(s[8..10]) && DecimalValue(s[8..10]) == d.day
      && AllDigits(s[11..13]) && DecimalValue(s[11..13]) == d.hour
      && AllDigits(s[14..16]) && DecimalValue(s[14..16]) == d.minute
      && AllDigits(s[17..19]) && DecimalValue(s[17..19]) == d.second
  {
    var s := Rfc3339(d);
    assert s[..4] == Pad4(d.year) && s[5..7] == Pad2(d.month) && s[8..10] == Pad2(d.day);
    assert s[11..13] == Pad2(d.hour) && s[14..16] == Pad2(d.minute) && s[17..19] == Pad2(d.second);
    Pad4RoundTrip(d.year);
    Pad2RoundTrip(d.month);
    Pad2RoundTrip(d.day);
    Pad2RoundTrip(d.hour);
    Pad2RoundTrip(d.minute);
    Pad2RoundTrip(d.second);
  }

  /** Two instants give the same text exactly when they agree up to whole seconds. */
  lemma Rfc3339Injective(d1: Instant, d2: Instant)
    ensures Rfc3339(d1) == Rfc3339(d2) <==> WholeSeconds(d1) == WholeSeconds(d2)
  {
    if Rfc3339(d1) == Rfc3339(d2) {
      Rfc3339Fields(d1);
      Rfc3339Fields(d2);
    }
  }

  // ---------------------------------------------------------- bounding box

  datatype Point = Point(x: real, y: real)

  datatype Bounds = Bounds(xmin: real, xmax: real, ymin: real, ymax: real)

  /** numpy's `max()` of a non-empty array. */
  function Max(s: seq<real>): (m: real)
    requires |s| > 0
    ensures m in s && forall i :: 0 <= i < |s| ==> s[i] <= m
  {
    if |s| == 1 then s[0]
    else var rest := Max(s[1..]); if s[0] >= rest then s[0] else rest
  }

  /** numpy's `min()` of a non-empty array. */
  function Min(s: seq<real>): (m: real)
    requires |s| > 0
    ensures m in s && forall i :: 0 <= i < |s| ==> m <= s[i]
  {
    if |s| == 1 then s[0]
    else var rest := Min(s[1..]); if s[0] <= rest then s[0] else rest
  }

  /** The extent of the AOI's coordinates grown by `buf` on every side;
      numpy raises ValueError for the maximum of an empty array. */
  function BufferedBounds(xs: seq<real>, ys: seq<real>, buf: real): (r: Result<Bounds>)
    ensures r.Err? <==> |xs| == 0 || |ys| == 0
    ensures r.Err? ==> r.error == ValueError
  {
    if |xs| == 0 || |ys| == 0 then Err(ValueError)
    else Ok(Bounds(Min(xs) - buf, Max(xs) + buf, Min(ys) - buf, Max(ys) + buf))
  }

  /** The bounds are tight: each side lies exactly `buf` beyond some input coordinate,
      and with a non-negative buffer every input point lies inside them. */
  lemma BoundsContainPoints(xs: seq<real>, ys: seq<real>, buf: real)
    requires BufferedBounds(xs, ys, buf).Ok?
    ensures var b := BufferedBounds(xs, ys, buf).value;
      && (b.xmax - buf) in xs && (b.xmin + buf) in xs && (b.ymax - buf) in ys && (b.ymin + buf) in ys
      && (buf >= 0.0 ==> forall i :: 0 <= i < |xs| ==> b.xmin <= xs[i] <= b.xmax)
      && (buf >= 0.0 ==> forall j :: 0 <= j < |ys| ==> b.ymin <= ys[j] <= b.ymax)
  {
  }

  /** The closed ring of corner points handed to OGR. */
  function BoundingRing(b: Bounds): seq<Point>
  {
    [Point(b.xmax, b.ymax), Point(b.xmax, b.ymin), Point(b.xmin, b.ymin), Point(b.xmin, b.ymax), Point(b.xmax, b.ymax)]
  }

  /** The ring is closed, runs round the rectangle's corners (consecutive points differ in
      one coordinate only), and, with a non-negative buffer, encloses every AOI point. */
  lemma BoundingRingShape(xs: seq<real>, ys: seq<real>, buf: real)
    requires BufferedBounds(xs, ys, buf).Ok?
    ensures var ring := BoundingRing(BufferedBounds(xs, ys, buf).value);
      && |ring| == 5 && ring[0] == ring[4]
      && (forall k :: 0 <= k < 4 ==> ring[k].x == ring[k + 1].x || ring[k].y == ring[k + 1].y)
      && (buf >= 0.0 ==> forall i, j :: 0 <= i < |xs| && 0 <= j < |ys| ==>
            ring[2].x <= xs[i] <= ring[0].x && ring[2].y <= ys[j] <= ring[0].y)
  {
    BoundsContainPoints(xs, ys, buf);
  }

  /** An OGR linear ring: points are appended one at a time. */
  class LinearRing {
    var points: seq<Point>

    constructor ()
      ensures points == []
    {
      points := [];
    }

    method AddPoint(x: real, y: real)
      modifies this
      ensures points == old(points) + [Point(x, y)]
    {
      points := points + [Point(x, y)];
    }
  }

  /** The loop `for p in bbox: ring.AddPoint(p[0], p[1])`: the ring holds the
      points of the list, in list order. */
  method BuildRing(bbox: seq<Point>) returns (ring: LinearRing)
    ensures fresh(ring) && ring.points == bbox
  {
    ring := new LinearRing();
    for i := 0 to |bbox|
      invariant ring.points == bbox[..i]
    {
      ring.AddPoint(bbox[i].x, bbox[i].y);
    }
  }
}
