/**
 * The trail of a projectile: the centres it has passed through, oldest
 * first, kept to a bounded length by dropping the oldest one.
 */
module Trails {
  type Point = (int, int)

  /** Longest trail of past centres that is kept. */
  const TrailCap: int := 50

  /** The trail after recording point p: p is appended and, once the trail
      exceeds its cap, the oldest point is dropped. */
  function Trail(s: seq<Point>, p: Point): (r: seq<Point>)
    ensures |r| == if |s| < TrailCap then |s| + 1 else |s|
    ensures r == (s + [p])[if |s| < TrailCap then 0 else 1..]
  {
    var appended := s + [p];
    if |appended| > TrailCap then appended[1..] else appended
  }

  /** The trail after recording every point of `points`, oldest first,
      starting from an empty trail. */
  function TrailOf(points: seq<Point>): seq<Point> {
    if points == [] then [] else Trail(TrailOf(points[..|points| - 1]), points[|points| - 1])
  }

  /** The trail always holds the most recent points, at most TrailCap of them. */
  lemma {:induction false} TrailKeepsLatest(points: seq<Point>)
    ensures |TrailOf(points)| == if |points| < TrailCap then |points| else TrailCap
    ensures forall k :: 0 <= k < |TrailOf(points)| ==>
      TrailOf(points)[k] == points[|points| - |TrailOf(points)| + k]
  {
    if points != [] {
      var n := |points|;
      var init, p := points[..n - 1], points[n - 1];
      TrailKeepsLatest(init);
      var t := TrailOf(init);
      var r := Trail(t, p);
      assert TrailOf(points) == r;
      var drop := if |t| < TrailCap then 0 else 1;
      forall k | 0 <= k < |r|
        ensures r[k] == points[n - |r| + k]
      {
        assert r[k] == (t + [p])[drop + k];
        if drop + k < |t| {
          assert t[drop + k] == init[n - 1 - |t| + drop + k];
        }
      }
    }
  }
}
