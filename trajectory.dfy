/**
  The trajectory smoother of `mainProcess`: the bounded history of motion
  deltas (`vPointsInTime`) and the per-axis clamp of the residual.

  Motion deltas are `cv::Point3f` values (translation x, y and rotation z);
  they are modelled over the reals, so float rounding is not captured.
*/
module Trajectory {

  /** A motion delta: horizontal and vertical translation and a rotation angle. */
  datatype Delta = Delta(x: real, y: real, z: real)

  /** The value a default-constructed `cv::Point3f` holds. */
  const Zero: Delta := Delta(0.0, 0.0, 0.0)

  /** Component-wise difference, as `cv::Point3f`'s `operator-`. */
  function Sub(a: Delta, b: Delta): Delta {
    Delta(a.x - b.x, a.y - b.y, a.z - b.z)
  }

  function Abs(v: real): real {
    if v < 0.0 then -v else v
  }

  /** `signnum_typical`, taken to be the usual sign: -1, 0 or 1. */
  function Sign(v: real): (s: real)
    ensures (s > 0.0 <==> v > 0.0) && (s < 0.0 <==> v < 0.0)
    ensures Abs(s) <= 1.0
    ensures v != 0.0 ==> Abs(s) == 1.0
  {
    if v > 0.0 then 1.0 else if v < 0.0 then -1.0 else 0.0
  }

  // ---------------------------------------------------------------------------
  // History (lines 11 and 117-119)

  /** The history as the deque is constructed: `limit` default-constructed deltas. */
  function InitialHistory(limit: nat): (h: seq<Delta>)
    ensures |h| == limit
    ensures forall k :: 0 <= k < |h| ==> h[k] == Zero
  {
    seq(limit, _ => Zero)
  }

  /**
    One update of the history: drop the oldest entry when the deque holds
    `limit` or more, then append `d`. Popping an empty deque is undefined,
    hence the precondition.
  */
  function Pushed(h: seq<Delta>, d: Delta, limit: nat): (r: seq<Delta>)
    requires |h| >= limit ==> h != []
    ensures |r| == (if |h| >= limit then |h| else |h| + 1)
    ensures r[|r| - 1] == d
  {
    if |h| >= limit then h[1..] + [d] else h + [d]
  }

  /** The history after pushing every delta of `ds`, oldest first. */
  function PushAll(h: seq<Delta>, ds: seq<Delta>, limit: nat): (r: seq<Delta>)
    requires limit >= 1
    ensures |h| <= limit ==> |r| <= limit
    ensures ds != [] ==> r != [] && r[|r| - 1] == ds[|ds| - 1]
  {
    if ds == [] then h
    else Pushed(PushAll(h, ds[..|ds| - 1], limit), ds[|ds| - 1], limit)
  }

  /** The history after each push of `ds` in turn: entry `k` follows `ds[k]`. */
  function Trail(h: seq<Delta>, ds: seq<Delta>, limit: nat): (hs: seq<seq<Delta>>)
    requires limit >= 1
    ensures |hs| == |ds|
  {
    if ds == [] then [] else Trail(h, ds[..|ds| - 1], limit) + [PushAll(h, ds, limit)]
  }

  /** Entry `k` of the trail is the history once the first `k + 1` deltas are pushed. */
  lemma {:induction false} TrailAt(h: seq<Delta>, ds: seq<Delta>, limit: nat, k: nat)
    requires limit >= 1 && k < |ds|
    ensures Trail(h, ds, limit)[k] == PushAll(h, ds[..k + 1], limit)
  {
    var n := |ds|;
    if k == n - 1 {
      assert ds[..k + 1] == ds;
    } else {
      TrailAt(h, ds[..n - 1], limit, k);
      assert ds[..n - 1][..k + 1] == ds[..k + 1];
    }
  }

  /** A push keeps a full history full, ends it with `d`, and shifts the rest by one. */
  lemma PushedFull(h: seq<Delta>, d: Delta, limit: nat)
    requires limit >= 1 && |h| == limit
    ensures |Pushed(h, d, limit)| == limit
    ensures Pushed(h, d, limit)[limit - 1] == d
    ensures forall k :: 0 <= k < limit - 1 ==> Pushed(h, d, limit)[k] == h[k + 1]
  {
  }

  /** Below the limit a push only appends. */
  lemma PushedGrows(h: seq<Delta>, d: Delta, limit: nat)
    requires |h| < limit
    ensures Pushed(h, d, limit) == h + [d]
  {
  }

  /**
    Starting from a full history, the history after any pushes is the last
    `limit` entries of the old history followed by the pushed deltas.
  */
  lemma {:induction false} PushAllWindow(h: seq<Delta>, ds: seq<Delta>, limit: nat)
    requires limit >= 1 && |h| == limit
    ensures PushAll(h, ds, limit) == (h + ds)[|ds|..]
  {
    if ds != [] {
      var n := |ds|;
      var front := ds[..n - 1];
      PushAllWindow(h, front, limit);
      var w := PushAll(h, front, limit);
      assert w == (h + front)[n - 1..];
      assert h + ds == (h + front) + [ds[n - 1]];
      assert w[1..] + [ds[n - 1]] == (h + ds)[n..];
    }
  }

  /**
    After at least `limit` pushes into a full history, it holds exactly the
    `limit` most recent deltas, in the order they were pushed.
  */
  lemma PushAllRecent(h: seq<Delta>, ds: seq<Delta>, limit: nat)
    requires limit >= 1 && |h| == limit && |ds| >= limit
    ensures PushAll(h, ds, limit) == ds[|ds| - limit..]
  {
    PushAllWindow(h, ds, limit);
    assert (h + ds)[|ds|..] == ds[|ds| - limit..];
  }

  /**
    From any history no longer than the limit, the size after the pushes is
    the old size plus the number of pushes, capped at the limit.
  */
  lemma {:induction false} PushAllSize(h: seq<Delta>, ds: seq<Delta>, limit: nat)
    requires limit >= 1 && |h| <= limit
    ensures |PushAll(h, ds, limit)| == if |h| + |ds| <= limit then |h| + |ds| else limit
  {
    if ds != [] {
      PushAllSize(h, ds[..|ds| - 1], limit);
    }
  }

  // ---------------------------------------------------------------------------
  // Clamp (lines 123-126)

  /**
    One axis of the clamp: a value further than `thresh` from zero is replaced
    by `thresh` with the value's sign; any other value is kept.
  */
  function ClampAxis(v: real, thresh: real): (r: real)
    ensures thresh >= 0.0 ==> Abs(r) <= thresh
    ensures Abs(v) <= thresh ==> r == v
    ensures Abs(v) > thresh >= 0.0 ==> r == (if v > 0.0 then thresh else -thresh)
  {
    if Abs(v) > thresh then thresh * Sign(v) else v
  }

  /** The clamp on a delta: x and y are clamped, the rotation z is never touched. */
  function Clamp(d: Delta, thresh: real): (r: Delta)
    ensures r.z == d.z
  {
    Delta(ClampAxis(d.x, thresh), ClampAxis(d.y, thresh), d.z)
  }

  /** With a non-negative threshold the clamped translation lies within it. */
  lemma ClampBounded(d: Delta, thresh: real)
    requires thresh >= 0.0
    ensures Abs(Clamp(d, thresh).x) <= thresh && Abs(Clamp(d, thresh).y) <= thresh
  {
  }

  /** A delta whose translation is already within the threshold is left as it is. */
  lemma ClampKeepsInRange(d: Delta, thresh: real)
    requires Abs(d.x) <= thresh && Abs(d.y) <= thresh
    ensures Clamp(d, thresh) == d
  {
  }

  /** Clamping twice is clamping once. */
  lemma ClampIdempotent(d: Delta, thresh: real)
    requires thresh >= 0.0
    ensures Clamp(Clamp(d, thresh), thresh) == Clamp(d, thresh)
  {
  }
}
