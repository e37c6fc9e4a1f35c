/** The ring of the last `TRAIL_W` positions and the two path statistics behind `path_ineff` and `stall`. */
module Trail {
  import opened Fmath

  const TRAIL_W: nat := 32
  const PE_WINDOW: nat := 20
  const STALL_VREF_FRAC: real := 0.05
  const EPS: real := 0.000000001

  /** The last `n` entries, or all of them when there are fewer. */
  function LastN<T>(s: seq<T>, n: nat): (r: seq<T>)
    ensures |r| == if |s| < n then |s| else n
    ensures forall i :: 0 <= i < |r| ==> r[i] == s[|s| - |r| + i]
  {
    if |s| < n then s else s[|s| - n..]
  }

  /** Straight-line displacement over the last `w` of the `d`-dimensional samples `h`. */
  function Net(f: real -> real, h: seq<Vec>, d: nat, w: nat): real
    requires forall i :: 0 <= i < |h| ==> |h[i]| == d
  {
    if w == 0 || w > TRAIL_W || |h| < w then 0.0 else Dist(f, h[|h| - 1], h[|h| - w], d)
  }

  /** Length of the polyline `h[a], h[a + 1], .., h[b]`. */
  function Polyline(f: real -> real, h: seq<Vec>, d: nat, a: nat, b: nat): real
    requires a <= b < |h| && forall i :: 0 <= i < |h| ==> |h[i]| == d
    decreases b - a
  {
    if a == b then 0.0 else Polyline(f, h, d, a, b - 1) + Dist(f, h[b - 1], h[b], d)
  }

  function Path(f: real -> real, h: seq<Vec>, d: nat, w: nat): real
    requires forall i :: 0 <= i < |h| ==> |h[i]| == d
  {
    if w < 2 || w > TRAIL_W || |h| < w then 0.0 else Polyline(f, h, d, |h| - w, |h| - 1)
  }

  // ---- the laws -------------------------------------------------------------------------------------------

  /** The chord of a polyline is no longer than the polyline. */
  lemma {:induction false} ChordBelowPolyline(f: real -> real, h: seq<Vec>, d: nat, a: nat, b: nat)
    requires IsSqrt(f) && a <= b < |h| && forall i :: 0 <= i < |h| ==> |h[i]| == d
    ensures 0.0 <= Dist(f, h[b], h[a], d) <= Polyline(f, h, d, a, b)
    decreases b - a
  {
    hide Mul, Dist;
    DistNonNegative(f, h[b], h[a], d);
    if a == b {
      DistSelf(f, h[a], d);
    } else {
      ChordBelowPolyline(f, h, d, a, b - 1);
      Triangle(f, h[b], h[b - 1], h[a], d);
      DistSymmetric(f, h[b], h[b - 1], d);
    }
  }

  lemma DistSymmetric(f: real -> real, a: Vec, b: Vec, n: nat)
    requires n <= |a| && n <= |b|
    ensures Dist(f, a, b, n) == Dist(f, b, a, n)
  {
    SqDistSymmetric(a, b, n);
  }

  /** Net displacement never exceeds path length, in any dimension and for every window. */
  lemma NetBelowPath(f: real -> real, h: seq<Vec>, d: nat, w: nat)
    requires IsSqrt(f) && forall i :: 0 <= i < |h| ==> |h[i]| == d
    ensures 0.0 <= Net(f, h, d, w) <= Path(f, h, d, w)
  {
    hide Mul, Dist;
    if 1 <= w <= TRAIL_W && w <= |h| {
      ChordBelowPolyline(f, h, d, |h| - w, |h| - 1);
      if w == 1 {
        DistSelf(f, h[|h| - 1], d);
      }
    }
  }

  lemma {:induction false} PolylineOfSuffix(f: real -> real, h: seq<Vec>, d: nat, k: nat, a: nat, b: nat)
    requires k <= |h| && a <= b < |h| - k && forall i :: 0 <= i < |h| ==> |h[i]| == d
    ensures Polyline(f, h[k..], d, a, b) == Polyline(f, h, d, k + a, k + b)
    decreases b - a
  {
    if a < b { PolylineOfSuffix(f, h, d, k, a, b - 1); }
  }

  /** The statistics of the last 32 samples are those of the whole history. */
  lemma RingIsEnough(f: real -> real, h: seq<Vec>, d: nat, w: nat)
    requires forall i :: 0 <= i < |h| ==> |h[i]| == d
    ensures Net(f, LastN(h, TRAIL_W), d, w) == Net(f, h, d, w)
    ensures Path(f, LastN(h, TRAIL_W), d, w) == Path(f, h, d, w)
  {
    hide Mul, Dist;
    if TRAIL_W <= |h| && 2 <= w <= TRAIL_W {
      PolylineOfSuffix(f, h, d, |h| - TRAIL_W, TRAIL_W - w, TRAIL_W - 1);
    }
  }

  function PathIneff(n: real, p: real): real { 1.0 - n / Max(p, EPS) }

  function Stall(n: real, denom: real): real
    requires denom != 0.0
  {
    1.0 - Min(1.0, n / denom)
  }

  lemma QuotientInUnit(x: real, y: real)
    requires 0.0 <= x <= y && 0.0 < y
    ensures 0.0 <= x / y <= 1.0
  {
    var s := x / y;
    assert s * y == x;
    if s < 0.0 {
      MulPositive(-s, y);
    } else if 1.0 < s {
      MulPositive(s - 1.0, y);
    }
  }

  lemma QuotientNonNegative(x: real, y: real)
    requires 0.0 <= x && 0.0 < y
    ensures 0.0 <= x / y
  {
    var s := x / y;
    assert s * y == x;
    if s < 0.0 {
      MulPositive(-s, y);
    }
  }

  // ---- the ring -------------------------------------------------------------------------------------------

  /** Slot of the sample `k` steps older than the newest, when the next one goes to `head`. */
  function Slot(head: nat, k: nat): (r: nat)
    requires k < TRAIL_W
    ensures r < TRAIL_W
  {
    (head + TRAIL_W - 1 - k) % TRAIL_W
  }

  /** A push makes the newest the next one older; only the oldest of a full ring loses its slot. */
  lemma NextSlot(head: nat, k: nat)
    requires head < TRAIL_W && k < TRAIL_W
    ensures Slot((head + 1) % TRAIL_W, k) == if k == 0 then head else Slot(head, k - 1)
    ensures k > 0 ==> Slot(head, k - 1) != head
  {}

  class Ring {
    const buf: array<Vec>
    var head: nat
    var len: nat
    ghost const d: nat
    /** every position pushed since the last clear, oldest first */
    ghost var history: seq<Vec>

    constructor (ghost d0: nat)
      ensures Valid() && fresh(buf) && history == [] && d == d0
    {
      buf := new Vec[TRAIL_W](_ => []);
      head, len := 0, 0;
      d := d0;
      history := [];
    }

    function SlotBack(k: nat): nat
      requires k < TRAIL_W
      reads this
    {
      Slot(head, k)
    }

    /** The ring holds the last `min(32, pushes)` positions, newest at `SlotBack(0)`. */
    ghost predicate Valid()
      reads this, buf
    {
      && buf.Length == TRAIL_W && head < TRAIL_W
      && len == (if |history| < TRAIL_W then |history| else TRAIL_W)
      && (forall i :: 0 <= i < |history| ==> |history[i]| == d)
      && (forall k :: 0 <= k < len ==> buf[SlotBack(k)] == history[|history| - 1 - k])
    }

    method Push(p: Vec)
      requires Valid() && |p| == d
      modifies this`head, this`len, this`history, buf
      ensures Valid() && history == old(history) + [p]
    {
      hide Slot;
      ghost var h := head;
      buf[head] := p;
      head := (head + 1) % TRAIL_W;
      if len < TRAIL_W {
        len := len + 1;
      }
      history := history + [p];
      forall k | 0 <= k < len
        ensures buf[SlotBack(k)] == history[|history| - 1 - k]
      {
        NextSlot(h, k);
        if k > 0 { assert SlotBack(k) == old(SlotBack(k - 1)); }
      }
    }

    method Clear()
      requires Valid()
      modifies this`head, this`len, this`history
      ensures Valid() && history == []
    {
      head, len, history := 0, 0, [];
    }

    method NetOf(f: real -> real, w: nat) returns (r: real)
      requires Valid()
      ensures r == Net(f, history, d, w)
    {
      if w == 0 || w > TRAIL_W || len < w {
        return 0.0;
      }
      var newest, oldest := SlotBack(0), SlotBack(w - 1);
      r := DistLoop(f, buf[newest], buf[oldest], |buf[newest]|);
    }

    /** Sum of the consecutive distances over the last `w` samples, oldest to newest. */
    method PathOf(f: real -> real, w: nat) returns (acc: real)
      requires Valid()
      ensures acc == Path(f, history, d, w)
    {
      hide Mul, Dist;
      if w < 2 || w > TRAIL_W || len < w {
        return 0.0;
      }
      acc := 0.0;
      var k := w - 1;
      while k >= 1
        invariant 0 <= k <= w - 1
        invariant acc == Polyline(f, history, d, |history| - w, |history| - 1 - k)
      {
        var older, newer := SlotBack(k), SlotBack(k - 1);
        assert buf[older] == history[|history| - 1 - k] && buf[newer] == history[|history| - k];
        var step := DistLoop(f, buf[older], buf[newer], |buf[older]|);
        acc := acc + step;
        k := k - 1;
      }
    }

    /** The two trail features. They are valid from 20 samples on and then lie in the unit interval. */
    method Features(f: real -> real, normScaleIso: real, dt: real)
      returns (valid: bool, pathIneff: real, stall: real)
      requires Valid() && IsSqrt(f) && 0.0 < normScaleIso && 0.0 < dt
      ensures valid <==> |history| >= PE_WINDOW
      ensures valid ==>
        && pathIneff == PathIneff(Net(f, history, d, PE_WINDOW), Path(f, history, d, PE_WINDOW))
        && stall == Stall(Net(f, history, d, PE_WINDOW), StallDenom(normScaleIso, dt))
        && 0.0 <= pathIneff <= 1.0 && 0.0 <= stall <= 1.0
    {
      hide Mul, Dist, Net, Path;
      valid, pathIneff, stall := len >= PE_WINDOW, 0.0, 0.0;
      if valid {
        var n := NetOf(f, PE_WINDOW);
        var p := PathOf(f, PE_WINDOW);
        NetBelowPath(f, history, d, PE_WINDOW);
        QuotientInUnit(n, Max(p, EPS));
        pathIneff := PathIneff(n, p);
        var denom := StallDenom(normScaleIso, dt);
        QuotientNonNegative(n, denom);
        stall := Stall(n, denom);
      }
    }
  }

  /** `v_ref * PE_WINDOW * dt` with `v_ref = STALL_VREF_FRAC * norm_scale_iso / dt`. */
  function StallDenom(normScaleIso: real, dt: real): (r: real)
    requires 0.0 < normScaleIso && 0.0 < dt
    ensures r == STALL_VREF_FRAC * normScaleIso * (PE_WINDOW as real) && 0.0 < r
  {
    Cancel(STALL_VREF_FRAC * normScaleIso, dt);
    STALL_VREF_FRAC * normScaleIso / dt * (PE_WINDOW as real) * dt
  }

  lemma Cancel(x: real, y: real)
    requires 0.0 < y
    ensures x / y * (PE_WINDOW as real) * y == x * (PE_WINDOW as real)
  {
    assert x / y * y == x;
    assert x / y * (PE_WINDOW as real) * y == (x / y * y) * (PE_WINDOW as real);
  }
}
