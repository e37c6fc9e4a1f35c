/** Tier-0 geometric limits and the sequential projection. The specification says which checks trip on a raw
    chunk and what each projected row is; the methods compute both in place, row by row. */
module Tier0 {
  import opened Options
  import opened Fmath
  import opened Core

  /** Which checks are armed for one call; `contact` also needs the agent inside the contact radius. */
  datatype Arm = Arm(
    workspace: bool, speed: bool, accel: bool, jerk: bool, reach: bool, contact: bool, stepContact: real)

  datatype Tier0Out = Tier0Out(trips: Trips, clampedDims: set<nat>, peakSpeed: real)

  predicate NearContact(cfg: FuseConfig, obs: Obs) {
    && CONTACT in cfg.tier0Enabled && cfg.contact.Some?
    && 2 <= |obs.pos| && cfg.contact.value.aux0 < |obs.aux| && cfg.contact.value.aux1 < |obs.aux|
    && Dist(cfg.sqrt, obs.pos, [obs.aux[cfg.contact.value.aux0], obs.aux[cfg.contact.value.aux1]], 2)
       <= cfg.contact.value.radius
  }

  function Resolve(cfg: FuseConfig, obs: Obs): Arm {
    var en := cfg.tier0Enabled;
    var near := NearContact(cfg, obs);
    Arm(WORKSPACE in en, SPEED in en, ACCEL in en, JERK in en, REACH in en,
        near, if near then cfg.contact.value.vMax * cfg.dt else 0.0)
  }

  /** The shortest armed leash. */
  function Leash(arm: Arm, stepMax: real): Option<real> {
    if arm.speed && arm.contact then Some(Min(stepMax, arm.stepContact))
    else if arm.speed then Some(stepMax)
    else if arm.contact then Some(arm.stepContact)
    else None
  }

  // ---- specification: trips on the raw rows ---------------------------------------------------------------

  /** The row before row `i`; the measured position stands before row 0. */
  function Before(pos: Vec, rows: seq<Vec>, i: nat): Vec
    requires i < |rows|
  {
    if i == 0 then pos else rows[i - 1]
  }

  predicate Rows(cfg: FuseConfig, pos: Vec, rows: seq<Vec>) {
    |pos| == cfg.dim && forall i :: 0 <= i < |rows| ==> |rows[i]| == cfg.dim
  }

  function StepLength(cfg: FuseConfig, pos: Vec, rows: seq<Vec>, i: nat): real
    requires Rows(cfg, pos, rows) && i < |rows|
  {
    Dist(cfg.sqrt, rows[i], Before(pos, rows, i), cfg.dim)
  }

  predicate Outside(cfg: FuseConfig, a: Vec)
    requires |cfg.boxLo| == |cfg.boxHi| == |a|
  {
    exists c :: 0 <= c < |a| && (a[c] < cfg.boxLo[c] || a[c] > cfg.boxHi[c])
  }

  function SecondDiff(a1: Vec, a0: Vec, am1: Vec): Vec
    requires |a1| == |a0| == |am1|
  {
    seq(|a1|, c requires 0 <= c < |a1| => a1[c] - 2.0 * a0[c] + am1[c])
  }

  function ThirdDiff(a2: Vec, a1: Vec, a0: Vec, am1: Vec): Vec
    requires |a2| == |a1| == |a0| == |am1|
  {
    seq(|a2|, c requires 0 <= c < |a2| => a2[c] - 3.0 * a1[c] + 3.0 * a0[c] - am1[c])
  }

  predicate AccelAt(cfg: FuseConfig, pos: Vec, rows: seq<Vec>, i: nat)
    requires Rows(cfg, pos, rows) && i + 1 < |rows|
  {
    Norm(cfg.sqrt, SecondDiff(rows[i + 1], rows[i], Before(pos, rows, i)), cfg.dim) * cfg.invDt2 > cfg.aMax
  }

  predicate JerkAt(cfg: FuseConfig, pos: Vec, rows: seq<Vec>, i: nat)
    requires Rows(cfg, pos, rows) && i + 2 < |rows|
  {
    Norm(cfg.sqrt, ThirdDiff(rows[i + 2], rows[i + 1], rows[i], Before(pos, rows, i)), cfg.dim) * cfg.invDt3
    > cfg.jMax
  }

  predicate SpeedTrips(cfg: FuseConfig, arm: Arm, pos: Vec, rows: seq<Vec>)
    requires Rows(cfg, pos, rows)
  {
    arm.speed && exists i :: 0 <= i < |rows| && StepLength(cfg, pos, rows, i) > cfg.stepMax
  }

  predicate ContactTrips(cfg: FuseConfig, arm: Arm, pos: Vec, rows: seq<Vec>)
    requires Rows(cfg, pos, rows)
  {
    arm.contact && exists i :: 0 <= i < |rows| && StepLength(cfg, pos, rows, i) > arm.stepContact
  }

  predicate WorkspaceTrips(cfg: FuseConfig, arm: Arm, pos: Vec, rows: seq<Vec>)
    requires Rows(cfg, pos, rows) && |cfg.boxLo| == |cfg.boxHi| == cfg.dim
  {
    arm.workspace && exists i :: 0 <= i < |rows| && Outside(cfg, rows[i])
  }

  predicate AccelTrips(cfg: FuseConfig, arm: Arm, pos: Vec, rows: seq<Vec>)
    requires Rows(cfg, pos, rows)
  {
    arm.accel && exists i :: 0 <= i < |rows| - 1 && AccelAt(cfg, pos, rows, i)
  }

  predicate JerkTrips(cfg: FuseConfig, arm: Arm, pos: Vec, rows: seq<Vec>)
    requires Rows(cfg, pos, rows)
  {
    arm.jerk && exists i :: 0 <= i < |rows| - 2 && JerkAt(cfg, pos, rows, i)
  }

  predicate ReachTrips(cfg: FuseConfig, arm: Arm, pos: Vec, rows: seq<Vec>)
    requires Rows(cfg, pos, rows)
  {
    arm.reach && rows != [] && Dist(cfg.sqrt, rows[0], pos, cfg.dim) > cfg.reachMax
  }

  function If(b: bool, t: Trip): Trips { if b then {t} else {} }

  function StepTrips(cfg: FuseConfig, arm: Arm, pos: Vec, rows: seq<Vec>): Trips
    requires Rows(cfg, pos, rows) && |cfg.boxLo| == |cfg.boxHi| == cfg.dim
  {
    If(SpeedTrips(cfg, arm, pos, rows), SPEED) + If(ContactTrips(cfg, arm, pos, rows), CONTACT)
    + If(WorkspaceTrips(cfg, arm, pos, rows), WORKSPACE)
  }

  function RawTrips(cfg: FuseConfig, arm: Arm, pos: Vec, rows: seq<Vec>): Trips
    requires Rows(cfg, pos, rows) && |cfg.boxLo| == |cfg.boxHi| == cfg.dim
  {
    StepTrips(cfg, arm, pos, rows) + If(AccelTrips(cfg, arm, pos, rows), ACCEL)
    + If(JerkTrips(cfg, arm, pos, rows), JERK) + If(ReachTrips(cfg, arm, pos, rows), REACH)
  }

  /** The longest commanded step, at least 0. */
  function PeakStep(cfg: FuseConfig, pos: Vec, rows: seq<Vec>, n: nat): real
    requires Rows(cfg, pos, rows) && n <= |rows|
  {
    if n == 0 then 0.0 else Max(PeakStep(cfg, pos, rows, n - 1), StepLength(cfg, pos, rows, n - 1))
  }

  // ---- specification: the projection ----------------------------------------------------------------------

  /** The factor that lands a step of length `n` just inside `limit`. */
  function ShrinkFactor(limit: real, shrink: real, n: real): real
    requires n != 0.0
  {
    limit * shrink / n
  }

  /** `a` pulled towards `q` until it is `limit * leashShrink` away, when it is more than `limit` away. */
  function Pull(cfg: FuseConfig, q: Vec, a: Vec, limit: real): (r: Vec)
    requires |q| == |a| == cfg.dim
    ensures |r| == cfg.dim
  {
    var n := Dist(cfg.sqrt, a, q, cfg.dim);
    if n > limit && n != 0.0 then Toward(q, a, ShrinkFactor(limit, cfg.leashShrink, n)) else a
  }

  function ProjectedRow(cfg: FuseConfig, arm: Arm, pos: Vec, first: bool, q: Vec, a: Vec): (r: Vec)
    requires |cfg.boxLo| == |cfg.boxHi| == |pos| == |q| == |a| == cfg.dim
    ensures |r| == cfg.dim
  {
    var boxed := if arm.workspace then ClampBox(cfg, a) else a;
    var leash := Leash(arm, cfg.stepMax);
    var leashed := if leash.Some? then Pull(cfg, q, boxed, leash.value) else boxed;
    if first && arm.reach then Pull(cfg, pos, leashed, cfg.reachMax) else leashed
  }

  /** Row `i` of the projected chunk: each row is leashed to the previous projected row. */
  function Projected(cfg: FuseConfig, arm: Arm, pos: Vec, rows: seq<Vec>, i: nat): (r: Vec)
    requires Rows(cfg, pos, rows) && |cfg.boxLo| == |cfg.boxHi| == cfg.dim && i < |rows|
    ensures |r| == cfg.dim
  {
    ProjectedRow(cfg, arm, pos, i == 0, if i == 0 then pos else Projected(cfg, arm, pos, rows, i - 1), rows[i])
  }

  function ProjectedRows(cfg: FuseConfig, arm: Arm, pos: Vec, rows: seq<Vec>): (r: seq<Vec>)
    requires Rows(cfg, pos, rows) && |cfg.boxLo| == |cfg.boxHi| == cfg.dim
    ensures |r| == |rows| && Rows(cfg, pos, r)
    ensures forall i :: 0 <= i < |rows| ==> r[i] == Projected(cfg, arm, pos, rows, i)
  {
    seq(|rows|, i requires 0 <= i < |rows| => Projected(cfg, arm, pos, rows, i))
  }

  /** The coordinates below `n` where `a` differs from `raw`. */
  function MovedNow(raw: Vec, a: Vec, n: nat): set<nat>
    requires n <= |raw| && n <= |a|
  {
    set c: nat | c < n && a[c] != raw[c]
  }

  /** The coordinates in which one of the first `n` rows moved. */
  function MovedDims(d: nat, raw: seq<Vec>, out: seq<Vec>, n: nat): set<nat>
    requires n <= |raw| == |out| && forall i :: 0 <= i < |raw| ==> |raw[i]| == d && |out[i]| == d
  {
    if n == 0 then {} else MovedDims(d, raw, out, n - 1) + MovedNow(raw[n - 1], out[n - 1], d)
  }

  function ChunkOut(cfg: FuseConfig, arm: Arm, pos: Vec, rows: seq<Vec>): (r: seq<Vec>)
    requires Rows(cfg, pos, rows) && |cfg.boxLo| == |cfg.boxHi| == cfg.dim
    ensures |r| == |rows| && Rows(cfg, pos, r)
  {
    if cfg.clamp == Project then ProjectedRows(cfg, arm, pos, rows) else rows
  }

  function CheckedChunk(cfg: FuseConfig, obs: Obs, rows: seq<Vec>): Tier0Out
    requires Rows(cfg, obs.pos, rows) && |cfg.boxLo| == |cfg.boxHi| == cfg.dim
  {
    var arm := Resolve(cfg, obs);
    Tier0Out(RawTrips(cfg, arm, obs.pos, rows),
             MovedDims(cfg.dim, rows, ChunkOut(cfg, arm, obs.pos, rows), |rows|),
             PeakStep(cfg, obs.pos, rows, |rows|) * cfg.invDt)
  }

  /** The per-tick check of one committed row `a` against the previous command `prev`. */
  function ActionTrips(cfg: FuseConfig, arm: Arm, pos: Vec, prev: Vec, a: Vec): Trips
    requires |cfg.boxLo| == |cfg.boxHi| == |pos| == |prev| == |a| == cfg.dim
  {
    var n := Dist(cfg.sqrt, a, prev, cfg.dim);
    If(arm.speed && n > cfg.stepMax, SPEED) + If(arm.contact && n > arm.stepContact, CONTACT)
    + If(arm.workspace && Outside(cfg, a), WORKSPACE)
    + If(arm.reach && Dist(cfg.sqrt, a, pos, cfg.dim) > cfg.reachMax, REACH)
  }

  function ActionOut(cfg: FuseConfig, arm: Arm, pos: Vec, prev: Vec, a: Vec): (r: Vec)
    requires |cfg.boxLo| == |cfg.boxHi| == |pos| == |prev| == |a| == cfg.dim
    ensures |r| == cfg.dim
  {
    if cfg.clamp == Project then ProjectedRow(cfg, arm, pos, true, prev, a) else a
  }

  function CheckedAction(cfg: FuseConfig, obs: Obs, prev: Vec, a: Vec): Tier0Out
    requires |cfg.boxLo| == |cfg.boxHi| == |obs.pos| == |prev| == |a| == cfg.dim
  {
    var arm := Resolve(cfg, obs);
    Tier0Out(ActionTrips(cfg, arm, obs.pos, prev, a),
             MovedNow(a, ActionOut(cfg, arm, obs.pos, prev, a), cfg.dim),
             Dist(cfg.sqrt, a, prev, cfg.dim) * cfg.invDt)
  }

  // ---- laws of one projected row --------------------------------------------------------------------------

  lemma LeashPositive(cfg: FuseConfig, obs: Obs)
    requires cfg.Valid()
    ensures Leash(Resolve(cfg, obs), cfg.stepMax).Some? ==> 0.0 < Leash(Resolve(cfg, obs), cfg.stepMax).value
  {
    if NearContact(cfg, obs) {
      MulPositive(cfg.contact.value.vMax, cfg.dt);
    }
  }

  /** The leash factor is a proper fraction when `n > limit`, and `n` times it is below the limit. */
  lemma ShrinkFraction(limit: real, shrink: real, n: real)
    requires 0.0 < limit < n && 0.0 < shrink < 1.0
    ensures 0.0 <= ShrinkFactor(limit, shrink, n) < 1.0
    ensures Mul(ShrinkFactor(limit, shrink, n), n) < limit
  {
    MulPositive(limit, shrink);
    MulPositive(limit, 1.0 - shrink);
    QuotientBounds(limit * shrink, n);
  }

  lemma QuotientBounds(m: real, n: real)
    requires 0.0 < m < n
    ensures 0.0 <= m / n < 1.0 && Mul(m / n, n) == m
  {
    var s := m / n;
    assert s * n == m;
    if s < 0.0 {
      MulPositive(-s, n);
    } else if 1.0 <= s {
      MulNonNegative(s - 1.0, n);
    }
  }

  /** A pulled row is within the limit of its anchor; it is untouched exactly when it already was, and it never
      ends up further from the anchor. */
  lemma PullLands(cfg: FuseConfig, q: Vec, a: Vec, limit: real)
    requires cfg.Valid() && |q| == |a| == cfg.dim && 0.0 < limit
    ensures Dist(cfg.sqrt, Pull(cfg, q, a, limit), q, cfg.dim) <= limit
    ensures Dist(cfg.sqrt, Pull(cfg, q, a, limit), q, cfg.dim) <= Dist(cfg.sqrt, a, q, cfg.dim)
    ensures Pull(cfg, q, a, limit) == a <==> Dist(cfg.sqrt, a, q, cfg.dim) <= limit
  {
    hide Mul, ShrinkFactor;
    var n := Dist(cfg.sqrt, a, q, cfg.dim);
    if n > limit {
      var s := ShrinkFactor(limit, cfg.leashShrink, n);
      ShrinkFraction(limit, cfg.leashShrink, n);
      DistToward(cfg.sqrt, q, a, s, cfg.dim);
    }
  }

  lemma PullInBox(cfg: FuseConfig, q: Vec, a: Vec, limit: real)
    requires cfg.Valid() && InBox(cfg, q) && InBox(cfg, a) && 0.0 < limit
    ensures InBox(cfg, Pull(cfg, q, a, limit))
  {
    hide Mul, ShrinkFactor;
    var n := Dist(cfg.sqrt, a, q, cfg.dim);
    if n > limit {
      var s := ShrinkFactor(limit, cfg.leashShrink, n);
      ShrinkFraction(limit, cfg.leashShrink, n);
      forall c | 0 <= c < cfg.dim
        ensures cfg.boxLo[c] <= q[c] + Mul(a[c] - q[c], s) <= cfg.boxHi[c]
      {
        BetweenStays(cfg.boxLo[c], cfg.boxHi[c], q[c], a[c], s);
      }
    }
  }

  /** With the workspace armed and both anchors in the box, a projected row is in the box. */
  lemma RowInBox(cfg: FuseConfig, obs: Obs, first: bool, q: Vec, a: Vec)
    requires cfg.Valid() && InBox(cfg, obs.pos) && InBox(cfg, q) && |a| == cfg.dim
    requires WORKSPACE in cfg.tier0Enabled
    ensures InBox(cfg, ProjectedRow(cfg, Resolve(cfg, obs), obs.pos, first, q, a))
  {
    hide Mul;
    LeashPositive(cfg, obs);
    ClampBoxInside(cfg, a);
    var leash := Leash(Resolve(cfg, obs), cfg.stepMax);
    var boxed := ClampBox(cfg, a);
    var leashed := if leash.Some? then Pull(cfg, q, boxed, leash.value) else boxed;
    if leash.Some? {
      PullInBox(cfg, q, boxed, leash.value);
    }
    PullInBox(cfg, obs.pos, leashed, cfg.reachMax);
  }

  /** A leashed row is within the leash of its predecessor, and a first row leashed to the position is also
      within reach of it. */
  lemma RowWithinLeash(cfg: FuseConfig, obs: Obs, first: bool, q: Vec, a: Vec)
    requires cfg.Valid() && |obs.pos| == |q| == |a| == cfg.dim && (first ==> q == obs.pos)
    ensures var leash := Leash(Resolve(cfg, obs), cfg.stepMax);
            var r := ProjectedRow(cfg, Resolve(cfg, obs), obs.pos, first, q, a);
            && (leash.Some? ==> Dist(cfg.sqrt, r, q, cfg.dim) <= leash.value)
            && (first && REACH in cfg.tier0Enabled ==> Dist(cfg.sqrt, r, obs.pos, cfg.dim) <= cfg.reachMax)
  {
    hide Mul;
    LeashPositive(cfg, obs);
    var arm := Resolve(cfg, obs);
    var leash := Leash(arm, cfg.stepMax);
    var boxed := if arm.workspace then ClampBox(cfg, a) else a;
    var leashed := if leash.Some? then Pull(cfg, q, boxed, leash.value) else boxed;
    if leash.Some? {
      PullLands(cfg, q, boxed, leash.value);
    }
    PullLands(cfg, obs.pos, leashed, cfg.reachMax);
  }

  /** What a row must satisfy for the projection to leave it alone. */
  predicate RowPasses(cfg: FuseConfig, arm: Arm, pos: Vec, first: bool, q: Vec, a: Vec)
    requires |cfg.boxLo| == |cfg.boxHi| == |pos| == |q| == |a| == cfg.dim
  {
    && (arm.workspace ==> !Outside(cfg, a))
    && (arm.speed ==> Dist(cfg.sqrt, a, q, cfg.dim) <= cfg.stepMax)
    && (arm.contact ==> Dist(cfg.sqrt, a, q, cfg.dim) <= arm.stepContact)
    && (first && arm.reach ==> Dist(cfg.sqrt, a, pos, cfg.dim) <= cfg.reachMax)
  }

  lemma RowPassesIsKept(cfg: FuseConfig, obs: Obs, first: bool, q: Vec, a: Vec)
    requires cfg.Valid() && |obs.pos| == |q| == |a| == cfg.dim
    requires RowPasses(cfg, Resolve(cfg, obs), obs.pos, first, q, a)
    ensures ProjectedRow(cfg, Resolve(cfg, obs), obs.pos, first, q, a) == a
  {
    hide Mul;
    ClampBoxInside(cfg, a);
    assert Outside(cfg, a) || InBox(cfg, a);
  }

  /** With position and predecessor in the box, a row that fails one of the four checks is moved. */
  lemma RowKeptPasses(cfg: FuseConfig, obs: Obs, first: bool, q: Vec, a: Vec)
    requires cfg.Valid() && |obs.pos| == |q| == |a| == cfg.dim && (first ==> q == obs.pos)
    requires WORKSPACE in cfg.tier0Enabled ==> InBox(cfg, obs.pos) && InBox(cfg, q)
    requires ProjectedRow(cfg, Resolve(cfg, obs), obs.pos, first, q, a) == a
    ensures RowPasses(cfg, Resolve(cfg, obs), obs.pos, first, q, a)
  {
    hide Mul;
    RowWithinLeash(cfg, obs, first, q, a);
    if WORKSPACE in cfg.tier0Enabled {
      RowInBox(cfg, obs, first, q, a);
    }
  }

  // ---- laws of the projected chunk ------------------------------------------------------------------------

  const MOVERS: Trips := {WORKSPACE, SPEED, CONTACT, REACH}

  predicate AllPass(cfg: FuseConfig, arm: Arm, pos: Vec, rows: seq<Vec>)
    requires Rows(cfg, pos, rows) && |cfg.boxLo| == |cfg.boxHi| == cfg.dim
  {
    forall i :: 0 <= i < |rows| ==> RowPasses(cfg, arm, pos, i == 0, Before(pos, rows, i), rows[i])
  }

  /** The four trip bits that move rows are all clear exactly when every raw row passes the projection. */
  lemma NoMoversIsAllPass(cfg: FuseConfig, arm: Arm, pos: Vec, rows: seq<Vec>)
    requires cfg.Valid() && Rows(cfg, pos, rows)
    ensures RawTrips(cfg, arm, pos, rows) !! MOVERS <==> AllPass(cfg, arm, pos, rows)
  {
    hide RawTrips, RowPasses;
    if AllPass(cfg, arm, pos, rows) {
      PassingTripsNothing(cfg, arm, pos, rows);
    } else {
      var i :| 0 <= i < |rows| && !RowPasses(cfg, arm, pos, i == 0, Before(pos, rows, i), rows[i]);
      FailingTrips(cfg, arm, pos, rows, i);
    }
  }

  lemma PassingTripsNothing(cfg: FuseConfig, arm: Arm, pos: Vec, rows: seq<Vec>)
    requires cfg.Valid() && Rows(cfg, pos, rows) && AllPass(cfg, arm, pos, rows)
    ensures RawTrips(cfg, arm, pos, rows) !! MOVERS
  {
    hide Mul, Dist, Outside;
    forall i | 0 <= i < |rows|
      ensures (arm.speed ==> StepLength(cfg, pos, rows, i) <= cfg.stepMax)
           && (arm.contact ==> StepLength(cfg, pos, rows, i) <= arm.stepContact)
           && (arm.workspace ==> !Outside(cfg, rows[i]))
    {
      assert RowPasses(cfg, arm, pos, i == 0, Before(pos, rows, i), rows[i]);
    }
    assert rows != [] ==> RowPasses(cfg, arm, pos, true, pos, rows[0]);
  }

  lemma FailingTrips(cfg: FuseConfig, arm: Arm, pos: Vec, rows: seq<Vec>, i: nat)
    requires cfg.Valid() && Rows(cfg, pos, rows) && i < |rows|
    requires !RowPasses(cfg, arm, pos, i == 0, Before(pos, rows, i), rows[i])
    ensures !(RawTrips(cfg, arm, pos, rows) !! MOVERS)
  {
    hide Mul, Dist, Outside;
    var trips := RawTrips(cfg, arm, pos, rows);
    assert StepLength(cfg, pos, rows, i) == Dist(cfg.sqrt, rows[i], Before(pos, rows, i), cfg.dim);
    assert SPEED in trips || CONTACT in trips || WORKSPACE in trips || REACH in trips;
  }

  lemma {:induction false} PassingRowKept(cfg: FuseConfig, obs: Obs, rows: seq<Vec>, i: nat)
    requires cfg.Valid() && Rows(cfg, obs.pos, rows) && i < |rows|
    requires AllPass(cfg, Resolve(cfg, obs), obs.pos, rows)
    ensures Projected(cfg, Resolve(cfg, obs), obs.pos, rows, i) == rows[i]
  {
    hide Dist, Mul, ProjectedRow, RowPasses, Resolve;
    if i > 0 {
      PassingRowKept(cfg, obs, rows, i - 1);
    }
    RowPassesIsKept(cfg, obs, i == 0, Before(obs.pos, rows, i), rows[i]);
  }

  /** With the position in the box and the workspace armed, every projected row is in the box. */
  lemma {:induction false} ProjectedInBox(cfg: FuseConfig, obs: Obs, rows: seq<Vec>, i: nat)
    requires cfg.Valid() && Rows(cfg, obs.pos, rows) && i < |rows|
    requires InBox(cfg, obs.pos) && WORKSPACE in cfg.tier0Enabled
    ensures InBox(cfg, Projected(cfg, Resolve(cfg, obs), obs.pos, rows, i))
  {
    var q := obs.pos;
    if i > 0 {
      ProjectedInBox(cfg, obs, rows, i - 1);
      q := Projected(cfg, Resolve(cfg, obs), obs.pos, rows, i - 1);
    }
    RowInBox(cfg, obs, i == 0, q, rows[i]);
  }

  /** Law (a): a chunk that trips none of workspace, speed, contact and reach is passed through unchanged and no
      coordinate is reported as moved. */
  lemma UntrippedUnchanged(cfg: FuseConfig, obs: Obs, rows: seq<Vec>)
    requires cfg.Valid() && Rows(cfg, obs.pos, rows)
    requires CheckedChunk(cfg, obs, rows).trips !! MOVERS
    ensures ChunkOut(cfg, Resolve(cfg, obs), obs.pos, rows) == rows
    ensures CheckedChunk(cfg, obs, rows).clampedDims == {}
  {
    hide Mul, Dist, ProjectedRow, RowPasses, RawTrips;
    var arm := Resolve(cfg, obs);
    var out := ChunkOut(cfg, arm, obs.pos, rows);
    NoMoversIsAllPass(cfg, arm, obs.pos, rows);
    forall i | 0 <= i < |rows|
      ensures out[i] == rows[i]
    {
      PassingRowKept(cfg, obs, rows, i);
    }
    MovedNothing(cfg.dim, rows, out, |rows|);
  }

  /** The converse of law (a), for a position in the box: a chunk whose projection moves no coordinate trips none
      of the four. */
  lemma UnchangedUntripped(cfg: FuseConfig, obs: Obs, rows: seq<Vec>)
    requires cfg.Valid() && cfg.clamp == Project && Rows(cfg, obs.pos, rows) && InBox(cfg, obs.pos)
    requires CheckedChunk(cfg, obs, rows).clampedDims == {}
    ensures CheckedChunk(cfg, obs, rows).trips !! MOVERS
  {
    hide Mul, Dist, ProjectedRow, RowPasses, RawTrips;
    var arm := Resolve(cfg, obs);
    var out := ChunkOut(cfg, arm, obs.pos, rows);
    MovedNothing(cfg.dim, rows, out, |rows|);
    forall i | 0 <= i < |rows|
      ensures RowPasses(cfg, arm, obs.pos, i == 0, Before(obs.pos, rows, i), rows[i])
    {
      assert out[i] == rows[i];
      if i > 0 {
        assert out[i - 1] == rows[i - 1];
        if arm.workspace {
          ProjectedInBox(cfg, obs, rows, i - 1);
        }
      }
      RowKeptPasses(cfg, obs, i == 0, Before(obs.pos, rows, i), rows[i]);
    }
    NoMoversIsAllPass(cfg, arm, obs.pos, rows);
  }

  lemma NothingMovedNow(raw: Vec, a: Vec)
    requires |raw| == |a| && MovedNow(raw, a, |raw|) == {}
    ensures a == raw
  {
    forall c | 0 <= c < |raw|
      ensures a[c] == raw[c]
    {
      assert c !in MovedNow(raw, a, |raw|);
    }
  }

  lemma {:induction false} MovedNothing(d: nat, raw: seq<Vec>, out: seq<Vec>, n: nat)
    requires n <= |raw| == |out| && forall i :: 0 <= i < |raw| ==> |raw[i]| == d && |out[i]| == d
    ensures MovedDims(d, raw, out, n) == {} <==> forall i :: 0 <= i < n ==> out[i] == raw[i]
  {
    if n > 0 {
      MovedNothing(d, raw, out, n - 1);
      if MovedNow(raw[n - 1], out[n - 1], d) == {} {
        NothingMovedNow(raw[n - 1], out[n - 1]);
      }
    }
  }

  /** Law (b): consecutive projected rows are within the armed leash, and row 0 is within the leash and the reach
      of the position. */
  lemma ProjectedWithinLeash(cfg: FuseConfig, obs: Obs, rows: seq<Vec>, i: nat)
    requires cfg.Valid() && cfg.clamp == Project && Rows(cfg, obs.pos, rows) && i < |rows|
    ensures var arm := Resolve(cfg, obs);
            var out := ChunkOut(cfg, arm, obs.pos, rows);
            && (arm.speed ==> StepLength(cfg, obs.pos, out, i) <= cfg.stepMax)
            && (arm.contact ==> StepLength(cfg, obs.pos, out, i) <= arm.stepContact)
            && (i == 0 && arm.reach ==> Dist(cfg.sqrt, out[0], obs.pos, cfg.dim) <= cfg.reachMax)
  {
    hide Mul, Dist;
    var arm := Resolve(cfg, obs);
    var q := if i == 0 then obs.pos else Projected(cfg, arm, obs.pos, rows, i - 1);
    RowWithinLeash(cfg, obs, i == 0, q, rows[i]);
  }

  /** Law (c): with the position in the box, re-checking a projected chunk raises none of the four bits and
      changes nothing. */
  lemma ProjectionIsStable(cfg: FuseConfig, obs: Obs, rows: seq<Vec>)
    requires cfg.Valid() && cfg.clamp == Project && Rows(cfg, obs.pos, rows) && InBox(cfg, obs.pos)
    ensures var out := ChunkOut(cfg, Resolve(cfg, obs), obs.pos, rows);
            var again := CheckedChunk(cfg, obs, out);
            && again.trips !! MOVERS && again.clampedDims == {}
            && ChunkOut(cfg, Resolve(cfg, obs), obs.pos, out) == out
  {
    hide Mul, Dist;
    var arm := Resolve(cfg, obs);
    var out := ChunkOut(cfg, arm, obs.pos, rows);
    forall i | 0 <= i < |out|
      ensures RowPasses(cfg, arm, obs.pos, i == 0, Before(obs.pos, out, i), out[i])
    {
      ProjectedWithinLeash(cfg, obs, rows, i);
      if arm.workspace {
        ProjectedInBox(cfg, obs, rows, i);
      }
    }
    NoMoversIsAllPass(cfg, arm, obs.pos, out);
    UntrippedUnchanged(cfg, obs, out);
  }

  // ---- the algorithms -------------------------------------------------------------------------------------

  method OutsideBox(cfg: FuseConfig, a: Vec) returns (r: bool)
    requires |cfg.boxLo| == |cfg.boxHi| == |a|
    ensures r == Outside(cfg, a)
  {
    var c := 0;
    while c < |a|
      invariant c <= |a|
      invariant forall k :: 0 <= k < c ==> cfg.boxLo[k] <= a[k] <= cfg.boxHi[k]
    {
      if a[c] < cfg.boxLo[c] || a[c] > cfg.boxHi[c] {
        return true;
      }
      c := c + 1;
    }
    return false;
  }

  /** The coordinates where `a` differs from `raw`, added to `acc`. */
  method AddMoved(raw: Vec, a: Vec, acc: set<nat>) returns (m: set<nat>)
    requires |raw| == |a|
    ensures m == acc + MovedNow(raw, a, |raw|)
  {
    m := acc;
    var c := 0;
    while c < |raw|
      invariant c <= |raw|
      invariant m == acc + MovedNow(raw, a, c)
    {
      if a[c] != raw[c] {
        m := m + {c};
      }
      c := c + 1;
    }
  }

  method PullInPlace(cfg: FuseConfig, q: Vec, a: array<real>, limit: real)
    requires |q| == a.Length == cfg.dim && 0.0 < limit
    modifies a
    ensures a[..] == Pull(cfg, q, old(a[..]), limit)
  {
    ghost var was := a[..];
    var n := DistLoop(cfg.sqrt, a[..], q, cfg.dim);
    if n > limit {
      var s := ShrinkFactor(limit, cfg.leashShrink, n);
      var c := 0;
      while c < cfg.dim
        invariant c <= cfg.dim
        invariant forall k :: 0 <= k < c ==> a[k] == Toward(q, was, s)[k]
        invariant forall k :: c <= k < cfg.dim ==> a[k] == was[k]
      {
        a[c] := q[c] + Mul(a[c] - q[c], s);
        c := c + 1;
      }
      assert a[..] == Toward(q, was, s);
    }
  }

  /** One row of the sequential leash, in place: box clamp, leash towards `q`, reach pull towards `pos`. */
  method ProjectRow(cfg: FuseConfig, arm: Arm, leash: Option<real>, pos: Vec, first: bool, q: Vec, a: array<real>)
    requires |cfg.boxLo| == |cfg.boxHi| == |pos| == |q| == a.Length == cfg.dim && 0.0 < cfg.reachMax
    requires leash == Leash(arm, cfg.stepMax) && (leash.Some? ==> 0.0 < leash.value)
    modifies a
    ensures a[..] == ProjectedRow(cfg, arm, pos, first, q, old(a[..]))
  {
    ghost var was := a[..];
    if arm.workspace {
      var c := 0;
      while c < cfg.dim
        invariant c <= cfg.dim
        invariant forall k :: 0 <= k < c ==> a[k] == ClampBox(cfg, was)[k]
        invariant forall k :: c <= k < cfg.dim ==> a[k] == was[k]
      {
        a[c] := Clamp(a[c], cfg.boxLo[c], cfg.boxHi[c]);
        c := c + 1;
      }
      assert a[..] == ClampBox(cfg, was);
    }
    if leash.Some? {
      PullInPlace(cfg, q, a, leash.value);
    }
    if first && arm.reach {
      PullInPlace(cfg, pos, a, cfg.reachMax);
    }
  }

  method StepOf(cfg: FuseConfig, pos: Vec, rows: seq<Vec>, i: nat) returns (n: real)
    requires Rows(cfg, pos, rows) && i < |rows|
    ensures n == StepLength(cfg, pos, rows, i)
  {
    n := DistLoop(cfg.sqrt, rows[i], if i == 0 then pos else rows[i - 1], cfg.dim);
  }

  /** Trips of the first loop over the raw rows, and the longest step. */
  method ScanSteps(cfg: FuseConfig, arm: Arm, pos: Vec, rows: seq<Vec>) returns (trips: Trips, peak: real)
    requires Rows(cfg, pos, rows) && |cfg.boxLo| == |cfg.boxHi| == cfg.dim
    ensures trips == StepTrips(cfg, arm, pos, rows)
    ensures peak == PeakStep(cfg, pos, rows, |rows|)
  {
    hide Mul, Dist, Outside, StepLength;
    var speed, contact, workspace := false, false, false;
    peak := 0.0;
    var i := 0;
    while i < |rows|
      invariant i <= |rows|
      invariant speed <==> arm.speed && exists k :: 0 <= k < i && StepLength(cfg, pos, rows, k) > cfg.stepMax
      invariant contact <==> arm.contact && exists k :: 0 <= k < i && StepLength(cfg, pos, rows, k) > arm.stepContact
      invariant workspace <==> arm.workspace && exists k :: 0 <= k < i && Outside(cfg, rows[k])
      invariant peak == PeakStep(cfg, pos, rows, i)
    {
      var n := StepOf(cfg, pos, rows, i);
      peak := Max(peak, n);
      if arm.speed && n > cfg.stepMax {
        speed := true;
      }
      if arm.contact && n > arm.stepContact {
        contact := true;
      }
      var outside := OutsideBox(cfg, rows[i]);
      if arm.workspace && outside {
        workspace := true;
      }
      i := i + 1;
    }
    trips := If(speed, SPEED) + If(contact, CONTACT) + If(workspace, WORKSPACE);
  }

  method ScanAccel(cfg: FuseConfig, arm: Arm, pos: Vec, rows: seq<Vec>) returns (r: bool)
    requires Rows(cfg, pos, rows)
    ensures r == AccelTrips(cfg, arm, pos, rows)
  {
    r := false;
    if arm.accel && |rows| >= 2 {
      var i := 0;
      while i + 1 < |rows|
        invariant i + 1 <= |rows|
        invariant r <==> exists k :: 0 <= k < i && AccelAt(cfg, pos, rows, k)
      {
        var am1 := if i == 0 then pos else rows[i - 1];
        var n := NormLoop(cfg.sqrt, SecondDiff(rows[i + 1], rows[i], am1), cfg.dim);
        if n * cfg.invDt2 > cfg.aMax {
          assert AccelAt(cfg, pos, rows, i);
          r := true;
        }
        i := i + 1;
      }
    }
  }

  method ScanJerk(cfg: FuseConfig, arm: Arm, pos: Vec, rows: seq<Vec>) returns (r: bool)
    requires Rows(cfg, pos, rows)
    ensures r == JerkTrips(cfg, arm, pos, rows)
  {
    r := false;
    if arm.jerk && |rows| >= 3 {
      var i := 0;
      while i + 2 < |rows|
        invariant i + 2 <= |rows|
        invariant r <==> exists k :: 0 <= k < i && JerkAt(cfg, pos, rows, k)
      {
        var am1 := if i == 0 then pos else rows[i - 1];
        var n := NormLoop(cfg.sqrt, ThirdDiff(rows[i + 2], rows[i + 1], rows[i], am1), cfg.dim);
        if n * cfg.invDt3 > cfg.jMax {
          assert JerkAt(cfg, pos, rows, i);
          r := true;
        }
        i := i + 1;
      }
    }
  }

  /** The whole-chunk check at a chunk boundary: trips on the raw rows, the projected rows written into `out`. */
  method CheckChunk(cfg: FuseConfig, obs: Obs, rows: seq<Vec>, out: array<Vec>) returns (res: Tier0Out)
    requires cfg.Valid() && Rows(cfg, obs.pos, rows) && out.Length == |rows|
    modifies out
    ensures res == CheckedChunk(cfg, obs, rows)
    ensures out[..] == ChunkOut(cfg, Resolve(cfg, obs), obs.pos, rows)
  {
    hide Mul, Dist, Norm, ProjectedRow, RawTrips, ProjectedRows, Projected;
    var arm := Resolve(cfg, obs);
    var trips, peak := ScanTrips(cfg, obs, arm, rows);
    forall k | 0 <= k < |rows| { out[k] := rows[k]; }
    assert out[..] == rows;
    if cfg.clamp != Project {
      MovedNothing(cfg.dim, rows, rows, |rows|);
      return Tier0Out(trips, {}, peak * cfg.invDt);
    }
    var clamped := ProjectChunk(cfg, obs, arm, rows, out);
    res := Tier0Out(trips, clamped, peak * cfg.invDt);
  }

  method ScanTrips(cfg: FuseConfig, obs: Obs, arm: Arm, rows: seq<Vec>) returns (trips: Trips, peak: real)
    requires cfg.Valid() && Rows(cfg, obs.pos, rows)
    ensures trips == RawTrips(cfg, arm, obs.pos, rows)
    ensures peak == PeakStep(cfg, obs.pos, rows, |rows|)
  {
    hide Mul, Dist, Norm, StepTrips, AccelTrips, JerkTrips;
    var steps, p := ScanSteps(cfg, arm, obs.pos, rows);
    var accel := ScanAccel(cfg, arm, obs.pos, rows);
    var jerk := ScanJerk(cfg, arm, obs.pos, rows);
    var reach := false;
    if arm.reach && |rows| > 0 {
      var r := DistLoop(cfg.sqrt, rows[0], obs.pos, cfg.dim);
      reach := r > cfg.reachMax;
    }
    trips, peak := steps + If(accel, ACCEL) + If(jerk, JERK) + If(reach, REACH), p;
  }

  /** The row buffer of the projection loop: loaded with the raw row, projected in place, read back. */
  method ProjectOne(cfg: FuseConfig, obs: Obs, arm: Arm, first: bool, q: Vec, raw: Vec) returns (r: Vec)
    requires cfg.Valid() && |obs.pos| == |q| == |raw| == cfg.dim && arm == Resolve(cfg, obs)
    ensures r == ProjectedRow(cfg, arm, obs.pos, first, q, raw)
  {
    hide Mul, Dist, ProjectedRow;
    LeashPositive(cfg, obs);
    var a := new real[cfg.dim](c requires 0 <= c < |raw| => raw[c]);
    assert a[..] == raw;
    ProjectRow(cfg, arm, Leash(arm, cfg.stepMax), obs.pos, first, q, a);
    r := a[..];
  }

  lemma ProjectedStep(cfg: FuseConfig, arm: Arm, pos: Vec, rows: seq<Vec>, i: nat)
    requires Rows(cfg, pos, rows) && |cfg.boxLo| == |cfg.boxHi| == cfg.dim && i < |rows|
    ensures var out := ProjectedRows(cfg, arm, pos, rows);
            out[i] == ProjectedRow(cfg, arm, pos, i == 0, if i == 0 then pos else out[i - 1], rows[i])
  {
    hide ProjectedRow;
  }

  lemma MovedStep(d: nat, raw: seq<Vec>, out: seq<Vec>, i: nat)
    requires i < |raw| == |out| || i == 0
    requires |raw| == |out| && forall i :: 0 <= i < |raw| ==> |raw[i]| == d && |out[i]| == d
    ensures MovedDims(d, raw, out, 0) == {}
    ensures i < |raw| ==> MovedDims(d, raw, out, i + 1) == MovedDims(d, raw, out, i) + MovedNow(raw[i], out[i], d)
  {}

  /** The projection loop: row `i` is leashed to the row just written. */
  method ProjectChunk(cfg: FuseConfig, obs: Obs, arm: Arm, rows: seq<Vec>, out: array<Vec>)
    returns (clamped: set<nat>)
    requires cfg.Valid() && Rows(cfg, obs.pos, rows) && out.Length == |rows| && arm == Resolve(cfg, obs)
    modifies out
    ensures out[..] == ProjectedRows(cfg, arm, obs.pos, rows)
    ensures clamped == MovedDims(cfg.dim, rows, ProjectedRows(cfg, arm, obs.pos, rows), |rows|)
  {
    ghost var goal := ProjectedRows(cfg, arm, obs.pos, rows);
    hide ProjectedRow, ProjectedRows, Projected, Resolve, MovedNow, MovedDims, FuseConfig.Valid;
    clamped := {};
    MovedStep(cfg.dim, rows, goal, 0);
    var q := obs.pos;
    var i := 0;
    while i < |rows|
      invariant i <= |rows| && q == if i == 0 then obs.pos else goal[i - 1]
      invariant out[..i] == goal[..i]
      invariant clamped == MovedDims(cfg.dim, rows, goal, i)
    {
      var a := ProjectOne(cfg, obs, arm, i == 0, q, rows[i]);
      ProjectedStep(cfg, arm, obs.pos, rows, i);
      clamped := AddMoved(rows[i], a, clamped);
      MovedStep(cfg.dim, rows, goal, i);
      out[i] := a;
      q := a;
      i := i + 1;
    }
    assert out[..] == goal;
  }

  /** The intra-chunk check of the committed row `a` against the previous command. */
  method CheckAction(cfg: FuseConfig, obs: Obs, prev: Vec, a: Vec) returns (res: Tier0Out, out: Vec)
    requires cfg.Valid() && |obs.pos| == |prev| == |a| == cfg.dim
    ensures res == CheckedAction(cfg, obs, prev, a)
    ensures out == ActionOut(cfg, Resolve(cfg, obs), obs.pos, prev, a)
  {
    hide Mul, Dist, ProjectedRow, Outside;
    var arm := Resolve(cfg, obs);
    var n := DistLoop(cfg.sqrt, a, prev, cfg.dim);
    var outside := OutsideBox(cfg, a);
    var r := DistLoop(cfg.sqrt, a, obs.pos, cfg.dim);
    var trips := If(arm.speed && n > cfg.stepMax, SPEED) + If(arm.contact && n > arm.stepContact, CONTACT)
                 + If(arm.workspace && outside, WORKSPACE) + If(arm.reach && r > cfg.reachMax, REACH);
    out := a;
    var moved := {};
    if cfg.clamp == Project {
      out := ProjectOne(cfg, obs, arm, true, prev, a);
      moved := AddMoved(a, out, {});
    } else {
      assert MovedNow(a, a, cfg.dim) == {};
    }
    res := Tier0Out(trips, moved, n * cfg.invDt);
  }
}
