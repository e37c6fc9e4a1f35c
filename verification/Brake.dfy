/** Braking feasibility: the PD plant is rolled forward over the committed rows and then over a braking phase with
    the setpoint held, and the smallest distance to the box is kept. */
module Brake {
  import opened Options
  import opened Fmath
  import opened Core

  datatype PlantState = PlantState(p: Vec, v: Vec)

  datatype BrakeOut = BrakeOut(feasible: bool, margin: Ext, stopDist: real)

  predicate Fits(cfg: FuseConfig, s: PlantState) {
    |s.p| == cfg.dim && |s.v| == cfg.dim
  }

  predicate RowsFit(cfg: FuseConfig, rows: seq<Vec>) {
    cfg.brake.commitSteps <= |rows| && forall i :: 0 <= i < |rows| ==> |rows[i]| == cfg.dim
  }

  // ---- specification: the states a rollout visits ---------------------------------------------------------

  function NextVel(b: BrakeModel, a: real, p: real, v: real): real {
    v + (b.kP * (a - p) - b.kV * v) * b.dt
  }

  function NextPos(b: BrakeModel, a: real, p: real, v: real): real {
    p + NextVel(b, a, p, v) * b.dt
  }

  function Substep(cfg: FuseConfig, s: PlantState, a: Vec): (r: PlantState)
    requires Fits(cfg, s) && |a| == cfg.dim
    ensures Fits(cfg, r)
  {
    PlantState(seq(cfg.dim, c requires 0 <= c < cfg.dim => NextPos(cfg.brake, a[c], s.p[c], s.v[c])),
               seq(cfg.dim, c requires 0 <= c < cfg.dim => NextVel(cfg.brake, a[c], s.p[c], s.v[c])))
  }

  /** The state after `k` substeps towards setpoint `a`. */
  function After(cfg: FuseConfig, s: PlantState, a: Vec, k: nat): (r: PlantState)
    requires Fits(cfg, s) && |a| == cfg.dim
    ensures Fits(cfg, r)
  {
    if k == 0 then s else Substep(cfg, After(cfg, s, a, k - 1), a)
  }

  /** The `k` states visited by `k` substeps towards `a`. */
  function Visits(cfg: FuseConfig, s: PlantState, a: Vec, k: nat): (r: seq<PlantState>)
    requires Fits(cfg, s) && |a| == cfg.dim
    ensures |r| == k && forall i :: 0 <= i < k ==> r[i] == After(cfg, s, a, i + 1)
  {
    seq(k, i requires 0 <= i < k => After(cfg, s, a, i + 1))
  }

  /** The plant after executing row `from`, for one control step. */
  function Execute(cfg: FuseConfig, s: PlantState, a: Vec): (r: PlantState)
    requires Fits(cfg, s) && |a| == cfg.dim
    ensures Fits(cfg, r)
  {
    After(cfg, s, a, cfg.brake.substeps)
  }

  /** Every state the feasibility rollout from row `from` visits, in order. */
  function Rollout(cfg: FuseConfig, s: PlantState, rows: seq<Vec>, from: nat): seq<PlantState>
    requires Fits(cfg, s) && RowsFit(cfg, rows) && |cfg.boxLo| == |cfg.boxHi| == cfg.dim
    decreases cfg.brake.commitSteps - from
  {
    if from < cfg.brake.commitSteps then
      Visits(cfg, s, rows[from], cfg.brake.substeps) + Rollout(cfg, Execute(cfg, s, rows[from]), rows, from + 1)
    else
      Visits(cfg, s, ClampBox(cfg, s.p), cfg.brake.brakeSteps * cfg.brake.substeps)
  }

  /** Where the rollout ends. */
  function RolloutEnd(cfg: FuseConfig, s: PlantState, rows: seq<Vec>, from: nat): (r: PlantState)
    requires Fits(cfg, s) && RowsFit(cfg, rows) && |cfg.boxLo| == |cfg.boxHi| == cfg.dim
    ensures Fits(cfg, r)
    decreases cfg.brake.commitSteps - from
  {
    if from < cfg.brake.commitSteps then RolloutEnd(cfg, Execute(cfg, s, rows[from]), rows, from + 1)
    else After(cfg, s, ClampBox(cfg, s.p), cfg.brake.brakeSteps * cfg.brake.substeps)
  }

  // ---- specification: the margin --------------------------------------------------------------------------

  function MinExt(a: Ext, x: real): Ext {
    match a
    case NegInf => NegInf
    case Fin(y) => if y < x then a else Fin(x)
    case PosInf => Fin(x)
  }

  /** Distance inside the box, over the first `n` coordinates. */
  function Slack(cfg: FuseConfig, p: Vec, n: nat): Ext
    requires |cfg.boxLo| == |cfg.boxHi| == |p| && n <= |p|
  {
    if n == 0 then PosInf
    else MinExt(Slack(cfg, p, n - 1), Min(p[n - 1] - cfg.boxLo[n - 1], cfg.boxHi[n - 1] - p[n - 1]))
  }

  function MinExt2(a: Ext, b: Ext): Ext {
    match b
    case NegInf => NegInf
    case Fin(x) => MinExt(a, x)
    case PosInf => a
  }

  predicate AllFit(cfg: FuseConfig, w: seq<PlantState>) { forall i :: 0 <= i < |w| ==> Fits(cfg, w[i]) }

  /** The smallest slack over the first `n` visited states. */
  function Margin(cfg: FuseConfig, w: seq<PlantState>, n: nat): Ext
    requires |cfg.boxLo| == |cfg.boxHi| == cfg.dim && AllFit(cfg, w) && n <= |w|
  {
    if n == 0 then PosInf else MinExt2(Margin(cfg, w, n - 1), Slack(cfg, w[n - 1].p, cfg.dim))
  }

  predicate NonNegative(e: Ext) { e == PosInf || (e.Fin? && 0.0 <= e.x) }

  predicate LeqExt(a: Ext, b: Ext) {
    a == NegInf || b == PosInf || (a.Fin? && b.Fin? && a.x <= b.x)
  }

  lemma {:induction false} RolloutFits(cfg: FuseConfig, s: PlantState, rows: seq<Vec>, from: nat)
    requires Fits(cfg, s) && RowsFit(cfg, rows) && |cfg.boxLo| == |cfg.boxHi| == cfg.dim
    ensures AllFit(cfg, Rollout(cfg, s, rows, from))
    decreases cfg.brake.commitSteps - from
  {
    hide Substep;
    if from < cfg.brake.commitSteps {
      RolloutFits(cfg, Execute(cfg, s, rows[from]), rows, from + 1);
    }
  }

  function RolloutMargin(cfg: FuseConfig, s: PlantState, rows: seq<Vec>, from: nat): Ext
    requires Fits(cfg, s) && RowsFit(cfg, rows) && |cfg.boxLo| == |cfg.boxHi| == cfg.dim
  {
    RolloutFits(cfg, s, rows, from);
    var w := Rollout(cfg, s, rows, from);
    Margin(cfg, w, |w|)
  }

  predicate Feasible(cfg: FuseConfig, s: PlantState, rows: seq<Vec>, from: nat)
    requires Fits(cfg, s) && RowsFit(cfg, rows) && |cfg.boxLo| == |cfg.boxHi| == cfg.dim
  {
    NonNegative(RolloutMargin(cfg, s, rows, from))
  }

  // ---- what feasibility means -----------------------------------------------------------------------------

  lemma {:induction false} SlackMeaning(cfg: FuseConfig, p: Vec, n: nat)
    requires |cfg.boxLo| == |cfg.boxHi| == |p| && n <= |p|
    ensures NonNegative(Slack(cfg, p, n)) <==> forall c :: 0 <= c < n ==> cfg.boxLo[c] <= p[c] <= cfg.boxHi[c]
  {
    if n > 0 { SlackMeaning(cfg, p, n - 1); }
  }

  lemma {:induction false} MarginMeaning(cfg: FuseConfig, w: seq<PlantState>, n: nat)
    requires |cfg.boxLo| == |cfg.boxHi| == cfg.dim && AllFit(cfg, w) && n <= |w|
    ensures NonNegative(Margin(cfg, w, n)) <==> forall i :: 0 <= i < n ==> InBox(cfg, w[i].p)
  {
    hide Slack;
    if n > 0 {
      MarginMeaning(cfg, w, n - 1);
      SlackMeaning(cfg, w[n - 1].p, cfg.dim);
    }
  }

  /** The check accepts exactly when every state the rollout visits is inside the box. */
  lemma FeasibleMeansInside(cfg: FuseConfig, s: PlantState, rows: seq<Vec>, from: nat)
    requires Fits(cfg, s) && RowsFit(cfg, rows) && |cfg.boxLo| == |cfg.boxHi| == cfg.dim
    ensures var w := Rollout(cfg, s, rows, from);
            Feasible(cfg, s, rows, from) <==> forall i :: 0 <= i < |w| ==> |w[i].p| == cfg.dim && InBox(cfg, w[i].p)
  {
    hide Margin, Rollout;
    RolloutFits(cfg, s, rows, from);
    var w := Rollout(cfg, s, rows, from);
    MarginMeaning(cfg, w, |w|);
  }

  // ---- recursive feasibility ------------------------------------------------------------------------------

  lemma {:induction false} MarginOfSuffix(cfg: FuseConfig, u: seq<PlantState>, w: seq<PlantState>, n: nat)
    requires |cfg.boxLo| == |cfg.boxHi| == cfg.dim && AllFit(cfg, u + w) && AllFit(cfg, w) && n <= |w|
    ensures LeqExt(Margin(cfg, u + w, |u| + n), Margin(cfg, w, n))
  {
    if n > 0 {
      MarginOfSuffix(cfg, u, w, n - 1);
      assert (u + w)[|u| + n - 1] == w[n - 1];
    }
  }

  /** One committed row later, on a plant that followed the model, the rollout visits exactly the tail of the same
      states, so its margin is no smaller. */
  lemma RolloutShrinks(cfg: FuseConfig, s: PlantState, rows: seq<Vec>, from: nat)
    requires Fits(cfg, s) && RowsFit(cfg, rows) && |cfg.boxLo| == |cfg.boxHi| == cfg.dim
    requires from < cfg.brake.commitSteps
    ensures var s' := Execute(cfg, s, rows[from]);
            && Rollout(cfg, s, rows, from)[cfg.brake.substeps..] == Rollout(cfg, s', rows, from + 1)
            && LeqExt(RolloutMargin(cfg, s, rows, from), RolloutMargin(cfg, s', rows, from + 1))
  {
    hide Margin, Substep;
    var s' := Execute(cfg, s, rows[from]);
    var u, w := Visits(cfg, s, rows[from], cfg.brake.substeps), Rollout(cfg, s', rows, from + 1);
    assert Rollout(cfg, s, rows, from) == u + w;
    RolloutFits(cfg, s, rows, from);
    RolloutFits(cfg, s', rows, from + 1);
    MarginOfSuffix(cfg, u, w, |w|);
  }

  /** The plant after executing rows `from .. from + n`. */
  function ExecuteRows(cfg: FuseConfig, s: PlantState, rows: seq<Vec>, from: nat, n: nat): (r: PlantState)
    requires Fits(cfg, s) && from + n <= |rows| && forall i :: 0 <= i < |rows| ==> |rows[i]| == cfg.dim
    ensures Fits(cfg, r)
    decreases n
  {
    if n == 0 then s else ExecuteRows(cfg, Execute(cfg, s, rows[from]), rows, from + 1, n - 1)
  }

  /** Recursive feasibility: a plant that follows the model along an accepted chunk passes the brake check at every
      later row up to `commit_steps`, with a margin that never shrinks. */
  lemma {:induction false} FeasibleStaysFeasible(cfg: FuseConfig, s: PlantState, rows: seq<Vec>, from: nat, n: nat)
    requires Fits(cfg, s) && RowsFit(cfg, rows) && |cfg.boxLo| == |cfg.boxHi| == cfg.dim
    requires from + n <= cfg.brake.commitSteps && Feasible(cfg, s, rows, from)
    ensures var s' := ExecuteRows(cfg, s, rows, from, n);
            && Feasible(cfg, s', rows, from + n)
            && LeqExt(RolloutMargin(cfg, s, rows, from), RolloutMargin(cfg, s', rows, from + n))
    decreases n
  {
    hide RolloutMargin, Execute;
    if n > 0 {
      RolloutShrinks(cfg, s, rows, from);
      FeasibleStaysFeasible(cfg, Execute(cfg, s, rows[from]), rows, from + 1, n - 1);
    }
  }

  /** Past `commit_steps` the guarantee stops: a plant at rest in the middle of the box passes the check at row 1,
      executes that row, which is inside the box, and fails the check at row 2. */
  lemma BeyondCommitCanFail(f: real -> real) returns (cfg: FuseConfig, s: PlantState, rows: seq<Vec>)
    requires IsSqrt(f)
    ensures cfg.Valid() && cfg.dim == 1 && Fits(cfg, s) && RowsFit(cfg, rows) && |rows| == cfg.horizon == 3
    ensures cfg.brake.commitSteps == 1 && InBox(cfg, rows[1])
    ensures Feasible(cfg, s, rows, 1) && !Feasible(cfg, Execute(cfg, s, rows[1]), rows, 2)
  {
    hide Margin, Feasible, Rollout, After, Substep, IsSqrt;
    var hyst := Hysteresis(1, 1, 0.0, 0, 0, 0, 0, 0.0, 0, Auto, 0, 0, 0, 0, 0);
    var calib := Calibration({}, [], PosInf, 1, 1, seq(100, _ => ZeroVec(NFEAT)), seq(100, _ => seq(NFEAT, _ => 1.0)));
    cfg := FuseConfig(Enforce, 1, 3, 1, 1.0, 1.0, 1.0, 1.0, [0.0], [1.0], 1.0, 1.0, 1.0, 1.0, None,
                      BrakeModel(1.0, 0.5, 1, 1.0, 1, 1), Off, hyst, 1, {}, calib, f, 0.5);
    s := PlantState([0.5], [0.0]);
    rows := [[0.5], [1.0], [1.0]];
    var s', s'' := PlantState([1.0], [0.5]), PlantState([1.25], [0.25]);
    OneSubstep(cfg, s, rows[1], s');
    TailOfOne(cfg, s, rows, 1, s);
    TailOfOne(cfg, s', rows, 2, s'');
    assert s''.p[0] == 1.25;
  }

  lemma TailOfOne(cfg: FuseConfig, s: PlantState, rows: seq<Vec>, from: nat, t: PlantState)
    requires cfg.dim == 1 && cfg.boxLo == [0.0] && cfg.boxHi == [1.0] && InBox(cfg, s.p)
    requires Fits(cfg, s) && Fits(cfg, t) && RowsFit(cfg, rows)
    requires cfg.brake == BrakeModel(1.0, 0.5, 1, 1.0, 1, 1) && 1 <= from
    requires t.v[0] == 0.5 * s.v[0] && t.p[0] == s.p[0] + t.v[0]
    ensures Feasible(cfg, s, rows, from) <==> 0.0 <= t.p[0] <= 1.0
  {
    hide Margin, Feasible, After, Substep;
    assert ClampBox(cfg, s.p) == s.p;
    OneSubstep(cfg, s, s.p, t);
    assert Rollout(cfg, s, rows, from) == [t];
    FeasibleMeansInside(cfg, s, rows, from);
    if Feasible(cfg, s, rows, from) {
      assert InBox(cfg, Rollout(cfg, s, rows, from)[0].p);
    }
  }

  lemma OneSubstep(cfg: FuseConfig, s: PlantState, a: Vec, t: PlantState)
    requires cfg.dim == 1 && Fits(cfg, s) && Fits(cfg, t) && |a| == 1 && cfg.brake == BrakeModel(1.0, 0.5, 1, 1.0, 1, 1)
    requires t.v[0] == s.v[0] + a[0] - s.p[0] - 0.5 * s.v[0] && t.p[0] == s.p[0] + t.v[0]
    ensures After(cfg, s, a, 1) == t
  {
    assert After(cfg, s, a, 0) == s;
    assert Substep(cfg, s, a).p == t.p && Substep(cfg, s, a).v == t.v;
  }

  // ---- the algorithm --------------------------------------------------------------------------------------

  /** The rolled plant. */
  class Plant {
    const p: array<real>
    const v: array<real>

    constructor (p0: Vec, v0: Vec)
      requires |p0| == |v0|
      ensures fresh(this.p) && fresh(this.v) && this.p != this.v
      ensures this.p[..] == p0 && this.v[..] == v0
    {
      p := new real[|p0|](c requires 0 <= c < |p0| => p0[c]);
      v := new real[|v0|](c requires 0 <= c < |v0| => v0[c]);
    }

    ghost predicate Valid(cfg: FuseConfig) { p != v && p.Length == v.Length == cfg.dim }

    function State(): PlantState
      reads p, v
    {
      PlantState(p[..], v[..])
    }

    static method Accelerated(b: BrakeModel, a: real, p: real, v: real) returns (r: real)
      ensures r == NextVel(b, a, p, v)
    {
      var acc := b.kP * (a - p) - b.kV * v;
      r := v + acc * b.dt;
    }

    static method Moved(b: BrakeModel, a: real, p: real, ghost v: real, vel: real) returns (r: real)
      requires vel == NextVel(b, a, p, v)
      ensures r == NextPos(b, a, p, v)
    {
      r := p + vel * b.dt;
    }

    /** One physics substep, coordinate by coordinate: the position uses the velocity just written. */
    method PdSubstep(cfg: FuseConfig, a: Vec)
      requires Valid(cfg) && |a| == cfg.dim
      modifies p, v
      ensures State() == Substep(cfg, old(State()), a)
    {
      hide NextVel, NextPos;
      ghost var was := State();
      var b := cfg.brake;
      var c := 0;
      while c < cfg.dim
        invariant c <= cfg.dim
        invariant forall k :: 0 <= k < c ==> p[k] == Substep(cfg, was, a).p[k] && v[k] == Substep(cfg, was, a).v[k]
        invariant forall k :: c <= k < cfg.dim ==> p[k] == was.p[k] && v[k] == was.v[k]
      {
        var vel := Accelerated(b, a[c], p[c], v[c]);
        v[c] := vel;
        var pos := Moved(b, a[c], p[c], was.v[c], v[c]);
        p[c] := pos;
        c := c + 1;
      }
      assert p[..] == Substep(cfg, was, a).p && v[..] == Substep(cfg, was, a).v;
    }

    method SlackNow(cfg: FuseConfig) returns (m: Ext)
      requires Valid(cfg) && |cfg.boxLo| == |cfg.boxHi| == cfg.dim
      ensures m == Slack(cfg, p[..], cfg.dim)
    {
      m := PosInf;
      var c := 0;
      while c < cfg.dim
        invariant c <= cfg.dim
        invariant m == Slack(cfg, p[..], c)
      {
        m := MinExt(m, Min(p[c] - cfg.boxLo[c], cfg.boxHi[c] - p[c]));
        c := c + 1;
      }
    }

    /** `k` substeps towards `a`, folding the slack of each state into `margin`. */
    method Roll(cfg: FuseConfig, a: Vec, k: nat, margin0: Ext, ghost seen: seq<PlantState>)
      returns (margin: Ext)
      requires Valid(cfg) && |a| == cfg.dim && |cfg.boxLo| == |cfg.boxHi| == cfg.dim
      requires AllFit(cfg, seen) && margin0 == Margin(cfg, seen, |seen|)
      modifies p, v
      ensures Fits(cfg, old(State())) && State() == After(cfg, old(State()), a, k)
      ensures var w := seen + Visits(cfg, old(State()), a, k); AllFit(cfg, w) && margin == Margin(cfg, w, |w|)
    {
      hide Substep, Slack;
      ghost var was := State();
      margin := margin0;
      var i := 0;
      assert seen + Visits(cfg, was, a, 0) == seen;
      while i < k
        invariant i <= k
        invariant State() == After(cfg, was, a, i)
        invariant var w := seen + Visits(cfg, was, a, i); AllFit(cfg, w) && margin == Margin(cfg, w, |w|)
      {
        ghost var w := seen + Visits(cfg, was, a, i);
        PdSubstep(cfg, a);
        var m := SlackNow(cfg);
        margin := MinExt2(margin, m);
        assert seen + Visits(cfg, was, a, i + 1) == w + [State()];
        MarginSnoc(cfg, w, State());
        i := i + 1;
      }
    }
  }

  lemma {:induction false} MarginPrefix(cfg: FuseConfig, w: seq<PlantState>, x: PlantState, n: nat)
    requires |cfg.boxLo| == |cfg.boxHi| == cfg.dim && AllFit(cfg, w) && Fits(cfg, x) && n <= |w|
    ensures Margin(cfg, w + [x], n) == Margin(cfg, w, n)
  {
    if n > 0 { MarginPrefix(cfg, w, x, n - 1); }
  }

  lemma MarginSnoc(cfg: FuseConfig, w: seq<PlantState>, x: PlantState)
    requires |cfg.boxLo| == |cfg.boxHi| == cfg.dim && AllFit(cfg, w) && Fits(cfg, x)
    ensures Margin(cfg, w + [x], |w| + 1) == MinExt2(Margin(cfg, w, |w|), Slack(cfg, x.p, cfg.dim))
  {
    MarginPrefix(cfg, w, x, |w|);
  }

  /** The checked stopping condition of the committed prefix, from row `from` and plant state `(p0, v0)`. */
  method BrakeFeasible(cfg: FuseConfig, p0: Vec, v0: Vec, rows: seq<Vec>, from: nat) returns (r: BrakeOut)
    requires cfg.Valid() && |p0| == |v0| == cfg.dim && RowsFit(cfg, rows)
    ensures var s := PlantState(p0, v0);
            r == BrakeOut(Feasible(cfg, s, rows, from), RolloutMargin(cfg, s, rows, from),
                          Dist(cfg.sqrt, RolloutEnd(cfg, s, rows, from).p, p0, cfg.dim))
  {
    ghost var s := PlantState(p0, v0);
    ghost var seen: seq<PlantState> := [];
    assert AllFit(cfg, seen) && Margin(cfg, seen, |seen|) == PosInf;
    assert |cfg.boxLo| == |cfg.boxHi| == cfg.dim && IsSqrt(cfg.sqrt);
    hide Substep, Slack, Margin, Mul, Dist, Rollout, RolloutEnd, RolloutMargin, Visits, After, AllFit, Along;
    hide IsSqrt, ClampBox, FuseConfig.Valid;
    AlongStart(cfg, s, rows, from);
    var pl := new Plant(p0, v0);
    var margin := PosInf;
    var i := from;
    while i < cfg.brake.commitSteps
      invariant pl.Valid(cfg) && fresh(pl.p) && fresh(pl.v) && from <= i
      invariant AllFit(cfg, seen) && margin == Margin(cfg, seen, |seen|)
      invariant Along(cfg, s, rows, from, seen, pl.State(), i)
      decreases cfg.brake.commitSteps - i
    {
      ghost var st := pl.State();
      AlongStep(cfg, s, rows, from, seen, st, i);
      margin := pl.Roll(cfg, rows[i], cfg.brake.substeps, margin, seen);
      seen := seen + Visits(cfg, st, rows[i], cfg.brake.substeps);
      i := i + 1;
    }
    AlongEnd(cfg, s, rows, from, seen, pl.State(), i);
    margin := pl.Roll(cfg, ClampBox(cfg, pl.p[..]), cfg.brake.brakeSteps * cfg.brake.substeps, margin, seen);
    var dist := DistLoop(cfg.sqrt, pl.p[..], p0, cfg.dim);
    r := BrakeOut(NonNegative(margin), margin, dist);
  }

  /** The rollout from `s` has visited `seen` and stands at `st` before row `i`. */
  ghost predicate Along(
    cfg: FuseConfig, s: PlantState, rows: seq<Vec>, from: nat, seen: seq<PlantState>, st: PlantState, i: nat)
    requires Fits(cfg, s) && RowsFit(cfg, rows) && |cfg.boxLo| == |cfg.boxHi| == cfg.dim
  {
    && Fits(cfg, st)
    && Rollout(cfg, s, rows, from) == seen + Rollout(cfg, st, rows, i)
    && RolloutEnd(cfg, s, rows, from) == RolloutEnd(cfg, st, rows, i)
  }

  lemma AlongStart(cfg: FuseConfig, s: PlantState, rows: seq<Vec>, from: nat)
    requires Fits(cfg, s) && RowsFit(cfg, rows) && |cfg.boxLo| == |cfg.boxHi| == cfg.dim
    ensures Along(cfg, s, rows, from, [], s, from)
  {
    assert Rollout(cfg, s, rows, from) == [] + Rollout(cfg, s, rows, from);
  }

  lemma AlongStep(
    cfg: FuseConfig, s: PlantState, rows: seq<Vec>, from: nat, seen: seq<PlantState>, st: PlantState, i: nat)
    requires Fits(cfg, s) && RowsFit(cfg, rows) && |cfg.boxLo| == |cfg.boxHi| == cfg.dim
    requires Along(cfg, s, rows, from, seen, st, i) && i < cfg.brake.commitSteps
    ensures var k := cfg.brake.substeps;
            Along(cfg, s, rows, from, seen + Visits(cfg, st, rows[i], k), After(cfg, st, rows[i], k), i + 1)
  {
    hide Substep, After, Visits;
    var u, w := Visits(cfg, st, rows[i], cfg.brake.substeps), Rollout(cfg, Execute(cfg, st, rows[i]), rows, i + 1);
    assert seen + (u + w) == seen + u + w;
  }

  lemma AlongEnd(
    cfg: FuseConfig, s: PlantState, rows: seq<Vec>, from: nat, seen: seq<PlantState>, st: PlantState, i: nat)
    requires Fits(cfg, s) && RowsFit(cfg, rows) && |cfg.boxLo| == |cfg.boxHi| == cfg.dim
    requires Along(cfg, s, rows, from, seen, st, i) && i >= cfg.brake.commitSteps
    ensures var k := cfg.brake.brakeSteps * cfg.brake.substeps;
            var w := seen + Visits(cfg, st, ClampBox(cfg, st.p), k);
            && (AllFit(cfg, w) ==> RolloutMargin(cfg, s, rows, from) == Margin(cfg, w, |w|))
            && RolloutEnd(cfg, s, rows, from) == After(cfg, st, ClampBox(cfg, st.p), k)
  {
    hide Substep, After, Visits;
  }

  /** The braking setpoint: the position clamped to the box (position kinds). */
  method BrakeAction(cfg: FuseConfig, p: Vec) returns (out: Vec)
    requires cfg.Valid() && |p| == cfg.dim
    ensures out == ClampBox(cfg, p) && InBox(cfg, out)
  {
    out := [];
    var c := 0;
    while c < cfg.dim
      invariant c <= cfg.dim && out == ClampBox(cfg, p)[..c]
    {
      out := out + [Clamp(p[c], cfg.boxLo[c], cfg.boxHi[c])];
      c := c + 1;
    }
    ClampBoxInside(cfg, p);
  }

  /** The held action: the latched setpoint through a defensive clamp. */
  method HoldAction(cfg: FuseConfig, latch: Vec) returns (out: Vec)
    requires cfg.Valid() && |latch| == cfg.dim
    ensures out == ClampBox(cfg, latch) && InBox(cfg, out)
    ensures InBox(cfg, latch) ==> out == latch
  {
    out := BrakeAction(cfg, latch);
    ClampBoxInside(cfg, latch);
  }
}
