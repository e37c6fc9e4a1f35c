/** The run-time half of the conformal channel: standardise, aggregate over the gate, strict trip. */
module Conformal {
  import opened Ints
  import opened Fmath
  import opened Core

  /** `s = max over live terms of the min over the term`; `fired` is informational. */
  datatype Scores = Scores(f: Vec, z: Vec, s: Ext, valid: set<nat>, fired: set<nat>)

  /** The time bin of tick `t`: integer arithmetic, the last bin for every later tick. */
  function BinOf(t: u32, horizonTicks: u32, tGrid: nat): (b: nat)
    requires 1 <= tGrid
    ensures b < tGrid
  {
    var b := Quotient(Product(t, tGrid), if horizonTicks == 0 then 1 else horizonTicks);
    if b >= tGrid then tGrid - 1 else b
  }

  function Product(x: nat, y: nat): nat { x * y }

  function Quotient(x: nat, y: nat): nat
    requires y != 0
  {
    x / y
  }

  function Bin(cal: Calibration, t: u32): (b: nat)
    requires cal.Valid()
    ensures b < cal.tGrid
  {
    BinOf(t, cal.horizonTicks, cal.tGrid)
  }

  function Standardised(cal: Calibration, t: u32, f: Vec, valid: set<nat>): (z: Vec)
    requires cal.Valid() && |f| == NFEAT
    ensures |z| == NFEAT
  {
    var b := Bin(cal, t);
    seq(NFEAT, j requires 0 <= j < NFEAT =>
      if j in cal.mask * valid then (f[j] - cal.center[b][j]) / cal.scale[b][j] else 0.0)
  }

  function MinE(a: Ext, x: real): Ext { if a.Above(Fin(x)) then Fin(x) else a }

  function MaxE(a: Ext, b: Ext): Ext { if a.Above(b) then a else b }

  /** The smallest `z` over the members of `term` below `n`. */
  function TermMin(z: Vec, term: set<nat>, n: nat): (r: Ext)
    requires n <= |z|
    ensures r != NegInf
  {
    if n == 0 then PosInf
    else if n - 1 in term then MinE(TermMin(z, term, n - 1), z[n - 1])
    else TermMin(z, term, n - 1)
  }

  predicate TermLive(cal: Calibration, live: set<nat>, i: nat)
    requires i < |cal.terms|
  {
    cal.terms[i] != {} && cal.terms[i] <= live
  }

  /** The aggregate over the first `n` terms. */
  function Aggregate(cal: Calibration, z: Vec, live: set<nat>, n: nat): Ext
    requires |z| == NFEAT && n <= |cal.terms|
  {
    if n == 0 then NegInf
    else if TermLive(cal, live, n - 1)
    then MaxE(Aggregate(cal, z, live, n - 1), TermMin(z, cal.terms[n - 1], NFEAT))
    else Aggregate(cal, z, live, n - 1)
  }

  function Fired(cal: Calibration, z: Vec, live: set<nat>): set<nat>
    requires |z| == NFEAT
  {
    set j: nat | j < NFEAT && j in live && Fin(z[j]).Above(cal.tau)
  }

  function ScoresOf(cal: Calibration, t: u32, f: Vec, valid: set<nat>): Scores
    requires cal.Valid() && |f| == NFEAT
  {
    var live := cal.mask * valid;
    var z := Standardised(cal, t, f, valid);
    Scores(f, z, Aggregate(cal, z, live, |cal.terms|), valid, Fired(cal, z, live))
  }

  predicate ScoreTrips(cal: Calibration, sc: Scores) { sc.s.Above(cal.tau) }

  /** `tau - margin`, where an infinite `tau` stays infinite. */
  function Lowered(tau: Ext, margin: real): Ext { if tau.Fin? then Fin(tau.x - margin) else tau }

  // ---- what a trip means ----------------------------------------------------------------------------------

  /** Every channel of the term is strictly above `tau`. */
  predicate TermFires(z: Vec, term: set<nat>, tau: Ext)
    requires forall j :: j in term ==> j < |z|
  {
    forall j :: j in term ==> Fin(z[j]).Above(tau)
  }

  lemma {:induction false} TermMinMeaning(z: Vec, term: set<nat>, tau: Ext, n: nat)
    requires n <= |z| && tau != PosInf
    ensures TermMin(z, term, n).Above(tau) <==> forall j: nat :: j in term && j < n ==> Fin(z[j]).Above(tau)
  {
    if n > 0 { TermMinMeaning(z, term, tau, n - 1); }
  }

  lemma {:induction false} TermMinFinite(z: Vec, term: set<nat>, n: nat, j: nat)
    requires j in term && j < n <= |z|
    ensures TermMin(z, term, n).Fin?
  {
    if j < n - 1 { TermMinFinite(z, term, n - 1, j); }
  }

  lemma {:induction false} AggregateMeaning(cal: Calibration, z: Vec, live: set<nat>, n: nat)
    requires cal.Valid() && |z| == NFEAT && n <= |cal.terms|
    ensures Aggregate(cal, z, live, n) != PosInf
    ensures Aggregate(cal, z, live, n).Above(cal.tau) <==>
            exists i :: 0 <= i < n && TermLive(cal, live, i) && TermFires(z, cal.terms[i], cal.tau)
  {
    if n > 0 {
      AggregateMeaning(cal, z, live, n - 1);
      var term := cal.terms[n - 1];
      if TermLive(cal, live, n - 1) {
        var j :| j in term;
        TermMinFinite(z, term, NFEAT, j);
        if cal.tau == PosInf {
          assert !TermFires(z, term, cal.tau);
        } else {
          TermMinMeaning(z, term, cal.tau, NFEAT);
        }
      }
    }
  }

  /** The channel trips exactly when some non-empty gate term is fully live and every one of its channels is
      strictly above `tau`. A disarmed table (`tau` infinite) never trips. */
  lemma TripMeaning(cal: Calibration, t: u32, f: Vec, valid: set<nat>)
    requires cal.Valid() && |f| == NFEAT
    ensures var sc := ScoresOf(cal, t, f, valid);
            && (ScoreTrips(cal, sc) <==>
                exists i :: 0 <= i < |cal.terms| && TermLive(cal, cal.mask * valid, i)
                            && TermFires(sc.z, cal.terms[i], cal.tau))
            && (cal.tau == PosInf ==> !ScoreTrips(cal, sc))
            && (ScoreTrips(cal, sc) ==> sc.fired != {})
  {
    var sc := ScoresOf(cal, t, f, valid);
    AggregateMeaning(cal, sc.z, cal.mask * valid, |cal.terms|);
    if ScoreTrips(cal, sc) {
      var i :| 0 <= i < |cal.terms| && TermLive(cal, cal.mask * valid, i) && TermFires(sc.z, cal.terms[i], cal.tau);
      var j :| j in cal.terms[i];
      assert j in sc.fired;
    }
  }

  // ---- the algorithms -------------------------------------------------------------------------------------

  method Standardise(cal: Calibration, t: u32, f: Vec, valid: set<nat>) returns (z: Vec)
    requires cal.Valid() && |f| == NFEAT
    ensures z == Standardised(cal, t, f, valid)
  {
    var b := Bin(cal, t);
    if b >= 100 { b := 99; }
    var live := cal.mask * valid;
    z := [];
    var j := 0;
    while j < NFEAT
      invariant j <= NFEAT && z == Standardised(cal, t, f, valid)[..j]
    {
      z := z + [if j in live then (f[j] - cal.center[b][j]) / cal.scale[b][j] else 0.0];
      j := j + 1;
    }
  }

  /** Terms in order, channels in ascending order inside a term. */
  method AggregateLoop(cal: Calibration, z: Vec, valid: set<nat>) returns (s: Ext, fired: set<nat>)
    requires cal.Valid() && |z| == NFEAT
    ensures s == Aggregate(cal, z, cal.mask * valid, |cal.terms|)
    ensures fired == Fired(cal, z, cal.mask * valid)
  {
    var live := cal.mask * valid;
    s := NegInf;
    var term := 0;
    while term < |cal.terms|
      invariant term <= |cal.terms| && s == Aggregate(cal, z, live, term)
    {
      var tm := cal.terms[term];
      if tm != {} && tm <= live {
        var v, j := PosInf, 0;
        while j < NFEAT
          invariant j <= NFEAT && v == TermMin(z, tm, j)
        {
          if j in tm { v := MinE(v, z[j]); }
          j := j + 1;
        }
        s := MaxE(s, v);
      }
      term := term + 1;
    }
    fired := {};
    var j := 0;
    while j < NFEAT
      invariant j <= NFEAT
      invariant fired == set k: nat | k < j && k in live && Fin(z[k]).Above(cal.tau)
    {
      if j in live && Fin(z[j]).Above(cal.tau) { fired := fired + {j}; }
      j := j + 1;
    }
  }
}
