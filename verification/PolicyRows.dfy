/** What a Policy row is in Enforce: the row of the last delivered chunk, raw exactly when the projection left it alone. */
module PolicyRows {
  import opened Options
  import opened Fmath
  import opened Core
  import opened Tier0
  import opened Brake
  import opened Conformal
  import opened Window
  import opened Fsm
  import opened Tally
  import opened Fuse
  import opened Runs
  import opened TickFacts
  import opened ResumeTicks

  /** The tick of the last delivery the guard let in. */
  ghost function LastDelivery(cfg: FuseConfig, inps: seq<TickInput>): (r: Option<nat>)
    requires cfg.Valid() && AllInputsFit(inps)
    ensures r.Some? ==> r.value < |inps|
  {
    hide Delivers, Decide;
    if inps == [] then None
    else
      var n := |inps| - 1;
      if Delivers(cfg, StateAfter(cfg, inps[..n]), inps[n]) then Some(n) else LastDelivery(cfg, inps[..n])
  }

  lemma {:induction false} LastDelivers(cfg: FuseConfig, inps: seq<TickInput>)
    requires cfg.Valid() && AllInputsFit(inps) && LastDelivery(cfg, inps).Some?
    ensures var j := LastDelivery(cfg, inps).value; Delivers(cfg, StateAfter(cfg, inps[..j]), inps[j])
  {
    hide Delivers, Decide, StateAfter;
    var n := |inps| - 1;
    if !Delivers(cfg, StateAfter(cfg, inps[..n]), inps[n]) {
      LastDelivers(cfg, inps[..n]);
      assert inps[..n][..LastDelivery(cfg, inps).value] == inps[..LastDelivery(cfg, inps).value];
    }
  }

  ghost predicate Delivers(cfg: FuseConfig, rt: Rt, inp: TickInput) { Admissible(cfg, rt, inp) && inp.chunk.Some? }

  ghost predicate DeliveryShaped(cfg: FuseConfig, inp: TickInput) {
    && inp.chunk.Some? && |inp.obs.pos| == cfg.dim && |cfg.boxLo| == |cfg.boxHi| == cfg.dim
    && Shaped(inp.chunk.value.rows, cfg.horizon, cfg.dim)
  }

  /** The rows a delivery is projected to. */
  ghost function Delivered(cfg: FuseConfig, inp: TickInput): (r: seq<Vec>)
    requires DeliveryShaped(cfg, inp)
    ensures Shaped(r, cfg.horizon, cfg.dim)
  {
    ChunkOut(cfg, Resolve(cfg, inp.obs), inp.obs.pos, inp.chunk.value.rows)
  }

  lemma DeliversShaped(cfg: FuseConfig, rt: Rt, inp: TickInput)
    requires cfg.Valid() && Delivers(cfg, rt, inp)
    ensures DeliveryShaped(cfg, inp) && inp.idx < cfg.horizon
  {
    AdmissibleShapes(cfg, rt, inp);
  }

  // ---- the current chunk ----------------------------------------------------------------------------------

  /** A tick replaces the current chunk when it delivers, rejected or not, and keeps it otherwise. */
  lemma TickCur(cfg: FuseConfig, rt: Rt, inp: TickInput)
    requires cfg.Valid() && RtFits(cfg, rt) && inp.Fits() && cfg.mode == Enforce
    ensures var cur := Decide(cfg, rt, inp).0.cur;
            if Delivers(cfg, rt, inp) then
              DeliveryShaped(cfg, inp) && cur == Some(inp.chunk.value.(rows := Delivered(cfg, inp)))
            else cur == rt.cur
  {
    hide Next, Recorded, TickScores, ClampBox, CheckedChunk, CheckedAction, ChunkOut, ActionOut, RolloutMargin, Masked0,
         VerdictOf, EventsOf, FsmInputOf, IngestedVel;
    if Admissible(cfg, rt, inp) {
      AdmissibleTick(cfg, rt, inp);
    }
  }

  /** Over every Enforce run, the current chunk is the projection of the last delivery, under the delivery's own number:
      the brake bit that counts a chunk as rejected does not keep it out. */
  lemma {:induction false} CurIsLastDelivery(cfg: FuseConfig, inps: seq<TickInput>)
    requires cfg.Valid() && AllInputsFit(inps) && cfg.mode == Enforce
    ensures var cur, j := StateAfter(cfg, inps).cur, LastDelivery(cfg, inps);
            if j.None? then cur == None
            else DeliveryShaped(cfg, inps[j.value])
                 && cur == Some(inps[j.value].chunk.value.(rows := Delivered(cfg, inps[j.value])))
  {
    hide Decide, Delivered, Delivers, DeliveryShaped;
    if inps != [] {
      var n := |inps| - 1;
      CurIsLastDelivery(cfg, inps[..n]);
      TickCur(cfg, StateAfter(cfg, inps[..n]), inps[n]);
    }
  }

  // ---- the rows that are forwarded ------------------------------------------------------------------------

  /** The projection left row `k` of the delivery as it was. */
  ghost predicate Unmoved(cfg: FuseConfig, inp: TickInput, k: nat) {
    DeliveryShaped(cfg, inp) && k < cfg.horizon && Delivered(cfg, inp)[k] == inp.chunk.value.rows[k]
  }

  /** The verdict acts on row `k` of the delivery as projected: on the raw row exactly when that was left alone. */
  ghost predicate ActsOn(cfg: FuseConfig, inp: TickInput, k: nat, v: Verdict) {
    && DeliveryShaped(cfg, inp) && k < cfg.horizon && v.action == Delivered(cfg, inp)[k]
    && (v.action == inp.chunk.value.rows[k] <==> Unmoved(cfg, inp, k))
  }

  lemma PolicyActs(cfg: FuseConfig, rt: Rt, inp: TickInput)
    requires cfg.Valid() && RtFits(cfg, rt) && inp.Fits() && cfg.mode == Enforce
    ensures var (rt', v) := Decide(cfg, rt, inp);
            && v.substituted == (v.src != SrcPolicy)
            && (v.src == SrcPolicy ==> Admissible(cfg, rt, inp) && inp.idx < cfg.horizon && rt'.cur.Some?
                                       && Shaped(rt'.cur.value.rows, cfg.horizon, cfg.dim)
                                       && v.action == rt'.cur.value.rows[inp.idx])
  {
    hide Next, Recorded, TickScores, ClampBox, Tier0Stage, EventsOf, FsmInputOf, IngestedVel;
    if Admissible(cfg, rt, inp) {
      AdmissibleTick(cfg, rt, inp);
    }
  }

  /** `v` acts on row `k` of delivery `d`, whose verdict was `vd`. The row is raw if this is the delivery tick itself and no
      Resume was consumed, or if `vd` shows none of the bits that move rows. */
  ghost predicate ActsOnDelivery(cfg: FuseConfig, d: TickInput, vd: Verdict, now: bool, k: nat, v: Verdict) {
    && ActsOn(cfg, d, k, v)
    && (now && v.reason != RearmedAck ==> Unmoved(cfg, d, k))
    && (vd.trips !! MOVERS ==> Unmoved(cfg, d, k))
  }

  /** In Enforce a verdict that is not marked substituted acts on the projection of the last delivery, so its action is the
      raw row if and only if that projection left the row alone. */
  lemma UnsubstitutedExactly(cfg: FuseConfig, inps: seq<TickInput>, i: nat) returns (j: nat)
    requires cfg.Valid() && AllInputsFit(inps) && cfg.mode == Enforce && i < |inps|
    ensures j <= i && (LastDelivery(cfg, inps[..i + 1]) == Some(j) || VerdictAt(cfg, inps, i).substituted)
    ensures !VerdictAt(cfg, inps, i).substituted ==>
              ActsOnDelivery(cfg, inps[j], VerdictAt(cfg, inps, j), i == j, inps[i].idx, VerdictAt(cfg, inps, i))
  {
    hide Decide, Delivered, Delivers, DeliveryShaped, LastDelivery, StateAfter, FuseConfig.Valid, RtFits, Unmoved, ActsOn;
    var rt, v := StateAfter(cfg, inps[..i]), VerdictAt(cfg, inps, i);
    StateStep(cfg, inps, i);
    PolicyActs(cfg, rt, inps[i]);
    CurIsLastDelivery(cfg, inps[..i + 1]);
    j := 0;
    if !v.substituted {
      j := LastDelivery(cfg, inps[..i + 1]).value;
      DeliveredBy(cfg, inps, i, j);
      ActsOnCur(cfg, rt, inps[i], inps[j]);
      ForwardedDelivery(cfg, StateAfter(cfg, inps[..j]), inps[j]);
      UntrippedDelivery(cfg, StateAfter(cfg, inps[..j]), inps[j], inps[i].idx);
    }
  }

  lemma DeliveredBy(cfg: FuseConfig, inps: seq<TickInput>, i: nat, j: nat)
    requires cfg.Valid() && AllInputsFit(inps) && j <= i < |inps| && LastDelivery(cfg, inps[..i + 1]) == Some(j)
    ensures Delivers(cfg, StateAfter(cfg, inps[..j]), inps[j])
  {
    hide Delivers, Decide, StateAfter, LastDelivery;
    LastDelivers(cfg, inps[..i + 1]);
    assert inps[..i + 1][..j] == inps[..j];
  }

  lemma ActsOnCur(cfg: FuseConfig, rt: Rt, inp: TickInput, d: TickInput)
    requires cfg.Valid() && RtFits(cfg, rt) && inp.Fits() && cfg.mode == Enforce && DeliveryShaped(cfg, d)
    requires Decide(cfg, rt, inp).0.cur == Some(d.chunk.value.(rows := Delivered(cfg, d)))
    ensures !Decide(cfg, rt, inp).1.substituted ==> inp.idx < cfg.horizon && ActsOn(cfg, d, inp.idx, Decide(cfg, rt, inp).1)
  {
    hide Decide, Delivered;
    PolicyActs(cfg, rt, inp);
  }

  lemma ForwardedDelivery(cfg: FuseConfig, rt: Rt, inp: TickInput)
    requires cfg.Valid() && RtFits(cfg, rt) && inp.Fits() && cfg.mode == Enforce
    ensures var v := Decide(cfg, rt, inp).1;
            v.src == SrcPolicy && v.reason != RearmedAck && Delivers(cfg, rt, inp) ==>
              Unmoved(cfg, inp, inp.idx)
  {
    hide Decide, Delivered;
    ForwardedRowIsSafe(cfg, rt, inp);
    PolicyActs(cfg, rt, inp);
    TickCur(cfg, rt, inp);
    if Delivers(cfg, rt, inp) { DeliversShaped(cfg, rt, inp); }
  }

  lemma UntrippedDelivery(cfg: FuseConfig, rt: Rt, inp: TickInput, k: nat)
    requires cfg.Valid() && RtFits(cfg, rt) && inp.Fits() && Delivers(cfg, rt, inp) && k < cfg.horizon
    ensures DeliveryShaped(cfg, inp)
    ensures Decide(cfg, rt, inp).1.trips !! MOVERS ==> Unmoved(cfg, inp, k)
  {
    hide Decide, Next, ChunkOut, CheckedChunk, RolloutMargin, Guard;
    DeliversShaped(cfg, rt, inp);
    AdmissibleTick(cfg, rt, inp);
    TickIsTableStep(cfg, rt, inp);
    StageTrips(cfg, Ingested(cfg, rt, inp), inp);
    if Decide(cfg, rt, inp).1.trips !! MOVERS {
      UntrippedUnchanged(cfg, inp.obs, inp.chunk.value.rows);
    }
  }

  lemma StageTrips(cfg: FuseConfig, rt: Rt, inp: TickInput)
    requires cfg.Valid() && RtFits(cfg, rt) && DeliveryShaped(cfg, inp) && inp.idx < cfg.horizon
    ensures CheckedChunk(cfg, inp.obs, inp.chunk.value.rows).trips <= Tier0Stage(cfg, rt, inp).trips
  {
    hide RawTrips, RolloutMargin, ChunkOut, Dist;
    UnarmedNeverTrips(cfg, inp.obs, inp.chunk.value.rows);
    KeptByMask(cfg, CheckedChunk(cfg, inp.obs, inp.chunk.value.rows).trips, NonNegative(Tier0Stage(cfg, rt, inp).margin));
  }

  /** With the position in the box: the projection leaves row `k` alone if and only if the raw row passes the box, the
      leash to the row written before it and, for the first row, the reach. */
  lemma UnmovedExactly(cfg: FuseConfig, inp: TickInput, k: nat)
    requires cfg.Valid() && cfg.clamp == Project && DeliveryShaped(cfg, inp) && k < cfg.horizon && InBox(cfg, inp.obs.pos)
    ensures Unmoved(cfg, inp, k)
            <==> RowPasses(cfg, Resolve(cfg, inp.obs), inp.obs.pos, k == 0,
                           if k == 0 then inp.obs.pos else Delivered(cfg, inp)[k - 1], inp.chunk.value.rows[k])
  {
    hide Dist, Mul, ProjectedRow, RowPasses, Resolve, FuseConfig.Valid;
    var rows := inp.chunk.value.rows;
    var q := if k == 0 then inp.obs.pos else Delivered(cfg, inp)[k - 1];
    if WORKSPACE in cfg.tier0Enabled && k > 0 {
      ProjectedInBox(cfg, inp.obs, rows, k - 1);
    }
    if Unmoved(cfg, inp, k) {
      RowKeptPasses(cfg, inp.obs, k == 0, q, rows[k]);
    }
    if RowPasses(cfg, Resolve(cfg, inp.obs), inp.obs.pos, k == 0, q, rows[k]) {
      RowPassesIsKept(cfg, inp.obs, k == 0, q, rows[k]);
    }
  }

  // ---- a run with an unmarked row that is not raw ------------------------------------------------------------

  /** The arm of the unit box, with the projection on. */
  function ClampingArm(sqrt: real -> real): FuseConfig { UnitArm(sqrt).(clamp := Project) }

  /** The delivery asks for a point outside the box; then a tick between deliveries. */
  function MovedRun(): seq<TickInput> {
    [Resting(0, Some(Chunk(0, 0, 1, 1, 1, OUTSIDE, true)), None), Resting(1, None, None)]
  }

  const EDGE: seq<Vec> := [[1.0]]

  lemma ClampingArmValid(sqrt: real -> real)
    requires IsSqrt(sqrt)
    ensures var cfg := ClampingArm(sqrt);
            && cfg.Valid() && cfg.mode == Enforce && cfg.clamp == Project && cfg.dim == 1 && cfg.horizon == 1
            && cfg.boxLo == [0.0] && cfg.boxHi == [1.0] && cfg.tier0Enabled == {WORKSPACE}
  {
    UnitArmValid(sqrt);
    hide IsSqrt;
  }

  /** The projection moves the row to the edge of the box, where it trips nothing. */
  lemma MovedToEdge(sqrt: real -> real, obs: Obs)
    requires IsSqrt(sqrt) && ClampingArm(sqrt).Valid() && |obs.pos| == 1
    ensures ChunkOut(ClampingArm(sqrt), Resolve(ClampingArm(sqrt), obs), obs.pos, OUTSIDE) == EDGE
  {
    var cfg := ClampingArm(sqrt);
    hide IsSqrt;
    assert ClampBox(cfg, OUTSIDE[0]) == EDGE[0];
    assert Projected(cfg, Resolve(cfg, obs), obs.pos, OUTSIDE, 0) == EDGE[0];
  }

  /** From rest at the middle, the rollout to the edge stays in the box. */
  lemma EdgeFeasible(cfg: FuseConfig)
    requires cfg.dim == 1 && cfg.boxLo == [0.0] && cfg.boxHi == [1.0] && cfg.brake == BrakeModel(1.0, 1.0, 1, 1.0, 1, 1)
    ensures Feasible(cfg, PlantState([0.5], [0.0]), EDGE, 0)
  {
    hide Feasible, Rollout;
    EdgeRollout(cfg);
    FeasibleMeansInside(cfg, PlantState([0.5], [0.0]), EDGE, 0);
  }

  lemma EdgeRollout(cfg: FuseConfig)
    requires cfg.dim == 1 && cfg.boxLo == [0.0] && cfg.boxHi == [1.0] && cfg.brake == BrakeModel(1.0, 1.0, 1, 1.0, 1, 1)
    ensures var w := Rollout(cfg, PlantState([0.5], [0.0]), EDGE, 0);
            |w| == 2 && w[0] == PlantState([1.0], [0.5]) && w[1] == PlantState([1.0], [0.0])
  {
    hide Substep;
    var s, s1 := PlantState([0.5], [0.0]), PlantState([1.0], [0.5]);
    EdgeSubsteps(cfg);
    OneStep(cfg, s, EDGE[0]);
    OneStep(cfg, s1, EDGE[0]);
    assert ClampBox(cfg, s1.p) == EDGE[0];
    RolloutOnce(cfg, s);
  }

  lemma EdgeSubsteps(cfg: FuseConfig)
    requires cfg.dim == 1 && cfg.brake == BrakeModel(1.0, 1.0, 1, 1.0, 1, 1)
    ensures Substep(cfg, PlantState([0.5], [0.0]), EDGE[0]) == PlantState([1.0], [0.5])
    ensures Substep(cfg, PlantState([1.0], [0.5]), EDGE[0]) == PlantState([1.0], [0.0])
  {
    hide NextVel, NextPos;
    UnitStep(cfg.brake, EDGE[0][0], 0.5, 0.0);
    UnitStep(cfg.brake, EDGE[0][0], 1.0, 0.5);
    assert Substep(cfg, PlantState([0.5], [0.0]), EDGE[0]).p == [1.0];
    assert Substep(cfg, PlantState([0.5], [0.0]), EDGE[0]).v == [0.5];
    assert Substep(cfg, PlantState([1.0], [0.5]), EDGE[0]).p == [1.0];
    assert Substep(cfg, PlantState([1.0], [0.5]), EDGE[0]).v == [0.0];
  }

  lemma UnitStep(b: BrakeModel, a: real, p: real, v: real)
    requires b.kP == 1.0 && b.kV == 1.0 && b.dt == 1.0
    ensures NextVel(b, a, p, v) == a - p && NextPos(b, a, p, v) == a
  {}

  lemma OneStep(cfg: FuseConfig, s: PlantState, a: Vec)
    requires Brake.Fits(cfg, s) && |a| == cfg.dim
    ensures After(cfg, s, a, 1) == Substep(cfg, s, a) && Visits(cfg, s, a, 1) == [Substep(cfg, s, a)]
  {
    hide Substep;
    assert After(cfg, s, a, 0) == s;
  }

  lemma RolloutOnce(cfg: FuseConfig, s: PlantState)
    requires Brake.Fits(cfg, s) && cfg.dim == 1 && |cfg.boxLo| == |cfg.boxHi| == 1
    requires cfg.brake == BrakeModel(1.0, 1.0, 1, 1.0, 1, 1)
    ensures var s1 := After(cfg, s, EDGE[0], 1);
            Rollout(cfg, s, EDGE, 0) == Visits(cfg, s, EDGE[0], 1) + Visits(cfg, s1, ClampBox(cfg, s1.p), 1)
  {
    hide After, Visits, Substep;
    var s1 := Execute(cfg, s, EDGE[0]);
    assert Rollout(cfg, s1, EDGE, 1) == Visits(cfg, s1, ClampBox(cfg, s1.p), 1);
  }

  /** The delivery of the outside chunk trips the workspace bit and not the brake; the moved row is kept. */
  lemma DeliveryMoves(sqrt: real -> real, obs: Obs, ch: Chunk)
    requires IsSqrt(sqrt) && ClampingArm(sqrt).Valid() && obs.pos == [0.5] && ch.rows == OUTSIDE
    ensures var t0 := DeliveryCheck(ClampingArm(sqrt), obs, [0.0], ch, 0);
            WORKSPACE in t0.trips && BRAKE !in t0.trips && t0.cur.rows == EDGE
  {
    hide IsSqrt, FuseConfig.Valid, Dist, Norm, RolloutMargin, MovedDims, PeakStep, AccelTrips, JerkTrips, ReachTrips,
         SpeedTrips, ContactTrips, WorkspaceTrips, ChunkOut;
    var cfg := ClampingArm(sqrt);
    MovedToEdge(sqrt, obs);
    EdgeFeasible(cfg);
    WorkspaceTripped(cfg, Resolve(cfg, obs), obs.pos);
  }

  lemma WorkspaceTripped(cfg: FuseConfig, arm: Arm, pos: Vec)
    requires cfg.dim == 1 && cfg.boxLo == [0.0] && cfg.boxHi == [1.0] && |pos| == 1 && arm.workspace
    ensures WorkspaceTrips(cfg, arm, pos, OUTSIDE)
  {
    OutsideTrips(cfg);
  }

  /** Between deliveries the moved row trips nothing. */
  lemma CommittedPasses(sqrt: real -> real, obs: Obs, last: Vec, cur: Chunk, scratch: Chunk)
    requires IsSqrt(sqrt) && ClampingArm(sqrt).Valid() && obs.pos == [0.5] && |last| == 1 && cur.rows == EDGE
    requires Shaped(scratch.rows, 1, 1)
    ensures CommittedCheck(ClampingArm(sqrt), obs, [0.0], last, cur, scratch, 0).trips == {}
  {
    hide IsSqrt, FuseConfig.Valid, Dist, Norm, RolloutMargin, MovedNow, ActionOut;
    var cfg := ClampingArm(sqrt);
    EdgeFeasible(cfg);
    assert !Outside(cfg, EDGE[0]);
  }

  /** With no calibration the window holds no hit and nothing is predicted. */
  lemma NothingPredicted(sqrt: real -> real, rt: Rt, inp: TickInput)
    requires ClampingArm(sqrt).Valid() && RtFits(ClampingArm(sqrt), rt) && inp.Fits() && Admissible(ClampingArm(sqrt), rt, inp)
    ensures !TableInput(ClampingArm(sqrt), rt, inp).2.predictive
  {
    var cfg := ClampingArm(sqrt);
    hide Tier0Stage, Norm, IngestedVel, Guard, FuseConfig.Valid, ScoresOf, Lowered;
    CalibValid(cfg);
    TripMeaning(cfg.calib, inp.obs.t, ZeroVec(NFEAT), {});
    assert !Hit(cfg, TickScores(cfg, inp));
    NoHit(rt.fsm.hist);
  }

  lemma CalibValid(cfg: FuseConfig)
    requires cfg.Valid()
    ensures cfg.calib.Valid()
  {}

  lemma NoHit(hist: seq<bool>)
    ensures RecentHits(hist + [false], 1) == 0
  {}

  /** A clampable soft trip clamps; a clean tick after it clears down. */
  lemma ClampsThenClears(cfg: FuseConfig, rt: FsmRt, pos: Vec, inp: FsmInput)
    requires FsmFits(cfg, rt) && |cfg.boxLo| == |cfg.boxHi| == |pos| == cfg.dim && cfg.hyst.clearTicks == 0
    requires !Faulty(inp) && Running(rt.state) && BRAKE !in inp.trips && inp.softClampable && !inp.predictive
    requires rt.clampStreak < cfg.hyst.clampStreakToBrake && rt.clamps <= cfg.hyst.maxClampsPerEpisode
    ensures var rt' := Next(cfg, rt, pos, inp).rt;
            && (inp.trips * TIER0_SOFT != {} ==> rt'.state == Clamped)
            && (inp.trips * TIER0_SOFT == {} && rt.state == Clamped ==> rt'.state == Armed)
            && rt'.clampStreak <= rt.clampStreak + 1 && rt'.clamps <= rt.clamps + 1
  {
    hide ClampBox, AcceptedAck, FromHeld, FromEscalated, FromBraking, ClampReason, RecentHits;
  }

  /** What Tier 0 finds on the two ticks, and that the moved row stays current. */
  lemma MovingTrips(sqrt: real -> real, rt: Rt, inp: TickInput)
    requires IsSqrt(sqrt)
    requires var cfg := ClampingArm(sqrt);
             && RtFits(cfg, rt) && Admissible(cfg, rt, inp) && inp == Resting(inp.obs.t, inp.chunk, inp.ack)
             && (if inp.chunk.Some? then inp.chunk.value.rows == OUTSIDE else rt.cur.Some? && rt.cur.value.rows == EDGE)
    ensures ClampingArm(sqrt).Valid()
    ensures var trips := Tier0Trips(ClampingArm(sqrt), rt, inp);
            && (if inp.chunk.Some? then WORKSPACE in trips && BRAKE !in trips else trips == {})
            && trips <= TIER0_SOFT + {BRAKE}
    ensures var rt' := Decide(ClampingArm(sqrt), rt, inp).0; rt'.cur.Some? && rt'.cur.value.rows == EDGE
  {
    hide IsSqrt, FuseConfig.Valid, Next, Recorded, TickScores, ClampBox, DeliveryCheck, CommittedCheck, VerdictOf, EventsOf,
         FsmInputOf, Guard, ChunkOut, RtFits, TableInput, Decide;
    ClampingArmValid(sqrt);
    var cfg := ClampingArm(sqrt);
    AdmissibleTick(cfg, rt, inp);
    var rt1 := Ingested(cfg, rt, inp);
    if inp.chunk.Some? {
      DeliveryMoves(sqrt, inp.obs, inp.chunk.value);
      MovedToEdge(sqrt, inp.obs);
    } else {
      var scratch := if rt1.scratch.Some? then rt1.scratch.value else rt1.cur.value;
      StoredShapes(cfg, rt1);
      CommittedPasses(sqrt, inp.obs, rt1.lastCmd, rt1.cur.value, scratch);
    }
    TripsAreTheStage(cfg, rt, inp);
    Tier0Bits(cfg, rt1, inp);
    TickCur(cfg, rt, inp);
  }

  lemma StoredShapes(cfg: FuseConfig, rt: Rt)
    requires RtFits(cfg, rt)
    ensures |rt.lastCmd| == cfg.dim
    ensures rt.cur.Some? ==> Shaped(rt.cur.value.rows, cfg.horizon, cfg.dim)
    ensures rt.scratch.Some? ==> Shaped(rt.scratch.value.rows, cfg.horizon, cfg.dim)
  {}

  lemma MovingAdmitted(sqrt: real -> real, rt: Rt, inp: TickInput)
    requires inp == Resting(inp.obs.t, inp.chunk, inp.ack)
    requires if inp.chunk.Some? then rt.seqNo == 0 && rt.nextChunkSeq == 0 && inp.obs.t == 0
                                     && inp.chunk == Some(Chunk(0, 0, 1, 1, 1, OUTSIDE, true))
             else rt.seqNo > 0 && rt.cur.Some? && inp.obs.t == rt.lastT + 1
    ensures Admissible(ClampingArm(sqrt), rt, inp)
  {
    RestingAdmitted(sqrt, rt, inp);
  }

  /** After the first tick. */
  ghost predicate OnTheEdge(rt: Rt) {
    && rt.seqNo == 1 && rt.lastT == 0 && rt.cur.Some? && rt.cur.value.rows == EDGE
    && rt.fsm.state == Clamped && rt.fsm.clampStreak <= 1 && rt.fsm.clamps <= 1
  }

  /** One of the two ticks, through the table. */
  lemma MovingTick(sqrt: real -> real, rt: Rt, inp: TickInput)
    requires IsSqrt(sqrt) && ClampingArm(sqrt).Valid() && RtFits(ClampingArm(sqrt), rt) && inp.Fits()
    requires Admissible(ClampingArm(sqrt), rt, inp)
    requires Running(rt.fsm.state) && rt.fsm.clampStreak <= 1 && rt.fsm.clamps <= 1
    requires BRAKE !in Tier0Trips(ClampingArm(sqrt), rt, inp) && Tier0Trips(ClampingArm(sqrt), rt, inp) <= TIER0_SOFT + {BRAKE}
    ensures var trips, fsm := Tier0Trips(ClampingArm(sqrt), rt, inp), Decide(ClampingArm(sqrt), rt, inp).0.fsm;
            && (trips * TIER0_SOFT != {} ==> fsm.state == Clamped)
            && (trips * TIER0_SOFT == {} && rt.fsm.state == Clamped ==> fsm.state == Armed)
            && fsm.clampStreak <= rt.fsm.clampStreak + 1 && fsm.clamps <= rt.fsm.clamps + 1
  {
    hide Decide, IsSqrt, TableInput, Next, FuseConfig.Valid, RtFits, Guard;
    var cfg := ClampingArm(sqrt);
    Shapes(cfg, rt);
    TickIsTableStep(cfg, rt, inp);
    NothingPredicted(sqrt, rt, inp);
    var (fsm, pos, fin) := TableInput(cfg, rt, inp);
    NoFaultBits(fin.trips);
    ClampsThenClears(cfg, fsm, pos, fin);
  }

  lemma FirstClamps(sqrt: real -> real)
    requires IsSqrt(sqrt)
    ensures ClampingArm(sqrt).Valid() && RtFits(ClampingArm(sqrt), Fresh(1))
    ensures OnTheEdge(Decide(ClampingArm(sqrt), Fresh(1), MovedRun()[0]).0)
  {
    hide Decide, IsSqrt, FuseConfig.Valid, RtFits, Guard, Tier0Trips;
    var cfg, rt, inp := ClampingArm(sqrt), Fresh(1), MovedRun()[0];
    ClampingArmValid(sqrt);
    FreshFits(cfg);
    MovingAdmitted(sqrt, rt, inp);
    MovingTrips(sqrt, rt, inp);
    assert WORKSPACE in Tier0Trips(cfg, rt, inp) * TIER0_SOFT;
    MovingTick(sqrt, rt, inp);
    TickNumbers(cfg, rt, inp);
    LastTick(cfg, rt, inp);
  }

  lemma SecondForwards(sqrt: real -> real, rt: Rt)
    requires IsSqrt(sqrt) && ClampingArm(sqrt).Valid() && RtFits(ClampingArm(sqrt), rt) && OnTheEdge(rt)
    ensures var v := Decide(ClampingArm(sqrt), rt, MovedRun()[1]).1; v.src == SrcPolicy && !v.substituted && v.action == EDGE[0]
  {
    hide Decide, IsSqrt, FuseConfig.Valid, RtFits, Guard, Tier0Trips;
    var cfg, inp := ClampingArm(sqrt), MovedRun()[1];
    ClampingArmValid(sqrt);
    MovingAdmitted(sqrt, rt, inp);
    MovingTrips(sqrt, rt, inp);
    MovingTick(sqrt, rt, inp);
    TickNumbers(cfg, rt, inp);
    SourceShown(cfg, rt, inp);
    PolicyActs(cfg, rt, inp);
  }

  /** From reset, two ticks to an action that is not the raw row though the verdict is not marked substituted: the delivery
      is clamped, and the next tick forwards the moved row as the policy's. */
  lemma UnmarkedRowNotRaw(sqrt: real -> real)
    requires IsSqrt(sqrt)
    ensures var cfg := ClampingArm(sqrt);
            && cfg.Valid() && cfg.mode == Enforce && AllInputsFit(MovedRun()) && |MovedRun()| == 2
            && var v := VerdictAt(cfg, MovedRun(), 1);
               v.src == SrcPolicy && !v.substituted && v.action == [1.0] && OUTSIDE[0] == [2.0]
  {
    hide Decide, IsSqrt, Fresh, ClampingArm, RtFits, OnTheEdge, Resting;
    FirstClamps(sqrt);
    ClampingDim(sqrt);
    var cfg, inps := ClampingArm(sqrt), MovedRun();
    assert inps[..0] == [];
    StateStep(cfg, inps, 0);
    SecondForwards(sqrt, StateAfter(cfg, inps[..1]));
  }

  lemma ClampingDim(sqrt: real -> real)
    requires IsSqrt(sqrt)
    ensures ClampingArm(sqrt).dim == 1 && ClampingArm(sqrt).mode == Enforce && ClampingArm(sqrt).Valid()
  {
    ClampingArmValid(sqrt);
  }
}
