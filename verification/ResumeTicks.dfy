/** The one tick that forwards the policy over a failed check: an operator's Resume, exactly when, and a run that gets
    there. */
module ResumeTicks {
  import opened Ints
  import opened Options
  import opened Fmath
  import opened Core
  import opened Tier0
  import opened Brake
  import opened Fsm
  import opened Tally
  import opened Fuse
  import opened Runs
  import opened TickFacts

  /** A Resume that the table accepts, known before the tick. */
  ghost predicate Resumes(cfg: FuseConfig, rt: Rt, inp: TickInput)
    requires |rt.fsm.lastNonce| == MAX_OPERATORS
  {
    && Admissible(cfg, rt, inp) && (rt.fsm.state == Escalated || rt.fsm.state == Held)
    && AcceptedAck(rt.fsm, inp.ack).Some? && AcceptedAck(rt.fsm, inp.ack).value.decision == AckDecision.Resume
  }

  /** What Tier 0 finds on this tick. */
  ghost function Tier0Trips(cfg: FuseConfig, rt: Rt, inp: TickInput): Trips
    requires cfg.Valid() && RtFits(cfg, rt) && inp.Fits()
  {
    TableInput(cfg, rt, inp).2.trips
  }

  lemma TableRearms(cfg: FuseConfig, rt: FsmRt, pos: Vec, inp: FsmInput)
    requires FsmFits(cfg, rt) && |cfg.boxLo| == |cfg.boxHi| == |pos| == cfg.dim
    ensures var o, a := Next(cfg, rt, pos, inp), AcceptedAck(rt, inp.ack);
            && (o.reason == RearmedAck
                <==> !Faulty(inp) && (rt.state == Escalated || rt.state == Held)
                     && a.Some? && a.value.decision == AckDecision.Resume)
            && (o.reason == RearmedAck ==> o.rt.state == Armed && o.extra == {})
  {
    hide ClampBox, FromBraking, AcceptedAck;
    var clean := Clean(inp);
    BrakingReason(cfg, rt.(cleanRun := if clean then Inc16(rt.cleanRun) else 0), pos, inp);
  }

  lemma BrakingReason(cfg: FuseConfig, rt: FsmRt, pos: Vec, inp: FsmInput)
    requires |cfg.boxLo| == |cfg.boxHi| == |pos|
    ensures FromBraking(cfg, rt, pos, inp).reason != RearmedAck
  {}

  lemma RearmsExactly(cfg: FuseConfig, rt: Rt, inp: TickInput)
    requires cfg.Valid() && RtFits(cfg, rt) && inp.Fits()
    ensures var v := Decide(cfg, rt, inp).1;
            && (v.reason == RearmedAck <==> Resumes(cfg, rt, inp))
            && (Resumes(cfg, rt, inp) ==> v.state == Armed && v.trips == Tier0Trips(cfg, rt, inp))
  {
    hide Next, Decide, Guard, TableInput, AcceptedAck;
    TickIsTableStep(cfg, rt, inp);
    FedTable(cfg, rt, inp);
    var (fsm, pos, fin) := TableInput(cfg, rt, inp);
    AckIgnoresWindow(rt.fsm, fsm.hist, inp.ack);
    TableRearms(cfg, fsm, pos, fin);
  }

  lemma SourceShown(cfg: FuseConfig, rt: Rt, inp: TickInput)
    requires cfg.Valid() && RtFits(cfg, rt) && inp.Fits() && cfg.mode == Enforce && Admissible(cfg, rt, inp)
    ensures Decide(cfg, rt, inp).1.src == SourceOf(Decide(cfg, rt, inp).1.state)
  {
    hide Next, Tier0Stage, Recorded, TickScores, ClampBox, EventsOf, FsmInputOf, IngestedVel, ActionOf;
    AdmissibleTick(cfg, rt, inp);
  }

  /** In Enforce, a tick forwards the policy with a trip bit set if and only if it is a Resume and Tier 0 found something.
      On every Resume tick the policy is forwarded, with exactly the bits Tier 0 found. */
  lemma ForwardsTripsExactly(cfg: FuseConfig, rt: Rt, inp: TickInput)
    requires cfg.Valid() && RtFits(cfg, rt) && inp.Fits() && cfg.mode == Enforce
    ensures var v := Decide(cfg, rt, inp).1;
            && (v.src == SrcPolicy && v.trips != {} <==> Resumes(cfg, rt, inp) && Tier0Trips(cfg, rt, inp) != {})
            && (Resumes(cfg, rt, inp) ==> v.src == SrcPolicy && v.trips == Tier0Trips(cfg, rt, inp))
  {
    RearmsExactly(cfg, rt, inp);
    NothingForwardedPastAFailedCheck(cfg, rt, inp);
    if Resumes(cfg, rt, inp) {
      SourceShown(cfg, rt, inp);
    }
    hide Decide, Guard, TableInput, AcceptedAck, Feasible;
  }

  // ---- a run that gets there ----------------------------------------------------------------------------------

  /** A one-dimensional arm in the unit box, workspace armed, no projection. */
  function UnitArm(sqrt: real -> real): FuseConfig {
    var h := Hysteresis(1, 1, 0.0, 0, 9, 9, 1, 0.0, 9, AckOnly, 0, 1, 9, 9, 0);
    var tables := seq(100, _ => ZeroVec(NFEAT));
    var ones := seq(100, _ => seq(NFEAT, _ => 1.0));
    FuseConfig(Enforce, 1, 1, 1, 1.0, 1.0, 1.0, 1.0, [0.0], [1.0], 1.0, 1.0, 1.0, 1.0, None,
               BrakeModel(1.0, 1.0, 1, 1.0, 1, 1), Off, h, 1, {WORKSPACE},
               Calibration({}, [], PosInf, 1, 1, tables, ones), sqrt, 0.5)
  }

  lemma UnitArmValid(sqrt: real -> real)
    requires IsSqrt(sqrt)
    ensures UnitArm(sqrt).Valid()
  {
    hide IsSqrt;
  }

  const OUTSIDE: seq<Vec> := [[2.0]]

  /** The arm rests at the middle of the box; the chunk asks for a point outside it. */
  function Resting(t: u32, chunk: Option<Chunk>, ack: Option<VerifiedAck>): (r: TickInput)
    ensures r.Fits()
  {
    TickInput(Obs(t, [0.5], Some([0.0]), [], [], true, true, true, true), chunk, 0, 0, ack, false,
              Features(ZeroVec(NFEAT), {}))
  }

  /** A delivery, a tick at rest, and an operator's Resume. */
  function ResumeRun(): seq<TickInput> {
    [Resting(0, Some(Chunk(0, 0, 1, 1, 1, OUTSIDE, true)), None), Resting(1, None, None),
     Resting(2, None, Some(VerifiedAck(AckDecision.Resume, 0, 1, 0)))]
  }

  /** What the run's states have in common after `n >= 1` ticks. */
  ghost predicate OnTheWay(rt: Rt, n: nat) {
    && rt.seqNo == n && rt.lastT == n - 1 && rt.cur.Some? && rt.cur.value.rows == OUTSIDE
    && rt.fsm.handoffSeq == 0 && rt.fsm.lastNonce == NoNonces()
  }

  lemma OutsideTrips(cfg: FuseConfig)
    requires |cfg.boxLo| == |cfg.boxHi| == 1 && cfg.boxHi[0] == 1.0
    ensures Outside(cfg, OUTSIDE[0])
  {
    assert OUTSIDE[0][0] == 2.0;
  }

  /** A delivery of the outside chunk trips the workspace and becomes the current chunk. */
  lemma DeliveryTrips(sqrt: real -> real, obs: Obs, vel: Vec, ch: Chunk)
    requires UnitArm(sqrt).Valid() && |obs.pos| == |vel| == 1 && ch.rows == OUTSIDE
    ensures var t0 := DeliveryCheck(UnitArm(sqrt), obs, vel, ch, 0); WORKSPACE in t0.trips && t0.cur.rows == OUTSIDE
  {
    var cfg := UnitArm(sqrt);
    OutsideTrips(cfg);
    assert WorkspaceTrips(cfg, Resolve(cfg, obs), obs.pos, ch.rows);
    hide FuseConfig.Valid, Dist, Norm, RolloutMargin, MovedDims, PeakStep, AccelTrips, JerkTrips, ReachTrips, SpeedTrips,
         ContactTrips, WorkspaceTrips;
  }

  /** So does its row between deliveries. */
  lemma CommittedTrips(sqrt: real -> real, obs: Obs, vel: Vec, last: Vec, cur: Chunk, scratch: Chunk)
    requires UnitArm(sqrt).Valid() && |obs.pos| == |vel| == |last| == 1 && cur.rows == OUTSIDE && Shaped(scratch.rows, 1, 1)
    ensures var t0 := CommittedCheck(UnitArm(sqrt), obs, vel, last, cur, scratch, 0); WORKSPACE in t0.trips && t0.cur == cur
  {
    OutsideTrips(UnitArm(sqrt));
    hide FuseConfig.Valid, Dist, Norm, RolloutMargin, MovedNow, ActionOut, Outside;
  }

  /** Every admissible tick at rest with the outside chunk trips the workspace. */
  lemma RestingTrips(sqrt: real -> real, rt: Rt, inp: TickInput)
    requires IsSqrt(sqrt)
    requires var cfg := UnitArm(sqrt);
             && RtFits(cfg, rt) && Admissible(cfg, rt, inp) && inp == Resting(inp.obs.t, inp.chunk, inp.ack)
             && (if inp.chunk.Some? then inp.chunk.value.rows == OUTSIDE else rt.cur.Some? && rt.cur.value.rows == OUTSIDE)
    ensures UnitArm(sqrt).Valid() && WORKSPACE in Tier0Trips(UnitArm(sqrt), rt, inp)
    ensures var rt' := Decide(UnitArm(sqrt), rt, inp).0; rt'.cur.Some? && rt'.cur.value.rows == OUTSIDE
  {
    UnitArmValid(sqrt);
    var cfg := UnitArm(sqrt);
    AdmissibleTick(cfg, rt, inp);
    hide IsSqrt, FuseConfig.Valid, Next, Recorded, TickScores, ClampBox, DeliveryCheck, CommittedCheck, VerdictOf, EventsOf,
         FsmInputOf, IngestedVel;
    var rt1 := Ingested(cfg, rt, inp);
    if inp.chunk.Some? {
      DeliveryTrips(sqrt, inp.obs, rt1.vel, inp.chunk.value);
    } else {
      var scratch := if rt1.scratch.Some? then rt1.scratch.value else rt1.cur.value;
      CommittedTrips(sqrt, inp.obs, rt1.vel, rt1.lastCmd, rt1.cur.value, scratch);
    }
    TripsAreTheStage(cfg, rt, inp);
  }

  lemma TripsAreTheStage(cfg: FuseConfig, rt: Rt, inp: TickInput)
    requires cfg.Valid() && RtFits(cfg, rt) && inp.Fits() && Admissible(cfg, rt, inp)
    ensures |inp.obs.pos| == cfg.dim && (inp.obs.vel.Some? ==> |inp.obs.vel.value| == cfg.dim) && inp.idx < cfg.horizon
    ensures if inp.chunk.Some? then Shaped(inp.chunk.value.rows, cfg.horizon, cfg.dim) else rt.cur.Some?
    ensures Tier0Trips(cfg, rt, inp) == Tier0Stage(cfg, Ingested(cfg, rt, inp), inp).trips
  {
    hide Tier0Stage, TickScores, IngestedVel, Ingested, Guard, Hit, Warn, Norm, Decide, Decided, RtFits;
    AdmissibleTick(cfg, rt, inp);
  }

  /** Between deliveries and on time, nothing trips the guard. */
  lemma RestingAdmitted(sqrt: real -> real, rt: Rt, inp: TickInput)
    requires inp == Resting(inp.obs.t, inp.chunk, inp.ack)
    requires if inp.chunk.Some? then rt.seqNo == 0 && rt.nextChunkSeq == 0 && inp.obs.t == 0
                                     && inp.chunk == Some(Chunk(0, 0, 1, 1, 1, OUTSIDE, true))
             else rt.seqNo > 0 && rt.cur.Some? && inp.obs.t == rt.lastT + 1
    ensures Admissible(UnitArm(sqrt), rt, inp)
  {
    assert !NonFinite(inp) && !BreaksSchema(UnitArm(sqrt), rt, inp);
  }

  /** Braking is entered with its counters at zero. */
  lemma BrakingStartsAtZero(cfg: FuseConfig, rt: FsmRt, pos: Vec, inp: FsmInput)
    requires FsmFits(cfg, rt) && |cfg.boxLo| == |cfg.boxHi| == |pos| == cfg.dim && Running(rt.state)
    ensures var rt' := Next(cfg, rt, pos, inp).rt; rt'.state == Braking ==> rt'.brakeTicks == 0 && rt'.stoppedTicks == 0
  {
    hide ClampBox, AcceptedAck, FromHeld, FromEscalated, FromBraking;
  }

  lemma ZeroIsStopped(sqrt: real -> real)
    requires IsSqrt(sqrt)
    ensures Norm(sqrt, [0.0], 1) == 0.0
  {
    assert SqNorm([0.0], 1) == 0.0;
    SqrtUnique(sqrt, 0.0, 0.0);
  }

  /** What a resting tick carries from one state to the next. */
  lemma RestingCarries(sqrt: real -> real, rt: Rt, inp: TickInput)
    requires IsSqrt(sqrt) && UnitArm(sqrt).Valid() && RtFits(UnitArm(sqrt), rt) && inp.ack.None? && inp.Fits()
    requires Admissible(UnitArm(sqrt), rt, inp) && rt.fsm.handoffSeq == 0 && rt.fsm.lastNonce == NoNonces()
    requires Decide(UnitArm(sqrt), rt, inp).0.fsm.state != Escalated
    ensures var rt' := Decide(UnitArm(sqrt), rt, inp).0;
            && rt'.seqNo == Inc32(rt.seqNo) && rt'.lastT == inp.obs.t
            && rt'.fsm.handoffSeq == 0 && rt'.fsm.lastNonce == NoNonces()
  {
    hide Decide, Guard, IsSqrt;
    var cfg := UnitArm(sqrt);
    TickNumbers(cfg, rt, inp);
    TickMovesHandoff(cfg, rt, inp);
    TickAck(cfg, rt, inp);
    NoAckAccepted(rt.fsm);
    LastTick(cfg, rt, inp);
  }

  lemma LastTick(cfg: FuseConfig, rt: Rt, inp: TickInput)
    requires cfg.Valid() && RtFits(cfg, rt) && inp.Fits() && Admissible(cfg, rt, inp)
    ensures Decide(cfg, rt, inp).0.lastT == inp.obs.t
  {
    hide Next, Recorded, TickScores, ClampBox, Tier0Stage, VerdictOf, EventsOf, FsmInputOf, IngestedVel, ActionOf;
    AdmissibleTick(cfg, rt, inp);
  }

  /** First tick: the delivery brakes. */
  lemma FirstBrakes(sqrt: real -> real, rt: Rt)
    requires IsSqrt(sqrt) && rt == Fresh(1)
    ensures UnitArm(sqrt).Valid() && RtFits(UnitArm(sqrt), rt)
    ensures var rt' := Decide(UnitArm(sqrt), rt, ResumeRun()[0]).0;
            OnTheWay(rt', 1) && rt'.fsm.state == Braking && rt'.fsm.brakeTicks == 0 && rt'.fsm.stoppedTicks == 0
  {
    var cfg, inp := UnitArm(sqrt), ResumeRun()[0];
    UnitArmValid(sqrt);
    FreshFits(cfg);
    RestingAdmitted(sqrt, rt, inp);
    RestingTrips(sqrt, rt, inp);
    TickIsTableStep(cfg, rt, inp);
    FedTable(cfg, rt, inp);
    var (fsm, pos, fin) := TableInput(cfg, rt, inp);
    assert !fin.softClampable && WORKSPACE in fin.trips * TIER0_SOFT && Running(fsm.state);
    hide Decide, Guard, IsSqrt, TableInput, Next;
    BrakingEntered(cfg, fsm, pos, fin);
    BrakingStartsAtZero(cfg, fsm, pos, fin);
    RestingCarries(sqrt, rt, inp);
  }

  /** Second tick: at rest, the stop is confirmed. */
  lemma SecondHolds(sqrt: real -> real, rt: Rt)
    requires IsSqrt(sqrt) && UnitArm(sqrt).Valid() && RtFits(UnitArm(sqrt), rt) && OnTheWay(rt, 1)
    requires rt.fsm.state == Braking && rt.fsm.brakeTicks == 0 && rt.fsm.stoppedTicks == 0
    ensures var rt' := Decide(UnitArm(sqrt), rt, ResumeRun()[1]).0; OnTheWay(rt', 2) && rt'.fsm.state == Held
  {
    var cfg, inp := UnitArm(sqrt), ResumeRun()[1];
    RestingAdmitted(sqrt, rt, inp);
    RestingTrips(sqrt, rt, inp);
    TickIsTableStep(cfg, rt, inp);
    FedTable(cfg, rt, inp);
    ZeroIsStopped(sqrt);
    StoppedAtRest(sqrt, rt, inp);
    var (fsm, pos, fin) := TableInput(cfg, rt, inp);
    hide Decide, Guard, IsSqrt, TableInput, Next;
    HeldEntered(cfg, fsm, pos, fin);
    RestingCarries(sqrt, rt, inp);
  }

  lemma StoppedAtRest(sqrt: real -> real, rt: Rt, inp: TickInput)
    requires IsSqrt(sqrt) && UnitArm(sqrt).Valid() && RtFits(UnitArm(sqrt), rt) && Norm(sqrt, [0.0], 1) == 0.0
    requires inp == Resting(inp.obs.t, inp.chunk, inp.ack) && Admissible(UnitArm(sqrt), rt, inp)
    ensures TableInput(UnitArm(sqrt), rt, inp).2.stopped
  {
    hide Tier0Stage, TickScores, Norm, IsSqrt, Hit, Warn;
    AdmissibleTick(UnitArm(sqrt), rt, inp);
  }

  /** Third tick: the Resume is accepted and forwards the row. */
  lemma ThirdForwards(sqrt: real -> real, rt: Rt)
    requires IsSqrt(sqrt) && UnitArm(sqrt).Valid() && RtFits(UnitArm(sqrt), rt) && OnTheWay(rt, 2) && rt.fsm.state == Held
    ensures var v := Decide(UnitArm(sqrt), rt, ResumeRun()[2]).1;
            v.src == SrcPolicy && WORKSPACE in v.trips && v.reason == RearmedAck
  {
    var cfg, inp := UnitArm(sqrt), ResumeRun()[2];
    RestingAdmitted(sqrt, rt, inp);
    RestingTrips(sqrt, rt, inp);
    assert AcceptedAck(rt.fsm, inp.ack) == inp.ack;
    hide Decide, IsSqrt, Guard, TableInput, AcceptedAck;
    ForwardsTripsExactly(cfg, rt, inp);
    RearmsExactly(cfg, rt, inp);
  }

  /** From reset, three ticks forward the policy outside the box: the delivery brakes, the robot at rest is held, and the
      operator's Resume lets the same row through with the workspace bit set. */
  lemma ResumeForwardsATrip(sqrt: real -> real)
    requires IsSqrt(sqrt)
    ensures var cfg := UnitArm(sqrt);
            && cfg.Valid() && cfg.mode == Enforce && AllInputsFit(ResumeRun()) && |ResumeRun()| == 3
            && var v := VerdictAt(cfg, ResumeRun(), 2);
            && v.src == SrcPolicy && WORKSPACE in v.trips && v.reason == RearmedAck
  {
    hide Decide, IsSqrt, Fresh, UnitArm, RtFits, OnTheWay, Resting;
    ArmDim(sqrt);
    FirstBrakes(sqrt, Fresh(1));
    var cfg, inps := UnitArm(sqrt), ResumeRun();
    assert inps[..0] == [];
    StateStep(cfg, inps, 0);
    StateStep(cfg, inps, 1);
    SecondHolds(sqrt, StateAfter(cfg, inps[..1]));
    ThirdForwards(sqrt, StateAfter(cfg, inps[..2]));
  }

  lemma ArmDim(sqrt: real -> real)
    requires IsSqrt(sqrt)
    ensures UnitArm(sqrt).dim == 1 && UnitArm(sqrt).mode == Enforce && UnitArm(sqrt).Valid()
  {
    UnitArmValid(sqrt);
  }
}
