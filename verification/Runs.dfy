/** Theorems over whole episodes of the fuse. */
module Runs {
  import opened Options
  import opened Fmath
  import opened Core
  import opened Tier0
  import opened Brake
  import opened Fsm
  import opened Tally
  import opened Fuse

  ghost predicate AllInputsFit(inps: seq<TickInput>) { forall i :: 0 <= i < |inps| ==> inps[i].Fits() }

  /** The state after a whole input sequence, from `reset`. */
  ghost function StateAfter(cfg: FuseConfig, inps: seq<TickInput>): (r: Rt)
    requires cfg.Valid() && AllInputsFit(inps)
    ensures RtFits(cfg, r)
  {
    if inps == [] then Fresh(cfg.dim)
    else Decide(cfg, StateAfter(cfg, inps[..|inps| - 1]), inps[|inps| - 1]).0
  }

  /** The verdict of tick `i`. */
  ghost function VerdictAt(cfg: FuseConfig, inps: seq<TickInput>, i: nat): Verdict
    requires cfg.Valid() && AllInputsFit(inps) && i < |inps|
  {
    Decide(cfg, StateAfter(cfg, inps[..i]), inps[i]).1
  }

  ghost function Verdicts(cfg: FuseConfig, inps: seq<TickInput>): (r: seq<Verdict>)
    requires cfg.Valid() && AllInputsFit(inps)
    ensures |r| == |inps| && forall i :: 0 <= i < |inps| ==> r[i] == VerdictAt(cfg, inps, i)
  {
    seq(|inps|, i requires 0 <= i < |inps| => VerdictAt(cfg, inps, i))
  }

  lemma StateStep(cfg: FuseConfig, inps: seq<TickInput>, i: nat)
    requires cfg.Valid() && AllInputsFit(inps) && i < |inps|
    ensures StateAfter(cfg, inps[..i + 1]) == Decide(cfg, StateAfter(cfg, inps[..i]), inps[i]).0
  {
    hide Decide;
    assert inps[..i + 1][..i] == inps[..i];
  }

  lemma VerdictsSnoc(cfg: FuseConfig, inps: seq<TickInput>)
    requires cfg.Valid() && AllInputsFit(inps) && inps != []
    ensures var n := |inps| - 1;
            Verdicts(cfg, inps) == Verdicts(cfg, inps[..n]) + [Decide(cfg, StateAfter(cfg, inps[..n]), inps[n]).1]
  {
    hide Decide;
    var n := |inps| - 1;
    forall i | 0 <= i < n
      ensures VerdictAt(cfg, inps, i) == VerdictAt(cfg, inps[..n], i)
    {
      assert inps[..n][..i] == inps[..i];
    }
  }

  // ---- the shape of one tick ------------------------------------------------------------------------------

  /** An admissible tick, stage by stage. */
  lemma AdmissibleTick(cfg: FuseConfig, rt: Rt, inp: TickInput)
    requires cfg.Valid() && RtFits(cfg, rt) && inp.Fits() && Admissible(cfg, rt, inp)
    ensures |inp.obs.pos| == cfg.dim && (inp.obs.vel.Some? ==> |inp.obs.vel.value| == cfg.dim) && inp.idx < cfg.horizon
    ensures if inp.chunk.Some? then Shaped(inp.chunk.value.rows, cfg.horizon, cfg.dim) else rt.cur.Some?
    ensures var rt1 := Ingested(cfg, rt, inp);
            Decide(cfg, rt, inp) == Decided(cfg, rt1, inp, Tier0Stage(cfg, rt1, inp))
  {
    hide Decided, Tier0Stage, FaultTick, Ingested;
    AdmissibleShapes(cfg, rt, inp);
  }

  /** What the table is given on this tick: its own state (with the newest hit recorded on an admissible tick), the
      position and the inputs. */
  ghost function TableInput(cfg: FuseConfig, rt: Rt, inp: TickInput): (r: (FsmRt, Vec, FsmInput))
    requires cfg.Valid() && RtFits(cfg, rt) && inp.Fits()
    ensures FsmFits(cfg, r.0) && |r.1| == cfg.dim && r.0 == rt.fsm.(hist := r.0.hist)
    ensures r.2.softClampable == (cfg.clamp == Project) && (r.2.ack == inp.ack || r.2.ack == None)
  {
    if Guard(cfg, rt, inp) != {} then
      (rt.fsm, if |inp.obs.pos| == cfg.dim && inp.obs.posFinite then inp.obs.pos else rt.pos,
       FaultInput(cfg, inp, Guard(cfg, rt, inp)))
    else
      AdmissibleShapes(cfg, rt, inp);
      var rt1 := Ingested(cfg, rt, inp);
      var sc := TickScores(cfg, inp);
      var hist := rt.fsm.hist + [Hit(cfg, sc)];
      (rt.fsm.(hist := hist), inp.obs.pos, FsmInputOf(cfg, rt1, inp, Tier0Stage(cfg, rt1, inp).trips, sc, hist))
  }

  /** Every tick, guarded or not, is one step of the table. */
  lemma TickIsTableStep(cfg: FuseConfig, rt: Rt, inp: TickInput)
    requires cfg.Valid() && RtFits(cfg, rt) && inp.Fits()
    ensures var (fsm, pos, fin) := TableInput(cfg, rt, inp);
            var o := Next(cfg, fsm, pos, fin);
            var (rt', v) := Decide(cfg, rt, inp);
            && rt'.fsm == o.rt && v.state == o.rt.state && v.prevState == rt.fsm.state && v.reason == o.reason
            && v.trips == fin.trips + o.extra && v.ackConsumed == (inp.ack.Some? && fin.ack.Some? && AckReason(o.reason))
  {
    hide Next, Tier0Stage, Recorded, TickScores, ClampBox;
    if Admissible(cfg, rt, inp) {
      AdmissibleTick(cfg, rt, inp);
    }
  }

  /** The bits TIER 0 can raise. */
  lemma Tier0Bits(cfg: FuseConfig, rt: Rt, inp: TickInput)
    requires cfg.Valid() && RtFits(cfg, rt) && |inp.obs.pos| == cfg.dim && inp.idx < cfg.horizon
    requires if inp.chunk.Some? then Shaped(inp.chunk.value.rows, cfg.horizon, cfg.dim) else rt.cur.Some?
    ensures var t0 := Tier0Stage(cfg, rt, inp);
            t0.trips <= TIER0_SOFT + {BRAKE} && (BRAKE in t0.trips <==> !NonNegative(t0.margin))
  {
    hide Dist, Masked0, RawTrips, ActionTrips, RolloutMargin, MovedDims, MovedNow, ChunkOut, ActionOut, NonNegative;
    if inp.chunk.Some? {
      var rows := inp.chunk.value.rows;
      UnarmedNeverTrips(cfg, inp.obs, rows);
      MaskBits(cfg, CheckedChunk(cfg, inp.obs, rows).trips, NonNegative(Tier0Stage(cfg, rt, inp).margin));
    } else {
      var a := rt.cur.value.rows[inp.idx];
      UnarmedActionNeverTrips(cfg, inp.obs, rt.lastCmd, a);
      MaskBits(cfg, CheckedAction(cfg, inp.obs, rt.lastCmd, a).trips, NonNegative(Tier0Stage(cfg, rt, inp).margin));
    }
  }

  lemma MaskBits(cfg: FuseConfig, soft: Trips, feasible: bool)
    requires soft <= cfg.tier0Enabled * TIER0_SOFT
    ensures Masked0(cfg, soft, feasible) <= TIER0_SOFT + {BRAKE}
    ensures BRAKE in Masked0(cfg, soft, feasible) <==> !feasible
  {}

  lemma NoFaultBits(trips: Trips)
    requires trips <= TIER0_SOFT + {BRAKE}
    ensures trips * FAULT_BITS == {}
  {
    assert trips * FAULT_BITS <= (TIER0_SOFT + {BRAKE}) * FAULT_BITS == {};
  }

  // ---- nothing is forwarded past a failed check -----------------------------------------------------------

  /** The state machine forwards (Armed or Watching) only past a clean Tier-0 result, unless an operator resumed. */
  lemma ForwardIsClean(cfg: FuseConfig, rt: FsmRt, pos: Vec, inp: FsmInput)
    requires FsmFits(cfg, rt) && |cfg.boxLo| == |cfg.boxHi| == |pos| == cfg.dim
    requires inp.trips <= TIER0_SOFT + {BRAKE} && (inp.chunkOk ==> inp.trips == {})
    ensures var o := Next(cfg, rt, pos, inp);
            && (SourceOf(o.rt.state) == SrcPolicy && o.reason != RearmedAck ==> inp.trips == {} && o.extra == {})
            && (SourceOf(o.rt.state) == SrcPolicy ==> o.extra == {})
            && (SourceOf(o.rt.state) == SrcClamped ==> BRAKE !in inp.trips && o.reason != RearmedAck)
  {
    hide ClampBox, AcceptedAck, FromBraking;
    if Running(rt.state) {
      assert inp.trips * TIER0_SOFT == {} && BRAKE !in inp.trips ==> inp.trips == {};
    }
  }

  /** The rollout along the current chunk from row `idx`, at the plant state of `rt`, is feasible. */
  ghost predicate FeasibleFrom(cfg: FuseConfig, rt: Rt, idx: nat)
    requires cfg.Valid() && RtFits(cfg, rt)
  {
    rt.cur.Some? && Feasible(cfg, PlantState(rt.pos, rt.vel), rt.cur.value.rows, idx)
  }

  /** Over every Enforce tick: a Policy verdict has no trip bit, unless this very tick consumed a Resume ack. A Policy or
      Clamped verdict (same exception) was brake-feasible along the current chunk from the executed row, at the current
      plant state. `ResumeTicks` states the exception by the state before the tick. */
  lemma NothingForwardedPastAFailedCheck(cfg: FuseConfig, rt: Rt, inp: TickInput)
    requires cfg.Valid() && RtFits(cfg, rt) && inp.Fits() && cfg.mode == Enforce
    ensures var v := Decide(cfg, rt, inp).1; v.src == SrcPolicy && v.reason != RearmedAck ==> v.trips == {}
    ensures var r := Decide(cfg, rt, inp);
            (r.1.src == SrcPolicy || r.1.src == SrcClamped) && r.1.reason != RearmedAck ==>
              Admissible(cfg, rt, inp) && FeasibleFrom(cfg, r.0, inp.idx)
  {
    hide Next, Tier0Stage, RolloutMargin, Recorded, TickScores, ClampBox;
    if Admissible(cfg, rt, inp) {
      AdmissibleTick(cfg, rt, inp);
      var rt1 := Ingested(cfg, rt, inp);
      Tier0Bits(cfg, rt1, inp);
      MarginIsOfCurrent(cfg, rt1, inp);
      var (fsm, pos, fin) := TableInput(cfg, rt, inp);
      ForwardIsClean(cfg, fsm, pos, fin);
    }
  }

  /** In Enforce the margin of the tick is the margin along the chunk kept as current. */
  lemma MarginIsOfCurrent(cfg: FuseConfig, rt: Rt, inp: TickInput)
    requires cfg.Valid() && RtFits(cfg, rt) && |inp.obs.pos| == cfg.dim && inp.idx < cfg.horizon && cfg.mode == Enforce
    requires if inp.chunk.Some? then Shaped(inp.chunk.value.rows, cfg.horizon, cfg.dim) else rt.cur.Some?
    ensures var t0 := Tier0Stage(cfg, rt, inp);
            t0.margin == RolloutMargin(cfg, PlantState(inp.obs.pos, rt.vel), t0.cur.rows, inp.idx)
  {
    hide CheckedChunk, CheckedAction, ChunkOut, ActionOut, RolloutMargin, Masked0;
  }

  // ---- what a forwarded row satisfies ---------------------------------------------------------------------

  lemma NotTrippedAction(cfg: FuseConfig, arm: Arm, pos: Vec, prev: Vec, a: Vec)
    requires cfg.Valid() && |pos| == |prev| == |a| == cfg.dim && ActionTrips(cfg, arm, pos, prev, a) == {}
    ensures (arm.workspace ==> InBox(cfg, a)) && (arm.speed ==> Dist(cfg.sqrt, a, prev, cfg.dim) <= cfg.stepMax)
    ensures (arm.contact ==> Dist(cfg.sqrt, a, prev, cfg.dim) <= arm.stepContact)
    ensures (arm.reach ==> Dist(cfg.sqrt, a, pos, cfg.dim) <= cfg.reachMax)
  {
    hide Dist;
    var t := ActionTrips(cfg, arm, pos, prev, a);
    assert SPEED !in t && CONTACT !in t && WORKSPACE !in t && REACH !in t;
  }

  /** Masking with the armed bits drops nothing: an unarmed check never trips. */
  lemma UnarmedNeverTrips(cfg: FuseConfig, obs: Obs, rows: seq<Vec>)
    requires cfg.Valid() && Rows(cfg, obs.pos, rows)
    ensures RawTrips(cfg, Resolve(cfg, obs), obs.pos, rows) <= cfg.tier0Enabled * TIER0_SOFT
  {
    hide Dist, Norm, Outside, StepLength, AccelAt, JerkAt;
  }

  lemma UnarmedActionNeverTrips(cfg: FuseConfig, obs: Obs, prev: Vec, a: Vec)
    requires cfg.Valid() && |obs.pos| == |prev| == |a| == cfg.dim
    ensures ActionTrips(cfg, Resolve(cfg, obs), obs.pos, prev, a) <= cfg.tier0Enabled * TIER0_SOFT
  {
    hide Dist, Outside;
  }

  lemma CleanDelivery(cfg: FuseConfig, obs: Obs, vel: Vec, ch: Chunk, idx: nat)
    requires cfg.Valid() && |obs.pos| == |vel| == cfg.dim && Shaped(ch.rows, cfg.horizon, cfg.dim) && idx < cfg.horizon
    requires DeliveryCheck(cfg, obs, vel, ch, idx).trips == {}
    ensures var t0 := DeliveryCheck(cfg, obs, vel, ch, idx); var arm := Resolve(cfg, obs);
            && t0.cur.rows == ch.rows && t0.scratch.rows == ch.rows
            && (arm.workspace ==> InBox(cfg, ch.rows[idx]))
            && (arm.speed ==> StepLength(cfg, obs.pos, ch.rows, idx) <= cfg.stepMax)
            && (arm.contact ==> StepLength(cfg, obs.pos, ch.rows, idx) <= arm.stepContact)
  {
    hide Dist, Norm, RawTrips, RolloutMargin, ProjectedRows;
    var arm := Resolve(cfg, obs);
    UnarmedNeverTrips(cfg, obs, ch.rows);
    KeptByMask(cfg, CheckedChunk(cfg, obs, ch.rows).trips, NonNegative(DeliveryCheck(cfg, obs, vel, ch, idx).margin));
    UntrippedUnchanged(cfg, obs, ch.rows);
    NoMoversIsAllPass(cfg, arm, obs.pos, ch.rows);
    assert RowPasses(cfg, arm, obs.pos, idx == 0, Before(obs.pos, ch.rows, idx), ch.rows[idx]);
  }

  lemma CleanCommitted(cfg: FuseConfig, obs: Obs, vel: Vec, lastCmd: Vec, cur: Chunk, scratch: Chunk, idx: nat)
    requires cfg.Valid() && |obs.pos| == |vel| == |lastCmd| == cfg.dim && idx < cfg.horizon
    requires Shaped(cur.rows, cfg.horizon, cfg.dim) && Shaped(scratch.rows, cfg.horizon, cfg.dim)
    requires CommittedCheck(cfg, obs, vel, lastCmd, cur, scratch, idx).trips == {}
    ensures ActionTrips(cfg, Resolve(cfg, obs), obs.pos, lastCmd, cur.rows[idx]) == {}
  {
    hide Dist, ActionTrips, RolloutMargin, ActionOut;
    UnarmedActionNeverTrips(cfg, obs, lastCmd, cur.rows[idx]);
    KeptByMask(cfg, ActionTrips(cfg, Resolve(cfg, obs), obs.pos, lastCmd, cur.rows[idx]),
               NonNegative(CommittedCheck(cfg, obs, vel, lastCmd, cur, scratch, idx).margin));
  }

  lemma KeptByMask(cfg: FuseConfig, soft: Trips, feasible: bool)
    requires soft <= cfg.tier0Enabled * TIER0_SOFT
    ensures soft <= Masked0(cfg, soft, feasible)
  {}

  /** What an Enforce verdict with source Policy guarantees about the action itself, wherever the robot is and in both
      clamp modes: inside the box when the workspace is armed; on a delivery it is the raw row, within the speed limit of
      the row before it; between deliveries it is within the speed limit of the previous command and within reach. */
  lemma ForwardedRowIsSafe(cfg: FuseConfig, rt: Rt, inp: TickInput)
    requires cfg.Valid() && RtFits(cfg, rt) && inp.Fits() && cfg.mode == Enforce
    ensures var r := Decide(cfg, rt, inp); var v, en := r.1, cfg.tier0Enabled;
            v.src == SrcPolicy && v.reason != RearmedAck ==>
              && |v.action| == |inp.obs.pos| == cfg.dim && inp.idx < cfg.horizon
              && (WORKSPACE in en ==> InBox(cfg, v.action))
              && (if inp.chunk.Some? then
                    && Shaped(inp.chunk.value.rows, cfg.horizon, cfg.dim) && v.action == inp.chunk.value.rows[inp.idx]
                    && (SPEED in en ==> StepLength(cfg, inp.obs.pos, inp.chunk.value.rows, inp.idx) <= cfg.stepMax)
                  else
                    && rt.cur.Some? && v.action == rt.cur.value.rows[inp.idx]
                    && (SPEED in en ==> Dist(cfg.sqrt, v.action, rt.lastCmd, cfg.dim) <= cfg.stepMax)
                    && (REACH in en ==> Dist(cfg.sqrt, v.action, inp.obs.pos, cfg.dim) <= cfg.reachMax))
  {
    hide Next, DeliveryCheck, CommittedCheck, Recorded, TickScores, ClampBox, Dist, StepLength, InBox;
    var v := Decide(cfg, rt, inp).1;
    NothingForwardedPastAFailedCheck(cfg, rt, inp);
    if v.src == SrcPolicy && v.reason != RearmedAck {
      AdmissibleTick(cfg, rt, inp);
      var rt1 := Ingested(cfg, rt, inp);
      assert Tier0Stage(cfg, rt1, inp).trips == {};
      if inp.chunk.Some? {
        CleanDelivery(cfg, inp.obs, rt1.vel, inp.chunk.value, inp.idx);
      } else {
        var scratch := if rt1.scratch.Some? then rt1.scratch.value else rt1.cur.value;
        CleanCommitted(cfg, inp.obs, rt1.vel, rt1.lastCmd, rt1.cur.value, scratch, inp.idx);
        CurKept(cfg, inp.obs, rt1.vel, rt1.lastCmd, rt1.cur.value, scratch, inp.idx);
        NotTrippedAction(cfg, Resolve(cfg, inp.obs), inp.obs.pos, rt1.lastCmd, rt1.cur.value.rows[inp.idx]);
      }
    }
  }

  lemma CurKept(cfg: FuseConfig, obs: Obs, vel: Vec, lastCmd: Vec, cur: Chunk, scratch: Chunk, idx: nat)
    requires cfg.Valid() && |obs.pos| == |vel| == |lastCmd| == cfg.dim && idx < cfg.horizon
    requires Shaped(cur.rows, cfg.horizon, cfg.dim) && Shaped(scratch.rows, cfg.horizon, cfg.dim)
    ensures var t0 := CommittedCheck(cfg, obs, vel, lastCmd, cur, scratch, idx);
            t0.cur == cur && t0.scratch.rows == scratch.rows[idx := ActionOut(cfg, Resolve(cfg, obs), obs.pos, lastCmd, cur.rows[idx])]
  {
    hide Dist, ActionTrips, RolloutMargin, ActionOut;
  }

  // ---- whole-run containment ------------------------------------------------------------------------------

  ghost predicate RowsInBox(cfg: FuseConfig, c: Option<Chunk>)
    requires cfg.Valid()
  {
    c.Some? ==> forall i :: 0 <= i < |c.value.rows| ==> InBox(cfg, c.value.rows[i])
  }

  /** Carried through a run: every stored row is in the box, and so is the last command once something was stored. */
  ghost predicate Inside(cfg: FuseConfig, rt: Rt)
    requires cfg.Valid()
  {
    && RowsInBox(cfg, rt.cur) && RowsInBox(cfg, rt.scratch)
    && (rt.cur.Some? || rt.scratch.Some? ==> InBox(cfg, rt.lastCmd))
  }

  ghost predicate Confining(cfg: FuseConfig) {
    cfg.Valid() && cfg.mode == Enforce && cfg.clamp == Project && WORKSPACE in cfg.tier0Enabled
  }

  lemma DeliveryInside(cfg: FuseConfig, obs: Obs, vel: Vec, ch: Chunk, idx: nat)
    requires Confining(cfg) && InBox(cfg, obs.pos) && |vel| == cfg.dim && Shaped(ch.rows, cfg.horizon, cfg.dim)
    ensures var t0 := DeliveryCheck(cfg, obs, vel, ch, idx);
            RowsInBox(cfg, Some(t0.cur)) && RowsInBox(cfg, Some(t0.scratch))
  {
    assert |obs.pos| == cfg.dim;
    hide Dist, Norm, RawTrips, RolloutMargin, Projected, CheckedChunk, InBox;
    forall i | 0 <= i < |ch.rows|
      ensures InBox(cfg, Projected(cfg, Resolve(cfg, obs), obs.pos, ch.rows, i))
    {
      ProjectedInBox(cfg, obs, ch.rows, i);
    }
  }

  lemma CommittedInside(cfg: FuseConfig, obs: Obs, vel: Vec, lastCmd: Vec, cur: Chunk, scratch: Chunk, idx: nat)
    requires Confining(cfg) && InBox(cfg, obs.pos) && |vel| == cfg.dim && InBox(cfg, lastCmd) && idx < cfg.horizon
    requires Shaped(cur.rows, cfg.horizon, cfg.dim) && Shaped(scratch.rows, cfg.horizon, cfg.dim)
    requires RowsInBox(cfg, Some(cur)) && RowsInBox(cfg, Some(scratch))
    ensures var t0 := CommittedCheck(cfg, obs, vel, lastCmd, cur, scratch, idx);
            RowsInBox(cfg, Some(t0.cur)) && RowsInBox(cfg, Some(t0.scratch))
  {
    assert |obs.pos| == cfg.dim && |lastCmd| == cfg.dim;
    hide Dist, ActionTrips, RolloutMargin, ProjectedRow, InBox;
    CurKept(cfg, obs, vel, lastCmd, cur, scratch, idx);
    RowInBox(cfg, obs, true, lastCmd, cur.rows[idx]);
  }

  /** One tick keeps the invariant and emits an action inside the box. The observed position must be in the box only on
      a tick that passes the guard. */
  lemma TickInside(cfg: FuseConfig, rt: Rt, inp: TickInput)
    requires Confining(cfg) && RtFits(cfg, rt) && inp.Fits() && Inside(cfg, rt)
    requires Admissible(cfg, rt, inp) ==> InBox(cfg, inp.obs.pos)
    ensures var r := Decide(cfg, rt, inp); Inside(cfg, r.0) && InBox(cfg, r.1.action) && r.0.lastCmd == r.1.action
  {
    hide Next, DeliveryCheck, CommittedCheck, Recorded, TickScores, ClampBox, InBox;
    var r := Decide(cfg, rt, inp);
    if Admissible(cfg, rt, inp) {
      AdmissibleTick(cfg, rt, inp);
      var rt1 := Ingested(cfg, rt, inp);
      if inp.chunk.Some? {
        DeliveryInside(cfg, inp.obs, rt1.vel, inp.chunk.value, inp.idx);
      } else {
        var scratch := if rt1.scratch.Some? then rt1.scratch.value else rt1.cur.value;
        CommittedInside(cfg, inp.obs, rt1.vel, rt1.lastCmd, rt1.cur.value, scratch, inp.idx);
      }
      ClampBoxInside(cfg, rt1.pos);
      ClampBoxInside(cfg, r.0.fsm.hold);
    } else {
      ClampBoxInside(cfg, r.0.fsm.hold);
    }
  }

  /** Every observed position of the run is in the box. */
  ghost predicate PositionsInBox(cfg: FuseConfig, inps: seq<TickInput>)
    requires cfg.Valid()
  {
    forall i :: 0 <= i < |inps| && inps[i].obs.posFinite && |inps[i].obs.pos| == cfg.dim ==> InBox(cfg, inps[i].obs.pos)
  }

  lemma {:induction false} RunInside(cfg: FuseConfig, inps: seq<TickInput>)
    requires Confining(cfg) && AllInputsFit(inps) && PositionsInBox(cfg, inps)
    ensures Inside(cfg, StateAfter(cfg, inps))
  {
    hide Decide, InBox;
    if inps != [] {
      var n := |inps| - 1;
      RunInside(cfg, inps[..n]);
      AdmittedInBox(cfg, StateAfter(cfg, inps[..n]), inps, n);
      TickInside(cfg, StateAfter(cfg, inps[..n]), inps[n]);
    }
  }

  lemma AdmittedInBox(cfg: FuseConfig, rt: Rt, inps: seq<TickInput>, i: nat)
    requires cfg.Valid() && RtFits(cfg, rt) && AllInputsFit(inps) && PositionsInBox(cfg, inps) && i < |inps|
    ensures Admissible(cfg, rt, inps[i]) ==> InBox(cfg, inps[i].obs.pos)
  {
    if Admissible(cfg, rt, inps[i]) {
      AdmissibleShapes(cfg, rt, inps[i]);
    }
  }

  /** Workspace containment over whole episodes: in Enforce with the projection on and the workspace armed, if every
      observed position is inside the margin-adjusted box then so is every action the fuse ever emits. */
  lemma WorkspaceContainment(cfg: FuseConfig, inps: seq<TickInput>, i: nat)
    requires Confining(cfg) && AllInputsFit(inps) && PositionsInBox(cfg, inps) && i < |inps|
    ensures InBox(cfg, VerdictAt(cfg, inps, i).action)
  {
    hide Decide, InBox;
    RunInside(cfg, inps[..i]);
    AdmittedInBox(cfg, StateAfter(cfg, inps[..i]), inps, i);
    TickInside(cfg, StateAfter(cfg, inps[..i]), inps[i]);
  }

  // ---- clamp mode Off -------------------------------------------------------------------------------------

  lemma ClampedNeedsProject(cfg: FuseConfig, rt: FsmRt, pos: Vec, inp: FsmInput)
    requires FsmFits(cfg, rt) && |cfg.boxLo| == |cfg.boxHi| == |pos| == cfg.dim
    requires rt.state != Clamped && !inp.softClampable
    ensures Next(cfg, rt, pos, inp).rt.state != Clamped
  {
    hide ClampBox, AcceptedAck;
    ClampedEntered(cfg, rt, pos, inp);
  }

  /** With clamp mode Off the Clamped state is never reached. */
  lemma {:induction false} OffNeverClamps(cfg: FuseConfig, inps: seq<TickInput>)
    requires cfg.Valid() && AllInputsFit(inps) && cfg.clamp == Off
    ensures StateAfter(cfg, inps).fsm.state != Clamped
  {
    hide Next, Decide, TableInput;
    if inps != [] {
      var n := |inps| - 1;
      OffNeverClamps(cfg, inps[..n]);
      var rt := StateAfter(cfg, inps[..n]);
      TickIsTableStep(cfg, rt, inps[n]);
      var (fsm, pos, fin) := TableInput(cfg, rt, inps[n]);
      ClampedNeedsProject(cfg, fsm, pos, fin);
    }
  }
}
