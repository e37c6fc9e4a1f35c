/** The brake check against a plant that follows its model: once a row has been let through, no later committed row of the
    same chunk trips the brake. */
module Follow {
  import opened Fmath
  import opened Core
  import opened Tier0
  import opened Brake
  import opened Fsm
  import opened Tally
  import opened Fuse
  import opened Runs

  /** The state after `k` of the ticks, from any state. */
  ghost function From(cfg: FuseConfig, rt: Rt, inps: seq<TickInput>, k: nat): (r: Rt)
    requires cfg.Valid() && RtFits(cfg, rt) && AllInputsFit(inps) && k <= |inps|
    ensures RtFits(cfg, r)
  {
    if k == 0 then rt else Decide(cfg, From(cfg, rt, inps, k - 1), inps[k - 1]).0
  }

  /** Ticks without a new chunk that walk the committed rows one by one while the plant, observed with its velocity, does
      what the model says from state `s` at row `idx`. */
  ghost predicate Walks(cfg: FuseConfig, s: PlantState, rows: seq<Vec>, idx: nat, inps: seq<TickInput>)
    requires cfg.Valid() && Brake.Fits(cfg, s) && RowsFit(cfg, rows) && idx + |inps| <= |rows|
  {
    forall k :: 0 <= k < |inps| ==>
      && inps[k].chunk.None? && inps[k].idx == idx + 1 + k && inps[k].obs.vel.Some?
      && PlantState(inps[k].obs.pos, inps[k].obs.vel.value) == ExecuteRows(cfg, s, rows, idx, k + 1)
  }

  /** A non-delivery tick keeps the chunk, and its brake bit is exactly the infeasibility of the rollout along it. */
  lemma BrakeBit(cfg: FuseConfig, rt: Rt, inp: TickInput)
    requires cfg.Valid() && RtFits(cfg, rt) && inp.Fits() && Admissible(cfg, rt, inp) && inp.chunk.None? && inp.obs.vel.Some?
    ensures |inp.obs.pos| == |inp.obs.vel.value| == cfg.dim && rt.cur.Some? && RowsFit(cfg, rt.cur.value.rows)
    ensures Decide(cfg, rt, inp).0.cur == rt.cur
    ensures BRAKE in Decide(cfg, rt, inp).1.trips
            <==> !Feasible(cfg, PlantState(inp.obs.pos, inp.obs.vel.value), rt.cur.value.rows, inp.idx)
  {
    CurFits(cfg, rt);
    hide RowsFit;
    AdmissibleTick(cfg, rt, inp);
    TickIsTableStep(cfg, rt, inp);
    var rt1 := Ingested(cfg, rt, inp);
    Tier0Bits(cfg, rt1, inp);
    hide Next, Recorded, TickScores, ClampBox, CheckedAction, ActionOut, RolloutMargin, Masked0;
    var (fsm, pos, fin) := TableInput(cfg, rt, inp);
    ExtraNeverBrake(cfg, fsm, pos, fin);
  }

  lemma CurFits(cfg: FuseConfig, rt: Rt)
    requires cfg.Valid() && RtFits(cfg, rt)
    ensures rt.cur.Some? ==> RowsFit(cfg, rt.cur.value.rows)
  {}

  lemma ExtraNeverBrake(cfg: FuseConfig, rt: FsmRt, pos: Vec, inp: FsmInput)
    requires FsmFits(cfg, rt) && |cfg.boxLo| == |cfg.boxHi| == |pos| == cfg.dim
    ensures BRAKE !in Next(cfg, rt, pos, inp).extra
  {
    hide ClampBox, AcceptedAck, ClampReason;
  }

  /** Every tick of the walk passes the guard. */
  ghost predicate Passes(cfg: FuseConfig, rt: Rt, inps: seq<TickInput>)
    requires cfg.Valid() && RtFits(cfg, rt) && AllInputsFit(inps)
  {
    forall i :: 0 <= i < |inps| ==> Admissible(cfg, From(cfg, rt, inps, i), inps[i])
  }

  lemma {:induction false} WalkKeeps(cfg: FuseConfig, rt: Rt, inps: seq<TickInput>, k: nat)
    requires cfg.Valid() && RtFits(cfg, rt) && AllInputsFit(inps) && k <= |inps| && rt.cur.Some?
    requires forall i :: 0 <= i < |inps| ==> inps[i].chunk.None? && inps[i].obs.vel.Some?
    requires Passes(cfg, rt, inps)
    ensures From(cfg, rt, inps, k).cur == rt.cur
  {
    hide Decide, Guard, Feasible, Admissible, RtFits, FuseConfig.Valid;
    if k > 0 {
      WalkKeeps(cfg, rt, inps, k - 1);
      BrakeBit(cfg, From(cfg, rt, inps, k - 1), inps[k - 1]);
    }
  }

  lemma PassesAt(cfg: FuseConfig, rt: Rt, inps: seq<TickInput>, k: nat)
    requires cfg.Valid() && RtFits(cfg, rt) && AllInputsFit(inps) && Passes(cfg, rt, inps) && k < |inps|
    ensures Admissible(cfg, From(cfg, rt, inps, k), inps[k])
  {
    hide Admissible, RtFits, FuseConfig.Valid;
  }

  lemma StandsOn(cfg: FuseConfig, rt: Rt, last: nat)
    requires cfg.Valid() && RtFits(cfg, rt) && rt.cur.Some? && last <= cfg.brake.commitSteps
    ensures Brake.Fits(cfg, PlantState(rt.pos, rt.vel)) && |cfg.boxLo| == |cfg.boxHi| == cfg.dim
    ensures RowsFit(cfg, rt.cur.value.rows) && last <= |rt.cur.value.rows|
  {
    CurFits(cfg, rt);
  }

  lemma WalkAt(cfg: FuseConfig, s: PlantState, rows: seq<Vec>, idx: nat, inps: seq<TickInput>, k: nat)
    requires cfg.Valid() && Brake.Fits(cfg, s) && RowsFit(cfg, rows) && idx + |inps| <= |rows|
    requires Walks(cfg, s, rows, idx, inps) && k < |inps|
    ensures forall i :: 0 <= i < |inps| ==> inps[i].chunk.None? && inps[i].obs.vel.Some?
    ensures inps[k].idx == idx + 1 + k
    ensures PlantState(inps[k].obs.pos, inps[k].obs.vel.value) == ExecuteRows(cfg, s, rows, idx, k + 1)
  {
    hide ExecuteRows, FuseConfig.Valid, RowsFit;
  }

  /** Let `rt` be the state after a tick that forwarded row `idx`, so that the rollout from it was feasible. While the plant
      follows the model over the committed rows, no tick trips the brake. */
  lemma FollowerNeverBrakes(cfg: FuseConfig, rt: Rt, idx: nat, inps: seq<TickInput>, k: nat)
    requires cfg.Valid() && RtFits(cfg, rt) && AllInputsFit(inps) && k < |inps| && rt.cur.Some?
    requires idx + |inps| <= cfg.brake.commitSteps
    requires Feasible(cfg, PlantState(rt.pos, rt.vel), rt.cur.value.rows, idx)
    requires Walks(cfg, PlantState(rt.pos, rt.vel), rt.cur.value.rows, idx, inps)
    requires Passes(cfg, rt, inps)
    ensures BRAKE !in Decide(cfg, From(cfg, rt, inps, k), inps[k]).1.trips
  {
    hide Decide, Guard, Feasible, ExecuteRows, From, Admissible, Passes, FuseConfig.Valid, RtFits, Walks, RowsFit;
    var s, rows := PlantState(rt.pos, rt.vel), rt.cur.value.rows;
    StandsOn(cfg, rt, idx + |inps|);
    FeasibleStaysFeasible(cfg, s, rows, idx, k + 1);
    WalkAt(cfg, s, rows, idx, inps, k);
    WalkKeeps(cfg, rt, inps, k);
    PassesAt(cfg, rt, inps, k);
    BrakeBit(cfg, From(cfg, rt, inps, k), inps[k]);
  }

  /** The two theorems meet: after any Enforce tick whose verdict forwarded the policy (no ack consumed), the plant that
      follows the model from what was observed never trips the brake on the following committed rows. */
  lemma ForwardedThenFollowed(cfg: FuseConfig, rt0: Rt, inp: TickInput, inps: seq<TickInput>, k: nat)
    requires cfg.Valid() && RtFits(cfg, rt0) && inp.Fits() && AllInputsFit(inps) && cfg.mode == Enforce && k < |inps|
    requires var (rt, v) := Decide(cfg, rt0, inp);
             && v.src == SrcPolicy && v.reason != RearmedAck && inp.idx + |inps| <= cfg.brake.commitSteps
             && rt.cur.Some? && Walks(cfg, PlantState(rt.pos, rt.vel), rt.cur.value.rows, inp.idx, inps)
             && Passes(cfg, rt, inps)
    ensures BRAKE !in Decide(cfg, From(cfg, Decide(cfg, rt0, inp).0, inps, k), inps[k]).1.trips
  {
    hide Decide, Guard, Feasible, ExecuteRows, Passes;
    NothingForwardedPastAFailedCheck(cfg, rt0, inp);
    FollowerNeverBrakes(cfg, Decide(cfg, rt0, inp).0, inp.idx, inps, k);
  }
}
