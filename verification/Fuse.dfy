/** One tick of the fuse as a function of configuration, state and input: GUARD, INGEST, TIER 0, scores, WINDOW, FSM,
    ACTION, TALLY. */
module Fuse {
  import opened Ints
  import opened Options
  import opened Fmath
  import opened Core
  import opened Tier0
  import opened Brake
  import opened Conformal
  import opened Window
  import opened Fsm
  import opened Tally

  /** The Tier-1 feature row of this tick (its chunk-boundary formulas are outside the model, so it is an input). */
  datatype Features = Features(f: Vec, valid: set<nat>)

  datatype TickInput = TickInput(
    obs: Obs, chunk: Option<Chunk>, idx: u16, missedTicks: u8, ack: Option<VerifiedAck>, schemaFault: bool,
    feats: Features)
  {
    predicate Fits() { |feats.f| == NFEAT }
  }

  datatype Rt = Rt(
    fsm: FsmRt, cur: Option<Chunk>, scratch: Option<Chunk>, seqNo: u32, lastT: u32, nextChunkSeq: u32,
    pos: Vec, prevPos: Vec, vel: Vec, havePrevPos: bool, lastCmd: Vec, chunkOk: bool, tally: Counters)

  ghost predicate ChunkFits(cfg: FuseConfig, c: Option<Chunk>) {
    c.Some? ==> Shaped(c.value.rows, cfg.horizon, cfg.dim)
  }

  ghost predicate RtFits(cfg: FuseConfig, rt: Rt) {
    && FsmFits(cfg, rt.fsm) && ChunkFits(cfg, rt.cur) && ChunkFits(cfg, rt.scratch)
    && |rt.pos| == |rt.prevPos| == |rt.vel| == |rt.lastCmd| == cfg.dim && rt.tally.Fits()
  }

  /** The state `reset` leaves: Armed, nothing delivered, every counter zero. */
  function Fresh(dim: nat): (r: Rt)
    ensures r.fsm.state == Armed && r.fsm.hist == [] && r.cur == None && r.seqNo == 0
  {
    Rt(ArmedTable(dim), None, None, 0, 0, 0, ZeroVec(dim), ZeroVec(dim), ZeroVec(dim), false, ZeroVec(dim), false, EmptyTally())
  }

  /** Replacing the table's part keeps the shape. */
  lemma SwapTable(cfg: FuseConfig, rt: Rt, fsm: FsmRt, ok: bool)
    requires RtFits(cfg, rt) && FsmFits(cfg, fsm)
    ensures RtFits(cfg, rt.(fsm := fsm, chunkOk := ok))
  {}

  lemma Shapes(cfg: FuseConfig, rt: Rt)
    requires cfg.Valid() && RtFits(cfg, rt)
    ensures |cfg.boxLo| == |cfg.boxHi| == |rt.pos| == |rt.vel| == cfg.dim && FsmFits(cfg, rt.fsm)
  {}

  lemma MovePos(cfg: FuseConfig, rt: Rt, fsm: FsmRt, pos: Vec, t: u32)
    requires RtFits(cfg, rt) && FsmFits(cfg, fsm) && |pos| == cfg.dim
    ensures RtFits(cfg, rt.(fsm := fsm, pos := pos, lastT := t))
  {}

  lemma FreshFits(cfg: FuseConfig)
    ensures RtFits(cfg, Fresh(cfg.dim))
  {}

  // ---- stage 0: GUARD -------------------------------------------------------------------------------------

  predicate NonFinite(inp: TickInput) {
    !inp.obs.posFinite || (inp.obs.vel.Some? && !inp.obs.velFinite) || !inp.obs.auxFinite || !inp.obs.extFinite
    || (inp.chunk.Some? && !inp.chunk.value.finite)
  }

  predicate ChunkBreaksSchema(cfg: FuseConfig, rt: Rt, inp: TickInput, c: Chunk) {
    || c.dim != cfg.dim || c.horizon != cfg.horizon || c.execSteps != cfg.exec
    || !Shaped(c.rows, c.horizon, c.dim) || c.seqNo != rt.nextChunkSeq
    || c.tEmit > inp.obs.t || inp.idx != inp.obs.t - c.tEmit
  }

  /** Tick continuity: 0 first, then one more than the last plus the declared gap (which must fit in a u32). */
  predicate TimeBreaks(rt: Rt, inp: TickInput) {
    if rt.seqNo == 0 then inp.obs.t != 0 else rt.lastT + 1 + inp.missedTicks != inp.obs.t
  }

  predicate BreaksSchema(cfg: FuseConfig, rt: Rt, inp: TickInput) {
    || inp.schemaFault || inp.idx >= cfg.horizon || |inp.obs.pos| != cfg.dim
    || |inp.obs.aux| > MAX_AUX || |inp.obs.ext| > MAX_EXT
    || (inp.obs.vel.Some? && |inp.obs.vel.value| != cfg.dim)
    || (if inp.chunk.Some? then ChunkBreaksSchema(cfg, rt, inp, inp.chunk.value) else rt.cur.None?)
    || TimeBreaks(rt, inp)
  }

  function Guard(cfg: FuseConfig, rt: Rt, inp: TickInput): Trips {
    If(NonFinite(inp), NONFINITE) + If(BreaksSchema(cfg, rt, inp), SCHEMA)
    + If(inp.missedTicks > cfg.hyst.watchdogTicks, WATCHDOG)
  }

  // ---- stage 1: INGEST ------------------------------------------------------------------------------------

  function Differences(cfg: FuseConfig, pos: Vec, prev: Vec): (r: Vec)
    requires |pos| == |prev|
    ensures |r| == |pos|
  {
    seq(|pos|, c requires 0 <= c < |pos| => (pos[c] - prev[c]) * cfg.invDt)
  }

  function IngestedVel(cfg: FuseConfig, rt: Rt, obs: Obs): (r: Vec)
    requires RtFits(cfg, rt) && |obs.pos| == cfg.dim && (obs.vel.Some? ==> |obs.vel.value| == cfg.dim)
    ensures |r| == cfg.dim
  {
    if obs.vel.Some? then obs.vel.value
    else if rt.havePrevPos then Differences(cfg, obs.pos, rt.pos)
    else ZeroVec(cfg.dim)
  }

  function Ingested(cfg: FuseConfig, rt: Rt, inp: TickInput): (r: Rt)
    requires RtFits(cfg, rt) && |inp.obs.pos| == cfg.dim && (inp.obs.vel.Some? ==> |inp.obs.vel.value| == cfg.dim)
    ensures RtFits(cfg, r)
  {
    rt.(prevPos := rt.pos, pos := inp.obs.pos, vel := IngestedVel(cfg, rt, inp.obs), havePrevPos := true,
        lastT := inp.obs.t, nextChunkSeq := if inp.chunk.Some? then Wrap32(rt.nextChunkSeq) else rt.nextChunkSeq)
  }

  // ---- stage 2: TIER 0 ------------------------------------------------------------------------------------

  datatype T0 = T0(trips: Trips, clampedDims: set<nat>, margin: Ext, scratch: Chunk, cur: Chunk)

  function Masked0(cfg: FuseConfig, soft: Trips, feasible: bool): Trips {
    (soft + If(!feasible, BRAKE)) * (cfg.tier0Enabled + TIER0_HARD)
  }

  /** A delivery tick: the whole raw chunk is checked and projected; the brake check runs on the projection from the
      row executed now; Observe keeps the raw chunk, Enforce the projection. */
  function DeliveryCheck(cfg: FuseConfig, obs: Obs, vel: Vec, ch: Chunk, idx: nat): (r: T0)
    requires cfg.Valid() && |obs.pos| == |vel| == cfg.dim && Shaped(ch.rows, cfg.horizon, cfg.dim)
    ensures Shaped(r.scratch.rows, cfg.horizon, cfg.dim) && Shaped(r.cur.rows, cfg.horizon, cfg.dim)
  {
    var t0 := CheckedChunk(cfg, obs, ch.rows);
    var out := ch.(rows := ChunkOut(cfg, Resolve(cfg, obs), obs.pos, ch.rows));
    var margin := RolloutMargin(cfg, PlantState(obs.pos, vel), out.rows, idx);
    T0(Masked0(cfg, t0.trips, NonNegative(margin)), t0.clampedDims, margin, out,
       if cfg.mode == Observe then ch else out)
  }

  /** Between deliveries: row `idx` of the current chunk is checked against the last command; the brake check runs
      along the current chunk. */
  function CommittedCheck(cfg: FuseConfig, obs: Obs, vel: Vec, lastCmd: Vec, cur: Chunk, scratch: Chunk, idx: nat): (r: T0)
    requires cfg.Valid() && |obs.pos| == |vel| == |lastCmd| == cfg.dim && idx < cfg.horizon
    requires Shaped(cur.rows, cfg.horizon, cfg.dim) && Shaped(scratch.rows, cfg.horizon, cfg.dim)
    ensures Shaped(r.scratch.rows, cfg.horizon, cfg.dim) && r.cur == cur
  {
    var t0 := CheckedAction(cfg, obs, lastCmd, cur.rows[idx]);
    var out := ActionOut(cfg, Resolve(cfg, obs), obs.pos, lastCmd, cur.rows[idx]);
    var margin := RolloutMargin(cfg, PlantState(obs.pos, vel), cur.rows, idx);
    T0(Masked0(cfg, t0.trips, NonNegative(margin)), t0.clampedDims, margin, scratch.(rows := scratch.rows[idx := out]), cur)
  }

  ghost predicate Admissible(cfg: FuseConfig, rt: Rt, inp: TickInput) { Guard(cfg, rt, inp) == {} }

  lemma AdmissibleShapes(cfg: FuseConfig, rt: Rt, inp: TickInput)
    requires Admissible(cfg, rt, inp)
    ensures !NonFinite(inp) && !BreaksSchema(cfg, rt, inp) && inp.missedTicks <= cfg.hyst.watchdogTicks
  {
    assert NONFINITE !in Guard(cfg, rt, inp) && SCHEMA !in Guard(cfg, rt, inp) && WATCHDOG !in Guard(cfg, rt, inp);
  }

  function Tier0Stage(cfg: FuseConfig, rt: Rt, inp: TickInput): (r: T0)
    requires cfg.Valid() && RtFits(cfg, rt) && |inp.obs.pos| == cfg.dim && inp.idx < cfg.horizon
    requires if inp.chunk.Some? then Shaped(inp.chunk.value.rows, cfg.horizon, cfg.dim) else rt.cur.Some?
    ensures Shaped(r.scratch.rows, cfg.horizon, cfg.dim) && Shaped(r.cur.rows, cfg.horizon, cfg.dim)
  {
    if inp.chunk.Some? then DeliveryCheck(cfg, inp.obs, rt.vel, inp.chunk.value, inp.idx)
    else
      var scratch := if rt.scratch.Some? then rt.scratch.value else rt.cur.value;
      CommittedCheck(cfg, inp.obs, rt.vel, rt.lastCmd, rt.cur.value, scratch, inp.idx)
  }

  // ---- stages 3-5: scores and window ----------------------------------------------------------------------

  function TickScores(cfg: FuseConfig, inp: TickInput): (r: Scores)
    requires cfg.calib.Valid() && inp.Fits()
    ensures |r.z| == NFEAT && |r.f| == NFEAT
  {
    if cfg.calib.Armed() then ScoresOf(cfg.calib, inp.obs.t, inp.feats.f, inp.feats.valid)
    else ScoresOf(cfg.calib, inp.obs.t, ZeroVec(NFEAT), {})
  }

  predicate Hit(cfg: FuseConfig, sc: Scores) { ScoreTrips(cfg.calib, sc) }

  predicate Warn(cfg: FuseConfig, sc: Scores) {
    !Hit(cfg, sc) && sc.s.Above(Lowered(cfg.calib.tau, cfg.hyst.warnMargin))
  }

  // ---- stages 6-8: FSM, ACTION, TALLY ---------------------------------------------------------------------

  function SourceOf(s: FuseState): ActionSource {
    match s
    case Armed => SrcPolicy
    case Watching => SrcPolicy
    case Clamped => SrcClamped
    case Braking => SrcBrake
    case _ => SrcHold
  }

  function FsmInputOf(cfg: FuseConfig, rt: Rt, inp: TickInput, trips: Trips, sc: Scores, hist: seq<bool>): FsmInput
    requires |rt.vel| == cfg.dim
  {
    FsmInput(trips, RecentHits(hist, cfg.hyst.n) >= cfg.hyst.k, Warn(cfg, sc), cfg.clamp == Project,
             cfg.mode == Observe || Norm(cfg.sqrt, rt.vel, cfg.dim) <= cfg.hyst.vStopEps,
             inp.chunk.Some?, inp.chunk.Some? && trips == {}, inp.ack)
  }

  /** Observe passes the current row through; Enforce follows the source. */
  function ActionOf(cfg: FuseConfig, pos: Vec, hold: Vec, cur: seq<Vec>, scratch: seq<Vec>, src: ActionSource, idx: nat): (r: Vec)
    requires |cfg.boxLo| == |cfg.boxHi| == |pos| == |hold| == cfg.dim && idx < cfg.horizon
    requires Shaped(scratch, cfg.horizon, cfg.dim) && Shaped(cur, cfg.horizon, cfg.dim)
    ensures |r| == cfg.dim
  {
    if cfg.mode == Observe then cur[idx]
    else match src
         case SrcPolicy => cur[idx]
         case SrcClamped => scratch[idx]
         case SrcBrake => ClampBox(cfg, pos)
         case SrcHold => ClampBox(cfg, hold)
  }

  /** The verdict of an admissible tick: `prev` and `state` are the states around the table step. */
  function VerdictOf(cfg: FuseConfig, seqNo: u32, inp: TickInput, prev: FuseState, state: FuseState, handoffSeq: u32,
                     trips: Trips, action: Vec, clampedDims: set<nat>, margin: Ext, sc: Scores, hits: nat,
                     reason: ReasonCode): (v: Verdict)
    ensures v.scores == sc && v.action == action && v.state == state
  {
    var would := SourceOf(state);
    var observe := cfg.mode == Observe;
    Verdict(seqNo, inp.obs.t, state, prev, trips, action, if observe then SrcPolicy else would,
            !observe && would != SrcPolicy, clampedDims, sc, hits, Some(margin), reason,
            if state == Escalated && prev != Escalated then Some(handoffSeq) else None,
            inp.ack.Some? && AckReason(reason), observe && would != SrcPolicy)
  }

  function EventsOf(prev: FuseState, state: FuseState, rearmed: bool, clamped: bool, live: set<nat>): TickEvents {
    TickEvents(state == Held && prev != Held, state == Escalated && prev != Escalated, rearmed, clamped, live)
  }

  /** Stages 5 to 8, from a state whose `cur` and `scratch` are those of `t0` and whose tally has seen the chunk. */
  function Concluded(cfg: FuseConfig, rt: Rt, inp: TickInput, t0: T0, sc: Scores): (r: (Rt, Verdict))
    requires cfg.Valid() && RtFits(cfg, rt) && inp.Fits() && inp.idx < cfg.horizon && |sc.z| == NFEAT
    requires Shaped(t0.scratch.rows, cfg.horizon, cfg.dim) && Shaped(t0.cur.rows, cfg.horizon, cfg.dim)
    ensures RtFits(cfg, r.0)
  {
    var hist := rt.fsm.hist + [Hit(cfg, sc)];
    var fin := FsmInputOf(cfg, rt, inp, t0.trips, sc, hist);
    var o := Next(cfg, rt.fsm.(hist := hist), rt.pos, fin);
    TableEffects(cfg, rt.fsm.(hist := hist), rt.pos, fin);
    var action := ActionOf(cfg, rt.pos, o.rt.hold, t0.cur.rows, t0.scratch.rows, SourceOf(o.rt.state), inp.idx);
    var v := VerdictOf(cfg, rt.seqNo, inp, rt.fsm.state, o.rt.state, o.rt.handoffSeq, t0.trips + o.extra, action,
                       t0.clampedDims, t0.margin, sc, RecentHits(hist, cfg.hyst.n), o.reason);
    var ev := EventsOf(rt.fsm.state, o.rt.state, o.rt.rearms != rt.fsm.rearms, o.rt.clamps != rt.fsm.clamps,
                       cfg.calib.mask * sc.valid);
    (rt.(fsm := o.rt, seqNo := Inc32(rt.seqNo), lastCmd := action, chunkOk := fin.chunkOk,
         tally := Recorded(rt.tally, v, ev)), v)
  }

  function Kept(rt: Rt, t0: T0, seen: Counters): Rt {
    rt.(cur := Some(t0.cur), scratch := Some(t0.scratch), tally := seen)
  }

  /** The part of an admissible tick after TIER 0. */
  function Decided(cfg: FuseConfig, rt: Rt, inp: TickInput, t0: T0): (r: (Rt, Verdict))
    requires cfg.Valid() && RtFits(cfg, rt) && inp.Fits() && inp.idx < cfg.horizon
    requires Shaped(t0.scratch.rows, cfg.horizon, cfg.dim) && Shaped(t0.cur.rows, cfg.horizon, cfg.dim)
    ensures RtFits(cfg, r.0)
  {
    var seen := if inp.chunk.Some? then RecordedChunk(rt.tally, t0.trips * TIER0_HARD != {}) else rt.tally;
    Concluded(cfg, Kept(rt, t0, seen), inp, t0, TickScores(cfg, inp))
  }

  /** A GUARD tick: Fault is latched, the hold action is returned in both modes, nothing is ingested but a finite
      position. */
  function FaultInput(cfg: FuseConfig, inp: TickInput, bits: Trips): FsmInput {
    FsmInput(bits, false, false, cfg.clamp == Project, false, inp.chunk.Some?, false, None)
  }

  function DisarmedScores(): (r: Scores)
    ensures |r.z| == NFEAT
  {
    Scores(ZeroVec(NFEAT), ZeroVec(NFEAT), NegInf, {}, {})
  }

  function FaultVerdict(seqNo: u32, t: u32, prev: FuseState, state: FuseState, trips: Trips, action: Vec, hits: nat,
                        reason: ReasonCode): (v: Verdict)
    ensures |v.scores.z| == NFEAT && v.action == action && v.state == state
  {
    Verdict(seqNo, t, state, prev, trips, action, SrcHold, true, {}, DisarmedScores(), hits, None, reason, None, false, false)
  }

  /** The position a guard tick keeps. */
  function FaultPos(cfg: FuseConfig, rt: Rt, obs: Obs): Vec {
    if |obs.pos| == cfg.dim && obs.posFinite then obs.pos else rt.pos
  }

  function FaultTick(cfg: FuseConfig, rt: Rt, inp: TickInput, bits: Trips): (r: (Rt, Verdict))
    requires cfg.Valid() && RtFits(cfg, rt)
    ensures RtFits(cfg, r.0)
  {
    var pos := FaultPos(cfg, rt, inp.obs);
    var fin := FaultInput(cfg, inp, bits);
    var o := Next(cfg, rt.fsm, pos, fin);
    TableEffects(cfg, rt.fsm, pos, fin);
    var v := FaultVerdict(rt.seqNo, inp.obs.t, rt.fsm.state, o.rt.state, bits + o.extra, ClampBox(cfg, o.rt.hold),
                          RecentHits(rt.fsm.hist, cfg.hyst.n), o.reason);
    (rt.(fsm := o.rt, pos := pos, lastT := inp.obs.t, seqNo := Inc32(rt.seqNo), lastCmd := v.action,
         tally := Recorded(rt.tally, v, NO_EVENTS)), v)
  }

  /** One tick. */
  function Decide(cfg: FuseConfig, rt: Rt, inp: TickInput): (r: (Rt, Verdict))
    requires cfg.Valid() && RtFits(cfg, rt) && inp.Fits()
    ensures RtFits(cfg, r.0)
  {
    var bits := Guard(cfg, rt, inp);
    if bits != {} then FaultTick(cfg, rt, inp, bits)
    else
      AdmissibleShapes(cfg, rt, inp);
      var rt1 := Ingested(cfg, rt, inp);
      Decided(cfg, rt1, inp, Tier0Stage(cfg, rt1, inp))
  }
}
