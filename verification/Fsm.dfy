/** The escalation table: one transition per tick, rows evaluated top-down, first match wins. This module is the
    specification over values; `Escalation.Ladder` holds the fields and the methods that update them. */
module Fsm {
  import opened Ints
  import opened Options
  import opened Fmath
  import opened Core
  import opened Window

  /** The part of the run-time state the table reads and writes. `hist` is the history of hits since the last
      clear, oldest first: the meaning of the window register. */
  datatype FsmRt = FsmRt(
    state: FuseState, cleanRun: u16, clampStreak: u8, clamps: u16, brakeTicks: u16, stoppedTicks: u8,
    heldTicks: u16, heldClean: u16, escalatedTicks: u32, rearms: u8, handoffSeq: u32, handoffPending: bool,
    lastNonce: seq<u64>, hist: seq<bool>, hold: Vec)

  datatype FsmInput = FsmInput(
    trips: Trips, predictive: bool, warn: bool, softClampable: bool, stopped: bool, chunkBoundary: bool,
    chunkOk: bool, ack: Option<VerifiedAck>)

  datatype FsmOut = FsmOut(rt: FsmRt, extra: Trips, reason: ReasonCode)

  function NoNonces(): (r: seq<u64>)
    ensures |r| == MAX_OPERATORS
  {
    [0, 0, 0, 0, 0, 0, 0, 0]
  }

  /** The state `reset` leaves: Armed, every counter zero, no nonce seen, an empty window. */
  function ArmedTable(dim: nat): FsmRt {
    FsmRt(Armed, 0, 0, 0, 0, 0, 0, 0, 0, 0, 0, false, NoNonces(), [], ZeroVec(dim))
  }

  predicate FsmFits(cfg: FuseConfig, rt: FsmRt) { |rt.lastNonce| == MAX_OPERATORS && |rt.hold| == cfg.dim }

  predicate Clean(inp: FsmInput) { inp.trips == {} && !inp.warn && !inp.predictive }

  /** The ack, when its handoff number is the current one and its nonce is fresh. */
  function AcceptedAck(rt: FsmRt, ack: Option<VerifiedAck>): Option<VerifiedAck>
    requires |rt.lastNonce| == MAX_OPERATORS
  {
    if ack.Some? && ack.value.operatorSlot < MAX_OPERATORS && ack.value.handoffSeq == rt.handoffSeq
       && ack.value.nonce > rt.lastNonce[ack.value.operatorSlot]
    then ack else None
  }

  function FaultReason(trips: Trips): ReasonCode {
    if NONFINITE in trips then FaultNonFinite else if SCHEMA in trips then FaultSchema else FaultWatchdog
  }

  function ClampReason(trips: Trips): ReasonCode {
    if WORKSPACE in trips then ClampWorkspace
    else if SPEED in trips then ClampSpeed
    else if ACCEL in trips then ClampAccel
    else if JERK in trips then ClampJerk
    else if REACH in trips then ClampReach
    else ClampContact
  }

  function Latched(cfg: FuseConfig, rt: FsmRt, pos: Vec): FsmRt
    requires |cfg.boxLo| == |cfg.boxHi| == |pos|
  {
    rt.(hold := ClampBox(cfg, pos))
  }

  function Consumed(rt: FsmRt, a: VerifiedAck): FsmRt
    requires |rt.lastNonce| == MAX_OPERATORS
  {
    if a.operatorSlot < MAX_OPERATORS then rt.(lastNonce := rt.lastNonce[a.operatorSlot := a.nonce]) else rt
  }

  function Rearmed(rt: FsmRt, a: VerifiedAck): FsmRt
    requires |rt.lastNonce| == MAX_OPERATORS
  {
    Consumed(rt, a).(rearms := Inc8(rt.rearms), hist := [], cleanRun := 0, clampStreak := 0, heldTicks := 0,
                     heldClean := 0, escalatedTicks := 0, handoffPending := false, state := Armed)
  }

  function Stopped(rt: FsmRt, a: VerifiedAck): FsmRt
    requires |rt.lastNonce| == MAX_OPERATORS
  {
    Consumed(rt, a).(handoffPending := false, state := Terminated)
  }

  function FromEscalated(cfg: FuseConfig, rt: FsmRt, ack: Option<VerifiedAck>): (o: FsmOut)
    requires |rt.lastNonce| == MAX_OPERATORS
    ensures o.rt.state == rt.state || o.rt.state == Terminated || o.rt.state == Armed
  {
    if ack.Some? then
      match ack.value.decision
      case Abort => FsmOut(Stopped(rt, ack.value), {OPERATOR_ABORT}, TerminatedAbort)
      case Retune => FsmOut(Stopped(rt, ack.value), {}, TerminatedRetune)
      case Resume => FsmOut(Rearmed(rt, ack.value), {}, RearmedAck)
    else if rt.escalatedTicks >= cfg.hyst.handoffTimeoutTicks then
      FsmOut(rt.(handoffPending := false, state := Terminated), {HANDOFF_TIMEOUT}, TerminatedTimeout)
    else
      FsmOut(rt.(escalatedTicks := Inc32(rt.escalatedTicks)), {}, HeldStandstill)
  }

  function FromHeld(cfg: FuseConfig, rt: FsmRt, clean: bool, ack: Option<VerifiedAck>, inp: FsmInput): (o: FsmOut)
    requires |rt.lastNonce| == MAX_OPERATORS
    ensures o.rt.state == rt.state || o.rt.state == Terminated || o.rt.state == Armed || o.rt.state == Escalated
  {
    var h := cfg.hyst;
    if ack.Some? && ack.value.decision == Resume then FsmOut(Rearmed(rt, ack.value), {}, RearmedAck)
    else if ack.Some? && ack.value.decision == Abort then
      FsmOut(Stopped(rt, ack.value), {OPERATOR_ABORT}, TerminatedAbort)
    else if h.rearm == Auto && rt.heldClean >= h.rearmHold && inp.chunkOk && rt.rearms < h.maxRearms then
      FsmOut(rt.(rearms := Inc8(rt.rearms), hist := [], state := Armed), {}, RearmedAuto)
    else if rt.heldTicks >= h.escalateAfterHoldTicks then
      var rt' := rt.(handoffSeq := Wrap32(rt.handoffSeq), handoffPending := true, escalatedTicks := 0,
                     state := Escalated);
      if rt.rearms >= h.maxRearms then FsmOut(rt', {REARM_BUDGET}, EscalateRearmBudget)
      else if inp.predictive then FsmOut(rt', {}, EscalateTier1Persistent)
      else FsmOut(rt', {}, EscalateHoldTimeout)
    else
      FsmOut(rt.(heldTicks := Inc16(rt.heldTicks), heldClean := if clean then Inc16(rt.heldClean) else 0),
             {}, HeldStandstill)
  }

  function FromBraking(cfg: FuseConfig, rt: FsmRt, pos: Vec, inp: FsmInput): (o: FsmOut)
    requires |cfg.boxLo| == |cfg.boxHi| == |pos|
    ensures o.rt.state == rt.state || o.rt.state == Fault || o.rt.state == Held
  {
    var h := cfg.hyst;
    if rt.brakeTicks >= h.brakeTimeoutTicks then
      FsmOut(Latched(cfg, rt, pos).(state := Fault), {BRAKE_TIMEOUT}, FaultBrakeTimeout)
    else if inp.stopped && rt.stoppedTicks + 1 >= h.stopConfirmTicks then
      FsmOut(Latched(cfg, rt, pos).(heldTicks := 0, heldClean := 0, state := Held), {}, HeldStandstill)
    else
      FsmOut(rt.(brakeTicks := Inc16(rt.brakeTicks), stoppedTicks := if inp.stopped then Inc8(rt.stoppedTicks) else 0),
             {}, Stopping)
  }

  function EnterBraking(rt: FsmRt, extra: Trips, reason: ReasonCode): FsmOut {
    FsmOut(rt.(brakeTicks := 0, stoppedTicks := 0, state := Braking), extra, reason)
  }

  function FromRunning(cfg: FuseConfig, rt: FsmRt, inp: FsmInput): (o: FsmOut)
    ensures rt.state == Armed || rt.state == Watching || rt.state == Clamped ==>
              o.rt.state == Braking || o.rt.state == Armed || o.rt.state == Watching || o.rt.state == Clamped
  {
    var h := cfg.hyst;
    var soft := inp.trips * TIER0_SOFT;
    if BRAKE in inp.trips then EnterBraking(rt, {}, BrakeInfeasible)
    else if soft != {} && !inp.softClampable then EnterBraking(rt, {}, ClampReason(soft))
    else if inp.predictive then EnterBraking(rt, {TIER1_CP}, BrakeTier1Cp)
    else if rt.clampStreak >= h.clampStreakToBrake || rt.clamps > h.maxClampsPerEpisode then
      EnterBraking(rt, {CLAMP_BUDGET}, BrakeClampBudget)
    else if soft != {} then
      FsmOut(rt.(clamps := Inc16(rt.clamps),
                 clampStreak := if inp.chunkBoundary then Inc8(rt.clampStreak) else rt.clampStreak,
                 state := Clamped), {}, ClampReason(soft))
    else if rt.state != Armed && rt.cleanRun >= h.clearTicks then
      FsmOut(rt.(hist := [], clampStreak := 0, state := Armed), {}, ReasonOk)
    else if inp.warn || RecentHits(rt.hist, h.n) >= 1 then FsmOut(rt.(state := Watching), {}, WatchBand)
    else if rt.state == Armed then FsmOut(rt, {}, if cfg.mode == Observe then ObserveOnly else ReasonOk)
    else if rt.state == Watching then FsmOut(rt, {}, WatchBand)
    else FsmOut(rt.(state := Clamped), {}, ReasonOk)
  }

  function Transition(cfg: FuseConfig, rt: FsmRt, pos: Vec, clean: bool, ack: Option<VerifiedAck>, inp: FsmInput): FsmOut
    requires |rt.lastNonce| == MAX_OPERATORS && |cfg.boxLo| == |cfg.boxHi| == |pos|
  {
    if inp.trips * FAULT_BITS != {} then
      FsmOut((if rt.state != Fault then Latched(cfg, rt, pos) else rt).(state := Fault), {}, FaultReason(inp.trips))
    else
      match rt.state
      case Terminated => FsmOut(rt, {}, HeldStandstill)
      case Fault => FsmOut(rt, {}, HeldStandstill)
      case Escalated => FromEscalated(cfg, rt, ack)
      case Held => FromHeld(cfg, rt, clean, ack, inp)
      case Braking => FromBraking(cfg, rt, pos, inp)
      case Idle => FsmOut(Latched(cfg, rt, pos).(state := Fault), {}, FaultInternal)
      case _ => FromRunning(cfg, rt, inp)
  }

  /** One tick of the table; `clean_run` counts in every state. */
  function Next(cfg: FuseConfig, rt: FsmRt, pos: Vec, inp: FsmInput): FsmOut
    requires |rt.lastNonce| == MAX_OPERATORS && |cfg.boxLo| == |cfg.boxHi| == |pos|
  {
    var clean := Clean(inp);
    Transition(cfg, rt.(cleanRun := if clean then Inc16(rt.cleanRun) else 0), pos, clean, AcceptedAck(rt, inp.ack), inp)
  }

  // ---- the table read backwards: when is each state entered -----------------------------------------------

  predicate Running(s: FuseState) { s == Armed || s == Watching || s == Clamped }

  /** An accepted ack on a tick without fault bits, with one of the given decisions. */
  predicate AckWith(rt: FsmRt, inp: FsmInput, ds: set<AckDecision>)
    requires |rt.lastNonce| == MAX_OPERATORS
  {
    var a := AcceptedAck(rt, inp.ack);
    a.Some? && a.value.decision in ds
  }

  /** A reason to brake on a running tick: an infeasible brake, a soft trip that may not be clamped, a persistent
      prediction, or an exhausted clamp budget. */
  predicate MustBrake(cfg: FuseConfig, rt: FsmRt, inp: FsmInput) {
    || BRAKE in inp.trips || (inp.trips * TIER0_SOFT != {} && !inp.softClampable) || inp.predictive
    || rt.clampStreak >= cfg.hyst.clampStreakToBrake || rt.clamps > cfg.hyst.maxClampsPerEpisode
  }

  predicate AutoRearms(cfg: FuseConfig, rt: FsmRt, inp: FsmInput)
    requires |rt.lastNonce| == MAX_OPERATORS
  {
    && !AckWith(rt, inp, {Resume, Abort})
    && cfg.hyst.rearm == Auto && rt.heldClean >= cfg.hyst.rearmHold && inp.chunkOk
    && rt.rearms < cfg.hyst.maxRearms
  }

  predicate Faulty(inp: FsmInput) { inp.trips * FAULT_BITS != {} }

  function NextState(cfg: FuseConfig, rt: FsmRt, pos: Vec, inp: FsmInput): FuseState
    requires FsmFits(cfg, rt) && |cfg.boxLo| == |cfg.boxHi| == |pos| == cfg.dim
  {
    Next(cfg, rt, pos, inp).rt.state
  }

  lemma FaultEntered(cfg: FuseConfig, rt: FsmRt, pos: Vec, inp: FsmInput)
    requires FsmFits(cfg, rt) && |cfg.boxLo| == |cfg.boxHi| == |pos| == cfg.dim
    ensures NextState(cfg, rt, pos, inp) != Idle
    ensures NextState(cfg, rt, pos, inp) == Fault <==>
            Faulty(inp) || rt.state == Fault || rt.state == Idle
            || (rt.state == Braking && rt.brakeTicks >= cfg.hyst.brakeTimeoutTicks)
  {
    hide FromRunning, FromEscalated, FromHeld, AcceptedAck, ClampBox;
  }

  lemma TerminatedEntered(cfg: FuseConfig, rt: FsmRt, pos: Vec, inp: FsmInput)
    requires FsmFits(cfg, rt) && |cfg.boxLo| == |cfg.boxHi| == |pos| == cfg.dim
    ensures NextState(cfg, rt, pos, inp) == Terminated <==>
            !Faulty(inp) && match rt.state
                            case Terminated => true
                            case Escalated => AckWith(rt, inp, {Abort, Retune})
                                              || (AcceptedAck(rt, inp.ack) == None
                                                  && rt.escalatedTicks >= cfg.hyst.handoffTimeoutTicks)
                            case Held => AckWith(rt, inp, {Abort})
                            case _ => false
  {
    hide FromRunning, FromBraking, ClampBox;
  }

  lemma EscalatedEntered(cfg: FuseConfig, rt: FsmRt, pos: Vec, inp: FsmInput)
    requires FsmFits(cfg, rt) && |cfg.boxLo| == |cfg.boxHi| == |pos| == cfg.dim
    ensures NextState(cfg, rt, pos, inp) == Escalated <==>
            !Faulty(inp) && match rt.state
                            case Escalated => AcceptedAck(rt, inp.ack) == None
                                              && rt.escalatedTicks < cfg.hyst.handoffTimeoutTicks
                            case Held => !AckWith(rt, inp, {Resume, Abort}) && !AutoRearms(cfg, rt, inp)
                                         && rt.heldTicks >= cfg.hyst.escalateAfterHoldTicks
                            case _ => false
  {
    hide FromRunning, FromBraking, ClampBox;
  }

  predicate StopConfirmed(cfg: FuseConfig, rt: FsmRt, inp: FsmInput) {
    inp.stopped && rt.stoppedTicks + 1 >= cfg.hyst.stopConfirmTicks
  }

  lemma HeldEntered(cfg: FuseConfig, rt: FsmRt, pos: Vec, inp: FsmInput)
    requires FsmFits(cfg, rt) && |cfg.boxLo| == |cfg.boxHi| == |pos| == cfg.dim
    ensures NextState(cfg, rt, pos, inp) == Held <==>
            !Faulty(inp) && match rt.state
                            case Held => !AckWith(rt, inp, {Resume, Abort}) && !AutoRearms(cfg, rt, inp)
                                         && rt.heldTicks < cfg.hyst.escalateAfterHoldTicks
                            case Braking => rt.brakeTicks < cfg.hyst.brakeTimeoutTicks && StopConfirmed(cfg, rt, inp)
                            case _ => false
  {
    hide FromRunning, FromEscalated, ClampBox;
  }

  lemma BrakingEntered(cfg: FuseConfig, rt: FsmRt, pos: Vec, inp: FsmInput)
    requires FsmFits(cfg, rt) && |cfg.boxLo| == |cfg.boxHi| == |pos| == cfg.dim
    ensures NextState(cfg, rt, pos, inp) == Braking <==>
            !Faulty(inp) && match rt.state
                            case Braking => rt.brakeTicks < cfg.hyst.brakeTimeoutTicks && !StopConfirmed(cfg, rt, inp)
                            case _ => Running(rt.state) && MustBrake(cfg, rt, inp)
  {
    hide FromHeld, FromEscalated, AcceptedAck, ClampBox;
  }

  function CleanRunNow(rt: FsmRt, inp: FsmInput): u16 { if Clean(inp) then Inc16(rt.cleanRun) else 0 }

  predicate ClearsDown(cfg: FuseConfig, rt: FsmRt, inp: FsmInput) { CleanRunNow(rt, inp) >= cfg.hyst.clearTicks }

  /** Nothing but a soft trip puts a running tick into Clamped; without one it stays there until the clear-down or a
      warning. */
  lemma ClampedEntered(cfg: FuseConfig, rt: FsmRt, pos: Vec, inp: FsmInput)
    requires FsmFits(cfg, rt) && |cfg.boxLo| == |cfg.boxHi| == |pos| == cfg.dim
    ensures NextState(cfg, rt, pos, inp) == Clamped <==>
            !Faulty(inp) && Running(rt.state) && !MustBrake(cfg, rt, inp)
            && (inp.trips * TIER0_SOFT != {}
                || (rt.state == Clamped && !ClearsDown(cfg, rt, inp) && !inp.warn && RecentHits(rt.hist, cfg.hyst.n) < 1))
  {
    hide FromHeld, FromEscalated, FromBraking, AcceptedAck, ClampBox;
  }

  lemma WatchingEntered(cfg: FuseConfig, rt: FsmRt, pos: Vec, inp: FsmInput)
    requires FsmFits(cfg, rt) && |cfg.boxLo| == |cfg.boxHi| == |pos| == cfg.dim
    ensures NextState(cfg, rt, pos, inp) == Watching <==>
            !Faulty(inp) && Running(rt.state) && !MustBrake(cfg, rt, inp) && inp.trips * TIER0_SOFT == {}
            && (rt.state == Armed || !ClearsDown(cfg, rt, inp))
            && (inp.warn || RecentHits(rt.hist, cfg.hyst.n) >= 1 || rt.state == Watching)
  {
    hide FromHeld, FromEscalated, FromBraking, AcceptedAck, ClampBox;
  }

  /** What one step may touch: the handoff number moves exactly when Escalated is entered, the re-arm count exactly on a
      re-arm, the clamp count only in Clamped, and the hold setpoint only on entering Held or Fault, where it becomes the
      clamped position: it is latched for the whole stop. */
  predicate Contained(cfg: FuseConfig, rt: FsmRt, pos: Vec, o: FsmOut)
    requires |cfg.boxLo| == |cfg.boxHi| == |pos| == cfg.dim
  {
    var rt' := o.rt;
    && FsmFits(cfg, rt')
    && rt'.handoffSeq == (if rt'.state == Escalated && rt.state != Escalated
                          then Wrap32(rt.handoffSeq) else rt.handoffSeq)
    && rt'.rearms == (if o.reason == RearmedAuto || o.reason == RearmedAck then Inc8(rt.rearms) else rt.rearms)
    && (rt'.clamps != rt.clamps ==> rt'.state == Clamped)
    && rt'.hold == (if rt'.state != rt.state && (rt'.state == Held || rt'.state == Fault)
                    then ClampBox(cfg, pos) else rt.hold)
  }

  lemma HeldContained(cfg: FuseConfig, rt: FsmRt, pos: Vec, clean: bool, ack: Option<VerifiedAck>, inp: FsmInput)
    requires FsmFits(cfg, rt) && |cfg.boxLo| == |cfg.boxHi| == |pos| == cfg.dim && rt.state == Held
    ensures Contained(cfg, rt, pos, FromHeld(cfg, rt, clean, ack, inp))
  {
    hide ClampBox;
  }

  lemma EscalatedContained(cfg: FuseConfig, rt: FsmRt, pos: Vec, ack: Option<VerifiedAck>)
    requires FsmFits(cfg, rt) && |cfg.boxLo| == |cfg.boxHi| == |pos| == cfg.dim && rt.state == Escalated
    ensures Contained(cfg, rt, pos, FromEscalated(cfg, rt, ack))
  {
    hide ClampBox;
  }

  lemma ReasonOfClamp(t: Trips)
    ensures ClampReason(t) != RearmedAck && ClampReason(t) != RearmedAuto && ClampReason(t) != ReasonOk
  {}

  lemma RunningContained(cfg: FuseConfig, rt: FsmRt, pos: Vec, inp: FsmInput)
    requires FsmFits(cfg, rt) && |cfg.boxLo| == |cfg.boxHi| == |pos| == cfg.dim
    requires Running(rt.state)
    ensures Contained(cfg, rt, pos, FromRunning(cfg, rt, inp))
  {
    hide ClampBox, ClampReason, RecentHits;
    ReasonOfClamp(inp.trips * TIER0_SOFT);
  }

  lemma BrakingContained(cfg: FuseConfig, rt: FsmRt, pos: Vec, inp: FsmInput)
    requires FsmFits(cfg, rt) && |cfg.boxLo| == |cfg.boxHi| == |pos| == cfg.dim && rt.state == Braking
    ensures Contained(cfg, rt, pos, FromBraking(cfg, rt, pos, inp))
  {
    hide ClampBox;
  }

  lemma TableEffects(cfg: FuseConfig, rt: FsmRt, pos: Vec, inp: FsmInput)
    requires FsmFits(cfg, rt) && |cfg.boxLo| == |cfg.boxHi| == |pos| == cfg.dim
    ensures Contained(cfg, rt, pos, Next(cfg, rt, pos, inp))
  {
    hide FromHeld, FromEscalated, FromRunning, FromBraking, AcceptedAck, ClampBox, Clean;
    var clean := Clean(inp);
    var rt0 := rt.(cleanRun := if clean then Inc16(rt.cleanRun) else 0);
    if !Faulty(inp) {
      match rt.state {
        case Held => HeldContained(cfg, rt0, pos, clean, AcceptedAck(rt, inp.ack), inp);
        case Escalated => EscalatedContained(cfg, rt0, pos, AcceptedAck(rt, inp.ack));
        case Braking => BrakingContained(cfg, rt0, pos, inp);
        case Armed => RunningContained(cfg, rt0, pos, inp);
        case Watching => RunningContained(cfg, rt0, pos, inp);
        case Clamped => RunningContained(cfg, rt0, pos, inp);
        case _ =>
      }
    }
  }

  predicate AckReason(r: ReasonCode) { r == RearmedAck || r == TerminatedAbort || r == TerminatedRetune }

  /** The step consumed ack `a`: its nonce is recorded and the handoff is closed. Or it consumed none. */
  predicate ConsumesOrKeeps(rt: FsmRt, a: Option<VerifiedAck>, consumes: bool, o: FsmOut)
    requires |rt.lastNonce| == MAX_OPERATORS
  {
    if consumes then
      && AckReason(o.reason) && !o.rt.handoffPending && a.Some?
      && o.rt.lastNonce == Consumed(rt, a.value).lastNonce
    else !AckReason(o.reason) && o.rt.lastNonce == rt.lastNonce
  }

  lemma HeldAck(cfg: FuseConfig, rt: FsmRt, clean: bool, a: Option<VerifiedAck>, inp: FsmInput)
    requires FsmFits(cfg, rt)
    ensures ConsumesOrKeeps(rt, a, a.Some? && a.value.decision != Retune, FromHeld(cfg, rt, clean, a, inp))
  {}

  lemma EscalatedAck(cfg: FuseConfig, rt: FsmRt, a: Option<VerifiedAck>)
    requires FsmFits(cfg, rt)
    ensures ConsumesOrKeeps(rt, a, a.Some?, FromEscalated(cfg, rt, a))
  {}

  lemma RunningAck(cfg: FuseConfig, rt: FsmRt, inp: FsmInput)
    requires FsmFits(cfg, rt)
    ensures ConsumesOrKeeps(rt, None, false, FromRunning(cfg, rt, inp))
  {}

  /** An ack is consumed exactly when it is accepted in Escalated, or is an accepted Resume or Abort in Held; its nonce
      is then recorded, and no other tick records a nonce. */
  lemma AckEffects(cfg: FuseConfig, rt: FsmRt, pos: Vec, inp: FsmInput)
    requires FsmFits(cfg, rt) && |cfg.boxLo| == |cfg.boxHi| == |pos| == cfg.dim
    ensures var a := AcceptedAck(rt, inp.ack);
            var consumes := !Faulty(inp) && a.Some?
                            && (rt.state == Escalated || (rt.state == Held && a.value.decision != Retune));
            ConsumesOrKeeps(rt, a, consumes, Next(cfg, rt, pos, inp))
  {
    hide FromHeld, FromEscalated, FromRunning, AcceptedAck, ClampBox;
    var clean, a := Clean(inp), AcceptedAck(rt, inp.ack);
    var rt0 := rt.(cleanRun := if clean then Inc16(rt.cleanRun) else 0);
    if !Faulty(inp) {
      match rt.state {
        case Held => HeldAck(cfg, rt0, clean, a, inp);
        case Escalated => EscalatedAck(cfg, rt0, a);
        case Armed => RunningAck(cfg, rt0, inp);
        case Watching => RunningAck(cfg, rt0, inp);
        case Clamped => RunningAck(cfg, rt0, inp);
        case _ =>
      }
    }
  }

  /** Only Fault is absorbing: Terminated leaves on a fault bit and on nothing else. */
  lemma FaultIsAbsorbing(cfg: FuseConfig, rt: FsmRt, pos: Vec, inp: FsmInput)
    requires FsmFits(cfg, rt) && |cfg.boxLo| == |cfg.boxHi| == |pos| == cfg.dim
    ensures rt.state == Fault ==> Next(cfg, rt, pos, inp).rt.state == Fault
    ensures rt.state == Terminated ==>
              Next(cfg, rt, pos, inp).rt.state == if inp.trips * FAULT_BITS != {} then Fault else Terminated
  {
  }
}
