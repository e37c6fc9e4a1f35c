/** The escalation state as an object: the fields `fsm.rs` reads and writes, and the methods that update them, each
    proved against the value-level table of module `Fsm`. */
module Escalation {
  import opened Ints
  import opened Options
  import opened Fmath
  import opened Core
  import opened Window
  import opened Fsm

  class Ladder {
    const cfg: FuseConfig
    const window: HitWindow
    var state: FuseState
    var cleanRun: u16
    var clampStreak: u8
    var clamps: u16
    var brakeTicks: u16
    var stoppedTicks: u8
    var heldTicks: u16
    var heldClean: u16
    var escalatedTicks: u32
    var rearms: u8
    var handoffSeq: u32
    var handoffPending: bool
    var lastNonce: seq<u64>
    var hold: Vec

    /** The abstract state of the table; the window register means its history of hits. */
    ghost function Table(): FsmRt
      reads this, window
    {
      FsmRt(state, cleanRun, clampStreak, clamps, brakeTicks, stoppedTicks, heldTicks, heldClean, escalatedTicks,
            rearms, handoffSeq, handoffPending, lastNonce, window.history, hold)
    }

    ghost predicate Valid()
      reads this, window
    {
      && |cfg.boxLo| == |cfg.boxHi| == cfg.dim && cfg.hyst.n <= 63
      && window.Valid(cfg.hyst.n) && |lastNonce| == MAX_OPERATORS && |hold| == cfg.dim
    }

    /** An armed ladder with every counter zero. */
    constructor (c: FuseConfig)
      requires |c.boxLo| == |c.boxHi| == c.dim && c.hyst.n <= 63
      ensures Valid() && fresh(window) && cfg == c && Table() == ArmedTable(c.dim)
    {
      cfg := c;
      window := new HitWindow();
      state, cleanRun, clampStreak, clamps, brakeTicks, stoppedTicks := Armed, 0, 0, 0, 0, 0;
      heldTicks, heldClean, escalatedTicks, rearms := 0, 0, 0, 0;
      handoffSeq, handoffPending := 0, false;
      lastNonce, hold := NoNonces(), ZeroVec(c.dim);
    }

    method Reset()
      requires Valid()
      modifies this, window
      ensures Valid() && Table() == ArmedTable(cfg.dim)
    {
      hide HitWindow.Valid, ZeroVec, NoNonces;
      window.Clear(cfg.hyst.n);
      ClearFields();
    }

    method ClearFields()
      modifies this
      ensures state == Armed && cleanRun == 0 && clampStreak == 0 && clamps == 0 && brakeTicks == 0 && stoppedTicks == 0
      ensures heldTicks == 0 && heldClean == 0 && escalatedTicks == 0 && rearms == 0 && handoffSeq == 0 && !handoffPending
      ensures lastNonce == NoNonces() && hold == ZeroVec(cfg.dim)
    {
      hide NoNonces, ZeroVec;
      state, cleanRun, clampStreak, clamps, brakeTicks, stoppedTicks := Armed, 0, 0, 0, 0, 0;
      heldTicks, heldClean, escalatedTicks, rearms := 0, 0, 0, 0;
      handoffSeq, handoffPending := 0, false;
      lastNonce, hold := NoNonces(), ZeroVec(cfg.dim);
    }

    method Hits() returns (r: nat)
      requires Valid()
      ensures r == RecentHits(Table().hist, cfg.hyst.n)
    {
      r := window.Hits(cfg.hyst.n);
    }

    /** Records the newest hit of an admissible tick. */
    method PushHit(hit: bool)
      requires Valid() && cfg.windowMask == MaskOf(cfg.hyst.n)
      modifies window
      ensures Valid() && Table() == old(Table()).(hist := old(Table()).hist + [hit])
    {
      hide MaskOf, Pack, Shifted;
      window.Push(hit, cfg.windowMask, cfg.hyst.n);
    }


    /** The hold setpoint becomes the clamped position, coordinate by coordinate. */
    method LatchHold(pos: Vec)
      requires Valid() && |pos| == cfg.dim
      modifies this`hold
      ensures Valid() && Table() == Latched(cfg, old(Table()), pos)
    {
      hide HitWindow.Valid;
      var h: Vec := [];
      var c := 0;
      while c < cfg.dim
        invariant c <= cfg.dim && h == ClampBox(cfg, pos)[..c]
      {
        h := h + [Clamp(pos[c], cfg.boxLo[c], cfg.boxHi[c])];
        c := c + 1;
      }
      hold := h;
    }

    method ConsumeNonce(a: VerifiedAck)
      requires |lastNonce| == MAX_OPERATORS
      modifies this`lastNonce
      ensures Table() == Consumed(old(Table()), a)
    {
      if a.operatorSlot < MAX_OPERATORS {
        lastNonce := lastNonce[a.operatorSlot := a.nonce];
      }
    }

    method RearmAck(a: VerifiedAck)
      requires Valid()
      modifies this, window
      ensures Valid() && Table() == Rearmed(old(Table()), a)
    {
      hide HitWindow.Valid, Consumed;
      ConsumedKeeps(Table(), a);
      ConsumeNonce(a);
      window.Clear(cfg.hyst.n);
      ZeroCounters();
      rearms, handoffPending, state := Inc8(rearms), false, Armed;
    }

    method ZeroCounters()
      modifies this`cleanRun, this`clampStreak, this`heldTicks, this`heldClean, this`escalatedTicks
      ensures cleanRun == 0 && clampStreak == 0 && heldTicks == 0 && heldClean == 0 && escalatedTicks == 0
    {
      cleanRun, clampStreak, heldTicks, heldClean, escalatedTicks := 0, 0, 0, 0, 0;
    }

    method StopOnAck(a: VerifiedAck)
      requires Valid()
      modifies this
      ensures Valid() && Table() == Stopped(old(Table()), a)
    {
      hide HitWindow.Valid;
      ConsumeNonce(a);
      handoffPending := false;
      state := Terminated;
    }

    method StepEscalated(ack: Option<VerifiedAck>) returns (extra: Trips, reason: ReasonCode)
      requires Valid() && state == Escalated
      modifies this, window
      ensures var o := FromEscalated(cfg, old(Table()), ack);
              Valid() && Table() == o.rt && extra == o.extra && reason == o.reason
    {
      hide HitWindow.Valid;
      extra, reason := {}, HeldStandstill;
      if ack.Some? {
        match ack.value.decision {
          case Abort =>
            StopOnAck(ack.value);
            extra, reason := {OPERATOR_ABORT}, TerminatedAbort;
          case Retune =>
            StopOnAck(ack.value);
            reason := TerminatedRetune;
          case Resume =>
            RearmAck(ack.value);
            reason := RearmedAck;
        }
      } else if escalatedTicks >= cfg.hyst.handoffTimeoutTicks {
        handoffPending, state := false, Terminated;
        extra, reason := {HANDOFF_TIMEOUT}, TerminatedTimeout;
      } else {
        escalatedTicks := Inc32(escalatedTicks);
      }
    }

    method StepHeld(clean: bool, ack: Option<VerifiedAck>, inp: FsmInput) returns (extra: Trips, reason: ReasonCode)
      requires Valid() && state == Held
      modifies this, window
      ensures var o := FromHeld(cfg, old(Table()), clean, ack, inp);
              Valid() && Table() == o.rt && extra == o.extra && reason == o.reason
    {
      hide HitWindow.Valid;
      var h := cfg.hyst;
      extra, reason := {}, HeldStandstill;
      if ack.Some? && ack.value.decision == Resume {
        RearmAck(ack.value);
        reason := RearmedAck;
        return;
      }
      if ack.Some? && ack.value.decision == Abort {
        StopOnAck(ack.value);
        extra, reason := {OPERATOR_ABORT}, TerminatedAbort;
        return;
      }
      if h.rearm == Auto && heldClean >= h.rearmHold && inp.chunkOk && rearms < h.maxRearms {
        rearms := Inc8(rearms);
        window.Clear(cfg.hyst.n);
        state := Armed;
        reason := RearmedAuto;
        return;
      }
      if heldTicks >= h.escalateAfterHoldTicks {
        OpenHandoff();
        if rearms >= h.maxRearms {
          return {REARM_BUDGET}, EscalateRearmBudget;
        }
        return {}, if inp.predictive then EscalateTier1Persistent else EscalateHoldTimeout;
      }
      heldTicks := Inc16(heldTicks);
      heldClean := if clean then Inc16(heldClean) else 0;
    }

    method OpenHandoff()
      modifies this`handoffSeq, this`handoffPending, this`escalatedTicks, this`state
      ensures handoffSeq == Wrap32(old(handoffSeq)) && handoffPending && escalatedTicks == 0 && state == Escalated
    {
      handoffSeq, handoffPending, escalatedTicks, state := Wrap32(handoffSeq), true, 0, Escalated;
    }

    method StepBraking(pos: Vec, inp: FsmInput) returns (extra: Trips, reason: ReasonCode)
      requires Valid() && state == Braking && |pos| == cfg.dim
      modifies this
      ensures var o := FromBraking(cfg, old(Table()), pos, inp);
              Valid() && Table() == o.rt && extra == o.extra && reason == o.reason
    {
      hide HitWindow.Valid;
      if brakeTicks >= cfg.hyst.brakeTimeoutTicks {
        LatchHold(pos);
        state := Fault;
        return {BRAKE_TIMEOUT}, FaultBrakeTimeout;
      }
      if inp.stopped && stoppedTicks + 1 >= cfg.hyst.stopConfirmTicks {
        LatchHold(pos);
        heldTicks, heldClean, state := 0, 0, Held;
        return {}, HeldStandstill;
      }
      brakeTicks := Inc16(brakeTicks);
      stoppedTicks := if inp.stopped then Inc8(stoppedTicks) else 0;
      return {}, Stopping;
    }

    method StartBraking()
      requires Valid()
      modifies this`brakeTicks, this`stoppedTicks, this`state
      ensures Valid() && Table() == EnterBraking(old(Table()), {}, ReasonOk).rt
    {
      hide HitWindow.Valid;
      brakeTicks, stoppedTicks, state := 0, 0, Braking;
    }

    method StepRunning(inp: FsmInput) returns (extra: Trips, reason: ReasonCode)
      requires Valid() && Running(state)
      modifies this, window
      ensures var o := FromRunning(cfg, old(Table()), inp);
              Valid() && Table() == o.rt && extra == o.extra && reason == o.reason
    {
      hide HitWindow.Valid, ClampReason, RecentHits;
      var h := cfg.hyst;
      var soft := inp.trips * TIER0_SOFT;
      if BRAKE in inp.trips {
        StartBraking();
        return {}, BrakeInfeasible;
      }
      if soft != {} && !inp.softClampable {
        StartBraking();
        return {}, ClampReason(soft);
      }
      if inp.predictive {
        StartBraking();
        return {TIER1_CP}, BrakeTier1Cp;
      }
      if clampStreak >= h.clampStreakToBrake || clamps > h.maxClampsPerEpisode {
        StartBraking();
        return {CLAMP_BUDGET}, BrakeClampBudget;
      }
      if soft != {} {
        clamps := Inc16(clamps);
        if inp.chunkBoundary {
          clampStreak := Inc8(clampStreak);
        }
        state := Clamped;
        return {}, ClampReason(soft);
      }
      if state != Armed && cleanRun >= h.clearTicks {
        window.Clear(cfg.hyst.n);
        clampStreak, state := 0, Armed;
        return {}, ReasonOk;
      }
      var hits := window.Hits(h.n);
      if inp.warn || hits >= 1 {
        state := Watching;
        return {}, WatchBand;
      }
      if state == Armed {
        return {}, if cfg.mode == Observe then ObserveOnly else ReasonOk;
      }
      if state == Watching {
        return {}, WatchBand;
      }
      return {}, ReasonOk;
    }

    /** One tick of the table: rows evaluated top-down, first match wins. */
    method NextRow(pos: Vec, inp: FsmInput) returns (extra: Trips, reason: ReasonCode)
      requires Valid() && |pos| == cfg.dim
      modifies this, window
      ensures var o := Next(cfg, old(Table()), pos, inp);
              Valid() && Table() == o.rt && extra == o.extra && reason == o.reason
    {
      hide HitWindow.Valid;
      hide FromEscalated, FromHeld, FromBraking, FromRunning, AcceptedAck, FaultReason;
      var clean := Clean(inp);
      var ack := PassAck(inp.ack);
      cleanRun := if clean then Inc16(cleanRun) else 0;
      if inp.trips * FAULT_BITS != {} {
        if state != Fault {
          LatchHold(pos);
        }
        state := Fault;
        return {}, FaultReason(inp.trips);
      }
      match state {
        case Terminated => return {}, HeldStandstill;
        case Fault => return {}, HeldStandstill;
        case Escalated => extra, reason := StepEscalated(ack);
        case Held => extra, reason := StepHeld(clean, ack, inp);
        case Braking => extra, reason := StepBraking(pos, inp);
        case Idle =>
          LatchHold(pos);
          state := Fault;
          return {}, FaultInternal;
        case Armed => extra, reason := StepRunning(inp);
        case Watching => extra, reason := StepRunning(inp);
        case Clamped => extra, reason := StepRunning(inp);
      }
    }

    /** The two integer checks on an ack. */
    method PassAck(ack: Option<VerifiedAck>) returns (r: Option<VerifiedAck>)
      requires |lastNonce| == MAX_OPERATORS
      ensures r == AcceptedAck(Table(), ack)
    {
      if ack.None? { return None; }
      var a := ack.value;
      if a.operatorSlot >= MAX_OPERATORS { return None; }
      if a.handoffSeq != handoffSeq || a.nonce <= lastNonce[a.operatorSlot] { return None; }
      return ack;
    }
  }

  /** Consuming a nonce touches nothing else. */
  lemma ConsumedKeeps(rt: FsmRt, a: VerifiedAck)
    requires |rt.lastNonce| == MAX_OPERATORS
    ensures Consumed(rt, a) == rt.(lastNonce := Consumed(rt, a).lastNonce) && |Consumed(rt, a).lastNonce| == MAX_OPERATORS
  {}
}
