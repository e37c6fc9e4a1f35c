/** What one tick of the fuse does to the fields a session relies on: numbers, counts, the guard, acks. */
module TickFacts {
  import opened Ints
  import opened Options
  import opened Fmath
  import opened Core
  import opened Fsm
  import opened Tally
  import opened Fuse
  import opened Runs

  /** A tick that fails the guard ends in Fault, holds, and consumes no ack. */
  lemma GuardedTick(cfg: FuseConfig, rt: Rt, inp: TickInput)
    requires cfg.Valid() && RtFits(cfg, rt) && inp.Fits() && !Admissible(cfg, rt, inp)
    ensures var (rt', v) := Decide(cfg, rt, inp);
            rt'.fsm.state == Fault && v.state == Fault && v.src == SrcHold && !v.ackConsumed && v.handoffSeq == None
  {
    hide Next, Recorded, ClampBox;
    var bits := Guard(cfg, rt, inp);
    assert bits <= FAULT_BITS;
    assert bits * FAULT_BITS == bits;
    var pos := FaultPos(cfg, rt, inp.obs);
    FaultEntered(cfg, rt.fsm, pos, FaultInput(cfg, inp, bits));
  }

  /** Numbers, counts and the handoff number of a tick. */
  lemma TickNumbers(cfg: FuseConfig, rt: Rt, inp: TickInput)
    requires cfg.Valid() && RtFits(cfg, rt) && inp.Fits()
    ensures var (rt', v) := Decide(cfg, rt, inp);
            && v.seqNo == rt.seqNo && rt'.seqNo == Inc32(rt.seqNo) && rt'.tally.ticks == Inc32(rt.tally.ticks)
            && v.t == inp.obs.t && v.state == rt'.fsm.state && v.prevState == rt.fsm.state
            && v.handoffSeq == if v.state == Escalated && v.prevState != Escalated then Some(rt'.fsm.handoffSeq) else None
  {
    hide Next, Recorded, Tier0Stage, TickScores, ClampBox, EventsOf, FsmInputOf, IngestedVel, ActionOf, SourceOf;
    TickIsTableStep(cfg, rt, inp);
    if Admissible(cfg, rt, inp) {
      AdmissibleTick(cfg, rt, inp);
    } else {
      GuardedTick(cfg, rt, inp);
    }
  }

  /** What a tick does with an ack: on an admissible tick it is consumed exactly when the table accepts it in Escalated, or
      accepts a Resume or Abort in Held; the consumed nonce is recorded, and no other tick records one. */
  lemma TickAck(cfg: FuseConfig, rt: Rt, inp: TickInput)
    requires cfg.Valid() && RtFits(cfg, rt) && inp.Fits()
    ensures var (rt', v) := Decide(cfg, rt, inp);
            var a := AcceptedAck(rt.fsm, inp.ack);
            && v.ackConsumed == (Admissible(cfg, rt, inp) && a.Some?
                                 && (rt.fsm.state == Escalated || (rt.fsm.state == Held && a.value.decision != Retune)))
            && rt'.fsm.lastNonce == (if v.ackConsumed then Consumed(rt.fsm, a.value).lastNonce else rt.fsm.lastNonce)
  {
    hide Next, Decide, Guard, Consumed;
    TickIsTableStep(cfg, rt, inp);
    var (fsm, pos, fin) := TableInput(cfg, rt, inp);
    AckEffects(cfg, fsm, pos, fin);
    FedTable(cfg, rt, inp);
    ConsumedIgnoresWindow(rt.fsm, fsm.hist, AcceptedAck(rt.fsm, inp.ack));
  }

  lemma ConsumedIgnoresWindow(rt: FsmRt, hist: seq<bool>, a: Option<VerifiedAck>)
    requires |rt.lastNonce| == MAX_OPERATORS
    ensures a.Some? ==> Consumed(rt.(hist := hist), a.value).lastNonce == Consumed(rt, a.value).lastNonce
  {}

  /** What the table is given: fault bits exactly on a guarded tick, and the ack only on an admissible one. */
  lemma FedTable(cfg: FuseConfig, rt: Rt, inp: TickInput)
    requires cfg.Valid() && RtFits(cfg, rt) && inp.Fits()
    ensures var (fsm, pos, fin) := TableInput(cfg, rt, inp);
            && (Faulty(fin) <==> !Admissible(cfg, rt, inp))
            && fin.ack == if Admissible(cfg, rt, inp) then inp.ack else None
  {
    hide Tier0Stage, TickScores, Hit, Ingested, Warn, Guard, Decide, Decided, IngestedVel;
    GuardBits(cfg, rt, inp);
    if Admissible(cfg, rt, inp) {
      AdmissibleTick(cfg, rt, inp);
      AdmittedTrips(cfg, rt, inp);
    }
  }

  lemma AdmittedTrips(cfg: FuseConfig, rt: Rt, inp: TickInput)
    requires cfg.Valid() && RtFits(cfg, rt) && |inp.obs.pos| == cfg.dim && inp.idx < cfg.horizon
    requires inp.obs.vel.Some? ==> |inp.obs.vel.value| == cfg.dim
    requires if inp.chunk.Some? then Shaped(inp.chunk.value.rows, cfg.horizon, cfg.dim) else rt.cur.Some?
    ensures Tier0Stage(cfg, Ingested(cfg, rt, inp), inp).trips * FAULT_BITS == {}
  {
    hide Tier0Stage, IngestedVel;
    var rt1 := Ingested(cfg, rt, inp);
    Tier0Bits(cfg, rt1, inp);
    NoFaultBits(Tier0Stage(cfg, rt1, inp).trips);
  }

  lemma GuardBits(cfg: FuseConfig, rt: Rt, inp: TickInput)
    ensures Guard(cfg, rt, inp) != {} ==> Guard(cfg, rt, inp) * FAULT_BITS != {}
  {
    hide NonFinite, BreaksSchema;
    var bits := Guard(cfg, rt, inp);
    assert bits * FAULT_BITS == bits;
  }

  /** Where a tick can go from Escalated and from Fault, and what that says about an ack. */
  lemma LeavingEscalated(cfg: FuseConfig, rt: FsmRt, pos: Vec, inp: FsmInput)
    requires FsmFits(cfg, rt) && |cfg.boxLo| == |cfg.boxHi| == |pos| == cfg.dim && rt.state == Escalated
    ensures var s := NextState(cfg, rt, pos, inp);
            && (s == Escalated || s == Terminated || s == Armed || s == Fault)
            && (s == Fault <==> Faulty(inp))
            && (s == Armed ==> AcceptedAck(rt, inp.ack).Some?)
            && (s == Escalated ==> AcceptedAck(rt, inp.ack).None?)
  {
    hide FromHeld, FromBraking, FromRunning, ClampBox;
  }

  /** The handoff number changes only on entering Escalated; out of Escalated the fuse goes to Terminated, to Fault, or,
      by a consumed ack, to Armed; Fault stays and consumes nothing. */
  predicate HandoffMoves(before: FsmRt, after: FsmRt, v: Verdict) {
    && v.prevState == before.state && v.state == after.state
    && after.handoffSeq == (if v.state == Escalated && v.prevState != Escalated then Wrap32(before.handoffSeq)
                            else before.handoffSeq)
    && v.handoffSeq == (if v.state == Escalated && v.prevState != Escalated then Some(after.handoffSeq) else None)
    && (v.prevState == Escalated ==>
          && (v.state == Escalated || v.state == Terminated || v.state == Armed || v.state == Fault)
          && (v.state == Armed ==> v.ackConsumed) && (v.ackConsumed ==> v.state != Escalated && v.state != Fault))
    && (v.prevState == Fault ==> v.state == Fault && !v.ackConsumed)
  }

  lemma TickMovesHandoff(cfg: FuseConfig, rt: Rt, inp: TickInput)
    requires cfg.Valid() && RtFits(cfg, rt) && inp.Fits()
    ensures var (rt', v) := Decide(cfg, rt, inp); HandoffMoves(rt.fsm, rt'.fsm, v)
  {
    hide Next, Decide, Guard, TableInput, AcceptedAck;
    TickNumbers(cfg, rt, inp);
    TickIsTableStep(cfg, rt, inp);
    TickAck(cfg, rt, inp);
    FedTable(cfg, rt, inp);
    var (fsm, pos, fin) := TableInput(cfg, rt, inp);
    TableEffects(cfg, fsm, pos, fin);
    AckIgnoresWindow(rt.fsm, fsm.hist, inp.ack);
    NoAckAccepted(rt.fsm);
    FaultIsAbsorbing(cfg, fsm, pos, fin);
    if rt.fsm.state == Escalated {
      LeavingEscalated(cfg, fsm, pos, fin);
    }
  }

  lemma NoAckAccepted(rt: FsmRt)
    requires |rt.lastNonce| == MAX_OPERATORS
    ensures AcceptedAck(rt, None) == None
  {}

  lemma AckIgnoresWindow(rt: FsmRt, hist: seq<bool>, ack: Option<VerifiedAck>)
    requires |rt.lastNonce| == MAX_OPERATORS
    ensures AcceptedAck(rt.(hist := hist), ack) == AcceptedAck(rt, ack)
    ensures AcceptedAck(rt.(hist := hist), None) == None
  {}
}
