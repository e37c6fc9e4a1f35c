/** How long an episode can spend stopping: a ranking measure over the escalation table, and the bounds it gives for
    every run. */
module Budget {
  import opened Ints
  import opened Options
  import opened Fmath
  import opened Core
  import opened Fsm
  import opened Tally
  import opened Fuse
  import opened Runs

  predicate InStop(s: FuseState) { s == Braking || s == Held || s == Escalated }

  /** Longest stay in one visit of Braking that still reaches Held, plus the longest stay in Held. */
  function CycleLength(h: Hysteresis): nat {
    (if h.brakeTimeoutTicks == 0 then 1 else h.brakeTimeoutTicks) + h.escalateAfterHoldTicks + 1
  }

  function Left(h: Hysteresis, rearms: nat): nat { if rearms < h.maxRearms then h.maxRearms - rearms else 0 }

  /** `n * c`, kept additive for the proofs. */
  function Times(n: nat, c: nat): nat { if n == 0 then 0 else c + Times(n - 1, c) }

  lemma {:induction false} TimesIsProduct(n: nat, c: nat)
    ensures Times(n, c) == n * c
  {
    if n > 0 {
      TimesIsProduct(n - 1, c);
      assert (n - 1) * c + c == n * c;
    }
  }

  lemma TimesStep(n: nat, b: bool, c: nat)
    ensures Times(n + One(b), c) == Times(n, c) + if b then c else 0
  {}

  /** An upper bound on the Braking, Held and Escalated verdicts still to come before the next operator Resume. */
  function Rank(h: Hysteresis, rt: FsmRt): nat {
    var left := Times(Left(h, rt.rearms), CycleLength(h));
    match rt.state
    case Armed => left + CycleLength(h) + h.handoffTimeoutTicks + 1
    case Watching => left + CycleLength(h) + h.handoffTimeoutTicks + 1
    case Clamped => left + CycleLength(h) + h.handoffTimeoutTicks + 1
    case Braking =>
      if rt.brakeTicks >= h.brakeTimeoutTicks then 0
      else left + (h.brakeTimeoutTicks - 1 - rt.brakeTicks) + h.escalateAfterHoldTicks + 1 + h.handoffTimeoutTicks + 1
    case Held =>
      left + (if rt.heldTicks <= h.escalateAfterHoldTicks then h.escalateAfterHoldTicks - rt.heldTicks else 0)
      + h.handoffTimeoutTicks + 1
    case Escalated =>
      left + if rt.escalatedTicks <= h.handoffTimeoutTicks then h.handoffTimeoutTicks - rt.escalatedTicks else 0
    case _ => 0
  }

  /** Braking visits still to come before the next operator Resume. */
  function VisitsLeft(h: Hysteresis, rt: FsmRt): nat {
    if Running(rt.state) then Left(h, rt.rearms) + 1
    else if InStop(rt.state) then Left(h, rt.rearms)
    else 0
  }

  function One(b: bool): nat { if b then 1 else 0 }

  /** One step: without a Resume the measure pays for a stopping verdict, and a Resume buys one more cycle and one more
      escalation. */
  predicate Pays(h: Hysteresis, before: FsmRt, o: FsmOut) {
    && One(InStop(o.rt.state)) + Rank(h, o.rt)
       <= Rank(h, before) + (if o.reason == RearmedAck then CycleLength(h) + h.handoffTimeoutTicks + 1 else 0)
    && One(o.rt.state == Braking && before.state != Braking) + VisitsLeft(h, o.rt)
       <= VisitsLeft(h, before) + One(o.reason == RearmedAck)
  }

  lemma LeftAfterRearm(h: Hysteresis, rearms: u8)
    ensures Left(h, Inc8(rearms)) <= Left(h, rearms)
    ensures Times(Left(h, Inc8(rearms)), CycleLength(h)) <= Times(Left(h, rearms), CycleLength(h))
    ensures rearms < h.maxRearms ==>
              Left(h, rearms) == Left(h, Inc8(rearms)) + 1
              && Times(Left(h, rearms), CycleLength(h)) == CycleLength(h) + Times(Left(h, Inc8(rearms)), CycleLength(h))
  {
    hide CycleLength;
  }

  lemma EscalatedPays(cfg: FuseConfig, rt: FsmRt, a: Option<VerifiedAck>)
    requires FsmFits(cfg, rt) && rt.state == Escalated
    ensures Pays(cfg.hyst, rt, FromEscalated(cfg, rt, a))
  {
    LeftAfterRearm(cfg.hyst, rt.rearms);
    hide Times, Left, CycleLength;
  }

  lemma HeldPays(cfg: FuseConfig, rt: FsmRt, clean: bool, a: Option<VerifiedAck>, inp: FsmInput)
    requires FsmFits(cfg, rt) && rt.state == Held
    ensures Pays(cfg.hyst, rt, FromHeld(cfg, rt, clean, a, inp))
  {
    LeftAfterRearm(cfg.hyst, rt.rearms);
    hide Times, Left, CycleLength;
  }

  lemma BrakingPays(cfg: FuseConfig, rt: FsmRt, pos: Vec, inp: FsmInput)
    requires |cfg.boxLo| == |cfg.boxHi| == |pos| && rt.state == Braking
    ensures Pays(cfg.hyst, rt, FromBraking(cfg, rt, pos, inp))
  {
    hide Times, Left, CycleLength, ClampBox;
  }

  lemma RunningPays(cfg: FuseConfig, rt: FsmRt, inp: FsmInput)
    requires Running(rt.state)
    ensures Pays(cfg.hyst, rt, FromRunning(cfg, rt, inp))
  {
    hide Times, Left, ClampReason;
  }

  lemma TablePays(cfg: FuseConfig, rt: FsmRt, pos: Vec, inp: FsmInput)
    requires FsmFits(cfg, rt) && |cfg.boxLo| == |cfg.boxHi| == |pos| == cfg.dim
    ensures Pays(cfg.hyst, rt, Next(cfg, rt, pos, inp))
  {
    hide FromHeld, FromEscalated, FromRunning, FromBraking, AcceptedAck, ClampBox, Clean, Times, Left, CycleLength;
    var clean, a := Clean(inp), AcceptedAck(rt, inp.ack);
    var rt0 := rt.(cleanRun := if clean then Inc16(rt.cleanRun) else 0);
    if !Faulty(inp) {
      match rt.state {
        case Held => HeldPays(cfg, rt0, clean, a, inp);
        case Escalated => EscalatedPays(cfg, rt0, a);
        case Braking => BrakingPays(cfg, rt0, pos, inp);
        case Armed => RunningPays(cfg, rt0, inp);
        case Watching => RunningPays(cfg, rt0, inp);
        case Clamped => RunningPays(cfg, rt0, inp);
        case _ =>
      }
    }
  }

  /** The same for one tick of the fuse. */
  predicate TickPays(h: Hysteresis, before: FsmRt, after: FsmRt, v: Verdict) {
    && v.state == after.state && v.prevState == before.state
    && One(InStop(v.state)) + Rank(h, after)
       <= Rank(h, before) + (if v.reason == RearmedAck then CycleLength(h) + h.handoffTimeoutTicks + 1 else 0)
    && One(v.state == Braking && v.prevState != Braking) + VisitsLeft(h, after)
       <= VisitsLeft(h, before) + One(v.reason == RearmedAck)
  }

  lemma DecidePays(cfg: FuseConfig, rt: Rt, inp: TickInput)
    requires cfg.Valid() && RtFits(cfg, rt) && inp.Fits()
    ensures var r := Decide(cfg, rt, inp); TickPays(cfg.hyst, rt.fsm, r.0.fsm, r.1)
  {
    hide Next, Decide, TableInput, Rank, VisitsLeft, CycleLength;
    TickIsTableStep(cfg, rt, inp);
    var (fsm, pos, fin) := TableInput(cfg, rt, inp);
    TablePays(cfg, fsm, pos, fin);
    RankIgnoresWindow(cfg.hyst, rt.fsm, fsm.hist);
  }

  lemma RankIgnoresWindow(h: Hysteresis, rt: FsmRt, hist: seq<bool>)
    ensures Rank(h, rt.(hist := hist)) == Rank(h, rt) && VisitsLeft(h, rt.(hist := hist)) == VisitsLeft(h, rt)
  {
    hide Times, Left, CycleLength;
  }

  // ---- whole runs -----------------------------------------------------------------------------------------

  function StopCount(vs: seq<Verdict>): nat {
    if vs == [] then 0 else StopCount(vs[..|vs| - 1]) + One(InStop(vs[|vs| - 1].state))
  }

  function BrakingEntries(vs: seq<Verdict>): nat {
    if vs == [] then 0
    else BrakingEntries(vs[..|vs| - 1]) + One(vs[|vs| - 1].state == Braking && vs[|vs| - 1].prevState != Braking)
  }

  function ResumeCount(vs: seq<Verdict>): nat {
    if vs == [] then 0 else ResumeCount(vs[..|vs| - 1]) + One(vs[|vs| - 1].reason == RearmedAck)
  }

  lemma CountsSnoc(vs: seq<Verdict>, v: Verdict)
    ensures StopCount(vs + [v]) == StopCount(vs) + One(InStop(v.state))
    ensures BrakingEntries(vs + [v]) == BrakingEntries(vs) + One(v.state == Braking && v.prevState != Braking)
    ensures ResumeCount(vs + [v]) == ResumeCount(vs) + One(v.reason == RearmedAck)
  {
    assert (vs + [v])[..|vs|] == vs;
  }

  lemma FreshRank(cfg: FuseConfig)
    ensures var h, fsm := cfg.hyst, Fresh(cfg.dim).fsm;
            && Rank(h, fsm) == Times(h.maxRearms, CycleLength(h)) + CycleLength(h) + h.handoffTimeoutTicks + 1
            && VisitsLeft(h, fsm) == h.maxRearms + 1
  {
    hide CycleLength;
  }

  /** The bound carried along a run. */
  predicate Paid(h: Hysteresis, vs: seq<Verdict>, fsm: FsmRt) {
    && StopCount(vs) + Rank(h, fsm)
       <= Times(h.maxRearms, CycleLength(h)) + CycleLength(h) + h.handoffTimeoutTicks + 1
          + Times(ResumeCount(vs), CycleLength(h) + h.handoffTimeoutTicks + 1)
    && BrakingEntries(vs) + VisitsLeft(h, fsm) <= 1 + h.maxRearms + ResumeCount(vs)
  }

  lemma PaidStep(h: Hysteresis, vs: seq<Verdict>, before: FsmRt, after: FsmRt, v: Verdict)
    requires Paid(h, vs, before) && TickPays(h, before, after, v)
    ensures Paid(h, vs + [v], after)
  {
    hide CycleLength, Rank, VisitsLeft, Times, StopCount, BrakingEntries, ResumeCount, InStop;
    CountsSnoc(vs, v);
    TimesStep(ResumeCount(vs), v.reason == RearmedAck, CycleLength(h) + h.handoffTimeoutTicks + 1);
  }

  lemma {:induction false} RunPays(cfg: FuseConfig, inps: seq<TickInput>)
    requires cfg.Valid() && AllInputsFit(inps)
    ensures Paid(cfg.hyst, Verdicts(cfg, inps), StateAfter(cfg, inps).fsm)
  {
    hide Decide, CycleLength, Rank, VisitsLeft, Fresh, InStop, VerdictAt;
    if inps == [] {
      FreshRank(cfg);
    } else {
      var n := |inps| - 1;
      hide Paid, TickPays, Verdicts;
      RunPays(cfg, inps[..n]);
      VerdictsSnoc(cfg, inps);
      var rt := StateAfter(cfg, inps[..n]);
      DecidePays(cfg, rt, inps[n]);
      PaidStep(cfg.hyst, Verdicts(cfg, inps[..n]), rt.fsm, StateAfter(cfg, inps).fsm, Decide(cfg, rt, inps[n]).1);
    }
  }

  /** The stopping budget of every run from `reset`: Braking is entered at most `1 + max_rearms` times, plus once per
      operator Resume; Braking, Held and Escalated verdicts together number at most
      `(1 + max_rearms) * cycle + handoff_timeout + 1`, plus `cycle + handoff_timeout + 1` per operator Resume, where a
      cycle is `max(1, brake_timeout) + escalate_after_hold + 1`. */
  lemma StoppingBudget(cfg: FuseConfig, inps: seq<TickInput>)
    requires cfg.Valid() && AllInputsFit(inps)
    ensures var vs, h := Verdicts(cfg, inps), cfg.hyst;
            && BrakingEntries(vs) <= 1 + h.maxRearms + ResumeCount(vs)
            && StopCount(vs) <= (1 + h.maxRearms) * CycleLength(h) + h.handoffTimeoutTicks + 1
                                + ResumeCount(vs) * (CycleLength(h) + h.handoffTimeoutTicks + 1)
  {
    hide CycleLength, Decide, Rank, VisitsLeft, StateAfter, Verdicts, StopCount, BrakingEntries, ResumeCount, Times;
    var vs, h := Verdicts(cfg, inps), cfg.hyst;
    RunPays(cfg, inps);
    TimesStep(h.maxRearms, true, CycleLength(h));
    TimesIsProduct(1 + h.maxRearms, CycleLength(h));
    TimesIsProduct(ResumeCount(vs), CycleLength(h) + h.handoffTimeoutTicks + 1);
  }

  /** Without acks there is no Resume, and the budget is the bare one. */
  lemma BudgetWithoutAcks(cfg: FuseConfig, inps: seq<TickInput>)
    requires cfg.Valid() && AllInputsFit(inps) && forall i :: 0 <= i < |inps| ==> inps[i].ack.None?
    ensures var vs, h := Verdicts(cfg, inps), cfg.hyst;
            && BrakingEntries(vs) <= 1 + h.maxRearms
            && StopCount(vs) <= (1 + h.maxRearms) * CycleLength(h) + h.handoffTimeoutTicks + 1
  {
    hide CycleLength, Decide;
    StoppingBudget(cfg, inps);
    NoAckNoResume(cfg, inps);
    assert 0 * (CycleLength(cfg.hyst) + cfg.hyst.handoffTimeoutTicks + 1) == 0;
  }

  lemma {:induction false} NoAckNoResume(cfg: FuseConfig, inps: seq<TickInput>)
    requires cfg.Valid() && AllInputsFit(inps) && forall i :: 0 <= i < |inps| ==> inps[i].ack.None?
    ensures ResumeCount(Verdicts(cfg, inps)) == 0
  {
    hide Decide;
    if inps != [] {
      var n := |inps| - 1;
      NoAckNoResume(cfg, inps[..n]);
      VerdictsSnoc(cfg, inps);
      CountsSnoc(Verdicts(cfg, inps[..n]), Decide(cfg, StateAfter(cfg, inps[..n]), inps[n]).1);
      NoAckTick(cfg, StateAfter(cfg, inps[..n]), inps[n]);
    }
  }

  lemma NoAckTick(cfg: FuseConfig, rt: Rt, inp: TickInput)
    requires cfg.Valid() && RtFits(cfg, rt) && inp.Fits() && inp.ack.None?
    ensures Decide(cfg, rt, inp).1.reason != RearmedAck
  {
    hide Next, Decide, TableInput;
    TickIsTableStep(cfg, rt, inp);
    var (fsm, pos, fin) := TableInput(cfg, rt, inp);
    AckEffects(cfg, fsm, pos, fin);
  }

  // ---- the budget is attained by the table ----------------------------------------------------------------------

  /** Hysteresis values with which every wait of the table can be used up: automatic re-arms, a stop that can be confirmed on
      the last braking tick, and a hold long enough to re-arm on its last tick. */
  predicate Exhaustible(h: Hysteresis) {
    h.rearm == Auto && 1 <= h.brakeTimeoutTicks && h.stopConfirmTicks <= h.brakeTimeoutTicks
    && h.rearmHold <= h.escalateAfterHoldTicks
  }

  function Confirm(h: Hysteresis): nat { if h.stopConfirmTicks == 0 then 1 else h.stopConfirmTicks }

  /** The slowest stop from here: brake at once, stop only at the end, re-arm only on the last tick of a hold, no ack. */
  function Slowest(h: Hysteresis, rt: FsmRt): FsmInput {
    FsmInput(if Running(rt.state) then {BRAKE} else {}, false, false, false,
             rt.brakeTicks + Confirm(h) >= h.brakeTimeoutTicks, true, rt.heldTicks >= h.escalateAfterHoldTicks, None)
  }

  /** What the states on that way have in common. */
  predicate Dawdles(h: Hysteresis, rt: FsmRt) {
    match rt.state
    case Armed => true
    case Braking =>
      && rt.brakeTicks < h.brakeTimeoutTicks
      && rt.stoppedTicks == if rt.brakeTicks + Confirm(h) <= h.brakeTimeoutTicks then 0
                            else rt.brakeTicks + Confirm(h) - h.brakeTimeoutTicks
    case Held => rt.heldClean == rt.heldTicks <= h.escalateAfterHoldTicks
    case Escalated => rt.escalatedTicks <= h.handoffTimeoutTicks && h.maxRearms <= rt.rearms
    case Terminated => true
    case _ => false
  }

  /** The measure pays exactly, and falls or a re-arm is spent. */
  predicate PaysExactly(h: Hysteresis, before: FsmRt, o: FsmOut) {
    && Dawdles(h, o.rt) && One(InStop(o.rt.state)) + Rank(h, o.rt) == Rank(h, before)
    && One(o.rt.state == Braking && before.state != Braking) + VisitsLeft(h, o.rt) == VisitsLeft(h, before)
    && (InStop(o.rt.state) || (o.rt.state == Terminated && o.rt.rearms == before.rearms)
        || Left(h, o.rt.rearms) < Left(h, before.rearms))
  }

  lemma SlowestHeld(cfg: FuseConfig, rt: FsmRt)
    requires FsmFits(cfg, rt) && Exhaustible(cfg.hyst) && Dawdles(cfg.hyst, rt) && rt.state == Held
    ensures PaysExactly(cfg.hyst, rt, FromHeld(cfg, rt, true, None, Slowest(cfg.hyst, rt)))
  {
    LeftAfterRearm(cfg.hyst, rt.rearms);
    hide Times, CycleLength;
  }

  lemma SlowestBraking(cfg: FuseConfig, rt: FsmRt, pos: Vec)
    requires |cfg.boxLo| == |cfg.boxHi| == |pos| && Exhaustible(cfg.hyst) && Dawdles(cfg.hyst, rt) && rt.state == Braking
    ensures PaysExactly(cfg.hyst, rt, FromBraking(cfg, rt, pos, Slowest(cfg.hyst, rt)))
  {
    hide Times, Left, CycleLength, ClampBox;
  }

  lemma SlowestEscalated(cfg: FuseConfig, rt: FsmRt)
    requires FsmFits(cfg, rt) && Dawdles(cfg.hyst, rt) && rt.state == Escalated
    ensures PaysExactly(cfg.hyst, rt, FromEscalated(cfg, rt, None))
  {
    hide CycleLength;
  }

  lemma SlowestArmed(cfg: FuseConfig, rt: FsmRt)
    requires Exhaustible(cfg.hyst) && rt.state == Armed
    ensures PaysExactly(cfg.hyst, rt, FromRunning(cfg, rt, Slowest(cfg.hyst, rt)))
  {
    hide Times, Left;
  }

  lemma SlowestPays(cfg: FuseConfig, rt: FsmRt, pos: Vec)
    requires FsmFits(cfg, rt) && |cfg.boxLo| == |cfg.boxHi| == |pos| == cfg.dim && Exhaustible(cfg.hyst)
    requires Dawdles(cfg.hyst, rt) && rt.state != Terminated
    ensures PaysExactly(cfg.hyst, rt, Next(cfg, rt, pos, Slowest(cfg.hyst, rt)))
  {
    hide FromHeld, FromEscalated, FromRunning, FromBraking, ClampBox, Times, Left, CycleLength;
    var inp := Slowest(cfg.hyst, rt);
    var rt0 := rt.(cleanRun := if Clean(inp) then Inc16(rt.cleanRun) else 0);
    assert !Faulty(inp) && AcceptedAck(rt, inp.ack) == None && Slowest(cfg.hyst, rt0) == inp;
    match rt.state {
      case Armed => SlowestArmed(cfg, rt0);
      case Braking => SlowestBraking(cfg, rt0, pos);
      case Held => SlowestHeld(cfg, rt0);
      case Escalated => SlowestEscalated(cfg, rt0);
    }
  }

  /** Stopping states and entries into Braking along a run of the table at one position. */
  function TableStops(cfg: FuseConfig, rt: FsmRt, pos: Vec, inps: seq<FsmInput>): nat
    requires FsmFits(cfg, rt) && |cfg.boxLo| == |cfg.boxHi| == |pos| == cfg.dim
    decreases |inps|
  {
    if inps == [] then 0
    else
      TableEffects(cfg, rt, pos, inps[0]);
      var rt' := Next(cfg, rt, pos, inps[0]).rt;
      One(InStop(rt'.state)) + TableStops(cfg, rt', pos, inps[1..])
  }

  function TableEntries(cfg: FuseConfig, rt: FsmRt, pos: Vec, inps: seq<FsmInput>): nat
    requires FsmFits(cfg, rt) && |cfg.boxLo| == |cfg.boxHi| == |pos| == cfg.dim
    decreases |inps|
  {
    if inps == [] then 0
    else
      TableEffects(cfg, rt, pos, inps[0]);
      var rt' := Next(cfg, rt, pos, inps[0]).rt;
      One(rt'.state == Braking && rt.state != Braking) + TableEntries(cfg, rt', pos, inps[1..])
  }

  lemma {:induction false} SlowestRun(cfg: FuseConfig, rt: FsmRt, pos: Vec) returns (inps: seq<FsmInput>)
    requires FsmFits(cfg, rt) && |cfg.boxLo| == |cfg.boxHi| == |pos| == cfg.dim
    requires Exhaustible(cfg.hyst) && Dawdles(cfg.hyst, rt)
    ensures forall i :: 0 <= i < |inps| ==> inps[i].ack.None?
    ensures TableStops(cfg, rt, pos, inps) == Rank(cfg.hyst, rt) && TableEntries(cfg, rt, pos, inps) == VisitsLeft(cfg.hyst, rt)
    decreases Rank(cfg.hyst, rt), Left(cfg.hyst, rt.rearms), One(rt.state != Terminated)
  {
    hide Next, Rank, VisitsLeft, Left, Dawdles, Slowest;
    if rt.state == Terminated {
      inps := [];
      NothingLeft(cfg.hyst, rt);
    } else {
      var inp := Slowest(cfg.hyst, rt);
      TableEffects(cfg, rt, pos, inp);
      SlowestPays(cfg, rt, pos);
      var rest := SlowestRun(cfg, Next(cfg, rt, pos, inp).rt, pos);
      inps := [inp] + rest;
      assert inps[1..] == rest;
      NoAckIn(cfg.hyst, rt);
    }
  }

  lemma NoAckIn(h: Hysteresis, rt: FsmRt)
    ensures Slowest(h, rt).ack.None?
  {}

  lemma NothingLeft(h: Hysteresis, rt: FsmRt)
    requires rt.state == Terminated
    ensures Rank(h, rt) == 0 == VisitsLeft(h, rt)
  {}

  /** The budget is exact: whenever the waits can be used up, a run of the table from reset without any ack spends all of
      it, both the visits and the stopping verdicts. */
  lemma BudgetIsAttained(cfg: FuseConfig, pos: Vec) returns (inps: seq<FsmInput>)
    requires |cfg.boxLo| == |cfg.boxHi| == |pos| == cfg.dim && Exhaustible(cfg.hyst)
    ensures forall i :: 0 <= i < |inps| ==> inps[i].ack.None?
    ensures var h := cfg.hyst;
            && TableEntries(cfg, ArmedTable(cfg.dim), pos, inps) == 1 + h.maxRearms
            && TableStops(cfg, ArmedTable(cfg.dim), pos, inps) == (1 + h.maxRearms) * CycleLength(h) + h.handoffTimeoutTicks + 1
  {
    hide CycleLength, Rank, VisitsLeft, Times, TableStops, TableEntries, Exhaustible;
    FreshRank(cfg);
    inps := SlowestRun(cfg, ArmedTable(cfg.dim), pos);
    TimesStep(cfg.hyst.maxRearms, true, CycleLength(cfg.hyst));
    TimesIsProduct(1 + cfg.hyst.maxRearms, CycleLength(cfg.hyst));
  }
}
