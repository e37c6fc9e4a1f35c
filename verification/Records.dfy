/** What an episode leaves behind: the tally counts the verdicts, and the window remembers the hits. */
module Records {
  import opened Ints
  import opened Options
  import opened Fmath
  import opened Core
  import opened Conformal
  import opened Window
  import opened Fsm
  import opened Tally
  import opened Fuse
  import opened Runs
  import opened TickFacts

  // ---- the tally counts the verdicts ----------------------------------------------------------------------

  /** The things the tally counts. `InState(Armed)` is the `nominal` counter; `holds`, `escalations`, `rearms` and
      `clamps` count the entries into Held and Escalated, the re-arms and the soft trips that were clamped. */
  datatype Kind =
    | InState(s: FuseState) | Substituted | ReachedEnv | Bit(b: nat) | FiredFeat(j: nat)
    | EnteredHold | EnteredHandoff | RearmedNow | SoftClamped

  predicate Counted(k: Kind) {
    match k
    case InState(s) => s != Idle
    case Bit(b) => b < 16
    case FiredFeat(j) => j < NFEAT
    case _ => true
  }

  predicate Matches(k: Kind, v: Verdict)
    requires Counted(k)
  {
    match k
    case InState(s) => v.state == s || (s == Armed && v.state == Idle)
    case Substituted => v.substituted
    case ReachedEnv => v.violationReachedEnv
    case Bit(b) => TRIP_ORDER[b] in v.trips
    case FiredFeat(j) => j in v.scores.fired
    case EnteredHold => v.state == Held && v.prevState != Held
    case EnteredHandoff => v.state == Escalated && v.prevState != Escalated
    case RearmedNow => v.reason == RearmedAuto || v.reason == RearmedAck
    case SoftClamped => v.state == Clamped && v.trips * TIER0_SOFT != {}
  }

  /** Where a counter stops: two of them follow a narrower counter of the table. */
  function Limit(k: Kind): u32 {
    match k
    case RearmedNow => 0xFF
    case SoftClamped => 0xFFFF
    case _ => U32_MAX
  }

  function AtMost(limit: u32, n: nat): u32 { if n < limit then n else limit }

  function Value(t: Counters, k: Kind): u32
    requires t.Fits() && Counted(k)
  {
    match k
    case InState(Armed) => t.nominal
    case InState(Watching) => t.watching
    case InState(Clamped) => t.clamped
    case InState(Braking) => t.braking
    case InState(Held) => t.held
    case InState(Escalated) => t.escalated
    case InState(Fault) => t.fault
    case InState(Terminated) => t.terminated
    case Substituted => t.substituted
    case ReachedEnv => t.violationsReachedEnv
    case Bit(b) => t.tripsByBit[b]
    case FiredFeat(j) => t.firedByFeat[j]
    case EnteredHold => t.holds
    case EnteredHandoff => t.escalations
    case RearmedNow => t.rearms
    case SoftClamped => t.clamps
  }

  function Count(vs: seq<Verdict>, k: Kind): (r: nat)
    requires Counted(k)
    ensures r <= |vs|
  {
    if vs == [] then 0 else Count(vs[..|vs| - 1], k) + if Matches(k, vs[|vs| - 1]) then 1 else 0
  }

  lemma CountSnoc(vs: seq<Verdict>, v: Verdict, k: Kind)
    requires Counted(k)
    ensures Count(vs + [v], k) == Count(vs, k) + if Matches(k, v) then 1 else 0
  {
    assert (vs + [v])[..|vs|] == vs;
  }

  /** What a recorded verdict does to counter `k`. The events of a tick show in its verdict, but for two changes of the
      table's counters. */
  predicate Bumps(k: Kind, v: Verdict, ev: TickEvents)
    requires Counted(k)
  {
    match k
    case EnteredHold => ev.enteredHold
    case EnteredHandoff => ev.enteredEscalated
    case RearmedNow => ev.rearmed
    case SoftClamped => ev.clamped
    case _ => Matches(k, v)
  }

  lemma RecordedValue(t: Counters, v: Verdict, ev: TickEvents, k: Kind)
    requires t.Fits() && |v.scores.z| == NFEAT && Counted(k)
    ensures Value(Recorded(t, v, ev), k) == IncIf(Bumps(k, v, ev), Value(t, k))
    ensures Recorded(t, v, ev).chunksSeen == t.chunksSeen && Recorded(t, v, ev).chunksRejected == t.chunksRejected
  {
    hide MaxE, IncIf, Inc32;
  }

  /** How one tick updates the tally: a delivered chunk is counted, then the verdict is recorded with its events. */
  lemma TickRecords(cfg: FuseConfig, rt: Rt, inp: TickInput) returns (ev: TickEvents, seen: bool, rejected: bool)
    requires cfg.Valid() && RtFits(cfg, rt) && inp.Fits()
    ensures var (rt', v) := Decide(cfg, rt, inp);
            && |v.scores.z| == NFEAT
            && rt'.tally == Recorded(if seen then RecordedChunk(rt.tally, rejected) else rt.tally, v, ev)
            && ev == EventsOf(v.prevState, v.state, rt'.fsm.rearms != rt.fsm.rearms, rt'.fsm.clamps != rt.fsm.clamps,
                              cfg.calib.mask * v.scores.valid)
            && seen == (inp.chunk.Some? && Admitted(v)) && (seen ==> (rejected <==> BRAKE in v.trips))
  {
    hide Next, Tier0Stage, Recorded, RecordedChunk, ScoresOf, ClampBox, Value;
    TickBits(cfg, rt, inp);
    TickWindow(cfg, rt, inp);
    ev, seen, rejected := NO_EVENTS, false, false;
    if Admissible(cfg, rt, inp) {
      AdmissibleTick(cfg, rt, inp);
      var rt1 := Ingested(cfg, rt, inp);
      var fsm := Decide(cfg, rt, inp).0.fsm;
      ev := EventsOf(rt.fsm.state, fsm.state, fsm.rearms != rt.fsm.rearms, fsm.clamps != rt.fsm.clamps,
                     cfg.calib.mask * TickScores(cfg, inp).valid);
      seen, rejected := inp.chunk.Some?, Tier0Stage(cfg, rt1, inp).trips * TIER0_HARD != {};
      HardIsBrake(Tier0Stage(cfg, rt1, inp).trips);
    } else {
      GuardedEvents(cfg, rt, inp);
    }
  }

  lemma HardIsBrake(trips: Trips)
    requires trips <= TIER0_SOFT + {BRAKE}
    ensures trips * TIER0_HARD != {} <==> BRAKE in trips
  {
    if BRAKE in trips { assert BRAKE in trips * TIER0_HARD; }
  }

  /** A guard tick has no events. */
  lemma GuardedEvents(cfg: FuseConfig, rt: Rt, inp: TickInput)
    requires cfg.Valid() && RtFits(cfg, rt) && inp.Fits() && !Admissible(cfg, rt, inp)
    ensures var (rt', v) := Decide(cfg, rt, inp);
            && |v.scores.z| == NFEAT && rt'.tally == Recorded(rt.tally, v, NO_EVENTS)
            && NO_EVENTS == EventsOf(v.prevState, v.state, rt'.fsm.rearms != rt.fsm.rearms,
                                     rt'.fsm.clamps != rt.fsm.clamps, cfg.calib.mask * v.scores.valid)
  {
    hide Recorded, ClampBox, FromHeld, FromEscalated, FromRunning, FromBraking, AcceptedAck, FaultReason, BreaksSchema, NonFinite;
    assert Guard(cfg, rt, inp) <= FAULT_BITS;
    assert Guard(cfg, rt, inp) * FAULT_BITS == Guard(cfg, rt, inp);
  }

  /** The bits of a verdict that Tier 0 raises are those the table was given. */
  lemma TickBits(cfg: FuseConfig, rt: Rt, inp: TickInput)
    requires cfg.Valid() && RtFits(cfg, rt) && inp.Fits()
    ensures var (fsm, pos, fin) := TableInput(cfg, rt, inp);
            var o, v := Next(cfg, fsm, pos, fin), Decide(cfg, rt, inp).1;
            && (if Admissible(cfg, rt, inp) then fin.trips <= TIER0_SOFT + {BRAKE}
                else fin.trips <= FAULT_BITS && fin.trips != {})
            && v.trips == fin.trips + o.extra
            && v.trips * TIER0_SOFT == fin.trips * TIER0_SOFT && (BRAKE in v.trips <==> BRAKE in fin.trips)
  {
    hide Next, Tier0Stage, Decide, ClampBox, TickScores, Hit, Warn, Norm, IngestedVel, BreaksSchema, NonFinite;
    TickIsTableStep(cfg, rt, inp);
    var (fsm, pos, fin) := TableInput(cfg, rt, inp);
    if Admissible(cfg, rt, inp) {
      AdmissibleTick(cfg, rt, inp);
      Tier0Bits(cfg, Ingested(cfg, rt, inp), inp);
    }
    TablePredicts(cfg, fsm, pos, fin);
    SoftPart(fin.trips, Next(cfg, fsm, pos, fin).extra);
  }

  /** The table's two counters behind `rearms` and `clamps`. The second moves only while it is within its budget. */
  predicate CountersMove(cfg: FuseConfig, before: FsmRt, after: FsmRt, v: Verdict) {
    && after.rearms == (if Matches(RearmedNow, v) then Inc8(before.rearms) else before.rearms)
    && after.clamps == (if Matches(SoftClamped, v) then Inc16(before.clamps) else before.clamps)
    && (Matches(SoftClamped, v) ==> before.clamps <= cfg.hyst.maxClampsPerEpisode)
  }

  lemma TickCounters(cfg: FuseConfig, rt: Rt, inp: TickInput)
    requires cfg.Valid() && RtFits(cfg, rt) && inp.Fits()
    ensures var (rt', v) := Decide(cfg, rt, inp); CountersMove(cfg, rt.fsm, rt'.fsm, v)
  {
    hide Next, Decide, TableInput, ClampBox;
    TickIsTableStep(cfg, rt, inp);
    TickBits(cfg, rt, inp);
    var (fsm, pos, fin) := TableInput(cfg, rt, inp);
    TableEffects(cfg, fsm, pos, fin);
    TableClamps(cfg, fsm, pos, fin);
  }

  lemma TableClamps(cfg: FuseConfig, rt: FsmRt, pos: Vec, inp: FsmInput)
    requires FsmFits(cfg, rt) && |cfg.boxLo| == |cfg.boxHi| == |pos| == cfg.dim
    ensures var o := Next(cfg, rt, pos, inp);
            var soft := o.rt.state == Clamped && inp.trips * TIER0_SOFT != {};
            && o.rt.clamps == (if soft then Inc16(rt.clamps) else rt.clamps)
            && (soft ==> rt.clamps <= cfg.hyst.maxClampsPerEpisode)
  {
    hide ClampBox, AcceptedAck, FaultReason, FromRunning, FromHeld, FromEscalated, FromBraking, Contained;
    TableEffects(cfg, rt, pos, inp);
    ClampsOnlyClamped(cfg, rt, pos, Next(cfg, rt, pos, inp));
    RunningClamps(cfg, rt.(cleanRun := if Clean(inp) then Inc16(rt.cleanRun) else 0), inp);
  }

  lemma ClampsOnlyClamped(cfg: FuseConfig, rt: FsmRt, pos: Vec, o: FsmOut)
    requires |cfg.boxLo| == |cfg.boxHi| == |pos| == cfg.dim && Contained(cfg, rt, pos, o)
    ensures o.rt.clamps != rt.clamps ==> o.rt.state == Clamped
  {
    hide ClampBox;
  }

  lemma RunningClamps(cfg: FuseConfig, rt: FsmRt, inp: FsmInput)
    ensures var o := FromRunning(cfg, rt, inp);
            var soft := o.rt.state == Clamped && inp.trips * TIER0_SOFT != {};
            && o.rt.clamps == (if soft then Inc16(rt.clamps) else rt.clamps)
            && (soft ==> rt.clamps <= cfg.hyst.maxClampsPerEpisode)
  {
    hide ClampReason, RecentHits, Inc16;
  }

  predicate ChunksOrdered(t: Counters) { t.chunksRejected <= t.chunksSeen <= t.ticks }

  /** The counters that follow the table agree with it. */
  predicate Tied(rt: Rt) { rt.tally.rearms == rt.fsm.rearms && rt.tally.clamps == rt.fsm.clamps }

  lemma TickValue(cfg: FuseConfig, rt: Rt, inp: TickInput, k: Kind)
    requires cfg.Valid() && RtFits(cfg, rt) && inp.Fits() && Tied(rt) && Counted(k)
    ensures var (rt', v) := Decide(cfg, rt, inp); var t, t' := rt.tally, rt'.tally;
            && Tied(rt') && t'.ticks == Inc32(t.ticks) && (ChunksOrdered(t) ==> ChunksOrdered(t'))
            && Value(t', k) == Value(t, k) + if Matches(k, v) && Value(t, k) < Limit(k) then 1 else 0
  {
    hide Decide, Recorded, RtFits;
    TallyFits(cfg, rt);
    var ev, seen, rejected := TickRecords(cfg, rt, inp);
    var v, t := Decide(cfg, rt, inp).1, if seen then RecordedChunk(rt.tally, rejected) else rt.tally;
    RecordedValue(t, v, ev, k);
    RecordedValue(t, v, ev, RearmedNow);
    RecordedValue(t, v, ev, SoftClamped);
    ChunkLeavesValue(rt.tally, rejected, k);
    ChunkLeavesValue(rt.tally, rejected, RearmedNow);
    ChunkLeavesValue(rt.tally, rejected, SoftClamped);
    TickCounters(cfg, rt, inp);
  }

  lemma TallyFits(cfg: FuseConfig, rt: Rt)
    requires RtFits(cfg, rt)
    ensures rt.tally.Fits()
  {}

  /** Over every run of any length, each counter is the number of verdicts of its kind, up to the value at which it
      stops. */
  lemma {:induction false} TallyAgrees(cfg: FuseConfig, inps: seq<TickInput>, k: Kind)
    requires cfg.Valid() && AllInputsFit(inps) && Counted(k)
    ensures var rt, vs := StateAfter(cfg, inps), Verdicts(cfg, inps); var t := rt.tally;
            && t.ticks == AtMost(U32_MAX, |vs|) && Value(t, k) == AtMost(Limit(k), Count(vs, k))
            && ChunksOrdered(t) && Tied(rt)
  {
    hide Decide, Value, Count, Matches, Limit;
    if inps == [] {
      FreshTally(cfg, k);
    } else {
      hide Fresh;
      var n := |inps| - 1;
      TallyAgrees(cfg, inps[..n], k);
      VerdictsSnoc(cfg, inps);
      var rt := StateAfter(cfg, inps[..n]);
      var v := Decide(cfg, rt, inps[n]).1;
      CountSnoc(Verdicts(cfg, inps[..n]), v, k);
      TickValue(cfg, rt, inps[n], k);
    }
  }

  lemma ChunkLeavesValue(t: Counters, rejected: bool, k: Kind)
    requires t.Fits() && Counted(k)
    ensures Value(RecordedChunk(t, rejected), k) == Value(t, k)
  {}

  lemma FreshTally(cfg: FuseConfig, k: Kind)
    requires Counted(k)
    ensures var rt := Fresh(cfg.dim);
            rt.tally.ticks == 0 && Value(rt.tally, k) == 0 && ChunksOrdered(rt.tally) && Tied(rt) && Count([], k) == 0
  {}

  /** The clamp budget: while it is below the counter's width, no episode clamps a soft trip more than once past it. */
  lemma {:induction false} ClampBudgetHolds(cfg: FuseConfig, inps: seq<TickInput>)
    requires cfg.Valid() && AllInputsFit(inps) && cfg.hyst.maxClampsPerEpisode < 0xFFFF
    ensures Count(Verdicts(cfg, inps), SoftClamped) <= cfg.hyst.maxClampsPerEpisode + 1
  {
    hide Decide, Count, Matches;
    if inps == [] {
      FreshTally(cfg, SoftClamped);
    } else {
      hide Fresh;
      var n := |inps| - 1;
      ClampBudgetHolds(cfg, inps[..n]);
      TallyAgrees(cfg, inps[..n], SoftClamped);
      VerdictsSnoc(cfg, inps);
      var rt := StateAfter(cfg, inps[..n]);
      CountSnoc(Verdicts(cfg, inps[..n]), Decide(cfg, rt, inps[n]).1, SoftClamped);
      TickCounters(cfg, rt, inps[n]);
    }
  }

  /** The four classes of a verdict are exclusive and exhaustive, in both modes. */
  lemma OneClass(cfg: FuseConfig, rt: Rt, inp: TickInput)
    requires cfg.Valid() && RtFits(cfg, rt) && inp.Fits()
    ensures var v := Decide(cfg, rt, inp).1;
            && v.state != Idle
            && (v.state == Armed || v.state == Watching <==> !v.substituted && !v.violationReachedEnv)
            && !(v.substituted && v.violationReachedEnv)
  {
    hide Next, Decide, Guard, TableInput;
    TickIsTableStep(cfg, rt, inp);
    var (fsm, pos, fin) := TableInput(cfg, rt, inp);
    IdleIsLeft(cfg, fsm, pos, fin);
    if Admissible(cfg, rt, inp) {
      AdmissibleClass(cfg, rt, inp);
    } else {
      GuardedTick(cfg, rt, inp);
      GuardedClass(cfg, rt, inp);
    }
  }

  lemma IdleIsLeft(cfg: FuseConfig, rt: FsmRt, pos: Vec, inp: FsmInput)
    requires FsmFits(cfg, rt) && |cfg.boxLo| == |cfg.boxHi| == |pos| == cfg.dim
    ensures Next(cfg, rt, pos, inp).rt.state != Idle
  {
    hide ClampBox, AcceptedAck, FromHeld, FromEscalated, FromBraking, FromRunning;
  }

  lemma AdmissibleClass(cfg: FuseConfig, rt: Rt, inp: TickInput)
    requires cfg.Valid() && RtFits(cfg, rt) && inp.Fits() && Admissible(cfg, rt, inp)
    ensures var v := Decide(cfg, rt, inp).1; var stopping := SourceOf(v.state) != SrcPolicy;
            v.substituted == (cfg.mode == Enforce && stopping) && v.violationReachedEnv == (cfg.mode == Observe && stopping)
  {
    hide Next, Tier0Stage, Recorded, TickScores, ClampBox, EventsOf, AckReason, FsmInputOf, IngestedVel, ActionOf;
    AdmissibleTick(cfg, rt, inp);
  }

  lemma GuardedClass(cfg: FuseConfig, rt: Rt, inp: TickInput)
    requires cfg.Valid() && RtFits(cfg, rt) && inp.Fits() && !Admissible(cfg, rt, inp)
    ensures Decide(cfg, rt, inp).1.substituted && !Decide(cfg, rt, inp).1.violationReachedEnv
  {
    hide Next, Recorded, ClampBox;
  }

  lemma {:induction false} ClassesAddUp(cfg: FuseConfig, inps: seq<TickInput>)
    requires cfg.Valid() && AllInputsFit(inps)
    ensures var vs := Verdicts(cfg, inps);
            && |vs| == Count(vs, InState(Armed)) + Count(vs, InState(Watching)) + Count(vs, Substituted) + Count(vs, ReachedEnv)
            && |vs| == Count(vs, InState(Armed)) + Count(vs, InState(Watching)) + Count(vs, InState(Clamped))
                       + Count(vs, InState(Braking)) + Count(vs, InState(Held)) + Count(vs, InState(Escalated))
                       + Count(vs, InState(Fault)) + Count(vs, InState(Terminated))
  {
    hide Decide;
    if inps != [] {
      hide Count;
      var n := |inps| - 1;
      ClassesAddUp(cfg, inps[..n]);
      VerdictsSnoc(cfg, inps);
      var rt, vs := StateAfter(cfg, inps[..n]), Verdicts(cfg, inps[..n]);
      var v := Decide(cfg, rt, inps[n]).1;
      OneClass(cfg, rt, inps[n]);
      CountSnoc(vs, v, Substituted);
      CountSnoc(vs, v, ReachedEnv);
      CountSnoc(vs, v, InState(Armed));
      CountSnoc(vs, v, InState(Watching));
      CountSnoc(vs, v, InState(Clamped));
      CountSnoc(vs, v, InState(Braking));
      CountSnoc(vs, v, InState(Held));
      CountSnoc(vs, v, InState(Escalated));
      CountSnoc(vs, v, InState(Fault));
      CountSnoc(vs, v, InState(Terminated));
    }
  }

  /** Tally conservation over every run short of 2^32 ticks, in both modes: every tick is nominal, watching, substituted
      or a violation that reached the environment; the eight state counters sum to the ticks; a chunk is rejected only if
      seen, and seen only on a tick. */
  lemma TallyConservation(cfg: FuseConfig, inps: seq<TickInput>)
    requires cfg.Valid() && AllInputsFit(inps) && |inps| <= U32_MAX
    ensures var t := StateAfter(cfg, inps).tally;
            && t.ticks == |inps|
            && t.ticks == t.nominal + t.watching + t.substituted + t.violationsReachedEnv
            && t.ticks == t.nominal + t.watching + t.clamped + t.braking + t.held + t.escalated + t.fault + t.terminated
            && t.chunksRejected <= t.chunksSeen <= t.ticks
  {
    hide Decide, Count, StateAfter;
    ClassesAddUp(cfg, inps);
    TallyAgrees(cfg, inps, InState(Armed));
    TallyAgrees(cfg, inps, InState(Watching));
    TallyAgrees(cfg, inps, Substituted);
    TallyAgrees(cfg, inps, ReachedEnv);
    TallyAgrees(cfg, inps, InState(Clamped));
    TallyAgrees(cfg, inps, InState(Braking));
    TallyAgrees(cfg, inps, InState(Held));
    TallyAgrees(cfg, inps, InState(Escalated));
    TallyAgrees(cfg, inps, InState(Fault));
    TallyAgrees(cfg, inps, InState(Terminated));
  }

  // ---- the window remembers the hits ----------------------------------------------------------------------

  /** A verdict on which the window was cleared: a re-arm, or the clear-down of Watching or Clamped into Armed. */
  predicate ClearsWindow(v: Verdict) {
    v.reason == RearmedAck || v.reason == RearmedAuto
    || (v.reason == ReasonOk && v.state == Armed && v.prevState != Armed)
  }

  /** A guard verdict carries no brake margin. */
  predicate Admitted(v: Verdict) { v.brakeMargin.Some? }

  /** The hits of the admitted ticks since the last clear, read off the verdicts alone. */
  function HitsSinceClear(cfg: FuseConfig, vs: seq<Verdict>): seq<bool> {
    if vs == [] then []
    else
      var v, h := vs[|vs| - 1], HitsSinceClear(cfg, vs[..|vs| - 1]);
      if ClearsWindow(v) then [] else if Admitted(v) then h + [ScoreTrips(cfg.calib, v.scores)] else h
  }

  predicate Clears(before: FsmRt, o: FsmOut) {
    o.reason == RearmedAck || o.reason == RearmedAuto
    || (o.reason == ReasonOk && o.rt.state == Armed && before.state != Armed)
  }

  lemma HeldWindow(cfg: FuseConfig, rt: FsmRt, clean: bool, a: Option<VerifiedAck>, inp: FsmInput)
    requires FsmFits(cfg, rt)
    ensures var o := FromHeld(cfg, rt, clean, a, inp); o.rt.hist == if Clears(rt, o) then [] else rt.hist
  {}

  lemma EscalatedWindow(cfg: FuseConfig, rt: FsmRt, a: Option<VerifiedAck>)
    requires FsmFits(cfg, rt)
    ensures var o := FromEscalated(cfg, rt, a); o.rt.hist == if Clears(rt, o) then [] else rt.hist
  {}

  lemma RunningWindow(cfg: FuseConfig, rt: FsmRt, inp: FsmInput)
    requires Running(rt.state)
    ensures var o := FromRunning(cfg, rt, inp); o.rt.hist == if Clears(rt, o) then [] else rt.hist
  {
    hide ClampReason, RecentHits;
    ReasonOfClamp(inp.trips * TIER0_SOFT);
  }

  lemma TableWindow(cfg: FuseConfig, rt: FsmRt, pos: Vec, inp: FsmInput)
    requires FsmFits(cfg, rt) && |cfg.boxLo| == |cfg.boxHi| == |pos| == cfg.dim
    ensures var o := Next(cfg, rt, pos, inp); o.rt.hist == if Clears(rt, o) then [] else rt.hist
  {
    hide FromHeld, FromEscalated, FromRunning, AcceptedAck, ClampBox, Clean;
    var clean, a := Clean(inp), AcceptedAck(rt, inp.ack);
    var rt0 := rt.(cleanRun := if clean then Inc16(rt.cleanRun) else 0);
    if !Faulty(inp) {
      match rt.state {
        case Held => HeldWindow(cfg, rt0, clean, a, inp);
        case Escalated => EscalatedWindow(cfg, rt0, a);
        case Armed => RunningWindow(cfg, rt0, inp);
        case Watching => RunningWindow(cfg, rt0, inp);
        case Clamped => RunningWindow(cfg, rt0, inp);
        case _ =>
      }
    }
  }

  lemma TickWindow(cfg: FuseConfig, rt: Rt, inp: TickInput)
    requires cfg.Valid() && RtFits(cfg, rt) && inp.Fits()
    ensures var (rt', v) := Decide(cfg, rt, inp);
            && (Admitted(v) <==> Admissible(cfg, rt, inp))
            && var hist := if Admitted(v) then rt.fsm.hist + [ScoreTrips(cfg.calib, v.scores)] else rt.fsm.hist;
               && v.windowHits == RecentHits(hist, cfg.hyst.n)
               && rt'.fsm.hist == if ClearsWindow(v) then [] else hist
  {
    hide Next, Tier0Stage, Recorded, ClampBox;
    TickIsTableStep(cfg, rt, inp);
    var (fsm, pos, fin) := TableInput(cfg, rt, inp);
    TableWindow(cfg, fsm, pos, fin);
    if Admissible(cfg, rt, inp) {
      AdmissibleTick(cfg, rt, inp);
    }
  }

  lemma {:induction false} WindowIsHistory(cfg: FuseConfig, inps: seq<TickInput>)
    requires cfg.Valid() && AllInputsFit(inps)
    ensures StateAfter(cfg, inps).fsm.hist == HitsSinceClear(cfg, Verdicts(cfg, inps))
  {
    hide Decide;
    if inps != [] {
      var n := |inps| - 1;
      WindowIsHistory(cfg, inps[..n]);
      VerdictsSnoc(cfg, inps);
      TickWindow(cfg, StateAfter(cfg, inps[..n]), inps[n]);
      var vs, v := Verdicts(cfg, inps[..n]), Decide(cfg, StateAfter(cfg, inps[..n]), inps[n]).1;
      assert (vs + [v])[..|vs|] == vs;
    }
  }

  /** When the predictive bit is raised: from a running state, past the two braking rows above it, exactly when at least
      `k` of the last `n` admitted ticks since the last clear tripped. */
  lemma PredictiveBrakeMeaning(cfg: FuseConfig, inps: seq<TickInput>, i: nat)
    requires cfg.Valid() && AllInputsFit(inps) && i < |inps|
    ensures var v, past := VerdictAt(cfg, inps, i), HitsSinceClear(cfg, Verdicts(cfg, inps[..i]));
            var now := if Admitted(v) then past + [ScoreTrips(cfg.calib, v.scores)] else past;
            && v.windowHits == RecentHits(now, cfg.hyst.n)
            && (TIER1_CP in v.trips <==>
                Admitted(v) && Running(v.prevState) && RecentHits(now, cfg.hyst.n) >= cfg.hyst.k
                && BRAKE !in v.trips && (v.trips * TIER0_SOFT != {} ==> cfg.clamp == Project))
  {
    hide Decide, StateAfter, Next;
    var rt := StateAfter(cfg, inps[..i]);
    WindowIsHistory(cfg, inps[..i]);
    TickWindow(cfg, rt, inps[i]);
    TickPredicts(cfg, rt, inps[i]);
  }

  lemma TablePredicts(cfg: FuseConfig, rt: FsmRt, pos: Vec, inp: FsmInput)
    requires FsmFits(cfg, rt) && |cfg.boxLo| == |cfg.boxHi| == |pos| == cfg.dim
    requires inp.trips <= TIER0_SOFT + {BRAKE} || (inp.trips <= FAULT_BITS && inp.trips != {})
    ensures var o := Next(cfg, rt, pos, inp);
            && (TIER1_CP in o.extra <==> !Faulty(inp) && Running(rt.state) && inp.predictive && BRAKE !in inp.trips
                                         && (inp.trips * TIER0_SOFT != {} ==> inp.softClampable))
            && TIER1_CP !in inp.trips && BRAKE !in o.extra && o.extra * TIER0_SOFT == {}
  {
    hide ClampBox, AcceptedAck, FaultReason, ClampReason, FromRunning, FromHeld, FromEscalated, FromBraking;
    var rt0 := rt.(cleanRun := if Clean(inp) then Inc16(rt.cleanRun) else 0);
    RunningPredicts(cfg, rt0, inp);
    EscalatedPredictsNothing(cfg, rt0, AcceptedAck(rt, inp.ack));
    HeldPredictsNothing(cfg, rt0, Clean(inp), AcceptedAck(rt, inp.ack), inp);
    BrakingPredictsNothing(cfg, rt0, pos, inp);
  }

  lemma EscalatedPredictsNothing(cfg: FuseConfig, rt: FsmRt, a: Option<VerifiedAck>)
    requires |rt.lastNonce| == MAX_OPERATORS
    ensures FromEscalated(cfg, rt, a).extra !! TIER0_SOFT + {BRAKE, TIER1_CP}
  {
    hide Stopped, Rearmed;
  }

  lemma HeldPredictsNothing(cfg: FuseConfig, rt: FsmRt, clean: bool, a: Option<VerifiedAck>, inp: FsmInput)
    requires |rt.lastNonce| == MAX_OPERATORS
    ensures FromHeld(cfg, rt, clean, a, inp).extra !! TIER0_SOFT + {BRAKE, TIER1_CP}
  {
    hide Stopped, Rearmed;
  }

  lemma BrakingPredictsNothing(cfg: FuseConfig, rt: FsmRt, pos: Vec, inp: FsmInput)
    requires |cfg.boxLo| == |cfg.boxHi| == |pos|
    ensures FromBraking(cfg, rt, pos, inp).extra !! TIER0_SOFT + {BRAKE, TIER1_CP}
  {
    hide Latched;
  }

  lemma RunningPredicts(cfg: FuseConfig, rt: FsmRt, inp: FsmInput)
    ensures var o := FromRunning(cfg, rt, inp);
            && (TIER1_CP in o.extra <==> inp.predictive && BRAKE !in inp.trips
                                         && (inp.trips * TIER0_SOFT != {} ==> inp.softClampable))
            && BRAKE !in o.extra && o.extra * TIER0_SOFT == {}
  {
    hide ClampReason, RecentHits;
  }

  lemma TickPredicts(cfg: FuseConfig, rt: Rt, inp: TickInput)
    requires cfg.Valid() && RtFits(cfg, rt) && inp.Fits()
    ensures var v := Decide(cfg, rt, inp).1;
            TIER1_CP in v.trips <==>
              Admissible(cfg, rt, inp) && Running(v.prevState) && v.windowHits >= cfg.hyst.k
              && BRAKE !in v.trips && (v.trips * TIER0_SOFT != {} ==> cfg.clamp == Project)
  {
    hide Next, Tier0Stage, Recorded, ClampBox;
    TickIsTableStep(cfg, rt, inp);
    TickWindow(cfg, rt, inp);
    TickBits(cfg, rt, inp);
    var (fsm, pos, fin) := TableInput(cfg, rt, inp);
    if Admissible(cfg, rt, inp) {
      NoFaultBits(fin.trips);
    } else {
      assert Faulty(fin);
    }
    TablePredicts(cfg, fsm, pos, fin);
  }

  lemma SoftPart(a: Trips, b: Trips)
    requires b * TIER0_SOFT == {}
    ensures (a + b) * TIER0_SOFT == a * TIER0_SOFT
  {
    assert forall t :: t in b && t in TIER0_SOFT ==> t in b * TIER0_SOFT;
  }
}
