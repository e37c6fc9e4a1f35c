/** The per-tick verdict and the per-episode counters folded over it. */
module Tally {
  import opened Ints
  import opened Options
  import opened Fmath
  import opened Core
  import opened Conformal

  /** `brakeMargin` is `None` where the source writes NaN (no brake check ran). */
  datatype Verdict = Verdict(
    seqNo: u32, t: u32, state: FuseState, prevState: FuseState, trips: Trips, action: Vec, src: ActionSource,
    substituted: bool, clampedDims: set<nat>, scores: Scores, windowHits: nat, brakeMargin: Option<Ext>,
    reason: ReasonCode, handoffSeq: Option<u32>, ackConsumed: bool, violationReachedEnv: bool)

  const TRIP_ORDER: seq<Trip> :=
    [WORKSPACE, SPEED, ACCEL, JERK, REACH, CONTACT, BRAKE, NONFINITE, SCHEMA, WATCHDOG, TIER1_CP, CLAMP_BUDGET,
     HANDOFF_TIMEOUT, OPERATOR_ABORT, BRAKE_TIMEOUT, REARM_BUDGET]

  datatype Counters = Counters(
    ticks: u32, nominal: u32, watching: u32, clamped: u32, braking: u32, held: u32, escalated: u32, fault: u32,
    terminated: u32, substituted: u32, chunksSeen: u32, chunksRejected: u32, clamps: u32, holds: u32, rearms: u32,
    escalations: u32, tripsByBit: seq<u32>, firedByFeat: seq<u32>, firstTripTick: Option<u32>,
    firstTripReason: Option<ReasonCode>, firstStopTick: Option<u32>, handoffTick: Option<u32>,
    violationsReachedEnv: u32, maxS: Ext, maxZ: seq<Ext>, terminalState: FuseState)
  {
    predicate Fits() { |tripsByBit| == 16 && |firedByFeat| == NFEAT && |maxZ| == NFEAT }
  }

  function ZeroCounts(n: nat): (r: seq<u32>)
    ensures |r| == n && forall i :: 0 <= i < n ==> r[i] == 0
  {
    seq(n, _ => 0)
  }

  function NoMaxima(n: nat): (r: seq<Ext>)
    ensures |r| == n
  {
    seq(n, _ => NegInf)
  }

  /** Zeros and `None` everywhere; the maxima start at minus infinity. */
  function EmptyTally(): (r: Counters)
    ensures r.Fits() && r.ticks == 0
  {
    Counters(0, 0, 0, 0, 0, 0, 0, 0, 0, 0, 0, 0, 0, 0, 0, 0, ZeroCounts(16), ZeroCounts(NFEAT), None, None, None, None, 0,
             NegInf, NoMaxima(NFEAT), Idle)
  }

  /** What the state machine did this tick beyond what the verdict shows. */
  datatype TickEvents = TickEvents(
    enteredHold: bool, enteredEscalated: bool, rearmed: bool, clamped: bool, liveZ: set<nat>)

  const NO_EVENTS: TickEvents := TickEvents(false, false, false, false, {})

  function IncIf(b: bool, x: u32): u32 { if b then Inc32(x) else x }

  function StateCounted(t: Counters, s: FuseState): Counters {
    t.(nominal := IncIf(s == Idle || s == Armed, t.nominal),
       watching := IncIf(s == Watching, t.watching),
       clamped := IncIf(s == Clamped, t.clamped),
       braking := IncIf(s == Braking, t.braking),
       held := IncIf(s == Held, t.held),
       escalated := IncIf(s == Escalated, t.escalated),
       fault := IncIf(s == Fault, t.fault),
       terminated := IncIf(s == Terminated, t.terminated))
  }

  function BitsCounted(t: Counters, v: Verdict, liveZ: set<nat>): (r: Counters)
    requires t.Fits() && |v.scores.z| == NFEAT
    ensures r.Fits()
  {
    t.(tripsByBit := seq(16, b requires 0 <= b < 16 => IncIf(TRIP_ORDER[b] in v.trips, t.tripsByBit[b])),
       firedByFeat := seq(NFEAT, j requires 0 <= j < NFEAT => IncIf(j in v.scores.fired, t.firedByFeat[j])),
       maxZ := seq(NFEAT, j requires 0 <= j < NFEAT =>
         if j in liveZ then MaxE(t.maxZ[j], Fin(v.scores.z[j])) else t.maxZ[j]))
  }

  function FirstsKept(t: Counters, v: Verdict, escalated: bool): Counters {
    t.(firstTripTick := if v.trips != {} && t.firstTripTick.None? then Some(v.t) else t.firstTripTick,
       firstTripReason := if v.trips != {} && t.firstTripTick.None? then Some(v.reason) else t.firstTripReason,
       firstStopTick := if IsStop(v.state) && t.firstStopTick.None? then Some(v.t) else t.firstStopTick,
       handoffTick := if escalated && t.handoffTick.None? then Some(v.t) else t.handoffTick)
  }

  function EventsCounted(t: Counters, v: Verdict, ev: TickEvents): Counters {
    t.(ticks := Inc32(t.ticks),
       substituted := IncIf(v.substituted, t.substituted),
       escalations := IncIf(ev.enteredEscalated, t.escalations),
       holds := IncIf(ev.enteredHold, t.holds),
       rearms := IncIf(ev.rearmed, t.rearms),
       clamps := IncIf(ev.clamped, t.clamps),
       violationsReachedEnv := IncIf(v.violationReachedEnv, t.violationsReachedEnv),
       maxS := MaxE(t.maxS, v.scores.s),
       terminalState := v.state)
  }

  function Recorded(t: Counters, v: Verdict, ev: TickEvents): (r: Counters)
    requires t.Fits() && |v.scores.z| == NFEAT
    ensures r.Fits() && r.ticks == Inc32(t.ticks)
  {
    EventsCounted(FirstsKept(BitsCounted(StateCounted(t, v.state), v, ev.liveZ), v, ev.enteredEscalated), v, ev)
  }

  function RecordedChunk(t: Counters, rejected: bool): Counters {
    t.(chunksSeen := Inc32(t.chunksSeen), chunksRejected := IncIf(rejected, t.chunksRejected))
  }

  method CountState(t: Counters, s: FuseState) returns (r: Counters)
    ensures r == StateCounted(t, s)
  {
    match s {
      case Idle => r := t.(nominal := Inc32(t.nominal));
      case Armed => r := t.(nominal := Inc32(t.nominal));
      case Watching => r := t.(watching := Inc32(t.watching));
      case Clamped => r := t.(clamped := Inc32(t.clamped));
      case Braking => r := t.(braking := Inc32(t.braking));
      case Held => r := t.(held := Inc32(t.held));
      case Escalated => r := t.(escalated := Inc32(t.escalated));
      case Fault => r := t.(fault := Inc32(t.fault));
      case Terminated => r := t.(terminated := Inc32(t.terminated));
    }
  }

  /** The per-bit and per-feature loops. */
  method CountBits(t: Counters, v: Verdict, liveZ: set<nat>) returns (r: Counters)
    requires t.Fits() && |v.scores.z| == NFEAT
    ensures r == BitsCounted(t, v, liveZ)
  {
    hide MaxE, IncIf;
    ghost var goal := BitsCounted(t, v, liveZ);
    var trips: seq<u32> := [];
    var b := 0;
    while b < 16
      invariant b <= 16 && trips == goal.tripsByBit[..b]
    {
      trips := trips + [IncIf(TRIP_ORDER[b] in v.trips, t.tripsByBit[b])];
      b := b + 1;
    }
    var fired: seq<u32>, maxZ: seq<Ext> := [], [];
    var j := 0;
    while j < NFEAT
      invariant j <= NFEAT && fired == goal.firedByFeat[..j] && maxZ == goal.maxZ[..j]
    {
      fired := fired + [IncIf(j in v.scores.fired, t.firedByFeat[j])];
      maxZ := maxZ + [if j in liveZ then MaxE(t.maxZ[j], Fin(v.scores.z[j])) else t.maxZ[j]];
      j := j + 1;
    }
    r := t.(tripsByBit := trips, firedByFeat := fired, maxZ := maxZ);
  }

  /** Folds one verdict into the counters. */
  method Record(t: Counters, v: Verdict, ev: TickEvents) returns (r: Counters)
    requires t.Fits() && |v.scores.z| == NFEAT
    ensures r == Recorded(t, v, ev)
  {
    hide MaxE, StateCounted, BitsCounted;
    r := CountState(t, v.state);
    assert r.Fits() by { StateKeepsFits(t, v.state); }
    r := CountBits(r, v, ev.liveZ);
    r := FirstsKept(r, v, ev.enteredEscalated);
    r := EventsCounted(r, v, ev);
  }

  lemma StateKeepsFits(t: Counters, s: FuseState)
    ensures StateCounted(t, s).Fits() <==> t.Fits()
  {}
}
