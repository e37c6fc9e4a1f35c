/** Machine integers, with the saturating increment the counters use. */
module Ints {
  type u8 = x: int | 0 <= x < 0x100
  type u16 = x: int | 0 <= x < 0x1_0000
  type u32 = x: int | 0 <= x < 0x1_0000_0000
  type u64 = x: int | 0 <= x < 0x1_0000_0000_0000_0000

  const U32_MAX: u32 := 0xFFFF_FFFF

  function Inc8(x: u8): u8 { if x < 0xFF then x + 1 else x }

  function Inc16(x: u16): u16 { if x < 0xFFFF then x + 1 else x }

  function Inc32(x: u32): u32 { if x < U32_MAX then x + 1 else x }

  /** `wrapping_add(1)`. */
  function Wrap32(x: u32): u32 { (x + 1) % 0x1_0000_0000 }
}

module Options {
  datatype Option<+T> = None | Some(value: T)

  datatype Result<+T, +E> = Ok(value: T) | Err(error: E)
}

/** The shared vocabulary: states, trip bits, reason codes, the observation, the chunk and the compiled
    configuration. A trip mask (a u32 with sixteen named bits) is the set of its bits. */
module Core {
  import opened Ints
  import opened Options
  import opened Fmath

  datatype FuseState = Idle | Armed | Watching | Clamped | Braking | Held | Escalated | Fault | Terminated

  datatype FuseMode = Observe | Enforce

  datatype ClampMode = Off | Project

  datatype ActionSource = SrcPolicy | SrcClamped | SrcBrake | SrcHold

  datatype RearmPolicy = Auto | AckOnly

  datatype AckDecision = Resume | Abort | Retune

  datatype Trip =
    | WORKSPACE | SPEED | ACCEL | JERK | REACH | CONTACT | BRAKE | NONFINITE | SCHEMA | WATCHDOG | TIER1_CP
    | CLAMP_BUDGET | HANDOFF_TIMEOUT | OPERATOR_ABORT | BRAKE_TIMEOUT | REARM_BUDGET

  type Trips = set<Trip>

  const TIER0_SOFT: Trips := {WORKSPACE, SPEED, ACCEL, JERK, REACH, CONTACT}
  const TIER0_HARD: Trips := {BRAKE, NONFINITE, SCHEMA, WATCHDOG}
  const FAULT_BITS: Trips := {NONFINITE, SCHEMA, WATCHDOG}

  datatype ReasonCode =
    | ReasonOk | ObserveOnly | WatchBand
    | ClampWorkspace | ClampSpeed | ClampAccel | ClampJerk | ClampReach | ClampContact
    | BrakeInfeasible | BrakeTier1Cp | BrakeClampBudget | Stopping | HeldStandstill
    | EscalateHoldTimeout | EscalateRearmBudget | EscalateTier1Persistent
    | FaultNonFinite | FaultSchema | FaultWatchdog | FaultBrakeTimeout | FaultInternal
    | RearmedAuto | RearmedAck | TerminatedAbort | TerminatedTimeout | TerminatedRetune

  const MAX_D: nat := 32
  const MAX_H: nat := 64
  const MAX_AUX: nat := 16
  const MAX_EXT: nat := 4
  const MAX_OPERATORS: nat := 8
  const NFEAT: nat := 12

  predicate IsStop(s: FuseState) {
    s == Braking || s == Held || s == Escalated || s == Fault || s == Terminated
  }

  datatype VerifiedAck = VerifiedAck(decision: AckDecision, operatorSlot: u8, nonce: u64, handoffSeq: u32)

  datatype Hysteresis = Hysteresis(
    k: u8, n: u8, warnMargin: real, clearTicks: u8, clampStreakToBrake: u8, maxClampsPerEpisode: u16,
    stopConfirmTicks: u8, vStopEps: real, brakeTimeoutTicks: u16, rearm: RearmPolicy, rearmHold: u16,
    maxRearms: u8, escalateAfterHoldTicks: u16, handoffTimeoutTicks: u32, watchdogTicks: u8)

  datatype ContactLimit = ContactLimit(radius: real, vMax: real, aux0: nat, aux1: nat)

  /** The PD brake model (`PdSecondOrder`). */
  datatype BrakeModel = BrakeModel(kP: real, kV: real, substeps: nat, dt: real, commitSteps: nat, brakeSteps: nat)

  /** A real or one of the two infinities. */
  datatype Ext = NegInf | Fin(x: real) | PosInf {
    predicate Above(o: Ext) {
      match this
      case NegInf => false
      case Fin(x) => o == NegInf || (o.Fin? && x > o.x)
      case PosInf => o != PosInf
    }
  }

  /** `terms` are the gate's conjunctions; features are numbered `0..NFEAT`. */
  datatype Calibration = Calibration(
    mask: set<nat>, terms: seq<set<nat>>, tau: Ext, horizonTicks: u32, tGrid: nat,
    center: seq<Vec>, scale: seq<Vec>)
  {
    predicate Armed() { mask != {} }

    predicate Valid() {
      && 1 <= tGrid <= 100
      && |center| == 100 && |scale| == 100
      && (forall b :: 0 <= b < 100 ==> |center[b]| == NFEAT && |scale[b]| == NFEAT)
      && (forall b, j :: 0 <= b < 100 && 0 <= j < NFEAT ==> 0.0 < scale[b][j])
      && (forall j :: j in mask ==> j < NFEAT)
      && |terms| <= 8 && (forall i :: 0 <= i < |terms| ==> terms[i] <= mask)
    }
  }

  /** The compiled configuration. The last two fields are parameters of the model: the square root and the
      leash factor, a constant just below one. */
  datatype FuseConfig = FuseConfig(
    mode: FuseMode, dim: nat, horizon: nat, exec: nat,
    dt: real, invDt: real, invDt2: real, invDt3: real,
    boxLo: Vec, boxHi: Vec, aMax: real, jMax: real, reachMax: real, stepMax: real,
    contact: Option<ContactLimit>, brake: BrakeModel, clamp: ClampMode, hyst: Hysteresis, windowMask: bv64,
    tier0Enabled: Trips, calib: Calibration,
    sqrt: real -> real, leashShrink: real)
  {
    /** What `SafetyEnvelope.validate` and `compile` establish (`pos_dim == action_dim`). */
    ghost predicate Valid() {
      && 1 <= dim <= MAX_D && 1 <= exec <= horizon <= MAX_H
      && 0.0 < dt && 0.0 < invDt
      && |boxLo| == dim && |boxHi| == dim && (forall c :: 0 <= c < dim ==> boxLo[c] < boxHi[c])
      && 0.0 < reachMax && 0.0 < stepMax
      && (contact.Some? ==> 0.0 < contact.value.radius && 0.0 < contact.value.vMax)
      && 1 <= brake.substeps && 1 <= brake.commitSteps <= horizon
      && 1 <= hyst.k <= hyst.n <= 63
      && calib.Valid()
      && IsSqrt(sqrt) && 0.0 < leashShrink < 1.0
    }
  }

  datatype Chunk = Chunk(
    seqNo: u32, tEmit: u32, horizon: nat, dim: nat, execSteps: nat, rows: seq<Vec>, finite: bool)

  /** `data.len() == horizon * dim`, row-major. */
  predicate Shaped(rows: seq<Vec>, h: nat, d: nat) {
    |rows| == h && forall i :: 0 <= i < h ==> |rows[i]| == d
  }

  /** One observation. Non-finite input appears only as a flag. */
  datatype Obs = Obs(
    t: u32, pos: Vec, vel: Option<Vec>, aux: Vec, ext: Vec,
    posFinite: bool, velFinite: bool, auxFinite: bool, extFinite: bool)

  predicate InBox(cfg: FuseConfig, p: Vec)
    requires |cfg.boxLo| == |cfg.boxHi|
  {
    |p| == |cfg.boxLo| && forall c :: 0 <= c < |p| ==> cfg.boxLo[c] <= p[c] <= cfg.boxHi[c]
  }

  function ClampBox(cfg: FuseConfig, p: Vec): (r: Vec)
    requires |cfg.boxLo| == |cfg.boxHi| == |p|
    ensures |r| == |p|
    ensures forall c :: 0 <= c < |p| ==> r[c] == Clamp(p[c], cfg.boxLo[c], cfg.boxHi[c])
  {
    seq(|p|, c requires 0 <= c < |p| => Clamp(p[c], cfg.boxLo[c], cfg.boxHi[c]))
  }

  lemma ClampBoxInside(cfg: FuseConfig, p: Vec)
    requires cfg.Valid() && |p| == cfg.dim
    ensures InBox(cfg, ClampBox(cfg, p))
    ensures InBox(cfg, p) <==> ClampBox(cfg, p) == p
  {
    if InBox(cfg, p) {
      assert ClampBox(cfg, p) == p;
    }
  }
}
