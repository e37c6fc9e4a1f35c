/** One session as a step function: wire requests become fuse inputs, verdicts become chained events, handoff records and
    receipts. `SessionRuntime` holds the object that runs it. */
module Session {
  import opened Ints
  import opened Options
  import opened Fmath
  import opened Core
  import opened Unicode
  import opened Jcs
  import opened Tally
  import opened Fuse
  import opened Chain
  import opened Receipt
  import opened Handoff

  const MAX_POS: nat := 32

  /** A number on the wire; null stands for NaN. */
  type WireNumbers = seq<Option<real>>

  datatype WireObs = WireObs(pos: WireNumbers, vel: Option<WireNumbers>, aux: WireNumbers, ext: WireNumbers)

  datatype WireChunk = WireChunk(seqNo: u32, tEmit: u32, h: u16, d: u16, exec: u16, a: seq<WireNumbers>)

  /** A tick request, with what the model takes from outside: the Tier-1 feature row and the measured time. */
  datatype TickMsg = TickMsg(
    id: u64, t: u32, idx: u16, missed: u8, obs: WireObs, chunk: Option<WireChunk>, ack: Option<AckToken>, feats: Features,
    decideNs: u64)

  datatype StageError =
    | BadPos | BadVel | BadAux | BadExt | BadIdx | BadHorizon | BadDim | BadExec | BadRowCount | BadRow(i: nat) | EmittedLater
    | IdxMismatch | WrongChunkSeq

  // ---- staging --------------------------------------------------------------------------------------------

  /** At most `cap` numbers are copied. */
  function Copied(xs: WireNumbers, cap: nat): (r: Vec)
    ensures |r| == if |xs| < cap then |xs| else cap
  {
    seq(if |xs| < cap then |xs| else cap, i requires 0 <= i < |xs| => if xs[i].Some? then xs[i].value else 0.0)
  }

  predicate NoNulls(xs: WireNumbers, cap: nat) { forall i :: 0 <= i < |xs| && i < cap ==> xs[i].Some? }

  function StagedObs(msg: TickMsg): Obs {
    var o := msg.obs;
    Obs(msg.t, Copied(o.pos, MAX_POS), if o.vel.Some? then Some(Copied(o.vel.value, MAX_POS)) else None,
        Copied(o.aux, MAX_AUX), Copied(o.ext, MAX_EXT), NoNulls(o.pos, MAX_POS),
        o.vel.Some? ==> NoNulls(o.vel.value, MAX_POS), NoNulls(o.aux, MAX_AUX), NoNulls(o.ext, MAX_EXT))
  }

  function BadRowFrom(c: WireChunk, dim: nat, i: nat): (r: Option<StageError>)
    requires i <= |c.a|
    ensures r.None? <==> forall j :: i <= j < |c.a| ==> |c.a[j]| == dim
    decreases |c.a| - i
  {
    if i == |c.a| then None else if |c.a[i]| != dim then Some(BadRow(i)) else BadRowFrom(c, dim, i + 1)
  }

  function ChunkFault(cfg: FuseConfig, expected: u32, msg: TickMsg, c: WireChunk): Option<StageError> {
    if c.h != cfg.horizon then Some(BadHorizon)
    else if c.d != cfg.dim then Some(BadDim)
    else if c.exec != cfg.exec then Some(BadExec)
    else if |c.a| != cfg.horizon then Some(BadRowCount)
    else if BadRowFrom(c, cfg.dim, 0).Some? then BadRowFrom(c, cfg.dim, 0)
    else if c.tEmit > msg.t then Some(EmittedLater)
    else if msg.idx != msg.t - c.tEmit then Some(IdxMismatch)
    else if c.seqNo != expected then Some(WrongChunkSeq)
    else None
  }

  function ObsFault(cfg: FuseConfig, msg: TickMsg): Option<StageError> {
    var o := msg.obs;
    if |o.pos| != cfg.dim then Some(BadPos)
    else if o.vel.Some? && |o.vel.value| != cfg.dim then Some(BadVel)
    else if |o.aux| > MAX_AUX then Some(BadAux)
    else if |o.ext| > MAX_EXT then Some(BadExt)
    else if msg.idx >= cfg.horizon then Some(BadIdx)
    else None
  }

  function WireRow(c: WireChunk, dim: nat, i: nat): (r: Vec)
    requires i < |c.a| && |c.a[i]| == dim
    ensures |r| == dim
  {
    seq(dim, j requires 0 <= j < dim => if c.a[i][j].Some? then c.a[i][j].value else 0.0)
  }

  /** The filled buffer. */
  function StagedChunk(cfg: FuseConfig, c: WireChunk): Chunk
    requires |c.a| == cfg.horizon && forall j :: 0 <= j < |c.a| ==> |c.a[j]| == cfg.dim
  {
    Chunk(c.seqNo, c.tEmit, c.h, c.d, c.exec,
          seq(cfg.horizon, i requires 0 <= i < cfg.horizon => WireRow(c, cfg.dim, i)),
          forall i, j :: 0 <= i < |c.a| && 0 <= j < |c.a[i]| ==> c.a[i][j].Some?)
  }

  datatype StageResult = StageResult(error: Option<StageError>, chunk: Option<Chunk>, nextSeq: u32)

  /** The chunk number expected restarts at a tick with `t == 0`; a chunk is staged only when everything passes. */
  function StageOf(cfg: FuseConfig, nextSeq: u32, msg: TickMsg): (r: StageResult)
    ensures r.error.Some? ==> r.chunk.None?
  {
    var expected: u32 := if msg.t == 0 then 0 else nextSeq;
    var e := ObsFault(cfg, msg);
    if e.Some? || msg.chunk.None? then StageResult(e, None, expected)
    else
      var c := msg.chunk.value;
      var e' := ChunkFault(cfg, expected, msg, c);
      if e'.Some? then StageResult(e', None, expected) else StageResult(None, Some(StagedChunk(cfg, c)), Wrap32(c.seqNo))
  }

  function InputOf(msg: TickMsg, chunk: Option<Chunk>, ack: Option<VerifiedAck>, fault: bool): (r: TickInput)
    ensures |msg.feats.f| == NFEAT ==> r.Fits()
  {
    TickInput(StagedObs(msg), chunk, msg.idx, msg.missed, ack, fault, msg.feats)
  }

  // ---- the session ----------------------------------------------------------------------------------------

  /** `tickBody` and `recordBody` are the fields of a tick event or a record beside those named here, as JSON. */
  datatype SessionCfg = SessionCfg(
    fuse: FuseConfig, policy: TicksPolicy, operators: seq<Str>, crypto: Crypto, key: seq<u8>, ackSchema: Str,
    envelope: J, envelopeDigest: Str, tickBody: Verdict -> Fields, recordBody: Verdict -> RecordFields)
  {
    ghost predicate Valid() {
      && fuse.Valid() && |operators| <= MAX_OPERATORS
      && (forall v :: GoodFields(tickBody(v))) && (forall v :: GoodFields(recordBody(v)))
      && Digest(crypto.sha, envelope) == Ok(envelopeDigest)
    }
  }

  datatype PendingTiming = PendingTiming(seqNo: u32, decideNs: u64, ioNs: u64)

  datatype Episode = Episode(
    id: RunId, verdictHead: Str, timingHead: Str, ticks: seq<Event>, timing: seq<Event>, pendingTiming: Option<PendingTiming>,
    handoffs: seq<Record>, pendingHandoff: Option<nat>)

  function NewEpisode(id: RunId): Episode { Episode(id, ZeroHash(), ZeroHash(), [], [], None, [], None) }

  /** `dead`: a panic ended the process, as the release profile has it; nothing happens after. */
  datatype Sess = Sess(
    fuse: Rt, nextSeq: u32, lastId: u64, ep: Option<Episode>, faulted: bool, phantom: bool, lastNonce: map<Str, u64>,
    dead: bool)

  /** Requests, a line the codec rejected, and the serve loop's note of the I/O time. What the environment decides (does
      the hello agree, do the weights match, does the disk work) comes with the request. */
  datatype Action =
    | Hello(id: u64, agrees: bool)
    | Begin(id: u64, run: RunId, weightsOk: bool)
    | DoTick(msg: TickMsg)
    | End(id: u64, steps: u32, rest: J, diskOk: bool)
    | Bye(id: u64)
    | BadLine(badId: Option<u64>)
    | NoteIo(seqNo: u32, ns: u64)

  datatype Code = SchemaCode | EnvelopeCode | StateCode | ProtocolCode | InternalCode

  datatype Reply =
    | Error(code: Code)
    | HelloOk
    | EpisodeOk(state: FuseState, seqNo: u32)
    | Answer(v: Verdict, handoff: Option<Record>, ackResult: Option<Option<AckError>>, chain: Str)
    | Receipt(sr: Signed)
    | ByeOk
    | Quiet
    | Dead

  ghost predicate Fits(cfg: SessionCfg, s: Sess) { cfg.Valid() && RtFits(cfg.fuse, s.fuse) }

  predicate ActionFits(a: Action) { a.DoTick? ==> |a.msg.feats.f| == NFEAT }

  function NonceOf(last: map<Str, u64>, who: Str): u64 { if who in last then last[who] else 0 }

  function Failed(s: Sess, code: Code): (Sess, Reply) {
    (if s.ep.Some? then s.(faulted := true) else s, Error(code))
  }

  /** The waiting timing entry enters its chain. `None` is the panic: a time above 2^53 - 1 cannot be hashed. */
  ghost function FoldedTiming(cfg: SessionCfg, ep: Episode): (r: Option<Episode>) {
    if ep.pendingTiming.None? then Some(ep)
    else
      var p := ep.pendingTiming.value;
      if !TimesPrint(p.decideNs, p.ioNs) then None
      else
        TimingFieldsGood(p.decideNs, p.ioNs);
        var e := NewEvent(cfg.crypto.sha, ep.timingHead, p.seqNo, TimingFields(p.decideNs, p.ioNs));
        Some(ep.(timingHead := e.hash, timing := ep.timing + [e], pendingTiming := None))
  }

  ghost function Folded(cfg: SessionCfg, s: Sess): (r: Sess)
    ensures Fits(cfg, s) ==> Fits(cfg, r)
  {
    if s.ep.None? then s
    else
      var ep := FoldedTiming(cfg, s.ep.value);
      if ep.None? then s.(dead := true) else s.(ep := ep)
  }

  /** The unresolved record's digest and number. */
  function PendingOf(ep: Episode): Option<(Str, u32)> {
    if ep.pendingHandoff.Some? && ep.pendingHandoff.value < |ep.handoffs| then
      var h := ep.handoffs[ep.pendingHandoff.value];
      Some((h.digest, h.seqNo))
    else None
  }

  function Slots(cfg: SessionCfg, last: map<Str, u64>): (r: seq<u64>)
    ensures |r| == |cfg.operators| && forall i :: 0 <= i < |r| ==> r[i] == NonceOf(last, cfg.operators[i])
  {
    seq(|cfg.operators|, i requires 0 <= i < |cfg.operators| => NonceOf(last, cfg.operators[i]))
  }

  ghost function CheckedAck(cfg: SessionCfg, s: Sess, tok: AckToken): Result<VerifiedAck, AckError>
    requires s.ep.Some?
  {
    AckChecked(cfg.crypto.accepts, cfg.ackSchema, tok, cfg.operators, PendingOf(s.ep.value), Slots(cfg, s.lastNonce))
  }

  ghost function AcceptedOf(cfg: SessionCfg, s: Sess, msg: TickMsg): Option<VerifiedAck>
    requires s.ep.Some?
  {
    if msg.ack.Some? && CheckedAck(cfg, s, msg.ack.value).Ok? then Some(CheckedAck(cfg, s, msg.ack.value).value) else None
  }

  ghost function AckResultOf(cfg: SessionCfg, s: Sess, msg: TickMsg): Option<Option<AckError>>
    requires s.ep.Some?
  {
    if msg.ack.None? then None
    else
      var r := CheckedAck(cfg, s, msg.ack.value);
      Some(if r.Ok? then None else Some(r.error))
  }

  /** How this tick resolves the pending record: by the consumed ack's decision, or by the handoff timeout. */
  function Resolution(v: Verdict, ack: Option<AckToken>): Option<Outcome> {
    if v.ackConsumed then
      if ack.None? then None
      else
        match ack.value.decision
        case Resume => Some(Resumed)
        case Abort => Some(Aborted)
        case Retune => Some(Retuned)
    else if v.prevState == Escalated && v.state == Terminated then Some(TimedOut)
    else None
  }

  function Resolved(ep: Episode, v: Verdict, ack: Option<AckToken>): Episode {
    var outcome := Resolution(v, ack);
    if ep.pendingHandoff.None? || outcome.None? then ep
    else
      var i := ep.pendingHandoff.value;
      var handoffs := if i >= |ep.handoffs| then ep.handoffs
                      else ep.handoffs[i := ep.handoffs[i].(ack := if v.ackConsumed then ack else None,
                                                            resolvedTick := Some(v.t), outcome := outcome.value)];
      ep.(handoffs := handoffs, pendingHandoff := None)
  }

  ghost function Opened(cfg: SessionCfg, ep: Episode, v: Verdict): (Episode, Option<Record>)
    requires cfg.Valid()
  {
    if v.handoffSeq.None? then (ep, None)
    else
      var h := NewRecord(cfg.crypto.sha, ep.id, v.handoffSeq.value, v.t, ep.verdictHead, cfg.recordBody(v));
      (ep.(handoffs := ep.handoffs + [h], pendingHandoff := Some(|ep.handoffs|)), Some(h))
  }

  /** The verdict enters the chain, and its timing waits to be folded. */
  ghost function Chained(cfg: SessionCfg, ep: Episode, v: Verdict, decideNs: u64): Episode
    requires cfg.Valid()
  {
    var e := NewEvent(cfg.crypto.sha, ep.verdictHead, v.seqNo, cfg.tickBody(v));
    ep.(verdictHead := e.hash, ticks := ep.ticks + [e], pendingTiming := Some(PendingTiming(v.seqNo, decideNs, 0)))
  }

  /** What happens to the episode after `decide()` returned. */
  ghost function Booked(cfg: SessionCfg, ep: Episode, v: Verdict, msg: TickMsg): (Episode, Option<Record>)
    requires cfg.Valid()
  {
    Opened(cfg, Resolved(Chained(cfg, ep, v, msg.decideNs), v, msg.ack), v)
  }

  /** What the fuse is given on a tick inside an episode. */
  ghost function FedInput(cfg: SessionCfg, s: Sess, msg: TickMsg): (r: TickInput)
    requires s.ep.Some?
    ensures |msg.feats.f| == NFEAT ==> r.Fits()
  {
    var st := StageOf(cfg.fuse, s.nextSeq, msg);
    InputOf(msg, st.chunk, AcceptedOf(cfg, s, msg), s.faulted || st.error.Some?)
  }

  ghost function EpisodeTick(cfg: SessionCfg, s: Sess, msg: TickMsg): (r: (Sess, Reply))
    requires Fits(cfg, s) && s.ep.Some? && |msg.feats.f| == NFEAT
    ensures Fits(cfg, r.0) && r.0.dead == s.dead && !r.1.Receipt?
  {
    var st := StageOf(cfg.fuse, s.nextSeq, msg);
    var ack := AcceptedOf(cfg, s, msg);
    var (rt, v) := Decide(cfg.fuse, s.fuse, FedInput(cfg, s, msg));
    var (ep, handoff) := Booked(cfg, s.ep.value, v, msg);
    var s' := s.(fuse := rt, nextSeq := st.nextSeq, ep := Some(ep), faulted := s.faulted || st.error.Some?,
                 lastNonce := if ack.Some? then s.lastNonce[msg.ack.value.operator := ack.value.nonce] else s.lastNonce);
    (s', if st.error.Some? then Error(SchemaCode)
         else Answer(v, handoff, AckResultOf(cfg, s, msg), Chained(cfg, s.ep.value, v, msg.decideNs).verdictHead))
  }

  /** A tick with no episode: an error first, then hold actions from a fuse reset once. */
  ghost function StrayTick(cfg: SessionCfg, s: Sess, msg: TickMsg): (r: (Sess, Reply))
    requires Fits(cfg, s) && s.ep.None? && |msg.feats.f| == NFEAT
    ensures Fits(cfg, r.0) && r.0.dead == s.dead && !r.1.Receipt?
  {
    if !s.phantom then
      FreshFits(cfg.fuse);
      (s.(phantom := true, fuse := Fresh(cfg.fuse.dim), faulted := true), Error(StateCode))
    else
      var st := StageOf(cfg.fuse, s.nextSeq, msg);
      var (rt, v) := Decide(cfg.fuse, s.fuse, InputOf(msg, st.chunk, None, true));
      (s.(fuse := rt, nextSeq := st.nextSeq), Answer(v, None, None, ZeroHash()))
  }

  ghost function Begun(cfg: SessionCfg, s: Sess, run: RunId, weightsOk: bool): (r: (Sess, Reply))
    requires Fits(cfg, s)
    ensures Fits(cfg, r.0) && r.0.dead == s.dead && !r.1.Receipt?
  {
    if s.ep.Some? then Failed(s, StateCode)
    else if !weightsOk then (s, Error(EnvelopeCode))
    else
      FreshFits(cfg.fuse);
      (s.(fuse := Fresh(cfg.fuse.dim), nextSeq := 0, faulted := false, phantom := false, ep := Some(NewEpisode(run))),
       EpisodeOk(Armed, 0))
  }

  function KeptTicks(p: TicksPolicy, ticks: seq<Event>): seq<Event> {
    match p
    case KeepAll => ticks
    case KeepNone => []
    case _ => if |ticks| > 32 then ticks[|ticks| - 32..] else ticks
  }

  /** The body `episode_end` signs; lengths are truncated to a u32. */
  function BodyOf(cfg: SessionCfg, s: Sess, ep: Episode, steps: u32, rest: J): Body {
    Body(true, cfg.envelope, cfg.envelopeDigest, s.fuse.tally.ticks, steps, |ep.ticks| % 0x1_0000_0000, ep.verdictHead,
         |ep.timing| % 0x1_0000_0000, ep.timingHead, cfg.policy, KeptTicks(cfg.policy, ep.ticks), rest)
  }

  /** `sign`: a body without canonical bytes cannot be signed. */
  function SignedBody(cfg: SessionCfg, body: Body): Option<Signed> {
    var bytes := cfg.crypto.bytes(body);
    if bytes.Err? then None
    else
      Some(Signed(body, cfg.crypto.sha(bytes.value), cfg.crypto.pubkey(cfg.key), cfg.crypto.sign(cfg.key, bytes.value)))
  }

  ghost function Ended(cfg: SessionCfg, s: Sess, steps: u32, rest: J, diskOk: bool): (r: (Sess, Reply))
    requires Fits(cfg, s)
    ensures Fits(cfg, r.0)
  {
    if s.ep.None? then Failed(s, StateCode)
    else
      var ep := FoldedTiming(cfg, s.ep.value);
      if ep.None? then (s.(dead := true), Dead)
      else
        var sr := SignedBody(cfg, BodyOf(cfg, s, ep.value, steps, rest));
        (s.(ep := None, faulted := false), if !diskOk || sr.None? then Error(InternalCode) else Receipt(sr.value))
  }

  function IdOf(a: Action): Option<u64> {
    match a
    case Hello(id, _) => Some(id)
    case Begin(id, _, _) => Some(id)
    case DoTick(msg) => Some(msg.id)
    case End(id, _, _, _) => Some(id)
    case Bye(id) => Some(id)
    case _ => None
  }

  /** A request whose id is in order. */
  ghost function Served(cfg: SessionCfg, s: Sess, a: Action): (r: (Sess, Reply))
    requires Fits(cfg, s) && ActionFits(a)
    ensures Fits(cfg, r.0)
  {
    match a
    case Hello(_, agrees) => if s.ep.Some? then Failed(s, StateCode) else (s, if agrees then HelloOk else Error(EnvelopeCode))
    case Begin(_, run, weightsOk) => Begun(cfg, s, run, weightsOk)
    case DoTick(msg) => if s.ep.None? then StrayTick(cfg, s, msg) else EpisodeTick(cfg, s, msg)
    case End(_, steps, rest, diskOk) => Ended(cfg, s, steps, rest, diskOk)
    case _ => (s, ByeOk)
  }

  function Noted(s: Sess, seqNo: u32, ns: u64): Sess {
    if s.ep.Some? && s.ep.value.pendingTiming.Some? && s.ep.value.pendingTiming.value.seqNo == seqNo then
      s.(ep := Some(s.ep.value.(pendingTiming := Some(s.ep.value.pendingTiming.value.(ioNs := ns)))))
    else s
  }

  /** `handle`, `handle_bad_line` and `note_io_ns`. */
  ghost function Step(cfg: SessionCfg, s: Sess, a: Action): (r: (Sess, Reply))
    requires Fits(cfg, s) && ActionFits(a)
    ensures Fits(cfg, r.0)
  {
    if s.dead then (s, Dead)
    else if a.NoteIo? then (Noted(s, a.seqNo, a.ns), Quiet)
    else
      var s1 := Folded(cfg, s);
      if s1.dead then (s1, Dead)
      else if a.BadLine? then Failed(s1, SchemaCode)
      else if IdOf(a).value <= s1.lastId then Failed(s1, ProtocolCode)
      else Served(cfg, s1.(lastId := IdOf(a).value), a)
  }

  /** A new session: no episode, nonces as loaded. */
  function NewSession(cfg: SessionCfg, nonces: map<Str, u64>): Sess {
    Sess(Fresh(cfg.fuse.dim), 0, 0, None, false, false, nonces, false)
  }
}
