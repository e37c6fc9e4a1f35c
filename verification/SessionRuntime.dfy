/** The session as an object: staging buffers, the fuse, and the episode being recorded. Every method is proved against the
    step function of module `Session`. */
module SessionRuntime {
  import opened Ints
  import opened Options
  import opened Fmath
  import opened Core
  import opened Unicode
  import opened Jcs
  import opened Window
  import opened Tally
  import opened Fuse
  import opened FuseRuntime
  import opened Chain
  import opened Receipt
  import opened Handoff
  import opened Session

  /** Copies at most `cap` numbers, null becoming a non-finite mark. */
  method CopyNumbers(xs: WireNumbers, cap: nat) returns (v: Vec, finite: bool)
    ensures v == Copied(xs, cap) && finite == NoNulls(xs, cap)
  {
    v, finite := [], true;
    var n := if |xs| < cap then |xs| else cap;
    var i := 0;
    while i < n
      invariant i <= n && v == Copied(xs, cap)[..i] && (finite <==> forall k :: 0 <= k < i ==> xs[k].Some?)
    {
      v := v + [if xs[i].Some? then xs[i].value else 0.0];
      finite := finite && xs[i].Some?;
      i := i + 1;
    }
  }

  class Staging {
    var nextSeq: u32
    var obs: Obs
    var chunk: Option<Chunk>

    constructor ()
      ensures nextSeq == 0
    {
      nextSeq, chunk := 0, None;
      obs := Obs(0, [], None, [], [], true, true, true, true);
    }

    /** Copies the observation first, then checks it, then the chunk. */
    method Stage(cfg: FuseConfig, msg: TickMsg) returns (e: Option<StageError>)
      modifies this
      ensures obs == StagedObs(msg)
      ensures StageOf(cfg, old(nextSeq), msg) == StageResult(e, chunk, nextSeq)
    {
      hide BadRowFrom, WireRow, Copied;
      CopyObs(msg);
      chunk := None;
      if msg.t == 0 {
        nextSeq := 0;
      }
      e := ObsFault(cfg, msg);
      if e.Some? || msg.chunk.None? { return; }
      var c := msg.chunk.value;
      e := ChunkFault(cfg, nextSeq, msg, c);
      if e.Some? { return; }
      FillChunk(cfg, c);
      nextSeq := Wrap32(c.seqNo);
    }

    method CopyObs(msg: TickMsg)
      modifies this`obs
      ensures obs == StagedObs(msg)
    {
      hide Copied, NoNulls;
      var pos, posFinite := CopyNumbers(msg.obs.pos, MAX_POS);
      var aux, auxFinite := CopyNumbers(msg.obs.aux, MAX_AUX);
      var ext, extFinite := CopyNumbers(msg.obs.ext, MAX_EXT);
      var vel: Option<Vec>, velFinite := None, true;
      if msg.obs.vel.Some? {
        var v, f := CopyNumbers(msg.obs.vel.value, MAX_POS);
        vel, velFinite := Some(v), f;
      }
      obs := Obs(msg.t, pos, vel, aux, ext, posFinite, velFinite, auxFinite, extFinite);
    }

    /** The row loops into the chunk buffer. */
    method FillChunk(cfg: FuseConfig, c: WireChunk)
      requires |c.a| == cfg.horizon && forall j :: 0 <= j < |c.a| ==> |c.a[j]| == cfg.dim
      modifies this`chunk
      ensures chunk == Some(StagedChunk(cfg, c))
    {
      var rows: seq<Vec>, finite := [], true;
      var i := 0;
      while i < cfg.horizon
        invariant i <= cfg.horizon && |rows| == i && (forall k :: 0 <= k < i ==> rows[k] == WireRow(c, cfg.dim, k))
        invariant finite <==> forall k, j :: 0 <= k < i && 0 <= j < |c.a[k]| ==> c.a[k][j].Some?
      {
        var row, f := CopyNumbers(c.a[i], cfg.dim);
        assert row == WireRow(c, cfg.dim, i);
        rows, finite := rows + [row], finite && f;
        i := i + 1;
      }
      assert rows == StagedChunk(cfg, c).rows;
      chunk := Some(Chunk(c.seqNo, c.tEmit, c.h, c.d, c.exec, rows, finite));
    }
  }

  class SessionObject {
    const cfg: SessionCfg
    const fuse: FuseRt
    const staging: Staging
    var lastId: u64
    var ep: Option<Episode>
    var faulted: bool
    var phantom: bool
    var lastNonce: map<Str, u64>
    var dead: bool

    ghost function State(): Sess
      reads this, staging, fuse, fuse.ladder, fuse.ladder.window
    {
      Sess(fuse.Snapshot(), staging.nextSeq, lastId, ep, faulted, phantom, lastNonce, dead)
    }

    ghost predicate Valid()
      reads this, staging, fuse, fuse.ladder, fuse.ladder.window
    {
      cfg.Valid() && fuse.Valid() && fuse.cfg == cfg.fuse
    }

    constructor (c: SessionCfg, nonces: map<Str, u64>)
      requires c.Valid() && c.fuse.windowMask == MaskOf(c.fuse.hyst.n)
      ensures Valid() && cfg == c && State() == NewSession(c, nonces)
      ensures fresh(staging) && fresh(fuse) && fresh(fuse.ladder) && fresh(fuse.ladder.window)
    {
      cfg := c;
      fuse := new FuseRt(c.fuse);
      staging := new Staging();
      lastId, ep, faulted, phantom, lastNonce, dead := 0, None, false, false, nonces, false;
    }

    /** An error reply; inside an episode it latches the fault. */
    method Fail(code: Code) returns (r: Reply)
      requires Valid()
      modifies this`faulted
      ensures Valid() && (State(), r) == Failed(old(State()), code)
    {
      hide FuseRt.Valid, FuseRt.Snapshot, SessionCfg.Valid;
      if ep.Some? {
        faulted := true;
      }
      r := Error(code);
    }

    /** The waiting timing entry enters its chain, or its hash panics and the process is dead. */
    method FoldPendingTiming()
      requires Valid()
      modifies this`ep, this`dead
      ensures Valid() && State() == Folded(cfg, old(State()))
    {
      hide FuseRt.Valid, FuseRt.Snapshot, NewEvent, GoodFields, TimingFields, SessionCfg.Valid;
      if ep.Some? && ep.value.pendingTiming.Some? {
        var p := ep.value.pendingTiming.value;
        TimingFieldsGood(p.decideNs, p.ioNs);
        var e := MakeEvent(cfg.crypto.sha, ep.value.timingHead, p.seqNo, TimingFields(p.decideNs, p.ioNs));
        if e.None? {
          dead := true;
          return;
        }
        ep := Some(ep.value.(timingHead := e.value.hash, timing := ep.value.timing + [e.value], pendingTiming := None));
      }
    }

    method SlotNonces() returns (r: seq<u64>)
      ensures r == Slots(cfg, lastNonce)
    {
      r := [];
      var i := 0;
      while i < |cfg.operators|
        invariant i <= |cfg.operators| && r == Slots(cfg, lastNonce)[..i]
      {
        r := r + [NonceOf(lastNonce, cfg.operators[i])];
        i := i + 1;
      }
    }

    /** Verifies an ack against the pending record; never touches the fuse. */
    method CheckAck(msg: TickMsg) returns (ack: Option<VerifiedAck>, result: Option<Option<AckError>>)
      requires Valid() && ep.Some?
      ensures ack == AcceptedOf(cfg, State(), msg) && result == AckResultOf(cfg, State(), msg)
    {
      hide FuseRt.Valid, FuseRt.Snapshot, SessionCfg.Valid, AckChecked;
      if msg.ack.None? { return None, None; }
      var slots := SlotNonces();
      var r := VerifyAck(cfg.crypto.accepts, cfg.ackSchema, msg.ack.value, cfg.operators, PendingOf(ep.value), slots);
      if r.Err? { return None, Some(Some(r.error)); }
      return Some(r.value), Some(None);
    }

    /** The verdict enters the chain, and its timing waits. */
    method ChainVerdict(v: Verdict, decideNs: u64)
      requires Valid() && ep.Some?
      modifies this`ep
      ensures Valid() && ep == Some(Chained(cfg, old(ep).value, v, decideNs))
    {
      hide FuseRt.Valid, FuseRt.Snapshot, NewEvent, GoodFields;
      var made := MakeEvent(cfg.crypto.sha, ep.value.verdictHead, v.seqNo, cfg.tickBody(v));
      var event := made.value;
      ep := Some(ep.value.(verdictHead := event.hash, ticks := ep.value.ticks + [event],
                           pendingTiming := Some(PendingTiming(v.seqNo, decideNs, 0))));
    }

    /** The pending record is resolved by the consumed ack or the handoff timeout. */
    method ResolvePending(v: Verdict, ack: Option<AckToken>)
      requires Valid() && ep.Some?
      modifies this`ep
      ensures Valid() && ep == Some(Resolved(old(ep).value, v, ack))
    {
      hide FuseRt.Valid, FuseRt.Snapshot, SessionCfg.Valid, Resolution;
      var outcome := Resolution(v, ack);
      if ep.value.pendingHandoff.None? || outcome.None? { return; }
      var i, handoffs := ep.value.pendingHandoff.value, ep.value.handoffs;
      if i < |handoffs| {
        handoffs := handoffs[i := handoffs[i].(ack := if v.ackConsumed then ack else None, resolvedTick := Some(v.t),
                                               outcome := outcome.value)];
      }
      ep := Some(ep.value.(handoffs := handoffs, pendingHandoff := None));
    }

    /** A tick that enters Escalated opens a record. */
    method OpenRecord(v: Verdict) returns (handoff: Option<Record>)
      requires Valid() && ep.Some?
      modifies this`ep
      ensures Valid() && ep.Some? && (ep.value, handoff) == Opened(cfg, old(ep).value, v)
    {
      hide FuseRt.Valid, FuseRt.Snapshot, NewRecord, GoodFields;
      if v.handoffSeq.None? { return None; }
      handoff := MakeRecord(cfg.crypto.sha, ep.value.id, v.handoffSeq.value, v.t, ep.value.verdictHead, cfg.recordBody(v));
      ep := Some(ep.value.(handoffs := ep.value.handoffs + [handoff.value], pendingHandoff := Some(|ep.value.handoffs|)));
    }

    /** The bookkeeping after the fuse returned. */
    method Book(v: Verdict, msg: TickMsg) returns (handoff: Option<Record>, chain: Str)
      requires Valid() && ep.Some?
      modifies this`ep
      ensures Valid() && ep.Some? && (ep.value, handoff) == Booked(cfg, old(ep).value, v, msg)
      ensures chain == Chained(cfg, old(ep).value, v, msg.decideNs).verdictHead
    {
      hide FuseRt.Valid, FuseRt.Snapshot, SessionCfg.Valid, Chained, Resolved, Opened;
      ChainVerdict(v, msg.decideNs);
      chain := ep.value.verdictHead;
      ResolvePending(v, msg.ack);
      handoff := OpenRecord(v);
    }

    /** The fuse runs on the staged input. */
    method Run(msg: TickMsg, ack: Option<VerifiedAck>, fault: bool) returns (v: Verdict)
      requires Valid() && |msg.feats.f| == NFEAT && staging.obs == StagedObs(msg)
      modifies fuse, fuse.ladder, fuse.ladder.window
      ensures Valid() && (fuse.Snapshot(), v) == Decide(cfg.fuse, old(fuse.Snapshot()), InputOf(msg, staging.chunk, ack, fault))
    {
      hide FuseRt.Snapshot, SessionCfg.Valid, Fuse.Decide, StagedObs;
      v := fuse.Decide(TickInput(staging.obs, staging.chunk, msg.idx, msg.missed, ack, fault, msg.feats));
    }

    method TickInEpisode(msg: TickMsg) returns (r: Reply)
      requires Valid() && ep.Some? && |msg.feats.f| == NFEAT
      modifies this, staging, fuse, fuse.ladder, fuse.ladder.window
      ensures Valid() && (State(), r) == EpisodeTick(cfg, old(State()), msg)
    {
      hide FuseRt.Valid, FuseRt.Snapshot, SessionCfg.Valid, Fuse.Decide, StagedObs, StageOf, CheckedAck, Booked, Chained;
      var ack, ackResult := CheckAck(msg);
      var e := staging.Stage(cfg.fuse, msg);
      faulted := faulted || e.Some?;
      var v := Run(msg, ack, faulted);
      if ack.Some? {
        lastNonce := lastNonce[msg.ack.value.operator := ack.value.nonce];
      }
      var handoff, chain := Book(v, msg);
      if e.Some? { return Error(SchemaCode); }
      return Answer(v, handoff, ackResult, chain);
    }

    method TickOutside(msg: TickMsg) returns (r: Reply)
      requires Valid() && ep.None? && |msg.feats.f| == NFEAT
      modifies this, staging, fuse, fuse.ladder, fuse.ladder.window
      ensures Valid() && (State(), r) == StrayTick(cfg, old(State()), msg)
    {
      hide FuseRt.Snapshot, SessionCfg.Valid, Fuse.Decide, StagedObs, StageOf, Fresh;
      if !phantom {
        phantom := true;
        fuse.Reset();
        faulted := true;
        return Error(StateCode);
      }
      var _ := staging.Stage(cfg.fuse, msg);
      var v := Run(msg, None, true);
      return Answer(v, None, None, ZeroHash());
    }

    method BeginEpisode(run: RunId, weightsOk: bool) returns (r: Reply)
      requires Valid()
      modifies this, staging, fuse, fuse.ladder, fuse.ladder.window
      ensures Valid() && (State(), r) == Begun(cfg, old(State()), run, weightsOk)
    {
      hide FuseRt.Snapshot, SessionCfg.Valid, Fresh;
      if ep.Some? {
        r := Fail(StateCode);
        return;
      }
      if !weightsOk { return Error(EnvelopeCode); }
      fuse.Reset();
      staging.nextSeq := 0;
      faulted, phantom := false, false;
      ep := Some(NewEpisode(run));
      return EpisodeOk(Armed, 0);
    }

    method EndEpisode(steps: u32, rest: J, diskOk: bool) returns (r: Reply)
      requires Valid() && !dead
      modifies this
      ensures Valid() && (State(), r) == Ended(cfg, old(State()), steps, rest, diskOk)
    {
      hide FuseRt.Valid, SessionCfg.Valid, NewEvent, RtFits;
      if ep.None? {
        r := Fail(StateCode);
        return;
      }
      FoldPendingTiming();
      if dead { return Dead; }
      var done := ep.value;
      ep := None;
      faulted := false;
      if !diskOk { return Error(InternalCode); }
      var body := Body(true, cfg.envelope, cfg.envelopeDigest, fuse.tally.ticks, steps, |done.ticks| % 0x1_0000_0000,
                       done.verdictHead, |done.timing| % 0x1_0000_0000, done.timingHead, cfg.policy,
                       KeptTicks(cfg.policy, done.ticks), rest);
      var sr := SignedBody(cfg, body);
      if sr.None? { return Error(InternalCode); }
      return Receipt(sr.value);
    }

    /** One action: fold, check the id, dispatch. */
    method Handle(a: Action) returns (r: Reply)
      requires Valid() && ActionFits(a)
      modifies this, staging, fuse, fuse.ladder, fuse.ladder.window
      ensures Valid() && (State(), r) == Step(cfg, old(State()), a)
    {
      hide FuseRt.Valid, FuseRt.Snapshot, SessionCfg.Valid, FoldedTiming, EpisodeTick, StrayTick, Begun, Ended;
      if dead { return Dead; }
      if a.NoteIo? {
        NoteIoNs(a.seqNo, a.ns);
        return Quiet;
      }
      FoldPendingTiming();
      if dead { return Dead; }
      if a.BadLine? {
        r := Fail(SchemaCode);
        return;
      }
      var id := IdOf(a).value;
      if id <= lastId {
        r := Fail(ProtocolCode);
        return;
      }
      lastId := id;
      r := Dispatch(a);
    }

    method Dispatch(a: Action) returns (r: Reply)
      requires Valid() && ActionFits(a) && !dead
      modifies this, staging, fuse, fuse.ladder, fuse.ladder.window
      ensures Valid() && (State(), r) == Served(cfg, old(State()), a)
    {
      hide FuseRt.Valid, FuseRt.Snapshot, SessionCfg.Valid, FoldedTiming, EpisodeTick, StrayTick, Begun, Ended;
      match a {
        case Hello(_, agrees) =>
          if ep.Some? {
            r := Fail(StateCode);
          } else {
            r := if agrees then HelloOk else Error(EnvelopeCode);
          }
        case Begin(_, run, weightsOk) => r := BeginEpisode(run, weightsOk);
        case DoTick(msg) =>
          if ep.None? {
            r := TickOutside(msg);
          } else {
            r := TickInEpisode(msg);
          }
        case End(_, steps, rest, diskOk) => r := EndEpisode(steps, rest, diskOk);
        case _ => r := ByeOk;
      }
    }

    method NoteIoNs(seqNo: u32, ns: u64)
      requires Valid()
      modifies this`ep
      ensures Valid() && State() == Noted(old(State()), seqNo, ns)
    {
      hide FuseRt.Valid, FuseRt.Snapshot, SessionCfg.Valid;
      if ep.Some? && ep.value.pendingTiming.Some? && ep.value.pendingTiming.value.seqNo == seqNo {
        ep := Some(ep.value.(pendingTiming := Some(ep.value.pendingTiming.value.(ioNs := ns))));
      }
    }
  }
}
