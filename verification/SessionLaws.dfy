/** Theorems over whole runs of a session: its receipts verify, its handoffs are answered one at a time, its acks cannot
    be replayed, and a fault latches. */
module SessionLaws {
  import opened Ints
  import opened Options
  import opened Core
  import opened Unicode
  import opened Jcs
  import opened Fsm
  import opened Tally
  import opened Fuse
  import opened TickFacts
  import opened Chain
  import opened Receipt
  import opened Handoff
  import opened Session

  // ---- what holds between actions ---------------------------------------------------------------------------

  /** Both chains are linked from the genesis, numbered from 0, and as long as the fuse's own count; the timing of the last
      tick may still be waiting. */
  ghost predicate ChainsHold(cfg: SessionCfg, ticked: int, counted: int, ep: Episode) {
    && Linked(cfg.crypto.sha, ep.ticks, ZeroHash()) && Head(ep.ticks, ZeroHash()) == ep.verdictHead
    && Linked(cfg.crypto.sha, ep.timing, ZeroHash()) && Head(ep.timing, ZeroHash()) == ep.timingHead
    && (ep.ticks != [] ==> ep.ticks[0].seqNo == 0) && (ep.timing != [] ==> ep.timing[0].seqNo == 0)
    && ticked == counted == |ep.ticks|
    && |ep.timing| + (if ep.pendingTiming.Some? then 1 else 0) == |ep.ticks|
    && (ep.pendingTiming.Some? ==> ep.pendingTiming.value.seqNo == |ep.ticks| - 1)
  }

  predicate IsResolved(h: Record) { h.resolvedTick.Some? && h.outcome != Unacked }

  /** A record is pending only while the fuse is Escalated or Fault; in Escalated exactly one is, it is the last one and
      carries the fuse's own number; every other record is resolved. */
  predicate OneAtATime(fsm: FsmRt, ep: Episode) {
    && (fsm.state == Escalated ==> ep.pendingHandoff.Some?)
    && (ep.pendingHandoff.Some? ==>
          && (fsm.state == Escalated || fsm.state == Core.Fault)
          && ep.pendingHandoff.value + 1 == |ep.handoffs|
          && ep.handoffs[ep.pendingHandoff.value].seqNo == fsm.handoffSeq)
    && (forall j :: 0 <= j < |ep.handoffs| && ep.pendingHandoff != Some(j) ==> IsResolved(ep.handoffs[j]))
  }

  /** Every record is this episode's, its digest is its content's, and it is bound to the chain head after some tick. */
  ghost predicate RecordHolds(cfg: SessionCfg, ep: Episode, h: Record) {
    && h.id == ep.id && RecordPrints(h) && h.digest == RecordDigest(cfg.crypto.sha, h)
    && exists m :: 0 <= m < |ep.ticks| && h.chainAt == ep.ticks[m].hash
  }

  ghost predicate RecordsHold(cfg: SessionCfg, ep: Episode) {
    forall j :: 0 <= j < |ep.handoffs| ==> RecordHolds(cfg, ep, ep.handoffs[j])
  }

  /** The fuse has recorded no nonce the session has not. */
  predicate NoncesHold(cfg: SessionCfg, lastNonce: seq<u64>, last: map<Str, u64>) {
    |lastNonce| == MAX_OPERATORS && |cfg.operators| <= MAX_OPERATORS
    && forall i :: 0 <= i < |cfg.operators| ==> lastNonce[i] <= NonceOf(last, cfg.operators[i])
  }

  ghost predicate Holds(cfg: SessionCfg, s: Sess) {
    && Session.Fits(cfg, s) && NoncesHold(cfg, s.fuse.fsm.lastNonce, s.lastNonce)
    && (s.ep.Some? ==>
          && OneAtATime(s.fuse.fsm, s.ep.value) && RecordsHold(cfg, s.ep.value)
          && (|s.ep.value.ticks| <= U32_MAX ==> ChainsHold(cfg, s.fuse.seqNo, s.fuse.tally.ticks, s.ep.value)))
  }

  // ---- chains -----------------------------------------------------------------------------------------------

  /** Folding the waiting timing, when its times print, completes the timing chain and leaves the rest alone. */
  lemma FoldKeeps(cfg: SessionCfg, ticked: int, counted: int, ep: Episode)
    requires ChainsHold(cfg, ticked, counted, ep) && |ep.ticks| <= U32_MAX && FoldedTiming(cfg, ep).Some?
    ensures var ep' := FoldedTiming(cfg, ep).value;
            ChainsHold(cfg, ticked, counted, ep') && |ep'.timing| == |ep'.ticks|
  {
    hide GoodFields, Hashed, Linked, TimingFields;
    if ep.pendingTiming.Some? {
      var p := ep.pendingTiming.value;
      TimingFieldsGood(p.decideNs, p.ioNs);
      var e := NewEvent(cfg.crypto.sha, ep.timingHead, p.seqNo, TimingFields(p.decideNs, p.ioNs));
      Appended(cfg.crypto.sha, ep.timing, ZeroHash(), e);
    }
  }

  /** A tick extends the verdict chain by one event with the next number. */
  lemma ChainKeeps(cfg: SessionCfg, ticked: u32, counted: u32, ep: Episode, v: Verdict, decideNs: u64)
    requires cfg.Valid() && ChainsHold(cfg, ticked, counted, ep) && ep.pendingTiming.None? && |ep.ticks| < U32_MAX
    requires v.seqNo == ticked
    ensures var ep' := Chained(cfg, ep, v, decideNs);
            ChainsHold(cfg, Inc32(ticked), Inc32(counted), ep') && |ep'.ticks| == |ep.ticks| + 1
  {
    hide GoodFields, Hashed, Linked;
    var e := NewEvent(cfg.crypto.sha, ep.verdictHead, v.seqNo, cfg.tickBody(v));
    Appended(cfg.crypto.sha, ep.ticks, ZeroHash(), e);
  }

  /** Records and resolutions do not touch the chains. */
  lemma BookedChains(cfg: SessionCfg, ep: Episode, v: Verdict, msg: TickMsg)
    requires cfg.Valid()
    ensures var ep1, ep' := Chained(cfg, ep, v, msg.decideNs), Booked(cfg, ep, v, msg).0;
            && ep'.ticks == ep1.ticks && ep'.timing == ep1.timing && ep'.pendingTiming == ep1.pendingTiming
            && ep'.verdictHead == ep1.verdictHead && ep'.timingHead == ep1.timingHead
  {
    hide NewEvent, NewRecord;
  }

  // ---- handoffs ---------------------------------------------------------------------------------------------

  lemma ChainedFacts(cfg: SessionCfg, ep: Episode, v: Verdict, decideNs: u64)
    requires cfg.Valid()
    ensures var ep1 := Chained(cfg, ep, v, decideNs);
            && ep1.id == ep.id && ep1.handoffs == ep.handoffs && ep1.pendingHandoff == ep.pendingHandoff
            && |ep1.ticks| == |ep.ticks| + 1 && ep1.ticks[..|ep.ticks|] == ep.ticks
            && ep1.ticks[|ep.ticks|].hash == ep1.verdictHead
  {
    hide NewEvent;
  }

  /** Between the resolution of the old record and the opening of a new one. */
  predicate Settled(after: FsmRt, v: Verdict, ep: Episode) {
    && (after.state == Escalated ==> ep.pendingHandoff.Some? || v.handoffSeq.Some?)
    && (ep.pendingHandoff.Some? ==>
          && v.handoffSeq.None? && (after.state == Escalated || after.state == Core.Fault)
          && ep.pendingHandoff.value + 1 == |ep.handoffs|
          && ep.handoffs[ep.pendingHandoff.value].seqNo == after.handoffSeq)
    && (forall j :: 0 <= j < |ep.handoffs| && ep.pendingHandoff != Some(j) ==> IsResolved(ep.handoffs[j]))
  }

  lemma ResolvedSettles(before: FsmRt, after: FsmRt, ep: Episode, v: Verdict, ack: Option<AckToken>)
    requires OneAtATime(before, ep) && HandoffMoves(before, after, v) && (v.ackConsumed ==> ack.Some?)
    ensures Settled(after, v, Resolved(ep, v, ack))
  {
    var ep' := Resolved(ep, v, ack);
    forall j | 0 <= j < |ep'.handoffs| && ep'.pendingHandoff != Some(j) ensures IsResolved(ep'.handoffs[j]) {
      assert ep.pendingHandoff != Some(j) ==> IsResolved(ep.handoffs[j]);
    }
  }

  lemma OpenedDisciplined(cfg: SessionCfg, before: FsmRt, after: FsmRt, ep: Episode, v: Verdict)
    requires cfg.Valid() && Settled(after, v, ep) && HandoffMoves(before, after, v)
    ensures OneAtATime(after, Opened(cfg, ep, v).0)
  {
    hide NewRecord, SessionCfg.Valid;
  }

  lemma BookingKeepsHandoffs(cfg: SessionCfg, before: FsmRt, after: FsmRt, ep: Episode, v: Verdict, msg: TickMsg)
    requires cfg.Valid() && OneAtATime(before, ep) && HandoffMoves(before, after, v) && (v.ackConsumed ==> msg.ack.Some?)
    ensures OneAtATime(after, Booked(cfg, ep, v, msg).0)
  {
    hide SessionCfg.Valid, Chained, Resolved, Opened, HandoffMoves, Settled;
    ChainedFacts(cfg, ep, v, msg.decideNs);
    var ep1 := Chained(cfg, ep, v, msg.decideNs);
    ResolvedSettles(before, after, ep1, v, msg.ack);
    OpenedDisciplined(cfg, before, after, Resolved(ep1, v, msg.ack), v);
  }

  lemma ResolvedKeepsRecords(cfg: SessionCfg, ep: Episode, v: Verdict, ack: Option<AckToken>)
    requires RecordsHold(cfg, ep)
    ensures var ep' := Resolved(ep, v, ack);
            RecordsHold(cfg, ep') && ep'.ticks == ep.ticks && ep'.id == ep.id && ep'.verdictHead == ep.verdictHead
  {
    hide RecordHolds;
    var ep' := Resolved(ep, v, ack);
    forall j | 0 <= j < |ep'.handoffs| ensures RecordHolds(cfg, ep', ep'.handoffs[j]) {
      assert RecordHolds(cfg, ep, ep.handoffs[j]);
      ResolvedKeepsRecord(cfg, ep, ep', ep.handoffs[j], ep'.handoffs[j]);
    }
  }

  lemma OpenedKeepsRecords(cfg: SessionCfg, ep: Episode, v: Verdict, m: nat)
    requires cfg.Valid() && RecordsHold(cfg, ep) && m < |ep.ticks| && ep.ticks[m].hash == ep.verdictHead
    ensures RecordsHold(cfg, Opened(cfg, ep, v).0)
  {
    hide RecordHolds, RecordPrints, RecordDigest;
    if v.handoffSeq.Some? {
      var h := NewRecord(cfg.crypto.sha, ep.id, v.handoffSeq.value, v.t, ep.verdictHead, cfg.recordBody(v));
      NewPrints(h);
      NewRecordHolds(cfg, ep, h, m);
      var ep' := Opened(cfg, ep, v).0;
      hide NewRecord, SessionCfg.Valid;
      forall j | 0 <= j < |ep'.handoffs| ensures RecordHolds(cfg, ep', ep'.handoffs[j]) {
        assert RecordHolds(cfg, ep, ep'.handoffs[j]);
        ResolvedKeepsRecord(cfg, ep, ep', ep'.handoffs[j], ep'.handoffs[j]);
      }
    }
  }

  lemma NewPrints(h: Record)
    requires GoodFields(h.body)
    ensures RecordPrints(h)
  {}

  lemma BookingKeepsRecords(cfg: SessionCfg, ep: Episode, v: Verdict, msg: TickMsg)
    requires cfg.Valid() && RecordsHold(cfg, ep)
    ensures RecordsHold(cfg, Booked(cfg, ep, v, msg).0)
  {
    hide SessionCfg.Valid, Chained, Resolved, Opened, RecordsHold;
    ChainedFacts(cfg, ep, v, msg.decideNs);
    var ep1 := Chained(cfg, ep, v, msg.decideNs);
    ExtendedRecords(cfg, ep, ep1);
    ResolvedKeepsRecords(cfg, ep1, v, msg.ack);
    OpenedKeepsRecords(cfg, Resolved(ep1, v, msg.ack), v, |ep.ticks|);
  }

  lemma NewRecordHolds(cfg: SessionCfg, ep: Episode, h: Record, m: nat)
    requires h.id == ep.id && RecordPrints(h) && h.digest == RecordDigest(cfg.crypto.sha, h) && m < |ep.ticks| && h.chainAt == ep.ticks[m].hash
    ensures RecordHolds(cfg, ep, h)
  {}

  /** The digest does not read the resolution. */
  lemma ResolvedKeepsRecord(cfg: SessionCfg, ep: Episode, ep': Episode, h: Record, h': Record)
    requires RecordHolds(cfg, ep, h) && ep'.ticks == ep.ticks && ep'.id == ep.id
    requires h' == h.(ack := h'.ack, resolvedTick := h'.resolvedTick, outcome := h'.outcome)
    ensures RecordHolds(cfg, ep', h')
  {
    assert RecordJson(h') == RecordJson(h);
  }

  lemma ExtendedRecords(cfg: SessionCfg, ep: Episode, ep': Episode)
    requires RecordsHold(cfg, ep) && ep'.id == ep.id && ep'.handoffs == ep.handoffs && |ep'.ticks| >= |ep.ticks| && ep'.ticks[..|ep.ticks|] == ep.ticks
    ensures RecordsHold(cfg, ep')
  {
    hide RecordPrints, RecordDigest;
    forall j | 0 <= j < |ep'.handoffs| ensures RecordHolds(cfg, ep', ep'.handoffs[j]) {
      var h := ep.handoffs[j];
      assert RecordHolds(cfg, ep, h);
      var m :| 0 <= m < |ep.ticks| && h.chainAt == ep.ticks[m].hash;
      assert ep'.ticks[m] == ep'.ticks[..|ep.ticks|][m];
    }
  }

  // ---- acks -------------------------------------------------------------------------------------------------

  /** An accepted token: its slot is its operator's, its number is the pending record's, its nonce is newer than every
      nonce the session has accepted from that operator. */
  lemma AcceptedToken(cfg: SessionCfg, s: Sess, msg: TickMsg)
    requires Holds(cfg, s) && s.ep.Some? && AcceptedOf(cfg, s, msg).Some?
    ensures msg.ack.Some?
    ensures var a, who := AcceptedOf(cfg, s, msg).value, msg.ack.value.operator;
            && a.operatorSlot < |cfg.operators| && cfg.operators[a.operatorSlot] == who
            && a.nonce == msg.ack.value.nonce > NonceOf(s.lastNonce, who) && a.decision == msg.ack.value.decision
            && s.ep.value.pendingHandoff.Some? && a.handoffSeq == s.fuse.fsm.handoffSeq
  {
    hide SigningBytes, RecordsHold, ChainsHold, Session.Fits;
  }

  /** An ack the session accepts on an admissible tick in Escalated is consumed by the fuse. */
  lemma AcceptedIsConsumed(cfg: SessionCfg, s: Sess, msg: TickMsg)
    requires Holds(cfg, s) && s.ep.Some? && |msg.feats.f| == NFEAT && s.fuse.fsm.state == Escalated
    requires AcceptedOf(cfg, s, msg).Some? && Admissible(cfg.fuse, s.fuse, FedInput(cfg, s, msg))
    ensures Decide(cfg.fuse, s.fuse, FedInput(cfg, s, msg)).1.ackConsumed
  {
    hide Decide, Guard, CheckedAck, StageOf, StagedObs, ChainsHold, RecordsHold, OneAtATime, RtFits;
    AcceptedToken(cfg, s, msg);
    TickAck(cfg.fuse, s.fuse, FedInput(cfg, s, msg));
  }

  /** And no ack is ever consumed in another state: in Held none is pending, so none is accepted. */
  lemma ConsumedOnlyInEscalated(cfg: SessionCfg, s: Sess, msg: TickMsg)
    requires Holds(cfg, s) && s.ep.Some? && |msg.feats.f| == NFEAT
    requires Decide(cfg.fuse, s.fuse, FedInput(cfg, s, msg)).1.ackConsumed
    ensures s.fuse.fsm.state == Escalated && AcceptedOf(cfg, s, msg).Some?
  {
    TickAck(cfg.fuse, s.fuse, FedInput(cfg, s, msg));
    hide Decide, Guard, CheckedAck, StageOf, StagedObs, ChainsHold, RecordsHold;
    NoAckAccepted(s.fuse.fsm);
    if AcceptedOf(cfg, s, msg).Some? {
      AcceptedToken(cfg, s, msg);
    }
  }

  /** The session's map grows at least as fast as the fuse's slots. */
  lemma NonceStep(cfg: SessionCfg, lastNonce: seq<u64>, last: map<Str, u64>, slot: nat, nonce: u64)
    requires NoncesHold(cfg, lastNonce, last) && slot < |cfg.operators| && nonce > NonceOf(last, cfg.operators[slot])
    ensures var last' := last[cfg.operators[slot] := nonce];
            NoncesHold(cfg, lastNonce, last') && NoncesHold(cfg, lastNonce[slot := nonce], last')
  {}

  /** The parts of an episode tick. */
  lemma TickParts(cfg: SessionCfg, s: Sess, msg: TickMsg)
    requires Session.Fits(cfg, s) && s.ep.Some? && |msg.feats.f| == NFEAT
    ensures var s', ack := EpisodeTick(cfg, s, msg).0, AcceptedOf(cfg, s, msg);
            var d := Decide(cfg.fuse, s.fuse, FedInput(cfg, s, msg));
            && s'.fuse == d.0 && s'.ep == Some(Booked(cfg, s.ep.value, d.1, msg).0)
            && s'.lastNonce == if ack.Some? && msg.ack.Some? then s.lastNonce[msg.ack.value.operator := ack.value.nonce] else s.lastNonce
  {
    hide Decide, CheckedAck, StageOf, StagedObs, Booked, Chained;
  }

  lemma HoldsParts(cfg: SessionCfg, s: Sess)
    requires Holds(cfg, s)
    ensures Session.Fits(cfg, s) && cfg.Valid() && RtFits(cfg.fuse, s.fuse) && cfg.fuse.Valid()
    ensures NoncesHold(cfg, s.fuse.fsm.lastNonce, s.lastNonce) && FsmFits(cfg.fuse, s.fuse.fsm)
    ensures s.ep.Some? ==>
              && OneAtATime(s.fuse.fsm, s.ep.value) && RecordsHold(cfg, s.ep.value)
              && (|s.ep.value.ticks| <= U32_MAX ==> ChainsHold(cfg, s.fuse.seqNo, s.fuse.tally.ticks, s.ep.value))
  {
    hide OneAtATime, RecordsHold, ChainsHold, NoncesHold, FuseConfig.Valid;
  }

  lemma TickKeepsNonces(cfg: SessionCfg, s: Sess, msg: TickMsg)
    requires Holds(cfg, s) && s.ep.Some? && |msg.feats.f| == NFEAT
    ensures var s' := EpisodeTick(cfg, s, msg).0; NoncesHold(cfg, s'.fuse.fsm.lastNonce, s'.lastNonce)
  {
    hide Holds, Session.Fits, SessionCfg.Valid, FuseConfig.Valid, RtFits, Decide, Guard, NoncesHold, EpisodeTick, FedInput,
         AcceptedOf;
    HoldsParts(cfg, s);
    TickAck(cfg.fuse, s.fuse, FedInput(cfg, s, msg));
    TickParts(cfg, s, msg);
    FedAck(cfg, s, msg);
    NoAckAccepted(s.fuse.fsm);
    if AcceptedOf(cfg, s, msg).Some? {
      AcceptedToken(cfg, s, msg);
      var a := AcceptedOf(cfg, s, msg).value;
      NonceStep(cfg, s.fuse.fsm.lastNonce, s.lastNonce, a.operatorSlot, a.nonce);
    }
  }

  lemma FedAck(cfg: SessionCfg, s: Sess, msg: TickMsg)
    requires s.ep.Some?
    ensures FedInput(cfg, s, msg).ack == AcceptedOf(cfg, s, msg)
  {
    hide StageOf, StagedObs, CheckedAck;
  }

  // ---- every action keeps what holds --------------------------------------------------------------------------

  lemma TickKeepsEpisode(cfg: SessionCfg, s: Sess, msg: TickMsg)
    requires Holds(cfg, s) && s.ep.Some? && s.ep.value.pendingTiming.None? && |msg.feats.f| == NFEAT
    ensures var s' := EpisodeTick(cfg, s, msg).0;
            && s'.ep.Some? && OneAtATime(s'.fuse.fsm, s'.ep.value) && RecordsHold(cfg, s'.ep.value)
            && (|s'.ep.value.ticks| <= U32_MAX ==> ChainsHold(cfg, s'.fuse.seqNo, s'.fuse.tally.ticks, s'.ep.value))
  {
    hide Holds, Session.Fits, SessionCfg.Valid, RtFits, Decide, EpisodeTick, FedInput, AcceptedOf, HandoffMoves, OneAtATime,
         RecordsHold, Chained, Booked, FuseConfig.Valid;
    HoldsParts(cfg, s);
    var inp := FedInput(cfg, s, msg);
    TickParts(cfg, s, msg);
    TickNumbers(cfg.fuse, s.fuse, inp);
    TickMovesHandoff(cfg.fuse, s.fuse, inp);
    ConsumedHadAck(cfg, s, msg);
    var (rt, v) := Decide(cfg.fuse, s.fuse, inp);
    BookingKeepsHandoffs(cfg, s.fuse.fsm, rt.fsm, s.ep.value, v, msg);
    BookingKeepsRecords(cfg, s.ep.value, v, msg);
    BookedChains(cfg, s.ep.value, v, msg);
    ChainGrows(cfg, s.ep.value, v, msg);
    if |s.ep.value.ticks| < U32_MAX {
      ChainKeeps(cfg, s.fuse.seqNo, s.fuse.tally.ticks, s.ep.value, v, msg.decideNs);
    }
  }

  lemma ChainGrows(cfg: SessionCfg, ep: Episode, v: Verdict, msg: TickMsg)
    requires cfg.Valid()
    ensures |Chained(cfg, ep, v, msg.decideNs).ticks| == |ep.ticks| + 1
  {
    hide NewEvent;
  }

  lemma ConsumedHadAck(cfg: SessionCfg, s: Sess, msg: TickMsg)
    requires Session.Fits(cfg, s) && s.ep.Some? && |msg.feats.f| == NFEAT
    ensures Decide(cfg.fuse, s.fuse, FedInput(cfg, s, msg)).1.ackConsumed ==> msg.ack.Some?
  {
    TickAck(cfg.fuse, s.fuse, FedInput(cfg, s, msg));
    FedAck(cfg, s, msg);
    hide Decide, FedInput, CheckedAck;
    NoAckAccepted(s.fuse.fsm);
  }

  lemma FoldedEpisode(cfg: SessionCfg, ep: Episode)
    requires FoldedTiming(cfg, ep).Some? && RecordsHold(cfg, ep)
    ensures var ep' := FoldedTiming(cfg, ep).value;
            && ep'.pendingTiming.None? && RecordsHold(cfg, ep') && ep'.handoffs == ep.handoffs && ep'.id == ep.id
            && ep'.pendingHandoff == ep.pendingHandoff && ep'.ticks == ep.ticks
  {
    hide NewEvent, RecordsHold;
    ExtendedRecords(cfg, ep, FoldedTiming(cfg, ep).value);
  }

  lemma SameHandoffs(fsm: FsmRt, ep: Episode, ep': Episode)
    requires OneAtATime(fsm, ep) && ep'.handoffs == ep.handoffs && ep'.pendingHandoff == ep.pendingHandoff
    ensures OneAtATime(fsm, ep')
  {}

  lemma FoldedHolds(cfg: SessionCfg, s: Sess)
    requires Holds(cfg, s)
    ensures var s' := Folded(cfg, s);
            && Holds(cfg, s') && s'.lastId == s.lastId && (s'.dead && !s.dead ==> s' == s.(dead := true))
            && (!s'.dead && s'.ep.Some? ==> s'.ep.value.pendingTiming.None?)
  {
    hide ChainsHold, RecordsHold, OneAtATime, SessionCfg.Valid, NoncesHold, RtFits, FoldedTiming;
    if s.ep.Some? && FoldedTiming(cfg, s.ep.value).Some? {
      FoldedEpisode(cfg, s.ep.value);
      SameHandoffs(s.fuse.fsm, s.ep.value, FoldedTiming(cfg, s.ep.value).value);
      if |s.ep.value.ticks| <= U32_MAX {
        FoldKeeps(cfg, s.fuse.seqNo, s.fuse.tally.ticks, s.ep.value);
      }
    }
  }

  /** A fresh fuse has seen no nonce. */
  lemma FreshNonces(cfg: SessionCfg, last: map<Str, u64>)
    requires cfg.Valid()
    ensures NoncesHold(cfg, Fresh(cfg.fuse.dim).fsm.lastNonce, last)
  {
    assert NoNonces() == [0, 0, 0, 0, 0, 0, 0, 0];
  }

  lemma BegunHolds(cfg: SessionCfg, s: Sess, run: RunId, weightsOk: bool)
    requires Holds(cfg, s)
    ensures Holds(cfg, Begun(cfg, s, run, weightsOk).0)
  {
    hide NoncesHold, RtFits;
    FreshNonces(cfg, s.lastNonce);
  }

  lemma StrayHolds(cfg: SessionCfg, s: Sess, msg: TickMsg)
    requires Holds(cfg, s) && s.ep.None? && |msg.feats.f| == NFEAT
    ensures Holds(cfg, StrayTick(cfg, s, msg).0)
  {
    FreshNonces(cfg, s.lastNonce);
    if s.phantom {
      var st := StageOf(cfg.fuse, s.nextSeq, msg);
      var inp := InputOf(msg, st.chunk, None, true);
      TickAck(cfg.fuse, s.fuse, inp);
      NoAckAccepted(s.fuse.fsm);
      assert inp.ack == None;
    }
    hide Decide, Guard, StageOf, StagedObs, NoncesHold, RtFits, Fresh, AcceptedAck;
  }

  lemma ServedHolds(cfg: SessionCfg, s: Sess, a: Action)
    requires Holds(cfg, s) && ActionFits(a) && (s.ep.Some? ==> s.ep.value.pendingTiming.None?)
    ensures Holds(cfg, Served(cfg, s, a).0)
  {
    hide ChainsHold, RecordsHold, OneAtATime, NoncesHold, EpisodeTick, StrayTick, Begun, RtFits;
    match a {
      case Begin(_, run, weightsOk) => BegunHolds(cfg, s, run, weightsOk);
      case DoTick(msg) =>
        if s.ep.None? {
          StrayHolds(cfg, s, msg);
        } else {
          TickKeepsEpisode(cfg, s, msg);
          TickKeepsNonces(cfg, s, msg);
        }
      case _ =>
    }
  }

  /** Every action keeps what holds. */
  lemma StepHolds(cfg: SessionCfg, s: Sess, a: Action)
    requires Holds(cfg, s) && ActionFits(a)
    ensures Holds(cfg, Step(cfg, s, a).0)
  {
    hide Folded, ChainsHold, RecordsHold, OneAtATime, NoncesHold, Served, RtFits;
    if s.dead {
    } else if a.NoteIo? {
      NotedHolds(cfg, s, a.seqNo, a.ns);
    } else {
      FoldedHolds(cfg, s);
      var s1, id := Folded(cfg, s), IdOf(a);
      if !s1.dead && id.Some? && id.value > s1.lastId {
        ServedHolds(cfg, s1.(lastId := id.value), a);
      }
    }
  }

  lemma NotedHolds(cfg: SessionCfg, s: Sess, seqNo: u32, ns: u64)
    requires Holds(cfg, s)
    ensures Holds(cfg, Noted(s, seqNo, ns))
  {
    hide Linked, NoncesHold, RtFits;
    if s.ep.Some? && s.ep.value.pendingTiming.Some? {
      ExtendedRecords(cfg, s.ep.value, s.ep.value.(pendingTiming := None));
      ExtendedRecords(cfg, s.ep.value, Noted(s, seqNo, ns).ep.value);
    }
  }

  // ---- whole runs -------------------------------------------------------------------------------------------

  ghost predicate AllFit(acts: seq<Action>) { forall i :: 0 <= i < |acts| ==> ActionFits(acts[i]) }

  /** The state after a whole sequence of actions, from a new session with any loaded nonces. */
  ghost function After(cfg: SessionCfg, nonces: map<Str, u64>, acts: seq<Action>): (r: Sess)
    requires cfg.Valid() && AllFit(acts)
    ensures Session.Fits(cfg, r)
  {
    if acts == [] then
      FreshFits(cfg.fuse);
      NewSession(cfg, nonces)
    else Step(cfg, After(cfg, nonces, acts[..|acts| - 1]), acts[|acts| - 1]).0
  }

  lemma {:induction false} RunHolds(cfg: SessionCfg, nonces: map<Str, u64>, acts: seq<Action>)
    requires cfg.Valid() && AllFit(acts)
    ensures Holds(cfg, After(cfg, nonces, acts))
  {
    hide Step, OneAtATime, RecordsHold, ChainsHold, NoncesHold;
    if acts == [] {
      FreshNonces(cfg, nonces);
    } else {
      RunHolds(cfg, nonces, acts[..|acts| - 1]);
      StepHolds(cfg, After(cfg, nonces, acts[..|acts| - 1]), acts[|acts| - 1]);
    }
  }

  // ---- every receipt verifies -------------------------------------------------------------------------------

  /** The ticks a known policy keeps pass the verifier's check. */
  lemma KeptVerify(cfg: SessionCfg, ep: Episode, body: Body)
    requires |ep.ticks| <= U32_MAX && Linked(cfg.crypto.sha, ep.ticks, ZeroHash())
    requires Head(ep.ticks, ZeroHash()) == ep.verdictHead && (ep.ticks != [] ==> ep.ticks[0].seqNo == 0)
    requires body.policy == cfg.policy && body.ticks == KeptTicks(cfg.policy, ep.ticks)
    requires body.verdictEvents == |ep.ticks| && body.verdictHead == ep.verdictHead
    ensures EmbeddedOk(cfg.crypto.sha, body) <==> cfg.policy != UnknownPolicy
  {
    hide Good;
    var n := |ep.ticks|;
    if n > 32 {
      Suffix(cfg.crypto.sha, ep.ticks, ZeroHash(), n - 32);
    } else if n > 0 {
      LinkOf(cfg.crypto.sha, ep.ticks, ZeroHash(), 0);
    }
  }

  /** What `sr` says about an episode whose full files are `ticks` and `timing`: its counts are the episode's ticks, its head
      is the chain's, both files verify against it, and it is intact exactly when the host declared that many steps, the
      ticks policy is one the verifier knows, and the expected key, if any, is the session's. */
  ghost predicate Attests(
    cfg: SessionCfg, sr: Signed, ticks: seq<Event>, timing: seq<Event>, steps: u32, wanted: Option<Str>)
  {
    var n := |ticks|;
    && sr.body.countsTicks == sr.body.verdictEvents == sr.body.timingEvents == n && sr.body.steps == steps
    && FileOk(cfg.crypto.sha, sr.body, ticks) && TimingOk(cfg.crypto.sha, sr.body, timing)
    && (ReportOf(cfg.crypto, sr, wanted).Intact()
        <==> steps == n && cfg.policy != UnknownPolicy && (wanted.None? || wanted.value == cfg.crypto.pubkey(cfg.key)))
  }

  /** The receipt `episode_end` builds. */
  lemma EndVerifies(cfg: SessionCfg, s: Sess, steps: u32, rest: J, wanted: Option<Str>)
    requires Holds(cfg, s) && s.ep.Some? && cfg.crypto.Sound() && |s.ep.value.ticks| <= U32_MAX
    requires FoldedTiming(cfg, s.ep.value).Some?
    ensures var ep := FoldedTiming(cfg, s.ep.value).value;
            var sr := SignedBody(cfg, BodyOf(cfg, s, ep, steps, rest));
            ep.ticks == s.ep.value.ticks && (sr.Some? ==> Attests(cfg, sr.value, ep.ticks, ep.timing, steps, wanted))
  {
    FoldKeeps(cfg, s.fuse.seqNo, s.fuse.tally.ticks, s.ep.value);
    var ep := FoldedTiming(cfg, s.ep.value).value;
    KeptVerify(cfg, ep, BodyOf(cfg, s, ep, steps, rest));
    hide OneAtATime, RecordsHold, NoncesHold, RtFits, Linked, EmbeddedOk, Digest;
  }

  /** Over every run, with no bound on the measured times: whatever was requested before, an `episode_end` that produces a
      receipt produces one that verifies, and so do the full tick and timing files written with it. */
  lemma EveryReceiptVerifies(cfg: SessionCfg, nonces: map<Str, u64>, acts: seq<Action>, a: Action, wanted: Option<Str>)
    requires cfg.Valid() && cfg.crypto.Sound() && AllFit(acts) && ActionFits(a)
    requires After(cfg, nonces, acts).ep.Some? ==> |After(cfg, nonces, acts).ep.value.ticks| <= U32_MAX
    ensures var s := After(cfg, nonces, acts); var reply := Step(cfg, s, a).1;
            reply.Receipt? ==>
              && a.End? && s.ep.Some? && FoldedTiming(cfg, s.ep.value).Some?
              && Attests(cfg, reply.sr, s.ep.value.ticks, FoldedTiming(cfg, s.ep.value).value.timing, a.steps, wanted)
  {
    hide After, Step, Holds, Attests, SignedBody, BodyOf, SessionCfg.Valid, FoldedTiming, Folded, Session.Fits, Crypto.Sound;
    RunHolds(cfg, nonces, acts);
    var s := After(cfg, nonces, acts);
    HoldsFits(cfg, s);
    ReceiptOnlyFromEnd(cfg, s, a);
    if Step(cfg, s, a).1.Receipt? {
      EndVerifies(cfg, Folded(cfg, s).(lastId := a.id), a.steps, a.rest, wanted);
    }
  }

  lemma ReceiptOnlyFromEnd(cfg: SessionCfg, s: Sess, a: Action)
    requires Holds(cfg, s) && ActionFits(a)
    ensures Step(cfg, s, a).1.Receipt? ==>
              && a.End? && s.ep.Some? && FoldedTiming(cfg, s.ep.value).Some?
              && var s2 := Folded(cfg, s).(lastId := a.id);
              && s2.ep.Some? && s2.ep.value.ticks == s.ep.value.ticks
              && s2.ep == FoldedTiming(cfg, s.ep.value) && FoldedTiming(cfg, s2.ep.value) == s2.ep && Holds(cfg, s2)
              && SignedBody(cfg, BodyOf(cfg, s2, s2.ep.value, a.steps, a.rest)) == Some(Step(cfg, s, a).1.sr)
  {
    hide Step, Holds, Folded, SignedBody, BodyOf, Session.Fits;
    HoldsFits(cfg, s);
    if Step(cfg, s, a).1.Receipt? {
      ReceiptReply(cfg, s, a);
      FoldedHoldsAt(cfg, s, a.id);
      FoldedOnce(cfg, s);
    }
  }

  lemma ReceiptReply(cfg: SessionCfg, s: Sess, a: Action)
    requires Session.Fits(cfg, s) && ActionFits(a) && Step(cfg, s, a).1.Receipt?
    ensures a.End? && !s.dead && !Folded(cfg, s).dead
    ensures var s2 := Folded(cfg, s).(lastId := a.id);
            && s2.ep.Some? && FoldedTiming(cfg, s2.ep.value).Some?
            && SignedBody(cfg, BodyOf(cfg, s2, FoldedTiming(cfg, s2.ep.value).value, a.steps, a.rest))
               == Some(Step(cfg, s, a).1.sr)
  {
    hide Session.Fits, EpisodeTick, StrayTick, Folded, FoldedTiming, SignedBody, BodyOf, Begun;
  }

  /** A waiting timing is folded once. */
  lemma FoldedOnce(cfg: SessionCfg, s: Sess)
    requires !s.dead && !Folded(cfg, s).dead && Folded(cfg, s).ep.Some?
    ensures s.ep.Some? && FoldedTiming(cfg, s.ep.value) == Folded(cfg, s).ep
    ensures FoldedTiming(cfg, Folded(cfg, s).ep.value) == Folded(cfg, s).ep
    ensures Folded(cfg, s).ep.value.ticks == s.ep.value.ticks
  {
    hide NewEvent;
  }

  // ---- when the process dies ----------------------------------------------------------------------------------

  /** The exact panic: an action other than the I/O note kills a live session if and only if an episode is open whose last
      tick's timing is waiting with a time above 2^53 - 1. */
  lemma DiesExactly(cfg: SessionCfg, s: Sess, a: Action)
    requires Session.Fits(cfg, s) && ActionFits(a) && !s.dead
    ensures Step(cfg, s, a).0.dead
            <==> !a.NoteIo? && s.ep.Some? && s.ep.value.pendingTiming.Some?
                 && !TimesPrint(s.ep.value.pendingTiming.value.decideNs, s.ep.value.pendingTiming.value.ioNs)
  {
    hide RtFits, EpisodeTick, NewEvent, Decide, StageOf, InputOf, SessionCfg.Valid, Fresh, SignedBody, BodyOf;
  }

  /** What a caller can check: no measured time above 2^53 - 1. */
  predicate InRange(a: Action) {
    (a.DoTick? ==> a.msg.decideNs <= MAX_SAFE_INTEGER) && (a.NoteIo? ==> a.ns <= MAX_SAFE_INTEGER)
  }

  predicate WaitingPrints(s: Sess) {
    s.ep.Some? && s.ep.value.pendingTiming.Some? ==>
      TimesPrint(s.ep.value.pendingTiming.value.decideNs, s.ep.value.pendingTiming.value.ioNs)
  }

  /** A tick in an episode leaves its own timing waiting. */
  lemma TickWaits(cfg: SessionCfg, s: Sess, msg: TickMsg)
    requires Session.Fits(cfg, s) && |msg.feats.f| == NFEAT && s.ep.Some?
    ensures var s' := EpisodeTick(cfg, s, msg).0;
            && s'.dead == s.dead && s'.ep.Some? && s'.ep.value.pendingTiming.Some?
            && s'.ep.value.pendingTiming.value.decideNs == msg.decideNs && s'.ep.value.pendingTiming.value.ioNs == 0
  {
    TickParts(cfg, s, msg);
    assert cfg.fuse.Valid();
    hide RtFits, FuseConfig.Valid, Decide, FedInput, Booked, NewEvent, EpisodeTick;
    var v := Decide(cfg.fuse, s.fuse, FedInput(cfg, s, msg)).1;
    BookedChains(cfg, s.ep.value, v, msg);
    ChainedWaits(cfg, s.ep.value, v, msg.decideNs);
  }

  lemma ChainedWaits(cfg: SessionCfg, ep: Episode, v: Verdict, decideNs: u64)
    requires cfg.Valid()
    ensures Chained(cfg, ep, v, decideNs).pendingTiming == Some(PendingTiming(v.seqNo, decideNs, 0))
  {
    hide NewEvent;
  }

  /** Every other request leaves nothing waiting. */
  lemma OthersWaitForNothing(cfg: SessionCfg, s: Sess, a: Action)
    requires Session.Fits(cfg, s) && ActionFits(a) && !s.dead && !a.NoteIo?
    ensures var s1, s' := Folded(cfg, s), Step(cfg, s, a).0;
            !s'.dead && !(a.DoTick? && a.msg.id > s1.lastId && s1.ep.Some?) && s'.ep.Some? ==> s'.ep.value.pendingTiming.None?
  {
    hide RtFits, EpisodeTick, NewEvent, Decide, StageOf, InputOf, SessionCfg.Valid, Fresh, SignedBody, BodyOf;
  }

  lemma NoteStep(cfg: SessionCfg, s: Sess, a: Action)
    requires Session.Fits(cfg, s) && !s.dead && a.NoteIo?
    ensures Step(cfg, s, a).0 == Noted(s, a.seqNo, a.ns)
  {
    hide Session.Fits, Folded, Served;
  }

  lemma InRangeSurvives(cfg: SessionCfg, s: Sess, a: Action)
    requires Session.Fits(cfg, s) && ActionFits(a) && InRange(a) && !s.dead && WaitingPrints(s)
    ensures var s' := Step(cfg, s, a).0; !s'.dead && WaitingPrints(s')
  {
    hide Step, Session.Fits, EpisodeTick, Folded;
    DiesExactly(cfg, s, a);
    if a.NoteIo? {
      NoteStep(cfg, s, a);
    } else {
      var s1 := Folded(cfg, s);
      OthersWaitForNothing(cfg, s, a);
      OnlyTicksTouchNonces(cfg, s, a);
      FoldedFits(cfg, s);
      if a.DoTick? && a.msg.id > s1.lastId && s1.ep.Some? {
        if s1.dead { FoldDies(cfg, s, a); }
        TickWaits(cfg, s1.(lastId := a.msg.id), a.msg);
      }
    }
  }

  lemma FoldedFits(cfg: SessionCfg, s: Sess)
    requires Session.Fits(cfg, s)
    ensures forall id :: Session.Fits(cfg, Folded(cfg, s).(lastId := id))
  {
    hide RtFits, SessionCfg.Valid, FoldedTiming;
  }

  /** A session that dies in folding is dead. */
  lemma FoldDies(cfg: SessionCfg, s: Sess, a: Action)
    requires Session.Fits(cfg, s) && ActionFits(a) && !a.NoteIo? && Folded(cfg, s).dead
    ensures Step(cfg, s, a).0.dead
  {
    hide RtFits, SessionCfg.Valid, FoldedTiming;
  }

  /** A run whose measured times are all at most 2^53 - 1 never dies. */
  lemma {:induction false} TimelyRunsLive(cfg: SessionCfg, nonces: map<Str, u64>, acts: seq<Action>)
    requires cfg.Valid() && AllFit(acts) && forall i :: 0 <= i < |acts| ==> InRange(acts[i])
    ensures !After(cfg, nonces, acts).dead && WaitingPrints(After(cfg, nonces, acts))
  {
    hide Step, InRange, WaitingPrints, Fresh;
    if acts == [] {
      NewIsLive(cfg, nonces);
    } else {
      TimelyRunsLive(cfg, nonces, acts[..|acts| - 1]);
      InRangeSurvives(cfg, After(cfg, nonces, acts[..|acts| - 1]), acts[|acts| - 1]);
    }
  }

  lemma NewIsLive(cfg: SessionCfg, nonces: map<Str, u64>)
    ensures !NewSession(cfg, nonces).dead && WaitingPrints(NewSession(cfg, nonces))
  {}

  /** A slow tick in a live episode, then any request but a note: the process dies. */
  lemma SlowTickThenDies(cfg: SessionCfg, s: Sess, msg: TickMsg, next: Action)
    requires Session.Fits(cfg, s) && !s.dead && s.ep.Some? && s.ep.value.pendingTiming.None? && s.lastId < msg.id
    requires |msg.feats.f| == NFEAT && msg.decideNs > MAX_SAFE_INTEGER && ActionFits(next) && !next.NoteIo?
    ensures Step(cfg, Step(cfg, s, DoTick(msg)).0, next).0.dead
  {
    hide Step, EpisodeTick, Session.Fits;
    NothingToFold(cfg, s);
    OnlyTicksTouchNonces(cfg, s, DoTick(msg));
    FoldedFits(cfg, s);
    TickWaits(cfg, Folded(cfg, s).(lastId := msg.id), msg);
    DiesExactly(cfg, Step(cfg, s, DoTick(msg)).0, next);
  }

  /** Three requests reach the panic: an episode, a tick measured at 2^53 ns or more, and any next request. */
  lemma SlowTickKills(cfg: SessionCfg, nonces: map<Str, u64>, run: RunId, msg: TickMsg)
    requires cfg.Valid() && |msg.feats.f| == NFEAT && msg.id == 2 && msg.decideNs > MAX_SAFE_INTEGER
    ensures AllFit([Begin(1, run, true), DoTick(msg), Bye(3)])
    ensures After(cfg, nonces, [Begin(1, run, true), DoTick(msg), Bye(3)]).dead
  {
    hide Step, Session.Fits, SessionCfg.Valid, After, NewSession;
    var acts := [Begin(1, run, true), DoTick(msg), Bye(3)];
    AfterStep(cfg, nonces, acts, 0);
    AfterStep(cfg, nonces, acts, 1);
    AfterStep(cfg, nonces, acts, 2);
    assert acts[..3] == acts && acts[..0] == [];
    AfterNothing(cfg, nonces);
    BeginsFirst(cfg, nonces, run);
    SlowTickThenDies(cfg, After(cfg, nonces, acts[..1]), msg, Bye(3));
  }

  lemma AfterNothing(cfg: SessionCfg, nonces: map<Str, u64>)
    requires cfg.Valid()
    ensures After(cfg, nonces, []) == NewSession(cfg, nonces)
  {}

  lemma NothingToFold(cfg: SessionCfg, s: Sess)
    ensures s.ep.Some? && s.ep.value.pendingTiming.None? ==> Folded(cfg, s) == s
  {}

  lemma BeginsFirst(cfg: SessionCfg, nonces: map<Str, u64>, run: RunId)
    requires cfg.Valid()
    ensures Session.Fits(cfg, NewSession(cfg, nonces))
    ensures var s := Step(cfg, NewSession(cfg, nonces), Begin(1, run, true)).0;
            !s.dead && s.ep == Some(NewEpisode(run)) && s.lastId == 1
  {
    FreshFits(cfg.fuse);
    hide RtFits, Fresh, SessionCfg.Valid;
  }

  // ---- handoffs and acks over runs ----------------------------------------------------------------------------

  /** Over every run: a record is pending only in Escalated or Fault, Escalated has exactly one, the last, with the fuse's
      number, every other record is resolved, and every record is bound to the head after one of the episode's ticks. */
  lemma HandoffsOneAtATime(cfg: SessionCfg, nonces: map<Str, u64>, acts: seq<Action>)
    requires cfg.Valid() && AllFit(acts)
    ensures var s := After(cfg, nonces, acts); s.ep.Some? ==> OneAtATime(s.fuse.fsm, s.ep.value) && RecordsHold(cfg, s.ep.value)
  {
    RunHolds(cfg, nonces, acts);
    hide After, OneAtATime, RecordsHold, ChainsHold, NoncesHold;
  }

  /** The ack a request gets accepted, if any. */
  ghost function AcceptedBy(cfg: SessionCfg, s: Sess, a: Action): Option<VerifiedAck>
    requires cfg.Valid()
  {
    var s1 := Folded(cfg, s);
    if !s1.dead && a.DoTick? && a.msg.id > s1.lastId && s1.ep.Some? then AcceptedOf(cfg, s1.(lastId := a.msg.id), a.msg) else None
  }

  /** Only a tick inside an episode touches the nonces. */
  lemma OnlyTicksTouchNonces(cfg: SessionCfg, s: Sess, a: Action)
    requires Session.Fits(cfg, s) && ActionFits(a)
    ensures var s1 := Folded(cfg, s);
            && s1.lastNonce == s.lastNonce
            && if !s1.dead && a.DoTick? && a.msg.id > s1.lastId && s1.ep.Some?
               then Step(cfg, s, a).0 == EpisodeTick(cfg, s1.(lastId := a.msg.id), a.msg).0
               else Step(cfg, s, a).0.lastNonce == s.lastNonce
  {
    hide EpisodeTick, FoldedTiming, RtFits, Decide, StageOf, InputOf, SessionCfg.Valid, Fresh,
         SignedBody, BodyOf;
  }

  lemma FoldedHoldsAt(cfg: SessionCfg, s: Sess, id: u64)
    requires Holds(cfg, s)
    ensures Holds(cfg, Folded(cfg, s).(lastId := id))
  {
    FoldedHolds(cfg, s);
    hide OneAtATime, RecordsHold, ChainsHold, NoncesHold, RtFits, SessionCfg.Valid, Folded;
  }

  lemma HoldsFits(cfg: SessionCfg, s: Sess)
    requires Holds(cfg, s)
    ensures Session.Fits(cfg, s)
  {
    hide OneAtATime, RecordsHold, ChainsHold, NoncesHold, RtFits, SessionCfg.Valid;
  }

  lemma Raised(last: map<Str, u64>, op: Str, nonce: u64, who: Str)
    requires nonce > NonceOf(last, op)
    ensures NonceOf(last[op := nonce], who) >= NonceOf(last, who) && NonceOf(last[op := nonce], op) == nonce
  {}

  lemma TickNonces(cfg: SessionCfg, s: Sess, msg: TickMsg, who: Str)
    requires Holds(cfg, s) && s.ep.Some? && |msg.feats.f| == NFEAT
    ensures NonceOf(EpisodeTick(cfg, s, msg).0.lastNonce, who) >= NonceOf(s.lastNonce, who)
    ensures AcceptedOf(cfg, s, msg).Some? ==>
              && msg.ack.Some? && AcceptedOf(cfg, s, msg).value.nonce == msg.ack.value.nonce
              && msg.ack.value.nonce > NonceOf(s.lastNonce, msg.ack.value.operator)
              && NonceOf(EpisodeTick(cfg, s, msg).0.lastNonce, msg.ack.value.operator) == msg.ack.value.nonce
  {
    TickParts(cfg, s, msg);
    hide EpisodeTick, NonceOf, AcceptedOf, Decide, FedInput, Booked;
    if AcceptedOf(cfg, s, msg).Some? {
      AcceptedToken(cfg, s, msg);
      Raised(s.lastNonce, msg.ack.value.operator, msg.ack.value.nonce, who);
    }
  }

  /** A step never lowers a nonce, and an accepted ack's nonce is newer than what was stored and is stored. */
  lemma StepNonces(cfg: SessionCfg, s: Sess, a: Action, who: Str)
    requires Holds(cfg, s) && ActionFits(a)
    ensures NonceOf(Step(cfg, s, a).0.lastNonce, who) >= NonceOf(s.lastNonce, who)
    ensures AcceptedBy(cfg, s, a).Some? ==>
              && a.msg.ack.Some? && AcceptedBy(cfg, s, a).value.nonce == a.msg.ack.value.nonce
              && a.msg.ack.value.nonce > NonceOf(s.lastNonce, a.msg.ack.value.operator)
              && NonceOf(Step(cfg, s, a).0.lastNonce, a.msg.ack.value.operator) == a.msg.ack.value.nonce
  {
    hide Holds, EpisodeTick, Folded, Step, RtFits, AcceptedOf, SessionCfg.Valid, NonceOf;
    HoldsFits(cfg, s);
    OnlyTicksTouchNonces(cfg, s, a);
    var s1 := Folded(cfg, s);
    if !s1.dead && a.DoTick? && a.msg.id > s1.lastId && s1.ep.Some? {
      FoldedHoldsAt(cfg, s, a.msg.id);
      TickNonces(cfg, s1.(lastId := a.msg.id), a.msg, who);
    }
  }

  ghost function AcceptedIn(cfg: SessionCfg, nonces: map<Str, u64>, acts: seq<Action>, i: nat): Option<VerifiedAck>
    requires cfg.Valid() && AllFit(acts) && i < |acts|
  {
    AcceptedBy(cfg, After(cfg, nonces, acts[..i]), acts[i])
  }

  lemma AfterStep(cfg: SessionCfg, nonces: map<Str, u64>, acts: seq<Action>, i: nat)
    requires cfg.Valid() && AllFit(acts) && i < |acts|
    ensures After(cfg, nonces, acts[..i + 1]) == Step(cfg, After(cfg, nonces, acts[..i]), acts[i]).0
  {
    hide Step;
    assert acts[..i + 1][..i] == acts[..i];
  }

  lemma {:induction false} NoncesGrow(cfg: SessionCfg, nonces: map<Str, u64>, acts: seq<Action>, i: nat, j: nat, who: Str)
    requires cfg.Valid() && AllFit(acts) && i <= j <= |acts|
    ensures NonceOf(After(cfg, nonces, acts[..i]).lastNonce, who) <= NonceOf(After(cfg, nonces, acts[..j]).lastNonce, who)
    decreases j
  {
    hide Step, Holds, After;
    if i < j {
      NoncesGrow(cfg, nonces, acts, i, j - 1, who);
      AfterStep(cfg, nonces, acts, j - 1);
      RunHolds(cfg, nonces, acts[..j - 1]);
      StepNonces(cfg, After(cfg, nonces, acts[..j - 1]), acts[j - 1], who);
    }
  }

  /** No replay, across episodes: of two acks accepted from one operator in a run, the later has the larger nonce. */
  lemma AcksNeverReplay(cfg: SessionCfg, nonces: map<Str, u64>, acts: seq<Action>, i: nat, j: nat)
    requires cfg.Valid() && AllFit(acts) && i < j < |acts|
    requires acts[i].DoTick? && acts[j].DoTick? && acts[i].msg.ack.Some? && acts[j].msg.ack.Some?
    requires AcceptedIn(cfg, nonces, acts, i).Some? && AcceptedIn(cfg, nonces, acts, j).Some?
    requires acts[i].msg.ack.value.operator == acts[j].msg.ack.value.operator
    ensures acts[i].msg.ack.value.nonce < acts[j].msg.ack.value.nonce
  {
    hide Step, Holds, After, AcceptedBy;
    var who := acts[i].msg.ack.value.operator;
    RunHolds(cfg, nonces, acts[..i]);
    RunHolds(cfg, nonces, acts[..j]);
    StepNonces(cfg, After(cfg, nonces, acts[..i]), acts[i], who);
    AfterStep(cfg, nonces, acts, i);
    NoncesGrow(cfg, nonces, acts, i + 1, j, who);
    StepNonces(cfg, After(cfg, nonces, acts[..j]), acts[j], who);
  }

  // ---- the fault latch ----------------------------------------------------------------------------------------

  /** A tick that fails staging, or comes after any error in the episode, ends in Fault with the hold action, and the
      latch stays until the episode ends. */
  lemma FaultLatches(cfg: SessionCfg, s: Sess, msg: TickMsg)
    requires Session.Fits(cfg, s) && s.ep.Some? && |msg.feats.f| == NFEAT
    requires s.faulted || StageOf(cfg.fuse, s.nextSeq, msg).error.Some?
    ensures var (s', reply) := EpisodeTick(cfg, s, msg);
            && s'.faulted && s'.fuse.fsm.state == Core.Fault
            && (reply.Answer? ==> reply.v.state == Core.Fault && reply.v.src == SrcHold && !reply.v.ackConsumed)
            && (reply.Error? ==> StageOf(cfg.fuse, s.nextSeq, msg).error.Some?)
  {
    FlaggedIsGuarded(cfg.fuse, s.fuse, FedInput(cfg, s, msg));
    GuardedTick(cfg.fuse, s.fuse, FedInput(cfg, s, msg));
    hide Decide, Guard, CheckedAck, StageOf, StagedObs, Booked, Chained;
  }

  lemma FlaggedIsGuarded(cfg: FuseConfig, rt: Rt, inp: TickInput)
    ensures inp.schemaFault ==> !Admissible(cfg, rt, inp)
  {
    if inp.schemaFault {
      assert SCHEMA in Guard(cfg, rt, inp);
    }
  }
}
