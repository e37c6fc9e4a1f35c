/** The escalation record, the operator's signed answer to it, and what an accepted answer binds. */
module Handoff {
  import opened Ints
  import opened Options
  import opened Core
  import opened Unicode
  import opened Jcs
  import opened JcsReader
  import opened JcsWriter
  import opened Chain

  datatype AckToken = AckToken(
    schema: Str, handoffDigest: Str, decision: AckDecision, operator: Str, nonce: u64, note: Str, sig: Str)

  datatype Outcome = Unacked | Resumed | Aborted | Retuned | TimedOut

  /** The run, the arm and the episode a record is for. */
  datatype RunId = RunId(run: Str, arm: Str, episode: u32)

  /** A record binds its episode and the chain head after the tick that escalated. `body` holds its other digested
      fields. */
  datatype Record = Record(
    id: RunId, seqNo: u32, tick: u32, chainAt: Str, body: RecordFields, digest: Str, ack: Option<AckToken>, resolvedTick: Option<u32>,
    outcome: Outcome)

  datatype AckError = UnknownOperator | BadSignature | WrongHandoff | NonceReplay | NoPendingHandoff | TooLongNote

  const MAX_NOTE_CHARS: nat := 200

  const DIGEST_KEY: Str := [0x68, 0x61, 0x6E, 0x64, 0x6F, 0x66, 0x66, 0x5F, 0x64, 0x69, 0x67, 0x65, 0x73, 0x74]
  const DECISION_KEY: Str := [0x64, 0x65, 0x63, 0x69, 0x73, 0x69, 0x6F, 0x6E]
  const OPERATOR_KEY: Str := [0x6F, 0x70, 0x65, 0x72, 0x61, 0x74, 0x6F, 0x72]
  const NONCE_KEY: Str := [0x6E, 0x6F, 0x6E, 0x63, 0x65]
  const NOTE_KEY: Str := [0x6E, 0x6F, 0x74, 0x65]
  const SCHEMA_KEY: Str := [0x73, 0x63, 0x68, 0x65, 0x6D, 0x61]

  function DecisionName(d: AckDecision): Str {
    match d
    case Resume => [0x72, 0x65, 0x73, 0x75, 0x6D, 0x65]
    case Abort => [0x61, 0x62, 0x6F, 0x72, 0x74]
    case Retune => [0x72, 0x65, 0x74, 0x75, 0x6E, 0x65]
  }

  function AckJson(t: AckToken): J {
    JObject(map[SCHEMA_KEY := JString(t.schema), DIGEST_KEY := JString(t.handoffDigest),
                DECISION_KEY := JString(DecisionName(t.decision)), OPERATOR_KEY := JString(t.operator),
                NONCE_KEY := JInteger(t.nonce), NOTE_KEY := JString(t.note)])
  }

  /** `canon_of`: check the keys, then print. */
  ghost function CanonOfValue(v: J): Result<seq<u8>, CanonError> {
    var e := KeysFault(v, ROOT);
    if e.Some? then Err(e.value) else Canon(v)
  }

  method CanonBytes(v: J) returns (r: Result<seq<u8>, CanonError>)
    ensures r == CanonOfValue(v)
  {
    hide KeysFault, Canon;
    var walker := new KeyWalker();
    var bad := walker.Walk(v);
    if bad.Some? { return Err(bad.value); }
    r := CanonOf(v);
  }

  /** The bytes the operator signs. */
  ghost function SigningBytes(t: AckToken): Result<seq<u8>, CanonError> { CanonOfValue(AckJson(t)) }

  function SlotOf(operators: seq<Str>, who: Str): (r: Option<nat>)
    ensures r.Some? ==> r.value < |operators| && operators[r.value] == who && who !in operators[..r.value]
    ensures r.None? ==> who !in operators
  {
    if operators == [] then None
    else if operators[0] == who then Some(0)
    else
      var r := SlotOf(operators[1..], who);
      if r.None? then None else Some(r.value + 1)
  }

  /** The order of the checks decides which error is reported. `pending` is the digest and number of the unresolved
      record, `last` the operators' last nonces. */
  ghost function AckChecked(
    accepts: (Str, Str, seq<u8>) -> bool, schema: Str, t: AckToken, operators: seq<Str>, pending: Option<(Str, u32)>,
    last: seq<u64>): Result<VerifiedAck, AckError>
  {
    var slot := SlotOf(operators, t.operator);
    var bytes := SigningBytes(t);
    if slot.None? then Err(UnknownOperator)
    else if |t.note| > MAX_NOTE_CHARS then Err(TooLongNote)
    else if t.schema != schema || bytes.Err? || !accepts(t.operator, t.sig, bytes.value) then Err(BadSignature)
    else if pending.None? then Err(NoPendingHandoff)
    else if t.handoffDigest != pending.value.0 then Err(WrongHandoff)
    else if t.nonce <= (if slot.value < |last| then last[slot.value] else 0) then Err(NonceReplay)
    else if slot.value > 0xFF then Err(UnknownOperator)
    else Ok(VerifiedAck(t.decision, slot.value, t.nonce, pending.value.1))
  }

  method VerifyAck(
    accepts: (Str, Str, seq<u8>) -> bool, schema: Str, t: AckToken, operators: seq<Str>, pending: Option<(Str, u32)>,
    last: seq<u64>) returns (r: Result<VerifiedAck, AckError>)
    ensures r == AckChecked(accepts, schema, t, operators, pending, last)
  {
    hide CanonOfValue, AckJson;
    var slot := SlotOf(operators, t.operator);
    if slot.None? { return Err(UnknownOperator); }
    if |t.note| > MAX_NOTE_CHARS { return Err(TooLongNote); }
    if t.schema != schema { return Err(BadSignature); }
    var bytes := CanonBytes(AckJson(t));
    if bytes.Err? { return Err(BadSignature); }
    if !accepts(t.operator, t.sig, bytes.value) { return Err(BadSignature); }
    if pending.None? { return Err(NoPendingHandoff); }
    if t.handoffDigest != pending.value.0 { return Err(WrongHandoff); }
    if t.nonce <= (if slot.value < |last| then last[slot.value] else 0) { return Err(NonceReplay); }
    if slot.value > 0xFF { return Err(UnknownOperator); }
    return Ok(VerifiedAck(t.decision, slot.value, t.nonce, pending.value.1));
  }

  /** The signed bytes pin every signed field: two tokens with the same signing bytes differ at most in the signature. */
  lemma SigningBytesPin(t: AckToken, u: AckToken)
    requires SigningBytes(t).Ok? && SigningBytes(t) == SigningBytes(u)
    ensures t == u.(sig := t.sig)
  {
    hide KeysFault, Canon;
    CanonInjective(AckJson(t), AckJson(u));
    var m, n := AckJson(t).fields, AckJson(u).fields;
    assert m[SCHEMA_KEY] == n[SCHEMA_KEY] && m[DIGEST_KEY] == n[DIGEST_KEY] && m[DECISION_KEY] == n[DECISION_KEY];
    assert m[OPERATOR_KEY] == n[OPERATOR_KEY] && m[NONCE_KEY] == n[NONCE_KEY] && m[NOTE_KEY] == n[NOTE_KEY];
    assert DecisionName(t.decision)[2] == DecisionName(u.decision)[2];
    assert DecisionName(t.decision)[0] == DecisionName(u.decision)[0];
  }

  /** An ack above 2^53 - 1 has no canonical form, so it is refused whatever its signature. */
  lemma LargeNonceRefused(
    accepts: (Str, Str, seq<u8>) -> bool, schema: Str, t: AckToken, operators: seq<Str>, pending: Option<(Str, u32)>,
    last: seq<u64>)
    requires t.nonce > MAX_SAFE_INTEGER
    ensures AckChecked(accepts, schema, t, operators, pending, last).Err?
  {
    hide KeysFault, Text;
    assert !InProfile(AckJson(t).fields[NONCE_KEY]);
    FaultExact(AckJson(t), ROOT);
  }

  // ---- the record's digest ----------------------------------------------------------------------------------

  const TICK_KEY: Str := [0x74, 0x69, 0x63, 0x6B]
  const CHAIN_KEY: Str := [0x63, 0x68, 0x61, 0x69, 0x6E, 0x5F, 0x61, 0x74]

  const RUN_KEY: Str := [0x72, 0x75, 0x6E, 0x5F, 0x69, 0x64]
  const ARM_KEY: Str := [0x61, 0x72, 0x6D, 0x5F, 0x69, 0x64]
  const EPISODE_KEY: Str := [0x65, 0x70, 0x69, 0x73, 0x6F, 0x64, 0x65, 0x5F, 0x69, 0x6E, 0x64, 0x65, 0x78]

  type RecordFields = m: map<Str, J> |
    && SEQ_KEY !in m && TICK_KEY !in m && CHAIN_KEY !in m && RUN_KEY !in m && ARM_KEY !in m && EPISODE_KEY !in m
    witness map[]

  function WithId(h: Record): map<Str, J> {
    h.body[RUN_KEY := JString(h.id.run)][ARM_KEY := JString(h.id.arm)][EPISODE_KEY := JInteger(h.id.episode)]
  }

  /** The digested form: the resolution fields and the digest itself are blank, so attaching an answer leaves the digest
      as it was. Their blank values are constants and are part of `body`. */
  function RecordJson(h: Record): J {
    JObject(WithId(h)[SEQ_KEY := JInteger(h.seqNo)][TICK_KEY := JInteger(h.tick)][CHAIN_KEY := JString(h.chainAt)])
  }

  ghost predicate RecordPrints(h: Record) { GoodFields(h.body) }

  /** The two layers of named fields can be read back and taken away. */
  lemma RecordLayers(h: Record)
    ensures var m, n := WithId(h), RecordJson(h).fields;
            && m[RUN_KEY] == JString(h.id.run) && m[ARM_KEY] == JString(h.id.arm) && m[EPISODE_KEY] == JInteger(h.id.episode)
            && m - {RUN_KEY, ARM_KEY, EPISODE_KEY} == h.body
            && n[SEQ_KEY] == JInteger(h.seqNo) && n[TICK_KEY] == JInteger(h.tick) && n[CHAIN_KEY] == JString(h.chainAt)
            && n - {SEQ_KEY, TICK_KEY, CHAIN_KEY} == m
    ensures GoodFields(RecordJson(h).fields) <==> RecordPrints(h)
  {
    hide GoodFields;
    ThreeFields(h.body, RUN_KEY, JString(h.id.run), ARM_KEY, JString(h.id.arm), EPISODE_KEY, JInteger(h.id.episode));
    ThreeFields(WithId(h), SEQ_KEY, JInteger(h.seqNo), TICK_KEY, JInteger(h.tick), CHAIN_KEY, JString(h.chainAt));
    GoodNames(h);
  }

  /** Each named field prints. */
  lemma GoodNames(h: Record)
    ensures GoodFields(map[RUN_KEY := JString(h.id.run)]) && GoodFields(map[ARM_KEY := JString(h.id.arm)])
    ensures GoodFields(map[EPISODE_KEY := JInteger(h.id.episode)]) && GoodFields(map[SEQ_KEY := JInteger(h.seqNo)])
    ensures GoodFields(map[TICK_KEY := JInteger(h.tick)]) && GoodFields(map[CHAIN_KEY := JString(h.chainAt)])
  {
    assert GoodKey(RUN_KEY) && GoodKey(ARM_KEY) && GoodKey(EPISODE_KEY);
    assert GoodKey(SEQ_KEY) && GoodKey(TICK_KEY) && GoodKey(CHAIN_KEY);
    hide GoodKey;
  }

  ghost function RecordDigest(sha: Sha, h: Record): Str
    requires RecordPrints(h)
  {
    RecordDigestIsOk(sha, h);
    Digest(sha, RecordJson(h)).value
  }

  lemma RecordDigestIsOk(sha: Sha, h: Record)
    ensures Digest(sha, RecordJson(h)).Ok? <==> RecordPrints(h)
  {
    hide Digest, GoodFields;
    RecordLayers(h);
    GoodObject(RecordJson(h).fields);
    DigestExact(sha, RecordJson(h));
  }

  /** The record `handoff_record` builds; `None` is the panic. */
  method MakeRecord(sha: Sha, id: RunId, seqNo: u32, tick: u32, chainAt: Str, body: RecordFields) returns (h: Option<Record>)
    ensures h.None? <==> !GoodFields(body)
    ensures h.Some? ==> h.value == NewRecord(sha, id, seqNo, tick, chainAt, body)
  {
    hide Digest, RecordJson, GoodFields;
    var blank := Record(id, seqNo, tick, chainAt, body, [], None, None, Unacked);
    RecordDigestIsOk(sha, blank);
    var d := DigestOf(sha, RecordJson(blank));
    h := if d.Ok? then Some(blank.(digest := d.value)) else None;
  }

  ghost function NewRecord(sha: Sha, id: RunId, seqNo: u32, tick: u32, chainAt: Str, body: RecordFields): (h: Record)
    requires GoodFields(body)
    ensures h.id == id && h.seqNo == seqNo && h.body == body && h.tick == tick && h.chainAt == chainAt
    ensures h.ack == None && h.outcome == Unacked && h.resolvedTick == None && h.digest == RecordDigest(sha, h)
  {
    var h := Record(id, seqNo, tick, chainAt, body, [], None, None, Unacked);
    h.(digest := RecordDigest(sha, h))
  }

  /** Equal digests mean the same episode, tick, chain head and content. */
  lemma DigestPinsRecord(sha: Sha, h: Record, k: Record)
    requires CollisionFree(sha) && RecordPrints(h) && RecordPrints(k) && RecordDigest(sha, h) == RecordDigest(sha, k)
    ensures h.id == k.id && h.seqNo == k.seqNo && h.tick == k.tick && h.chainAt == k.chainAt && h.body == k.body
  {
    hide Digest, Canon, RecordPrints, GoodFields;
    RecordDigestIsOk(sha, h);
    RecordDigestIsOk(sha, k);
    DigestExact(sha, RecordJson(h));
    DigestExact(sha, RecordJson(k));
    CanonInjective(RecordJson(h), RecordJson(k));
    RecordLayers(h);
    RecordLayers(k);
    hide RecordJson, WithId;
  }

  /** An answer given for one episode is refused in every other: whatever the operators, nonces and signature, a token
      bound to record `h` is not accepted while a record of another run, arm or episode is pending. */
  lemma AckRefusedElsewhere(
    sha: Sha, accepts: (Str, Str, seq<u8>) -> bool, schema: Str, t: AckToken, operators: seq<Str>, last: seq<u64>,
    h: Record, k: Record)
    requires CollisionFree(sha) && RecordPrints(h) && RecordPrints(k)
    requires h.digest == RecordDigest(sha, h) && k.digest == RecordDigest(sha, k)
    requires t.handoffDigest == h.digest && h.id != k.id
    ensures AckChecked(accepts, schema, t, operators, Some((k.digest, k.seqNo)), last).Err?
  {
    hide CanonOfValue, RecordDigest, RecordPrints, SlotOf, AckJson, CollisionFree;
    if t.handoffDigest == k.digest {
      DigestPinsRecord(sha, h, k);
    }
  }

  /** An operator's answer binds the whole fuse history it was given for: if one token answers two records, each bound to
      the head of a verified chain, then the records agree in every digested field and the two chains are equal tick by
      tick. */
  lemma AckBindsHistory(
    sha: Sha, accepts: (Str, Str, seq<u8>) -> bool, schema: Str, t: AckToken, operators: seq<Str>, last: seq<u64>,
    h: Record, a: seq<Event>, last': seq<u64>, k: Record, b: seq<Event>)
    requires CollisionFree(sha) && NotAHash(sha, ZeroHash()) && RecordPrints(h) && RecordPrints(k)
    requires h.digest == RecordDigest(sha, h) && k.digest == RecordDigest(sha, k)
    requires Linked(sha, a, ZeroHash()) && h.chainAt == Head(a, ZeroHash())
    requires Linked(sha, b, ZeroHash()) && k.chainAt == Head(b, ZeroHash())
    requires AckChecked(accepts, schema, t, operators, Some((h.digest, h.seqNo)), last).Ok?
    requires AckChecked(accepts, schema, t, operators, Some((k.digest, k.seqNo)), last').Ok?
    ensures h.id == k.id && h.seqNo == k.seqNo && h.tick == k.tick && h.body == k.body && a == b
  {
    hide CanonOfValue, RecordDigest, RecordPrints, Linked, SlotOf, AckJson, CollisionFree, NotAHash;
    DigestPinsRecord(sha, h, k);
    HeadPinsChain(sha, a, b, ZeroHash());
  }
}
