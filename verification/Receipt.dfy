/** What a receipt binds, and the checks a verifier makes of it. */
module Receipt {
  import opened Ints
  import opened Options
  import opened Unicode
  import opened Jcs
  import opened Chain

  datatype TicksPolicy = KeepAll | KeepTail32 | KeepNone | UnknownPolicy

  /** The fields the checks read; `rest` stands for the others, all covered by the signature. */
  datatype Body = Body(
    schemaOk: bool, envelope: J, envelopeDigest: Str, countsTicks: u32, steps: u32, verdictEvents: u32, verdictHead: Str,
    timingEvents: u32, timingHead: Str, policy: TicksPolicy, ticks: seq<Event>, rest: J)

  datatype Signed = Signed(body: Body, digest: Str, pubkey: Str, sig: Str)

  /** The hash, the canonical bytes of a body (or why it has none), and the signature scheme are parameters. */
  datatype Crypto = Crypto(
    sha: Sha, bytes: Body -> Result<seq<u8>, CanonError>, sign: (seq<u8>, seq<u8>) -> Str, pubkey: seq<u8> -> Str,
    accepts: (Str, Str, seq<u8>) -> bool)
  {
    /** A signature verifies under its own key. */
    ghost predicate Sound() { forall key, b :: accepts(pubkey(key), sign(key, b), b) }
  }

  function ExpectedLen(p: TicksPolicy, n: u32): nat {
    match p
    case KeepAll => n
    case KeepTail32 => if n < 32 then n else 32
    case _ => 0
  }

  function Genesis(body: Body): Str
    requires body.ticks != []
  {
    if body.policy == KeepAll then ZeroHash() else body.ticks[0].prev
  }

  /** The embedded ticks are what the policy asks for, and they chain to the signed head. */
  ghost predicate EmbeddedOk(sha: Sha, body: Body) {
    && body.policy != UnknownPolicy && |body.ticks| == ExpectedLen(body.policy, body.verdictEvents)
    && (body.verdictEvents == 0 ==> body.verdictHead == ZeroHash())
    && (body.ticks != [] ==>
          && Linked(sha, body.ticks, Genesis(body)) && Head(body.ticks, Genesis(body)) == body.verdictHead
          && (body.policy == KeepTail32 ==> body.ticks[0].seqNo == body.verdictEvents - |body.ticks|))
  }

  /** The check walks ticks among which one does not print. */
  ghost predicate EmbeddedPanics(body: Body) {
    && body.policy != UnknownPolicy && |body.ticks| == ExpectedLen(body.policy, body.verdictEvents) && body.ticks != []
    && Panics(body.ticks, Genesis(body))
  }

  datatype EmbeddedResult = EmbeddedResult(ok: bool, breakAt: Option<u32>)

  /** `check_embedded_ticks`, with the number it reports; `None` is the panic. */
  method CheckEmbedded(sha: Sha, body: Body) returns (r: Option<EmbeddedResult>)
    ensures r.None? <==> EmbeddedPanics(body)
    ensures r.Some? ==> r.value.ok == EmbeddedOk(sha, body) && (r.value.ok ==> r.value.breakAt.None?)
    ensures r.Some? && body.ticks != [] && |body.ticks| == ExpectedLen(body.policy, body.verdictEvents) ==>
              (Linked(sha, body.ticks, Genesis(body)) && !r.value.ok ==>
                 r.value.breakAt
                 == Some(if body.policy == KeepTail32 && body.ticks[0].seqNo != body.verdictEvents - |body.ticks|
                         then body.ticks[0].seqNo else body.ticks[|body.ticks| - 1].seqNo))
  {
    hide Good, Panics;
    if body.policy == UnknownPolicy || |body.ticks| != ExpectedLen(body.policy, body.verdictEvents) {
      return Some(EmbeddedResult(false, None));
    }
    if body.ticks == [] {
      return Some(EmbeddedResult(!(body.verdictEvents == 0 && body.verdictHead != ZeroHash()), None));
    }
    var report := Walk(sha, body.ticks, Genesis(body));
    if report.None? {
      return None;
    }
    if !report.value.ok {
      return Some(EmbeddedResult(false, report.value.breakAt));
    }
    if body.policy == KeepTail32 && body.ticks[0].seqNo != body.verdictEvents - |body.ticks| {
      return Some(EmbeddedResult(false, Some(body.ticks[0].seqNo)));
    }
    if report.value.head != body.verdictHead {
      return Some(EmbeddedResult(false, Some(body.ticks[|body.ticks| - 1].seqNo)));
    }
    return Some(EmbeddedResult(true, None));
  }

  datatype VerifyReport = VerifyReport(
    schemaOk: bool, sigOk: bool, digestOk: bool, ticksOk: bool, pubkeyOk: bool, envelopeDigestOk: bool, countsOk: bool)
  {
    predicate Intact() { schemaOk && sigOk && digestOk && ticksOk && pubkeyOk && envelopeDigestOk && countsOk }
  }

  predicate CountsOk(body: Body) {
    body.countsTicks == body.verdictEvents == body.timingEvents == body.steps
  }

  /** `verify`, without the notes and the fuse's own evaluation, which `intact` does not read. A body without canonical
      bytes fails both the digest and the signature. */
  ghost function ReportOf(crypto: Crypto, sr: Signed, wanted: Option<Str>): VerifyReport {
    var bytes := crypto.bytes(sr.body);
    VerifyReport(
      sr.body.schemaOk, bytes.Ok? && crypto.accepts(sr.pubkey, sr.sig, bytes.value),
      bytes.Ok? && crypto.sha(bytes.value) == sr.digest, EmbeddedOk(crypto.sha, sr.body),
      wanted.None? || wanted.value == sr.pubkey, Digest(crypto.sha, sr.body.envelope) == Ok(sr.body.envelopeDigest),
      CountsOk(sr.body))
  }

  /** `None` is the panic. */
  method Verify(crypto: Crypto, sr: Signed, wanted: Option<Str>) returns (r: Option<VerifyReport>)
    ensures r.None? <==> EmbeddedPanics(sr.body)
    ensures r.Some? ==> r.value == ReportOf(crypto, sr, wanted)
  {
    hide EmbeddedOk, EmbeddedPanics;
    var ticks := CheckEmbedded(crypto.sha, sr.body);
    if ticks.None? {
      return None;
    }
    var envelope := DigestOf(crypto.sha, sr.body.envelope);
    var bytes := crypto.bytes(sr.body);
    var sigOk, digestOk := false, false;
    if bytes.Ok? {
      sigOk, digestOk := crypto.accepts(sr.pubkey, sr.sig, bytes.value), crypto.sha(bytes.value) == sr.digest;
    }
    r := Some(VerifyReport(sr.body.schemaOk, sigOk, digestOk, ticks.value.ok, wanted.None? || wanted.value == sr.pubkey,
                           envelope == Ok(sr.body.envelopeDigest), CountsOk(sr.body)));
  }

  // ---- a full ticks file against a receipt ------------------------------------------------------------------

  datatype TicksError = BrokenAt(seqNo: u32) | WrongCount | HeadMismatch | TailMismatch | TailMissing | Panicked

  ghost predicate FileOk(sha: Sha, body: Body, file: seq<Event>) {
    Linked(sha, file, ZeroHash()) && |file| % 0x1_0000_0000 == body.verdictEvents && Head(file, ZeroHash()) == body.verdictHead
  }

  /** The cross-check of the embedded tail: the first event of that number carries the same links. */
  predicate TailMatches(body: Body, file: seq<Event>) {
    body.ticks != [] ==>
      exists i :: 0 <= i < |file| && file[i].seqNo == body.ticks[0].seqNo
                  && (forall j :: 0 <= j < i ==> file[j].seqNo != body.ticks[0].seqNo)
                  && file[i].prev == body.ticks[0].prev && file[i].hash == body.ticks[0].hash
  }

  /** `check_ticks` after its header check. */
  method CheckTicks(sha: Sha, body: Body, file: seq<Event>) returns (e: Option<TicksError>)
    ensures e == Some(Panicked) <==> Panics(file, ZeroHash())
    ensures e.None? <==> FileOk(sha, body, file) && TailMatches(body, file)
    ensures e.Some? && (e.value == TailMismatch || e.value == TailMissing) ==> FileOk(sha, body, file)
  {
    hide Good, Panics;
    var walked := Walk(sha, file, ZeroHash());
    if walked.None? {
      NoPanicWhenLinked(sha, file);
      return Some(Panicked);
    }
    var report := walked.value;
    if !report.ok { return Some(BrokenAt(report.breakAt.value)); }
    if report.n != body.verdictEvents { return Some(WrongCount); }
    if report.head != body.verdictHead { return Some(HeadMismatch); }
    if body.ticks != [] {
      var first := body.ticks[0];
      var i := 0;
      while i < |file| && file[i].seqNo != first.seqNo
        invariant i <= |file| && forall j :: 0 <= j < i ==> file[j].seqNo != first.seqNo
      {
        i := i + 1;
      }
      if i == |file| { return Some(TailMissing); }
      if file[i].prev != first.prev || file[i].hash != first.hash { return Some(TailMismatch); }
    }
    return None;
  }

  ghost predicate TimingOk(sha: Sha, body: Body, file: seq<Event>) {
    Linked(sha, file, ZeroHash()) && |file| % 0x1_0000_0000 == body.timingEvents && Head(file, ZeroHash()) == body.timingHead
  }

  /** `check_timing` after its header check. A supplied time above 2^53 - 1 panics it. */
  method CheckTiming(sha: Sha, body: Body, file: seq<Event>) returns (e: Option<TicksError>)
    ensures e == Some(Panicked) <==> Panics(file, ZeroHash())
    ensures e.None? <==> TimingOk(sha, body, file)
  {
    hide Good, Panics;
    NoPanicWhenLinked(sha, file);
    var walked := Walk(sha, file, ZeroHash());
    if walked.None? { return Some(Panicked); }
    if !walked.value.ok { return Some(BrokenAt(walked.value.breakAt.value)); }
    if walked.value.n != body.timingEvents { return Some(WrongCount); }
    if walked.value.head != body.timingHead { return Some(HeadMismatch); }
    return None;
  }

  lemma NoPanicWhenLinked(sha: Sha, file: seq<Event>)
    ensures Panics(file, ZeroHash()) ==> !Linked(sha, file, ZeroHash())
  {
    hide Panics, Good;
    if Linked(sha, file, ZeroHash()) {
      LinkedNeverPanics(sha, file, ZeroHash());
    }
  }

  /** When the receipt's own ticks verify and a full file verifies to the same head and count, the embedded ticks are
      exactly the end of the file, so the cross-check of the tail cannot fail. */
  lemma EmbeddedIsFileTail(sha: Sha, body: Body, file: seq<Event>)
    requires CollisionFree(sha) && |file| < 0x1_0000_0000
    requires EmbeddedOk(sha, body) && FileOk(sha, body, file)
    ensures |body.ticks| <= |file| && body.ticks == file[|file| - |body.ticks|..]
    ensures TailMatches(body, file)
  {
    hide Hashed;
    var k := |file| - |body.ticks|;
    if body.ticks != [] {
      TailIsSuffix(sha, file, ZeroHash(), body.ticks, Genesis(body));
      assert file[k] == body.ticks[0];
      forall j | 0 <= j < k ensures file[j].seqNo != file[k].seqNo {
        assert Good(sha, file, ZeroHash(), j) && Good(sha, file, ZeroHash(), k);
        Distinct(file[0].seqNo, j, k);
      }
    }
  }

  lemma Distinct(s: u32, j: nat, k: nat)
    requires j < k < 0x1_0000_0000
    ensures (s + j) % 0x1_0000_0000 != (s + k) % 0x1_0000_0000
  {}
}
