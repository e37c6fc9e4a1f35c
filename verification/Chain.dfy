/** The hash chains of a receipt: events linked by hashes of their canonical JSON. */
module Chain {
  import opened Ints
  import opened Options
  import opened Unicode
  import opened Jcs
  import opened JcsReader
  import opened JcsWriter

  /** The hash is a parameter of the model. */
  type Sha = seq<u8> -> Str

  ghost predicate CollisionFree(sha: Sha) { forall a, b :: sha(a) == sha(b) ==> a == b }

  /** Sixty-four zeros: the genesis of both chains. */
  function ZeroHash(): (r: Str)
    ensures |r| == 64
  {
    seq(64, _ => 0x30)
  }

  const SEQ_KEY: Str := [0x73, 0x65, 0x71]
  const PREV_KEY: Str := [0x70, 0x72, 0x65, 0x76]
  const HASH_KEY: Str := [0x68, 0x61, 0x73, 0x68]

  /** An event's fields beside its number and its links. */
  type Fields = m: map<Str, J> | SEQ_KEY !in m && PREV_KEY !in m && HASH_KEY !in m witness map[]

  /** A tick or timing event: its number, its other fields as JSON, and its two links. */
  datatype Event = Event(seqNo: u32, body: Fields, prev: Str, hash: Str)

  /** Every field prints: keys are printable ASCII and numbers are integers a double holds. */
  ghost predicate GoodFields(m: map<Str, J>) { forall k :: k in m ==> GoodKey(k) && GoodKeys(m[k]) && InProfile(m[k]) }

  lemma GoodObject(m: map<Str, J>)
    ensures GoodFields(m) <==> GoodKeys(JObject(m)) && InProfile(JObject(m))
  {}

  lemma GoodJoin(m: map<Str, J>, a: Str, x: J)
    requires a !in m
    ensures GoodFields(m[a := x]) <==> GoodFields(m) && GoodFields(map[a := x])
  {
    hide GoodKey, GoodKeys, InProfile;
    var n := m[a := x];
    assert forall k :: k in m ==> k in n && n[k] == m[k];
    assert n[a] == x && map[a := x][a] == x;
  }

  /** Three fields added to a map can be read back and taken away. */
  lemma ThreeFields(m: map<Str, J>, a: Str, x: J, b: Str, y: J, c: Str, z: J)
    requires a !in m && b !in m && c !in m && a != b && a != c && b != c
    ensures var n := m[a := x][b := y][c := z];
            n[a] == x && n[b] == y && n[c] == z && n - {a, b, c} == m
    ensures GoodFields(map[a := x]) && GoodFields(map[b := y]) && GoodFields(map[c := z]) ==>
              (GoodFields(m[a := x][b := y][c := z]) <==> GoodFields(m))
  {
    hide GoodFields;
    GoodJoin(m, a, x);
    GoodJoin(m[a := x], b, y);
    GoodJoin(m[a := x][b := y], c, z);
  }

  /** The event's JSON with the hash blanked. */
  function Blanked(e: Event): J {
    JObject(e.body[SEQ_KEY := JInteger(e.seqNo)][PREV_KEY := JString(e.prev)][HASH_KEY := JString([])])
  }

  /** `digest_of`: check the keys, print, hash. */
  ghost function Digest(sha: Sha, v: J): Result<Str, CanonError> {
    var e := KeysFault(v, ROOT);
    if e.Some? then Err(e.value)
    else
      var bytes := Canon(v);
      if bytes.Err? then Err(bytes.error) else Ok(sha(bytes.value))
  }

  /** A digest exists exactly when the keys are printable and the numbers are in the profile. */
  lemma DigestExact(sha: Sha, v: J)
    ensures Digest(sha, v).Ok? <==> GoodKeys(v) && InProfile(v)
    ensures Digest(sha, v).Ok? ==> Canon(v).Ok? && Digest(sha, v) == Ok(sha(Canon(v).value))
  {
    hide GoodKeys, InProfile, KeysFault, Fault, Text;
    KeysFaultExact(v, ROOT);
    FaultExact(v, ROOT);
  }

  /** The recomputed hash of an event; where it is an error, the program panics. */
  ghost function Hashed(sha: Sha, e: Event): Result<Str, CanonError> { Digest(sha, Blanked(e)) }

  /** Hashing an event panics exactly when one of its own fields does not print. */
  lemma HashedExact(sha: Sha, e: Event)
    ensures Hashed(sha, e).Ok? <==> GoodFields(e.body)
  {
    hide GoodKeys, InProfile, Digest;
    DigestExact(sha, Blanked(e));
    GoodObject(Blanked(e).fields);
    GoodLinks(e);
    ThreeFields(e.body, SEQ_KEY, JInteger(e.seqNo), PREV_KEY, JString(e.prev), HASH_KEY, JString([]));
  }

  lemma GoodLinks(e: Event)
    ensures GoodFields(map[SEQ_KEY := JInteger(e.seqNo)]) && GoodFields(map[PREV_KEY := JString(e.prev)])
    ensures GoodFields(map[HASH_KEY := JString([])])
  {
    assert GoodKey(SEQ_KEY) && GoodKey(PREV_KEY) && GoodKey(HASH_KEY);
  }

  method DigestOf(sha: Sha, v: J) returns (r: Result<Str, CanonError>)
    ensures r == Digest(sha, v)
  {
    hide KeysFault, Fault, Text, Canon;
    var walker := new KeyWalker();
    var bad := walker.Walk(v);
    if bad.Some? { return Err(bad.value); }
    var bytes := CanonOf(v);
    if bytes.Err? { return Err(bytes.error); }
    return Ok(sha(bytes.value));
  }

  /** `recompute_hash`; `None` is the panic. */
  method RecomputeHash(sha: Sha, e: Event) returns (h: Option<Str>)
    ensures h.None? <==> !GoodFields(e.body)
    ensures h.Some? ==> Hashed(sha, e) == Ok(h.value)
  {
    hide Digest, Blanked, GoodFields;
    HashedExact(sha, e);
    var r := DigestOf(sha, Blanked(e));
    h := if r.Ok? then Some(r.value) else None;
  }

  ghost function NewEvent(sha: Sha, prev: Str, seqNo: u32, body: Fields): (e: Event)
    requires GoodFields(body)
    ensures e.seqNo == seqNo && e.prev == prev && e.body == body && Hashed(sha, e) == Ok(e.hash)
  {
    var e := Event(seqNo, body, prev, []);
    HashedExact(sha, e);
    e.(hash := Hashed(sha, e).value)
  }

  /** `tick_event` and `timing_event`; `None` is the panic. */
  method MakeEvent(sha: Sha, prev: Str, seqNo: u32, body: Fields) returns (e: Option<Event>)
    ensures e.None? <==> !GoodFields(body)
    ensures e.Some? ==> e.value == NewEvent(sha, prev, seqNo, body)
  {
    hide Hashed, GoodFields;
    var blank := Event(seqNo, body, prev, []);
    var h := RecomputeHash(sha, blank);
    e := if h.Some? then Some(blank.(hash := h.value)) else None;
  }

  /** Equal recomputed hashes mean equal events, up to the stored hash. */
  lemma HashPinsEvent(sha: Sha, a: Event, b: Event)
    requires CollisionFree(sha) && Hashed(sha, a).Ok? && Hashed(sha, a) == Hashed(sha, b)
    ensures a == b.(hash := a.hash)
  {
    hide Digest, Canon, GoodFields;
    DigestExact(sha, Blanked(a));
    DigestExact(sha, Blanked(b));
    CanonInjective(Blanked(a), Blanked(b));
    ThreeFields(a.body, SEQ_KEY, JInteger(a.seqNo), PREV_KEY, JString(a.prev), HASH_KEY, JString([]));
    ThreeFields(b.body, SEQ_KEY, JInteger(b.seqNo), PREV_KEY, JString(b.prev), HASH_KEY, JString([]));
  }

  // ---- timing events ----------------------------------------------------------------------------------------

  const DECIDE_KEY: Str := [0x64, 0x65, 0x63, 0x69, 0x64, 0x65, 0x5F, 0x6E, 0x73]
  const IO_KEY: Str := [0x69, 0x6F, 0x5F, 0x6E, 0x73]

  /** A timing event carries two measured times as bare integers. */
  function TimingFields(decideNs: u64, ioNs: u64): Fields {
    map[DECIDE_KEY := JInteger(decideNs), IO_KEY := JInteger(ioNs)]
  }

  predicate TimesPrint(decideNs: u64, ioNs: u64) { decideNs <= MAX_SAFE_INTEGER && ioNs <= MAX_SAFE_INTEGER }

  /** "Float-free and key-clean by construction" is not enough: hashing a timing event panics if and only if one of its
      times is above 2^53 - 1. */
  lemma TimingPanics(sha: Sha, prev: Str, seqNo: u32, decideNs: u64, ioNs: u64, hash: Str)
    ensures Hashed(sha, Event(seqNo, TimingFields(decideNs, ioNs), prev, hash)).Ok? <==> TimesPrint(decideNs, ioNs)
  {
    hide Hashed;
    HashedExact(sha, Event(seqNo, TimingFields(decideNs, ioNs), prev, hash));
    TimingFieldsGood(decideNs, ioNs);
  }

  lemma TimingFieldsGood(decideNs: u64, ioNs: u64)
    ensures GoodFields(TimingFields(decideNs, ioNs)) <==> TimesPrint(decideNs, ioNs)
  {
    var m := TimingFields(decideNs, ioNs);
    assert GoodKey(DECIDE_KEY) && GoodKey(IO_KEY);
    assert m[DECIDE_KEY] == JInteger(decideNs) && m[IO_KEY] == JInteger(ioNs);
    assert InProfile(m[DECIDE_KEY]) <==> decideNs <= MAX_SAFE_INTEGER;
    assert InProfile(m[IO_KEY]) <==> ioNs <= MAX_SAFE_INTEGER;
  }

  // ---- chains ---------------------------------------------------------------------------------------------

  function PrevOf(es: seq<Event>, genesis: Str, i: nat): Str
    requires i <= |es|
  {
    if i == 0 then genesis else es[i - 1].hash
  }

  /** The hash of the last event. */
  function Head(es: seq<Event>, genesis: Str): Str { PrevOf(es, genesis, |es|) }

  /** Sequence numbers continue the first one's, modulo 2^32. */
  function SeqAt(es: seq<Event>, i: nat): u32
    requires i < |es|
  {
    (es[0].seqNo + i) % 0x1_0000_0000
  }

  /** Number and link are right, so the walk goes on to recompute the hash. */
  predicate Reached(es: seq<Event>, genesis: Str, i: nat)
    requires i < |es|
  {
    es[i].seqNo == SeqAt(es, i) && es[i].prev == PrevOf(es, genesis, i)
  }

  ghost predicate Good(sha: Sha, es: seq<Event>, genesis: Str, i: nat)
    requires i < |es|
  {
    Reached(es, genesis, i) && Hashed(sha, es[i]) == Ok(es[i].hash)
  }

  ghost predicate Linked(sha: Sha, es: seq<Event>, genesis: Str) {
    forall i :: 0 <= i < |es| ==> Good(sha, es, genesis, i)
  }

  /** The walk recomputes the hash of an event that does not print. */
  ghost predicate Panics(es: seq<Event>, genesis: Str) {
    exists i :: 0 <= i < |es| && Reached(es, genesis, i) && !GoodFields(es[i].body)
  }

  datatype ChainReport = ChainReport(ok: bool, breakAt: Option<u32>, head: Str, n: u32)

  /** `verify_tick_chain` and `verify_timing_chain`. `None` is the panic, on exactly the chains on which the walk hashes an
      event that does not print. Otherwise the report is `ok` exactly on a linked chain, `break_at` is the number expected at
      the first bad event, and the head is the last stored hash. */
  method Walk(sha: Sha, es: seq<Event>, genesis: Str) returns (r: Option<ChainReport>)
    ensures r.None? <==> Panics(es, genesis)
    ensures r.Some? ==>
              && r.value.ok == Linked(sha, es, genesis) == r.value.breakAt.None?
              && r.value.head == Head(es, genesis) && r.value.n == |es| % 0x1_0000_0000
    ensures r.Some? && r.value.breakAt.Some? ==>
              exists i :: 0 <= i < |es| && !Good(sha, es, genesis, i) && r.value.breakAt.value == SeqAt(es, i)
                          && forall j :: 0 <= j < i ==> Good(sha, es, genesis, j)
  {
    hide GoodFields, Hashed;
    var prev := genesis;
    var breakAt: Option<u32> := None;
    ghost var firstBad: nat := |es|;
    var i := 0;
    while i < |es|
      invariant i <= |es| && prev == PrevOf(es, genesis, i)
      invariant forall j :: 0 <= j < i && Reached(es, genesis, j) ==> GoodFields(es[j].body)
      invariant breakAt.None? ==> firstBad == |es| && forall j :: 0 <= j < i ==> Good(sha, es, genesis, j)
      invariant breakAt.Some? ==>
                  && firstBad < i && !Good(sha, es, genesis, firstBad) && breakAt.value == SeqAt(es, firstBad)
                  && forall j :: 0 <= j < firstBad ==> Good(sha, es, genesis, j)
    {
      var e := es[i];
      var expected := (es[0].seqNo + i) % 0x1_0000_0000;
      var good := e.seqNo == expected && e.prev == prev;
      if good {
        var hash := RecomputeHash(sha, e);
        if hash.None? {
          assert Reached(es, genesis, i);
          return None;
        }
        good := hash.value == e.hash;
      }
      if !good && breakAt.None? {
        breakAt := Some(if e.seqNo == expected then e.seqNo else expected);
        firstBad := i;
      }
      prev := e.hash;
      i := i + 1;
    }
    if breakAt.Some? {
      assert !Good(sha, es, genesis, firstBad);
    }
    r := Some(ChainReport(breakAt.None?, breakAt, prev, |es| % 0x1_0000_0000));
  }

  /** A linked chain never makes the walk panic. */
  lemma LinkedNeverPanics(sha: Sha, es: seq<Event>, genesis: Str)
    requires Linked(sha, es, genesis)
    ensures !Panics(es, genesis)
  {
    hide GoodFields, Hashed;
    forall i | 0 <= i < |es| ensures GoodFields(es[i].body) {
      assert Good(sha, es, genesis, i);
      HashedExact(sha, es[i]);
    }
  }

  /** A one-event timing file on which the walk panics. */
  lemma TimingFileCanPanic() returns (es: seq<Event>)
    ensures |es| == 1 && es[0].body == TimingFields(0x20_0000_0000_0000, 0) && Panics(es, ZeroHash())
  {
    es := [Event(0, TimingFields(0x20_0000_0000_0000, 0), ZeroHash(), [])];
    TimingFieldsGood(0x20_0000_0000_0000, 0);
    hide GoodFields;
    assert Reached(es, ZeroHash(), 0);
  }

  // ---- what a head pins -----------------------------------------------------------------------------------

  /** Two chains with the same head agree on their last events, as many as the shorter has, whatever they start from. */
  lemma {:induction false} TailIsSuffix(sha: Sha, a: seq<Event>, g: Str, b: seq<Event>, h: Str)
    requires CollisionFree(sha) && |b| <= |a|
    requires Linked(sha, a, g) && Linked(sha, b, h) && (b != [] ==> Head(a, g) == Head(b, h))
    ensures b == a[|a| - |b|..]
  {
    hide Hashed;
    if b != [] {
      var i, j := |a| - 1, |b| - 1;
      assert Good(sha, a, g, i) && Good(sha, b, h, j);
      HashPinsEvent(sha, a[i], b[j]);
      Prefix(sha, a, g);
      Prefix(sha, b, h);
      TailIsSuffix(sha, a[..i], g, b[..j], h);
      assert b == b[..j] + [b[j]] && a[|a| - |b|..] == a[..i][|a| - |b|..] + [a[i]];
    }
  }

  lemma Prefix(sha: Sha, a: seq<Event>, g: Str)
    requires Linked(sha, a, g) && a != []
    ensures Linked(sha, a[..|a| - 1], g) && Head(a[..|a| - 1], g) == a[|a| - 1].prev
  {
    hide Hashed;
    assert Good(sha, a, g, |a| - 1);
    var p := a[..|a| - 1];
    forall i | 0 <= i < |p| ensures Good(sha, p, g, i) {
      assert Good(sha, a, g, i);
    }
  }

  ghost predicate NotAHash(sha: Sha, g: Str) { forall bytes: seq<u8> :: sha(bytes) != g }

  /** A head pins the whole chain: two chains from one genesis with the same head and length are the same chain. The
      length need not be known when the genesis is not the hash of anything. */
  lemma HeadPinsChain(sha: Sha, a: seq<Event>, b: seq<Event>, g: Str)
    requires CollisionFree(sha)
    requires Linked(sha, a, g) && Linked(sha, b, g) && Head(a, g) == Head(b, g)
    requires |a| == |b| || NotAHash(sha, g)
    ensures a == b
  {
    hide Hashed;
    if |b| <= |a| {
      ShorterIsWhole(sha, a, b, g);
    } else {
      ShorterIsWhole(sha, b, a, g);
    }
  }

  lemma ShorterIsWhole(sha: Sha, a: seq<Event>, b: seq<Event>, g: Str)
    requires CollisionFree(sha) && |b| <= |a|
    requires Linked(sha, a, g) && Linked(sha, b, g) && Head(a, g) == Head(b, g)
    requires |a| == |b| || NotAHash(sha, g)
    ensures a == b
  {
    hide Hashed;
    LinkOf(sha, a, g, |a| - |b|);
    LinkOf(sha, b, g, 0);
    TailIsSuffix(sha, a, g, b, g);
  }

  lemma LinkOf(sha: Sha, es: seq<Event>, g: Str, i: nat)
    requires Linked(sha, es, g) && i <= |es|
    ensures i < |es| ==> es[i].prev == PrevOf(es, g, i)
    ensures i > 0 && NotAHash(sha, g) ==> PrevOf(es, g, i) != g
  {
    hide Hashed;
    if i < |es| {
      assert Good(sha, es, g, i);
    }
    if i > 0 {
      assert Good(sha, es, g, i - 1);
      HashIsHash(sha, es[i - 1]);
    }
  }

  lemma HashIsHash(sha: Sha, e: Event)
    requires Hashed(sha, e).Ok?
    ensures !NotAHash(sha, Hashed(sha, e).value)
  {
    hide Digest;
    DigestExact(sha, Blanked(e));
  }

  /** Appending an event made from the head keeps the chain linked and moves the head to it. */
  lemma Appended(sha: Sha, es: seq<Event>, g: Str, e: Event)
    requires Linked(sha, es, g) && |es| < 0x1_0000_0000
    requires Hashed(sha, e) == Ok(e.hash) && e.prev == Head(es, g)
    requires e.seqNo == if es == [] then e.seqNo else (es[0].seqNo + |es|) % 0x1_0000_0000
    ensures Linked(sha, es + [e], g) && Head(es + [e], g) == e.hash
  {
    hide Hashed;
    var a := es + [e];
    forall i | 0 <= i < |a| ensures Good(sha, a, g, i) {
      if i < |es| {
        assert Good(sha, es, g, i);
      }
    }
  }

  /** The end of a linked chain is linked from its own first link. */
  lemma Suffix(sha: Sha, es: seq<Event>, g: Str, k: nat)
    requires Linked(sha, es, g) && k < |es|
    ensures Linked(sha, es[k..], es[k].prev) && Head(es[k..], es[k].prev) == Head(es, g)
    ensures es[k].seqNo == (es[0].seqNo + k) % 0x1_0000_0000
  {
    hide Hashed;
    var t := es[k..];
    assert Good(sha, es, g, k);
    forall i | 0 <= i < |t| ensures Good(sha, t, es[k].prev, i) {
      assert Good(sha, es, g, k + i);
      SeqShift(es[0].seqNo, k, i);
    }
  }

  lemma SeqShift(s: u32, k: nat, i: nat)
    ensures ((s + k) % 0x1_0000_0000 + i) % 0x1_0000_0000 == (s + (k + i)) % 0x1_0000_0000
  {}
}
