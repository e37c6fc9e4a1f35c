/** The laws of the codec: the unchecked decoder accepts what a checking one accepts, and decoding undoes encoding. */
module MsgPackLaws {
  import opened Ints
  import opened Options
  import opened Unicode
  import opened MsgPack

  // ---- strictness -----------------------------------------------------------------------------------------

  /** The unchecked result against the checked one: the same value and place, or else an error or a position past the
      end. */
  ghost predicate Agree<T>(mv: seq<u8>, i: nat, strict: Option<(T, nat)>, lazy: Result<(T, nat), DecError>) {
    if strict.Some? then lazy == Ok((strict.value.0, i + strict.value.1))
    else lazy.Err? || lazy.value.1 > |mv|
  }

  lemma SliceInside(mv: seq<u8>, i: nat, a: nat, b: nat)
    requires i <= |mv| && a <= b
    ensures i + b <= |mv| ==> Slice(mv, i + a, i + b) == mv[i..][a..b]
    ensures i + b > |mv| && a < b ==> |Slice(mv, i + a, i + b)| < b - a
  {}

  lemma {:induction false} LazyAgrees(widen: nat -> u64, mv: seq<u8>, i: nat)
    requires i <= |mv|
    ensures Agree(mv, i, Strict(widen, mv[i..]), Lazy(widen, mv, i))
    decreases |mv| - i, 0, 0
  {
    hide LazySized, StrictSized, FromBe, FromSignedBe, Slice, Utf8Decode;
    if i < |mv| {
      var form := FormOf(mv[i]);
      hide FormOf;
      match form {
        case Unsigned(w) => SliceInside(mv, i, 1, 1 + w);
        case Signed(w) => SliceInside(mv, i, 1, 1 + w);
        case Single => SliceInside(mv, i, 1, 5);
        case Double => SliceInside(mv, i, 1, 9);
        case Sized(kind, w, inline) =>
          SliceInside(mv, i, 1, 1 + w);
          if i + 1 + w <= |mv| {
            SizedAgrees(widen, mv, i, kind, if w == 0 then inline else FromBe(Slice(mv, i + 1, i + 1 + w)), 1 + w);
          }
        case _ =>
      }
    }
  }

  lemma {:induction false} SizedAgrees(widen: nat -> u64, mv: seq<u8>, i: nat, kind: Kind, n: nat, w: nat)
    requires 1 <= w && i + w <= |mv|
    ensures Agree(mv, i, StrictSized(widen, mv[i..], kind, n, w), LazySized(widen, mv, kind, n, i + w))
    decreases |mv| - i - w, 3, n
  {
    hide LazyItems, LazyEntries, StrictItems, StrictEntries, Utf8Decode;
    SliceInside(mv, i, w, w + n);
    assert mv[i..][w..] == mv[i + w..];
    match kind {
      case KText =>
      case KBin =>
      case KList => ItemsAgree(widen, mv, i + w, n);
      case KDict => EntriesAgree(widen, mv, i + w, n, []);
    }
  }

  lemma {:induction false} ItemsAgree(widen: nat -> u64, mv: seq<u8>, i: nat, n: nat)
    requires i <= |mv|
    ensures Agree(mv, i, StrictItems(widen, mv[i..], n), LazyItems(widen, mv, i, n))
    decreases |mv| - i, 1, n
  {
    hide Lazy, Strict;
    if n > 0 {
      LazyAgrees(widen, mv, i);
      var head := Strict(widen, mv[i..]);
      if head.Some? {
        var k := head.value.1;
        assert mv[i..][k..] == mv[i + k..];
        ItemsAgree(widen, mv, i + k, n - 1);
      }
    }
  }

  lemma {:induction false} EntriesAgree(widen: nat -> u64, mv: seq<u8>, i: nat, n: nat, d: seq<Entry>)
    requires i <= |mv|
    ensures Agree(mv, i, StrictEntries(widen, mv[i..], n, d), LazyEntries(widen, mv, i, n, d))
    decreases |mv| - i, 2, n
  {
    hide LazyEntry, StrictEntry, Lazy;
    if n > 0 {
      EntryAgrees(widen, mv, i);
      var head := StrictEntry(widen, mv[i..]);
      if head.Some? {
        var k := head.value.1;
        assert mv[i..][k..] == mv[i + k..];
        EntriesAgree(widen, mv, i + k, n - 1, Put(d, head.value.0.key, head.value.0.val));
      } else if n > 1 && LazyEntry(widen, mv, i).Ok? {
        PastEnd(widen, mv, LazyEntry(widen, mv, i).value.1);
      }
    }
  }

  lemma {:induction false} EntryAgrees(widen: nat -> u64, mv: seq<u8>, i: nat)
    requires i <= |mv|
    ensures Agree(mv, i, StrictEntry(widen, mv[i..]), LazyEntry(widen, mv, i))
    decreases |mv| - i, 1, 0
  {
    hide Lazy, Strict, IsKey;
    LazyAgrees(widen, mv, i);
    var k := Strict(widen, mv[i..]);
    if k.Some? {
      var j := i + k.value.1;
      assert mv[i..][k.value.1..] == mv[j..];
      LazyAgrees(widen, mv, j);
    } else if Lazy(widen, mv, i).Ok? {
      PastEnd(widen, mv, Lazy(widen, mv, i).value.1);
    }
  }

  lemma PastEnd(widen: nat -> u64, mv: seq<u8>, i: nat)
    ensures i >= |mv| ==> Lazy(widen, mv, i).Err? && LazyEntry(widen, mv, i).Err?
  {}

  /** The decoder, whose slices are not bounds-checked, accepts exactly the inputs that a decoder checking every read
      consumes whole, with the same value. */
  lemma UnpackIsStrict(widen: nat -> u64, data: seq<u8>, v: M)
    ensures Unpack(widen, data) == Ok(v) <==> Strict(widen, data) == Some((v, |data|))
  {
    hide Lazy, Strict;
    LazyAgrees(widen, data, 0);
    assert data[0..] == data;
  }

  // ---- round trip -----------------------------------------------------------------------------------------

  /** The keys of every dict are distinct, as in a Python dict. */
  predicate Proper(v: M) {
    match v
    case List(items) => forall i :: 0 <= i < |items| ==> Proper(items[i])
    case Dict(es) =>
      && (forall i :: 0 <= i < |es| ==> Proper(es[i].key) && Proper(es[i].val))
      && (forall i, j :: 0 <= i < j < |es| ==> es[i].key != es[j].key)
    case _ => true
  }

  /** Every key of every dict is a str or bytes. */
  predicate TextKeys(v: M) {
    match v
    case List(items) => forall i :: 0 <= i < |items| ==> TextKeys(items[i])
    case Dict(es) => forall i :: 0 <= i < |es| ==> IsKey(es[i].key) && TextKeys(es[i].val)
    case _ => true
  }

  /** Every integer has a wire form, no length is 2^32 or more, and nothing is unserialisable. */
  predicate Sendable(v: M) {
    match v
    case Int(n) => IntFits(n)
    case Text(s) => LengthFits(|Utf8(s)|)
    case Bin(b) => LengthFits(|b|)
    case List(items) => LengthFits(|items|) && forall i :: 0 <= i < |items| ==> Sendable(items[i])
    case Dict(es) => LengthFits(|es|) && forall i :: 0 <= i < |es| ==> Sendable(es[i].key) && Sendable(es[i].val)
    case Other => false
    case _ => true
  }

  /** Nesting below a value. */
  predicate Shallow(v: M, levels: int)
    decreases v
  {
    levels >= 0 &&
    match v
    case List(items) => forall i :: 0 <= i < |items| ==> Shallow(items[i], levels - 1)
    case Dict(es) => forall i :: 0 <= i < |es| ==> Shallow(es[i].key, levels - 1) && Shallow(es[i].val, levels - 1)
    case _ => true
  }

  /** The encoder fails exactly on values that are not sendable or nested more than 128 levels deep. */
  lemma {:induction false} FaultExact(v: M, depth: nat)
    ensures EncFault(v, depth).None? <==> Sendable(v) && Shallow(v, 128 - depth)
    decreases v, 1, 0
  {
    if depth <= 128 {
      match v {
        case List(_) => ItemsFaultExact(v, 0, depth);
        case Dict(_) => EntriesFaultExact(v, 0, depth);
        case _ =>
      }
    }
  }

  lemma {:induction false} ItemsFaultExact(v: M, i: nat, depth: nat)
    requires v.List? && i <= |v.items|
    ensures ItemsFault(v, i, depth).None?
            <==> forall j :: i <= j < |v.items| ==> Sendable(v.items[j]) && Shallow(v.items[j], 127 - depth)
    decreases v, 0, |v.items| - i
  {
    if i < |v.items| {
      FaultExact(v.items[i], depth + 1);
      ItemsFaultExact(v, i + 1, depth);
    }
  }

  predicate SendableEntry(e: Entry, levels: int) {
    Sendable(e.key) && Sendable(e.val) && Shallow(e.key, levels) && Shallow(e.val, levels)
  }

  lemma {:induction false} EntriesFaultExact(v: M, i: nat, depth: nat)
    requires v.Dict? && i <= |v.entries|
    ensures EntriesFault(v, i, depth).None? <==> forall j :: i <= j < |v.entries| ==> SendableEntry(v.entries[j], 127 - depth)
    decreases v, 0, |v.entries| - i
  {
    if i < |v.entries| {
      FaultExact(v.entries[i].key, depth + 1);
      FaultExact(v.entries[i].val, depth + 1);
      EntriesFaultExact(v, i + 1, depth);
    }
  }

  // ---- heads ----------------------------------------------------------------------------------------------

  /** A head reads back: its first byte announces the kind, and its length is `n`. */
  predicate HeadReads(head: seq<u8>, kind: Kind, n: nat) {
    head != [] && FormOf(head[0]).Sized? && FormOf(head[0]).kind == kind && |head| == 1 + FormOf(head[0]).w
    && n == if FormOf(head[0]).w == 0 then FormOf(head[0]).n else FromBe(head[1..])
  }

  lemma Powers()
    ensures Pow256(1) == 0x100 && Pow256(2) == 0x1_0000 && Pow256(4) == 0x1_0000_0000
    ensures Pow256(8) == 0x1_0000_0000_0000_0000
  {
    assert Pow256(3) == 0x100_0000 && Pow256(5) == 0x100_0000_0000 && Pow256(6) == 0x1_0000_0000_0000;
    assert Pow256(7) == 0x100_0000_0000_0000;
  }

  lemma HeadsRead(n: nat)
    requires LengthFits(n)
    ensures HeadReads(TextHead(n), KText, n) && HeadReads(BinHead(n), KBin, n)
    ensures HeadReads(ListHead(n), KList, n) && HeadReads(DictHead(n), KDict, n)
  {
    Powers();
    hide Pow256, FromBe, Be;
    if n < 0x100 { FromBeOfBe(n, 1); }
    if n < 0x1_0000 { FromBeOfBe(n, 2); }
    FromBeOfBe(n, 4);
  }

  /** The branch of the decoder for integers of `w` bytes. */
  lemma StrictOfWide(widen: nat -> u64, s: seq<u8>, w: nat)
    requires |s| >= 1 + w && (FormOf(s[0]) == Unsigned(w) || FormOf(s[0]) == Signed(w))
    ensures var bs := s[1..1 + w];
            Strict(widen, s) == Some((Int(if FormOf(s[0]) == Signed(w) then FromSignedBe(bs) else FromBe(bs)), 1 + w))
  {
    hide FormOf, FromBe, FromSignedBe, StrictSized;
  }

  lemma AfterLead(b: u8, bs: seq<u8>, rest: seq<u8>)
    ensures var s := [b] + bs + rest; s[0] == b && s[1..1 + |bs|] == bs
  {}

  lemma SignedOfBe(n: nat, w: nat)
    requires w > 0 && n < Pow256(w)
    ensures FromSignedBe(Be(n, w)) == if 2 * n >= Pow256(w) then n - Pow256(w) else n
  {
    FromBeOfBe(n, w);
    hide Pow256, FromBe, Be;
  }

  lemma WideReads(widen: nat -> u64, b: u8, w: nat, n: nat, rest: seq<u8>)
    requires w > 0 && n < Pow256(w) && (FormOf(b) == Unsigned(w) || FormOf(b) == Signed(w))
    ensures var v := if FormOf(b) == Signed(w) && 2 * n >= Pow256(w) then n - Pow256(w) else n;
            Strict(widen, [b] + Be(n, w) + rest) == Some((Int(v), 1 + w))
  {
    hide FormOf, FromBe, FromSignedBe, Be, Pow256, Strict;
    AfterLead(b, Be(n, w), rest);
    FromBeOfBe(n, w);
    SignedOfBe(n, w);
    StrictOfWide(widen, [b] + Be(n, w) + rest, w);
  }

  lemma IntReads(widen: nat -> u64, v: int, rest: seq<u8>)
    requires IntFits(v)
    ensures Strict(widen, IntBytes(v) + rest) == Some((Int(v), |IntBytes(v)|))
  {
    Powers();
    if -0x20 <= v < 0x80 {
      hide FromBe, Be, StrictSized;
      assert (IntBytes(v) + rest)[0] == if v < 0 then v + 0x100 else v;
    } else {
      var w := if -0x80 <= v <= 0xFF then 1 else if -0x8000 <= v <= 0xFFFF then 2
               else if -0x8000_0000 <= v <= 0xFFFF_FFFF then 4 else 8;
      var b := (if v < 0 then 0xD0 else 0xCC) + if w == 1 then 0 else if w == 2 then 1 else if w == 4 then 2 else 3;
      hide Strict, Be, FromBe, Pow256;
      WideReads(widen, b, w, if v < 0 then v + Pow256(w) else v, rest);
    }
  }

  lemma Joined(head: seq<u8>, tail: seq<u8>, n: nat)
    requires head != []
    ensures (head + tail)[|head|..] == tail && (head + tail)[0] == head[0] && (head + tail)[1..|head|] == head[1..]
    ensures n <= |tail| ==> (head + tail)[|head|..|head| + n] == tail[..n]
  {}

  /** The `Sized` branch of the decoder. */
  lemma StrictOfSized(widen: nat -> u64, s: seq<u8>)
    requires s != [] && FormOf(s[0]).Sized? && 1 + FormOf(s[0]).w <= |s|
    ensures var f := FormOf(s[0]);
            Strict(widen, s) == StrictSized(widen, s, f.kind, if f.w == 0 then f.n else FromBe(s[1..1 + f.w]), 1 + f.w)
  {
    hide StrictSized, FromBe, FormOf;
  }

  lemma Assoc(a: seq<u8>, b: seq<u8>, c: seq<u8>)
    ensures a + b + c == a + (b + c)
  {}

  /** The narrowest width that holds a value decides its form. */
  lemma IntWidth(v: int, w: nat)
    requires w == 1 || w == 2 || w == 4 || w == 8
    requires 0 <= v < Pow256(w) || (2 * v + Pow256(w) >= 0 && 2 * v < Pow256(w))
    ensures IntFits(v) && |IntBytes(v)| <= 1 + w
  {
    Powers();
    hide Pow256, Be;
  }

  lemma WidthOf(b: u8)
    ensures FormOf(b).Unsigned? || FormOf(b).Signed? ==> FormOf(b).w in {1, 2, 4, 8}
    ensures FormOf(b).Const? && FormOf(b).v.Int? ==> -0x20 <= FormOf(b).v.v < 0x80
  {}

  lemma SignedRange(bs: seq<u8>)
    requires bs != []
    ensures FromBe(bs) < Pow256(|bs|) && 2 * FromSignedBe(bs) + Pow256(|bs|) >= 0 && 2 * FromSignedBe(bs) < Pow256(|bs|)
  {
    FromBeBound(bs);
  }

  /** The integer form is the shortest: nothing that decodes whole to `v` has fewer bytes. */
  lemma IntIsShortest(widen: nat -> u64, v: int, s: seq<u8>)
    requires Strict(widen, s) == Some((Int(v), |s|))
    ensures IntFits(v) && |IntBytes(v)| <= |s|
  {
    hide FromBe, FromSignedBe, Be, StrictSized, Pow256, FormOf, IntBytes;
    WidthOf(s[0]);
    var f := FormOf(s[0]);
    if f.Sized? {
      SizedIsNoInt(widen, s);
    } else if f.Unsigned? || f.Signed? {
      SignedRange(s[1..1 + f.w]);
      IntWidth(v, f.w);
    } else {
      NarrowInt(v);
    }
  }

  lemma NarrowInt(v: int)
    ensures -0x20 <= v < 0x80 ==> IntFits(v) && |IntBytes(v)| == 1
  {}

  lemma SizedIsNoInt(widen: nat -> u64, s: seq<u8>)
    requires s != [] && FormOf(s[0]).Sized? && Strict(widen, s).Some?
    ensures !Strict(widen, s).value.0.Int?
  {
    hide FormOf, FromBe, StrictItems, StrictEntries;
  }

  /** A head hands over to what follows it. */
  lemma Headed(widen: nat -> u64, head: seq<u8>, kind: Kind, n: nat, tail: seq<u8>)
    requires HeadReads(head, kind, n)
    ensures Strict(widen, head + tail) == StrictSized(widen, head + tail, kind, n, |head|)
    ensures (head + tail)[|head|..] == tail && (n <= |tail| ==> (head + tail)[|head|..|head| + n] == tail[..n])
  {
    hide StrictSized, FromBe, FormOf, Strict;
    Joined(head, tail, n);
    StrictOfSized(widen, head + tail);
  }

  lemma LeafReads(widen: nat -> u64, v: M, rest: seq<u8>)
    requires Sendable(v) && !v.List? && !v.Dict?
    ensures Strict(widen, Bytes(v) + rest) == Some((v, |Bytes(v)|))
  {
    hide StrictSized, FromBe, Be, TextHead, BinHead, HeadReads;
    match v {
      case Int(n) =>
        hide IntBytes, Strict;
        IntReads(widen, n, rest);
      case Float(bits) =>
        assert (Bytes(v) + rest)[1..9] == Be(bits, 8);
        Powers();
        FromBeOfBe(bits, 8);
      case Text(s) =>
        hide Strict;
        HeadsRead(|Utf8(s)|);
        Headed(widen, TextHead(|Utf8(s)|), KText, |Utf8(s)|, Utf8(s) + rest);
        SizedLeaf(widen, v, rest);
      case Bin(b) =>
        hide Strict;
        HeadsRead(|b|);
        Headed(widen, BinHead(|b|), KBin, |b|, b + rest);
        SizedLeaf(widen, v, rest);
      case _ =>
    }
  }

  lemma SizedLeaf(widen: nat -> u64, v: M, rest: seq<u8>)
    requires v.Text? || v.Bin?
    ensures v.Text? ==>
              var h, b := TextHead(|Utf8(v.s)|), Utf8(v.s);
              h + (b + rest) == Bytes(v) + rest &&
              StrictSized(widen, h + (b + rest), KText, |b|, |h|) == Some((v, |Bytes(v)|))
    ensures v.Bin? ==>
              var h, b := BinHead(|v.bytes|), v.bytes;
              h + (b + rest) == Bytes(v) + rest &&
              StrictSized(widen, h + (b + rest), KBin, |b|, |h|) == Some((v, |Bytes(v)|))
  {
    hide TextHead, BinHead, Utf8, Utf8Decode;
    if v.Text? {
      var h, b := TextHead(|Utf8(v.s)|), Utf8(v.s);
      assert (h + (b + rest))[|h|..|h| + |b|] == b;
      Utf8Exact(b, v.s);
    } else {
      var h, b := BinHead(|v.bytes|), v.bytes;
      assert (h + (b + rest))[|h|..|h| + |b|] == b;
    }
  }

  lemma Parts(v: M)
    requires Sendable(v)
    ensures v.List? ==> LengthFits(|v.items|) && (TextKeys(v) <==> AllTextKeys(v.items, 0))
    ensures v.Dict? ==> LengthFits(|v.entries|) && (TextKeys(v) <==> AllTextKeyed(v.entries, 0))
    ensures !v.List? && !v.Dict? ==> TextKeys(v)
  {}

  predicate ProperEntry(e: Entry) { Sendable(e.key) && Proper(e.key) && Sendable(e.val) && Proper(e.val) }

  predicate AllTextKeys(items: seq<M>, i: nat) { forall j :: i <= j < |items| ==> TextKeys(items[j]) }

  predicate AllTextKeyed(es: seq<Entry>, i: nat) { forall j :: i <= j < |es| ==> TextKeyed(es[j]) }

  /** Reading what was written gives the value back, or, if some dict key is neither str nor bytes, nothing. */
  lemma {:induction false} BytesRead(widen: nat -> u64, v: M, rest: seq<u8>)
    requires Sendable(v) && Proper(v)
    ensures Strict(widen, Bytes(v) + rest) == if TextKeys(v) then Some((v, |Bytes(v)|)) else None
    decreases v, 1, 0
  {
    hide Strict, StrictItems, StrictEntries, TextKeys, Sendable, Proper, Bytes, ItemBytes, EntryBytes, AllTextKeys, AllTextKeyed,
         ListHead, DictHead;
    Parts(v);
    if v.List? {
      var items := ItemBytes(v, 0) + rest;
      assert v.items[0..] == v.items;
      ItemsRead(widen, v, 0, rest);
      ListReads(widen, v, rest);
      assert StrictItems(widen, items, |v.items|) == if TextKeys(v) then Some((v.items, |ItemBytes(v, 0)|)) else None;
    } else if v.Dict? {
      var entries := EntryBytes(v, 0) + rest;
      assert v.entries[..0] == [];
      EntriesRead(widen, v, 0, rest);
      DictReads(widen, v, rest);
      assert StrictEntries(widen, entries, |v.entries|, []) == if TextKeys(v) then Some((v.entries, |EntryBytes(v, 0)|)) else None;
    } else {
      LeafReads(widen, v, rest);
    }
  }

  lemma SizedHandsOver(widen: nat -> u64, s: seq<u8>, n: nat, w: nat, tail: seq<u8>)
    requires 1 <= w <= |s| && s[w..] == tail
    ensures var r := StrictItems(widen, tail, n);
            StrictSized(widen, s, KList, n, w) == if r.None? then None else Some((List(r.value.0), w + r.value.1))
    ensures var r := StrictEntries(widen, tail, n, []);
            StrictSized(widen, s, KDict, n, w) == if r.None? then None else Some((Dict(r.value.0), w + r.value.1))
  {
    hide StrictItems, StrictEntries;
  }

  lemma BytesOfContainer(v: M)
    ensures v.List? ==> Bytes(v) == ListHead(|v.items|) + ItemBytes(v, 0)
    ensures v.Dict? ==> Bytes(v) == DictHead(|v.entries|) + EntryBytes(v, 0)
  {}

  lemma ListReads(widen: nat -> u64, v: M, rest: seq<u8>)
    requires v.List? && LengthFits(|v.items|)
    ensures var r := StrictItems(widen, ItemBytes(v, 0) + rest, |v.items|);
            Strict(widen, Bytes(v) + rest)
            == if r.None? then None else Some((List(r.value.0), |ListHead(|v.items|)| + r.value.1))
    ensures |Bytes(v)| == |ListHead(|v.items|)| + |ItemBytes(v, 0)|
  {
    hide HeadReads, Strict, ListHead, StrictItems, StrictSized, ItemBytes, Bytes;
    var head, tail := ListHead(|v.items|), ItemBytes(v, 0) + rest;
    HeadsRead(|v.items|);
    BytesOfContainer(v);
    Assoc(head, ItemBytes(v, 0), rest);
    Headed(widen, head, KList, |v.items|, tail);
    SizedHandsOver(widen, head + tail, |v.items|, |head|, tail);
  }

  lemma DictReads(widen: nat -> u64, v: M, rest: seq<u8>)
    requires v.Dict? && LengthFits(|v.entries|)
    ensures var r := StrictEntries(widen, EntryBytes(v, 0) + rest, |v.entries|, []);
            Strict(widen, Bytes(v) + rest)
            == if r.None? then None else Some((Dict(r.value.0), |DictHead(|v.entries|)| + r.value.1))
    ensures |Bytes(v)| == |DictHead(|v.entries|)| + |EntryBytes(v, 0)|
  {
    hide HeadReads, Strict, DictHead, StrictEntries, StrictSized, EntryBytes, Bytes;
    var head, tail := DictHead(|v.entries|), EntryBytes(v, 0) + rest;
    HeadsRead(|v.entries|);
    BytesOfContainer(v);
    Assoc(head, EntryBytes(v, 0), rest);
    Headed(widen, head, KDict, |v.entries|, tail);
    SizedHandsOver(widen, head + tail, |v.entries|, |head|, tail);
  }

  lemma ItemBytesStep(v: M, i: nat, rest: seq<u8>)
    requires v.List? && i < |v.items|
    ensures var b, tail := Bytes(v.items[i]), ItemBytes(v, i + 1) + rest;
            && ItemBytes(v, i) + rest == b + tail && (b + tail)[|b|..] == tail
            && |ItemBytes(v, i)| == |b| + |ItemBytes(v, i + 1)|
  {
    hide Bytes;
    Assoc(Bytes(v.items[i]), ItemBytes(v, i + 1), rest);
  }

  lemma ItemsStep(widen: nat -> u64, s: seq<u8>, n: nat)
    requires n > 0
    ensures var head := Strict(widen, s);
            if head.None? then StrictItems(widen, s, n) == None
            else
              var tail := StrictItems(widen, s[head.value.1..], n - 1);
              StrictItems(widen, s, n)
              == if tail.None? then None else Some(([head.value.0] + tail.value.0, head.value.1 + tail.value.1))
  {
    hide Strict;
  }

  lemma AllTextKeysStep(items: seq<M>, i: nat)
    requires i < |items|
    ensures AllTextKeys(items, i) <==> TextKeys(items[i]) && AllTextKeys(items, i + 1)
    ensures items[i..] == [items[i]] + items[i + 1..]
  {}

  lemma {:induction false} ItemsRead(widen: nat -> u64, v: M, i: nat, rest: seq<u8>)
    requires v.List? && Sendable(v) && Proper(v) && i <= |v.items|
    ensures StrictItems(widen, ItemBytes(v, i) + rest, |v.items| - i)
            == if AllTextKeys(v.items, i) then Some((v.items[i..], |ItemBytes(v, i)|)) else None
    decreases v, 0, |v.items| - i
  {
    hide Strict, Bytes, TextKeys, Sendable, Proper, ItemBytes, StrictItems, AllTextKeys;
    if i < |v.items| {
      ItemSendable(v, i);
      BytesRead(widen, v.items[i], ItemBytes(v, i + 1) + rest);
      ItemBytesStep(v, i, rest);
      ItemsStep(widen, ItemBytes(v, i) + rest, |v.items| - i);
      ItemsRead(widen, v, i + 1, rest);
      AllTextKeysStep(v.items, i);
    } else {
      NoItemsRead(widen, v, rest);
    }
  }

  lemma ItemSendable(v: M, i: nat)
    requires v.List? && Sendable(v) && Proper(v) && i < |v.items|
    ensures Sendable(v.items[i]) && Proper(v.items[i])
  {}

  lemma NoItemsRead(widen: nat -> u64, v: M, rest: seq<u8>)
    requires v.List?
    ensures var n := |v.items|;
            && StrictItems(widen, ItemBytes(v, n) + rest, 0) == Some(([], 0)) && |ItemBytes(v, n)| == 0
            && AllTextKeys(v.items, n) && v.items[n..] == []
  {}

  predicate TextKeyed(e: Entry) { IsKey(e.key) && TextKeys(e.val) }

  lemma {:induction false} PutFresh(d: seq<Entry>, k: M, v: M)
    requires forall i :: 0 <= i < |d| ==> d[i].key != k
    ensures Put(d, k, v) == d + [Entry(k, v)]
  {
    if d != [] {
      PutFresh(d[1..], k, v);
      assert d == [d[0]] + d[1..];
    }
  }

  lemma EntryReads(widen: nat -> u64, e: Entry, tail: seq<u8>)
    requires Strict(widen, Bytes(e.key) + (Bytes(e.val) + tail)) == if TextKeys(e.key) then Some((e.key, |Bytes(e.key)|)) else None
    requires Strict(widen, Bytes(e.val) + tail) == if TextKeys(e.val) then Some((e.val, |Bytes(e.val)|)) else None
    ensures StrictEntry(widen, Bytes(e.key) + (Bytes(e.val) + tail))
            == if TextKeyed(e) then Some((e, |Bytes(e.key)| + |Bytes(e.val)|)) else None
  {
    hide Strict, Bytes;
    assert (Bytes(e.key) + (Bytes(e.val) + tail))[|Bytes(e.key)|..] == Bytes(e.val) + tail;
  }

  lemma EntryBytesStep(v: M, i: nat, rest: seq<u8>)
    requires v.Dict? && i < |v.entries|
    ensures var kb, vb := Bytes(v.entries[i].key), Bytes(v.entries[i].val);
            var tail := EntryBytes(v, i + 1) + rest;
            && EntryBytes(v, i) + rest == kb + (vb + tail) && (kb + (vb + tail))[|kb| + |vb|..] == tail
            && |EntryBytes(v, i)| == |kb| + |vb| + |EntryBytes(v, i + 1)|
  {
    hide Bytes;
  }

  /** One entry, when its bytes are followed by `tail`. */
  lemma EntriesStep(widen: nat -> u64, s: seq<u8>, n: nat, d: seq<Entry>, e: Entry, width: nat, tail: seq<u8>)
    requires n > 0 && width <= |s| && s[width..] == tail && Put(d, e.key, e.val) == d + [e]
    requires StrictEntry(widen, s) == if TextKeyed(e) then Some((e, width)) else None
    ensures var r := StrictEntries(widen, tail, n - 1, d + [e]);
            StrictEntries(widen, s, n, d)
            == if !TextKeyed(e) || r.None? then None else Some((r.value.0, width + r.value.1))
  {
    hide StrictEntry, Put, TextKeyed;
  }

  lemma AllTextKeyedStep(es: seq<Entry>, i: nat)
    requires i < |es|
    ensures AllTextKeyed(es, i) <==> TextKeyed(es[i]) && AllTextKeyed(es, i + 1)
    ensures es[..i] + [es[i]] == es[..i + 1]
  {}

  lemma EntryParts(v: M, i: nat)
    requires v.Dict? && Sendable(v) && Proper(v) && i < |v.entries|
    ensures var e := v.entries[i];
            && ProperEntry(e)
            && Put(v.entries[..i], e.key, e.val) == v.entries[..i] + [e]
  {
    PutFresh(v.entries[..i], v.entries[i].key, v.entries[i].val);
  }

  lemma EntriesEnd(widen: nat -> u64, v: M, rest: seq<u8>)
    requires v.Dict?
    ensures var n := |v.entries|;
            && StrictEntries(widen, EntryBytes(v, n) + rest, 0, v.entries[..n]) == Some((v.entries, |EntryBytes(v, n)|))
            && AllTextKeyed(v.entries, n)
  {
    assert v.entries[..|v.entries|] == v.entries;
  }

  lemma {:induction false} EntriesRead(widen: nat -> u64, v: M, i: nat, rest: seq<u8>)
    requires v.Dict? && Sendable(v) && Proper(v) && i <= |v.entries|
    ensures StrictEntries(widen, EntryBytes(v, i) + rest, |v.entries| - i, v.entries[..i])
            == if AllTextKeyed(v.entries, i) then Some((v.entries, |EntryBytes(v, i)|)) else None
    decreases v, 0, |v.entries| - i
  {
    hide Strict, Bytes, StrictEntry, Put, TextKeyed, Sendable, Proper, EntryBytes, StrictEntries, AllTextKeyed;
    if i == |v.entries| {
      EntriesEnd(widen, v, rest);
    } else {
      var e, tail := v.entries[i], EntryBytes(v, i + 1) + rest;
      EntryParts(v, i);
      BytesRead(widen, e.key, Bytes(e.val) + tail);
      BytesRead(widen, e.val, tail);
      EntryReads(widen, e, tail);
      EntryBytesStep(v, i, rest);
      AllTextKeyedStep(v.entries, i);
      EntriesStep(widen, EntryBytes(v, i) + rest, |v.entries| - i, v.entries[..i], e, |Bytes(e.key)| + |Bytes(e.val)|, tail);
      EntriesRead(widen, v, i + 1, rest);
    }
  }

  /** The exact round trip: every value the encoder accepts decodes to itself if and only if all its dict keys, at every
      depth, are str or bytes; any other key makes the decoder raise. */
  lemma PackUnpack(widen: nat -> u64, v: M)
    requires Proper(v) && Pack(v).Ok?
    ensures Unpack(widen, Pack(v).value) == Ok(v) <==> TextKeys(v)
    ensures !TextKeys(v) ==> Unpack(widen, Pack(v).value).Err?
  {
    hide Strict, Lazy;
    FaultExact(v, 0);
    BytesRead(widen, v, []);
    var data := Pack(v).value;
    assert data + [] == data;
    UnpackIsStrict(widen, data, v);
    if !TextKeys(v) && Unpack(widen, data).Ok? {
      UnpackIsStrict(widen, data, Unpack(widen, data).value);
    }
  }

  /** `pack` accepts exactly the sendable values nested at most 128 deep. */
  lemma PackExact(v: M)
    ensures Pack(v).Ok? <==> Sendable(v) && Shallow(v, 128)
  {
    FaultExact(v, 0);
  }

  /** A dict keyed by an integer packs and does not unpack. */
  lemma IntegerKeyRefused(widen: nat -> u64)
    ensures var v := Dict([Entry(Int(1), Nil)]); Pack(v).Ok? && Unpack(widen, Pack(v).value).Err?
  {
    var v := Dict([Entry(Int(1), Nil)]);
    PackExact(v);
    assert !TextKeyed(v.entries[0]);
    PackUnpack(widen, v);
  }
}
