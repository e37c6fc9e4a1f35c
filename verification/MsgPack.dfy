/** The fallback MessagePack codec: the encoder, the decoder, which slices without checking bounds, and a decoder that
    checks every read. */
module MsgPack {
  import opened Ints
  import opened Options
  import opened Unicode

  /** A Python value on the wire. A float is its IEEE 754 image; a dict keeps insertion order; `Other` is a value with no
      wire form and no `default` hook. */
  datatype M =
    | Nil
    | Bool(b: bool)
    | Int(v: int)
    | Float(bits: u64)
    | Text(s: Str)
    | Bin(bytes: seq<u8>)
    | List(items: seq<M>)
    | Dict(entries: seq<Entry>)
    | Other

  datatype Entry = Entry(key: M, val: M)

  datatype EncError = TooDeep | OutOfRange | CannotSerialize

  datatype DecError = Truncated | BadStruct | BadUtf8 | BadMapKey | UnsupportedByte | ExtraBytes

  // ---- big-endian integers --------------------------------------------------------------------------------

  function Pow256(w: nat): (r: nat)
    ensures r >= 1
  {
    if w == 0 then 1 else 256 * Pow256(w - 1)
  }

  function Be(n: nat, w: nat): (r: seq<u8>)
    ensures |r| == w
  {
    if w == 0 then [] else Be(n / 256, w - 1) + [n % 256]
  }

  function FromBe(bs: seq<u8>): nat { if bs == [] then 0 else FromBe(bs[..|bs| - 1]) * 256 + bs[|bs| - 1] }

  /** Two's complement; no bytes mean zero. */
  function FromSignedBe(bs: seq<u8>): int {
    if bs != [] && 2 * FromBe(bs) >= Pow256(|bs|) then FromBe(bs) - Pow256(|bs|) else FromBe(bs)
  }

  lemma {:induction false} FromBeOfBe(n: nat, w: nat)
    requires n < Pow256(w)
    ensures FromBe(Be(n, w)) == n
  {
    if w > 0 {
      FromBeOfBe(n / 256, w - 1);
      assert Be(n, w)[..w - 1] == Be(n / 256, w - 1);
    }
  }

  // ---- encoding -------------------------------------------------------------------------------------------

  /** The shortest form that holds the integer. */
  function IntBytes(v: int): seq<u8> {
    if 0 <= v < 0x80 then [v]
    else if -0x20 <= v < 0 then [v + 0x100]
    else if 0 <= v <= 0xFF then [0xCC] + Be(v, 1)
    else if 0 <= v <= 0xFFFF then [0xCD] + Be(v, 2)
    else if 0 <= v <= 0xFFFF_FFFF then [0xCE] + Be(v, 4)
    else if 0 <= v <= 0xFFFF_FFFF_FFFF_FFFF then [0xCF] + Be(v, 8)
    else if -0x80 <= v < 0 then [0xD0] + Be(v + 0x100, 1)
    else if -0x8000 <= v < 0 then [0xD1] + Be(v + 0x1_0000, 2)
    else if -0x8000_0000 <= v < 0 then [0xD2] + Be(v + 0x1_0000_0000, 4)
    else if -0x8000_0000_0000_0000 <= v < 0 then [0xD3] + Be(v + 0x1_0000_0000_0000_0000, 8)
    else []
  }

  predicate IntFits(v: int) { -0x8000_0000_0000_0000 <= v <= 0xFFFF_FFFF_FFFF_FFFF }

  predicate LengthFits(n: nat) { n < 0x1_0000_0000 }

  function TextHead(n: nat): (r: seq<u8>)
    ensures 1 <= |r| <= 5
  {
    if n < 32 then [0xA0 + n] else if n < 0x100 then [0xD9] + Be(n, 1) else if n < 0x1_0000 then [0xDA] + Be(n, 2)
    else [0xDB] + Be(n, 4)
  }

  function BinHead(n: nat): (r: seq<u8>)
    ensures 1 <= |r| <= 5
  {
    if n < 0x100 then [0xC4] + Be(n, 1) else if n < 0x1_0000 then [0xC5] + Be(n, 2) else [0xC6] + Be(n, 4)
  }

  function ListHead(n: nat): (r: seq<u8>)
    ensures 1 <= |r| <= 5
  {
    if n < 16 then [0x90 + n] else if n < 0x1_0000 then [0xDC] + Be(n, 2) else [0xDD] + Be(n, 4)
  }

  function DictHead(n: nat): (r: seq<u8>)
    ensures 1 <= |r| <= 5
  {
    if n < 16 then [0x80 + n] else if n < 0x1_0000 then [0xDE] + Be(n, 2) else [0xDF] + Be(n, 4)
  }

  function Bytes(v: M): seq<u8>
    decreases v, 1, 0
  {
    match v
    case Nil => [0xC0]
    case Bool(b) => if b then [0xC3] else [0xC2]
    case Int(n) => IntBytes(n)
    case Float(bits) => [0xCB] + Be(bits, 8)
    case Text(s) => TextHead(|Utf8(s)|) + Utf8(s)
    case Bin(b) => BinHead(|b|) + b
    case List(items) => ListHead(|items|) + ItemBytes(v, 0)
    case Dict(entries) => DictHead(|entries|) + EntryBytes(v, 0)
    case Other => []
  }

  function ItemBytes(v: M, i: nat): seq<u8>
    requires v.List? && i <= |v.items|
    decreases v, 0, |v.items| - i
  {
    if i == |v.items| then [] else Bytes(v.items[i]) + ItemBytes(v, i + 1)
  }

  function EntryBytes(v: M, i: nat): seq<u8>
    requires v.Dict? && i <= |v.entries|
    decreases v, 0, |v.entries| - i
  {
    if i == |v.entries| then []
    else Bytes(v.entries[i].key) + Bytes(v.entries[i].val) + EntryBytes(v, i + 1)
  }

  /** The first exception, in the order the bytes are written. */
  function EncFault(v: M, depth: nat): Option<EncError>
    decreases v, 1, 0
  {
    if depth > 128 then Some(TooDeep)
    else
      match v
      case Int(n) => if IntFits(n) then None else Some(OutOfRange)
      case Text(s) => if LengthFits(|Utf8(s)|) then None else Some(OutOfRange)
      case Bin(b) => if LengthFits(|b|) then None else Some(OutOfRange)
      case List(items) => if LengthFits(|items|) then ItemsFault(v, 0, depth) else Some(OutOfRange)
      case Dict(entries) => if LengthFits(|entries|) then EntriesFault(v, 0, depth) else Some(OutOfRange)
      case Other => Some(CannotSerialize)
      case _ => None
  }

  function ItemsFault(v: M, i: nat, depth: nat): Option<EncError>
    requires v.List? && i <= |v.items|
    decreases v, 0, |v.items| - i
  {
    if i == |v.items| then None
    else
      var e := EncFault(v.items[i], depth + 1);
      if e.Some? then e else ItemsFault(v, i + 1, depth)
  }

  function EntriesFault(v: M, i: nat, depth: nat): Option<EncError>
    requires v.Dict? && i <= |v.entries|
    decreases v, 0, |v.entries| - i
  {
    if i == |v.entries| then None
    else
      var e := EncFault(v.entries[i].key, depth + 1);
      if e.Some? then e
      else
        var e' := EncFault(v.entries[i].val, depth + 1);
        if e'.Some? then e' else EntriesFault(v, i + 1, depth)
  }

  function Pack(v: M): Result<seq<u8>, EncError> {
    var e := EncFault(v, 0);
    if e.Some? then Err(e.value) else Ok(Bytes(v))
  }

  // ---- the format table -----------------------------------------------------------------------------------

  datatype Kind = KText | KBin | KList | KDict

  /** What a first byte announces: a value; an integer or float of `w` bytes; or something sized, whose length is `n`
      itself or the `w` bytes that follow. */
  datatype Form =
    | Const(v: M)
    | Unsigned(w: nat)
    | Signed(w: nat)
    | Single
    | Double
    | Sized(kind: Kind, w: nat, n: nat)
    | Unsupported

  function FormOf(b: u8): Form {
    if b <= 0x7F then Const(Int(b))
    else if b >= 0xE0 then Const(Int(b - 0x100))
    else if b <= 0x8F then Sized(KDict, 0, b - 0x80)
    else if b <= 0x9F then Sized(KList, 0, b - 0x90)
    else if b <= 0xBF then Sized(KText, 0, b - 0xA0)
    else if b == 0xC0 then Const(Nil)
    else if b == 0xC2 then Const(Bool(false))
    else if b == 0xC3 then Const(Bool(true))
    else if b == 0xC4 then Sized(KBin, 1, 0)
    else if b == 0xC5 then Sized(KBin, 2, 0)
    else if b == 0xC6 then Sized(KBin, 4, 0)
    else if b == 0xCA then Single
    else if b == 0xCB then Double
    else if b == 0xCC then Unsigned(1)
    else if b == 0xCD then Unsigned(2)
    else if b == 0xCE then Unsigned(4)
    else if b == 0xCF then Unsigned(8)
    else if b == 0xD0 then Signed(1)
    else if b == 0xD1 then Signed(2)
    else if b == 0xD2 then Signed(4)
    else if b == 0xD3 then Signed(8)
    else if b == 0xD9 then Sized(KText, 1, 0)
    else if b == 0xDA then Sized(KText, 2, 0)
    else if b == 0xDB then Sized(KText, 4, 0)
    else if b == 0xDC then Sized(KList, 2, 0)
    else if b == 0xDD then Sized(KList, 4, 0)
    else if b == 0xDE then Sized(KDict, 2, 0)
    else if b == 0xDF then Sized(KDict, 4, 0)
    else Unsupported
  }

  /** `d[k] = v`: a key already there keeps its place. */
  function Put(d: seq<Entry>, k: M, v: M): seq<Entry> {
    if d == [] then [Entry(k, v)]
    else if d[0].key == k then [Entry(k, v)] + d[1..]
    else [d[0]] + Put(d[1..], k, v)
  }

  predicate IsKey(k: M) { k.Text? || k.Bin? }

  // ---- the decoder as written: slices clamp, positions run past the end ------------------------------------

  function Clip(i: nat, n: nat): nat { if i < n then i else n }

  /** `mv[i:j]`. */
  function Slice(mv: seq<u8>, i: nat, j: nat): (r: seq<u8>)
    requires i <= j
    ensures j <= |mv| ==> r == mv[i..j]
    ensures |r| <= j - i && (|r| == j - i && i < j ==> j <= |mv|)
  {
    mv[Clip(i, |mv|)..Clip(j, |mv|)]
  }

  function Remaining(mv: seq<u8>, i: nat): nat { if i < |mv| then |mv| - i else 0 }

  /** `widen` is the conversion from a single to a double image. */
  function Lazy(widen: nat -> u64, mv: seq<u8>, i: nat): (r: Result<(M, nat), DecError>)
    ensures r.Ok? ==> r.value.1 > i
    decreases Remaining(mv, i), 0, 0
  {
    if i >= |mv| then Err(Truncated)
    else
      var at := i + 1;
      match FormOf(mv[i])
      case Const(v) => Ok((v, at))
      case Unsigned(w) => Ok((Int(FromBe(Slice(mv, at, at + w))), at + w))
      case Signed(w) => Ok((Int(FromSignedBe(Slice(mv, at, at + w))), at + w))
      case Single =>
        var bs := Slice(mv, at, at + 4);
        if |bs| != 4 then Err(BadStruct) else Ok((Float(widen(FromBe(bs))), at + 4))
      case Double =>
        var bs := Slice(mv, at, at + 8);
        if |bs| != 8 then Err(BadStruct) else Ok((Float(Image(bs)), at + 8))
      case Sized(kind, w, inline) =>
        LazySized(widen, mv, kind, if w == 0 then inline else FromBe(Slice(mv, at, at + w)), at + w)
      case Unsupported => Err(UnsupportedByte)
  }

  /** The `n` bytes, items or entries from `start` on. */
  function LazySized(widen: nat -> u64, mv: seq<u8>, kind: Kind, n: nat, start: nat): (r: Result<(M, nat), DecError>)
    requires start > 0
    ensures r.Ok? ==> r.value.1 >= start
    decreases Remaining(mv, start), 3, n
  {
    match kind
    case KText =>
      var s := Utf8Decode(Slice(mv, start, start + n));
      if s.None? then Err(BadUtf8) else Ok((Text(s.value), start + n))
    case KBin => Ok((Bin(Slice(mv, start, start + n)), start + n))
    case KList =>
      var r := LazyItems(widen, mv, start, n);
      if r.Err? then Err(r.error) else Ok((List(r.value.0), r.value.1))
    case KDict =>
      var r := LazyEntries(widen, mv, start, n, []);
      if r.Err? then Err(r.error) else Ok((Dict(r.value.0), r.value.1))
  }

  /** Eight bytes as a u64. */
  function Image(bs: seq<u8>): u64
    requires |bs| == 8
  {
    FromBeBound(bs);
    FromBe(bs)
  }

  lemma {:induction false} FromBeBound(bs: seq<u8>)
    ensures FromBe(bs) < Pow256(|bs|)
    ensures |bs| == 8 ==> FromBe(bs) < 0x1_0000_0000_0000_0000
  {
    if bs != [] { FromBeBound(bs[..|bs| - 1]); }
    if |bs| == 8 { assert Pow256(8) == 0x1_0000_0000_0000_0000; }
  }

  function LazyItems(widen: nat -> u64, mv: seq<u8>, i: nat, n: nat): (r: Result<(seq<M>, nat), DecError>)
    ensures r.Ok? ==> r.value.1 >= i
    decreases Remaining(mv, i), 1, n
  {
    if n == 0 then Ok(([], i))
    else
      var head := Lazy(widen, mv, i);
      if head.Err? then Err(head.error)
      else
        var tail := LazyItems(widen, mv, head.value.1, n - 1);
        if tail.Err? then tail else Ok(([head.value.0] + tail.value.0, tail.value.1))
  }

  function LazyEntries(widen: nat -> u64, mv: seq<u8>, i: nat, n: nat, d: seq<Entry>): (r: Result<(seq<Entry>, nat), DecError>)
    ensures r.Ok? ==> r.value.1 >= i
    decreases Remaining(mv, i), 2, n
  {
    if n == 0 then Ok((d, i))
    else
      var head := LazyEntry(widen, mv, i);
      if head.Err? then Err(head.error)
      else LazyEntries(widen, mv, head.value.1, n - 1, Put(d, head.value.0.key, head.value.0.val))
  }

  /** A key, checked, and its value. */
  function LazyEntry(widen: nat -> u64, mv: seq<u8>, i: nat): (r: Result<(Entry, nat), DecError>)
    ensures r.Ok? ==> r.value.1 > i
    decreases Remaining(mv, i), 1, 0
  {
    var k := Lazy(widen, mv, i);
    if k.Err? then Err(k.error)
    else if !IsKey(k.value.0) then Err(BadMapKey)
    else
      var v := Lazy(widen, mv, k.value.1);
      if v.Err? then Err(v.error) else Ok((Entry(k.value.0, v.value.0), v.value.1))
  }

  function Unpack(widen: nat -> u64, data: seq<u8>): Result<M, DecError> {
    var r := Lazy(widen, data, 0);
    if r.Err? then Err(r.error) else if r.value.1 != |data| then Err(ExtraBytes) else Ok(r.value.0)
  }

  // ---- a decoder that checks every read ---------------------------------------------------------------------

  /** The value at the front of `s` and its width, when all of it is there. */
  function Strict(widen: nat -> u64, s: seq<u8>): (r: Option<(M, nat)>)
    ensures r.Some? ==> 1 <= r.value.1 <= |s|
    decreases |s|, 0, 0
  {
    if s == [] then None
    else
      match FormOf(s[0])
      case Const(v) => Some((v, 1))
      case Unsigned(w) => if |s| < 1 + w then None else Some((Int(FromBe(s[1..1 + w])), 1 + w))
      case Signed(w) => if |s| < 1 + w then None else Some((Int(FromSignedBe(s[1..1 + w])), 1 + w))
      case Single => if |s| < 5 then None else Some((Float(widen(FromBe(s[1..5]))), 5))
      case Double => if |s| < 9 then None else Some((Float(Image(s[1..9])), 9))
      case Sized(kind, w, inline) =>
        if |s| < 1 + w then None
        else StrictSized(widen, s, kind, if w == 0 then inline else FromBe(s[1..1 + w]), 1 + w)
      case Unsupported => None
  }

  /** The `n` bytes, items or entries after a head of `w` bytes. */
  function StrictSized(widen: nat -> u64, s: seq<u8>, kind: Kind, n: nat, w: nat): (r: Option<(M, nat)>)
    requires 1 <= w <= |s|
    ensures r.Some? ==> w <= r.value.1 <= |s|
    decreases |s| - w, 3, n
  {
    match kind
    case KText =>
      if |s| < w + n || Utf8Decode(s[w..w + n]).None? then None
      else Some((Text(Utf8Decode(s[w..w + n]).value), w + n))
    case KBin => if |s| < w + n then None else Some((Bin(s[w..w + n]), w + n))
    case KList =>
      var r := StrictItems(widen, s[w..], n);
      if r.None? then None else Some((List(r.value.0), w + r.value.1))
    case KDict =>
      var r := StrictEntries(widen, s[w..], n, []);
      if r.None? then None else Some((Dict(r.value.0), w + r.value.1))
  }

  function StrictItems(widen: nat -> u64, s: seq<u8>, n: nat): (r: Option<(seq<M>, nat)>)
    ensures r.Some? ==> r.value.1 <= |s|
    decreases |s|, 1, n
  {
    if n == 0 then Some(([], 0))
    else
      var head := Strict(widen, s);
      if head.None? then None
      else
        var tail := StrictItems(widen, s[head.value.1..], n - 1);
        if tail.None? then None else Some(([head.value.0] + tail.value.0, head.value.1 + tail.value.1))
  }

  function StrictEntries(widen: nat -> u64, s: seq<u8>, n: nat, d: seq<Entry>): (r: Option<(seq<Entry>, nat)>)
    ensures r.Some? ==> r.value.1 <= |s|
    decreases |s|, 2, n
  {
    if n == 0 then Some((d, 0))
    else
      var head := StrictEntry(widen, s);
      if head.None? then None
      else
        var tail := StrictEntries(widen, s[head.value.1..], n - 1, Put(d, head.value.0.key, head.value.0.val));
        if tail.None? then None else Some((tail.value.0, head.value.1 + tail.value.1))
  }

  function StrictEntry(widen: nat -> u64, s: seq<u8>): (r: Option<(Entry, nat)>)
    ensures r.Some? ==> 1 <= r.value.1 <= |s|
    decreases |s|, 1, 0
  {
    var k := Strict(widen, s);
    if k.None? || !IsKey(k.value.0) then None
    else
      var v := Strict(widen, s[k.value.1..]);
      if v.None? then None else Some((Entry(k.value.0, v.value.0), k.value.1 + v.value.1))
  }
}
