/** The codec as the program runs it: an encoder appending to one buffer, and a recursive decoder with loops over the
    items of a container. */
module MsgPackCodec {
  import opened Ints
  import opened Options
  import opened Unicode
  import opened MsgPack

  class Encoder {
    var out: seq<u8>

    constructor ()
      ensures out == []
    {
      out := [];
    }

    method EncodeInt(n: int) returns (e: Option<EncError>)
      modifies this
      ensures e == (if IntFits(n) then None else Some(OutOfRange))
      ensures e.None? ==> out == old(out) + IntBytes(n)
    {
      hide Be;
      if 0 <= n < 0x80 {
        out := out + [n];
      } else if -0x20 <= n < 0 {
        out := out + [n + 0x100];
      } else if 0 <= n <= 0xFF {
        out := out + [0xCC] + Be(n, 1);
      } else if 0 <= n <= 0xFFFF {
        out := out + [0xCD] + Be(n, 2);
      } else if 0 <= n <= 0xFFFF_FFFF {
        out := out + [0xCE] + Be(n, 4);
      } else if 0 <= n <= 0xFFFF_FFFF_FFFF_FFFF {
        out := out + [0xCF] + Be(n, 8);
      } else if -0x80 <= n < 0 {
        out := out + [0xD0] + Be(n + 0x100, 1);
      } else if -0x8000 <= n < 0 {
        out := out + [0xD1] + Be(n + 0x1_0000, 2);
      } else if -0x8000_0000 <= n < 0 {
        out := out + [0xD2] + Be(n + 0x1_0000_0000, 4);
      } else if -0x8000_0000_0000_0000 <= n < 0 {
        out := out + [0xD3] + Be(n + 0x1_0000_0000_0000_0000, 8);
      } else {
        return Some(OutOfRange);
      }
      return None;
    }

    /** Appends the wire form of a value at nesting depth `depth`, or stops at the first exception. */
    method Encode(v: M, depth: nat) returns (e: Option<EncError>)
      modifies this
      ensures e == EncFault(v, depth)
      ensures e.None? ==> out == old(out) + Bytes(v)
      decreases v, 1
    {
      hide IntBytes, IntFits, TextHead, BinHead, ListHead, DictHead, Be, Utf8;
      if depth > 128 { return Some(TooDeep); }
      match v {
        case Nil => out := out + [0xC0];
        case Bool(b) => out := out + [if b then 0xC3 else 0xC2];
        case Int(n) =>
          e := EncodeInt(n);
          return;
        case Float(bits) => out := out + [0xCB] + Be(bits, 8);
        case Text(s) =>
          var b := Utf8(s);
          if !LengthFits(|b|) { return Some(OutOfRange); }
          out := out + TextHead(|b|) + b;
        case Bin(b) =>
          if !LengthFits(|b|) { return Some(OutOfRange); }
          out := out + BinHead(|b|) + b;
        case List(items) =>
          if !LengthFits(|items|) { return Some(OutOfRange); }
          out := out + ListHead(|items|);
          e := EncodeItems(v, depth);
          return;
        case Dict(entries) =>
          if !LengthFits(|entries|) { return Some(OutOfRange); }
          out := out + DictHead(|entries|);
          e := EncodeEntries(v, depth);
          return;
        case Other => return Some(CannotSerialize);
      }
      return None;
    }

    method EncodeItems(v: M, depth: nat) returns (e: Option<EncError>)
      requires v.List?
      modifies this
      ensures e == ItemsFault(v, 0, depth)
      ensures e.None? ==> out == old(out) + ItemBytes(v, 0)
      decreases v, 0
    {
      hide Bytes, EncFault;
      var i := 0;
      while i < |v.items|
        invariant i <= |v.items| && out + ItemBytes(v, i) == old(out) + ItemBytes(v, 0)
        invariant ItemsFault(v, i, depth) == ItemsFault(v, 0, depth)
      {
        ghost var was := out;
        e := Encode(v.items[i], depth + 1);
        if e.Some? { return; }
        assert out + ItemBytes(v, i + 1) == was + (Bytes(v.items[i]) + ItemBytes(v, i + 1));
        i := i + 1;
      }
      assert out + [] == out;
      return None;
    }

    method EncodeEntries(v: M, depth: nat) returns (e: Option<EncError>)
      requires v.Dict?
      modifies this
      ensures e == EntriesFault(v, 0, depth)
      ensures e.None? ==> out == old(out) + EntryBytes(v, 0)
      decreases v, 0
    {
      hide Bytes, EncFault;
      var i := 0;
      while i < |v.entries|
        invariant i <= |v.entries| && out + EntryBytes(v, i) == old(out) + EntryBytes(v, 0)
        invariant EntriesFault(v, i, depth) == EntriesFault(v, 0, depth)
      {
        ghost var was := out;
        e := Encode(v.entries[i].key, depth + 1);
        if e.Some? { return; }
        e := Encode(v.entries[i].val, depth + 1);
        if e.Some? { return; }
        Regrouped(was, Bytes(v.entries[i].key), Bytes(v.entries[i].val), EntryBytes(v, i + 1));
        i := i + 1;
      }
      assert out + [] == out;
      return None;
    }
  }

  lemma Regrouped(a: seq<u8>, b: seq<u8>, c: seq<u8>, d: seq<u8>)
    ensures a + b + c + d == a + (b + c + d)
  {}

  method PackOf(v: M) returns (r: Result<seq<u8>, EncError>)
    ensures r == Pack(v)
  {
    hide Bytes, EncFault;
    var encoder := new Encoder();
    var e := encoder.Encode(v, 0);
    if e.Some? { return Err(e.value); }
    assert [] + Bytes(v) == Bytes(v);
    return Ok(encoder.out);
  }

  /** One value at position `i`; slices clamp at the end of the data, and the position may run past it. */
  method Decode(widen: nat -> u64, mv: seq<u8>, i: nat) returns (r: Result<(M, nat), DecError>)
    ensures r == Lazy(widen, mv, i)
    decreases Remaining(mv, i), 0, 0
  {
    hide LazySized, FromBe, FromSignedBe, Slice;
    assert Shift(0) == 1 && Shift(1) == 2 && Shift(2) == 4 && Shift(3) == 8;
    if i >= |mv| { return Err(Truncated); }
    var b: int := mv[i];
    var at := i + 1;
    if b <= 0x7F { return Ok((Int(b), at)); }
    if b >= 0xE0 { return Ok((Int(b - 0x100), at)); }
    if 0x80 <= b <= 0x8F {
      r := DecodeSized(widen, mv, KDict, b - 0x80, at);
      return;
    }
    if 0x90 <= b <= 0x9F {
      r := DecodeSized(widen, mv, KList, b - 0x90, at);
      return;
    }
    if 0xA0 <= b <= 0xBF {
      r := DecodeSized(widen, mv, KText, b - 0xA0, at);
      return;
    }
    if b == 0xC0 { return Ok((Nil, at)); }
    if b == 0xC2 { return Ok((Bool(false), at)); }
    if b == 0xC3 { return Ok((Bool(true), at)); }
    if 0xC4 <= b <= 0xC6 {
      var w := if b == 0xC4 then 1 else if b == 0xC5 then 2 else 4;
      r := DecodeSized(widen, mv, KBin, FromBe(Slice(mv, at, at + w)), at + w);
      return;
    }
    if b == 0xCA || b == 0xCB {
      r := DecodeFloat(widen, mv, b == 0xCA, at);
      return;
    }
    if 0xCC <= b <= 0xCF {
      var w := Shift(b - 0xCC);
      return Ok((Int(FromBe(Slice(mv, at, at + w))), at + w));
    }
    if 0xD0 <= b <= 0xD3 {
      var w := Shift(b - 0xD0);
      return Ok((Int(FromSignedBe(Slice(mv, at, at + w))), at + w));
    }
    if 0xD9 <= b <= 0xDB {
      var w := if b == 0xD9 then 1 else if b == 0xDA then 2 else 4;
      r := DecodeSized(widen, mv, KText, FromBe(Slice(mv, at, at + w)), at + w);
      return;
    }
    if b == 0xDC || b == 0xDD {
      var w := if b == 0xDC then 2 else 4;
      r := DecodeSized(widen, mv, KList, FromBe(Slice(mv, at, at + w)), at + w);
      return;
    }
    if b == 0xDE || b == 0xDF {
      var w := if b == 0xDE then 2 else 4;
      r := DecodeSized(widen, mv, KDict, FromBe(Slice(mv, at, at + w)), at + w);
      return;
    }
    return Err(UnsupportedByte);
  }

  /** `1 << k`. */
  function Shift(k: nat): nat { if k == 0 then 1 else 2 * Shift(k - 1) }

  method DecodeFloat(widen: nat -> u64, mv: seq<u8>, single: bool, at: nat) returns (r: Result<(M, nat), DecError>)
    requires at >= 1
    ensures r == if single then
                   var bs := Slice(mv, at, at + 4);
                   if |bs| != 4 then Err(BadStruct) else Ok((Float(widen(FromBe(bs))), at + 4))
                 else
                   var bs := Slice(mv, at, at + 8);
                   if |bs| != 8 then Err(BadStruct) else Ok((Float(Image(bs)), at + 8))
  {
    hide FromBe, Slice;
    var w := if single then 4 else 8;
    var bs := Slice(mv, at, at + w);
    if |bs| != w { return Err(BadStruct); }
    return Ok((Float(if single then widen(FromBe(bs)) else Image(bs)), at + w));
  }

  method DecodeSized(widen: nat -> u64, mv: seq<u8>, kind: Kind, n: nat, start: nat) returns (r: Result<(M, nat), DecError>)
    requires start > 0
    ensures r == LazySized(widen, mv, kind, n, start)
    decreases Remaining(mv, start), 3, n
  {
    match kind {
      case KText =>
        var s := Utf8Decode(Slice(mv, start, start + n));
        return if s.None? then Err(BadUtf8) else Ok((Text(s.value), start + n));
      case KBin => return Ok((Bin(Slice(mv, start, start + n)), start + n));
      case KList => r := DecodeItems(widen, mv, start, n);
      case KDict => r := DecodeEntries(widen, mv, start, n);
    }
  }

  ghost function After(out: seq<M>, l: Result<(seq<M>, nat), DecError>): Result<(seq<M>, nat), DecError> {
    if l.Err? then l else Ok((out + l.value.0, l.value.1))
  }

  method DecodeItems(widen: nat -> u64, mv: seq<u8>, start: nat, n: nat) returns (r: Result<(M, nat), DecError>)
    ensures var l := LazyItems(widen, mv, start, n);
            r == if l.Err? then Err(l.error) else Ok((List(l.value.0), l.value.1))
    decreases Remaining(mv, start), 1, n
  {
    hide Lazy;
    var out: seq<M>, i, k := [], start, 0;
    ghost var whole := LazyItems(widen, mv, start, n);
    assert whole.Ok? ==> [] + whole.value.0 == whole.value.0;
    while k < n
      invariant k <= n && start <= i
      invariant whole == After(out, LazyItems(widen, mv, i, n - k))
    {
      var head := Decode(widen, mv, i);
      if head.Err? { return Err(head.error); }
      ghost var tail := LazyItems(widen, mv, head.value.1, n - k - 1);
      assert tail.Ok? ==> out + ([head.value.0] + tail.value.0) == out + [head.value.0] + tail.value.0;
      out, i, k := out + [head.value.0], head.value.1, k + 1;
    }
    assert out + [] == out;
    return Ok((List(out), i));
  }

  method DecodeEntries(widen: nat -> u64, mv: seq<u8>, start: nat, n: nat) returns (r: Result<(M, nat), DecError>)
    ensures var l := LazyEntries(widen, mv, start, n, []);
            r == if l.Err? then Err(l.error) else Ok((Dict(l.value.0), l.value.1))
    decreases Remaining(mv, start), 1, n
  {
    hide Lazy;
    var d: seq<Entry>, i, k := [], start, 0;
    ghost var whole := LazyEntries(widen, mv, start, n, d);
    while k < n
      invariant k <= n && start <= i && whole == LazyEntries(widen, mv, i, n - k, d)
    {
      var key := Decode(widen, mv, i);
      if key.Err? { return Err(key.error); }
      if !IsKey(key.value.0) { return Err(BadMapKey); }
      var val := Decode(widen, mv, key.value.1);
      if val.Err? { return Err(val.error); }
      d, i, k := Put(d, key.value.0, val.value.0), val.value.1, k + 1;
    }
    return Ok((Dict(d), i));
  }

  method UnpackOf(widen: nat -> u64, data: seq<u8>) returns (r: Result<M, DecError>)
    ensures r == Unpack(widen, data)
  {
    hide Lazy;
    var head := Decode(widen, data, 0);
    if head.Err? { return Err(head.error); }
    if head.value.1 != |data| { return Err(ExtraBytes); }
    return Ok(head.value.0);
  }
}
