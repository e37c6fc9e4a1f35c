/** Strings as sequences of Unicode scalar values, their UTF-8 and UTF-16 forms, and the three orders on keys. */
module Unicode {
  import opened Ints
  import opened Options

  type Scalar = x: int | 0 <= x < 0xD800 || 0xE000 <= x < 0x11_0000

  type Str = seq<Scalar>

  function Hi(x: nat): nat { x / 64 }

  function Lo(x: nat): (r: nat)
    ensures r < 64
  {
    x % 64
  }

  /** Six payload bits a continuation byte, most significant first. */
  function Utf8Char(c: Scalar): (r: seq<u8>)
    ensures 1 <= |r| <= 4
  {
    if c < 0x80 then [c]
    else if c < 0x800 then [0xC0 + Hi(c), 0x80 + Lo(c)]
    else if c < 0x1_0000 then [0xE0 + Hi(Hi(c)), 0x80 + Lo(Hi(c)), 0x80 + Lo(c)]
    else [0xF0 + Hi(Hi(Hi(c))), 0x80 + Lo(Hi(Hi(c))), 0x80 + Lo(Hi(c)), 0x80 + Lo(c)]
  }

  function Utf8(s: Str): seq<u8> { if s == [] then [] else Utf8Char(s[0]) + Utf8(s[1..]) }

  function Utf16Char(c: Scalar): (r: seq<u16>)
    ensures 1 <= |r| <= 2
  {
    if c < 0x1_0000 then [c] else [0xD800 + (c - 0x1_0000) / 1024, 0xDC00 + (c - 0x1_0000) % 1024]
  }

  function Utf16(s: Str): seq<u16> { if s == [] then [] else Utf16Char(s[0]) + Utf16(s[1..]) }

  // ---- strict UTF-8 decoding ------------------------------------------------------------------------------

  predicate Continues(bs: seq<u8>, i: nat) { i < |bs| && 0x80 <= bs[i] < 0xC0 }

  function Two(h: int, b: int): int { (h - 0xC0) * 64 + (b - 0x80) }

  function Three(h: int, b1: int, b2: int): int { ((h - 0xE0) * 64 + (b1 - 0x80)) * 64 + (b2 - 0x80) }

  function Four(h: int, b1: int, b2: int, b3: int): int {
    (((h - 0xF0) * 64 + (b1 - 0x80)) * 64 + (b2 - 0x80)) * 64 + (b3 - 0x80)
  }

  /** The first scalar and its width; overlong forms, surrogates and values past U+10FFFF are refused. */
  function Utf8Next(bs: seq<u8>): (r: Option<(Scalar, nat)>)
    ensures r.Some? ==> 1 <= r.value.1 <= |bs|
  {
    if bs == [] then None
    else if bs[0] < 0x80 then Some((bs[0], 1))
    else if 0xC2 <= bs[0] < 0xE0 && Continues(bs, 1) then Some((Two(bs[0], bs[1]), 2))
    else if 0xE0 <= bs[0] < 0xF0 && Continues(bs, 1) && Continues(bs, 2) then
      var c := Three(bs[0], bs[1], bs[2]);
      if c < 0x800 || 0xD800 <= c < 0xE000 then None else Some((c, 3))
    else if 0xF0 <= bs[0] < 0xF5 && Continues(bs, 1) && Continues(bs, 2) && Continues(bs, 3) then
      var c := Four(bs[0], bs[1], bs[2], bs[3]);
      if c < 0x1_0000 || 0x11_0000 <= c then None else Some((c, 4))
    else None
  }

  function Utf8Decode(bs: seq<u8>): Option<Str> {
    if bs == [] then Some([])
    else
      var head := Utf8Next(bs);
      if head.None? then None
      else
        var tail := Utf8Decode(bs[head.value.1..]);
        if tail.None? then None else Some([head.value.0] + tail.value)
  }

  lemma NextOfChar(c: Scalar, rest: seq<u8>)
    ensures Utf8Next(Utf8Char(c) + rest) == Some((c, |Utf8Char(c)|))
  {
    var e := Utf8Char(c);
    var bs := e + rest;
    assert forall i :: 0 <= i < |e| ==> bs[i] == e[i];
  }

  lemma CharOfNext(bs: seq<u8>)
    requires Utf8Next(bs).Some?
    ensures var (c, n) := Utf8Next(bs).value; bs[..n] == Utf8Char(c)
  {
    var (c, n) := Utf8Next(bs).value;
    if n >= 2 {
      var h: int, l1: int := bs[0], bs[1] - 0x80;
      if n == 2 {
        Split(h - 0xC0, l1);
      } else {
        var l2: int := bs[2] - 0x80;
        if n == 3 {
          Split((h - 0xE0) * 64 + l1, l2);
          Split(h - 0xE0, l1);
        } else {
          Split(((h - 0xF0) * 64 + l1) * 64 + l2, bs[3] - 0x80);
          Split((h - 0xF0) * 64 + l1, l2);
          Split(h - 0xF0, l1);
        }
      }
    }
  }

  lemma Split(h: int, l: int)
    requires 0 <= h && 0 <= l < 64
    ensures (h * 64 + l) / 64 == h && (h * 64 + l) % 64 == l
  {}

  lemma {:induction false} DecodeEncoded(s: Str)
    ensures Utf8Decode(Utf8(s)) == Some(s)
  {
    hide Utf8Next, Utf8Char;
    if s != [] {
      NextOfChar(s[0], Utf8(s[1..]));
      var bs := Utf8(s);
      assert bs == Utf8Char(s[0]) + Utf8(s[1..]) && bs[|Utf8Char(s[0])|..] == Utf8(s[1..]);
      DecodeEncoded(s[1..]);
      assert s == [s[0]] + s[1..];
    }
  }

  lemma {:induction false} EncodeDecoded(bs: seq<u8>)
    requires Utf8Decode(bs).Some?
    ensures Utf8(Utf8Decode(bs).value) == bs
  {
    hide Utf8Next, Utf8Char;
    if bs != [] {
      var (c, n) := Utf8Next(bs).value;
      CharOfNext(bs);
      EncodeDecoded(bs[n..]);
      var tail := Utf8Decode(bs[n..]).value;
      assert ([c] + tail)[1..] == tail && bs == bs[..n] + bs[n..];
    }
  }

  /** The decoder is the exact inverse of the encoder: it accepts the UTF-8 form of a string and nothing else. */
  lemma Utf8Exact(bs: seq<u8>, s: Str)
    ensures Utf8Decode(bs) == Some(s) <==> bs == Utf8(s)
  {
    DecodeEncoded(s);
    if Utf8Decode(bs).Some? { EncodeDecoded(bs); }
  }

  // ---- orders ---------------------------------------------------------------------------------------------

  /** Lexicographic order: a proper prefix comes first. */
  predicate Less(a: seq<int>, b: seq<int>) {
    b != [] && (a == [] || a[0] < b[0] || (a[0] == b[0] && Less(a[1..], b[1..])))
  }

  lemma {:induction false} LessIrreflexive(a: seq<int>)
    ensures !Less(a, a)
  {
    if a != [] { LessIrreflexive(a[1..]); }
  }

  lemma {:induction false} LessTotal(a: seq<int>, b: seq<int>)
    ensures a == b || Less(a, b) || Less(b, a)
  {
    if a != [] && b != [] {
      LessTotal(a[1..], b[1..]);
      if a[0] == b[0] && a[1..] == b[1..] {
        assert a == [a[0]] + a[1..] && b == [b[0]] + b[1..];
      }
    }
  }

  lemma {:induction false} LessTransitive(a: seq<int>, b: seq<int>, c: seq<int>)
    requires Less(a, b) && Less(b, c)
    ensures Less(a, c)
  {
    if a != [] && a[0] == b[0] && b[0] == c[0] { LessTransitive(a[1..], b[1..], c[1..]); }
  }

  lemma {:induction false} LessSamePrefix(p: seq<int>, a: seq<int>, b: seq<int>)
    ensures Less(p + a, p + b) <==> Less(a, b)
  {
    if p == [] {
      assert p + a == a && p + b == b;
    } else {
      LessSamePrefix(p[1..], a, b);
      assert (p + a)[1..] == p[1..] + a && (p + b)[1..] == p[1..] + b;
    }
  }


  lemma DecidedAt(p: seq<int>, q: seq<int>, j: nat, a: seq<int>, b: seq<int>)
    requires j < |p| && j < |q| && p[..j] == q[..j] && p[j] != q[j]
    ensures Less(p + a, q + b) <==> p[j] < q[j]
  {
    assert p + a == p[..j] + (p[j..] + a) && q + b == q[..j] + (q[j..] + b);
    LessSamePrefix(p[..j], p[j..] + a, q[j..] + b);
  }

  lemma DivOrder(x: nat, y: nat)
    ensures x < y <==> Hi(x) < Hi(y) || (Hi(x) == Hi(y) && Lo(x) < Lo(y))
    ensures x == y <==> Hi(x) == Hi(y) && Lo(x) == Lo(y)
  {}

  lemma LeadByte(c: Scalar)
    ensures var p := Utf8Char(c);
            if c < 0x80 then p[0] == c
            else if c < 0x800 then 0xC0 <= p[0] < 0xE0
            else if c < 0x1_0000 then 0xE0 <= p[0] < 0xF0
            else 0xF0 <= p[0]
  {}

  /** The position of the first byte that differs. */
  lemma CharDiffers(x: Scalar, y: Scalar) returns (j: nat)
    requires x != y
    ensures var p, q := Utf8Char(x), Utf8Char(y);
            j < |p| && j < |q| && p[..j] == q[..j] && p[j] != q[j] && (p[j] < q[j] <==> x < y)
  {
    LeadByte(x);
    LeadByte(y);
    if Utf8Char(x)[0] != Utf8Char(y)[0] {
      j := 0;
    } else {
      hide Utf8Char;
      j := TailDiffers(x, y);
    }
  }

  lemma TailDiffers(x: Scalar, y: Scalar) returns (j: nat)
    requires x != y && Utf8Char(x)[0] == Utf8Char(y)[0]
    ensures var p, q := Utf8Char(x), Utf8Char(y);
            j < |p| && j < |q| && p[..j] == q[..j] && p[j] != q[j] && (p[j] < q[j] <==> x < y)
  {
    DivOrder(x, y);
    DivOrder(Hi(x), Hi(y));
    DivOrder(Hi(Hi(x)), Hi(Hi(y)));
    LeadByte(x);
    LeadByte(y);
    hide Hi, Lo;
    var p, q := Utf8Char(x), Utf8Char(y);
    assert |p| == |q| > 1;
    j := if p[1] != q[1] then 1 else if p[2] != q[2] then 2 else 3;
  }

  lemma CharBytesDecide(x: Scalar, y: Scalar, a: seq<u8>, b: seq<u8>)
    requires x != y
    ensures Less(Utf8Char(x) + a, Utf8Char(y) + b) <==> x < y
  {
    var j := CharDiffers(x, y);
    hide Utf8Char;
    DecidedAt(Utf8Char(x), Utf8Char(y), j, a, b);
  }

  /** Byte order on UTF-8 is code-point order, for all strings. */
  lemma {:induction false} BytesOrderIsCodePointOrder(a: Str, b: Str)
    ensures Less(Utf8(a), Utf8(b)) <==> Less(a, b)
  {
    hide Utf8Char;
    if a != [] && b != [] {
      if a[0] == b[0] {
        LessSamePrefix(Utf8Char(a[0]), Utf8(a[1..]), Utf8(b[1..]));
        BytesOrderIsCodePointOrder(a[1..], b[1..]);
      } else {
        CharBytesDecide(a[0], b[0], Utf8(a[1..]), Utf8(b[1..]));
      }
    }
  }

  /** UTF-16 puts the supplementary planes (as surrogates) before U+E000..U+FFFF. */
  predicate Astral(c: Scalar) { c >= 0x1_0000 }

  predicate High(c: Scalar) { 0xE000 <= c < 0x1_0000 }

  lemma CharUnitsDecide(x: Scalar, y: Scalar, a: seq<u16>, b: seq<u16>)
    requires x != y
    ensures Less(Utf16Char(x) + a, Utf16Char(y) + b)
            <==> (if Astral(x) && High(y) then true else if High(x) && Astral(y) then false else x < y)
  {
    var p, q := Utf16Char(x), Utf16Char(y);
    if p[0] != q[0] {
      DecidedAt(p, q, 0, a, b);
    } else {
      DecidedAt(p, q, 1, a, b);
    }
  }

  /** The first characters that differ are one supplementary character and one of U+E000..U+FFFF. */
  predicate Crossed(a: Str, b: Str) {
    a != [] && b != []
    && (if a[0] == b[0] then Crossed(a[1..], b[1..])
        else (Astral(a[0]) && High(b[0])) || (High(a[0]) && Astral(b[0])))
  }

  /** UTF-16 order and code-point order agree on two keys exactly when the keys are not crossed. */
  lemma {:induction false} Utf16OrderExact(a: Str, b: Str)
    ensures (Less(Utf16(a), Utf16(b)) <==> Less(a, b)) <==> !Crossed(a, b)
  {
    hide Utf16Char;
    if a != [] && b != [] {
      if a[0] == b[0] {
        LessSamePrefix(Utf16Char(a[0]), Utf16(a[1..]), Utf16(b[1..]));
        Utf16OrderExact(a[1..], b[1..]);
      } else {
        CharUnitsDecide(a[0], b[0], Utf16(a[1..]), Utf16(b[1..]));
      }
    }
  }

  lemma {:induction false} Utf16Injective(a: Str, b: Str)
    ensures Utf16(a) == Utf16(b) ==> a == b
  {
    hide Utf16Char;
    if a != b && a != [] && b != [] {
      if a[0] == b[0] {
        Utf16Injective(a[1..], b[1..]);
        assert a == [a[0]] + a[1..] && b == [b[0]] + b[1..];
        assert Utf16(a)[|Utf16Char(a[0])|..] == Utf16(a[1..]) && Utf16(b)[|Utf16Char(a[0])|..] == Utf16(b[1..]);
      } else {
        CharUnitsDecide(a[0], b[0], Utf16(a[1..]), Utf16(b[1..]));
        CharUnitsDecide(b[0], a[0], Utf16(b[1..]), Utf16(a[1..]));
      }
    }
  }
}
