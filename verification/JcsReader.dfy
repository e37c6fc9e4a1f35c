/** A reader for canonical text, and the proof that the text is uniquely readable. */
module JcsReader {
  import opened Ints
  import opened Options
  import opened Unicode
  import opened Jcs

  // ---- numbers --------------------------------------------------------------------------------------------

  predicate IsDigit(b: u8) { 0x30 <= b <= 0x39 }

  predicate NoDigitFirst(s: seq<u8>) { s == [] || !IsDigit(s[0]) }

  function DigitRun(s: seq<u8>): (r: nat)
    ensures r <= |s| && forall i :: 0 <= i < r ==> IsDigit(s[i])
  {
    if NoDigitFirst(s) then 0 else 1 + DigitRun(s[1..])
  }

  function ValueOf(ds: seq<u8>): int {
    if ds == [] then 0 else ValueOf(ds[..|ds| - 1]) * 10 + ds[|ds| - 1] - 0x30
  }

  lemma {:induction false} ValueOfDigits(n: nat)
    ensures ValueOf(Digits(n)) == n
  {
    if n >= 10 {
      ValueOfDigits(n / 10);
      assert Digits(n)[..|Digits(n)| - 1] == Digits(n / 10);
    } else {
      assert Digits(n)[..0] == [];
    }
  }

  lemma {:induction false} RunOfDigits(ds: seq<u8>, rest: seq<u8>)
    requires NoDigitFirst(rest) && forall i :: 0 <= i < |ds| ==> IsDigit(ds[i])
    ensures DigitRun(ds + rest) == |ds|
  {
    if ds == [] {
      assert ds + rest == rest;
    } else {
      RunOfDigits(ds[1..], rest);
      assert (ds + rest)[1..] == ds[1..] + rest;
    }
  }

  function ReadNatural(s: seq<u8>): (r: Option<(int, seq<u8>)>)
    ensures r.Some? ==> |r.value.1| < |s|
  {
    var n := DigitRun(s);
    if n == 0 then None else Some((ValueOf(s[..n]), s[n..]))
  }

  lemma ReadDigits(n: nat, rest: seq<u8>)
    requires NoDigitFirst(rest)
    ensures ReadNatural(Digits(n) + rest) == Some((n, rest))
  {
    hide Digits, ValueOf, DigitRun;
    var ds := Digits(n);
    RunOfDigits(ds, rest);
    ValueOfDigits(n);
    assert (ds + rest)[..|ds|] == ds && (ds + rest)[|ds|..] == rest;
  }

  function ReadInteger(s: seq<u8>): (r: Option<(J, seq<u8>)>)
    requires s != []
    ensures r.Some? ==> |r.value.1| < |s|
  {
    var n := ReadNatural(if s[0] == 0x2D then s[1..] else s);
    if n.None? then None
    else
      var v := if s[0] == 0x2D then -n.value.0 else n.value.0;
      if -0x8000_0000_0000_0000 <= v < 0x1_0000_0000_0000_0000 then Some((JInteger(v), n.value.1)) else None
  }

  // ---- strings --------------------------------------------------------------------------------------------

  function Unhex(b: u8): Option<nat> {
    if IsDigit(b) then Some(b - 0x30)
    else if 0x61 <= b <= 0x66 then Some(b - 0x61 + 10)
    else if 0x41 <= b <= 0x46 then Some(b - 0x41 + 10)
    else None
  }

  /** One character of a string: the byte it means and its width. */
  function ReadChar(s: seq<u8>): (r: Option<(u8, nat)>)
    requires s != []
    ensures r.Some? ==> 1 <= r.value.1 <= |s|
  {
    if s[0] == 0x5C then
      if |s| < 2 then None
      else if s[1] == 0x22 || s[1] == 0x5C then Some((s[1], 2))
      else if s[1] == 0x62 then Some((0x08, 2))
      else if s[1] == 0x66 then Some((0x0C, 2))
      else if s[1] == 0x6E then Some((0x0A, 2))
      else if s[1] == 0x72 then Some((0x0D, 2))
      else if s[1] == 0x74 then Some((0x09, 2))
      else if s[1] == 0x75 && |s| >= 6 && s[2] == s[3] == 0x30 && Unhex(s[4]).Some? && Unhex(s[5]).Some? then
        Some((Unhex(s[4]).value * 16 + Unhex(s[5]).value, 6))
      else None
    else if s[0] < 0x20 then None
    else Some((s[0], 1))
  }

  function ReadChars(s: seq<u8>): (r: Option<(seq<u8>, seq<u8>)>)
    ensures r.Some? ==> |r.value.1| < |s|
  {
    if s == [] then None
    else if s[0] == 0x22 then Some(([], s[1..]))
    else
      var c := ReadChar(s);
      if c.None? then None
      else
        var tail := ReadChars(s[c.value.1..]);
        if tail.None? then None else Some(([c.value.0] + tail.value.0, tail.value.1))
  }

  lemma ReadEscapedByte(b: u8, rest: seq<u8>)
    ensures ReadChar(EscapedByte(b) + rest) == Some((b, |EscapedByte(b)|))
    ensures EscapedByte(b)[0] != 0x22
  {}

  // ---- the spellings JSON allows for a character ------------------------------------------------------------

  function ShortEscape(b: u8): Option<Scalar> {
    if b == 0x22 || b == 0x5C || b == 0x2F then Some(b)
    else if b == 0x62 then Some(0x08)
    else if b == 0x66 then Some(0x0C)
    else if b == 0x6E then Some(0x0A)
    else if b == 0x72 then Some(0x0D)
    else if b == 0x74 then Some(0x09)
    else None
  }

  /** `\uXXXX`, in either case of hex digits, for one UTF-16 unit. */
  predicate SpellsUnit(s: seq<u8>, u: u16) {
    && |s| == 6 && s[0] == 0x5C && s[1] == 0x75 && (forall i :: 2 <= i < 6 ==> Unhex(s[i]).Some?)
    && ((Unhex(s[2]).value * 16 + Unhex(s[3]).value) * 16 + Unhex(s[4]).value) * 16 + Unhex(s[5]).value == u
  }

  /** A character may stand for itself unless it is a control, a quote or a backslash; it may have a two-character escape;
      and it may be spelled by its UTF-16 units. */
  predicate Spells(s: seq<u8>, c: Scalar) {
    || (c >= 0x20 && c != 0x22 && c != 0x5C && s == Utf8Char(c))
    || (|s| == 2 && s[0] == 0x5C && ShortEscape(s[1]) == Some(c))
    || (|Utf16Char(c)| == 1 && SpellsUnit(s, Utf16Char(c)[0]))
    || (|Utf16Char(c)| == 2 && |s| == 12 && SpellsUnit(s[..6], Utf16Char(c)[0]) && SpellsUnit(s[6..], Utf16Char(c)[1]))
  }

  lemma {:induction false} HighBytesStand(bs: seq<u8>)
    requires forall i :: 0 <= i < |bs| ==> bs[i] >= 0x80
    ensures Escaped(bs) == bs
  {
    if bs != [] {
      HighBytesStand(bs[1..]);
      assert bs == [bs[0]] + bs[1..];
    }
  }

  lemma EscapedChar(c: Scalar)
    ensures Escaped(Utf8Char(c)) == if c < 0x80 then EscapedByte(c) else Utf8Char(c)
  {
    if c >= 0x80 {
      HighBytesStand(Utf8Char(c));
    } else {
      assert Escaped([c]) == EscapedByte(c) + Escaped([]);
    }
  }

  /** What the writer emits for a character is a JSON spelling of it, and none is shorter. */
  lemma EscapesAreShortest(c: Scalar)
    ensures Spells(Escaped(Utf8Char(c)), c)
    ensures forall s :: Spells(s, c) ==> |Escaped(Utf8Char(c))| <= |s|
  {
    EscapedChar(c);
  }

  lemma {:induction false} ReadEscaped(bs: seq<u8>, rest: seq<u8>)
    ensures ReadChars(Escaped(bs) + [0x22] + rest) == Some((bs, rest))
  {
    hide EscapedByte, ReadChar;
    var s := Escaped(bs) + [0x22] + rest;
    if bs == [] {
      assert s == [0x22] + rest;
    } else {
      var e, tail := EscapedByte(bs[0]), Escaped(bs[1..]) + [0x22] + rest;
      assert s == e + tail && s[|e|..] == tail;
      ReadEscapedByte(bs[0], tail);
      ReadEscaped(bs[1..], rest);
      assert bs == [bs[0]] + bs[1..];
    }
  }

  /** After the opening quote. */
  function ReadString(s: seq<u8>): (r: Option<(Str, seq<u8>)>)
    ensures r.Some? ==> |r.value.1| < |s|
  {
    var chars := ReadChars(s);
    if chars.None? then None
    else
      var str := Utf8Decode(chars.value.0);
      if str.None? then None else Some((str.value, chars.value.1))
  }

  lemma ReadStringText(k: Str, rest: seq<u8>)
    ensures StringText(k) != [] && StringText(k)[0] == 0x22
    ensures ReadString((StringText(k) + rest)[1..]) == Some((k, rest))
  {
    hide Escaped, ReadChars, Utf8, Utf8Decode;
    assert (StringText(k) + rest)[1..] == Escaped(Utf8(k)) + [0x22] + rest;
    ReadEscaped(Utf8(k), rest);
    Utf8Exact(Utf8(k), k);
  }

  // ---- values ---------------------------------------------------------------------------------------------

  predicate StartsWith(s: seq<u8>, p: seq<u8>) { |p| <= |s| && s[..|p|] == p }

  function Read(s: seq<u8>): (r: Option<(J, seq<u8>)>)
    ensures r.Some? ==> |r.value.1| < |s|
    decreases |s|, 1
  {
    if s == [] then None
    else if s[0] == 0x6E && StartsWith(s, NULL_TEXT) then Some((JNull, s[4..]))
    else if s[0] == 0x74 && StartsWith(s, TRUE_TEXT) then Some((JBool(true), s[4..]))
    else if s[0] == 0x66 && StartsWith(s, FALSE_TEXT) then Some((JBool(false), s[5..]))
    else if s[0] == 0x22 then
      var str := ReadString(s[1..]);
      if str.None? then None else Some((JString(str.value.0), str.value.1))
    else if s[0] == 0x5B then
      if |s| > 1 && s[1] == 0x5D then Some((JArray([]), s[2..]))
      else
        var items := ReadItems(s[1..]);
        if items.None? then None else Some((JArray(items.value.0), items.value.1))
    else if s[0] == 0x7B then
      if |s| > 1 && s[1] == 0x7D then Some((JObject(map[]), s[2..]))
      else
        var fields := ReadFields(s[1..]);
        if fields.None? then None else Some((JObject(fields.value.0), fields.value.1))
    else ReadInteger(s)
  }

  function ReadItems(s: seq<u8>): (r: Option<(seq<J>, seq<u8>)>)
    ensures r.Some? ==> |r.value.1| < |s|
    decreases |s|, 2
  {
    var head := Read(s);
    if head.None? || head.value.1 == [] then None
    else
      var (v, after) := head.value;
      if after[0] == 0x5D then Some(([v], after[1..]))
      else if after[0] != 0x2C then None
      else
        var tail := ReadItems(after[1..]);
        if tail.None? then None else Some(([v] + tail.value.0, tail.value.1))
  }

  function ReadFields(s: seq<u8>): (r: Option<(map<Str, J>, seq<u8>)>)
    ensures r.Some? ==> |r.value.1| < |s|
    decreases |s|, 2
  {
    if s == [] || s[0] != 0x22 then None
    else
      var key := ReadString(s[1..]);
      if key.None? || key.value.1 == [] || key.value.1[0] != 0x3A then None
      else
        var head := Read(key.value.1[1..]);
        if head.None? || head.value.1 == [] then None
        else
          var (v, after) := head.value;
          if after[0] == 0x7D then Some((map[key.value.0 := v], after[1..]))
          else if after[0] != 0x2C then None
          else
            var tail := ReadFields(after[1..]);
            if tail.None? then None else Some((tail.value.0[key.value.0 := v], tail.value.1))
  }

  // ---- reading back what was written ----------------------------------------------------------------------

  lemma TextStarts(o: KeyOrder, v: J)
    requires InProfile(v)
    ensures Text(o, v) != [] && Text(o, v)[0] != 0x5D
    ensures !v.JNull? && !v.JBool? ==> Text(o, v)[0] != 0x6E && Text(o, v)[0] != 0x74 && Text(o, v)[0] != 0x66
    ensures v.JString? <==> Text(o, v)[0] == 0x22
    ensures v.JArray? <==> Text(o, v)[0] == 0x5B
    ensures v.JObject? <==> Text(o, v)[0] == 0x7B
  {
    hide Digits, Escaped, SortedKeys;
    if v.JInteger? {
      assert IntegerText(v.v)[0] == 0x2D || IsDigit(IntegerText(v.v)[0]);
    }
  }

  lemma ReadIntegerText(v: JInt, rest: seq<u8>)
    requires NoDigitFirst(rest)
    ensures var s := IntegerText(v) + rest;
            s != [] && (s[0] == 0x2D || IsDigit(s[0])) && ReadInteger(s) == Some((JInteger(v), rest))
  {
    hide Digits, ReadNatural;
    if v < 0 {
      assert (IntegerText(v) + rest)[1..] == Digits(-v) + rest;
      ReadDigits(-v, rest);
    } else {
      ReadDigits(v, rest);
    }
  }

  lemma ReadComposite(s: seq<u8>)
    requires |s| > 1 && (s[0] == 0x5B || s[0] == 0x7B)
    ensures s[0] == 0x5B && s[1] != 0x5D && ReadItems(s[1..]).Some? ==>
              Read(s) == Some((JArray(ReadItems(s[1..]).value.0), ReadItems(s[1..]).value.1))
    ensures s[0] == 0x7B && s[1] != 0x7D && ReadFields(s[1..]).Some? ==>
              Read(s) == Some((JObject(ReadFields(s[1..]).value.0), ReadFields(s[1..]).value.1))
  {
    hide ReadItems, ReadFields, ReadString, ReadInteger;
  }

  /** The three words. */
  lemma ReadWords(rest: seq<u8>)
    ensures Read(NULL_TEXT + rest) == Some((JNull, rest))
    ensures Read(TRUE_TEXT + rest) == Some((JBool(true), rest))
    ensures Read(FALSE_TEXT + rest) == Some((JBool(false), rest))
  {
    hide ReadInteger, ReadString, ReadItems, ReadFields;
    assert (NULL_TEXT + rest)[..4] == NULL_TEXT && (NULL_TEXT + rest)[4..] == rest;
    assert (TRUE_TEXT + rest)[..4] == TRUE_TEXT && (TRUE_TEXT + rest)[4..] == rest;
    assert (FALSE_TEXT + rest)[..5] == FALSE_TEXT && (FALSE_TEXT + rest)[5..] == rest;
  }

  lemma ReadLeaf(o: KeyOrder, v: J, rest: seq<u8>)
    requires InProfile(v) && NoDigitFirst(rest) && !v.JArray? && !v.JObject?
    ensures Read(Text(o, v) + rest) == Some((v, rest))
  {
    hide IntegerText, ReadInteger, StringText, ReadString, ReadItems, ReadFields;
    ReadWords(rest);
    if v.JInteger? {
      ReadIntegerText(v.v, rest);
    } else if v.JString? {
      ReadStringText(v.s, rest);
    }
  }

  lemma ReadItem(s: seq<u8>, v: J, after: seq<u8>)
    requires Read(s) == Some((v, after)) && after != []
    ensures after[0] == 0x5D ==> ReadItems(s) == Some(([v], after[1..]))
    ensures after[0] == 0x2C && ReadItems(after[1..]).Some? ==>
              ReadItems(s) == Some(([v] + ReadItems(after[1..]).value.0, ReadItems(after[1..]).value.1))
  {
    hide Read;
  }

  lemma ReadField(s: seq<u8>, k: Str, text: seq<u8>, v: J, after: seq<u8>)
    requires s != [] && s[0] == 0x22 && ReadString(s[1..]) == Some((k, text)) && text != [] && text[0] == 0x3A
    requires Read(text[1..]) == Some((v, after)) && after != []
    ensures after[0] == 0x7D ==> ReadFields(s) == Some((map[k := v], after[1..]))
    ensures after[0] == 0x2C && ReadFields(after[1..]).Some? ==>
              ReadFields(s) == Some((ReadFields(after[1..]).value.0[k := v], ReadFields(after[1..]).value.1))
  {
    hide Read, ReadString;
  }

  lemma TextOfArray(o: KeyOrder, v: J)
    requires v.JArray? && InProfile(v)
    ensures Text(o, v) == [0x5B] + ItemsText(o, v, 0) + [0x5D]
    ensures if v.items == [] then ItemsText(o, v, 0) == []
            else InProfile(v.items[0]) && ItemsText(o, v, 0) == Comma(0) + Text(o, v.items[0]) + ItemsText(o, v, 1)
  {
    if v.items != [] { ItemInProfile(v, 0); }
  }

  lemma ArrayText(o: KeyOrder, v: J, rest: seq<u8>)
    requires v.JArray? && InProfile(v)
    ensures var s := Text(o, v) + rest;
            if v.items == [] then s == [0x5B, 0x5D] + rest
            else s[0] == 0x5B && s[1..] == ItemsText(o, v, 0)[|Comma(0)|..] + [0x5D] + rest && |s| > 1 && s[1] != 0x5D
  {
    hide Text, InProfile, ItemsText;
    TextOfArray(o, v);
    if v.items != [] {
      TextStarts(o, v.items[0]);
      var t, tail := Text(o, v.items[0]), ItemsText(o, v, 1);
      assert ItemsText(o, v, 0) == t + tail && [0x5B] + (t + tail) + [0x5D] + rest == [0x5B] + (t + (tail + [0x5D] + rest));
    }
  }

  lemma ObjectText(o: KeyOrder, v: J, rest: seq<u8>)
    requires v.JObject?
    ensures var s, ks := Text(o, v) + rest, SortedKeys(o, v.fields.Keys);
            if ks == [] then v.fields == map[] && s == [0x7B, 0x7D] + rest
            else s[0] == 0x7B && s[1..] == FieldsText(o, v, ks, 0)[|Comma(0)|..] + [0x7D] + rest
                 && |s| > 1 && s[1] == 0x22
  {
    hide SortedKeys, FieldsText;
    var ks := SortedKeys(o, v.fields.Keys);
    var f := FieldsText(o, v, ks, 0);
    assert Text(o, v) == [0x7B] + f + [0x7D];
    hide Text;
    FieldsStart(o, v, ks);
    if ks == [] {
      assert v.fields.Keys == {};
    } else {
      assert [0x7B] + f + [0x7D] + rest == [0x7B] + (f + [0x7D] + rest);
    }
  }

  /** The fields open with a quote. */
  lemma FieldsStart(o: KeyOrder, v: J, ks: seq<Str>)
    requires v.JObject? && forall k :: k in ks ==> k in v.fields
    ensures var f := FieldsText(o, v, ks, 0);
            if ks == [] then f == [] else f != [] && f[0] == 0x22
  {
    hide Escaped, Text;
    if ks != [] {
      assert StringText(ks[0])[0] == 0x22;
    }
  }

  /** Reading the text of a value, followed by anything that cannot extend a number, gives the value and what
      follows. This holds for every key order. */
  lemma {:induction false} ReadText(o: KeyOrder, v: J, rest: seq<u8>)
    requires InProfile(v) && NoDigitFirst(rest)
    ensures Read(Text(o, v) + rest) == Some((v, rest))
    decreases v, 1, 0
  {
    hide Read, ReadItems, ReadFields, SortedKeys, StringText, ReadString, InProfile, Text;
    var s := Text(o, v) + rest;
    if v.JArray? {
      ArrayText(o, v, rest);
      ReadEmpty(rest);
      if v.items != [] {
        ReadItemsText(o, v, 0, rest);
        ReadComposite(s);
        assert v.items[0..] == v.items;
      }
    } else if v.JObject? {
      var ks := SortedKeys(o, v.fields.Keys);
      ObjectText(o, v, rest);
      ReadEmpty(rest);
      if ks != [] {
        ReadFieldsText(o, v, ks, 0, rest);
        ReadComposite(s);
        assert ks[0..] == ks;
        assert Fields(v, ks) == v.fields;
      }
    } else {
      ReadLeaf(o, v, rest);
    }
  }

  lemma ReadEmpty(rest: seq<u8>)
    ensures Read([0x5B, 0x5D] + rest) == Some((JArray([]), rest))
    ensures Read([0x7B, 0x7D] + rest) == Some((JObject(map[]), rest))
  {
    hide ReadItems, ReadFields;
    assert ([0x5B, 0x5D] + rest)[2..] == rest && ([0x7B, 0x7D] + rest)[2..] == rest;
  }

  lemma ItemInProfile(v: J, i: nat)
    requires InProfile(v)
    ensures v.JArray? && i < |v.items| ==> InProfile(v.items[i])
  {}

  lemma FieldInProfile(v: J, k: Str)
    requires InProfile(v)
    ensures v.JObject? && k in v.fields ==> InProfile(v.fields[k])
  {}

  lemma ItemsTextStep(o: KeyOrder, v: J, i: nat, rest: seq<u8>)
    requires v.JArray? && i < |v.items|
    ensures var tail := ItemsText(o, v, i + 1) + [0x5D] + rest;
            && ItemsText(o, v, i)[|Comma(i)|..] + [0x5D] + rest == Text(o, v.items[i]) + tail
            && (if i + 1 < |v.items| then tail[0] == 0x2C && tail[1..] == ItemsText(o, v, i + 1)[|Comma(i + 1)|..] + [0x5D] + rest
                else tail[0] == 0x5D && tail[1..] == rest)
  {
    hide Text;
  }

  lemma {:induction false} ReadItemsText(o: KeyOrder, v: J, i: nat, rest: seq<u8>)
    requires v.JArray? && InProfile(v) && i < |v.items|
    ensures ReadItems(ItemsText(o, v, i)[|Comma(i)|..] + [0x5D] + rest) == Some((v.items[i..], rest))
    decreases v, 0, |v.items| - i
  {
    hide Read, ReadItems, InProfile, Text, ItemsText;
    var head, tail := Text(o, v.items[i]), ItemsText(o, v, i + 1) + [0x5D] + rest;
    ItemsTextStep(o, v, i, rest);
    ItemInProfile(v, i);
    ReadText(o, v.items[i], tail);
    ReadItem(head + tail, v.items[i], tail);
    assert v.items[i..] == [v.items[i]] + v.items[i + 1..];
    if i + 1 < |v.items| {
      ReadItemsText(o, v, i + 1, rest);
    } else {
      assert v.items[i..] == [v.items[i]];
    }
  }

  ghost function Fields(v: J, ks: seq<Str>): map<Str, J>
    requires v.JObject? && forall k :: k in ks ==> k in v.fields
  {
    map k | k in ks :: v.fields[k]
  }

  lemma FieldsStep(v: J, ks: seq<Str>, i: nat)
    requires v.JObject? && i < |ks| && forall k :: k in ks ==> k in v.fields
    ensures Fields(v, ks[i..]) == Fields(v, ks[i + 1..])[ks[i] := v.fields[ks[i]]]
    ensures i + 1 == |ks| ==> Fields(v, ks[i..]) == map[ks[i] := v.fields[ks[i]]]
  {
    assert ks[i..] == [ks[i]] + ks[i + 1..];
  }

  lemma FieldsTextStep(o: KeyOrder, v: J, ks: seq<Str>, i: nat, rest: seq<u8>)
    requires v.JObject? && i < |ks| && forall k :: k in ks ==> k in v.fields
    ensures var tail := FieldsText(o, v, ks, i + 1) + [0x7D] + rest;
            && FieldsText(o, v, ks, i)[|Comma(i)|..] + [0x7D] + rest
               == StringText(ks[i]) + ([0x3A] + (Text(o, v.fields[ks[i]]) + tail))
            && (if i + 1 < |ks| then tail[0] == 0x2C && tail[1..] == FieldsText(o, v, ks, i + 1)[|Comma(i + 1)|..] + [0x7D] + rest
                else tail[0] == 0x7D && tail[1..] == rest)
  {
    hide StringText, Text;
  }

  lemma {:induction false} ReadFieldsText(o: KeyOrder, v: J, ks: seq<Str>, i: nat, rest: seq<u8>)
    requires v.JObject? && InProfile(v) && i < |ks| && forall k :: k in ks ==> k in v.fields
    ensures ReadFields(FieldsText(o, v, ks, i)[|Comma(i)|..] + [0x7D] + rest) == Some((Fields(v, ks[i..]), rest))
    decreases v, 0, |ks| - i
  {
    hide Read, ReadFields, InProfile, Text, StringText, ReadString, FieldsText, Fields;
    var k, tail := ks[i], FieldsText(o, v, ks, i + 1) + [0x7D] + rest;
    var text := [0x3A] + (Text(o, v.fields[k]) + tail);
    FieldsTextStep(o, v, ks, i, rest);
    FieldsStep(v, ks, i);
    ReadStringText(k, text);
    assert text[1..] == Text(o, v.fields[k]) + tail;
    FieldInProfile(v, k);
    ReadText(o, v.fields[k], tail);
    ReadField(StringText(k) + text, k, text, v.fields[k], tail);
    if i + 1 < |ks| {
      ReadFieldsText(o, v, ks, i + 1, rest);
    }
  }

  /** A whole document. */
  function Parse(s: seq<u8>): Option<J> {
    var r := Read(s);
    if r.Some? && r.value.1 == [] then Some(r.value.0) else None
  }

  /** The canonical text of every accepted value reads back as that value. */
  lemma CanonReadsBack(v: J)
    requires Canon(v).Ok?
    ensures Parse(Canon(v).value) == Some(v)
  {
    FaultExact(v, ROOT);
    ReadText(ByUtf16, v, []);
    assert Text(ByUtf16, v) + [] == Text(ByUtf16, v);
  }

  /** So equal canonical bytes mean equal values. */
  lemma CanonInjective(v: J, w: J)
    requires Canon(v).Ok? && Canon(v) == Canon(w)
    ensures v == w
  {
    CanonReadsBack(v);
    CanonReadsBack(w);
  }
}
