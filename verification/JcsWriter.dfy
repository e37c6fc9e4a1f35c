/** The canonical writer as the program runs it: one output vector and one path, pushed and truncated; the key check; and
    what the key check buys. */
module JcsWriter {
  import opened Ints
  import opened Options
  import opened Unicode
  import opened Jcs

  /** Insertion into a sorted sequence stands for the library sort: the order is total, so the result is the same. */
  method SortKeys(o: KeyOrder, s: set<Str>) returns (ks: seq<Str>)
    ensures ks == SortedKeys(o, s)
  {
    hide Sorted;
    ks := [];
    assert Sorted(o, ks) by { EmptySorted(o); }
    var rest := s;
    while rest != {}
      invariant rest <= s && Sorted(o, ks) && forall x :: x in ks <==> x in s && x !in rest
      decreases |rest|
    {
      var k :| k in rest;
      ks := Insert(o, k, ks);
      rest := rest - {k};
    }
    SortedKeysUnique(o, s, ks);
  }

  lemma EmptySorted(o: KeyOrder)
    ensures Sorted(o, [])
  {}

  method WriteDigits(n: nat) returns (r: seq<u8>)
    ensures r == Digits(n)
  {
    var m := n;
    r := [0x30 + m % 10];
    while m >= 10
      invariant Digits(n) == (if m < 10 then [] else Digits(m / 10)) + r
    {
      m := m / 10;
      r := [0x30 + m % 10] + r;
    }
  }

  class Writer {
    var out: seq<u8>
    var path: Str

    constructor ()
      ensures out == [] && path == ROOT
    {
      out, path := [], ROOT;
    }

    /** Byte by byte. */
    method WriteString(s: Str)
      modifies this`out
      ensures out == old(out) + StringText(s)
    {
      hide EscapedByte;
      out := out + [0x22];
      var bs, i := Utf8(s), 0;
      while i < |bs|
        invariant i <= |bs| && out + Escaped(bs[i..]) == old(out) + [0x22] + Escaped(bs)
      {
        assert bs[i..][1..] == bs[i + 1..];
        out := out + EscapedByte(bs[i]);
        i := i + 1;
      }
      assert bs[i..] == [] && out + [] == out;
      out := out + [0x22];
    }

    method WriteInteger(n: JInt) returns (e: Option<CanonError>)
      modifies this`out
      ensures e == Fault(JInteger(n), path)
      ensures e.None? ==> out == old(out) + IntegerText(n)
    {
      if n < -MAX_SAFE_INTEGER || n > MAX_SAFE_INTEGER { return Some(IntegerOutOfRange(path)); }
      if n < 0 {
        out := out + [0x2D];
      }
      var ds := WriteDigits(if n < 0 then -n else n);
      out := out + ds;
      return None;
    }

    /** Appends the text of a value, or stops at the first fault. */
    method WriteValue(v: J) returns (e: Option<CanonError>)
      modifies this
      ensures e == Fault(v, old(path))
      ensures e.None? ==> out == old(out) + Text(ByUtf16, v) && path == old(path)
      decreases v, 1, 0
    {
      hide SortedKeys, StringText, IntegerText;
      match v {
        case JNull => out := out + NULL_TEXT;
        case JBool(b) => out := out + if b then TRUE_TEXT else FALSE_TEXT;
        case JInteger(n) =>
          e := WriteInteger(n);
          return;
        case JFloat(_) => return Some(FloatInBody(path));
        case JString(s) => WriteString(s);
        case JArray(_) =>
          e := WriteItems(v);
          return;
        case JObject(_) =>
          e := WriteObject(v);
          return;
      }
      return None;
    }

    method WriteItems(v: J) returns (e: Option<CanonError>)
      requires v.JArray?
      modifies this
      ensures e == ItemsFault(v, old(path), 0)
      ensures e.None? ==> out == old(out) + [0x5B] + ItemsText(ByUtf16, v, 0) + [0x5D] && path == old(path)
      decreases v, 0, 0
    {
      hide Text, Fault, Digits;
      ghost var before := out + [0x5B];
      out := out + [0x5B];
      var i := 0;
      while i < |v.items|
        invariant i <= |v.items| && path == old(path)
        invariant out + ItemsText(ByUtf16, v, i) == before + ItemsText(ByUtf16, v, 0)
        invariant ItemsFault(v, path, i) == ItemsFault(v, path, 0)
      {
        out := out + Comma(i);
        var n := |path|;
        var ds := WriteDigits(i);
        path := path + [0x5B] + ds + [0x5D];
        e := WriteValue(v.items[i]);
        if e.Some? { return; }
        path := path[..n];
        i := i + 1;
      }
      out := out + [0x5D];
      return None;
    }

    method WriteObject(v: J) returns (e: Option<CanonError>)
      requires v.JObject?
      modifies this
      ensures e == FieldsFault(v, old(path), SortedKeys(ByUtf16, v.fields.Keys), 0)
      ensures e.None? ==>
                && out == old(out) + [0x7B] + FieldsText(ByUtf16, v, SortedKeys(ByUtf16, v.fields.Keys), 0) + [0x7D]
                && path == old(path)
      decreases v, 0, 1
    {
      hide Text, Fault, StringText, Sorted, FieldsText, FieldsFault;
      var ks := SortKeys(ByUtf16, v.fields.Keys);
      out := out + [0x7B];
      e := WriteFields(v, ks);
      if e.None? {
        out := out + [0x7D];
      }
    }

    method WriteFields(v: J, ks: seq<Str>) returns (e: Option<CanonError>)
      requires v.JObject? && forall k :: k in ks ==> k in v.fields
      modifies this
      ensures e == FieldsFault(v, old(path), ks, 0)
      ensures e.None? ==> out == old(out) + FieldsText(ByUtf16, v, ks, 0) && path == old(path)
      decreases v, 0, 0
    {
      hide Text, Fault, StringText;
      var i := 0;
      while i < |ks|
        invariant i <= |ks| && path == old(path)
        invariant out + FieldsText(ByUtf16, v, ks, i) == old(out) + FieldsText(ByUtf16, v, ks, 0)
        invariant FieldsFault(v, path, ks, i) == FieldsFault(v, path, ks, 0)
      {
        ghost var was := out;
        out := out + Comma(i);
        WriteString(ks[i]);
        out := out + [0x3A];
        var n := |path|;
        path := path + [0x2E] + ks[i];
        e := WriteValue(v.fields[ks[i]]);
        if e.Some? { return; }
        path := path[..n];
        FieldsTextJoin(v, ks, i, was);
        i := i + 1;
      }
      assert FieldsText(ByUtf16, v, ks, i) == [];
      return None;
    }
  }

  lemma FieldsTextJoin(v: J, ks: seq<Str>, i: nat, was: seq<u8>)
    requires v.JObject? && i < |ks| && forall k :: k in ks ==> k in v.fields
    ensures was + Comma(i) + StringText(ks[i]) + [0x3A] + Text(ByUtf16, v.fields[ks[i]]) + FieldsText(ByUtf16, v, ks, i + 1)
            == was + FieldsText(ByUtf16, v, ks, i)
  {
    hide StringText, Text;
    Joined(was, Comma(i), StringText(ks[i]), [0x3A], Text(ByUtf16, v.fields[ks[i]]), FieldsText(ByUtf16, v, ks, i + 1));
  }

  lemma Joined(was: seq<u8>, a: seq<u8>, b: seq<u8>, c: seq<u8>, d: seq<u8>, e: seq<u8>)
    ensures was + a + b + c + d + e == was + (a + b + c + d + e)
  {}

  method CanonOf(v: J) returns (r: Result<seq<u8>, CanonError>)
    ensures r == Canon(v)
  {
    hide Fault, Text;
    var w := new Writer();
    var e := w.WriteValue(v);
    if e.Some? { return Err(e.value); }
    assert w.out == Text(ByUtf16, v);
    return Ok(w.out);
  }

  // ---- the key check --------------------------------------------------------------------------------------

  /** Non-empty, every byte in `!`..`~`. */
  predicate KeyOk(k: Str) { k != [] && Printable(Utf8(k)) }

  predicate Printable(s: seq<int>) { forall i :: 0 <= i < |s| ==> 0x21 <= s[i] <= 0x7E }

  /** The first bad key; a map is walked in byte order. */
  ghost function KeysFault(v: J, path: Str): Option<CanonError>
    decreases v, 1, 0
  {
    match v
    case JArray(_) => ItemsKeysFault(v, path, 0)
    case JObject(m) => FieldsKeysFault(v, path, SortedKeys(ByBytes, m.Keys), 0)
    case _ => None
  }

  ghost function ItemsKeysFault(v: J, path: Str, i: nat): Option<CanonError>
    requires v.JArray? && i <= |v.items|
    decreases v, 0, |v.items| - i
  {
    if i == |v.items| then None
    else
      var e := KeysFault(v.items[i], ItemPath(path, i));
      if e.Some? then e else ItemsKeysFault(v, path, i + 1)
  }

  ghost function FieldsKeysFault(v: J, path: Str, ks: seq<Str>, i: nat): Option<CanonError>
    requires v.JObject? && i <= |ks| && forall k :: k in ks ==> k in v.fields
    decreases v, 0, |ks| - i
  {
    if i == |ks| then None
    else if !KeyOk(ks[i]) then Some(BadKey(FieldPath(path, ks[i])))
    else
      var e := KeysFault(v.fields[ks[i]], FieldPath(path, ks[i]));
      if e.Some? then e else FieldsKeysFault(v, path, ks, i + 1)
  }

  class KeyWalker {
    var path: Str

    constructor ()
      ensures path == ROOT
    {
      path := ROOT;
    }

    method Walk(v: J) returns (e: Option<CanonError>)
      modifies this
      ensures e == KeysFault(v, old(path)) && (e.None? ==> path == old(path))
      decreases v
    {
      hide SortedKeys, Digits, KeyOk, Sorted;
      var n := |path|;
      match v {
        case JObject(m) =>
          var ks := SortKeys(ByBytes, m.Keys);
          var i := 0;
          while i < |ks|
            invariant i <= |ks| && path == old(path)
            invariant FieldsKeysFault(v, path, ks, i) == FieldsKeysFault(v, path, ks, 0)
          {
            assert ks[i] in ks;
            path := path + [0x2E] + ks[i];
            if !KeyOk(ks[i]) { return Some(BadKey(path)); }
            e := Walk(m[ks[i]]);
            if e.Some? { return; }
            path := path[..n];
            i := i + 1;
          }
        case JArray(items) =>
          var i := 0;
          while i < |items|
            invariant i <= |items| && path == old(path)
            invariant ItemsKeysFault(v, path, i) == ItemsKeysFault(v, path, 0)
          {
            var ds := WriteDigits(i);
            path := path + [0x5B] + ds + [0x5D];
            e := Walk(items[i]);
            if e.Some? { return; }
            path := path[..n];
            i := i + 1;
          }
        case _ =>
      }
      return None;
    }
  }

  predicate GoodKey(k: Str) { k != [] && Printable(k) }

  /** Every key, at every depth, is non-empty printable ASCII. */
  ghost predicate GoodKeys(v: J) {
    match v
    case JArray(items) => forall i :: 0 <= i < |items| ==> GoodKeys(items[i])
    case JObject(m) => forall k :: k in m ==> GoodKey(k) && GoodKeys(m[k])
    case _ => true
  }

  lemma {:induction false} AsciiBytes(k: Str)
    ensures Printable(Utf8(k)) <==> Printable(k)
  {
    if k != [] {
      AsciiBytes(k[1..]);
      AsciiChar(k[0]);
      hide Utf8Char, Printable;
      PrintableJoin(Utf8Char(k[0]), Utf8(k[1..]));
      PrintableJoin([k[0]], k[1..]);
      assert k == [k[0]] + k[1..];
    }
  }

  lemma PrintableJoin(a: seq<int>, b: seq<int>)
    ensures Printable(a + b) <==> Printable(a) && Printable(b)
  {
    assert forall i :: 0 <= i < |a| ==> (a + b)[i] == a[i];
    assert forall i :: 0 <= i < |b| ==> (a + b)[|a| + i] == b[i];
  }

  lemma KeyOkExact(k: Str)
    ensures KeyOk(k) <==> GoodKey(k)
  {
    AsciiBytes(k);
  }

  lemma AsciiChar(c: Scalar)
    ensures Printable(Utf8Char(c)) <==> Printable([c])
  {
    LeadByte(c);
    assert Printable([c]) <==> 0x21 <= [c][0] <= 0x7E;
  }

  /** `check_keys` accepts exactly the values whose keys are non-empty printable ASCII. */
  lemma {:induction false} KeysFaultExact(v: J, path: Str)
    ensures KeysFault(v, path).None? <==> GoodKeys(v)
    decreases v, 1, 0
  {
    hide Sorted, GoodKey;
    match v {
      case JArray(_) => ItemsKeysFaultExact(v, path, 0);
      case JObject(m) => FieldsKeysFaultExact(v, path, SortedKeys(ByBytes, m.Keys), 0);
      case _ =>
    }
  }

  lemma {:induction false} ItemsKeysFaultExact(v: J, path: Str, i: nat)
    requires v.JArray? && i <= |v.items|
    ensures ItemsKeysFault(v, path, i).None? <==> forall j :: i <= j < |v.items| ==> GoodKeys(v.items[j])
    decreases v, 0, |v.items| - i
  {
    if i < |v.items| {
      KeysFaultExact(v.items[i], ItemPath(path, i));
      ItemsKeysFaultExact(v, path, i + 1);
    }
  }

  lemma {:induction false} FieldsKeysFaultExact(v: J, path: Str, ks: seq<Str>, i: nat)
    requires v.JObject? && i <= |ks| && forall k :: k in ks ==> k in v.fields
    ensures FieldsKeysFault(v, path, ks, i).None?
            <==> forall j :: i <= j < |ks| ==> GoodKey(ks[j]) && GoodKeys(v.fields[ks[j]])
    decreases v, 0, |ks| - i
  {
    hide GoodKey, KeyOk, KeysFault, GoodKeys;
    if i < |ks| {
      KeyOkExact(ks[i]);
      KeysFaultExact(v.fields[ks[i]], FieldPath(path, ks[i]));
      FieldsKeysFaultExact(v, path, ks, i + 1);
    }
  }

  lemma {:induction false} AsciiUncrossed(a: Str, b: Str)
    requires Printable(a) && Printable(b)
    ensures !Crossed(a, b)
  {
    if a != [] && b != [] {
      AsciiUncrossed(a[1..], b[1..]);
    }
  }

  ghost predicate Uncrossed(s: set<Str>) { forall a, b :: a in s && b in s ==> !Crossed(a, b) }

  lemma OrdersAgree(o: KeyOrder, a: Str, b: Str)
    ensures !Crossed(a, b) ==> (Before(o, a, b) <==> Before(ByUtf16, a, b))
    ensures o != ByUtf16 && Crossed(a, b) ==> (Before(o, a, b) <==> !Before(ByUtf16, a, b))
  {
    Utf16OrderExact(a, b);
    BytesOrderIsCodePointOrder(a, b);
  }

  /** Code-point or byte order sorts a set of keys as UTF-16 order does if and only if no two of them are crossed. */
  lemma SameOrderExact(o: KeyOrder, s: set<Str>)
    ensures Uncrossed(s) ==> SortedKeys(o, s) == SortedKeys(ByUtf16, s)
    ensures o != ByUtf16 && SortedKeys(o, s) == SortedKeys(ByUtf16, s) ==> Uncrossed(s)
  {
    hide Before, Crossed, SortedKeys;
    if Uncrossed(s) {
      UncrossedSortAlike(o, s);
    } else if o != ByUtf16 {
      var a, b :| a in s && b in s && Crossed(a, b);
      CrossedSortApart(o, s, a, b);
    }
  }

  lemma UncrossedSortAlike(o: KeyOrder, s: set<Str>)
    requires Uncrossed(s)
    ensures SortedKeys(o, s) == SortedKeys(ByUtf16, s)
  {
    hide Before, Crossed, SortedKeys;
    var ks := SortedKeys(o, s);
    forall i, j | 0 <= i < j < |ks| ensures Before(ByUtf16, ks[i], ks[j]) {
      assert ks[i] in s && ks[j] in s;
      OrdersAgree(o, ks[i], ks[j]);
    }
    SortedUnique(ByUtf16, ks, SortedKeys(ByUtf16, s));
  }

  lemma CrossedSortApart(o: KeyOrder, s: set<Str>, a: Str, b: Str)
    requires o != ByUtf16 && a in s && b in s && Crossed(a, b)
    ensures SortedKeys(o, s) != SortedKeys(ByUtf16, s)
  {
    hide Before, Crossed, SortedKeys, Sorted;
    OrdersAgree(o, a, b);
    CrossedBothWays(a, b);
    BeforeTotal(ByUtf16, a, b);
    BeforeTotal(o, a, b);
    if SortedKeys(o, s) == SortedKeys(ByUtf16, s) {
      SortedSides(o, ByUtf16, SortedKeys(o, s), a, b);
    }
  }

  /** Two orders that both sort one list put its members the same way round. */
  lemma SortedSides(o: KeyOrder, o': KeyOrder, ks: seq<Str>, a: Str, b: Str)
    requires Sorted(o, ks) && Sorted(o', ks) && a in ks && b in ks && a != b
    ensures (Before(o, a, b) && Before(o', a, b)) || (Before(o, b, a) && Before(o', b, a))
  {
    hide Before;
    var i :| 0 <= i < |ks| && ks[i] == a;
    var j :| 0 <= j < |ks| && ks[j] == b;
    if i > j { assert Before(o, ks[j], ks[i]); }
  }

  lemma {:induction false} CrossedBothWays(a: Str, b: Str)
    requires Crossed(a, b)
    ensures Crossed(b, a) && a != b
  {
    if a[0] == b[0] { CrossedBothWays(a[1..], b[1..]); }
  }

  /** On good keys the three orders sort alike. */
  lemma SameOrder(o: KeyOrder, s: set<Str>)
    requires forall k :: k in s ==> GoodKey(k)
    ensures SortedKeys(o, s) == SortedKeys(ByUtf16, s)
  {
    forall a, b | a in s && b in s ensures !Crossed(a, b) { AsciiUncrossed(a, b); }
    SameOrderExact(o, s);
  }

  /** So `check_keys` refuses more than it must: an accented key sorts alike under every order. */
  lemma AccentedKeySortsAlike(o: KeyOrder)
    ensures !KeyOk([0xE9]) && SortedKeys(o, {[0x61], [0xE9]}) == SortedKeys(ByUtf16, {[0x61], [0xE9]})
  {
    KeyOkExact([0xE9]);
    var s: set<Str> := {[0x61], [0xE9]};
    assert Uncrossed(s);
    SameOrderExact(o, s);
  }

  /** And the orders do part: U+1F600 comes before U+FB33 by UTF-16 units, after it by code point. */
  lemma SupplementaryKeySortsApart()
    ensures Before(ByUtf16, [0x1F600], [0xFB33]) && Before(ByCodePoint, [0xFB33], [0x1F600])
  {
    assert Utf16([0x1F600])[0] == 0xD83D && Utf16([0xFB33])[0] == 0xFB33;
  }

  /** For a value `check_keys` accepts, the text does not depend on whether keys are sorted by UTF-16 units (the scheme),
      by code point (Python's `sort_keys`) or by byte. */
  lemma {:induction false} GoodKeysOneText(o: KeyOrder, v: J)
    requires GoodKeys(v)
    ensures Text(o, v) == Text(ByUtf16, v)
    decreases v, 1, 0
  {
    match v {
      case JArray(_) => GoodItemsOneText(o, v, 0);
      case JObject(m) =>
        assert forall k :: k in m.Keys ==> GoodKey(k);
        SameOrder(o, m.Keys);
        GoodFieldsOneText(o, v, SortedKeys(ByUtf16, m.Keys), 0);
      case _ =>
    }
  }

  lemma {:induction false} GoodItemsOneText(o: KeyOrder, v: J, i: nat)
    requires v.JArray? && i <= |v.items| && GoodKeys(v)
    ensures ItemsText(o, v, i) == ItemsText(ByUtf16, v, i)
    decreases v, 0, |v.items| - i
  {
    hide Text;
    if i < |v.items| {
      GoodKeysOneText(o, v.items[i]);
      GoodItemsOneText(o, v, i + 1);
    }
  }

  lemma {:induction false} GoodFieldsOneText(o: KeyOrder, v: J, ks: seq<Str>, i: nat)
    requires v.JObject? && i <= |ks| && GoodKeys(v) && forall k :: k in ks ==> k in v.fields
    ensures FieldsText(o, v, ks, i) == FieldsText(ByUtf16, v, ks, i)
    decreases v, 0, |ks| - i
  {
    hide Text;
    if i < |ks| {
      GoodKeysOneText(o, v.fields[ks[i]]);
      GoodFieldsOneText(o, v, ks, i + 1);
    }
  }
}
