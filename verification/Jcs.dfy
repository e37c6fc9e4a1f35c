/** Canonical JSON, profile `jcs-floatfree/v1`: keys sorted by UTF-16 code units, no white space, minimal escapes,
    integers of magnitude at most 2^53 - 1 and no other numbers. */
module Jcs {
  import opened Ints
  import opened Options
  import opened Unicode

  /** What a JSON number can hold without being a double: an i64 or a u64. */
  type JInt = v: int | -0x8000_0000_0000_0000 <= v < 0x1_0000_0000_0000_0000

  datatype J =
    | JNull
    | JBool(b: bool)
    | JInteger(v: JInt)
    | JFloat(x: real)
    | JString(s: Str)
    | JArray(items: seq<J>)
    | JObject(fields: map<Str, J>)

  datatype CanonError = FloatInBody(path: Str) | IntegerOutOfRange(path: Str) | BadKey(path: Str)

  const MAX_SAFE_INTEGER: int := 0x1F_FFFF_FFFF_FFFF

  // ---- sorted keys ----------------------------------------------------------------------------------------

  /** UTF-16 order is the scheme's, code-point order is Python's `sort_keys`, byte order is the order in which a Rust
      map is walked. */
  datatype KeyOrder = ByUtf16 | ByCodePoint | ByBytes

  function SortKey(o: KeyOrder, k: Str): seq<int> {
    match o
    case ByUtf16 => Utf16(k)
    case ByCodePoint => k
    case ByBytes => Utf8(k)
  }

  predicate Before(o: KeyOrder, a: Str, b: Str) { Less(SortKey(o, a), SortKey(o, b)) }

  lemma BeforeTotal(o: KeyOrder, a: Str, b: Str)
    ensures a == b || Before(o, a, b) || Before(o, b, a)
    ensures !(Before(o, a, b) && Before(o, b, a)) && !Before(o, a, a)
  {
    LessTotal(SortKey(o, a), SortKey(o, b));
    LessIrreflexive(SortKey(o, a));
    if Before(o, a, b) && Before(o, b, a) { LessTransitive(SortKey(o, a), SortKey(o, b), SortKey(o, a)); }
    match o {
      case ByUtf16 => Utf16Injective(a, b);
      case ByCodePoint =>
      case ByBytes => BytesOrderIsCodePointOrder(a, b); BytesOrderIsCodePointOrder(b, a); LessTotal(a, b);
    }
  }

  lemma BeforeTransitive(o: KeyOrder, a: Str, b: Str, c: Str)
    requires Before(o, a, b) && Before(o, b, c)
    ensures Before(o, a, c)
  {
    LessTransitive(SortKey(o, a), SortKey(o, b), SortKey(o, c));
  }

  predicate Sorted(o: KeyOrder, ks: seq<Str>) {
    forall i, j :: 0 <= i < j < |ks| ==> Before(o, ks[i], ks[j])
  }

  /** `k` goes in before the first key that is not before it; a key already there is not repeated. */
  function Insert(o: KeyOrder, k: Str, ks: seq<Str>): (r: seq<Str>)
    requires Sorted(o, ks)
    ensures Sorted(o, r) && (forall x :: x in r <==> x == k || x in ks)
  {
    hide Before;
    if ks == [] then [k]
    else
      BeforeTotal(o, k, ks[0]);
      if k == ks[0] then ks
      else if Before(o, k, ks[0]) then
        InsertFirst(o, k, ks);
        [k] + ks
      else
        InsertRest(o, k, ks);
        [ks[0]] + Insert(o, k, ks[1..])
  }

  lemma InsertFirst(o: KeyOrder, k: Str, ks: seq<Str>)
    requires Sorted(o, ks) && ks != [] && Before(o, k, ks[0])
    ensures Sorted(o, [k] + ks)
  {
    forall j | 0 <= j < |ks| ensures Before(o, k, ks[j]) {
      if j > 0 { BeforeTransitive(o, k, ks[0], ks[j]); }
    }
  }

  lemma InsertRest(o: KeyOrder, k: Str, ks: seq<Str>)
    requires Sorted(o, ks) && ks != []
    ensures forall x :: x in ks[1..] ==> Before(o, ks[0], x)
    ensures forall x :: x in ks <==> x == ks[0] || x in ks[1..]
  {}

  lemma {:induction false} SortedUnique(o: KeyOrder, a: seq<Str>, b: seq<Str>)
    requires Sorted(o, a) && Sorted(o, b) && forall x :: x in a <==> x in b
    ensures a == b
  {
    hide Before;
    assert (a != [] ==> a[0] in a) && (b != [] ==> b[0] in b);
    if a != [] && b != [] {
      BeforeTotal(o, a[0], b[0]);
      var i :| 0 <= i < |b| && b[i] == a[0];
      var j :| 0 <= j < |a| && a[j] == b[0];
      assert a[0] == b[0];
      forall x ensures x in a[1..] <==> x in b[1..] {
        BeforeTotal(o, a[0], a[0]);
        InsertRest(o, x, a);
        InsertRest(o, x, b);
      }
      SortedUnique(o, a[1..], b[1..]);
      assert a == [a[0]] + a[1..] && b == [b[0]] + b[1..];
    }
  }

  /** The keys of a map in order. */
  ghost function SortedKeys(o: KeyOrder, s: set<Str>): (r: seq<Str>)
    ensures Sorted(o, r) && forall x :: x in r <==> x in s
  {
    if s == {} then []
    else
      var k :| k in s;
      Insert(o, k, SortedKeys(o, s - {k}))
  }

  lemma SortedKeysUnique(o: KeyOrder, s: set<Str>, ks: seq<Str>)
    requires Sorted(o, ks) && forall x :: x in ks <==> x in s
    ensures ks == SortedKeys(o, s)
  {
    SortedUnique(o, ks, SortedKeys(o, s));
  }

  // ---- the text -------------------------------------------------------------------------------------------

  function Digits(n: nat): (r: seq<u8>)
    ensures |r| >= 1 && forall i :: 0 <= i < |r| ==> 0x30 <= r[i] <= 0x39
  {
    if n < 10 then [0x30 + n] else Digits(n / 10) + [0x30 + n % 10]
  }

  function IntegerText(v: int): seq<u8> { if v < 0 then [0x2D] + Digits(-v) else Digits(v) }

  function Hex(n: nat): u8
    requires n < 16
  {
    if n < 10 then 0x30 + n else 0x61 + (n - 10)
  }

  function EscapedByte(b: u8): seq<u8> {
    if b == 0x22 then [0x5C, 0x22]
    else if b == 0x5C then [0x5C, 0x5C]
    else if b == 0x08 then [0x5C, 0x62]
    else if b == 0x0C then [0x5C, 0x66]
    else if b == 0x0A then [0x5C, 0x6E]
    else if b == 0x0D then [0x5C, 0x72]
    else if b == 0x09 then [0x5C, 0x74]
    else if b <= 0x1F then [0x5C, 0x75, 0x30, 0x30, Hex(b / 16), Hex(b % 16)]
    else [b]
  }

  function Escaped(bs: seq<u8>): seq<u8> { if bs == [] then [] else EscapedByte(bs[0]) + Escaped(bs[1..]) }

  function StringText(s: Str): seq<u8> { [0x22] + Escaped(Utf8(s)) + [0x22] }

  const NULL_TEXT: seq<u8> := [0x6E, 0x75, 0x6C, 0x6C]
  const TRUE_TEXT: seq<u8> := [0x74, 0x72, 0x75, 0x65]
  const FALSE_TEXT: seq<u8> := [0x66, 0x61, 0x6C, 0x73, 0x65]

  /** The text of a value with the keys of every object in order `o`; a number outside the profile has no text. */
  ghost function Text(o: KeyOrder, v: J): seq<u8>
    decreases v, 1, 0
  {
    match v
    case JNull => NULL_TEXT
    case JBool(b) => if b then TRUE_TEXT else FALSE_TEXT
    case JInteger(n) => IntegerText(n)
    case JFloat(_) => []
    case JString(s) => StringText(s)
    case JArray(_) => [0x5B] + ItemsText(o, v, 0) + [0x5D]
    case JObject(m) => [0x7B] + FieldsText(o, v, SortedKeys(o, m.Keys), 0) + [0x7D]
  }

  ghost function ItemsText(o: KeyOrder, v: J, i: nat): seq<u8>
    requires v.JArray? && i <= |v.items|
    decreases v, 0, |v.items| - i
  {
    if i == |v.items| then []
    else Comma(i) + Text(o, v.items[i]) + ItemsText(o, v, i + 1)
  }

  function Comma(i: nat): seq<u8> { if i > 0 then [0x2C] else [] }

  ghost function FieldsText(o: KeyOrder, v: J, ks: seq<Str>, i: nat): seq<u8>
    requires v.JObject? && i <= |ks| && forall k :: k in ks ==> k in v.fields
    decreases v, 0, |ks| - i
  {
    if i == |ks| then []
    else Comma(i) + StringText(ks[i]) + [0x3A] + Text(o, v.fields[ks[i]]) + FieldsText(o, v, ks, i + 1)
  }

  // ---- errors ---------------------------------------------------------------------------------------------

  function ItemPath(path: Str, i: nat): Str { path + [0x5B] + Digits(i) + [0x5D] }

  function FieldPath(path: Str, k: Str): Str { path + [0x2E] + k }

  /** The first number outside the profile, in the order the text is written. */
  ghost function Fault(v: J, path: Str): Option<CanonError>
    decreases v, 1, 0
  {
    match v
    case JInteger(n) => if -MAX_SAFE_INTEGER <= n <= MAX_SAFE_INTEGER then None else Some(IntegerOutOfRange(path))
    case JFloat(_) => Some(FloatInBody(path))
    case JArray(_) => ItemsFault(v, path, 0)
    case JObject(m) => FieldsFault(v, path, SortedKeys(ByUtf16, m.Keys), 0)
    case _ => None
  }

  ghost function ItemsFault(v: J, path: Str, i: nat): Option<CanonError>
    requires v.JArray? && i <= |v.items|
    decreases v, 0, |v.items| - i
  {
    if i == |v.items| then None
    else
      var e := Fault(v.items[i], ItemPath(path, i));
      if e.Some? then e else ItemsFault(v, path, i + 1)
  }

  ghost function FieldsFault(v: J, path: Str, ks: seq<Str>, i: nat): Option<CanonError>
    requires v.JObject? && i <= |ks| && forall k :: k in ks ==> k in v.fields
    decreases v, 0, |ks| - i
  {
    if i == |ks| then None
    else
      var e := Fault(v.fields[ks[i]], FieldPath(path, ks[i]));
      if e.Some? then e else FieldsFault(v, path, ks, i + 1)
  }

  const ROOT: Str := [0x24]

  /** `canon`: the text, or the first fault. */
  ghost function Canon(v: J): Result<seq<u8>, CanonError> {
    var e := Fault(v, ROOT);
    if e.Some? then Err(e.value) else Ok(Text(ByUtf16, v))
  }

  /** Every number, at every depth, is an integer a double holds exactly. */
  ghost predicate InProfile(v: J) {
    match v
    case JInteger(n) => -MAX_SAFE_INTEGER <= n <= MAX_SAFE_INTEGER
    case JFloat(_) => false
    case JArray(items) => forall i :: 0 <= i < |items| ==> InProfile(items[i])
    case JObject(m) => forall k :: k in m ==> InProfile(m[k])
    case _ => true
  }

  /** `canon` fails exactly on the values outside the profile. */
  lemma {:induction false} FaultExact(v: J, path: Str)
    ensures Fault(v, path).None? <==> InProfile(v)
    decreases v, 1, 0
  {
    match v {
      case JArray(_) => ItemsFaultExact(v, path, 0);
      case JObject(m) => FieldsFaultExact(v, path, SortedKeys(ByUtf16, m.Keys), 0);
      case _ =>
    }
  }

  lemma {:induction false} ItemsFaultExact(v: J, path: Str, i: nat)
    requires v.JArray? && i <= |v.items|
    ensures ItemsFault(v, path, i).None? <==> forall j :: i <= j < |v.items| ==> InProfile(v.items[j])
    decreases v, 0, |v.items| - i
  {
    if i < |v.items| {
      FaultExact(v.items[i], ItemPath(path, i));
      ItemsFaultExact(v, path, i + 1);
    }
  }

  lemma {:induction false} FieldsFaultExact(v: J, path: Str, ks: seq<Str>, i: nat)
    requires v.JObject? && i <= |ks| && forall k :: k in ks ==> k in v.fields
    ensures FieldsFault(v, path, ks, i).None? <==> forall j :: i <= j < |ks| ==> InProfile(v.fields[ks[j]])
    decreases v, 0, |ks| - i
  {
    if i < |ks| {
      FaultExact(v.fields[ks[i]], FieldPath(path, ks[i]));
      FieldsFaultExact(v, path, ks, i + 1);
    }
  }
}
