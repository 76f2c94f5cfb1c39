/** Canonical JSON: sorted keys, no spaces, one encoding for each value. The values are those the
    bootstrap and authority records are made of; strings are printable ASCII without escapes. */
module Json {
  import opened Wrappers

  datatype Value = Str(text: string) | Int(number: int) | Bool(flag: bool) | Null | Obj(members: Members)

  datatype Members = Nil | Member(key: string, value: Value, rest: Members)

  predicate PlainChar(c: char) {
    ' ' <= c <= '~' && c != '"' && c != '\\'
  }

  predicate Plain(s: string) {
    forall i :: 0 <= i < |s| ==> PlainChar(s[i])
  }

  predicate WellFormed(v: Value) {
    match v
    case Str(s) => Plain(s)
    case Int(i) => true
    case Bool(b) => true
    case Null => true
    case Obj(m) => WellFormedMembers(m)
  }

  predicate WellFormedMembers(m: Members) {
    m.Member? ==> Plain(m.key) && WellFormed(m.value) && WellFormedMembers(m.rest)
  }

  // ---- Numbers ----

  predicate IsDigit(c: char) { '0' <= c <= '9' }

  function DigitChar(d: nat): (c: char)
    requires d < 10
    ensures IsDigit(c)
  {
    '0' + d as char
  }

  function DigitValue(c: char): (d: nat)
    requires IsDigit(c)
    ensures d < 10
  {
    (c - '0') as nat
  }

  function Digits(n: nat): string {
    if n < 10 then [DigitChar(n)] else Digits(n / 10) + [DigitChar(n % 10)]
  }

  predicate AllDigits(s: string) {
    forall i :: 0 <= i < |s| ==> IsDigit(s[i])
  }

  function ValueOf(s: string): nat
    requires AllDigits(s)
  {
    if s == "" then 0 else 10 * ValueOf(s[..|s| - 1]) + DigitValue(s[|s| - 1])
  }

  /** Decimal without superfluous leading zeros. */
  predicate Numeral(s: string) {
    s != "" && AllDigits(s) && (|s| > 1 ==> s[0] != '0')
  }

  lemma {:induction false} DigitsValue(n: nat)
    ensures Numeral(Digits(n)) && ValueOf(Digits(n)) == n
    ensures n > 0 ==> Digits(n)[0] != '0'
  {
    if n >= 10 {
      DigitsValue(n / 10);
      assert Digits(n)[..|Digits(n)| - 1] == Digits(n / 10);
    } else {
      assert Digits(n)[..0] == "";
    }
  }

  lemma {:induction false} ValueDigits(s: string)
    requires Numeral(s)
    ensures Digits(ValueOf(s)) == s
    ensures s[0] != '0' ==> ValueOf(s) > 0
  {
    var n := |s| - 1;
    if n == 0 {
      assert s[..0] == "";
    } else {
      assert s[..n][0] == s[0];
      ValueDigits(s[..n]);
      assert s == s[..n] + [s[n]];
    }
  }

  function Pow10(k: nat): nat { if k == 0 then 1 else 10 * Pow10(k - 1) }

  lemma {:induction false} DigitsLength(n: nat, k: nat)
    requires k >= 1 && n < Pow10(k)
    ensures |Digits(n)| <= k
  {
    if n >= 10 { DigitsLength(n / 10, k - 1); }
  }

  function DigitRun(b: string): (n: nat)
    ensures n <= |b|
  {
    if b == "" || !IsDigit(b[0]) then 0 else 1 + DigitRun(b[1..])
  }

  lemma {:induction false} DigitRunIs(s: string, tail: string)
    requires AllDigits(s) && (tail != "" ==> !IsDigit(tail[0]))
    ensures DigitRun(s + tail) == |s|
  {
    if s == "" {
      assert s + tail == tail;
    } else {
      assert (s + tail)[1..] == s[1..] + tail;
      DigitRunIs(s[1..], tail);
    }
  }

  lemma {:induction false} DigitRunDigits(b: string)
    ensures AllDigits(b[..DigitRun(b)])
  {
    if b != "" && IsDigit(b[0]) {
      DigitRunDigits(b[1..]);
      assert b[..DigitRun(b)] == [b[0]] + b[1..][..DigitRun(b[1..])];
    }
  }

  // ---- Encoding ----

  function EncodeInt(i: int): string {
    if i >= 0 then Digits(i) else "-" + Digits(-i)
  }

  function Quote(s: string): string { "\"" + s + "\"" }

  function Encode(v: Value): string {
    match v
    case Str(s) => Quote(s)
    case Int(i) => EncodeInt(i)
    case Bool(b) => if b then "true" else "false"
    case Null => "null"
    case Obj(m) => "{" + EncodeMembers(m) + "}"
  }

  function EncodeMembers(m: Members): string {
    match m
    case Nil => ""
    case Member(k, v, rest) => Quote(k) + ":" + Encode(v) + (if rest.Nil? then "" else "," + EncodeMembers(rest))
  }

  // ---- What the texts look like ----

  lemma NumberTexts()
    ensures Digits(0) == "0" && Digits(12) == "12"
  {
    assert DigitChar(0) == '0' && DigitChar(1) == '1' && DigitChar(2) == '2' && 12 / 10 == 1;
    assert Digits(1) == "1";
  }

  lemma ScalarTexts()
    ensures Encode(Str("x y")) == "\"x y\"" && Encode(Int(-12)) == "-12" && Encode(Int(0)) == "0"
    ensures Encode(Bool(true)) == "true" && Encode(Bool(false)) == "false" && Encode(Null) == "null"
  {
    NumberTexts();
    hide Digits;
  }

  /** Names are set off by colons, and there are no spaces. */
  lemma MemberTexts()
    ensures EncodeMembers(Member("a", Null, Nil)) == "\"a\":null"
    ensures EncodeMembers(Member("b", Bool(true), Nil)) == "\"b\":true"
  {
    hide Digits;
  }

  /** Members are separated by commas. */
  lemma ObjectTexts()
    ensures Encode(Obj(Nil)) == "{}" && Encode(Obj(Member("a", Null, Nil))) == "{\"a\":null}"
    ensures EncodeMembers(Member("a", Null, Member("b", Bool(true), Nil))) == "\"a\":null,\"b\":true"
  {
    hide Digits;
    MemberTexts();
    assert EncodeMembers(Member("a", Null, Member("b", Bool(true), Nil))) == "\"a\":null" + "," + "\"b\":true";
  }

  // ---- Parsing ----

  function PlainRun(b: string): (n: nat)
    ensures n <= |b|
  {
    if b == "" || !PlainChar(b[0]) then 0 else 1 + PlainRun(b[1..])
  }

  /** What was read, and what follows it. */
  datatype Parsed<T> = Failed | Read(value: T, rest: string)

  function Literal(b: string, text: string): (rest: Option<string>)
    ensures rest.Some? ==> b == text + rest.value
  {
    if |text| <= |b| && b[..|text|] == text then Some(b[|text|..]) else None
  }

  function ParseString(b: string): (p: Parsed<string>)
    ensures p.Read? ==> |p.rest| < |b|
  {
    if b == "" || b[0] != '"' then Failed
    else
      var n := PlainRun(b[1..]);
      if n + 1 < |b| && b[n + 1] == '"' then Read(b[1..n + 1], b[n + 2..]) else Failed
  }

  function ParseNumeral(b: string): (p: Parsed<nat>)
    ensures p.Read? ==> |p.rest| < |b|
  {
    var n := DigitRun(b);
    DigitRunDigits(b);
    if Numeral(b[..n]) then Read(ValueOf(b[..n]), b[n..]) else Failed
  }

  function ParseInt(b: string): (p: Parsed<int>)
    ensures p.Read? ==> |p.rest| < |b|
  {
    if b != "" && b[0] == '-' then
      match ParseNumeral(b[1..])
      case Failed => Failed
      case Read(n, rest) => if n > 0 then Parsed<int>.Read(-(n as int), rest) else Failed
    else
      match ParseNumeral(b)
      case Failed => Failed
      case Read(n, rest) => Read(n, rest)
  }

  function ParseValue(b: string): (p: Parsed<Value>)
    ensures p.Read? ==> |p.rest| < |b|
    decreases |b|, 0
  {
    if b == "" then Failed
    else if b[0] == '{' then
      match ParseMembers(b[1..])
      case Failed => Failed
      case Read(m, rest) => if rest != "" && rest[0] == '}' then Read(Obj(m), rest[1..]) else Failed
    else if b[0] == '"' then
      match ParseString(b)
      case Failed => Failed
      case Read(s, rest) => Read(Str(s), rest)
    else if Literal(b, "true").Some? then Read(Bool(true), Literal(b, "true").value)
    else if Literal(b, "false").Some? then Read(Bool(false), Literal(b, "false").value)
    else if Literal(b, "null").Some? then Read(Null, Literal(b, "null").value)
    else
      match ParseInt(b)
      case Failed => Failed
      case Read(i, rest) => Read(Int(i), rest)
  }

  /** A key, a colon and a value. */
  function ParseMember(b: string): (p: Parsed<(string, Value)>)
    ensures p.Read? ==> |p.rest| < |b|
    decreases |b|, 1
  {
    match ParseString(b)
    case Failed => Failed
    case Read(key, afterKey) =>
      if afterKey == "" || afterKey[0] != ':' then Failed
      else
        match ParseValue(afterKey[1..])
        case Failed => Failed
        case Read(v, rest) => Read((key, v), rest)
  }

  /** The members of an object, up to its closing brace. */
  function ParseMembers(b: string): (p: Parsed<Members>)
    ensures p.Read? ==> |p.rest| <= |b|
    decreases |b|, 2
  {
    if b == "" || b[0] == '}' then Read(Nil, b)
    else
      match ParseMember(b)
      case Failed => Failed
      case Read(pair, after) =>
        if after == "" || after[0] != ',' then Read(Member(pair.0, pair.1, Nil), after)
        else
          match ParseMembers(after[1..])
          case Failed => Failed
          case Read(m, rest) => if m.Nil? then Failed else Read(Member(pair.0, pair.1, m), rest)
  }

  // ---- What is encoded is read back ----

  lemma {:induction false} PlainRunIs(s: string, tail: string)
    requires Plain(s) && (tail != "" ==> !PlainChar(tail[0]))
    ensures PlainRun(s + tail) == |s|
  {
    if s == "" {
      assert s + tail == tail;
    } else {
      assert (s + tail)[1..] == s[1..] + tail;
      PlainRunIs(s[1..], tail);
    }
  }

  lemma {:induction false} PlainRunPlain(b: string)
    ensures Plain(b[..PlainRun(b)])
  {
    if b != "" && PlainChar(b[0]) {
      PlainRunPlain(b[1..]);
      assert b[..PlainRun(b)] == [b[0]] + b[1..][..PlainRun(b[1..])];
    }
  }

  lemma StringReadBack(s: string, tail: string)
    requires Plain(s)
    ensures ParseString(Quote(s) + tail) == Read(s, tail)
  {
    var b := Quote(s) + tail;
    assert b[1..] == s + ("\"" + tail);
    PlainRunIs(s, "\"" + tail);
    assert b[1..|s| + 1] == s && b[|s| + 2..] == tail;
  }

  lemma NumeralReadBack(n: nat, tail: string)
    requires tail != "" ==> !IsDigit(tail[0])
    ensures ParseNumeral(Digits(n) + tail) == Read(n, tail)
  {
    DigitsValue(n);
    DigitRunIs(Digits(n), tail);
    var b := Digits(n) + tail;
    assert b[..|Digits(n)|] == Digits(n) && b[|Digits(n)|..] == tail;
  }

  lemma DigitsStart(n: nat)
    ensures Digits(n) != "" && IsDigit(Digits(n)[0])
  {
    DigitsValue(n);
    hide Digits;
  }

  lemma IntReadBack(i: int, tail: string)
    requires tail != "" ==> !IsDigit(tail[0])
    ensures ParseInt(EncodeInt(i) + tail) == Read(i, tail)
    ensures EncodeInt(i) != "" && (EncodeInt(i)[0] == '-' || IsDigit(EncodeInt(i)[0]))
  {
    hide Digits, ParseNumeral;
    var n := if i >= 0 then i else -i;
    DigitsStart(n);
    NumeralReadBack(n, tail);
    if i < 0 {
      assert (EncodeInt(i) + tail)[1..] == Digits(n) + tail;
    } else {
      assert (EncodeInt(i) + tail)[0] == Digits(n)[0];
    }
  }

  /** A text that can follow a value inside a document. */
  predicate Follows(tail: string) {
    tail != "" ==> tail[0] in ",}"
  }

  lemma LiteralReadBack(text: string, tail: string)
    ensures Literal(text + tail, text) == Some(tail)
  {
    assert (text + tail)[..|text|] == text && (text + tail)[|text|..] == tail;
  }

  lemma ScalarReadBack(v: Value, tail: string)
    requires WellFormed(v) && !v.Obj? && Follows(tail)
    ensures ParseValue(Encode(v) + tail) == Read(v, tail)
  {
    hide ParseMembers, EncodeMembers, Digits, ParseNumeral;
    match v {
      case Str(s) =>
        StringReadBack(s, tail);
        hide ParseString, ParseInt, EncodeInt;
        assert (Quote(s) + tail)[0] == '"';
      case Int(i) =>
        IntReadBack(i, tail);
        hide ParseInt, EncodeInt, ParseString;
        assert (EncodeInt(i) + tail)[0] == EncodeInt(i)[0];
      case Bool(b) =>
        hide ParseInt, EncodeInt, ParseString;
        LiteralReadBack(if b then "true" else "false", tail);
        assert (Encode(v) + tail)[0] == if b then 't' else 'f';
      case Null =>
        hide ParseInt, EncodeInt, ParseString;
        LiteralReadBack("null", tail);
        assert (Encode(v) + tail)[0] == 'n';
    }
  }

  lemma ObjReadBack(m: Members, tail: string)
    requires ParseMembers(EncodeMembers(m) + ("}" + tail)) == Read(m, "}" + tail)
    ensures ParseValue(Encode(Obj(m)) + tail) == Read(Obj(m), tail)
  {
    hide ParseMembers, EncodeMembers, ParseInt, ParseString, Literal;
    var b := Encode(Obj(m)) + tail;
    assert b[0] == '{' && b[1..] == EncodeMembers(m) + ("}" + tail);
    assert ("}" + tail)[1..] == tail;
  }

  function Pair(k: string, v: Value): string { Quote(k) + ":" + Encode(v) }

  /** What follows a member's value. */
  function MoreMembers(rest: Members): string {
    if rest.Nil? then "" else "," + EncodeMembers(rest)
  }

  lemma EncodedMember(k: string, v: Value, rest: Members)
    ensures EncodeMembers(Member(k, v, rest)) == Pair(k, v) + MoreMembers(rest)
    ensures Pair(k, v) != "" && Pair(k, v)[0] == '"'
  {
    hide Encode;
  }

  lemma Regroup(a: string, b: string, c: string)
    ensures (a + b) + c == a + (b + c)
  {
  }

  lemma PairReadBack(k: string, v: Value, tail: string)
    requires Plain(k) && ParseValue(Encode(v) + tail) == Read(v, tail)
    ensures ParseMember(Pair(k, v) + tail) == Read((k, v), tail)
  {
    hide ParseValue, Encode, ParseString;
    var afterKey := ":" + (Encode(v) + tail);
    StringReadBack(k, afterKey);
    hide Quote;
    assert Pair(k, v) + tail == Quote(k) + afterKey;
    assert afterKey[1..] == Encode(v) + tail;
  }

  lemma MemberReadBack(k: string, v: Value, rest: Members, tail: string)
    requires Plain(k) && tail != "" && tail[0] == '}'
    requires ParseValue(Encode(v) + (MoreMembers(rest) + tail)) == Read(v, MoreMembers(rest) + tail)
    requires ParseMembers(EncodeMembers(rest) + tail) == Read(rest, tail)
    ensures ParseMembers(EncodeMembers(Member(k, v, rest)) + tail) == Read(Member(k, v, rest), tail)
  {
    EncodedMember(k, v, rest);
    PairReadBack(k, v, MoreMembers(rest) + tail);
    Regroup(Pair(k, v), MoreMembers(rest), tail);
    MembersStep(Pair(k, v), (k, v), rest, tail);
    hide *;
  }

  lemma MembersStep(text: string, pair: (string, Value), rest: Members, tail: string)
    requires text != "" && text[0] == '"' && tail != "" && tail[0] == '}'
    requires ParseMember(text + (MoreMembers(rest) + tail)) == Read(pair, MoreMembers(rest) + tail)
    requires ParseMembers(EncodeMembers(rest) + tail) == Read(rest, tail)
    ensures ParseMembers(text + (MoreMembers(rest) + tail)) == Read(Member(pair.0, pair.1, rest), tail)
  {
    hide ParseMember, EncodeMembers;
    var after := MoreMembers(rest) + tail;
    if rest.Member? {
      assert after[1..] == EncodeMembers(rest) + tail;
    } else {
      assert after == tail;
    }
  }

  lemma {:induction false} ValueReadBack(v: Value, tail: string)
    requires WellFormed(v) && Follows(tail)
    ensures ParseValue(Encode(v) + tail) == Read(v, tail)
    decreases v
  {
    hide ParseValue, ParseMembers, Encode, EncodeMembers;
    if v.Obj? {
      MembersReadBack(v.members, "}" + tail);
      ObjReadBack(v.members, tail);
    } else {
      ScalarReadBack(v, tail);
    }
  }

  lemma {:induction false} MembersReadBack(m: Members, tail: string)
    requires WellFormedMembers(m) && tail != "" && tail[0] == '}'
    ensures ParseMembers(EncodeMembers(m) + tail) == Read(m, tail)
    decreases m
  {
    if m.Nil? {
      hide ParseValue, ParseString;
      assert EncodeMembers(m) + tail == tail;
    } else {
      hide ParseValue, ParseMembers, Encode, EncodeMembers;
      MembersReadBack(m.rest, tail);
      ValueReadBack(m.value, MoreMembers(m.rest) + tail);
      MemberReadBack(m.key, m.value, m.rest, tail);
    }
  }

  // ---- Only an encoding is read ----

  lemma StringExact(b: string)
    requires ParseString(b).Read?
    ensures b == Quote(ParseString(b).value) + ParseString(b).rest && Plain(ParseString(b).value)
  {
    PlainRunPlain(b[1..]);
    var n := PlainRun(b[1..]);
    assert b[1..n + 1] == b[1..][..n];
  }

  lemma IntExact(b: string)
    requires ParseInt(b).Read?
    ensures b == EncodeInt(ParseInt(b).value) + ParseInt(b).rest
  {
    if b != "" && b[0] == '-' {
      NumeralExact(b[1..]);
      assert b == "-" + b[1..];
    } else {
      NumeralExact(b);
    }
  }

  lemma NumeralExact(b: string)
    requires ParseNumeral(b).Read?
    ensures b == Digits(ParseNumeral(b).value) + ParseNumeral(b).rest
  {
    DigitRunDigits(b);
    ValueDigits(b[..DigitRun(b)]);
  }

  lemma ScalarExact(b: string)
    requires ParseValue(b).Read? && b[0] != '{'
    ensures b == Encode(ParseValue(b).value) + ParseValue(b).rest && WellFormed(ParseValue(b).value)
  {
    if b[0] == '"' {
      StringExact(b);
    } else if Literal(b, "true").None? && Literal(b, "false").None? && Literal(b, "null").None? {
      IntExact(b);
    }
    hide ParseMembers, ParseString, ParseInt, EncodeInt, Plain;
  }

  lemma ObjExact(b: string)
    requires ParseValue(b).Read? && b[0] == '{'
    requires ParseMembers(b[1..]).Read? ==>
      b[1..] == EncodeMembers(ParseMembers(b[1..]).value) + ParseMembers(b[1..]).rest && WellFormedMembers(ParseMembers(b[1..]).value)
    ensures b == Encode(ParseValue(b).value) + ParseValue(b).rest && WellFormed(ParseValue(b).value)
  {
    hide ParseMembers, ParseString, ParseInt, EncodeMembers, WellFormedMembers, Literal;
    assert b == "{" + b[1..];
    var rest := ParseMembers(b[1..]).rest;
    assert rest == "}" + rest[1..];
  }

  lemma {:induction false} ValueExact(b: string)
    requires ParseValue(b).Read?
    ensures b == Encode(ParseValue(b).value) + ParseValue(b).rest && WellFormed(ParseValue(b).value)
    decreases |b|, 0
  {
    assert b != "";
    hide ParseValue, ParseMembers, Encode, EncodeMembers, WellFormed, WellFormedMembers;
    if b[0] == '{' {
      if ParseMembers(b[1..]).Read? { MembersExact(b[1..]); }
      ObjExact(b);
    } else {
      ScalarExact(b);
    }
  }

  ghost predicate MembersAreExact(b: string) {
    ParseMembers(b).Read? ==>
      b == EncodeMembers(ParseMembers(b).value) + ParseMembers(b).rest && WellFormedMembers(ParseMembers(b).value)
  }

  ghost predicate ValueIsExact(b: string) {
    ParseValue(b).Read? ==> b == Encode(ParseValue(b).value) + ParseValue(b).rest && WellFormed(ParseValue(b).value)
  }

  lemma PairExact(b: string)
    requires ParseMember(b).Read? && ValueIsExact(ParseString(b).rest[1..])
    ensures var (k, v) := ParseMember(b).value;
            b == Quote(k) + ":" + Encode(v) + ParseMember(b).rest && Plain(k) && WellFormed(v)
  {
    StringExact(b);
    hide ParseValue, Encode, WellFormed, ParseString, Plain, Quote;
    var afterKey := ParseString(b).rest;
    Colon(Quote(ParseString(b).value), afterKey, Encode(ParseValue(afterKey[1..]).value), ParseValue(afterKey[1..]).rest);
  }

  lemma Colon(key: string, afterKey: string, value: string, rest: string)
    requires afterKey != "" && afterKey[0] == ':' && afterKey[1..] == value + rest
    ensures key + afterKey == key + ":" + value + rest
  {
    assert afterKey == ":" + (value + rest);
  }

  lemma MemberExact(b: string)
    requires ParseMembers(b).Read? && b != "" && b[0] != '}'
    requires ParseMember(b).Read?
    requires var (k, v) := ParseMember(b).value;
             b == Quote(k) + ":" + Encode(v) + ParseMember(b).rest && Plain(k) && WellFormed(v)
    requires ParseMember(b).rest != "" ==> MembersAreExact(ParseMember(b).rest[1..])
    ensures b == EncodeMembers(ParseMembers(b).value) + ParseMembers(b).rest && WellFormedMembers(ParseMembers(b).value)
  {
    hide ParseValue, Encode, WellFormed, ParseMember, Plain, Quote;
    var after := ParseMember(b).rest;
    if after != "" && after[0] == ',' {
      assert after == "," + after[1..];
    }
  }

  lemma {:induction false} MembersExact(b: string)
    requires ParseMembers(b).Read?
    ensures b == EncodeMembers(ParseMembers(b).value) + ParseMembers(b).rest && WellFormedMembers(ParseMembers(b).value)
    decreases |b|, 1
  {
    if b != "" && b[0] != '}' {
      ReadHasPair(b);
      hide ParseValue, ParseMember, ParseMembers, Encode, EncodeMembers, WellFormed, WellFormedMembers;
      var afterKey := ParseString(b).rest;
      if ParseValue(afterKey[1..]).Read? { ValueExact(afterKey[1..]); }
      PairExact(b);
      var after := ParseMember(b).rest;
      if after != "" && ParseMembers(after[1..]).Read? { MembersExact(after[1..]); }
      MemberExact(b);
    }
  }

  lemma ReadHasPair(b: string)
    requires ParseMembers(b).Read? && b != "" && b[0] != '}'
    ensures ParseMember(b).Read? && ParseString(b).Read? && ParseString(b).rest != ""
  {
  }

  // ---- Documents ----

  /** Character by character, as Python compares strings. */
  predicate Less(a: string, b: string) {
    exists i :: 0 <= i <= |a| && LessAt(a, b, i)
  }

  predicate LessAt(a: string, b: string, i: int) {
    0 <= i <= |a| && i < |b| && a[..i] == b[..i] && (i == |a| || a[i] < b[i])
  }

  predicate Sorted(v: Value) {
    v.Obj? ==> SortedMembers(v.members)
  }

  predicate SortedMembers(m: Members) {
    m.Member? ==> Sorted(m.value) && SortedMembers(m.rest) && (m.rest.Member? ==> Less(m.key, m.rest.key))
  }

  /** `_decode_closed`: the object whose canonical encoding the payload is, if there is one. */
  function Decode(payload: string): Option<Members> {
    match ParseValue(payload)
    case Failed => None
    case Read(v, rest) => if rest == "" && v.Obj? && SortedMembers(v.members) then Some(v.members) else None
  }

  predicate Canonical(m: Members) {
    WellFormedMembers(m) && SortedMembers(m)
  }

  /** The decoder accepts exactly the canonical encodings of canonical objects. */
  lemma DecodeIsExact(payload: string, m: Members)
    ensures Decode(payload) == Some(m) <==> Canonical(m) && payload == Encode(Obj(m))
  {
    if Decode(payload) == Some(m) {
      ValueExact(payload);
    }
    if Canonical(m) && payload == Encode(Obj(m)) {
      ValueReadBack(Obj(m), "");
      assert Encode(Obj(m)) + "" == payload;
    }
  }

  lemma EncodedObject(m: Members, tail: string)
    ensures Encode(Obj(m)) + tail != "" && (Encode(Obj(m)) + tail)[1..] == EncodeMembers(m) + ("}" + tail)
  {
    hide EncodeMembers;
  }

  /** A document cut short is never a document: a torn write cannot be mistaken for a record. */
  lemma TornIsNotADocument(payload: string, n: nat)
    requires Decode(payload).Some? && n < |payload|
    ensures Decode(payload[..n]).None?
  {
    var torn, tail := payload[..n], payload[n..];
    assert payload == torn + tail;
    assert |tail| > 0;
    if Decode(torn).Some? {
      OneDocument(torn, payload, tail);
    }
  }

  lemma OneDocument(torn: string, payload: string, tail: string)
    requires Decode(torn).Some? && Decode(payload).Some? && payload == torn + tail
    ensures tail == ""
  {
    hide *;
    var m, w := Decode(payload).value, Decode(torn).value;
    DecodeIsExact(payload, m);
    DecodeIsExact(torn, w);
    CanonicalIsWellFormed(m);
    CanonicalIsWellFormed(w);
    EncodedObject(m, "");
    EncodedObject(w, tail);
    MembersReadBack(w, "}" + tail);
    MembersReadBack(m, "}" + "");
    assert payload + "" == payload;
    assert |"}" + tail| == |"}" + ""|;
  }

  lemma CanonicalIsWellFormed(m: Members)
    requires Canonical(m)
    ensures WellFormedMembers(m)
  {
  }
}
