/** Unpadded base64url, sections 3.5 and 5 of RFC 4648, as the two decoders of the authority
    formats read it: leniently first, and then only if encoding gives the same text back. */
module Base64Url {
  import opened Wrappers

  type Byte = x: int | 0 <= x < 256

  type Sextet = x: int | 0 <= x < 64

  function CharOf(x: Sextet): char {
    if x < 26 then 'A' + x as char
    else if x < 52 then 'a' + (x - 26) as char
    else if x < 62 then '0' + (x - 52) as char
    else if x == 62 then '-' else '_'
  }

  /** The decoder also takes the characters of the standard alphabet for 62 and 63. */
  function SextetOf(c: char): Option<Sextet> {
    if 'A' <= c <= 'Z' then Some((c - 'A') as int)
    else if 'a' <= c <= 'z' then Some((c - 'a') as int + 26)
    else if '0' <= c <= '9' then Some((c - '0') as int + 52)
    else if c == '-' || c == '+' then Some(62)
    else if c == '_' || c == '/' then Some(63)
    else None
  }

  lemma CharIsAlphabet(x: Sextet)
    ensures SextetOf(CharOf(x)) == Some(x) && CharOf(x) != '='
  {
  }

  function Encode(b: seq<Byte>): (s: string)
    ensures |s| == (4 * |b| + 2) / 3
  {
    if |b| == 0 then ""
    else if |b| == 1 then [CharOf(b[0] / 4), CharOf(b[0] % 4 * 16)]
    else if |b| == 2 then [CharOf(b[0] / 4), CharOf(b[0] % 4 * 16 + b[1] / 16), CharOf(b[1] % 16 * 4)]
    else
      [CharOf(b[0] / 4), CharOf(b[0] % 4 * 16 + b[1] / 16), CharOf(b[1] % 16 * 4 + b[2] / 64), CharOf(b[2] % 64)]
      + Encode(b[3..])
  }

  const ALPHABET: string := "ABCDEFGHIJKLMNOPQRSTUVWXYZ" + "abcdefghijklmnopqrstuvwxyz" + "0123456789-_"

  lemma CharInAlphabet(x: Sextet)
    ensures |ALPHABET| == 64 && CharOf(x) == ALPHABET[x]
  {
    var upper, lower, others := "ABCDEFGHIJKLMNOPQRSTUVWXYZ", "abcdefghijklmnopqrstuvwxyz", "0123456789-_";
    assert ALPHABET == upper + lower + others;
  }

  /** The 24 bits of three bytes, taken six at a time. */
  lemma SixAtATime(a: Byte, b: Byte, c: Byte)
    ensures 0x4_0000 * (a / 4) + 0x1000 * (a % 4 * 16 + b / 16) + 0x40 * (b % 16 * 4 + c / 64) + c % 64 == 0x1_0000 * a + 0x100 * b + c
  {
  }

  /** Three bytes become four characters with the same 24 bits. */
  lemma SameBits(a: Byte, b: Byte, c: Byte, rest: seq<Byte>)
    ensures exists x: Sextet, y: Sextet, z: Sextet, w: Sextet ::
      && Encode([a, b, c] + rest) == [ALPHABET[x], ALPHABET[y], ALPHABET[z], ALPHABET[w]] + Encode(rest)
      && 0x4_0000 * x + 0x1000 * y + 0x40 * z + w == 0x1_0000 * a + 0x100 * b + c
  {
    var all := [a, b, c] + rest;
    assert all[3..] == rest && all[0] == a && all[1] == b && all[2] == c;
    var x: Sextet, y: Sextet, z: Sextet, w: Sextet := a / 4, a % 4 * 16 + b / 16, b % 16 * 4 + c / 64, c % 64;
    SixAtATime(a, b, c);
    CharInAlphabet(x);
    CharInAlphabet(y);
    CharInAlphabet(z);
    CharInAlphabet(w);
    hide CharOf;
    assert Encode(all) == [CharOf(x), CharOf(y), CharOf(z), CharOf(w)] + Encode(rest);
  }

  /** One or two bytes at the end are filled up with zero bytes, and the characters of zeros left out. */
  lemma LastBytes(a: Byte, b: Byte)
    ensures Encode([a]) == Encode([a, 0, 0])[..2] && Encode([a, b]) == Encode([a, b, 0])[..3]
  {
    hide CharOf;
  }

  function Sextets(s: string): Option<seq<Sextet>> {
    if s == "" then Some([])
    else
      match (SextetOf(s[0]), Sextets(s[1..]))
      case (Some(x), Some(rest)) => Some([x] + rest)
      case _ => None
  }

  function HighByte(a: Sextet, b: Sextet): Byte { a * 4 + b / 16 }

  function MiddleByte(b: Sextet, c: Sextet): Byte { b % 16 * 16 + c / 4 }

  function LowByte(c: Sextet, d: Sextet): Byte { c % 4 * 64 + d }

  /** Trailing bits are dropped; one character over a multiple of four is an error. */
  function Pack(x: seq<Sextet>): Option<seq<Byte>> {
    if |x| == 0 then Some([])
    else if |x| == 1 then None
    else if |x| == 2 then Some([HighByte(x[0], x[1])])
    else if |x| == 3 then Some([HighByte(x[0], x[1]), MiddleByte(x[1], x[2])])
    else
      match Pack(x[4..])
      case None => None
      case Some(rest) => Some([HighByte(x[0], x[1]), MiddleByte(x[1], x[2]), LowByte(x[2], x[3])] + rest)
  }

  function Lenient(s: string): Option<seq<Byte>> {
    match Sextets(s)
    case None => None
    case Some(x) => Pack(x)
  }

  /** `_decode_unpadded_b64url` */
  function Decode(s: string, exactLength: nat): Option<seq<Byte>> {
    if s == "" || '=' in s then None
    else
      match Lenient(s)
      case None => None
      case Some(b) => if |b| == exactLength && Encode(b) == s then Some(b) else None
  }

  /** The characters a non-validating decoder looks at. */
  function Keep(s: string): string {
    if s == "" then "" else (if SextetOf(s[0]).Some? then [s[0]] else []) + Keep(s[1..])
  }

  /** `_signature` of the A0 reader, which skips what is not in the alphabet. */
  function Signature(s: string): Option<seq<Byte>> {
    if '=' in s || |s| != 86 then None
    else
      match Lenient(Keep(s))
      case None => None
      case Some(b) => if |b| == 64 && Encode(b) == s then Some(b) else None
  }

  // ---- Round trip ----

  function EncodedSextets(b: seq<Byte>): (x: seq<Sextet>)
  {
    if |b| == 0 then []
    else if |b| == 1 then [b[0] / 4, b[0] % 4 * 16]
    else if |b| == 2 then [b[0] / 4, b[0] % 4 * 16 + b[1] / 16, b[1] % 16 * 4]
    else [b[0] / 4, b[0] % 4 * 16 + b[1] / 16, b[1] % 16 * 4 + b[2] / 64, b[2] % 64] + EncodedSextets(b[3..])
  }

  function Chars(x: seq<Sextet>): string {
    if x == [] then "" else [CharOf(x[0])] + Chars(x[1..])
  }

  lemma OneChar(a: Sextet, x: seq<Sextet>)
    ensures Chars([a] + x) == [CharOf(a)] + Chars(x)
  {
    assert ([a] + x)[1..] == x;
  }

  lemma {:induction false} CharsAppend(x: seq<Sextet>, y: seq<Sextet>)
    ensures Chars(x + y) == Chars(x) + Chars(y)
  {
    if x == [] {
      EmptyChars();
      assert x + y == y;
    } else {
      CharsAppend(x[1..], y);
      OneChar(x[0], x[1..] + y);
      OneChar(x[0], x[1..]);
      hide Chars, CharOf;
      assert x + y == [x[0]] + (x[1..] + y) && x == [x[0]] + x[1..];
    }
  }

  lemma FourChars(a: Sextet, b: Sextet, c: Sextet, d: Sextet)
    ensures Chars([a]) == [CharOf(a)]
    ensures Chars([a, b]) == [CharOf(a), CharOf(b)]
    ensures Chars([a, b, c]) == [CharOf(a), CharOf(b), CharOf(c)]
    ensures Chars([a, b, c, d]) == [CharOf(a), CharOf(b), CharOf(c), CharOf(d)]
  {
    hide CharOf;
    OneChar(a, []);
    OneChar(a, [b]);
    OneChar(b, []);
    OneChar(a, [b, c]);
    OneChar(b, [c]);
    OneChar(c, []);
    OneChar(a, [b, c, d]);
    OneChar(b, [c, d]);
    OneChar(c, [d]);
    OneChar(d, []);
    EmptyChars();
    hide Chars;
    assert [a] + [] == [a] && [a] + [b] == [a, b] && [a] + [b, c] == [a, b, c] && [a] + [b, c, d] == [a, b, c, d];
    assert [b] + [] == [b] && [b] + [c] == [b, c] && [b] + [c, d] == [b, c, d];
    assert [c] + [] == [c] && [c] + [d] == [c, d] && [d] + [] == [d];
  }

  lemma {:induction false} EncodeInTwoSteps(b: seq<Byte>)
    ensures Encode(b) == Chars(EncodedSextets(b))
  {
    hide CharOf, Chars;
    if |b| == 0 {
      assert Chars([]) == "" by { EmptyChars(); }
    } else if |b| == 1 {
      FourChars(b[0] / 4, b[0] % 4 * 16, 0, 0);
    } else if |b| == 2 {
      FourChars(b[0] / 4, b[0] % 4 * 16 + b[1] / 16, b[1] % 16 * 4, 0);
    } else {
      var quad: seq<Sextet> := [b[0] / 4, b[0] % 4 * 16 + b[1] / 16, b[1] % 16 * 4 + b[2] / 64, b[2] % 64];
      FourChars(quad[0], quad[1], quad[2], quad[3]);
      EncodeInTwoSteps(b[3..]);
      CharsAppend(quad, EncodedSextets(b[3..]));
    }
  }

  lemma EmptyChars()
    ensures Chars([]) == ""
  {
  }

  lemma {:induction false} SextetsOfChars(x: seq<Sextet>)
    ensures Sextets(Chars(x)) == Some(x) && '=' !in Chars(x) && Keep(Chars(x)) == Chars(x)
  {
    if x != [] {
      CharIsAlphabet(x[0]);
      hide CharOf, SextetOf;
      SextetsOfChars(x[1..]);
      assert Chars(x)[1..] == Chars(x[1..]);
      assert x == [x[0]] + x[1..];
    }
  }

  /** A group of three bytes survives being cut in four sextets; so do one and two bytes. */
  lemma BytesBack(a: Byte, b: Byte, c: Byte)
    ensures HighByte(a / 4, a % 4 * 16 + b / 16) == a
    ensures HighByte(a / 4, a % 4 * 16) == a
    ensures MiddleByte(a % 4 * 16 + b / 16, b % 16 * 4 + c / 64) == b
    ensures MiddleByte(a % 4 * 16 + b / 16, b % 16 * 4) == b
    ensures LowByte(b % 16 * 4 + c / 64, c % 64) == c
  {
  }

  lemma PackOne(b: Byte)
    ensures Pack(EncodedSextets([b])) == Some([b])
  {
    BytesBack(b, 0, 0);
    hide HighByte;
  }

  lemma PackTwo(a: Byte, b: Byte)
    ensures Pack(EncodedSextets([a, b])) == Some([a, b])
  {
    BytesBack(a, b, 0);
    hide HighByte, MiddleByte;
  }

  lemma PackFour(a: Sextet, b: Sextet, c: Sextet, d: Sextet, rest: seq<Sextet>)
    ensures Pack([a, b, c, d] + rest) == match Pack(rest) case None => None
      case Some(bytes) => Some([HighByte(a, b), MiddleByte(b, c), LowByte(c, d)] + bytes)
  {
    hide HighByte, MiddleByte, LowByte;
    assert ([a, b, c, d] + rest)[4..] == rest;
  }

  /** The four sextets of three bytes. */
  function Quad(a: Byte, b: Byte, c: Byte): seq<Sextet> {
    [a / 4, a % 4 * 16 + b / 16, b % 16 * 4 + c / 64, c % 64]
  }

  lemma LongSextets(b: seq<Byte>)
    requires |b| >= 3
    ensures EncodedSextets(b) == Quad(b[0], b[1], b[2]) + EncodedSextets(b[3..])
  {
  }

  lemma PackLong(b: seq<Byte>)
    requires |b| >= 3 && Pack(EncodedSextets(b[3..])) == Some(b[3..])
    ensures Pack(EncodedSextets(b)) == Some([b[0], b[1], b[2]] + b[3..])
  {
    hide HighByte, MiddleByte, LowByte, Pack, EncodedSextets, Quad;
    LongSextets(b);
    ThreeBytes(b[0], b[1], b[2], EncodedSextets(b[3..]), b[3..]);
  }

  lemma ThreeBytes(a: Byte, b: Byte, c: Byte, rest: seq<Sextet>, bytes: seq<Byte>)
    requires Pack(rest) == Some(bytes)
    ensures Pack(Quad(a, b, c) + rest) == Some([a, b, c] + bytes)
  {
    hide HighByte, MiddleByte, LowByte, Pack;
    BytesBack(a, b, c);
    PackFour(a / 4, a % 4 * 16 + b / 16, b % 16 * 4 + c / 64, c % 64, rest);
  }

  lemma {:induction false} PackEncoded(b: seq<Byte>)
    ensures Pack(EncodedSextets(b)) == Some(b)
  {
    if |b| >= 3 {
      PackEncoded(b[3..]);
      PackLong(b);
      hide Pack, EncodedSextets;
      assert b == [b[0], b[1], b[2]] + b[3..];
    } else if |b| == 2 {
      PackTwo(b[0], b[1]);
      assert b == [b[0], b[1]];
    } else if |b| == 1 {
      PackOne(b[0]);
      assert b == [b[0]];
    }
  }

  lemma LenientReadsBack(b: seq<Byte>)
    ensures Lenient(Encode(b)) == Some(b) && '=' !in Encode(b) && Keep(Encode(b)) == Encode(b)
  {
    EncodeInTwoSteps(b);
    SextetsOfChars(EncodedSextets(b));
    PackEncoded(b);
  }

  /** Each byte string has exactly one text that the decoder accepts: its encoding. */
  lemma DecodeIsExact(s: string, b: seq<Byte>, exactLength: nat)
    ensures Decode(s, exactLength) == Some(b) <==> s == Encode(b) && |b| == exactLength && b != []
  {
    hide Encode, Lenient;
    LenientReadsBack(b);
    EncodeEmpty(b);
  }

  lemma EncodeEmpty(b: seq<Byte>)
    ensures Encode(b) == "" <==> b == []
  {
  }

  /** The two decoders, strict and skipping, accept the same signatures and read them alike. */
  lemma SignatureIsDecode(s: string)
    ensures Signature(s) == Decode(s, 64)
  {
    hide Encode, Lenient, Keep;
    if Decode(s, 64).Some? {
      var b := Decode(s, 64).value;
      LenientReadsBack(b);
      assert |s| == 86;
    } else if Signature(s).Some? {
      DecodeIsExact(s, Signature(s).value, 64);
    }
  }

  /** The lengths the formats rely on. */
  lemma FormatLengths(b: seq<Byte>)
    ensures |b| == 64 ==> |Encode(b)| == 86
    ensures |b| == 72 ==> |Encode(b)| == 96
  {
  }
}
