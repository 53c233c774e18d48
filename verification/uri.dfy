/** JavaScript's `encodeURIComponent`: characters outside the unreserved set
    are replaced by the `%XY` escapes of their UTF-8 bytes, with upper-case
    hexadecimal digits. A percent-decoder serves as its reference inverse.

    Strings are sequences of Unicode scalar values, so the lone surrogates
    on which `encodeURIComponent` throws cannot occur. */
module Uri {

  import opened Wrappers

  /** The characters `encodeURIComponent` leaves alone. */
  predicate Unreserved(c: char) {
    || 'A' <= c <= 'Z' || 'a' <= c <= 'z' || '0' <= c <= '9'
    || c == '-' || c == '_' || c == '.' || c == '!' || c == '~'
    || c == '*' || c == '\'' || c == '(' || c == ')'
  }

  predicate IsByte(b: int) {
    0 <= b < 256
  }

  /** A number that is a Unicode scalar value. */
  predicate IsScalar(cp: int) {
    0 <= cp < 0xD800 || 0xE000 <= cp < 0x11_0000
  }

  /** The UTF-8 encoding of one character. */
  function Utf8(c: char): (bytes: seq<int>)
    ensures 1 <= |bytes| <= 4
    ensures forall i :: 0 <= i < |bytes| ==> IsByte(bytes[i])
  {
    var cp := c as int;
    if cp < 0x80 then [cp]
    else if cp < 0x800 then [0xC0 + cp / 64, 0x80 + cp % 64]
    else if cp < 0x1_0000 then [0xE0 + cp / 4096, 0x80 + (cp / 64) % 64, 0x80 + cp % 64]
    else [0xF0 + cp / 262144, 0x80 + (cp / 4096) % 64, 0x80 + (cp / 64) % 64, 0x80 + cp % 64]
  }

  /** An upper-case hexadecimal digit. */
  function HexDigit(d: int): (c: char)
    requires 0 <= d < 16
    ensures '0' <= c <= '9' || 'A' <= c <= 'F'
  {
    if d < 10 then ('0' as int + d) as char else ('A' as int + d - 10) as char
  }

  /** The value of a hexadecimal digit of either case. */
  function HexValue(c: char): Option<int> {
    if '0' <= c <= '9' then Some(c as int - '0' as int)
    else if 'A' <= c <= 'F' then Some(c as int - 'A' as int + 10)
    else if 'a' <= c <= 'f' then Some(c as int - 'a' as int + 10)
    else None
  }

  lemma HexValueOfDigit(d: int)
    requires 0 <= d < 16
    ensures HexValue(HexDigit(d)) == Some(d)
  {
  }

  /** `%XY` for one byte. */
  function Escape(b: int): (r: string)
    requires IsByte(b)
    ensures |r| == 3 && r[0] == '%'
  {
    ['%', HexDigit(b / 16), HexDigit(b % 16)]
  }

  function EscapeAll(bytes: seq<int>): (r: string)
    requires forall i :: 0 <= i < |bytes| ==> IsByte(bytes[i])
    ensures |r| == 3 * |bytes|
  {
    if |bytes| == 0 then "" else Escape(bytes[0]) + EscapeAll(bytes[1..])
  }

  function EncodeChar(c: char): (r: string)
    ensures Unreserved(c) ==> r == [c]
    ensures !Unreserved(c) ==> r == EscapeAll(Utf8(c))
  {
    if Unreserved(c) then [c] else EscapeAll(Utf8(c))
  }

  /** `encodeURIComponent(s)`. */
  function EncodeURIComponent(s: string): (r: string)
    ensures |r| >= |s|
  {
    if |s| == 0 then "" else EncodeChar(s[0]) + EncodeURIComponent(s[1..])
  }

  // ---------------------------------------------------------------------
  // What the encoded text consists of

  /** A character an encoded text may contain. */
  predicate EncodedChar(c: char) {
    Unreserved(c) || c == '%' || 'A' <= c <= 'F'
  }

  predicate AllEncoded(s: string) {
    forall i :: 0 <= i < |s| ==> EncodedChar(s[i])
  }

  lemma AllEncodedAppend(a: string, b: string)
    requires AllEncoded(a) && AllEncoded(b)
    ensures AllEncoded(a + b)
  {
    forall i | 0 <= i < |a + b| ensures EncodedChar((a + b)[i]) {
      if i >= |a| {
        assert (a + b)[i] == b[i - |a|];
      }
    }
  }

  /** Escapes consist of `%` and upper-case hexadecimal digits. */
  lemma {:induction false} EscapesEncoded(bytes: seq<int>)
    requires forall i :: 0 <= i < |bytes| ==> IsByte(bytes[i])
    ensures AllEncoded(EscapeAll(bytes))
    decreases |bytes|
  {
    if |bytes| > 0 {
      EscapesEncoded(bytes[1..]);
      var e := Escape(bytes[0]);
      assert AllEncoded(e);
      AllEncodedAppend(e, EscapeAll(bytes[1..]));
    }
  }

  /** The encoding holds only unreserved characters and escapes, so none of
      the characters that delimit parts of a URL (`&`, `=`, `#`, `?`, `/`,
      `+`, space) survive into a query parameter. */
  lemma {:induction false} EncodedChars(s: string)
    ensures forall i :: 0 <= i < |EncodeURIComponent(s)| ==> EncodedChar(EncodeURIComponent(s)[i])
    decreases |s|
  {
    if |s| > 0 {
      EncodedChars(s[1..]);
      if !Unreserved(s[0]) {
        EscapesEncoded(Utf8(s[0]));
      }
      AllEncodedAppend(EncodeChar(s[0]), EncodeURIComponent(s[1..]));
    }
  }

  /** A text of unreserved characters is its own encoding. */
  lemma {:induction false} EncodeUnreserved(s: string)
    requires forall i :: 0 <= i < |s| ==> Unreserved(s[i])
    ensures EncodeURIComponent(s) == s
    decreases |s|
  {
    if |s| > 0 {
      EncodeUnreserved(s[1..]);
    }
  }

  lemma {:induction false} EncodeAppend(a: string, b: string)
    ensures EncodeURIComponent(a + b) == EncodeURIComponent(a) + EncodeURIComponent(b)
    decreases |a|
  {
    if |a| > 0 {
      assert (a + b)[1..] == a[1..] + b;
      EncodeAppend(a[1..], b);
    } else {
      assert a + b == b;
    }
  }

  // ---------------------------------------------------------------------
  // The reference decoder

  /** The byte escaped at position `i`, if there is an escape there. */
  function ReadByte(s: string, i: nat): (r: Option<int>)
    ensures r.Some? ==> IsByte(r.value)
  {
    if i + 3 <= |s| && s[i] == '%' then
      match (HexValue(s[i + 1]), HexValue(s[i + 2]))
      case (Some(hi), Some(lo)) => Some(hi * 16 + lo)
      case _ => None
    else None
  }

  lemma ReadEscape(b: int, rest: string)
    requires IsByte(b)
    ensures ReadByte(Escape(b) + rest, 0) == Some(b)
  {
    HexValueOfDigit(b / 16);
    HexValueOfDigit(b % 16);
  }

  predicate Continuation(b: int) {
    0x80 <= b < 0xC0
  }

  /** The number of bytes a UTF-8 sequence starting with `b` has. */
  function SequenceLength(b: int): Option<nat> {
    if 0 <= b < 0x80 then Some(1)
    else if 0xC0 <= b < 0xE0 then Some(2)
    else if 0xE0 <= b < 0xF0 then Some(3)
    else if 0xF0 <= b < 0xF8 then Some(4)
    else None
  }

  /** The code point of a complete byte sequence. */
  function CodePoint(bytes: seq<int>): int
    requires 1 <= |bytes| <= 4
  {
    if |bytes| == 1 then bytes[0]
    else if |bytes| == 2 then (bytes[0] - 0xC0) * 64 + (bytes[1] - 0x80)
    else if |bytes| == 3 then (bytes[0] - 0xE0) * 4096 + (bytes[1] - 0x80) * 64 + (bytes[2] - 0x80)
    else (bytes[0] - 0xF0) * 262144 + (bytes[1] - 0x80) * 4096 + (bytes[2] - 0x80) * 64 + (bytes[3] - 0x80)
  }

  /** The `n` escaped bytes at the start of `s`. */
  function ReadBytes(s: string, n: nat): (r: Option<seq<int>>)
    ensures r.Some? ==> |r.value| == n
  {
    if n == 0 then Some([])
    else match (ReadByte(s, 3 * (n - 1)), ReadBytes(s, n - 1))
      case (Some(b), Some(bs)) => Some(bs + [b])
      case _ => None
  }

  /** One character written as escapes at the start of `s`, and the number
      of characters its escapes take. */
  function DecodeEscapes(s: string): Option<(char, nat)> {
    match ReadByte(s, 0)
    case None => None
    case Some(b0) =>
      match SequenceLength(b0)
      case None => None
      case Some(n) =>
        match ReadBytes(s, n)
        case None => None
        case Some(bytes) =>
          if (forall k :: 1 <= k < n ==> Continuation(bytes[k])) && IsScalar(CodePoint(bytes))
          then Some((CodePoint(bytes) as char, 3 * n))
          else None
  }

  /** Percent-decoding: escapes become the characters their UTF-8 bytes
      denote, every other character stands for itself. */
  function PercentDecode(s: string): Option<string>
    decreases |s|
  {
    if |s| == 0 then Some("")
    else if s[0] != '%' then
      match PercentDecode(s[1..])
      case None => None
      case Some(rest) => Some([s[0]] + rest)
    else
      match DecodeEscapes(s)
      case None => None
      case Some((c, used)) =>
        if 0 < used <= |s| then
          match PercentDecode(s[used..])
          case None => None
          case Some(rest) => Some([c] + rest)
        else None
  }

  /** The UTF-8 bytes of a character start a sequence of their own length,
      continue with continuation bytes and spell its code point. */
  lemma Utf8Decodes(c: char)
    ensures SequenceLength(Utf8(c)[0]) == Some(|Utf8(c)|)
    ensures forall k :: 1 <= k < |Utf8(c)| ==> Continuation(Utf8(c)[k])
    ensures CodePoint(Utf8(c)) == c as int
  {
    var cp := c as int;
    if cp >= 0x1_0000 {
      FourByteDigits(cp);
    } else if cp >= 0x800 {
      ThreeByteDigits(cp);
    }
  }

  /** A code point of three UTF-8 bytes in base 64. */
  lemma ThreeByteDigits(cp: int)
    requires 0x800 <= cp < 0x1_0000
    ensures cp == (cp / 4096) * 4096 + ((cp / 64) % 64) * 64 + cp % 64
  {
    var q := cp / 64;
    assert cp == q * 64 + cp % 64;
    assert q == (q / 64) * 64 + q % 64;
    assert q / 64 == cp / 4096;
  }

  /** A code point of four UTF-8 bytes in base 64. */
  lemma FourByteDigits(cp: int)
    requires 0x1_0000 <= cp < 0x11_0000
    ensures cp == (cp / 262144) * 262144 + ((cp / 4096) % 64) * 4096 + ((cp / 64) % 64) * 64 + cp % 64
  {
    var q := cp / 64;
    var q2 := q / 64;
    assert cp == q * 64 + cp % 64;
    assert q == q2 * 64 + q % 64;
    assert q2 == cp / 4096;
    assert q2 == (q2 / 64) * 64 + q2 % 64;
    assert q2 / 64 == cp / 262144;
  }

  /** Reading past a prefix. */
  lemma ReadByteShift(p: string, t: string, j: nat)
    ensures ReadByte(p + t, |p| + j) == ReadByte(t, j)
  {
    if j + 3 <= |t| {
      assert (p + t)[|p| + j] == t[j];
      assert (p + t)[|p| + j + 1] == t[j + 1];
      assert (p + t)[|p| + j + 2] == t[j + 2];
    }
  }

  /** The `k`-th escape of `bytes` reads back as the `k`-th byte. */
  lemma {:induction false} ReadByteAt(bytes: seq<int>, rest: string, k: nat)
    requires forall i :: 0 <= i < |bytes| ==> IsByte(bytes[i])
    requires k < |bytes|
    ensures ReadByte(EscapeAll(bytes) + rest, 3 * k) == Some(bytes[k])
    decreases k
  {
    var e := Escape(bytes[0]);
    var t := EscapeAll(bytes[1..]) + rest;
    assert EscapeAll(bytes) + rest == e + t;
    if k == 0 {
      ReadEscape(bytes[0], t);
    } else {
      ReadByteShift(e, t, 3 * (k - 1));
      ReadByteAt(bytes[1..], rest, k - 1);
    }
  }

  /** The escapes of the bytes `bytes`, read back `n` at a time. */
  lemma {:induction false} ReadEscapedBytes(bytes: seq<int>, rest: string, n: nat)
    requires forall i :: 0 <= i < |bytes| ==> IsByte(bytes[i])
    requires n <= |bytes|
    ensures ReadBytes(EscapeAll(bytes) + rest, n) == Some(bytes[..n])
  {
    if n > 0 {
      ReadEscapedBytes(bytes, rest, n - 1);
      ReadByteAt(bytes, rest, n - 1);
      assert bytes[..n] == bytes[..n - 1] + [bytes[n - 1]];
    }
  }

  /** The escapes of a reserved character decode to it. */
  lemma DecodeEscapesOfChar(c: char, rest: string)
    requires !Unreserved(c)
    ensures DecodeEscapes(EncodeChar(c) + rest) == Some((c, |EncodeChar(c)|))
  {
    var bytes := Utf8(c);
    var s := EscapeAll(bytes) + rest;
    assert EncodeChar(c) + rest == s;
    Utf8Decodes(c);
    ReadByteAt(bytes, rest, 0);
    assert ReadByte(s, 0) == Some(bytes[0]);
    assert SequenceLength(bytes[0]) == Some(|bytes|);
    ReadEscapedBytes(bytes, rest, |bytes|);
    assert bytes[..|bytes|] == bytes;
    assert ReadBytes(s, |bytes|) == Some(bytes);
    assert IsScalar(CodePoint(bytes));
  }

  /** Decoding undoes `encodeURIComponent`: the encoding loses nothing. */
  lemma {:induction false} DecodeEncode(s: string)
    ensures PercentDecode(EncodeURIComponent(s)) == Some(s)
    decreases |s|
  {
    if |s| > 0 {
      var e := EncodeURIComponent(s);
      var head := EncodeChar(s[0]);
      var tail := EncodeURIComponent(s[1..]);
      DecodeEncode(s[1..]);
      if Unreserved(s[0]) {
        assert e[1..] == tail;
      } else {
        DecodeEscapesOfChar(s[0], tail);
        assert e[|head|..] == tail;
      }
      assert [s[0]] + s[1..] == s;
    }
  }

  /** Distinct texts have distinct encodings. */
  lemma EncodeInjective(a: string, b: string)
    requires EncodeURIComponent(a) == EncodeURIComponent(b)
    ensures a == b
  {
    DecodeEncode(a);
    DecodeEncode(b);
  }
}
