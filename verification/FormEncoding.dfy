/**
 * application/x-www-form-urlencoded serializing (WHATWG URL Standard, section 5.2) as URLSearchParams
 * does it, and percent-decoding as decodeURIComponent does it (ECMA-262, section 19.2.6), over UTF-8.
 * A string is a sequence of Unicode scalar values; lone surrogates are not part of this model.
 */
module FormEncoding {
  import opened Wrappers

  // ---- UTF-8 ----

  type Byte = b: int | 0 <= b < 256

  /** Each division by 64 moves six bits into the next continuation byte. */
  function Utf8(c: char): (bytes: seq<Byte>)
    ensures |bytes| > 0
  {
    var n := c as int;
    if n < 0x80 then [n]
    else if n < 0x800 then [0xC0 + n / 64, 0x80 + n % 64]
    else if n < 0x10000 then [0xE0 + n / 64 / 64, 0x80 + n / 64 % 64, 0x80 + n % 64]
    else [0xF0 + n / 64 / 64 / 64, 0x80 + n / 64 / 64 % 64, 0x80 + n / 64 % 64, 0x80 + n % 64]
  }

  /** How many bytes a sequence starting with this byte has; 0 when no sequence starts so. */
  function SequenceLength(first: int): (n: nat)
    ensures n <= 4
  {
    if 0 <= first < 0x80 then 1
    else if 0xC0 <= first < 0xE0 then 2
    else if 0xE0 <= first < 0xF0 then 3
    else if 0xF0 <= first < 0xF8 then 4
    else 0
  }

  predicate Continues(b: int) { 0x80 <= b < 0xC0 }

  /** The payload of a byte under its marker bits. */
  function Bits(b: int, marker: int): int { b - marker }

  /** The number a whole sequence stands for, or -1 when its bytes do not fit together. */
  function CodePoint(bytes: seq<Byte>): (v: int)
    ensures -1 <= v < 0x200000
  {
    if |bytes| == 0 || SequenceLength(bytes[0]) != |bytes| then -1
    else if |bytes| == 1 then bytes[0]
    else if !Continues(bytes[|bytes| - 1]) then -1
    else if |bytes| == 2 then Bits(bytes[0], 0xC0) * 64 + Bits(bytes[1], 0x80)
    else if !Continues(bytes[1]) then -1
    else if |bytes| == 3 then (Bits(bytes[0], 0xE0) * 64 + Bits(bytes[1], 0x80)) * 64 + Bits(bytes[2], 0x80)
    else if !Continues(bytes[2]) then -1
    else ((Bits(bytes[0], 0xF0) * 64 + Bits(bytes[1], 0x80)) * 64 + Bits(bytes[2], 0x80)) * 64 + Bits(bytes[3], 0x80)
  }

  /** Overlong forms, surrogates and values past the last code point are refused. */
  function Scalar(bytes: seq<Byte>): Option<char> {
    var v := CodePoint(bytes);
    if v < 0 || (|bytes| == 2 && v < 0x80) || (|bytes| == 3 && v < 0x800) || (|bytes| == 4 && v < 0x10000)
       || 0xD800 <= v < 0xE000 || v >= 0x110000
    then None else Some(v as char)
  }

  lemma ScalarUndoesUtf8(c: char)
    ensures SequenceLength(Utf8(c)[0]) == |Utf8(c)| && Scalar(Utf8(c)) == Some(c)
  {
    var n := c as int;
    SixBits(n);
    SixBits(n / 64);
    SixBits(n / 64 / 64);
    assert CodePoint(Utf8(c)) == n;
  }

  lemma SixBits(n: int)
    requires n >= 0
    ensures n == n / 64 * 64 + n % 64 && 0 <= n % 64 < 64 && n / 64 <= n
  {
  }

  // ---- serializing ----

  function HexDigit(d: int): char
    requires 0 <= d < 16
  {
    if d < 10 then '0' + d as char else 'A' + (d - 10) as char
  }

  function HexValue(c: char): (d: int)
    ensures -1 <= d < 16
  {
    if '0' <= c <= '9' then c as int - '0' as int
    else if 'A' <= c <= 'F' then c as int - 'A' as int + 10
    else if 'a' <= c <= 'f' then c as int - 'a' as int + 10
    else -1
  }

  function PercentByte(b: Byte): string {
    ['%', HexDigit(b / 16), HexDigit(b % 16)]
  }

  function PercentBytes(bytes: seq<Byte>): string
  {
    if bytes == [] then "" else PercentByte(bytes[0]) + PercentBytes(bytes[1..])
  }

  /** The characters the serializer leaves alone. */
  predicate Unreserved(c: char) {
    'a' <= c <= 'z' || 'A' <= c <= 'Z' || '0' <= c <= '9' || c == '*' || c == '-' || c == '.' || c == '_'
  }

  function EncodeChar(c: char): string {
    if c == ' ' then "+" else if Unreserved(c) then [c] else PercentBytes(Utf8(c))
  }

  function Encode(s: string): string {
    if s == "" then "" else EncodeChar(s[0]) + Encode(s[1..])
  }

  /** Letters, digits and four marks are printed as they are, a space as a plus, all else in percent signs. */
  lemma EncodesOthers(c: char)
    ensures Encode([c]) == [c] <==> 'a' <= c <= 'z' || 'A' <= c <= 'Z' || '0' <= c <= '9' || c in "*-._"
    ensures Encode(" ") == "+"
    ensures !('a' <= c <= 'z' || 'A' <= c <= 'Z' || '0' <= c <= '9' || c in "*-._ ") ==>
      && |Encode([c])| == 3 * |Utf8(c)| && Encode([c])[0] == '%'
      && forall d | d in Encode([c]) :: d in "%0123456789ABCDEF"
  {
    hide Utf8;
    PercentLength(Utf8(c));
    assert [c][1..] == "" && " "[1..] == "";
  }

  lemma {:induction false} PercentLength(bytes: seq<Byte>)
    ensures |PercentBytes(bytes)| == 3 * |bytes| && (bytes != [] ==> PercentBytes(bytes)[0] == '%')
    ensures forall d | d in PercentBytes(bytes) :: d in "%0123456789ABCDEF"
  {
    if bytes != [] {
      HexDigits(bytes[0] / 16);
      HexDigits(bytes[0] % 16);
      hide HexDigit;
      PercentLength(bytes[1..]);
    }
  }

  lemma HexDigits(d: int)
    requires 0 <= d < 16
    ensures HexDigit(d) == "0123456789ABCDEF"[d] && HexDigit(d) in "%0123456789ABCDEF"
  {
    assert "%0123456789ABCDEF"[1 + d] == "0123456789ABCDEF"[d];
  }

  // ---- decoding ----

  /** `replace(/\+/g, ' ')` */
  function PlusToSpace(s: string): (t: string)
    ensures |t| == |s| && forall i | 0 <= i < |s| :: t[i] == if s[i] == '+' then ' ' else s[i]
  {
    seq(|s|, i requires 0 <= i < |s| => if s[i] == '+' then ' ' else s[i])
  }

  /** The byte written as %XX at the start of s, or -1. */
  function ByteAt(s: string): (b: int)
    ensures -1 <= b < 256 && (b >= 0 ==> |s| >= 3)
  {
    if |s| >= 3 && s[0] == '%' && HexValue(s[1]) >= 0 && HexValue(s[2]) >= 0
    then HexValue(s[1]) * 16 + HexValue(s[2])
    else -1
  }

  /** The next n percent-encoded bytes; None when one is malformed. */
  function BytesAt(s: string, n: nat): (bytes: Option<seq<Byte>>)
    ensures bytes.Some? ==> |bytes.value| == n && 3 * n <= |s|
  {
    if n == 0 then Some([])
    else
      var b := ByteAt(s);
      if b < 0 then None
      else match BytesAt(s[3..], n - 1) case None => None case Some(rest) => Some([b] + rest)
  }

  /** `decodeURIComponent`; None where it throws URIError. */
  function Decode(s: string): Option<string> {
    if s == "" then Some("")
    else if s[0] != '%' then Prepend(s[0], Decode(s[1..]))
    else
      var n := SequenceLength(ByteAt(s));
      match BytesAt(s, n)
      case None => None
      case Some(bytes) =>
        match Scalar(bytes)
        case None => None
        case Some(c) => if n == 0 then None else Prepend(c, Decode(s[3 * n..]))
  }

  function Prepend(c: char, rest: Option<string>): Option<string> {
    match rest case None => None case Some(t) => Some([c] + t)
  }

  // ---- round trip ----

  lemma HexUndoes(d: int)
    requires 0 <= d < 16
    ensures HexValue(HexDigit(d)) == d && HexDigit(d) != '+' && Unreserved(HexDigit(d))
  {
  }

  lemma ByteUndoes(b: Byte, rest: string)
    ensures ByteAt(PercentByte(b) + rest) == b
  {
    HexUndoes(b / 16);
    HexUndoes(b % 16);
  }

  lemma {:induction false} BytesUndo(bytes: seq<Byte>, rest: string)
    ensures BytesAt(PercentBytes(bytes) + rest, |bytes|) == Some(bytes) && |PercentBytes(bytes)| == 3 * |bytes|
  {
    if bytes != [] {
      var tail := PercentBytes(bytes[1..]) + rest;
      assert PercentBytes(bytes) + rest == PercentByte(bytes[0]) + tail;
      ByteUndoes(bytes[0], tail);
      assert (PercentByte(bytes[0]) + tail)[3..] == tail;
      BytesUndo(bytes[1..], rest);
      assert bytes == [bytes[0]] + bytes[1..];
    }
  }

  lemma {:induction false} NoPlusInBytes(bytes: seq<Byte>)
    ensures PlusToSpace(PercentBytes(bytes)) == PercentBytes(bytes)
  {
    if bytes != [] {
      HexUndoes(bytes[0] / 16);
      HexUndoes(bytes[0] % 16);
      NoPlusInBytes(bytes[1..]);
      PlusConcat(PercentByte(bytes[0]), PercentBytes(bytes[1..]));
      assert PlusToSpace(PercentByte(bytes[0])) == PercentByte(bytes[0]);
    }
  }

  lemma PlusConcat(a: string, b: string)
    ensures PlusToSpace(a + b) == PlusToSpace(a) + PlusToSpace(b)
  {
  }

  lemma DecodeChar(c: char, rest: string)
    ensures Decode(PlusToSpace(EncodeChar(c)) + rest) == Prepend(c, Decode(rest))
  {
    if c == ' ' || Unreserved(c) {
      assert PlusToSpace(EncodeChar(c)) == [c];
      assert ([c] + rest)[1..] == rest;
    } else {
      var bytes := Utf8(c);
      NoPlusInBytes(bytes);
      ScalarUndoesUtf8(c);
      BytesUndo(bytes, rest);
      var s := PercentBytes(bytes) + rest;
      assert s == PercentByte(bytes[0]) + (PercentBytes(bytes[1..]) + rest);
      ByteUndoes(bytes[0], PercentBytes(bytes[1..]) + rest);
      assert s[3 * |bytes|..] == rest;
    }
  }

  /** Decoding undoes serializing, for every string. */
  lemma {:induction false} DecodeUndoesEncode(s: string)
    ensures Decode(PlusToSpace(Encode(s))) == Some(s)
  {
    if s != "" {
      PlusConcat(EncodeChar(s[0]), Encode(s[1..]));
      DecodeChar(s[0], PlusToSpace(Encode(s[1..])));
      DecodeUndoesEncode(s[1..]);
      assert s == [s[0]] + s[1..];
    } else {
      assert PlusToSpace("") == "";
    }
  }

  predicate Safe(c: char) { Unreserved(c) || c == '+' || c == '%' }

  lemma {:induction false} PercentBytesSafe(bytes: seq<Byte>)
    ensures forall c | c in PercentBytes(bytes) :: Safe(c)
  {
    if bytes != [] {
      HexUndoes(bytes[0] / 16);
      HexUndoes(bytes[0] % 16);
      PercentBytesSafe(bytes[1..]);
    }
  }

  /** Serialized text holds no delimiter of a query. */
  lemma {:induction false} EncodeSafe(s: string)
    ensures forall c | c in Encode(s) :: Safe(c)
    ensures Encode(s) == "" <==> s == ""
  {
    if s != "" {
      PercentBytesSafe(Utf8(s[0]));
      EncodeSafe(s[1..]);
    }
  }
}
