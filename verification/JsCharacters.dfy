/** Characters behind escapes (client/captcha_jslex.go): UTF-8 as RFC 3629 decodes it, and
    escapes printed with the digits of a number, which are read as that character. */
module JsCharacters {
  import opened JsLexer
  import opened JsNumber
  import opened JsSpelling
  import opened JsDigits

  // ---------- UTF-8 ----------

  /** A byte of the six low bits of a code point, in section 3 of RFC 3629. */
  predicate IsTail(c: char) { '\U{80}' <= c <= '\U{BF}' }

  function SixBits(c: char): int { c as int % 64 }

  /** The code point that bytes decode to, if they are the encoding of one. */
  function Decoded(s: string): int {
    if |s| == 1 && s[0] < '\U{80}' then s[0] as int
    else if |s| == 2 && '\U{C2}' <= s[0] <= '\U{DF}' && IsTail(s[1]) then (s[0] as int - 0xC0) * 64 + SixBits(s[1])
    else if |s| == 3 && '\U{E0}' <= s[0] <= '\U{EF}' && IsTail(s[1]) && IsTail(s[2]) then
      ((s[0] as int - 0xE0) * 64 + SixBits(s[1])) * 64 + SixBits(s[2])
    else if |s| == 4 && '\U{F0}' <= s[0] <= '\U{F4}' && IsTail(s[1]) && IsTail(s[2]) && IsTail(s[3]) then
      (((s[0] as int - 0xF0) * 64 + SixBits(s[1])) * 64 + SixBits(s[2])) * 64 + SixBits(s[3])
    else -1
  }

  lemma TailByte(q: nat, v: nat, c: char)
    requires v == q * 64 + v % 64 && c == ByteOf(0x80 + v % 64)
    ensures IsTail(c) && q * 64 + SixBits(c) == v
  {
  }

  lemma LastByte(v: nat, n: nat, mark: nat)
    requires n > 0
    ensures Led(v, n, mark) == Led(v / 64, n - 1, mark) + [ByteOf(0x80 + v % 64)]
  {
  }

  lemma TwoBytes(v: nat)
    requires 0x80 <= v < 0x800
    ensures |Led(v, 1, 0xC0)| == 2 && Decoded(Led(v, 1, 0xC0)) == v
  {
    LastByte(v, 1, 0xC0);
    TailByte(v / 64, v, ByteOf(0x80 + v % 64));
  }

  lemma ThreeBytes(v: nat)
    requires 0x800 <= v < 0x10000
    ensures |Led(v, 2, 0xE0)| == 3 && Decoded(Led(v, 2, 0xE0)) == v
  {
    var u := v / 64;
    LastByte(v, 2, 0xE0);
    LastByte(u, 1, 0xE0);
    TailByte(u, v, ByteOf(0x80 + v % 64));
    TailByte(u / 64, u, ByteOf(0x80 + u % 64));
  }

  lemma FourDecode(s: string, h: nat, w: nat, u: nat, v: nat)
    requires |s| == 4 && h <= 4 && s[0] == ByteOf(0xF0 + h) && IsTail(s[1]) && IsTail(s[2]) && IsTail(s[3])
    requires h * 64 + SixBits(s[1]) == w && w * 64 + SixBits(s[2]) == u && u * 64 + SixBits(s[3]) == v
    ensures Decoded(s) == v
  {
  }

  lemma FourBytes(v: nat)
    requires 0x10000 <= v < 0x110000
    ensures |Led(v, 3, 0xF0)| == 4 && Decoded(Led(v, 3, 0xF0)) == v
  {
    var u := v / 64;
    var w := u / 64;
    var h := w / 64;
    var a, b, c := ByteOf(0x80 + w % 64), ByteOf(0x80 + u % 64), ByteOf(0x80 + v % 64);
    LastByte(v, 3, 0xF0);
    LastByte(u, 2, 0xF0);
    LastByte(w, 1, 0xF0);
    assert Led(v, 3, 0xF0) == [ByteOf(0xF0 + h), a, b, c];
    TailByte(u, v, c);
    TailByte(w, u, b);
    TailByte(h, w, a);
    FourDecode([ByteOf(0xF0 + h), a, b, c], h, w, u, v);
  }

  /** A code point is written in as few bytes as can be and decodes to itself; a
      surrogate is written as U+FFFD. */
  lemma Utf8Decodes(v: nat)
    requires v < 0x110000
    ensures Decoded(Utf8(v)) == if 0xD800 <= v <= 0xDFFF then 0xFFFD else v
    ensures |Utf8(v)| == if v < 0x80 then 1 else if v < 0x800 then 2 else if v < 0x10000 then 3 else 4
  {
    if 0x80 <= v < 0x800 {
      TwoBytes(v);
    } else if 0x800 <= v < 0x10000 && !(0xD800 <= v <= 0xDFFF) {
      ThreeBytes(v);
    } else if 0x10000 <= v {
      FourBytes(v);
    }
  }

  // ---------- escapes with the digits of a number ----------

  lemma {:induction false} HexIsSixteen(s: string)
    requires forall k :: 0 <= k < |s| ==> IsHexDigit(s[k])
    ensures HexNumber(s) == DigitsValue(s, 16)
  {
    if s != "" {
      HexIsSixteen(s[..|s| - 1]);
    }
  }

  /** A number in hexadecimal, with leading zeros. */
  function HexText(v: nat, zeros: nat, alphabet: string): string
    requires |alphabet| >= 16
  {
    LeadingZeros(zeros) + Printed(v, 16, alphabet)
  }

  lemma HexRead(v: nat, zeros: nat, alphabet: string, t: string)
    requires (alphabet == LOWER_CASE || alphabet == UPPER_CASE) && t == HexText(v, zeros, alphabet)
    ensures AllOf(t, IsHexDigit) && HexNumber(t) == v
  {
    AlphabetsKnown();
    PrintedRead(v, 16, alphabet);
    BehindZeros(zeros, Printed(v, 16, alphabet), 16);
    assert forall k :: 0 <= k < |t| ==> DigitVal(t[k]) < 16;
    HexIsSixteen(t);
  }

  lemma FourDigits(t: string)
    requires |t| == 4 && AllOf(t, IsHexDigit)
    ensures HexNumber(t) == FourHexValue(t[0], t[1], t[2], t[3])
  {
    assert t[..3][..2] == t[..2] && t[..2][..1] == t[..1] && t[..1][..0] == "";
    assert HexNumber("") == 0 && HexNumber(t[..1]) == HexVal(t[0]);
    assert HexNumber(t[..2]) == HexNumber(t[..1]) * 16 + HexVal(t[1]);
    assert HexNumber(t[..3]) == HexNumber(t[..2]) * 16 + HexVal(t[2]);
  }

  lemma TwoDigits(t: string)
    requires |t| == 2 && AllOf(t, IsHexDigit)
    ensures HexNumber(t) == HexVal(t[0]) * 16 + HexVal(t[1]) < 256
    ensures ByteOf(HexNumber(t)) == HexNumber(t) as char
  {
    assert t[..1][..0] == "";
    assert HexNumber("") == 0 && HexNumber(t[..1]) == HexVal(t[0]);
  }

  /** A \u escape with the four digits of a number is that character in UTF-8. */
  lemma FourDigitsRead(src: string, i: nat, v: nat, zeros: nat, alphabet: string, t: string)
    requires (alphabet == LOWER_CASE || alphabet == UPPER_CASE) && t == HexText(v, zeros, alphabet) && |t| == 4
    requires TextAt(src, i, "u" + t) && i + 5 < |src|
    ensures v < 0x110000 && Escape(src, i) == Chunk(i + 5, Utf8(v))
  {
    HexRead(v, zeros, alphabet, t);
    FourDigits(t);
    var p := Code(t[0], t[1], t[2], t[3]);
    assert EscapeText(p) == "u" + t;
    EscapeRead(src, i, p, '"', i + 5);
  }

  /** So is one in braces, with any number of leading zeros. */
  lemma BracedDigitsRead(src: string, i: nat, v: nat, zeros: nat, alphabet: string, t: string)
    requires (alphabet == LOWER_CASE || alphabet == UPPER_CASE) && t == HexText(v, zeros, alphabet) && v < 0x110000
    requires TextAt(src, i, "u{" + t + "}") && i + 3 + |t| < |src|
    ensures Escape(src, i) == Chunk(i + 3 + |t|, Utf8(v))
  {
    HexRead(v, zeros, alphabet, t);
    EscapeRead(src, i, Braced(t), '"', i + 3 + |t|);
  }

  lemma PairRead(src: string, i: nat, t: string, v: nat)
    requires |t| == 2 && AllOf(t, IsHexDigit) && HexNumber(t) == v && TextAt(src, i, "x" + t) && i + 3 < |src|
    ensures v < 256 && Escape(src, i) == Chunk(i + 3, [v as char])
  {
    TwoDigits(t);
    var p := HexPair(t[0], t[1]);
    assert EscapeText(p) == "x" + t;
    EscapeRead(src, i, p, '"', i + 3);
  }

  /** A \x escape with the two digits of a number is that byte. */
  lemma TwoDigitsRead(src: string, i: nat, v: nat, zeros: nat, alphabet: string, t: string)
    requires (alphabet == LOWER_CASE || alphabet == UPPER_CASE) && t == HexText(v, zeros, alphabet) && |t| == 2
    requires TextAt(src, i, "x" + t) && i + 3 < |src|
    ensures v < 256 && Escape(src, i) == Chunk(i + 3, [v as char])
  {
    HexRead(v, zeros, alphabet, t);
    PairRead(src, i, t, v);
  }
}
