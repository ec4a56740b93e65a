/** The JavaScript lexer of client/captcha_jslex.go.

    Text is a `string` whose characters stand for the source's bytes. The pure
    functions say what one scan of the text yields; the methods are the
    source's loops, each proved to compute the function of the same name. */
module JsLexer {

  datatype Kind = Str | Num | Ident | Punct | Template | Regex

  /** What the recogniser reads of a token. */
  datatype Token = Token(kind: Kind, val: string)

  /** A token with the span of text it was read from; `pos` is the source's
      Pos, and `end` the index at which the scan went on. */
  datatype Lexeme = Lexeme(tok: Token, pos: nat, end: nat)

  /** A scan's outcome: where it stopped and the text it produced. */
  datatype Chunk = Chunk(next: nat, out: string)

  function Prepend(b: string, r: Chunk): Chunk { Chunk(r.next, b + r.out) }

  lemma PrependTwice(a: string, b: string, r: Chunk)
    ensures Prepend(a, Prepend(b, r)) == Prepend(a + b, r)
  {
    assert a + (b + r.out) == (a + b) + r.out;
  }

  /** One turn of the main loop: something skipped, or a token read. */
  datatype Step = Skip(next: nat) | Emit(lexeme: Lexeme)

  const PUNCT_OPS: seq<string> := [
    ">>>=", "...", "===", "!==", "**=", "<<=", ">>=", ">>>", "&&=", "||=", "??=",
    "=>", "==", "!=", "<=", ">=", "&&", "||", "??", "?.", "++", "--",
    "+=", "-=", "*=", "/=", "%=", "&=", "|=", "^=", "<<", ">>"
  ]

  const REGEX_PREC_KEYWORDS: set<string> := {
    "return", "typeof", "instanceof", "in", "of", "new", "delete", "void",
    "case", "do", "else", "throw", "yield", "await"
  }

  // ---------- character classes ----------

  predicate IsBlank(c: char) { c == ' ' || c == '\t' || c == '\n' || c == '\r' || c == '\U{0B}' || c == '\U{0C}' }

  predicate IsDecDigit(c: char) { '0' <= c <= '9' }

  predicate IsOctDigit(c: char) { '0' <= c <= '7' }

  predicate IsHexDigit(c: char) { '0' <= c <= '9' || 'a' <= c <= 'f' || 'A' <= c <= 'F' }

  predicate IsIdentStart(c: char) { 'a' <= c <= 'z' || 'A' <= c <= 'Z' || c == '_' || c == '$' }

  predicate IsIdentPart(c: char) { IsIdentStart(c) || '0' <= c <= '9' }

  predicate IsHighByte(c: char) { '\U{80}' <= c }

  predicate IsIdentByte(c: char) { IsHighByte(c) || IsIdentPart(c) }

  predicate IsDecRun(c: char) { IsDecDigit(c) || c == '_' }

  predicate IsHexRun(c: char) { IsHexDigit(c) || c == '_' }

  predicate IsOctRun(c: char) { IsOctDigit(c) || c == '_' }

  predicate IsBinRun(c: char) { c == '0' || c == '1' || c == '_' }

  predicate NotNewline(c: char) { c != '\n' }

  function HexVal(c: char): (v: nat)
    ensures IsHexDigit(c) ==> v < 16
  {
    if '0' <= c <= '9' then c as int - '0' as int
    else if 'a' <= c <= 'f' then c as int - 'a' as int + 10
    else if 'A' <= c then c as int - 'A' as int + 10
    else 0
  }

  function ByteOf(n: nat): char { (n % 256) as char }

  /** A code point in `n` bytes of six bits each behind a first one with its mark. */
  function Led(v: nat, n: nat, mark: nat): string
    decreases v, n
  {
    if n == 0 then [ByteOf(mark + v)] else Led(v / 64, n - 1, mark) + [ByteOf(0x80 + v % 64)]
  }

  /** The UTF-8 encoding of a code point; surrogates encode U+FFFD. */
  function Utf8(v: nat): string
    requires v < 0x110000
  {
    if v < 0x80 then [ByteOf(v)]
    else if v < 0x800 then Led(v, 1, 0xC0)
    else if 0xD800 <= v < 0xE000 then "\U{EF}\U{BF}\U{BD}"
    else if v < 0x10000 then Led(v, 2, 0xE0)
    else Led(v, 3, 0xF0)
  }

  /** The number a run of hexadecimal digits denotes. */
  function HexNumber(digits: string): nat
    requires forall k :: 0 <= k < |digits| ==> IsHexDigit(digits[k])
  {
    if digits == "" then 0 else HexNumber(digits[..|digits| - 1]) * 16 + HexVal(digits[|digits| - 1])
  }

  /** A number as a machine integer of 64 bits holds it. */
  function Word64(n: int): int { (n + 0x8000_0000_0000_0000) % 0x1_0000_0000_0000_0000 - 0x8000_0000_0000_0000 }

  /** A number as a rune of 32 bits holds it. */
  function Word32(n: int): int { (n + 0x8000_0000) % 0x1_0000_0000 - 0x8000_0000 }

  /** What the loop over the digits makes of them, wrapping around. */
  function HexWord(digits: string): int
    requires forall k :: 0 <= k < |digits| ==> IsHexDigit(digits[k])
  {
    if digits == "" then 0 else Word64(HexWord(digits[..|digits| - 1]) * 16 + HexVal(digits[|digits| - 1]))
  }

  lemma WordOfWord(n: int, h: int)
    ensures Word64(Word64(n) * 16 + h) == Word64(n * 16 + h)
  {
    var q := (n + 0x8000_0000_0000_0000) / 0x1_0000_0000_0000_0000;
    assert Word64(n) == n - q * 0x1_0000_0000_0000_0000;
  }

  /** The loop holds the number modulo 2^64, as a signed integer, for any run of digits:
      so a number past the last code point can be taken for a character. */
  lemma {:induction false} HexWordIs(digits: string)
    requires forall k :: 0 <= k < |digits| ==> IsHexDigit(digits[k])
    ensures HexWord(digits) == Word64(HexNumber(digits))
    ensures HexNumber(digits) < 0x8000_0000_0000_0000 ==> HexWord(digits) == HexNumber(digits)
  {
    if digits != "" {
      var n := |digits| - 1;
      HexWordIs(digits[..n]);
      WordOfWord(HexNumber(digits[..n]), HexVal(digits[n]));
    }
  }

  /** The text of a rune cut to 32 bits; what is no code point then becomes U+FFFD. */
  function RuneText(v: int): string {
    if 0 <= v < 0x110000 then Utf8(v) else CutRuneText(Word32(v))
  }

  function CutRuneText(r: int): string { if 0 <= r < 0x110000 then Utf8(r) else "\U{EF}\U{BF}\U{BD}" }

  // ---------- scans ----------

  /** The end of the longest run of `p` characters from `i`. */
  function SpanEnd(src: string, i: nat, p: char -> bool): (j: nat)
    requires i <= |src|
    ensures i <= j <= |src|
    ensures forall k :: i <= k < j ==> p(src[k])
    ensures j < |src| ==> !p(src[j])
    decreases |src| - i
  {
    if i < |src| && p(src[i]) then SpanEnd(src, i + 1, p) else i
  }

  method ScanSpan(src: string, i: nat, p: char -> bool) returns (j: nat)
    requires i <= |src|
    ensures j == SpanEnd(src, i, p)
  {
    j := i;
    while j < |src| && p(src[j])
      invariant i <= j <= |src|
      invariant SpanEnd(src, i, p) == SpanEnd(src, j, p)
    {
      j := j + 1;
    }
  }

  predicate StarSlash(src: string, k: nat) { k + 1 < |src| && src[k] == '*' && src[k + 1] == '/' }

  /** The first comment terminator at or after `i`, or the last index of the
      text when there is none. */
  function CommentStop(src: string, i: nat): (j: nat)
    requires i <= |src|
    ensures i <= j <= |src|
    ensures StarSlash(src, j) || |src| <= j + 1
    ensures forall k :: i <= k < j ==> !StarSlash(src, k)
    decreases |src| - i
  {
    if i + 1 < |src| && !StarSlash(src, i) then CommentStop(src, i + 1) else i
  }

  function BlockCommentEnd(src: string, i: nat): (j: nat)
    requires i + 1 < |src|
    ensures i + 2 <= j <= |src|
  {
    var stop := CommentStop(src, i + 2);
    if stop + 1 < |src| then stop + 2 else |src|
  }

  method ScanBlockComment(src: string, i: nat) returns (j: nat)
    requires i + 1 < |src|
    ensures j == BlockCommentEnd(src, i)
  {
    j := i + 2;
    while j + 1 < |src| && !StarSlash(src, j)
      invariant i + 2 <= j <= |src|
      invariant CommentStop(src, i + 2) == CommentStop(src, j)
    {
      j := j + 1;
    }
    if j + 1 < |src| {
      j := j + 2;
    } else {
      j := |src|;
    }
  }

  /** Four hexadecimal digits from `i`. */
  predicate FourHex(src: string, i: nat)
  {
    i + 3 < |src| && IsHexDigit(src[i]) && IsHexDigit(src[i + 1]) && IsHexDigit(src[i + 2]) && IsHexDigit(src[i + 3])
  }

  function FourHexValue(a: char, b: char, c: char, d: char): (v: nat)
    requires IsHexDigit(a) && IsHexDigit(b) && IsHexDigit(c) && IsHexDigit(d)
    ensures v < 0x10000
  {
    ((HexVal(a) * 16 + HexVal(b)) * 16 + HexVal(c)) * 16 + HexVal(d)
  }

  /** The escape whose character after the backslash is at `i`. */
  function Escape(src: string, i: nat): (e: Chunk)
    requires i < |src|
    ensures i < e.next <= |src|
  {
    var c := src[i];
    if c == 'n' then Chunk(i + 1, "\n")
    else if c == 't' then Chunk(i + 1, "\t")
    else if c == 'r' then Chunk(i + 1, "\r")
    else if c == 'b' then Chunk(i + 1, "\U{08}")
    else if c == 'f' then Chunk(i + 1, "\U{0C}")
    else if c == 'v' then Chunk(i + 1, "\U{0B}")
    else if c == '0' then Chunk(i + 1, "\0")
    else if c == 'x' then
      if i + 2 < |src| && IsHexDigit(src[i + 1]) && IsHexDigit(src[i + 2])
      then Chunk(i + 3, [ByteOf(HexVal(src[i + 1]) * 16 + HexVal(src[i + 2]))])
      else Chunk(i + 1, "x")
    else if c == 'u' then UnicodeEscape(src, i)
    else if c == '\n' then Chunk(i + 1, "")
    else if c == '\r' then Chunk(if i + 1 < |src| && src[i + 1] == '\n' then i + 2 else i + 1, "")
    else if c == '\U{E2}' && i + 2 < |src| && src[i + 1] == '\U{80}' &&
            (src[i + 2] == '\U{A8}' || src[i + 2] == '\U{A9}')
    then Chunk(i + 3, "")
    else Chunk(i + 1, [c])
  }

  function UnicodeEscape(src: string, i: nat): (e: Chunk)
    requires i < |src|
    ensures i < e.next <= |src|
  {
    if FourHex(src, i + 1) then
      Chunk(i + 5, Utf8(FourHexValue(src[i + 1], src[i + 2], src[i + 3], src[i + 4])))
    else if i + 1 < |src| && src[i + 1] == '{' then BracedEscape(src, i, i + 2, 0)
    else Chunk(i + 1, "u")
  }

  /** The escape in braces at `i` whose digits before `j` sum up to `v`. */
  function BracedEscape(src: string, i: nat, j: nat, v: int): (e: Chunk)
    requires i < j <= |src|
    ensures i < e.next <= |src|
    decreases |src| - j
  {
    if j < |src| && IsHexDigit(src[j]) then BracedEscape(src, i, j + 1, Word64(v * 16 + HexVal(src[j])))
    else if j < |src| && src[j] == '}' && v < 0x110000 then Chunk(j + 1, RuneText(v))
    else Chunk(i + 1, "u")
  }

  method ScanBraced(src: string, i: nat) returns (e: Chunk)
    requires i + 2 <= |src|
    ensures e == BracedEscape(src, i, i + 2, 0)
  {
    var j, v := i + 2, 0;
    while j < |src| && IsHexDigit(src[j])
      invariant i + 2 <= j <= |src|
      invariant BracedEscape(src, i, i + 2, 0) == BracedEscape(src, i, j, v)
    {
      v := Word64(v * 16 + HexVal(src[j]));
      j := j + 1;
    }
    if j < |src| && src[j] == '}' && v < 0x110000 {
      return Chunk(j + 1, RuneText(v));
    }
    return Chunk(i + 1, "u");
  }

  method ScanFourHex(src: string, i: nat) returns (v: nat)
    requires FourHex(src, i)
    ensures v == FourHexValue(src[i], src[i + 1], src[i + 2], src[i + 3])
  {
    v := 0;
    for k := 0 to 4
      invariant v == if k == 0 then 0 else if k == 1 then HexVal(src[i])
        else if k == 2 then HexVal(src[i]) * 16 + HexVal(src[i + 1])
        else if k == 3 then (HexVal(src[i]) * 16 + HexVal(src[i + 1])) * 16 + HexVal(src[i + 2])
        else FourHexValue(src[i], src[i + 1], src[i + 2], src[i + 3])
    {
      v := v * 16 + HexVal(src[i + k]);
    }
  }

  method ScanUnicodeEscape(src: string, i: nat) returns (e: Chunk)
    requires i < |src|
    ensures e == UnicodeEscape(src, i)
  {
    if FourHex(src, i + 1) {
      var v := ScanFourHex(src, i + 1);
      return Chunk(i + 5, Utf8(v));
    }
    if i + 1 < |src| && src[i + 1] == '{' {
      e := ScanBraced(src, i);
    } else {
      e := Chunk(i + 1, "u");
    }
  }

  method ScanHexPair(src: string, i: nat) returns (e: Chunk)
    requires i < |src| && src[i] == 'x'
    ensures e == Escape(src, i)
  {
    if i + 2 < |src| {
      if IsHexDigit(src[i + 1]) && IsHexDigit(src[i + 2]) {
        return Chunk(i + 3, [ByteOf(HexVal(src[i + 1]) * 16 + HexVal(src[i + 2]))]);
      }
    }
    return Chunk(i + 1, "x");
  }

  method ScanEscape(src: string, i: nat) returns (e: Chunk)
    requires i < |src|
    ensures e == Escape(src, i)
  {
    match src[i]
    case 'n' => return Chunk(i + 1, "\n");
    case 't' => return Chunk(i + 1, "\t");
    case 'r' => return Chunk(i + 1, "\r");
    case 'b' => return Chunk(i + 1, "\U{08}");
    case 'f' => return Chunk(i + 1, "\U{0C}");
    case 'v' => return Chunk(i + 1, "\U{0B}");
    case '0' => return Chunk(i + 1, "\0");
    case 'x' => e := ScanHexPair(src, i);
    case 'u' => e := ScanUnicodeEscape(src, i);
    case '\n' => return Chunk(i + 1, "");
    case '\r' =>
      if i + 1 < |src| && src[i + 1] == '\n' {
        return Chunk(i + 2, "");
      }
      return Chunk(i + 1, "");
    case '\U{E2}' =>
      if i + 2 < |src| && src[i + 1] == '\U{80}' && (src[i + 2] == '\U{A8}' || src[i + 2] == '\U{A9}') {
        return Chunk(i + 3, "");
      }
      return Chunk(i + 1, [src[i]]);
    case other => return Chunk(i + 1, [other]);
  }

  /** The rest of a string literal opened by `quote`, read from `i`. */
  function StringScan(src: string, i: nat, quote: char): (r: Chunk)
    requires i <= |src|
    ensures i <= r.next <= |src|
    decreases |src| - i
  {
    if i == |src| then Chunk(i, "")
    else if src[i] == quote then Chunk(i + 1, "")
    else if src[i] == '\\' && i + 1 < |src| then
      var e := Escape(src, i + 1);
      Prepend(e.out, StringScan(src, e.next, quote))
    else if src[i] == '\n' then Chunk(i, "")
    else
      Prepend([src[i]], StringScan(src, i + 1, quote))
  }

  method ScanString(src: string, start: nat, quote: char) returns (r: Chunk)
    requires start <= |src|
    ensures r == StringScan(src, start, quote)
  {
    var i, b := start, "";
    while i < |src|
      invariant start <= i <= |src|
      invariant StringScan(src, start, quote) == Prepend(b, StringScan(src, i, quote))
      decreases |src| - i
    {
      var c := src[i];
      if c == quote {
        return Chunk(i + 1, b);
      }
      if c == '\\' && i + 1 < |src| {
        var e := ScanEscape(src, i + 1);
        PrependTwice(b, e.out, StringScan(src, e.next, quote));
        i, b := e.next, b + e.out;
      } else {
        if c == '\n' {
          break;
        }
        PrependTwice(b, [c], StringScan(src, i + 1, quote));
        i, b := i + 1, b + [c];
      }
    }
    return Chunk(i, b);
  }

  /** What reading the template character at `i` does: the next index, the
      substitution depth there and the text kept. */
  function TemplateChar(src: string, i: nat, depth: nat): (r: (nat, nat, string))
    requires i < |src|
    ensures i < r.0 <= |src|
  {
    var c := src[i];
    if c == '\\' && i + 1 < |src| then
      (i + 2, depth, if depth == 0 && src[i + 1] != '`' then [src[i + 1]] else "")
    else if c == '$' && i + 1 < |src| && src[i + 1] == '{' then (i + 2, depth + 1, "")
    else if depth > 0 && c == '{' then (i + 1, depth + 1, "")
    else if depth > 0 && c == '}' then (i + 1, depth - 1, if depth == 1 then [c] else "")
    else (i + 1, depth, if depth == 0 then [c] else "")
  }

  /** The rest of a template literal read from `i`, `depth` substitutions deep. */
  function TemplateScan(src: string, i: nat, depth: nat): (r: Chunk)
    requires i <= |src|
    ensures i <= r.next <= |src|
    decreases |src| - i
  {
    if i == |src| then Chunk(i, "")
    else if depth == 0 && src[i] == '`' then Chunk(i + 1, "")
    else
      var t := TemplateChar(src, i, depth);
      Prepend(t.2, TemplateScan(src, t.0, t.1))
  }

  method ScanTemplate(src: string, start: nat) returns (r: Chunk)
    requires start <= |src|
    ensures r == TemplateScan(src, start, 0)
  {
    var i, depth, b := start, 0, "";
    while i < |src|
      invariant start <= i <= |src|
      invariant TemplateScan(src, start, 0) == Prepend(b, TemplateScan(src, i, depth))
      decreases |src| - i
    {
      if depth == 0 && src[i] == '`' {
        return Chunk(i + 1, b);
      }
      var next, d, kept := ScanTemplateChar(src, i, depth);
      PrependTwice(b, kept, TemplateScan(src, next, d));
      i, depth, b := next, d, b + kept;
    }
    return Chunk(i, b);
  }

  method ScanTemplateChar(src: string, i: nat, depth: nat) returns (next: nat, d: nat, kept: string)
    requires i < |src|
    ensures (next, d, kept) == TemplateChar(src, i, depth)
  {
    var c := src[i];
    next, d, kept := i + 1, depth, "";
    if c == '\\' && i + 1 < |src| {
      if depth == 0 && src[i + 1] != '`' {
        kept := [src[i + 1]];
      }
      next := i + 2;
      return;
    }
    if c == '$' && i + 1 < |src| && src[i + 1] == '{' {
      d, next := depth + 1, i + 2;
      return;
    }
    if depth > 0 && c == '{' {
      d := d + 1;
    }
    if depth > 0 && c == '}' {
      d := d - 1;
    }
    if d == 0 {
      kept := [c];
    }
  }

  /** The digits after a 0x, 0o or 0b prefix, or `i` when there is none. */
  function RadixEnd(src: string, i: nat): (j: nat)
    requires i < |src|
    ensures i <= j <= |src|
    ensures j == i || i + 2 <= j
  {
    if src[i] != '0' || i + 1 == |src| then i
    else if src[i + 1] == 'x' || src[i + 1] == 'X' then SpanEnd(src, i + 2, IsHexRun)
    else if src[i + 1] == 'o' || src[i + 1] == 'O' then SpanEnd(src, i + 2, IsOctRun)
    else if src[i + 1] == 'b' || src[i + 1] == 'B' then SpanEnd(src, i + 2, IsBinRun)
    else i
  }

  function FractionEnd(src: string, j: nat): (k: nat)
    requires j <= |src|
    ensures j <= k <= |src|
  {
    if j < |src| && src[j] == '.' then SpanEnd(src, j + 1, IsDecRun) else j
  }

  function ExponentEnd(src: string, j: nat): (k: nat)
    requires j <= |src|
    ensures j <= k <= |src|
  {
    if j < |src| && (src[j] == 'e' || src[j] == 'E') then
      var k := if j + 1 < |src| && (src[j + 1] == '+' || src[j + 1] == '-') then j + 2 else j + 1;
      if k < |src| && IsDecDigit(src[k]) then SpanEnd(src, k, IsDecDigit) else j
    else j
  }

  function DecimalEnd(src: string, i: nat): (j: nat)
    requires i <= |src|
    ensures i <= j <= |src|
  {
    ExponentEnd(src, FractionEnd(src, SpanEnd(src, i, IsDecRun)))
  }

  method ScanDecimal(src: string, i: nat) returns (j: nat)
    requires i <= |src|
    ensures j == DecimalEnd(src, i)
  {
    j := ScanSpan(src, i, IsDecRun);
    if j < |src| && src[j] == '.' {
      j := ScanSpan(src, j + 1, IsDecRun);
    }
    j := ScanExponent(src, j);
  }

  method ScanExponent(src: string, i: nat) returns (j: nat)
    requires i <= |src|
    ensures j == ExponentEnd(src, i)
  {
    j := i;
    if j < |src| && (src[j] == 'e' || src[j] == 'E') {
      var k := j + 1;
      if k < |src| && (src[k] == '+' || src[k] == '-') {
        k := k + 1;
      }
      if k < |src| && IsDecDigit(src[k]) {
        j := ScanSpan(src, k, IsDecDigit);
      }
    }
  }

  predicate StartsNumber(src: string, i: nat)
    requires i < |src|
  {
    IsDecDigit(src[i]) || (src[i] == '.' && i + 1 < |src| && IsDecDigit(src[i + 1]))
  }

  function NumberEnd(src: string, i: nat): (j: nat)
    requires i < |src| && StartsNumber(src, i)
    ensures i < j <= |src|
  {
    var r := RadixEnd(src, i);
    var d := if r == i then DecimalEnd(src, i) else r;
    if d < |src| && (src[d] == 'n' || src[d] == 'N') then d + 1 else d
  }

  method ScanNumber(src: string, i: nat) returns (j: nat)
    requires i < |src| && StartsNumber(src, i)
    ensures j == NumberEnd(src, i)
  {
    j := i;
    if src[i] == '0' && i + 1 < |src| {
      if src[i + 1] == 'x' || src[i + 1] == 'X' {
        j := ScanSpan(src, i + 2, IsHexRun);
      } else if src[i + 1] == 'o' || src[i + 1] == 'O' {
        j := ScanSpan(src, i + 2, IsOctRun);
      } else if src[i + 1] == 'b' || src[i + 1] == 'B' {
        j := ScanSpan(src, i + 2, IsBinRun);
      }
    }
    if j == i {
      j := ScanDecimal(src, i);
    }
    if j < |src| && (src[j] == 'n' || src[j] == 'N') {
      j := j + 1;
    }
  }

  /** The end of a regular expression whose body is read from `j`, or nothing
      when the line ends first. */
  function RegexScan(src: string, j: nat, inClass: bool): (r: (bool, nat))
    requires j <= |src|
    ensures r.0 ==> j < r.1 <= |src|
    decreases |src| - j
  {
    if j == |src| then (false, j)
    else if src[j] == '\\' && j + 1 < |src| then RegexScan(src, j + 2, inClass)
    else if src[j] == '\n' then (false, j)
    else if inClass then RegexScan(src, j + 1, src[j] != ']')
    else if src[j] == '[' then RegexScan(src, j + 1, true)
    else if src[j] == '/' then (true, SpanEnd(src, j + 1, IsIdentPart))
    else RegexScan(src, j + 1, false)
  }

  method ScanRegex(src: string, start: nat) returns (ok: bool, j: nat)
    requires start <= |src|
    ensures (ok, j) == RegexScan(src, start, false)
  {
    j, ok := start, false;
    var inClass := false;
    while j < |src|
      invariant start <= j <= |src| && !ok
      invariant RegexScan(src, start, false) == RegexScan(src, j, inClass)
      decreases |src| - j
    {
      var c := src[j];
      if c == '\\' && j + 1 < |src| {
        j := j + 2;
      } else {
        if c == '\n' {
          break;
        }
        if inClass {
          if c == ']' {
            inClass := false;
          }
        } else if c == '[' {
          inClass := true;
        } else if c == '/' {
          j := ScanSpan(src, j + 1, IsIdentPart);
          return true, j;
        }
        j := j + 1;
      }
    }
  }

  predicate OpAt(src: string, i: nat, op: string) { i + |op| <= |src| && src[i..i + |op|] == op }

  /** The first operator of `ops` found at `i`, or the empty string. */
  function FirstOp(src: string, i: nat, ops: seq<string>): (op: string)
    ensures op == "" || (op in ops && OpAt(src, i, op))
  {
    if ops == [] then "" else if OpAt(src, i, ops[0]) then ops[0] else FirstOp(src, i, ops[1..])
  }

  method ScanOp(src: string, i: nat, ops: seq<string>) returns (op: string)
    ensures op == FirstOp(src, i, ops)
  {
    var k := 0;
    while k < |ops|
      invariant 0 <= k <= |ops|
      invariant FirstOp(src, i, ops) == FirstOp(src, i, ops[k..])
    {
      if OpAt(src, i, ops[k]) {
        return ops[k];
      }
      k := k + 1;
    }
    return "";
  }

  // ---------- the main loop ----------

  /** Whether a "/" after these tokens opens a regular expression. */
  predicate PrevIsRegexPos(toks: seq<Lexeme>)
  {
    if toks == [] then true
    else
      var last := toks[|toks| - 1].tok;
      match last.kind
      case Ident =>
        var before := if |toks| >= 2 then toks[|toks| - 2].tok else Token(Regex, "");
        if before == Token(Punct, ".") || before == Token(Punct, "?.") then false
        else if last.val == "of" then before.kind == Ident || before == Token(Punct, "]") || before == Token(Punct, "}")
        else last.val in REGEX_PREC_KEYWORDS
      case Punct => last.val !in {")", "]", "}", "++", "--"}
      case _ => false
  }

  function NextStep(src: string, i: nat, toks: seq<Lexeme>): (s: Step)
    requires i < |src|
    ensures s.Skip? ==> i < s.next <= |src|
    ensures s.Emit? ==> s.lexeme.pos == i < s.lexeme.end <= |src|
  {
    var c := src[i];
    if IsBlank(c) then Skip(i + 1)
    else if c == '/' && i + 1 < |src| && src[i + 1] == '/' then Skip(LineCommentEnd(src, i))
    else if c == '/' && i + 1 < |src| && src[i + 1] == '*' then Skip(BlockCommentEnd(src, i))
    else if c == '\'' || c == '"' then
      var r := StringScan(src, i + 1, c);
      Emit(Lexeme(Token(Str, r.out), i, r.next))
    else if c == '`' then
      var r := TemplateScan(src, i + 1, 0);
      Emit(Lexeme(Token(Template, r.out), i, r.next))
    else if StartsNumber(src, i) then Verbatim(src, Num, i, NumberEnd(src, i))
    else if IsIdentStart(c) || IsHighByte(c) then Verbatim(src, Ident, i, SpanEnd(src, i, IsIdentByte))
    else OperatorStep(src, i, toks)
  }

  /** A regular expression where one may stand, else a division sign. */
  function SlashStep(src: string, i: nat, regexPos: bool): (s: Step)
    requires i < |src|
    ensures s.Emit? && s.lexeme.pos == i < s.lexeme.end <= |src|
  {
    var r := RegexScan(src, i + 1, false);
    if regexPos && r.0 then Verbatim(src, Regex, i, r.1) else Verbatim(src, Punct, i, i + 1)
  }

  /** The first operator of `ops` found, else one character of junk. */
  function SignStep(src: string, i: nat, ops: seq<string>): (s: Step)
    requires i < |src|
    ensures s.Emit? && s.lexeme.pos == i < s.lexeme.end <= |src|
  {
    var op := FirstOp(src, i, ops);
    Verbatim(src, Punct, i, if op == "" then i + 1 else i + |op|)
  }

  /** A regular expression, the longest operator, or one character of junk. */
  function OperatorStep(src: string, i: nat, toks: seq<Lexeme>): (s: Step)
    requires i < |src|
    ensures s.Emit? && s.lexeme.pos == i < s.lexeme.end <= |src|
  {
    if src[i] == '/' then SlashStep(src, i, PrevIsRegexPos(toks)) else SignStep(src, i, PUNCT_OPS)
  }

  function LineCommentEnd(src: string, i: nat): (j: nat)
    requires i + 1 < |src| && src[i] == '/'
    ensures i < j <= |src|
  {
    SpanEnd(src, i, NotNewline)
  }

  /** A token that carries exactly the text of its span. */
  function Verbatim(src: string, kind: Kind, i: nat, j: nat): (s: Step)
    requires i < j <= |src|
    ensures s.Emit? && s.lexeme.pos == i && s.lexeme.end == j
  {
    Emit(Lexeme(Token(kind, src[i..j]), i, j))
  }

  /** The tokens of the text once `toks` have been read up to `i`. */
  function LexFrom(src: string, i: nat, toks: seq<Lexeme>): seq<Lexeme>
    requires i <= |src|
    decreases |src| - i
  {
    if i == |src| then toks
    else
      match NextStep(src, i, toks)
      case Skip(j) => LexFrom(src, j, toks)
      case Emit(l) => LexFrom(src, l.end, toks + [l])
  }

  function Lex(src: string): seq<Lexeme> { LexFrom(src, 0, []) }

  function Tokens(ls: seq<Lexeme>): (ts: seq<Token>)
    ensures |ts| == |ls|
    ensures forall k :: 0 <= k < |ls| ==> ts[k] == ls[k].tok
  {
    seq(|ls|, k requires 0 <= k < |ls| => ls[k].tok)
  }

  method TakeStep(src: string, i: nat, toks: seq<Lexeme>) returns (s: Step)
    requires i < |src|
    ensures s == NextStep(src, i, toks)
  {
    var c := src[i];
    if IsBlank(c) {
      return Skip(i + 1);
    }
    if c == '/' && i + 1 < |src| {
      if src[i + 1] == '/' {
        var j := ScanSpan(src, i, NotNewline);
        return Skip(j);
      }
      if src[i + 1] == '*' {
        var j := ScanBlockComment(src, i);
        return Skip(j);
      }
    }
    if c == '\'' || c == '"' {
      var r := ScanString(src, i + 1, c);
      return Emit(Lexeme(Token(Str, r.out), i, r.next));
    }
    if c == '`' {
      var r := ScanTemplate(src, i + 1);
      return Emit(Lexeme(Token(Template, r.out), i, r.next));
    }
    if StartsNumber(src, i) {
      var j := ScanNumber(src, i);
      return Emit(Lexeme(Token(Num, src[i..j]), i, j));
    }
    if IsIdentStart(c) || IsHighByte(c) {
      var j := ScanSpan(src, i, IsIdentByte);
      return Emit(Lexeme(Token(Ident, src[i..j]), i, j));
    }
    s := TakeOperator(src, i, toks);
  }

  method TakeSlash(src: string, i: nat, regexPos: bool) returns (s: Step)
    requires i < |src| && src[i] == '/'
    ensures s == SlashStep(src, i, regexPos)
  {
    if regexPos {
      var ok, j := ScanRegex(src, i + 1);
      if ok {
        return Emit(Lexeme(Token(Regex, src[i..j]), i, j));
      }
    }
    return Emit(Lexeme(Token(Punct, src[i..i + 1]), i, i + 1));
  }

  method TakeSign(src: string, i: nat, ops: seq<string>) returns (s: Step)
    requires i < |src|
    ensures s == SignStep(src, i, ops)
  {
    var op := ScanOp(src, i, ops);
    var j := if op == "" then i + 1 else i + |op|;
    return Emit(Lexeme(Token(Punct, src[i..j]), i, j));
  }

  method TakeOperator(src: string, i: nat, toks: seq<Lexeme>) returns (s: Step)
    requires i < |src|
    ensures s == OperatorStep(src, i, toks)
  {
    if src[i] == '/' {
      s := TakeSlash(src, i, PrevIsRegexPos(toks));
    } else {
      s := TakeSign(src, i, PUNCT_OPS);
    }
  }

  method LexJS(src: string) returns (toks: seq<Lexeme>)
    ensures toks == Lex(src)
  {
    toks := [];
    var i := 0;
    while i < |src|
      invariant 0 <= i <= |src|
      invariant LexFrom(src, i, toks) == Lex(src)
      decreases |src| - i
    {
      var s := TakeStep(src, i, toks);
      match s
      case Skip(j) => i := j;
      case Emit(l) => toks, i := toks + [l], l.end;
    }
  }
}
