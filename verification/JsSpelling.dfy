/** Ways of writing tokens down, and the proof that the lexer reads each of them
    back: any quotes, any escapes, any number base, any whitespace and comments
    in between. */
module JsSpelling {
  import opened JsLexer

  // ---------- spellings ----------

  /** What may stand between two tokens. */
  datatype Gap = Space(c: char) | LineNote(text: string) | BlockNote(text: string)

  /** One stretch of a quoted string. */
  datatype Piece =
    | Plain(c: char)
    | Named(e: char)                               // \n \t \r \b \f \v \0
    | Escaped(c: char)                             // a backslash before any other character
    | HexPair(a: char, b: char)                    // \xHH
    | Code(a: char, b: char, c: char, d: char)     // \uHHHH
    | Braced(digits: string)                       // \u{...}
    | Continued(terminator: string)                // a line continuation

  /** One character of a template literal, bare or behind a backslash. */
  datatype Glyph = Bare(c: char) | Slashed(c: char)

  datatype Atom =
    | Quoted(quote: char, pieces: seq<Piece>)
    | Templated(glyphs: seq<Glyph>)
    | Decimal(digits: string, suffix: string)
    | Prefixed(radix: char, digits: string, suffix: string)
    | Name(text: string)
    | Mark(c: char)

  datatype Word = Word(atom: Atom, gaps: seq<Gap>)

  const NAMED_ESCAPES := "ntrbfv0"

  const TERMINATORS: set<string> := {"\n", "\r\n", "\U{E2}\U{80}\U{A8}", "\U{E2}\U{80}\U{A9}"}

  predicate ValidGap(g: Gap) {
    match g
    case Space(c) => IsBlank(c)
    case LineNote(text) => forall k :: 0 <= k < |text| ==> text[k] != '\n'
    case BlockNote(text) => forall k :: 0 <= k < |text| ==> !StarSlash(text, k)
  }

  predicate ValidPiece(p: Piece, quote: char) {
    match p
    case Plain(c) => c != quote && c != '\\' && c != '\n'
    case Named(e) => e in NAMED_ESCAPES
    case Escaped(c) => c !in NAMED_ESCAPES && c != 'x' && c != 'u' && c != '\n' && c != '\r' && c != '\U{E2}'
    case HexPair(a, b) => IsHexDigit(a) && IsHexDigit(b)
    case Code(a, b, c, d) => IsHexDigit(a) && IsHexDigit(b) && IsHexDigit(c) && IsHexDigit(d)
    case Braced(digits) => AllOf(digits, IsHexDigit) && HexNumber(digits) < 0x110000
    case Continued(t) => t in TERMINATORS
  }

  /** Any text, backticks and backslashes behind a backslash, that opens no substitution. */
  predicate ValidGlyphs(gs: seq<Glyph>) {
    gs == [] || (
      && (gs[0].Bare? ==> gs[0].c != '`' && gs[0].c != '\\')
      && (|gs| >= 2 && gs[0] == Bare('$') ==> gs[1] != Bare('{'))
      && ValidGlyphs(gs[1..]))
  }

  predicate AllOf(s: string, p: char -> bool) { forall k :: 0 <= k < |s| ==> p(s[k]) }

  /** The digits that may follow a prefix. */
  function RunOf(radix: char): char -> bool {
    if radix == 'x' || radix == 'X' then IsHexRun else if radix == 'o' || radix == 'O' then IsOctRun else IsBinRun
  }

  predicate ValidSuffix(suffix: string) { suffix == "" || suffix == "n" || suffix == "N" }

  predicate ValidAtom(a: Atom) {
    match a
    case Quoted(q, pieces) => (q == '\'' || q == '"') && forall k :: 0 <= k < |pieces| ==> ValidPiece(pieces[k], q)
    case Templated(glyphs) => ValidGlyphs(glyphs)
    case Decimal(digits, suffix) =>
      digits != "" && IsDecDigit(digits[0]) && AllOf(digits, IsDecRun) && ValidSuffix(suffix)
    case Prefixed(radix, digits, suffix) => radix in "xXoObB" && AllOf(digits, RunOf(radix)) && ValidSuffix(suffix)
    case Name(text) => text != "" && (IsIdentStart(text[0]) || IsHighByte(text[0])) && AllOf(text, IsIdentByte)
    case Mark(c) => c in "()[]{},;"
  }

  function GapText(g: Gap): (s: string)
    ensures s != ""
  {
    match g
    case Space(c) => [c]
    case LineNote(text) => "//" + text + "\n"
    case BlockNote(text) => "/*" + text + "*/"
  }

  function GapsText(gs: seq<Gap>): string {
    if gs == [] then "" else GapText(gs[0]) + GapsText(gs[1..])
  }

  /** What stands behind the backslash of an escape. */
  function EscapeText(p: Piece): string
    requires !p.Plain?
  {
    match p
    case Named(e) => [e]
    case Escaped(c) => [c]
    case HexPair(a, b) => ['x', a, b]
    case Code(a, b, c, d) => ['u', a, b, c, d]
    case Braced(digits) => "u{" + digits + "}"
    case Continued(t) => t
  }

  function PieceText(p: Piece): string {
    if p.Plain? then [p.c] else "\\" + EscapeText(p)
  }

  function NamedValue(e: char): char {
    if e == 'n' then '\n' else if e == 't' then '\t' else if e == 'r' then '\r' else if e == 'b' then '\U{08}'
    else if e == 'f' then '\U{0C}' else if e == 'v' then '\U{0B}' else '\0'
  }

  function PieceValue(p: Piece, quote: char): string
    requires ValidPiece(p, quote)
  {
    match p
    case Plain(c) => [c]
    case Named(e) => [NamedValue(e)]
    case Escaped(c) => [c]
    case HexPair(a, b) => [ByteOf(HexVal(a) * 16 + HexVal(b))]
    case Code(a, b, c, d) => Utf8(FourHexValue(a, b, c, d))
    case Braced(digits) => Utf8(HexNumber(digits))
    case Continued(_) => ""
  }

  function PiecesText(ps: seq<Piece>, quote: char): string
    requires forall k :: 0 <= k < |ps| ==> ValidPiece(ps[k], quote)
  {
    if ps == [] then "" else PieceText(ps[0]) + PiecesText(ps[1..], quote)
  }

  function PiecesValue(ps: seq<Piece>, quote: char): string
    requires forall k :: 0 <= k < |ps| ==> ValidPiece(ps[k], quote)
  {
    if ps == [] then "" else PieceValue(ps[0], quote) + PiecesValue(ps[1..], quote)
  }

  function GlyphsText(gs: seq<Glyph>): string {
    if gs == [] then "" else (if gs[0].Bare? then [gs[0].c] else ['\\', gs[0].c]) + GlyphsText(gs[1..])
  }

  /** The text kept of the glyphs: an escaped backtick is dropped. */
  function GlyphsValue(gs: seq<Glyph>): string {
    if gs == [] then "" else (if gs[0] == Slashed('`') then "" else [gs[0].c]) + GlyphsValue(gs[1..])
  }

  function AtomText(a: Atom): (s: string)
    requires ValidAtom(a)
    ensures s != ""
  {
    match a
    case Quoted(q, pieces) => [q] + PiecesText(pieces, q) + [q]
    case Templated(glyphs) => "`" + GlyphsText(glyphs) + "`"
    case Decimal(digits, suffix) => digits + suffix
    case Prefixed(radix, digits, suffix) => ['0', radix] + digits + suffix
    case Name(text) => text
    case Mark(c) => [c]
  }

  /** The token an atom denotes. A number's token keeps its spelling. */
  function TokenOf(a: Atom): Token
    requires ValidAtom(a)
  {
    match a
    case Quoted(q, pieces) => Token(Str, PiecesValue(pieces, q))
    case Templated(glyphs) => Token(Template, GlyphsValue(glyphs))
    case Decimal(_, _) => Token(Num, AtomText(a))
    case Prefixed(_, _, _) => Token(Num, AtomText(a))
    case Name(text) => Token(Ident, text)
    case Mark(c) => Token(Punct, [c])
  }

  /** Numbers and names run on into a letter or digit that follows at once. */
  predicate RunsOn(a: Atom) { a.Decimal? || a.Prefixed? || a.Name? }

  predicate ValidWord(w: Word) {
    ValidAtom(w.atom) && forall k :: 0 <= k < |w.gaps| ==> ValidGap(w.gaps[k])
  }

  predicate AllValid(ws: seq<Word>) { ws == [] || (ValidWord(ws[0]) && AllValid(ws[1..])) }

  /** No two words that would run on into each other touch, and the last does
      not run on into what follows. */
  predicate Apart(ws: seq<Word>) {
    ws == [] || (
      && (RunsOn(ws[0].atom) && ws[0].gaps == [] ==> |ws| >= 2 && !RunsOn(ws[1].atom))
      && Apart(ws[1..]))
  }

  function WordText(w: Word): (s: string)
    requires ValidWord(w)
    ensures s != ""
  {
    AtomText(w.atom) + GapsText(w.gaps)
  }

  function Written(ws: seq<Word>): string
    requires AllValid(ws)
  {
    if ws == [] then "" else WordText(ws[0]) + Written(ws[1..])
  }

  function TokensOf(ws: seq<Word>): (ts: seq<Token>)
    requires AllValid(ws)
    ensures |ts| == |ws|
  {
    if ws == [] then [] else [TokenOf(ws[0].atom)] + TokensOf(ws[1..])
  }

  // ---------- text at a position ----------

  ghost predicate TextAt(src: string, i: nat, t: string) { i + |t| <= |src| && src[i..i + |t|] == t }

  lemma CharAt(src: string, i: nat, t: string, k: nat)
    requires TextAt(src, i, t) && k < |t|
    ensures src[i + k] == t[k]
  {
    assert src[i..i + |t|][k] == src[i + k];
  }

  lemma TextSplits(src: string, i: nat, a: string, b: string, j: nat)
    requires TextAt(src, i, a + b) && j == i + |a|
    ensures TextAt(src, i, a) && TextAt(src, j, b)
  {
    var whole := src[i..i + |a + b|];
    assert whole[..|a|] == a && whole[|a|..] == b;
    assert whole[..|a|] == src[i..i + |a|];
    assert whole[|a|..] == src[j..j + |b|];
  }

  /** A run of `p` characters ends where the first other character stands. */
  lemma {:induction false} SpanEndsAt(src: string, i: nat, p: char -> bool, j: nat)
    requires i <= j <= |src| && (forall k :: i <= k < j ==> p(src[k])) && (j < |src| ==> !p(src[j]))
    ensures SpanEnd(src, i, p) == j
    decreases j - i
  {
    if i < j {
      SpanEndsAt(src, i + 1, p, j);
    }
  }

  lemma SpanOfText(src: string, i: nat, t: string, p: char -> bool, j: nat)
    requires TextAt(src, i, t) && AllOf(t, p) && j == i + |t| && (j < |src| ==> !p(src[j]))
    ensures SpanEnd(src, i, p) == j
  {
    forall k | i <= k < j
      ensures p(src[k])
    {
      CharAt(src, i, t, k - i);
    }
    SpanEndsAt(src, i, p, j);
  }

  // ---------- which scan a character starts ----------

  lemma BlankStep(src: string, i: nat, toks: seq<Lexeme>)
    requires i < |src| && IsBlank(src[i])
    ensures NextStep(src, i, toks) == Skip(i + 1)
  {
  }

  lemma BlockCommentStep(src: string, i: nat, toks: seq<Lexeme>)
    requires i + 1 < |src| && src[i] == '/' && src[i + 1] == '*'
    ensures NextStep(src, i, toks) == Skip(BlockCommentEnd(src, i))
  {
  }

  lemma LineCommentStep(src: string, i: nat, toks: seq<Lexeme>)
    requires i + 1 < |src| && src[i] == '/' && src[i + 1] == '/'
    ensures NextStep(src, i, toks) == Skip(SpanEnd(src, i, NotNewline))
  {
  }

  lemma StringStep(src: string, i: nat, toks: seq<Lexeme>, q: char, j: nat, val: string)
    requires i < |src| && src[i] == q && (q == '\'' || q == '"') && StringScan(src, i + 1, q) == Chunk(j, val)
    ensures NextStep(src, i, toks) == Emit(Lexeme(Token(Str, val), i, j))
  {
  }

  lemma TemplateStep(src: string, i: nat, toks: seq<Lexeme>, r: Chunk)
    requires i < |src| && src[i] == '`' && r == TemplateScan(src, i + 1, 0)
    ensures NextStep(src, i, toks) == Emit(Lexeme(Token(Template, r.out), i, r.next))
  {
  }

  predicate StartsName(c: char) { IsIdentStart(c) || IsHighByte(c) }

  lemma NumberStep(src: string, i: nat, ls: seq<Lexeme>)
    requires i < |src| && StartsNumber(src, i)
    ensures NextStep(src, i, ls) == Verbatim(src, Num, i, NumberEnd(src, i))
  {
  }

  lemma NameStep(src: string, i: nat, ls: seq<Lexeme>)
    requires i < |src| && StartsName(src[i])
    ensures NextStep(src, i, ls) == Verbatim(src, Ident, i, SpanEnd(src, i, IsIdentByte))
  {
  }

  /** A punctuation mark of a call starts no other scan. */
  lemma MarkStartsNothing(c: char)
    requires c in "()[]{},;"
    ensures !IsBlank(c) && c != '/' && c != '\'' && c != '"' && c != '`' && c != '.'
    ensures !IsDecDigit(c) && !IsIdentStart(c) && !IsHighByte(c)
  {
  }

  lemma MarkStep(src: string, i: nat, c: char, toks: seq<Lexeme>)
    requires i < |src| && src[i] == c
    requires !IsBlank(c) && c != '/' && c != '\'' && c != '"' && c != '`' && c != '.'
    requires !IsDecDigit(c) && !IsIdentStart(c) && !IsHighByte(c)
    ensures NextStep(src, i, toks) == OperatorStep(src, i, toks)
  {
  }

  // ---------- gaps are skipped ----------

  lemma {:induction false} CommentStopsAt(src: string, i: nat, j: nat)
    requires i <= j < |src| && StarSlash(src, j) && forall k :: i <= k < j ==> !StarSlash(src, k)
    ensures CommentStop(src, i) == j
    decreases j - i
  {
    if i < j {
      CommentStopsAt(src, i + 1, j);
    }
  }

  lemma NoSlashInNote(src: string, i: nat, text: string, j: nat, k: nat)
    requires TextAt(src, i, text) && ValidGap(BlockNote(text)) && j == i + |text|
    requires j < |src| && src[j] == '*' && i <= k < j
    ensures !StarSlash(src, k)
  {
    CharAt(src, i, text, k - i);
    assert !StarSlash(text, k - i);
    if k + 1 < j {
      CharAt(src, i, text, k + 1 - i);
    }
  }

  lemma NoteEnds(src: string, i: nat, text: string, j: nat)
    requires TextAt(src, i, text + "*/") && ValidGap(BlockNote(text)) && j == i + |text|
    ensures j + 1 < |src| && CommentStop(src, i) == j && StarSlash(src, j)
  {
    TextSplits(src, i, text, "*/", j);
    CharAt(src, j, "*/", 0);
    CharAt(src, j, "*/", 1);
    forall k | i <= k < j
      ensures !StarSlash(src, k)
    {
      NoSlashInNote(src, i, text, j, k);
    }
    CommentStopsAt(src, i, j);
  }

  lemma BlockNoteSkipped(src: string, i: nat, text: string, toks: seq<Lexeme>, j: nat)
    requires TextAt(src, i, "/*" + text + "*/") && ValidGap(BlockNote(text)) && j == i + |text| + 4
    ensures LexFrom(src, i, toks) == LexFrom(src, j, toks)
  {
    assert "/*" + text + "*/" == "/*" + (text + "*/");
    TextSplits(src, i, "/*", text + "*/", i + 2);
    CharAt(src, i, "/*", 0);
    CharAt(src, i, "/*", 1);
    NoteEnds(src, i + 2, text, j - 2);
    BlockCommentStep(src, i, toks);
    SkipOnce(src, i, toks, j);
  }

  lemma CommentSkipped(src: string, i: nat, toks: seq<Lexeme>, j: nat)
    requires i + 1 < |src| && src[i] == '/' && src[i + 1] == '/' && j == SpanEnd(src, i, NotNewline)
    ensures LexFrom(src, i, toks) == LexFrom(src, j, toks)
  {
    LineCommentStep(src, i, toks);
    SkipOnce(src, i, toks, j);
  }

  lemma LineNoteSkipped(src: string, i: nat, text: string, toks: seq<Lexeme>, e: nat, j: nat)
    requires TextAt(src, i, ("//" + text) + "\n") && ValidGap(LineNote(text))
    requires e == i + |text| + 2 && j == e + 1
    ensures LexFrom(src, i, toks) == LexFrom(src, j, toks)
  {
    TextSplits(src, i, "//" + text, "\n", e);
    CharAt(src, e, "\n", 0);
    LineBodySkipped(src, i, text, toks, e);
    SpaceSkipped(src, e, '\n', toks, j);
  }

  lemma LineBodySkipped(src: string, i: nat, text: string, toks: seq<Lexeme>, e: nat)
    requires TextAt(src, i, "//" + text) && ValidGap(LineNote(text)) && e == i + |text| + 2
    requires e < |src| && src[e] == '\n'
    ensures LexFrom(src, i, toks) == LexFrom(src, e, toks)
  {
    CharAt(src, i, "//" + text, 0);
    CharAt(src, i, "//" + text, 1);
    SpanOfText(src, i, "//" + text, NotNewline, e);
    CommentSkipped(src, i, toks, e);
  }

  lemma GapSkipped(src: string, i: nat, g: Gap, toks: seq<Lexeme>, j: nat)
    requires TextAt(src, i, GapText(g)) && ValidGap(g) && j == i + |GapText(g)|
    ensures LexFrom(src, i, toks) == LexFrom(src, j, toks)
  {
    match g
    case Space(c) => SpaceSkipped(src, i, c, toks, j);
    case LineNote(text) => LineNoteSkipped(src, i, text, toks, j - 1, j);
    case BlockNote(text) => BlockNoteSkipped(src, i, text, toks, j);
  }

  lemma SpaceSkipped(src: string, i: nat, c: char, toks: seq<Lexeme>, j: nat)
    requires TextAt(src, i, [c]) && IsBlank(c) && j == i + 1
    ensures LexFrom(src, i, toks) == LexFrom(src, j, toks)
  {
    CharAt(src, i, [c], 0);
    BlankStep(src, i, toks);
    SkipOnce(src, i, toks, j);
  }

  lemma SkipOnce(src: string, i: nat, toks: seq<Lexeme>, j: nat)
    requires i < |src| && NextStep(src, i, toks) == Skip(j)
    ensures LexFrom(src, i, toks) == LexFrom(src, j, toks)
  {
  }

  lemma EmitOnce(src: string, i: nat, toks: seq<Lexeme>, l: Lexeme)
    requires i < |src| && NextStep(src, i, toks) == Emit(l)
    ensures LexFrom(src, i, toks) == LexFrom(src, l.end, toks + [l])
  {
  }

  lemma {:induction false} GapsSkipped(src: string, i: nat, gs: seq<Gap>, toks: seq<Lexeme>, j: nat)
    requires TextAt(src, i, GapsText(gs)) && (forall k :: 0 <= k < |gs| ==> ValidGap(gs[k])) && j == i + |GapsText(gs)|
    ensures LexFrom(src, i, toks) == LexFrom(src, j, toks)
    decreases |gs|
  {
    if gs != [] {
      var m := i + |GapText(gs[0])|;
      TextSplits(src, i, GapText(gs[0]), GapsText(gs[1..]), m);
      GapSkipped(src, i, gs[0], toks, m);
      GapsSkipped(src, m, gs[1..], toks, j);
    }
  }

  // ---------- strings are read back ----------

  /** The escape in braces by its digits and the place `m` where they end. */
  function BracedOf(i: nat, m: nat, closed: bool, digits: string): Chunk
    requires AllOf(digits, IsHexDigit)
  {
    if closed && HexWord(digits) < 0x110000 then Chunk(m + 1, RuneText(HexWord(digits))) else Chunk(i + 1, "u")
  }

  lemma OneDigitMore(src: string, i: nat, j: nat)
    requires i <= j < |src| && forall k :: i <= k <= j ==> IsHexDigit(src[k])
    ensures HexWord(src[i..j + 1]) == Word64(HexWord(src[i..j]) * 16 + HexVal(src[j]))
  {
    var more := src[i..j + 1];
    assert more[..|more| - 1] == src[i..j];
  }

  /** Summing up the digits one by one ends with their number as a word. */
  lemma {:induction false} BracedSums(src: string, i: nat, lo: nat, j: nat, m: nat, v: int)
    requires i < lo <= j <= m <= |src| && (forall k :: lo <= k < m ==> IsHexDigit(src[k])) && v == HexWord(src[lo..j])
    requires m < |src| ==> !IsHexDigit(src[m])
    ensures BracedEscape(src, i, j, v) == BracedOf(i, m, m < |src| && src[m] == '}', src[lo..m])
    decreases m - j
  {
    if j < m {
      OneDigitMore(src, lo, j);
      BracedSums(src, i, lo, j + 1, m, Word64(v * 16 + HexVal(src[j])));
    }
  }

  lemma BracedIs(src: string, i: nat, m: nat, closed: bool, digits: string)
    requires i + 1 < |src| && src[i + 1] == '{' && !FourHex(src, i + 1)
    requires m == SpanEnd(src, i + 2, IsHexDigit) && digits == src[i + 2..m] && closed == (m < |src| && src[m] == '}')
    ensures AllOf(digits, IsHexDigit) && UnicodeEscape(src, i) == BracedOf(i, m, closed, digits)
  {
    BracedSums(src, i, i + 2, i + 2, m, 0);
  }

  /** What the escape should be: the character its digits denote, if the brace is closed
      and they denote a code point. */
  function BracedMeant(i: nat, m: nat, closed: bool, digits: string): Chunk
    requires AllOf(digits, IsHexDigit)
  {
    if closed && HexNumber(digits) < 0x110000 then Chunk(m + 1, Utf8(HexNumber(digits))) else Chunk(i + 1, "u")
  }

  lemma BracedAsMeant(i: nat, m: nat, closed: bool, digits: string)
    requires AllOf(digits, IsHexDigit) && i < m
    ensures BracedOf(i, m, closed, digits) == BracedMeant(i, m, closed, digits) <==>
            (closed ==> HexNumber(digits) < 0x110000 || Word64(HexNumber(digits)) >= 0x110000)
  {
    HexWordIs(digits);
  }

  /** In any text, an escape in braces is read as it should be if and only if the brace
      is not closed, or its digits denote a code point, or their number cut to 64 bits
      lies past the last one. */
  lemma BracedMeetsIff(src: string, i: nat, m: nat, closed: bool, digits: string)
    requires i + 1 < |src| && src[i + 1] == '{' && m == SpanEnd(src, i + 2, IsHexDigit)
    requires digits == src[i + 2..m] && closed == (m < |src| && src[m] == '}')
    ensures AllOf(digits, IsHexDigit)
    ensures UnicodeEscape(src, i) == BracedMeant(i, m, closed, digits) <==>
            (closed ==> HexNumber(digits) < 0x110000 || Word64(HexNumber(digits)) >= 0x110000)
  {
    BracedIs(src, i, m, closed, digits);
    BracedAsMeant(i, m, closed, digits);
  }

  /** A number with `n` zeros behind it. */
  function Zeros(v: nat, n: nat): nat
    decreases n
  {
    if n == 0 then v else Zeros(v * 16, n - 1)
  }

  lemma FourZeros(v: nat, n: nat)
    requires n >= 4
    ensures Zeros(v, n) == Zeros(v * 0x1_0000, n - 4)
  {
    assert Zeros(v * 16, n - 1) == Zeros(v * 256, n - 2);
    assert Zeros(v * 256, n - 2) == Zeros(v * 4096, n - 3);
  }

  lemma {:induction false} AppendZeros(s: string, n: nat, v: nat) returns (t: string)
    requires (forall k :: 0 <= k < |s| ==> IsHexDigit(s[k])) && HexNumber(s) == v
    ensures (forall k :: 0 <= k < |t| ==> IsHexDigit(t[k])) && HexNumber(t) == Zeros(v, n)
    decreases n
  {
    t := s;
    if n > 0 {
      Appended(s, '0', s + "0");
      t := AppendZeros(s + "0", n - 1, v * 16);
    }
  }

  lemma Appended(s: string, c: char, t: string)
    requires (forall k :: 0 <= k < |s| ==> IsHexDigit(s[k])) && IsHexDigit(c) && t == s + [c]
    ensures (forall k :: 0 <= k < |t| ==> IsHexDigit(t[k])) && HexNumber(t) == HexNumber(s) * 16 + HexVal(c)
  {
    assert t[..|t| - 1] == s;
  }

  /** A one, fourteen zeros, a four and a one: far past the last code point. */
  lemma FarDigits() returns (digits: string)
    ensures AllOf(digits, IsHexDigit) && HexNumber(digits) == 0x1_0000_0000_0000_0041
  {
    Appended("", '1', "1");
    var s := AppendZeros("1", 14, 1);
    Appended(s, '4', s + "4");
    Appended(s + "4", '1', (s + "4") + "1");
    FourZeros(1, 14);
    FourZeros(0x1_0000, 10);
    FourZeros(0x1_0000_0000, 6);
    assert Zeros(0x1_0000_0000_0000, 2) == 0x100_0000_0000_0000;
    digits := (s + "4") + "1";
  }

  lemma BracedStep(src: string, i: nat, m: nat, digits: string, j: nat)
    requires m == i + 2 <= j < |src| && src[i] == 'u' && src[i + 1] == '{' && src[j] == '}'
    requires SpanEnd(src, m, IsHexDigit) == j && src[m..j] == digits
    requires AllOf(digits, IsHexDigit) && HexNumber(digits) < 0x110000
    ensures UnicodeEscape(src, i) == Chunk(j + 1, Utf8(HexNumber(digits)))
  {
    HexWordIs(digits);
    BracedIs(src, i, j, true, digits);
  }

  lemma BracedParts(src: string, i: nat, m: nat, digits: string, j: nat)
    requires TextAt(src, i, "u{" + digits + "}") && m == i + 2 && j == m + |digits|
    ensures j < |src| && src[i] == 'u' && src[i + 1] == '{' && src[j] == '}' && TextAt(src, m, digits)
  {
    TextSplits(src, i, "u{" + digits, "}", j);
    TextSplits(src, i, "u{", digits, m);
    CharAt(src, i, "u{", 0);
    CharAt(src, i, "u{", 1);
    CharAt(src, j, "}", 0);
  }

  lemma EscapeOfU(src: string, i: nat)
    requires i < |src| && src[i] == 'u'
    ensures Escape(src, i) == UnicodeEscape(src, i)
  {
  }

  lemma BracedRead(src: string, i: nat, m: nat, digits: string, j: nat)
    requires TextAt(src, i, "u{" + digits + "}") && m == i + 2 && j == m + |digits|
    requires AllOf(digits, IsHexDigit) && HexNumber(digits) < 0x110000
    ensures Escape(src, i) == Chunk(j + 1, Utf8(HexNumber(digits)))
  {
    BracedParts(src, i, m, digits, j);
    SpanOfText(src, m, digits, IsHexDigit, j);
    EscapeOfU(src, i);
    BracedStep(src, i, m, digits, j);
  }

  /** Each escape is read back, given that the literal goes on behind it. */
  lemma EscapeRead(src: string, i: nat, p: Piece, quote: char, j: nat)
    requires ValidPiece(p, quote) && !p.Plain?
    requires TextAt(src, i, EscapeText(p)) && j == i + |EscapeText(p)| < |src|
    ensures Escape(src, i) == Chunk(j, PieceValue(p, quote))
  {
    var t := EscapeText(p);
    CharAt(src, i, t, 0);
    if |t| > 1 { CharAt(src, i, t, 1); }
    if |t| > 2 { CharAt(src, i, t, 2); }
    match p
    case Code(a, b, c, d) =>
      CharAt(src, i, t, 3);
      CharAt(src, i, t, 4);
    case Braced(digits) => BracedRead(src, i, i + 2, digits, j - 1);
    case _ =>
  }

  lemma PieceRead(src: string, i: nat, p: Piece, quote: char, j: nat)
    requires ValidPiece(p, quote) && (quote == '\'' || quote == '"')
    requires TextAt(src, i, PieceText(p)) && j == i + |PieceText(p)| < |src|
    ensures StringScan(src, i, quote) == Prepend(PieceValue(p, quote), StringScan(src, j, quote))
  {
    if p.Plain? {
      CharAt(src, i, [p.c], 0);
    } else {
      TextSplits(src, i, "\\", EscapeText(p), i + 1);
      CharAt(src, i, "\\", 0);
      EscapeRead(src, i + 1, p, quote, j);
    }
  }

  lemma {:induction false} StringRead(src: string, i: nat, ps: seq<Piece>, quote: char, j: nat)
    requires (forall k :: 0 <= k < |ps| ==> ValidPiece(ps[k], quote)) && (quote == '\'' || quote == '"')
    requires TextAt(src, i, PiecesText(ps, quote)) && j == i + |PiecesText(ps, quote)| < |src| && src[j] == quote
    ensures StringScan(src, i, quote) == Chunk(j + 1, PiecesValue(ps, quote))
    decreases |ps|
  {
    if ps != [] {
      var m := i + |PieceText(ps[0])|;
      TextSplits(src, i, PieceText(ps[0]), PiecesText(ps[1..], quote), m);
      PieceRead(src, i, ps[0], quote, m);
      StringRead(src, m, ps[1..], quote, j);
    }
  }

  lemma BraceIsBare(src: string, m: nat, gs: seq<Glyph>, j: nat)
    requires TextAt(src, m, GlyphsText(gs)) && j == m + |GlyphsText(gs)| < |src| && src[j] == '`'
    ensures src[m] == '{' ==> gs != [] && gs[0] == Bare('{')
  {
    if gs != [] {
      CharAt(src, m, GlyphsText(gs), 0);
    }
  }

  lemma {:induction false} TemplateRead(src: string, i: nat, gs: seq<Glyph>, j: nat)
    requires ValidGlyphs(gs)
    requires TextAt(src, i, GlyphsText(gs)) && j == i + |GlyphsText(gs)| < |src| && src[j] == '`'
    ensures TemplateScan(src, i, 0) == Chunk(j + 1, GlyphsValue(gs))
    decreases |gs|
  {
    if gs != [] {
      var t := if gs[0].Bare? then [gs[0].c] else ['\\', gs[0].c];
      var m := i + |t|;
      TextSplits(src, i, t, GlyphsText(gs[1..]), m);
      CharAt(src, i, t, 0);
      if |t| > 1 { CharAt(src, i, t, 1); }
      BraceIsBare(src, m, gs[1..], j);
      TemplateRead(src, m, gs[1..], j);
    }
  }

  // ---------- numbers, names and marks are read back ----------

  /** The text does not go on with a letter, a digit or a point at `j`. */
  predicate StopsAt(src: string, j: nat) { j < |src| ==> !IsIdentByte(src[j]) && src[j] != '.' }

  lemma SuffixRead(src: string, d: nat, suffix: string, j: nat)
    requires TextAt(src, d, suffix) && ValidSuffix(suffix) && j == d + |suffix| && StopsAt(src, j)
    ensures d < |src| && (src[d] == 'n' || src[d] == 'N') <==> suffix != ""
  {
    if suffix != "" {
      CharAt(src, d, suffix, 0);
    }
  }

  lemma NoRadix(src: string, i: nat, digits: string, suffix: string, j: nat)
    requires ValidAtom(Decimal(digits, suffix)) && TextAt(src, i, digits) && i + |digits| == j
    requires j < |src| ==> src[j] in "nN" || (!IsIdentByte(src[j]) && src[j] != '.')
    ensures i < |src| && IsDecDigit(src[i]) && RadixEnd(src, i) == i
  {
    CharAt(src, i, digits, 0);
    if |digits| > 1 {
      CharAt(src, i, digits, 1);
    }
  }

  lemma DecimalRead(src: string, i: nat, digits: string, suffix: string, j: nat)
    requires ValidAtom(Decimal(digits, suffix)) && TextAt(src, i, digits + suffix)
    requires j == i + |digits| + |suffix| && StopsAt(src, j)
    ensures i < |src| && StartsNumber(src, i) && NumberEnd(src, i) == j
  {
    var d := i + |digits|;
    TextSplits(src, i, digits, suffix, d);
    SuffixRead(src, d, suffix, j);
    if suffix != "" {
      CharAt(src, d, suffix, 0);
    }
    NoRadix(src, i, digits, suffix, d);
    SpanOfText(src, i, digits, IsDecRun, d);
  }

  lemma PrefixedRead(src: string, i: nat, radix: char, digits: string, suffix: string, j: nat)
    requires ValidAtom(Prefixed(radix, digits, suffix)) && TextAt(src, i, ['0', radix] + digits + suffix)
    requires j == i + 2 + |digits| + |suffix| && StopsAt(src, j)
    ensures i < |src| && StartsNumber(src, i) && NumberEnd(src, i) == j
  {
    var d := i + 2 + |digits|;
    TextSplits(src, i, ['0', radix] + digits, suffix, d);
    TextSplits(src, i, ['0', radix], digits, i + 2);
    SuffixRead(src, d, suffix, j);
    CharAt(src, i, ['0', radix], 0);
    CharAt(src, i, ['0', radix], 1);
    if suffix != "" {
      CharAt(src, d, suffix, 0);
    }
    SpanOfText(src, i + 2, digits, RunOf(radix), d);
    assert RadixEnd(src, i) == d;
  }

  lemma NoOperatorAt(src: string, i: nat, ops: seq<string>)
    requires i < |src| && forall k :: 0 <= k < |ops| ==> ops[k] != "" && ops[k][0] != src[i]
    ensures FirstOp(src, i, ops) == ""
  {
    if ops != [] {
      assert ops[0] != "" && ops[0][0] != src[i];
      NoOperatorAt(src, i, ops[1..]);
    }
  }

  predicate HeadsOperator(c: char) {
    || c == '>' || c == '.' || c == '=' || c == '!' || c == '*' || c == '<' || c == '&' || c == '|' || c == '?'
    || c == '+' || c == '-' || c == '/' || c == '%' || c == '^'
  }

  lemma OperatorHeads()
    ensures forall k :: 0 <= k < |PUNCT_OPS| ==> PUNCT_OPS[k] != "" && HeadsOperator(PUNCT_OPS[k][0])
  {
  }

  lemma MarkRead(src: string, i: nat, c: char, toks: seq<Lexeme>)
    requires ValidAtom(Mark(c)) && TextAt(src, i, [c])
    ensures i < |src| && NextStep(src, i, toks) == Emit(Lexeme(Token(Punct, [c]), i, i + 1))
  {
    CharAt(src, i, [c], 0);
    MarkStartsNothing(c);
    MarkStep(src, i, c, toks);
    MarkAlone(src, i, c);
  }

  lemma MarkAlone(src: string, i: nat, c: char)
    requires i < |src| && src[i] == c && c != '/' && c in "()[]{},;"
    ensures SignStep(src, i, PUNCT_OPS) == Emit(Lexeme(Token(Punct, [c]), i, i + 1))
  {
    OperatorHeads();
    NoOperatorAt(src, i, PUNCT_OPS);
    assert src[i..i + 1] == [c];
  }

  lemma Between(src: string, i: nat, q: char, body: string, at: nat, e: nat)
    requires TextAt(src, i, [q] + body + [q]) && at == i + 1 && e == at + |body|
    ensures e < |src| && src[i] == q && TextAt(src, at, body) && src[e] == q
  {
    TextSplits(src, i, [q] + body, [q], e);
    TextSplits(src, i, [q], body, at);
    CharAt(src, i, [q], 0);
    CharAt(src, e, [q], 0);
  }

  lemma BodyRead(src: string, at: nat, q: char, ps: seq<Piece>, text: string, e: nat)
    requires (q == '\'' || q == '"') && forall k :: 0 <= k < |ps| ==> ValidPiece(ps[k], q)
    requires text == PiecesText(ps, q) && TextAt(src, at, text) && e == at + |text| < |src| && src[e] == q
    ensures StringScan(src, at, q) == Chunk(e + 1, PiecesValue(ps, q))
  {
    StringRead(src, at, ps, q, e);
  }

  lemma QuotedBody(src: string, i: nat, a: Atom, at: nat, e: nat)
    requires a.Quoted? && ValidAtom(a) && TextAt(src, i, AtomText(a)) && at == i + 1 && e == i + |AtomText(a)| - 1
    ensures i < |src| && src[i] == a.quote
    ensures at <= |src| && StringScan(src, at, a.quote) == Chunk(e + 1, PiecesValue(a.pieces, a.quote))
  {
    var text := PiecesText(a.pieces, a.quote);
    Between(src, i, a.quote, text, at, e);
    BodyRead(src, at, a.quote, a.pieces, text, e);
  }

  lemma QuotedRead(src: string, i: nat, a: Atom, toks: seq<Lexeme>, j: nat)
    requires a.Quoted? && ValidAtom(a) && TextAt(src, i, AtomText(a)) && j == i + |AtomText(a)|
    ensures i < |src| && NextStep(src, i, toks) == Emit(Lexeme(TokenOf(a), i, j))
  {
    QuotedBody(src, i, a, i + 1, j - 1);
    StringStep(src, i, toks, a.quote, j, PiecesValue(a.pieces, a.quote));
  }

  lemma TemplatedRead(src: string, i: nat, a: Atom, toks: seq<Lexeme>, j: nat)
    requires a.Templated? && ValidAtom(a) && TextAt(src, i, AtomText(a)) && j == i + |AtomText(a)|
    ensures i < |src| && NextStep(src, i, toks) == Emit(Lexeme(TokenOf(a), i, j))
  {
    Between(src, i, '`', GlyphsText(a.glyphs), i + 1, j - 1);
    TemplateRead(src, i + 1, a.glyphs, j - 1);
    TemplateStep(src, i, toks, Chunk(j, GlyphsValue(a.glyphs)));
  }

  lemma NumberEndRead(src: string, i: nat, a: Atom, j: nat)
    requires (a.Decimal? || a.Prefixed?) && ValidAtom(a)
    requires TextAt(src, i, AtomText(a)) && j == i + |AtomText(a)| && StopsAt(src, j)
    ensures i < |src| && StartsNumber(src, i) && NumberEnd(src, i) == j
  {
    if a.Decimal? {
      DecimalRead(src, i, a.digits, a.suffix, j);
    } else {
      PrefixedRead(src, i, a.radix, a.digits, a.suffix, j);
    }
  }

  lemma NumberRead(src: string, i: nat, a: Atom, toks: seq<Lexeme>, j: nat)
    requires (a.Decimal? || a.Prefixed?) && ValidAtom(a)
    requires TextAt(src, i, AtomText(a)) && j == i + |AtomText(a)| && StopsAt(src, j)
    ensures i < |src| && NextStep(src, i, toks) == Emit(Lexeme(TokenOf(a), i, j))
  {
    NumberEndRead(src, i, a, j);
    NumberStep(src, i, toks);
  }

  lemma NameRead(src: string, i: nat, a: Atom, toks: seq<Lexeme>, j: nat)
    requires a.Name? && ValidAtom(a) && TextAt(src, i, AtomText(a)) && j == i + |AtomText(a)| && StopsAt(src, j)
    ensures i < |src| && NextStep(src, i, toks) == Emit(Lexeme(TokenOf(a), i, j))
  {
    CharAt(src, i, a.text, 0);
    SpanOfText(src, i, a.text, IsIdentByte, j);
    assert src[i..j] == a.text;
  }

  /** Every atom is read back as the token it denotes. */
  lemma AtomRead(src: string, i: nat, a: Atom, toks: seq<Lexeme>, j: nat)
    requires ValidAtom(a) && TextAt(src, i, AtomText(a)) && j == i + |AtomText(a)|
    requires RunsOn(a) ==> StopsAt(src, j)
    ensures i < |src| && NextStep(src, i, toks) == Emit(Lexeme(TokenOf(a), i, j))
  {
    match a
    case Quoted(_, _) => QuotedRead(src, i, a, toks, j);
    case Templated(_) => TemplatedRead(src, i, a, toks, j);
    case Decimal(_, _) => NumberRead(src, i, a, toks, j);
    case Prefixed(_, _, _) => NumberRead(src, i, a, toks, j);
    case Name(_) => NameRead(src, i, a, toks, j);
    case Mark(c) => MarkRead(src, i, c, toks);
  }

  // ---------- a braced escape past the last code point ----------

  lemma FarWord(i: nat, j: nat, digits: string)
    requires AllOf(digits, IsHexDigit) && HexNumber(digits) == 0x1_0000_0000_0000_0041
    ensures BracedOf(i, j, true, digits) == Chunk(j + 1, "A")
  {
    HexWordIs(digits);
    assert HexWord(digits) == 0x41;
  }

  lemma FarEscape(src: string, i: nat, digits: string, j: nat)
    requires TextAt(src, i, "u{" + digits + "}") && j == i + 2 + |digits|
    requires AllOf(digits, IsHexDigit) && HexNumber(digits) == 0x1_0000_0000_0000_0041
    ensures j < |src| && Escape(src, i) == Chunk(j + 1, "A")
  {
    BracedParts(src, i, i + 2, digits, j);
    SpanOfText(src, i + 2, digits, IsHexDigit, j);
    EscapeOfU(src, i);
    FarWord(i, j, digits);
    BracedIs(src, i, j, true, digits);
  }

  lemma FarString(src: string, digits: string, body: string, j: nat)
    requires AllOf(digits, IsHexDigit) && HexNumber(digits) == 0x1_0000_0000_0000_0041
    requires body == "\\" + ("u{" + digits + "}") && src == ['"'] + body + ['"'] && j == 4 + |digits|
    ensures |src| == j + 2 && src[0] == '"' && StringScan(src, 1, '"') == Chunk(j + 2, "A")
  {
    assert src[0..|src|] == src;
    Between(src, 0, '"', body, 1, |src| - 1);
    TextSplits(src, 1, "\\", "u{" + digits + "}", 2);
    CharAt(src, 1, "\\", 0);
    FarEscape(src, 2, digits, j);
  }

  /** A string with one escape in braces whose digits, a one, fourteen zeros, a four and
      a one, denote no code point: it is read as "A". */
  lemma BracedWraps() returns (digits: string, src: string)
    ensures AllOf(digits, IsHexDigit) && HexNumber(digits) >= 0x110000
    ensures src == "\"\\u{" + digits + "}\"" && Tokens(Lex(src)) == [Token(Str, "A")]
  {
    digits := FarDigits();
    var body, j := "\\" + ("u{" + digits + "}"), 4 + |digits|;
    src := ['"'] + body + ['"'];
    assert src == "\"\\u{" + digits + "}\"";
    FarString(src, digits, body, j);
    StringStep(src, 0, [], '"', j + 2, "A");
    EmitOnce(src, 0, [], Lexeme(Token(Str, "A"), 0, j + 2));
  }
}
