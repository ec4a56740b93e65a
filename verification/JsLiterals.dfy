/** The lexer's corners (client/captcha_jslex.go): what each character starts, numbers with
    a fraction or an exponent, templates with substitutions, strings cut off by the end of
    their line, and escapes that are none. */
module JsLiterals {
  import opened JsLexer
  import opened JsSpelling
  import opened JsNumber
  import opened JsRoundTrip
  import opened Wrappers

  // ---------- what a character starts ----------

  /** Character codes of ASCII, and every byte of a longer character. */
  predicate NameCode(c: int) { 65 <= c <= 90 || 97 <= c <= 122 || c == 95 || c == 36 || 128 <= c }

  predicate DigitCode(c: int) { 48 <= c <= 57 }

  predicate BlankCode(c: int) { 9 <= c <= 13 || c == 32 }

  predicate CodeAt(src: string, i: nat, c: int) { i < |src| && src[i] as int == c }

  /** Blanks and comments are skipped, and nothing else is. */
  lemma SkippedIff(src: string, i: nat, toks: seq<Lexeme>, c: int)
    requires CodeAt(src, i, c)
    ensures NextStep(src, i, toks).Skip? <==>
      BlankCode(c) || (c == 47 && (CodeAt(src, i + 1, 47) || CodeAt(src, i + 1, 42)))
    ensures BlankCode(c) ==> NextStep(src, i, toks) == Skip(i + 1)
  {
  }

  predicate Reads(s: Step, kind: Kind) { s.Emit? && s.lexeme.tok.kind == kind }

  /** The first character says what is read. */
  lemma StartedBy(src: string, i: nat, toks: seq<Lexeme>, c: int, s: Step)
    requires CodeAt(src, i, c) && s == NextStep(src, i, toks)
    ensures Reads(s, Str) <==> c == 34 || c == 39
    ensures Reads(s, Template) <==> c == 96
    ensures Reads(s, Ident) <==> NameCode(c)
  {
  }

  lemma NumberStarted(src: string, i: nat, toks: seq<Lexeme>, c: int, s: Step)
    requires CodeAt(src, i, c) && s == NextStep(src, i, toks)
    ensures Reads(s, Num) <==>
      DigitCode(c) || (c == 46 && i + 1 < |src| && DigitCode(src[i + 1] as int))
  {
  }

  predicate NamePart(c: int) { NameCode(c) || DigitCode(c) }

  /** A name is the longest run of its characters. */
  lemma NameRun(src: string, i: nat, j: nat, toks: seq<Lexeme>)
    requires i < j <= |src| && NameCode(src[i] as int) && (j < |src| ==> !NamePart(src[j] as int))
    requires forall k :: i <= k < j ==> NamePart(src[k] as int)
    ensures NextStep(src, i, toks) == Emit(Lexeme(Token(Ident, src[i..j]), i, j))
  {
    SpanEndsAt(src, i, IsIdentByte, j);
    NameStep(src, i, toks);
  }

  // ---------- numbers ----------

  predicate ValidFraction(fraction: string) {
    fraction == "" || (fraction[0] == '.' && AllOf(fraction[1..], IsDecRun))
  }

  /** An "e", a sign or none, and digits. */
  predicate ValidExponent(exponent: string) {
    exponent == "" || (
      && |exponent| >= 2 && exponent[0] in "eE"
      && (if exponent[1] in "+-" then |exponent| >= 3 && AllOf(exponent[2..], IsDecDigit)
          else AllOf(exponent[1..], IsDecDigit)))
  }

  /** Digits in front of the point, or else at least one behind it. */
  predicate ValidWhole(whole: string, fraction: string) {
    && AllOf(whole, IsDecRun)
    && (if whole == "" then |fraction| >= 2 && IsDecDigit(fraction[1]) else IsDecDigit(whole[0]))
  }

  lemma FractionRead(src: string, i: nat, fraction: string, j: nat)
    requires TextAt(src, i, fraction) && ValidFraction(fraction) && j == i + |fraction|
    requires j < |src| ==> !IsDecRun(src[j]) && src[j] != '.'
    ensures FractionEnd(src, i) == j
  {
    if fraction != "" {
      CharAt(src, i, fraction, 0);
      assert fraction == "." + fraction[1..];
      TextSplits(src, i, ".", fraction[1..], i + 1);
      SpanOfText(src, i + 1, fraction[1..], IsDecRun, j);
    }
  }

  lemma ExponentDigits(src: string, k: nat, digits: string, j: nat)
    requires TextAt(src, k, digits) && digits != "" && AllOf(digits, IsDecDigit) && j == k + |digits|
    requires j < |src| ==> !IsDecDigit(src[j])
    ensures k < |src| && IsDecDigit(src[k]) && SpanEnd(src, k, IsDecDigit) == j
  {
    CharAt(src, k, digits, 0);
    SpanOfText(src, k, digits, IsDecDigit, j);
  }

  lemma ExponentRead(src: string, i: nat, exponent: string, j: nat)
    requires TextAt(src, i, exponent) && ValidExponent(exponent) && j == i + |exponent|
    requires j < |src| ==> !IsDecDigit(src[j]) && src[j] != 'e' && src[j] != 'E'
    ensures ExponentEnd(src, i) == j
  {
    if exponent != "" {
      var m := if exponent[1] in "+-" then 2 else 1;
      CharAt(src, i, exponent, 0);
      CharAt(src, i, exponent, 1);
      assert exponent == exponent[..m] + exponent[m..];
      TextSplits(src, i, exponent[..m], exponent[m..], i + m);
      ExponentDigits(src, i + m, exponent[m..], j);
    }
  }

  /** What stands at `i`: the start of `rest`, or what follows it. */
  lemma HeadOf(src: string, i: nat, rest: string, j: nat)
    requires TextAt(src, i, rest) && j == i + |rest| && StopsAt(src, j)
    ensures i < |src| ==> if rest != "" then src[i] == rest[0] else !IsIdentByte(src[i]) && src[i] != '.'
  {
    if rest != "" {
      CharAt(src, i, rest, 0);
    }
  }

  lemma PartEnds(src: string, i: nat, whole: string, a: nat, fraction: string, b: nat, exponent: string, c: nat)
    requires ValidWhole(whole, fraction) && ValidFraction(fraction) && ValidExponent(exponent)
    requires TextAt(src, i, whole) && a == i + |whole| && TextAt(src, a, fraction) && b == a + |fraction|
    requires TextAt(src, b, exponent) && c == b + |exponent|
    requires a < |src| ==> !IsDecRun(src[a]) && src[a] !in "xXoObB" && (fraction == "" ==> src[a] != '.')
    requires b < |src| ==> !IsDecRun(src[b]) && src[b] != '.' && (exponent == "" ==> src[b] != 'e' && src[b] != 'E')
    requires c < |src| ==> !IsDecDigit(src[c]) && src[c] != 'e' && src[c] != 'E'
    ensures i < |src| && StartsNumber(src, i) && RadixEnd(src, i) == i && DecimalEnd(src, i) == c
  {
    NumberHead(src, i, whole, fraction, a);
    SpanOfText(src, i, whole, IsDecRun, a);
    FractionRead(src, a, fraction, b);
    ExponentRead(src, b, exponent, c);
  }

  lemma Behind(src: string, a: nat, fraction: string, b: nat, exponent: string, c: nat, suffix: string, j: nat)
    requires ValidFraction(fraction) && ValidExponent(exponent) && ValidSuffix(suffix)
    requires TextAt(src, a, fraction + (exponent + suffix)) && b == a + |fraction| && c == b + |exponent|
    requires j == c + |suffix| && StopsAt(src, j)
    ensures TextAt(src, a, fraction) && TextAt(src, b, exponent) && TextAt(src, c, suffix)
    ensures a < |src| ==> !IsDecRun(src[a]) && src[a] !in "xXoObB" && (fraction == "" ==> src[a] != '.')
    ensures b < |src| ==> !IsDecRun(src[b]) && src[b] != '.' && (exponent == "" ==> src[b] != 'e' && src[b] != 'E')
    ensures c < |src| ==> !IsDecDigit(src[c]) && src[c] != 'e' && src[c] != 'E'
    ensures c < |src| && (src[c] == 'n' || src[c] == 'N') <==> suffix != ""
  {
    TextSplits(src, a, fraction, exponent + suffix, b);
    TextSplits(src, b, exponent, suffix, c);
    HeadOf(src, a, fraction + (exponent + suffix), j);
    HeadOf(src, b, exponent + suffix, j);
    HeadOf(src, c, suffix, j);
  }

  lemma DecimalPartsEnd(src: string, i: nat, whole: string, fraction: string, exponent: string, suffix: string, j: nat)
    requires ValidWhole(whole, fraction) && ValidFraction(fraction) && ValidExponent(exponent) && ValidSuffix(suffix)
    requires TextAt(src, i, whole + (fraction + (exponent + suffix)))
    requires j == i + |whole| + |fraction| + |exponent| + |suffix| && StopsAt(src, j)
    ensures i < |src| && StartsNumber(src, i) && NumberEnd(src, i) == j
  {
    var a, b := i + |whole|, i + |whole| + |fraction|;
    var c := b + |exponent|;
    TextSplits(src, i, whole, fraction + (exponent + suffix), a);
    Behind(src, a, fraction, b, exponent, c, suffix, j);
    PartEnds(src, i, whole, a, fraction, b, exponent, c);
  }

  /** A number is one token: its digits, fraction, exponent and suffix. */
  lemma DecimalPartsRead(src: string, i: nat, toks: seq<Lexeme>, whole: string, fraction: string, exponent: string,
                         suffix: string, j: nat)
    requires ValidWhole(whole, fraction) && ValidFraction(fraction) && ValidExponent(exponent) && ValidSuffix(suffix)
    requires TextAt(src, i, whole + (fraction + (exponent + suffix)))
    requires j == i + |whole| + |fraction| + |exponent| + |suffix| && StopsAt(src, j)
    ensures i < |src|
    ensures NextStep(src, i, toks) == Emit(Lexeme(Token(Num, whole + (fraction + (exponent + suffix))), i, j))
  {
    DecimalPartsEnd(src, i, whole, fraction, exponent, suffix, j);
    NumberStep(src, i, toks);
  }

  lemma NumberHead(src: string, i: nat, whole: string, fraction: string, a: nat)
    requires ValidWhole(whole, fraction) && ValidFraction(fraction) && a == i + |whole|
    requires TextAt(src, i, whole) && TextAt(src, a, fraction)
    requires a < |src| ==> src[a] !in "xXoObB"
    ensures i < |src| && StartsNumber(src, i) && RadixEnd(src, i) == i
  {
    if whole == "" {
      CharAt(src, i, fraction, 0);
      CharAt(src, i, fraction, 1);
    } else {
      CharAt(src, i, whole, 0);
      if |whole| > 1 {
        CharAt(src, i, whole, 1);
      }
    }
  }

  // ---------- the value of such a number ----------

  predicate FloatChar(c: char) { IsDecDigit(c) || c == '.' || c == 'e' || c == 'E' || c == '+' || c == '-' }

  lemma FloatChars(whole: string, fraction: string, exponent: string, text: string)
    requires ValidWhole(whole, fraction) && ValidFraction(fraction) && ValidExponent(exponent)
    requires text == whole + (fraction + exponent) && (fraction != "" || exponent != "")
    ensures AllOf(text, c => FloatChar(c) || c == '_')
    ensures text != "" && text[0] != '-' && text[0] != '_'
  {
    assert fraction != "" ==> fraction == ['.'] + fraction[1..];
    if exponent != "" {
      var m := if exponent[1] in "+-" then 2 else 1;
      assert exponent == exponent[..m] + exponent[m..];
    }
  }

  /** A point, or the letter of an exponent. */
  lemma Marked(whole: string, fraction: string, exponent: string)
    requires ValidFraction(fraction) && ValidExponent(exponent) && (fraction != "" || exponent != "")
    ensures ContainsAny(Without(whole + (fraction + exponent), '_'), {'.', 'e', 'E'})
  {
    WithoutConcat(whole, fraction + exponent, '_');
    WithoutConcat(fraction, exponent, '_');
    var a, b, c := Without(whole, '_'), Without(fraction, '_'), Without(exponent, '_');
    if fraction != "" {
      assert (a + (b + c))[|a|] == '.';
    } else {
      assert (a + (b + c))[|a|] == exponent[0];
    }
  }

  lemma FloatMeans(s: string, fl: FloatReader)
    requires AllOf(s, FloatChar) && s != "" && s[0] != '-' && ContainsAny(s, {'.', 'e', 'E'})
    ensures s[|s| - 1] != 'n' && s[|s| - 1] != 'N' && !HasPrefix(s, "-")
    ensures ParseMagnitude(s, fl) == fl(s)
  {
    if |s| >= 2 {
      assert FloatChar(s[1]) && s[..2][1] == s[1];
    }
  }

  /** The float reader is asked for a number with a fraction or an exponent, written
      without its separators and its suffix. */
  lemma FloatRead(whole: string, fraction: string, exponent: string, suffix: string, text: string, fl: FloatReader)
    requires ValidWhole(whole, fraction) && ValidFraction(fraction) && ValidExponent(exponent) && ValidSuffix(suffix)
    requires text == whole + (fraction + exponent) && (fraction != "" || exponent != "")
    ensures ParseJSNumber(text + suffix, fl) == fl(Without(text, '_'))
  {
    var s := Without(text, '_');
    FloatChars(whole, fraction, exponent, text);
    WithoutKeeps(text, '_', FloatChar);
    Marked(whole, fraction, exponent);
    assert s[0] == text[0];
    FloatMeans(s, fl);
    WithoutConcat(text, suffix, '_');
    SuffixStripped(s, suffix);
  }

  /** A minus sign in front negates what a text means. */
  lemma NegativeRead(text: string, fl: FloatReader, v: int)
    requires text != "" && text[0] != '-' && text[0] != '_' && ParseJSNumber(text, fl) == Some(v)
    requires WithoutBigIntSuffix(Without(text, '_')) != "" && -0x7FFF_FFFF_FFFF_FFFF <= v
    ensures ParseJSNumber("-" + text, fl) == Some(-v)
  {
    var s, t := Without(text, '_'), Without("-" + text, '_');
    WithoutConcat("-", text, '_');
    assert Without("-", '_') == "-";
    assert t == "-" + s && s[0] == text[0];
    assert WithoutBigIntSuffix(t) == "-" + WithoutBigIntSuffix(s);
    assert WithoutBigIntSuffix(t)[1..] == WithoutBigIntSuffix(s);
  }

  // ---------- templates with substitutions ----------

  /** What stands in a substitution: characters, and braces within braces. */
  datatype Nested = Loose(c: char) | Masked(c: char) | Braces(dollar: bool, body: seq<Nested>)

  datatype Stretch = Glyphs(glyph: Glyph) | Substitution(body: seq<Nested>)

  predicate ValidNested(body: seq<Nested>) {
    forall k :: 0 <= k < |body| ==> ValidOne(body[k])
  }

  predicate ValidOne(x: Nested) {
    match x
    case Loose(c) => c != '\\' && c != '{' && c != '}'
    case Masked(_) => true
    case Braces(_, body) => ValidNested(body)
  }

  function OneText(x: Nested): string {
    match x
    case Loose(c) => [c]
    case Masked(c) => ['\\', c]
    case Braces(dollar, body) => (if dollar then "${" else "{") + (NestedText(body) + "}")
  }

  function NestedText(body: seq<Nested>): string {
    if body == [] then "" else OneText(body[0]) + NestedText(body[1..])
  }

  predicate ValidStretches(ss: seq<Stretch>) {
    ss == [] || (
      && (match ss[0]
          case Substitution(body) => ValidNested(body)
          case Glyphs(g) =>
            && (g.Bare? ==> g.c != '`' && g.c != '\\')
            && (g == Bare('$') && |ss| >= 2 ==> ss[1] != Glyphs(Bare('{'))))
      && ValidStretches(ss[1..]))
  }

  function StretchText(x: Stretch): string {
    match x
    case Glyphs(g) => if g.Bare? then [g.c] else ['\\', g.c]
    case Substitution(body) => "${" + (NestedText(body) + "}")
  }

  function StretchesText(ss: seq<Stretch>): string {
    if ss == [] then "" else StretchText(ss[0]) + StretchesText(ss[1..])
  }

  /** Of a substitution the closing brace is kept. */
  function StretchValue(x: Stretch): string {
    match x
    case Glyphs(g) => if g == Slashed('`') then "" else [g.c]
    case Substitution(_) => "}"
  }

  function StretchesValue(ss: seq<Stretch>): string {
    if ss == [] then "" else StretchValue(ss[0]) + StretchesValue(ss[1..])
  }

  lemma NothingKept(r: Chunk)
    ensures Prepend("", r) == r
  {
  }

  lemma CharInside(src: string, i: nat, depth: nat)
    requires i < |src| && depth > 0 && src[i] != '\\' && src[i] != '{' && src[i] != '}'
    ensures TemplateScan(src, i, depth) == TemplateScan(src, i + 1, depth)
  {
    var t := TemplateChar(src, i, depth);
    NothingKept(TemplateScan(src, t.0, t.1));
    if t.0 == i + 2 {
      NothingKept(TemplateScan(src, i + 2, depth + 1));
    }
  }

  lemma MaskedInside(src: string, i: nat, depth: nat)
    requires i + 1 < |src| && depth > 0 && src[i] == '\\'
    ensures TemplateScan(src, i, depth) == TemplateScan(src, i + 2, depth)
  {
    NothingKept(TemplateScan(src, i + 2, depth));
  }

  /** A brace, or a dollar and a brace, goes one deeper. */
  lemma Deeper(src: string, i: nat, depth: nat, dollar: bool, m: nat)
    requires TextAt(src, i, if dollar then "${" else "{") && m == (if dollar then i + 2 else i + 1)
    requires dollar || depth > 0
    ensures TemplateScan(src, i, depth) == TemplateScan(src, m, depth + 1)
  {
    CharAt(src, i, if dollar then "${" else "{", 0);
    if dollar {
      CharAt(src, i, "${", 1);
    }
    NothingKept(TemplateScan(src, m, depth + 1));
  }

  lemma Closing(src: string, i: nat, depth: nat)
    requires i < |src| && src[i] == '}' && depth > 0
    ensures TemplateScan(src, i, depth) ==
      if depth == 1 then Prepend("}", TemplateScan(src, i + 1, 0)) else TemplateScan(src, i + 1, depth - 1)
  {
    NothingKept(TemplateScan(src, i + 1, depth - 1));
  }

  lemma InBraces(src: string, i: nat, open: string, inner: string, at: nat, e: nat)
    requires TextAt(src, i, open + (inner + "}")) && at == i + |open| && e == at + |inner|
    ensures TextAt(src, i, open) && TextAt(src, at, inner) && e < |src| && src[e] == '}'
  {
    TextSplits(src, i, open, inner + "}", at);
    TextSplits(src, at, inner, "}", e);
    CharAt(src, e, "}", 0);
  }

  lemma {:induction false} NestedRead(src: string, i: nat, body: seq<Nested>, depth: nat, j: nat)
    requires depth > 0 && ValidNested(body) && TextAt(src, i, NestedText(body)) && j == i + |NestedText(body)|
    ensures TemplateScan(src, i, depth) == TemplateScan(src, j, depth)
    decreases body, 0
  {
    if body != [] {
      var m := i + |OneText(body[0])|;
      assert ValidOne(body[0]);
      TextSplits(src, i, OneText(body[0]), NestedText(body[1..]), m);
      OneRead(src, i, body[0], depth, m);
      NestedRead(src, m, body[1..], depth, j);
    }
  }

  lemma {:induction false} OneRead(src: string, i: nat, x: Nested, depth: nat, m: nat)
    requires depth > 0 && ValidOne(x) && TextAt(src, i, OneText(x)) && m == i + |OneText(x)|
    ensures TemplateScan(src, i, depth) == TemplateScan(src, m, depth)
    decreases x, 0
  {
    match x
    case Loose(c) =>
      CharAt(src, i, [c], 0);
      CharInside(src, i, depth);
    case Masked(c) =>
      CharAt(src, i, ['\\', c], 0);
      CharAt(src, i, ['\\', c], 1);
      MaskedInside(src, i, depth);
    case Braces(dollar, body) =>
      BracesRead(src, i, dollar, body, depth, m);
  }

  /** Braces are passed over; of the outermost ones the closing brace is kept. */
  lemma {:induction false} BracesRead(src: string, i: nat, dollar: bool, body: seq<Nested>, depth: nat, m: nat)
    requires (dollar || depth > 0) && ValidNested(body)
    requires TextAt(src, i, (if dollar then "${" else "{") + (NestedText(body) + "}"))
    requires m == i + (if dollar then 3 else 2) + |NestedText(body)|
    ensures TemplateScan(src, i, depth) ==
      if depth == 0 then Prepend("}", TemplateScan(src, m, 0)) else TemplateScan(src, m, depth)
    decreases body, 1
  {
    var at := if dollar then i + 2 else i + 1;
    InBraces(src, i, if dollar then "${" else "{", NestedText(body), at, m - 1);
    NestedRead(src, at, body, depth + 1, m - 1);
    Passed(src, i, dollar, depth, at, m - 1);
  }

  lemma Passed(src: string, i: nat, dollar: bool, depth: nat, at: nat, e: nat)
    requires (dollar || depth > 0) && TextAt(src, i, if dollar then "${" else "{")
    requires at == (if dollar then i + 2 else i + 1) <= e < |src| && src[e] == '}'
    requires TemplateScan(src, at, depth + 1) == TemplateScan(src, e, depth + 1)
    ensures TemplateScan(src, i, depth) ==
      if depth == 0 then Prepend("}", TemplateScan(src, e + 1, 0)) else TemplateScan(src, e + 1, depth)
  {
    Deeper(src, i, depth, dollar, at);
    Closing(src, e, depth + 1);
  }

  lemma SubstitutionRead(src: string, i: nat, body: seq<Nested>, j: nat)
    requires ValidNested(body) && TextAt(src, i, "${" + (NestedText(body) + "}")) && j == i + 3 + |NestedText(body)|
    ensures TemplateScan(src, i, 0) == Prepend("}", TemplateScan(src, j, 0))
  {
    BracesRead(src, i, true, body, 0, j);
  }

  lemma BraceIsGlyph(src: string, m: nat, ss: seq<Stretch>, j: nat)
    requires TextAt(src, m, StretchesText(ss)) && j == m + |StretchesText(ss)| < |src| && src[j] == '`'
    ensures src[m] == '{' ==> ss != [] && ss[0] == Glyphs(Bare('{'))
  {
    if ss != [] {
      CharAt(src, m, StretchesText(ss), 0);
    }
  }

  lemma GlyphKept(src: string, i: nat, g: Glyph, m: nat)
    requires TextAt(src, i, StretchText(Glyphs(g))) && m == i + |StretchText(Glyphs(g))|
    requires g.Bare? ==> g.c != '`' && g.c != '\\'
    requires g == Bare('$') ==> m < |src| && src[m] != '{'
    ensures TemplateScan(src, i, 0) == Prepend(StretchValue(Glyphs(g)), TemplateScan(src, m, 0))
  {
    CharAt(src, i, StretchText(Glyphs(g)), 0);
    if g.Slashed? {
      CharAt(src, i, StretchText(Glyphs(g)), 1);
    }
  }

  /** Of each substitution, whatever is nested in it, the closing brace is all that is
      kept: a backtick in it does not end the template. */
  lemma {:induction false} StretchesRead(src: string, i: nat, ss: seq<Stretch>, j: nat)
    requires ValidStretches(ss) && TextAt(src, i, StretchesText(ss))
    requires j == i + |StretchesText(ss)| < |src| && src[j] == '`'
    ensures TemplateScan(src, i, 0) == Chunk(j + 1, StretchesValue(ss))
    decreases |ss|
  {
    if ss != [] {
      var m := i + |StretchText(ss[0])|;
      TextSplits(src, i, StretchText(ss[0]), StretchesText(ss[1..]), m);
      BraceIsGlyph(src, m, ss[1..], j);
      StretchesRead(src, m, ss[1..], j);
      match ss[0]
      case Glyphs(g) => GlyphKept(src, i, g, m);
      case Substitution(body) => SubstitutionRead(src, i, body, m);
    }
  }

  /** So a whole template is one token, of its characters and one brace a substitution. */
  lemma TemplateWithSubstitutions(src: string, i: nat, toks: seq<Lexeme>, ss: seq<Stretch>, body: string, j: nat)
    requires ValidStretches(ss) && body == StretchesText(ss) && TextAt(src, i, ['`'] + body + ['`'])
    requires j == i + 2 + |body|
    ensures i < |src| && NextStep(src, i, toks) == Emit(Lexeme(Token(Template, StretchesValue(ss)), i, j))
  {
    Between(src, i, '`', body, i + 1, j - 1);
    StretchesRead(src, i + 1, ss, j - 1);
    TemplateStep(src, i, toks, Chunk(j, StretchesValue(ss)));
  }

  lemma {:induction false} BraceKept(ss: seq<Stretch>, k: nat)
    requires k < |ss| && ss[k].Substitution?
    ensures '}' in StretchesValue(ss)
    decreases k
  {
    if k == 0 {
      assert StretchesValue(ss)[0] == '}';
    } else {
      BraceKept(ss[1..], k - 1);
    }
  }

  // ---------- strings that are not closed ----------

  /** Nothing closes the string before the line ends. */
  lemma {:induction false} CutOffRead(src: string, i: nat, ps: seq<Piece>, quote: char, j: nat)
    requires (forall k :: 0 <= k < |ps| ==> ValidPiece(ps[k], quote)) && (quote == '\'' || quote == '"')
    requires TextAt(src, i, PiecesText(ps, quote)) && j == i + |PiecesText(ps, quote)| < |src| && src[j] == '\n'
    ensures StringScan(src, i, quote) == Chunk(j, PiecesValue(ps, quote))
    decreases |ps|
  {
    if ps != [] {
      var m := i + |PieceText(ps[0])|;
      TextSplits(src, i, PieceText(ps[0]), PiecesText(ps[1..], quote), m);
      PieceRead(src, i, ps[0], quote, m);
      CutOffRead(src, m, ps[1..], quote, j);
    }
  }

  /** A string whose line ends before its quote is a token of what stands before; the
      line's end is not part of it. */
  lemma StringCutOff(src: string, i: nat, toks: seq<Lexeme>, quote: char, ps: seq<Piece>, j: nat)
    requires (forall k :: 0 <= k < |ps| ==> ValidPiece(ps[k], quote)) && (quote == '\'' || quote == '"')
    requires TextAt(src, i, [quote] + PiecesText(ps, quote)) && j == i + 1 + |PiecesText(ps, quote)|
    requires j < |src| && src[j] == '\n'
    ensures NextStep(src, i, toks) == Emit(Lexeme(Token(Str, PiecesValue(ps, quote)), i, j))
  {
    TextSplits(src, i, [quote], PiecesText(ps, quote), i + 1);
    CharAt(src, i, [quote], 0);
    CutOffRead(src, i + 1, ps, quote, j);
    StringStep(src, i, toks, quote, j, PiecesValue(ps, quote));
  }

  // ---------- escapes that are none ----------

  predicate HexAt(src: string, i: nat) { i < |src| && src[i] in "0123456789abcdefABCDEF" }

  predicate FourAt(src: string, i: nat) {
    HexAt(src, i) && HexAt(src, i + 1) && HexAt(src, i + 2) && HexAt(src, i + 3)
  }

  /** Without its two digits \x is an "x", without its four or a brace \u is a "u", and
      the first byte of a longer character is kept unless that ends the line. */
  lemma NoEscape(src: string, i: nat)
    requires i < |src|
    ensures src[i] == 'x' && !(HexAt(src, i + 1) && HexAt(src, i + 2)) ==> Escape(src, i) == Chunk(i + 1, "x")
    ensures src[i] == 'u' && !FourAt(src, i + 1) && !CodeAt(src, i + 1, 123) ==> Escape(src, i) == Chunk(i + 1, "u")
    ensures src[i] == '\U{E2}' && !TextAt(src, i, "\U{E2}\U{80}\U{A8}") && !TextAt(src, i, "\U{E2}\U{80}\U{A9}") ==>
      Escape(src, i) == Chunk(i + 1, ['\U{E2}'])
  {
    HexSpelled(src, i + 1);
    HexSpelled(src, i + 2);
    HexSpelled(src, i + 3);
    HexSpelled(src, i + 4);
  }

  lemma HexSpelled(src: string, i: nat)
    ensures HexAt(src, i) <==> i < |src| && IsHexDigit(src[i])
  {
  }
}
