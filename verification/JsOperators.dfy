/** Operators and slashes (client/captcha_jslex.go): the longest operator is read; a slash
    is a division sign behind an operand, and the start of a regular expression where an
    operand is to come; regular expressions are printed part by part and read back. */
module JsOperators {
  import opened JsLexer
  import opened JsSpelling
  import opened JsTail
  import opened Wrappers

  // ---------- what stands before the slash ----------

  predicate IsKeyword(s: string) {
    || s == "return" || s == "typeof" || s == "instanceof" || s == "in" || s == "new" || s == "delete" || s == "void"
    || s == "case" || s == "do" || s == "else" || s == "throw" || s == "yield" || s == "await"
  }

  predicate IsDot(t: Token) { t.kind == Punct && (t.val == "." || t.val == "?.") }

  predicate IsBinding(t: Token) { t.kind == Ident || (t.kind == Punct && (t.val == "]" || t.val == "}")) }

  /** A value, a closing bracket, "++" or "--", the name of a property, or a name that is
      no keyword; "of" is one only behind a binding. */
  predicate BehindOperand(before: seq<Token>) {
    before != [] &&
    var last, one := before[|before| - 1], |before| == 1;
    || last.kind == Num || last.kind == Str || last.kind == Template || last.kind == Regex
    || (last.kind == Punct
        && (last.val == ")" || last.val == "]" || last.val == "}" || last.val == "++" || last.val == "--"))
    || (last.kind == Ident && !one && IsDot(before[|before| - 2]))
    || (last.kind == Ident && last.val != "of" && !IsKeyword(last.val))
    || (last.kind == Ident && last.val == "of" && (one || !IsBinding(before[|before| - 2])))
  }

  /** Nothing, any other mark, or a keyword that is no property. */
  predicate BehindOperator(before: seq<Token>) {
    before == [] ||
    var last, one := before[|before| - 1], |before| == 1;
    || (last.kind == Punct
        && last.val != ")" && last.val != "]" && last.val != "}" && last.val != "++" && last.val != "--")
    || (last.kind == Ident && IsKeyword(last.val) && (one || !IsDot(before[|before| - 2])))
    || (last.kind == Ident && last.val == "of" && !one && IsBinding(before[|before| - 2]))
  }

  lemma OneOrTheOther(before: seq<Token>)
    ensures BehindOperand(before) <==> !BehindOperator(before)
  {
  }

  lemma KeywordListed(s: string)
    ensures s in REGEX_PREC_KEYWORDS <==> IsKeyword(s) || s == "of"
  {
  }

  lemma RegexPosIs(toks: seq<Lexeme>)
    ensures PrevIsRegexPos(toks) <==> BehindOperator(Tokens(toks))
  {
    if toks != [] {
      KeywordListed(toks[|toks| - 1].tok.val);
    }
  }

  // ---------- division signs ----------

  predicate SlashAt(src: string, i: nat) { i < |src| && src[i] == '/' && !StartsComment(src, i) }

  lemma SlashTurn(src: string, i: nat, toks: seq<Lexeme>, regexPos: bool)
    requires SlashAt(src, i) && regexPos == BehindOperator(Tokens(toks))
    ensures NextStep(src, i, toks) == SlashStep(src, i, regexPos)
  {
    OtherStep(src, i, toks);
    RegexPosIs(toks);
  }

  lemma LoneSlash(src: string, i: nat)
    requires i < |src| && src[i] == '/'
    ensures src[i..i + 1] == "/"
  {
  }

  /** Behind an operand a slash is a division sign, whatever follows. */
  lemma DivisionRead(src: string, i: nat, toks: seq<Lexeme>)
    requires SlashAt(src, i) && BehindOperand(Tokens(toks))
    ensures NextStep(src, i, toks) == Emit(Lexeme(Token(Punct, "/"), i, i + 1))
  {
    OneOrTheOther(Tokens(toks));
    SlashTurn(src, i, toks, false);
    LoneSlash(src, i);
  }

  // ---------- regular expressions ----------

  /** A stretch of a regular expression: a character, bare or behind a backslash, or a
      class in square brackets. */
  datatype Part = Single(glyph: Glyph) | Class(members: seq<Glyph>)

  predicate ValidMembers(gs: seq<Glyph>) {
    forall k :: 0 <= k < |gs| ==> gs[k].Slashed? || (gs[k].c != '\\' && gs[k].c != '\n' && gs[k].c != ']')
  }

  predicate ValidPart(p: Part) {
    match p
    case Single(g) => g.Slashed? || (g.c != '\\' && g.c != '\n' && g.c != '/' && g.c != '[')
    case Class(members) => ValidMembers(members)
  }

  function PartText(p: Part): string {
    match p
    case Single(g) => GlyphText(g)
    case Class(members) => "[" + GlyphsText(members) + "]"
  }

  function GlyphText(g: Glyph): string { if g.Bare? then [g.c] else ['\\', g.c] }

  predicate ValidParts(ps: seq<Part>) { forall k :: 0 <= k < |ps| ==> ValidPart(ps[k]) }

  function PartsText(ps: seq<Part>): string { if ps == [] then "" else PartText(ps[0]) + PartsText(ps[1..]) }

  lemma GlyphRead(src: string, i: nat, g: Glyph, inClass: bool, m: nat)
    requires TextAt(src, i, GlyphText(g)) && m == i + |GlyphText(g)|
    requires if inClass then ValidMembers([g]) else ValidPart(Single(g))
    ensures RegexScan(src, i, inClass) == RegexScan(src, m, inClass)
  {
    CharAt(src, i, GlyphText(g), 0);
    if g.Slashed? {
      CharAt(src, i, GlyphText(g), 1);
    } else if inClass {
      assert [g][0].c == g.c;
    }
  }

  lemma {:induction false} MembersRead(src: string, i: nat, gs: seq<Glyph>, j: nat)
    requires ValidMembers(gs) && TextAt(src, i, GlyphsText(gs)) && j == i + |GlyphsText(gs)|
    ensures RegexScan(src, i, true) == RegexScan(src, j, true)
    decreases |gs|
  {
    if gs != [] {
      var m := i + |GlyphText(gs[0])|;
      TextSplits(src, i, GlyphText(gs[0]), GlyphsText(gs[1..]), m);
      GlyphRead(src, i, gs[0], true, m);
      MembersRead(src, m, gs[1..], j);
    }
  }

  lemma ClassRead(src: string, i: nat, gs: seq<Glyph>, j: nat)
    requires ValidMembers(gs) && TextAt(src, i, "[" + GlyphsText(gs) + "]") && j == i + |GlyphsText(gs)| + 2
    ensures RegexScan(src, i, false) == RegexScan(src, j, false)
  {
    TextSplits(src, i, "[" + GlyphsText(gs), "]", j - 1);
    TextSplits(src, i, "[", GlyphsText(gs), i + 1);
    CharAt(src, i, "[", 0);
    CharAt(src, j - 1, "]", 0);
    MembersRead(src, i + 1, gs, j - 1);
  }

  lemma PartRead(src: string, i: nat, p: Part, m: nat)
    requires ValidPart(p) && TextAt(src, i, PartText(p)) && m == i + |PartText(p)|
    ensures RegexScan(src, i, false) == RegexScan(src, m, false)
  {
    if p.Single? {
      GlyphRead(src, i, p.glyph, false, m);
    } else {
      ClassRead(src, i, p.members, m);
    }
  }

  lemma {:induction false} PartsRead(src: string, i: nat, ps: seq<Part>, j: nat)
    requires ValidParts(ps) && TextAt(src, i, PartsText(ps)) && j == i + |PartsText(ps)|
    ensures RegexScan(src, i, false) == RegexScan(src, j, false)
    decreases |ps|
  {
    if ps != [] {
      var m := i + |PartText(ps[0])|;
      TextSplits(src, i, PartText(ps[0]), PartsText(ps[1..]), m);
      PartRead(src, i, ps[0], m);
      PartsRead(src, m, ps[1..], j);
    }
  }

  lemma FlagsRead(src: string, j: nat, flags: string, e: nat)
    requires TextAt(src, j, "/" + flags) && AllOf(flags, IsIdentPart) && e == j + 1 + |flags|
    requires e < |src| ==> !IsIdentPart(src[e])
    ensures RegexScan(src, j, false) == (true, e)
  {
    TextSplits(src, j, "/", flags, j + 1);
    CharAt(src, j, "/", 0);
    SpanOfText(src, j + 1, flags, IsIdentPart, e);
  }

  lemma RegexScanned(src: string, i: nat, ps: seq<Part>, body: string, flags: string, j: nat, e: nat)
    requires ValidParts(ps) && body == PartsText(ps) && TextAt(src, i, "/" + body + ("/" + flags))
    requires AllOf(flags, IsIdentPart) && j == i + 1 + |body| && e == j + 1 + |flags|
    requires e < |src| ==> !IsIdentPart(src[e])
    ensures RegexScan(src, i + 1, false) == (true, e)
  {
    TextSplits(src, i, "/" + body, "/" + flags, j);
    TextSplits(src, i, "/", body, i + 1);
    PartsRead(src, i + 1, ps, j);
    FlagsRead(src, j, flags, e);
  }

  /** Where an operand is to come, a printed regular expression is read as one token. */
  lemma RegexRead(src: string, i: nat, toks: seq<Lexeme>, ps: seq<Part>, body: string, flags: string, e: nat)
    requires SlashAt(src, i) && BehindOperator(Tokens(toks))
    requires ValidParts(ps) && body == PartsText(ps) && TextAt(src, i, "/" + body + ("/" + flags))
    requires AllOf(flags, IsIdentPart) && e == i + 2 + |body| + |flags| && (e < |src| ==> !IsIdentPart(src[e]))
    ensures NextStep(src, i, toks) == Emit(Lexeme(Token(Regex, "/" + body + "/" + flags), i, e))
  {
    RegexScanned(src, i, ps, body, flags, i + 1 + |body|, e);
    SlashTurn(src, i, toks, true);
    assert "/" + body + ("/" + flags) == "/" + body + "/" + flags;
  }

  /** The line or the text ends at `j`. */
  predicate EndsAt(src: string, j: nat) {
    j == |src| || (j < |src| && src[j] == '\n') || (j + 1 == |src| && src[j] == '\\')
  }

  lemma NothingBehind(src: string, j: nat, inClass: bool)
    requires EndsAt(src, j)
    ensures !RegexScan(src, j, inClass).0
  {
  }

  lemma OpenClassScanned(src: string, m: nat, gs: seq<Glyph>, j: nat)
    requires ValidMembers(gs) && TextAt(src, m, "[" + GlyphsText(gs)) && j == m + 1 + |GlyphsText(gs)|
    requires EndsAt(src, j)
    ensures !RegexScan(src, m, false).0
  {
    TextSplits(src, m, "[", GlyphsText(gs), m + 1);
    CharAt(src, m, "[", 0);
    MembersRead(src, m + 1, gs, j);
    NothingBehind(src, j, true);
  }

  lemma OpenTailScanned(src: string, m: nat, members: Option<seq<Glyph>>, tail: string, j: nat)
    requires (members.Some? ==> ValidMembers(members.value)) && tail == OpenText(members)
    requires TextAt(src, m, tail) && j == m + |tail| && EndsAt(src, j)
    ensures !RegexScan(src, m, false).0
  {
    if members.Some? {
      OpenClassScanned(src, m, members.value, j);
    } else {
      NothingBehind(src, m, false);
    }
  }

  lemma OpenScanned(src: string, i: nat, ps: seq<Part>, body: string, members: Option<seq<Glyph>>, tail: string,
                    m: nat, j: nat)
    requires ValidParts(ps) && body == PartsText(ps) && (members.Some? ==> ValidMembers(members.value))
    requires tail == OpenText(members) && TextAt(src, i, body + tail) && m == i + |body|
    requires j == m + |tail| && EndsAt(src, j)
    ensures !RegexScan(src, i, false).0
  {
    TextSplits(src, i, body, tail, m);
    PartsRead(src, i, ps, m);
    OpenTailScanned(src, m, members, tail, j);
  }

  /** A class that is not closed. */
  function OpenText(members: Option<seq<Glyph>>): string {
    match members
    case None => ""
    case Some(gs) => "[" + GlyphsText(gs)
  }

  /** If the line or the text ends before the regular expression does, the slash is a
      division sign even there. */
  lemma OpenSlashRead(src: string, i: nat, toks: seq<Lexeme>, ps: seq<Part>, body: string,
                      members: Option<seq<Glyph>>, tail: string, j: nat)
    requires SlashAt(src, i) && ValidParts(ps) && body == PartsText(ps) && tail == OpenText(members)
    requires (members.Some? ==> ValidMembers(members.value)) && TextAt(src, i + 1, body + tail)
    requires j == i + 1 + |body| + |tail| && EndsAt(src, j)
    ensures NextStep(src, i, toks) == Emit(Lexeme(Token(Punct, "/"), i, i + 1))
  {
    OpenScanned(src, i + 1, ps, body, members, tail, i + 1 + |body|, j);
    SlashTurn(src, i, toks, BehindOperator(Tokens(toks)));
    LoneSlash(src, i);
  }

  // ---------- other operators ----------

  predicate TwoSign(a: char, b: char) {
    || (b == '=' && a in "=!<>+-*/%&|^")
    || (a == b && a in "&|?+-<>")
    || (a == '=' && b == '>') || (a == '?' && b == '.')
  }

  predicate ThreeSign(a: char, b: char, c: char) {
    || (a == b == c && (a == '.' || a == '>'))
    || (c == '=' && ((a == b && a in "=*<>&|?") || (a == '!' && b == '=')))
  }

  predicate FourSign(a: char, b: char, c: char, d: char) { a == b == c == '>' && d == '=' }

  /** The length of the longest operator at `i`; any other character is taken alone. */
  function SignLength(src: string, i: nat): (n: nat)
    requires i < |src|
    ensures 1 <= n && i + n <= |src|
  {
    if i + 4 <= |src| && FourSign(src[i], src[i + 1], src[i + 2], src[i + 3]) then 4
    else if i + 3 <= |src| && ThreeSign(src[i], src[i + 1], src[i + 2]) then 3
    else if i + 2 <= |src| && TwoSign(src[i], src[i + 1]) then 2
    else 1
  }

  const THREES: seq<string> := ["...", "===", "!==", "**=", "<<=", ">>=", ">>>", "&&=", "||=", "??="]

  const TWOS: seq<string> := [
    "=>", "==", "!=", "<=", ">=", "&&", "||", "??", "?.", "++", "--",
    "+=", "-=", "*=", "/=", "%=", "&=", "|=", "^=", "<<", ">>"
  ]

  lemma ByLength()
    ensures PUNCT_OPS == [">>>="] + THREES + TWOS
  {
  }

  predicate AllLong(ops: seq<string>, n: nat) { forall k :: 0 <= k < |ops| ==> |ops[k]| == n }

  /** Among operators of one length the text decides. */
  lemma {:induction false} FirstOfLength(src: string, i: nat, ops: seq<string>, n: nat)
    requires n > 0 && AllLong(ops, n)
    ensures FirstOp(src, i, ops) == if i + n <= |src| && src[i..i + n] in ops then src[i..i + n] else ""
    decreases |ops|
  {
    if ops != [] {
      assert |ops[0]| == n;
      FirstOfLength(src, i, ops[1..], n);
    }
  }

  lemma {:induction false} FirstOfBoth(src: string, i: nat, a: seq<string>, n: nat, b: seq<string>, both: seq<string>)
    requires n > 0 && AllLong(a, n) && both == a + b
    ensures FirstOp(src, i, both) == if FirstOp(src, i, a) != "" then FirstOp(src, i, a) else FirstOp(src, i, b)
    decreases |a|
  {
    if a == [] {
      assert both == b;
    } else {
      assert |a[0]| == n && both[0] == a[0] && both[1..] == a[1..] + b;
      FirstOfBoth(src, i, a[1..], n, b, both[1..]);
    }
  }

  lemma TwosAre(t: string, a: char, b: char)
    requires t == [a, b]
    ensures t in TWOS <==> TwoSign(a, b)
  {
    assert |t| == 2 && t[0] == a && t[1] == b;
  }

  lemma ThreesAre(t: string, a: char, b: char, c: char)
    requires t == [a, b, c]
    ensures t in THREES <==> ThreeSign(a, b, c)
  {
    assert |t| == 3 && t[0] == a && t[1] == b && t[2] == c;
  }

  lemma FourIs(t: string, a: char, b: char, c: char, d: char)
    requires t == [a, b, c, d]
    ensures t in [">>>="] <==> FourSign(a, b, c, d)
  {
    assert |t| == 4 && t[0] == a && t[1] == b && t[2] == c && t[3] == d;
  }

  lemma Lengths()
    ensures AllLong([">>>="], 4) && AllLong(THREES, 3) && AllLong(TWOS, 2)
  {
  }

  lemma FirstFour(src: string, i: nat)
    requires i < |src|
    ensures FirstOp(src, i, [">>>="]) ==
      if i + 4 <= |src| && FourSign(src[i], src[i + 1], src[i + 2], src[i + 3]) then src[i..i + 4] else ""
  {
    Lengths();
    FirstOfLength(src, i, [">>>="], 4);
    if i + 4 <= |src| {
      FourIs(src[i..i + 4], src[i], src[i + 1], src[i + 2], src[i + 3]);
    }
  }

  lemma FirstThree(src: string, i: nat)
    requires i < |src|
    ensures FirstOp(src, i, THREES) ==
      if i + 3 <= |src| && ThreeSign(src[i], src[i + 1], src[i + 2]) then src[i..i + 3] else ""
  {
    Lengths();
    FirstOfLength(src, i, THREES, 3);
    if i + 3 <= |src| {
      ThreesAre(src[i..i + 3], src[i], src[i + 1], src[i + 2]);
    }
  }

  lemma FirstTwo(src: string, i: nat)
    requires i < |src|
    ensures FirstOp(src, i, TWOS) == if i + 2 <= |src| && TwoSign(src[i], src[i + 1]) then src[i..i + 2] else ""
  {
    Lengths();
    FirstOfLength(src, i, TWOS, 2);
    if i + 2 <= |src| {
      TwosAre(src[i..i + 2], src[i], src[i + 1]);
    }
  }

  lemma FirstOfAll(src: string, i: nat, ops: seq<string>, fours: seq<string>, threes: seq<string>, twos: seq<string>)
    requires ops == fours + threes + twos && AllLong(fours, 4) && AllLong(threes, 3) && AllLong(twos, 2)
    ensures FirstOp(src, i, ops) ==
      if FirstOp(src, i, fours) != "" then FirstOp(src, i, fours)
      else if FirstOp(src, i, threes) != "" then FirstOp(src, i, threes) else FirstOp(src, i, twos)
  {
    assert ops == fours + (threes + twos);
    FirstOfBoth(src, i, fours, 4, threes + twos, ops);
    FirstOfBoth(src, i, threes, 3, twos, threes + twos);
  }

  lemma LongestFound(src: string, i: nat)
    requires i < |src|
    ensures var op := FirstOp(src, i, PUNCT_OPS);
      (if op == "" then 1 else |op|) == SignLength(src, i)
  {
    ByLength();
    Lengths();
    FirstOfAll(src, i, PUNCT_OPS, [">>>="], THREES, TWOS);
    FirstFour(src, i);
    FirstThree(src, i);
    FirstTwo(src, i);
  }

  lemma SignStepIs(src: string, i: nat, ops: seq<string>, n: nat)
    requires i < |src| && n == (if FirstOp(src, i, ops) == "" then 1 else |FirstOp(src, i, ops)|)
    ensures i + n <= |src| && SignStep(src, i, ops) == Emit(Lexeme(Token(Punct, src[i..i + n]), i, i + n))
  {
  }

  /** Any other character starts the longest operator that stands there, or is a token by
      itself. */
  lemma OperatorRead(src: string, i: nat, toks: seq<Lexeme>, n: nat)
    requires i < |src| && src[i] != '/' && !IsBlank(src[i]) && !StartsQuoted(src[i]) && !StartsNumber(src, i)
    requires !StartsName(src[i]) && n == SignLength(src, i)
    ensures NextStep(src, i, toks) == Emit(Lexeme(Token(Punct, src[i..i + n]), i, i + n))
  {
    OtherStep(src, i, toks);
    LongestFound(src, i);
    SignStepIs(src, i, PUNCT_OPS, n);
  }
}
