/** What the lexer reads from some position on depends only on the text behind it:
    two texts with the same tail are read alike there, each token shifted. */
module JsTail {
  import opened JsLexer
  import opened JsNumber
  import opened JsSpelling
  import opened PowMeaning

  /** `t` is the tail of `src` from `d` on. */
  predicate Tail(src: string, d: nat, t: string) {
    |src| == d + |t| && forall k :: 0 <= k < |t| ==> t[k] == src[d + k]
  }

  lemma TailSlice(src: string, d: nat, t: string, k: nat, m: nat, i: nat, j: nat)
    requires Tail(src, d, t) && k <= m <= |t| && i == d + k && j == d + m
    ensures j <= |src| && src[i..j] == t[k..m]
  {
  }

  function Moved(d: nat, c: Chunk): Chunk { Chunk(d + c.next, c.out) }

  // ---------- the scans ----------

  lemma {:induction false} SpanTail(src: string, d: nat, t: string, k: nat, i: nat, p: char -> bool)
    requires Tail(src, d, t) && k <= |t| && i == d + k
    ensures SpanEnd(src, i, p) == d + SpanEnd(t, k, p)
    decreases |t| - k
  {
    if k < |t| && p(t[k]) {
      SpanTail(src, d, t, k + 1, i + 1, p);
    }
  }

  lemma {:induction false} CommentTail(src: string, d: nat, t: string, k: nat, i: nat)
    requires Tail(src, d, t) && k <= |t| && i == d + k
    ensures CommentStop(src, i) == d + CommentStop(t, k)
    decreases |t| - k
  {
    if k + 1 < |t| && !StarSlash(t, k) {
      CommentTail(src, d, t, k + 1, i + 1);
    }
  }

  lemma FourHexTail(src: string, d: nat, t: string, k: nat, i: nat)
    requires Tail(src, d, t) && i == d + k
    ensures FourHex(src, i) <==> FourHex(t, k)
  {
  }

  lemma CharTail(src: string, d: nat, t: string, k: nat, i: nat)
    requires Tail(src, d, t) && k <= |t| && i == d + k
    ensures |src| == d + |t| && (k < |t| ==> src[i] == t[k])
  {
  }

  lemma {:induction false} BracedTail(src: string, d: nat, t: string, k: nat, i: nat, m: nat, j: nat, v: int)
    requires Tail(src, d, t) && k < m <= |t| && i == d + k && j == d + m
    ensures BracedEscape(src, i, j, v) == Moved(d, BracedEscape(t, k, m, v))
    decreases |t| - m
  {
    CharTail(src, d, t, m, j);
    if m < |t| && IsHexDigit(t[m]) {
      BracedTail(src, d, t, k, i, m + 1, j + 1, Word64(v * 16 + HexVal(t[m])));
    }
  }

  lemma UnicodeTail(src: string, d: nat, t: string, k: nat, i: nat)
    requires Tail(src, d, t) && k < |t| && i == d + k
    ensures UnicodeEscape(src, i) == Moved(d, UnicodeEscape(t, k))
  {
    FourHexTail(src, d, t, k + 1, i + 1);
    if FourHex(t, k + 1) {
      assert src[i + 1] == t[k + 1] && src[i + 2] == t[k + 2] && src[i + 3] == t[k + 3] && src[i + 4] == t[k + 4];
    } else if k + 1 < |t| && t[k + 1] == '{' {
      BracedTail(src, d, t, k, i, k + 2, i + 2, 0);
    }
  }

  lemma EscapeTail(src: string, d: nat, t: string, k: nat, i: nat)
    requires Tail(src, d, t) && k < |t| && i == d + k
    ensures Escape(src, i) == Moved(d, Escape(t, k))
  {
    UnicodeTail(src, d, t, k, i);
  }

  lemma EscapedPart(src: string, i: nat, quote: char, next: nat, out: string)
    requires i + 1 < |src| && src[i] == '\\' != quote && Escape(src, i + 1) == Chunk(next, out)
    ensures StringScan(src, i, quote) == Prepend(out, StringScan(src, next, quote))
  {
  }

  lemma EscapeAt(src: string, d: nat, t: string, k: nat, i: nat) returns (next: nat, out: string)
    requires Tail(src, d, t) && k < |t| && i == d + k
    ensures k < next <= |t| && Escape(t, k) == Chunk(next, out)
    ensures d + next <= |src| && Escape(src, i) == Chunk(d + next, out)
  {
    EscapeTail(src, d, t, k, i);
    next, out := Escape(t, k).next, Escape(t, k).out;
  }

  lemma EscapedTail(src: string, d: nat, t: string, k: nat, i: nat, quote: char) returns (next: nat, out: string)
    requires Tail(src, d, t) && k + 1 < |t| && i == d + k && t[k] == '\\' != quote
    ensures k < next <= |t| && StringScan(t, k, quote) == Prepend(out, StringScan(t, next, quote))
    ensures d + next <= |src| && StringScan(src, i, quote) == Prepend(out, StringScan(src, d + next, quote))
  {
    next, out := EscapeAt(src, d, t, k + 1, i + 1);
    EscapedPart(t, k, quote, next, out);
    EscapedPart(src, i, quote, d + next, out);
  }

  lemma {:induction false} StringTail(src: string, d: nat, t: string, k: nat, i: nat, quote: char)
    requires Tail(src, d, t) && k <= |t| && i == d + k && quote != '\\'
    ensures StringScan(src, i, quote) == Moved(d, StringScan(t, k, quote))
    decreases |t| - k
  {
    CharTail(src, d, t, k, i);
    if k + 1 < |t| && t[k] == '\\' {
      var next, out := EscapedTail(src, d, t, k, i, quote);
      StringTail(src, d, t, next, d + next, quote);
    } else if k < |t| && t[k] != quote && t[k] != '\n' {
      StringTail(src, d, t, k + 1, i + 1, quote);
    }
  }

  lemma TemplateCharTail(src: string, d: nat, t: string, k: nat, i: nat, depth: nat)
    requires Tail(src, d, t) && k < |t| && i == d + k
    ensures var r := TemplateChar(t, k, depth); TemplateChar(src, i, depth) == (d + r.0, r.1, r.2)
  {
  }

  lemma {:induction false} TemplateTail(src: string, d: nat, t: string, k: nat, i: nat, depth: nat)
    requires Tail(src, d, t) && k <= |t| && i == d + k
    ensures TemplateScan(src, i, depth) == Moved(d, TemplateScan(t, k, depth))
    decreases |t| - k
  {
    if k < |t| && !(depth == 0 && t[k] == '`') {
      var r := TemplateChar(t, k, depth);
      TemplateCharTail(src, d, t, k, i, depth);
      TemplateTail(src, d, t, r.0, d + r.0, r.1);
    }
  }

  lemma RadixTail(src: string, d: nat, t: string, k: nat, i: nat)
    requires Tail(src, d, t) && k < |t| && i == d + k
    ensures RadixEnd(src, i) == d + RadixEnd(t, k)
  {
    CharTail(src, d, t, k, i);
    CharTail(src, d, t, k + 1, i + 1);
    if t[k] == '0' && k + 1 < |t| {
      RadixDigitsTail(src, d, t, k, i);
    }
  }

  lemma RadixDigitsTail(src: string, d: nat, t: string, k: nat, i: nat)
    requires Tail(src, d, t) && k + 1 < |t| && i == d + k && i + 1 < |src|
    requires t[k] == '0' == src[i] && t[k + 1] == src[i + 1]
    ensures RadixEnd(src, i) == d + RadixEnd(t, k)
  {
    if t[k + 1] == 'x' || t[k + 1] == 'X' {
      SpanTail(src, d, t, k + 2, i + 2, IsHexRun);
    } else if t[k + 1] == 'o' || t[k + 1] == 'O' {
      SpanTail(src, d, t, k + 2, i + 2, IsOctRun);
    } else if t[k + 1] == 'b' || t[k + 1] == 'B' {
      SpanTail(src, d, t, k + 2, i + 2, IsBinRun);
    }
  }

  lemma FractionTail(src: string, d: nat, t: string, k: nat, i: nat)
    requires Tail(src, d, t) && k <= |t| && i == d + k
    ensures FractionEnd(src, i) == d + FractionEnd(t, k)
  {
    if k < |t| {
      SpanTail(src, d, t, k + 1, i + 1, IsDecRun);
    }
  }

  lemma ExponentTail(src: string, d: nat, t: string, k: nat, i: nat)
    requires Tail(src, d, t) && k <= |t| && i == d + k
    ensures ExponentEnd(src, i) == d + ExponentEnd(t, k)
  {
    CharTail(src, d, t, k, i);
    if k + 1 < |t| {
      CharTail(src, d, t, k + 1, i + 1);
      var m := if t[k + 1] == '+' || t[k + 1] == '-' then k + 2 else k + 1;
      CharTail(src, d, t, m, d + m);
      SpanTail(src, d, t, m, d + m, IsDecDigit);
    }
  }

  lemma MantissaTail(src: string, d: nat, t: string, k: nat, i: nat, f: nat, g: nat)
    requires Tail(src, d, t) && k <= |t| && i == d + k && f == d + g
    requires g == FractionEnd(t, SpanEnd(t, k, IsDecRun))
    ensures f == FractionEnd(src, SpanEnd(src, i, IsDecRun))
  {
    var whole := SpanEnd(t, k, IsDecRun);
    SpanTail(src, d, t, k, i, IsDecRun);
    FractionTail(src, d, t, whole, d + whole);
  }

  lemma DecimalTail(src: string, d: nat, t: string, k: nat, i: nat)
    requires Tail(src, d, t) && k <= |t| && i == d + k
    ensures DecimalEnd(src, i) == d + DecimalEnd(t, k)
  {
    var g := FractionEnd(t, SpanEnd(t, k, IsDecRun));
    MantissaTail(src, d, t, k, i, d + g, g);
    ExponentTail(src, d, t, g, d + g);
  }

  lemma NumberTail(src: string, d: nat, t: string, k: nat, i: nat)
    requires Tail(src, d, t) && k < |t| && i == d + k && StartsNumber(t, k)
    ensures StartsNumber(src, i) && NumberEnd(src, i) == d + NumberEnd(t, k)
  {
    var r := RadixEnd(t, k);
    var n := if r == k then DecimalEnd(t, k) else r;
    StartTail(src, d, t, k, i);
    RadixTail(src, d, t, k, i);
    DecimalTail(src, d, t, k, i);
    CharTail(src, d, t, n, d + n);
    NumberIs(t, k, r, n);
    NumberIs(src, i, d + r, d + n);
  }

  lemma StartTail(src: string, d: nat, t: string, k: nat, i: nat)
    requires Tail(src, d, t) && k < |t| && i == d + k
    ensures i < |src| && (StartsNumber(src, i) <==> StartsNumber(t, k))
  {
    CharTail(src, d, t, k, i);
    CharTail(src, d, t, k + 1, i + 1);
  }

  lemma NumberIs(src: string, i: nat, r: nat, n: nat)
    requires i < |src| && StartsNumber(src, i) && r == RadixEnd(src, i) && n == if r == i then DecimalEnd(src, i) else r
    ensures n <= |src| && NumberEnd(src, i) == if n < |src| && (src[n] == 'n' || src[n] == 'N') then n + 1 else n
  {
  }

  lemma {:induction false} RegexTail(src: string, d: nat, t: string, k: nat, i: nat, inClass: bool)
    requires Tail(src, d, t) && k <= |t| && i == d + k
    ensures var r := RegexScan(t, k, inClass); RegexScan(src, i, inClass) == (r.0, d + r.1)
    decreases |t| - k
  {
    CharTail(src, d, t, k, i);
    if k < |t| {
      if t[k] == '\\' && k + 1 < |t| {
        RegexTail(src, d, t, k + 2, i + 2, inClass);
      } else if t[k] == '\n' {
      } else if inClass {
        RegexTail(src, d, t, k + 1, i + 1, t[k] != ']');
      } else if t[k] == '[' {
        RegexTail(src, d, t, k + 1, i + 1, true);
      } else if t[k] == '/' {
        SpanTail(src, d, t, k + 1, i + 1, IsIdentPart);
      } else {
        RegexTail(src, d, t, k + 1, i + 1, false);
      }
    }
  }

  lemma OpAtTail(src: string, d: nat, t: string, k: nat, i: nat, op: string)
    requires Tail(src, d, t) && k <= |t| && i == d + k
    ensures OpAt(src, i, op) <==> OpAt(t, k, op)
  {
    if k + |op| <= |t| {
      TailSlice(src, d, t, k, k + |op|, i, i + |op|);
    }
  }

  lemma {:induction false} OpTail(src: string, d: nat, t: string, k: nat, i: nat, ops: seq<string>)
    requires Tail(src, d, t) && k <= |t| && i == d + k
    ensures FirstOp(src, i, ops) == FirstOp(t, k, ops)
    decreases |ops|
  {
    if ops != [] {
      OpAtTail(src, d, t, k, i, ops[0]);
      OpTail(src, d, t, k, i, ops[1..]);
    }
  }
  // ---------- one step ----------

  function MovedStep(d: nat, s: Step): Step {
    match s
    case Skip(j) => Skip(d + j)
    case Emit(l) => Emit(Lexeme(l.tok, d + l.pos, d + l.end))
  }

  lemma VerbatimTail(src: string, d: nat, t: string, k: nat, i: nat, kind: Kind, m: nat, j: nat)
    requires Tail(src, d, t) && k < m <= |t| && i == d + k && j == d + m
    ensures j <= |src| && Verbatim(src, kind, i, j) == MovedStep(d, Verbatim(t, kind, k, m))
  {
    TailSlice(src, d, t, k, m, i, j);
  }

  lemma SlashTail(src: string, d: nat, t: string, k: nat, i: nat, regexPos: bool)
    requires Tail(src, d, t) && k < |t| && i == d + k
    ensures SlashStep(src, i, regexPos) == MovedStep(d, SlashStep(t, k, regexPos))
  {
    var r := RegexScan(t, k + 1, false);
    RegexTail(src, d, t, k + 1, i + 1, false);
    if regexPos && r.0 {
      VerbatimTail(src, d, t, k, i, Regex, r.1, d + r.1);
    } else {
      VerbatimTail(src, d, t, k, i, Punct, k + 1, i + 1);
    }
  }

  lemma SymbolTail(src: string, d: nat, t: string, k: nat, i: nat, op: string)
    requires Tail(src, d, t) && k < |t| && i == d + k && (op == "" || OpAt(t, k, op))
    ensures var n := if op == "" then 1 else |op|;
      i + n <= |src| && Verbatim(src, Punct, i, i + n) == MovedStep(d, Verbatim(t, Punct, k, k + n))
  {
    var n := if op == "" then 1 else |op|;
    VerbatimTail(src, d, t, k, i, Punct, k + n, i + n);
  }

  lemma SignTail(src: string, d: nat, t: string, k: nat, i: nat, ops: seq<string>)
    requires Tail(src, d, t) && k < |t| && i == d + k
    ensures SignStep(src, i, ops) == MovedStep(d, SignStep(t, k, ops))
  {
    OpTail(src, d, t, k, i, ops);
    SymbolTail(src, d, t, k, i, FirstOp(t, k, ops));
  }

  lemma OperatorTail(src: string, d: nat, t: string, k: nat, i: nat, ls: seq<Lexeme>, ms: seq<Lexeme>)
    requires Tail(src, d, t) && k < |t| && i == d + k && (PrevIsRegexPos(ls) <==> PrevIsRegexPos(ms))
    ensures OperatorStep(src, i, ls) == MovedStep(d, OperatorStep(t, k, ms))
  {
    if t[k] == '/' {
      SlashTail(src, d, t, k, i, PrevIsRegexPos(ms));
    } else {
      SignTail(src, d, t, k, i, PUNCT_OPS);
    }
  }

  // The branches of a step, each by the character it starts with.

  predicate StartsQuoted(c: char) { c == '\'' || c == '"' || c == '`' }

  predicate StartsComment(src: string, i: nat)
    requires i < |src|
  {
    src[i] == '/' && i + 1 < |src| && (src[i + 1] == '/' || src[i + 1] == '*')
  }

  lemma OtherStep(src: string, i: nat, ls: seq<Lexeme>)
    requires i < |src| && !IsBlank(src[i]) && !StartsComment(src, i) && !StartsQuoted(src[i])
    requires !StartsNumber(src, i) && !StartsName(src[i])
    ensures NextStep(src, i, ls) == OperatorStep(src, i, ls)
  {
  }

  lemma CommentStepTail(src: string, d: nat, t: string, k: nat, i: nat, ls: seq<Lexeme>, ms: seq<Lexeme>)
    requires Tail(src, d, t) && k < |t| && i == d + k && StartsComment(t, k)
    ensures NextStep(src, i, ls) == MovedStep(d, NextStep(t, k, ms))
  {
    if t[k + 1] == '/' {
      LineCommentStep(src, i, ls);
      LineCommentStep(t, k, ms);
      SpanTail(src, d, t, k, i, NotNewline);
    } else {
      BlockCommentStep(src, i, ls);
      BlockCommentStep(t, k, ms);
      CommentTail(src, d, t, k + 2, i + 2);
    }
  }

  lemma QuotedStepTail(src: string, d: nat, t: string, k: nat, i: nat, ls: seq<Lexeme>, ms: seq<Lexeme>)
    requires Tail(src, d, t) && k < |t| && i == d + k && StartsQuoted(t[k])
    ensures NextStep(src, i, ls) == MovedStep(d, NextStep(t, k, ms))
  {
    if t[k] == '`' {
      TemplateTail(src, d, t, k + 1, i + 1, 0);
      TemplateStep(src, i, ls, TemplateScan(src, i + 1, 0));
      TemplateStep(t, k, ms, TemplateScan(t, k + 1, 0));
    } else {
      StringTail(src, d, t, k + 1, i + 1, t[k]);
      var r := StringScan(t, k + 1, t[k]);
      StringStep(src, i, ls, t[k], d + r.next, r.out);
      StringStep(t, k, ms, t[k], r.next, r.out);
    }
  }

  lemma WordStepTail(src: string, d: nat, t: string, k: nat, i: nat, ls: seq<Lexeme>, ms: seq<Lexeme>)
    requires Tail(src, d, t) && k < |t| && i == d + k && (StartsNumber(t, k) || StartsName(t[k]))
    ensures NextStep(src, i, ls) == MovedStep(d, NextStep(t, k, ms))
  {
    if StartsNumber(t, k) {
      NumberTail(src, d, t, k, i);
      NumberStep(src, i, ls);
      NumberStep(t, k, ms);
      VerbatimTail(src, d, t, k, i, Num, NumberEnd(t, k), NumberEnd(src, i));
    } else {
      SpanTail(src, d, t, k, i, IsIdentByte);
      NameStep(src, i, ls);
      NameStep(t, k, ms);
      VerbatimTail(src, d, t, k, i, Ident, SpanEnd(t, k, IsIdentByte), SpanEnd(src, i, IsIdentByte));
    }
  }

  lemma OtherStepTail(src: string, d: nat, t: string, k: nat, i: nat, ls: seq<Lexeme>, ms: seq<Lexeme>)
    requires Tail(src, d, t) && k < |t| && i == d + k && (PrevIsRegexPos(ls) <==> PrevIsRegexPos(ms))
    requires !IsBlank(t[k]) && !StartsComment(t, k) && !StartsQuoted(t[k]) && !StartsNumber(t, k) && !StartsName(t[k])
    ensures NextStep(src, i, ls) == MovedStep(d, NextStep(t, k, ms))
  {
    OtherStep(src, i, ls);
    OtherStep(t, k, ms);
    OperatorTail(src, d, t, k, i, ls, ms);
  }

  /** One step in a text is the same step in its tail, shifted. */
  lemma StepTail(src: string, d: nat, t: string, k: nat, i: nat, ls: seq<Lexeme>, ms: seq<Lexeme>)
    requires Tail(src, d, t) && k < |t| && i == d + k && (PrevIsRegexPos(ls) <==> PrevIsRegexPos(ms))
    ensures NextStep(src, i, ls) == MovedStep(d, NextStep(t, k, ms))
  {
    if IsBlank(t[k]) {
      BlankStep(src, i, ls);
      BlankStep(t, k, ms);
    } else if StartsComment(t, k) {
      CommentStepTail(src, d, t, k, i, ls, ms);
    } else if StartsQuoted(t[k]) {
      QuotedStepTail(src, d, t, k, i, ls, ms);
    } else if StartsNumber(t, k) || StartsName(t[k]) {
      WordStepTail(src, d, t, k, i, ls, ms);
    } else {
      OtherStepTail(src, d, t, k, i, ls, ms);
    }
  }

  // ---------- the rest of a text ----------

  lemma SameAtEnd(ls: seq<Lexeme>, ms: seq<Lexeme>, fl: FloatReader, k: nat)
    requires SameStream(Tokens(ls), Tokens(ms), fl) && k < |ls|
    ensures |ms| == |ls| && SameMeaning(ls[k].tok, ms[k].tok, fl)
  {
    assert SameAt(Tokens(ls), Tokens(ms), fl, k);
  }

  /** Whether a "/" opens a regular expression is a matter of what the tokens mean. */
  lemma RegexPosSame(ls: seq<Lexeme>, ms: seq<Lexeme>, fl: FloatReader)
    requires SameStream(Tokens(ls), Tokens(ms), fl)
    ensures PrevIsRegexPos(ls) <==> PrevIsRegexPos(ms)
  {
    if ls != [] {
      var n := |ls| - 1;
      SameAtEnd(ls, ms, fl, n);
      SamePlay(ls[n].tok, ms[n].tok, fl);
      if n > 0 {
        SameAtEnd(ls, ms, fl, n - 1);
        SamePlay(ls[n - 1].tok, ms[n - 1].tok, fl);
      }
    }
  }

  lemma SameWithOne(ls: seq<Lexeme>, ms: seq<Lexeme>, l: Lexeme, m: Lexeme, fl: FloatReader)
    requires SameStream(Tokens(ls), Tokens(ms), fl) && l.tok == m.tok
    ensures SameStream(Tokens(ls + [l]), Tokens(ms + [m]), fl)
  {
    var ts, us := Tokens(ls + [l]), Tokens(ms + [m]);
    forall k | 0 <= k < |ts|
      ensures SameAt(ts, us, fl, k)
    {
      if k < |ls| {
        SameAtEnd(ls, ms, fl, k);
      }
    }
  }

  lemma TailShrinks(src: string, i: nat, src': string, i': nat, n: nat)
    requires i <= |src| && i' <= |src'| && src[i..] == src'[i'..] && n <= |src| - i
    ensures i' + n <= |src'| && src[i + n..] == src'[i' + n..]
  {
    assert src[i..][n..] == src[i + n..] && src'[i'..][n..] == src'[i' + n..];
  }

  function Width(s: Step): nat { match s case Skip(j) => j case Emit(l) => l.end }

  /** The tokens read so far with those of one step more, taken at `d`. */
  function Extended(ls: seq<Lexeme>, d: nat, s: Step): seq<Lexeme> {
    match s
    case Skip(j) => ls
    case Emit(l) => ls + [Lexeme(l.tok, d + l.pos, d + l.end)]
  }

  lemma SameExtended(ls: seq<Lexeme>, ms: seq<Lexeme>, d: nat, e: nat, s: Step, fl: FloatReader)
    requires SameStream(Tokens(ls), Tokens(ms), fl)
    ensures SameStream(Tokens(Extended(ls, d, s)), Tokens(Extended(ms, e, s)), fl)
  {
    if s.Emit? {
      var l := s.lexeme;
      SameWithOne(ls, ms, Lexeme(l.tok, d + l.pos, d + l.end), Lexeme(l.tok, e + l.pos, e + l.end), fl);
    }
  }

  lemma TextSkips(src: string, i: nat, ls: seq<Lexeme>, t: string, ms: seq<Lexeme>, s: Step, p: nat)
    requires Tail(src, i, t) && t != "" && (PrevIsRegexPos(ls) <==> PrevIsRegexPos(ms)) && s == NextStep(t, 0, ms)
    requires s.Skip? && p == i + s.next
    ensures i < p <= |src| && LexFrom(src, i, ls) == LexFrom(src, p, ls)
  {
    StepTail(src, i, t, 0, i, ls, ms);
    SkipOnce(src, i, ls, p);
  }

  lemma TextEmits(src: string, i: nat, ls: seq<Lexeme>, t: string, ms: seq<Lexeme>, s: Step, l: Lexeme, p: nat,
                  next: seq<Lexeme>)
    requires Tail(src, i, t) && t != "" && (PrevIsRegexPos(ls) <==> PrevIsRegexPos(ms)) && s == NextStep(t, 0, ms)
    requires s.Emit? && l == Lexeme(s.lexeme.tok, i + s.lexeme.pos, i + s.lexeme.end) && p == l.end && next == ls + [l]
    ensures i < p <= |src| && LexFrom(src, i, ls) == LexFrom(src, p, next)
  {
    StepTail(src, i, t, 0, i, ls, ms);
    EmitOnce(src, i, ls, l);
  }

  /** What the lexer makes of a text from `i` on is what it makes of it behind the
      step read off the tail. */
  lemma TextOn(src: string, i: nat, ls: seq<Lexeme>, t: string, ms: seq<Lexeme>, s: Step, p: nat, next: seq<Lexeme>)
    requires Tail(src, i, t) && t != "" && (PrevIsRegexPos(ls) <==> PrevIsRegexPos(ms)) && s == NextStep(t, 0, ms)
    requires p == i + Width(s) && next == Extended(ls, i, s)
    ensures i < p <= |src| && LexFrom(src, i, ls) == LexFrom(src, p, next)
  {
    if s.Skip? {
      TextSkips(src, i, ls, t, ms, s, p);
    } else {
      TextEmits(src, i, ls, t, ms, s, Lexeme(s.lexeme.tok, i + s.lexeme.pos, i + s.lexeme.end), p, next);
    }
  }

  /** One step in both: the streams still mean the same, the tails are still the same,
      and what the lexer makes of the whole has not changed. */
  lemma StepOn(src: string, i: nat, ls: seq<Lexeme>, src': string, i': nat, ms: seq<Lexeme>, fl: FloatReader)
    returns (p: nat, ls': seq<Lexeme>, p': nat, ms': seq<Lexeme>)
    requires i < |src| && i' <= |src'| && src[i..] == src'[i'..] && SameStream(Tokens(ls), Tokens(ms), fl)
    ensures i < p <= |src| && p' <= |src'| && src[p..] == src'[p'..] && SameStream(Tokens(ls'), Tokens(ms'), fl)
    ensures LexFrom(src, i, ls) == LexFrom(src, p, ls') && LexFrom(src', i', ms) == LexFrom(src', p', ms')
  {
    var t := src[i..];
    var s := NextStep(t, 0, ls);
    p, p', ls', ms' := i + Width(s), i' + Width(s), Extended(ls, i, s), Extended(ms, i', s);
    RegexPosSame(ls, ms, fl);
    TextOn(src, i, ls, t, ls, s, p, ls');
    TextOn(src', i', ms, t, ls, s, p', ms');
    TailShrinks(src, i, src', i', Width(s));
    SameExtended(ls, ms, i, i', s, fl);
  }

  /** Two texts with the same tail, read so far as streams of the same meaning, are
      read as such streams to the end. */
  lemma {:induction false} TailsReadAlike(src: string, i: nat, ls: seq<Lexeme>, src': string, i': nat, ms: seq<Lexeme>,
                                          fl: FloatReader)
    requires i <= |src| && i' <= |src'| && src[i..] == src'[i'..] && SameStream(Tokens(ls), Tokens(ms), fl)
    ensures SameStream(Tokens(LexFrom(src, i, ls)), Tokens(LexFrom(src', i', ms)), fl)
    decreases |src| - i
  {
    if i < |src| {
      var p, ls', p', ms' := StepOn(src, i, ls, src', i', ms, fl);
      TailsReadAlike(src, p, ls', src', p', ms', fl);
    } else {
      assert |src[i..]| == 0 && i' == |src'|;
    }
  }
}
