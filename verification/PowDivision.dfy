/** A division in front of a seed call (client/captcha_jslex.go under client/captcha_pow.go):
    its slash opens no regular expression, so the call behind it is found. */
module PowDivision {
  import opened JsLexer
  import opened JsNumber
  import opened JsSpelling
  import opened JsRoundTrip
  import opened JsTail
  import opened JsOperators
  import opened CallJoin
  import opened PowSeed
  import opened PowExtract
  import opened PowBody
  import opened PowOrder
  import opened Wrappers

  function Slash(i: nat): Lexeme { Lexeme(Token(Punct, "/"), i, i + 1) }

  lemma SlashPassed(src: string, i: nat, before: seq<Lexeme>, with: seq<Lexeme>)
    requires SlashAt(src, i) && BehindOperand(Tokens(before)) && with == before + [Slash(i)]
    ensures LexFrom(src, i, before) == LexFrom(src, i + 1, with)
  {
    DivisionRead(src, i, before);
    EmitOnce(src, i, before, Slash(i));
  }

  lemma TokensBefore(all: seq<Lexeme>, with: seq<Lexeme>, before: seq<Lexeme>, l: Lexeme, j: nat)
    requires |with| <= |all| && all[..|with|] == with && with == before + [l] && j < |with|
    ensures Tokens(all)[j] == if j < |before| then Tokens(before)[j] else l.tok
  {
    assert all[j] == all[..|with|][j];
  }

  /** The tokens stand for no marker. */
  predicate AllUnmarked(ts: seq<Token>) { forall j: nat :: j < |ts| ==> Unmarked(ts, j) }

  lemma UnmarkedBefore(src: string, before: seq<Lexeme>, with: seq<Lexeme>, l: Lexeme, lead: seq<Token>, at: nat,
                       toks: seq<Token>)
    requires |with| <= |Lex(src)| && Lex(src)[..|with|] == with && with == before + [l] && !Site(l.tok, true)
    requires toks == Tokens(Lex(src)) && PartAt(toks, |with|, lead) && at == |with| + |lead|
    requires AllUnmarked(Tokens(before)) && AllUnmarked(lead)
    ensures forall j: nat :: j < at ==> Unmarked(toks, j)
  {
    forall j: nat | j < at
      ensures Unmarked(toks, j)
    {
      if j < |with| {
        TokensBefore(Lex(src), with, before, l, j);
        assert j < |before| ==> Unmarked(Tokens(before), j);
      } else {
        PartIndex(toks, |with|, lead, j - |with|, j);
        assert Unmarked(lead, j - |with|);
      }
    }
  }

  /** The lexer, having read these tokens, the last of which ends an operand, comes to a
      slash. */
  ghost predicate DividesAt(src: string, i: nat, before: seq<Lexeme>) {
    SlashAt(src, i) && BehindOperand(Tokens(before)) && LexFrom(src, i, before) == Lex(src)
  }

  lemma ReadPast(src: string, i: nat, before: seq<Lexeme>, j: nat, with: seq<Lexeme>)
    requires DividesAt(src, i, before) && j == i + 1 && with == before + [Slash(i)]
    ensures LexFrom(src, j, with) == Lex(src) && |with| <= |Lex(src)| && Lex(src)[..|with|] == with
  {
    SlashPassed(src, i, before, with);
    LexExtends(src, j, with);
  }

  lemma TwoParts(toks: seq<Token>, n: nat, whole: seq<Token>, lead: seq<Token>, call: seq<Token>, at: nat)
    requires PartAt(toks, n, whole) && whole == lead + call && at == n + |lead|
    ensures PartAt(toks, n, lead) && PartAt(toks, at, call)
  {
    PartSplits(toks, n, lead, call);
  }

  lemma CallStandsBehind(src: string, i: nat, before: seq<Lexeme>, j: nat, with: seq<Lexeme>, ws: seq<Word>,
                         lead: seq<Token>, call: seq<Token>, toks: seq<Token>, at: nat)
    requires DividesAt(src, i, before) && j == i + 1 && with == before + [Slash(i)]
    requires AllValid(ws) && Apart(ws) && TextAt(src, j, Written(ws)) && TokensOf(ws) == lead + call
    requires AllUnmarked(Tokens(before)) && AllUnmarked(lead) && toks == Tokens(Lex(src)) && at == |with| + |lead|
    ensures PartAt(toks, at, call) && forall k: nat :: k < at ==> Unmarked(toks, k)
  {
    ReadPast(src, i, before, j, with);
    WordsInStream(src, j, with, ws);
    TwoParts(toks, |with|, TokensOf(ws), lead, call, at);
    UnmarkedBefore(src, before, with, Slash(i), lead, at, toks);
  }

  lemma PassBehindDivision(src: string, i: nat, before: seq<Lexeme>, j: nat, ws: seq<Word>, lead: seq<Token>,
                           ts: seq<Token>, x: nat, call: seq<Token>, toks: seq<Token>, source: string,
                           fl: FloatReader, r: Option<Seed>)
    requires DividesAt(src, i, before) && j == i + 1 && toks == Tokens(Lex(src))
    requires AllValid(ws) && Apart(ws) && TextAt(src, j, Written(ws)) && TokensOf(ws) == lead + call
    requires AllUnmarked(Tokens(before)) && AllUnmarked(lead)
    requires AreLone(ts) && FirstMark(ts, x) && call == CallOf(CALLEE, Singles(ts))
    requires r == Classify(Shapes(Singles(ts), fl), true, source) && r.Some?
    ensures PassYields(toks, source, true, fl, r)
  {
    var with := before + [Slash(i)];
    var at := |with| + |lead|;
    CallStandsBehind(src, i, before, j, with, ws, lead, call, toks, at);
    MarkedYields(toks, at, ts, x, call, source, fl, r);
  }

  /** Take a body in which there stand, behind such a division, some words and a call: if
      the first marker is among the call's arguments, the body yields what those classify
      as. */
  lemma CallBehindDivision(src: string, i: nat, before: seq<Lexeme>, j: nat, ws: seq<Word>, lead: seq<Token>,
                           ts: seq<Token>, x: nat, call: seq<Token>, source: string, origin: string,
                           fl: FloatReader, r: Option<Seed>)
    requires DividesAt(src, i, before) && j == i + 1
    requires AllValid(ws) && Apart(ws) && TextAt(src, j, Written(ws)) && TokensOf(ws) == lead + call
    requires AllUnmarked(Tokens(before)) && AllUnmarked(lead)
    requires AreLone(ts) && FirstMark(ts, x) && call == CallOf(CALLEE, Singles(ts))
    requires source == origin + "/tokenizer-marker" && r == Classify(Shapes(Singles(ts), fl), true, source) && r.Some?
    ensures BodyYields(src, origin, fl, r)
  {
    var toks := Tokens(Lex(src));
    PassBehindDivision(src, i, before, j, ws, lead, ts, x, call, toks, source, fl, r);
    StreamYields(src, toks, source, origin, fl, r);
  }

  // ---------- x=(a)/2;f("abcdef","pow_timeout",1);y=b/2 ----------

  lemma OneEmitted(src: string, i: nat, t: Token, toks: seq<Lexeme>) returns (more: seq<Lexeme>)
    requires i < |src| && NextStep(src, i, toks) == Emit(Lexeme(t, i, i + 1))
    ensures LexFrom(src, i, toks) == LexFrom(src, i + 1, more) && Tokens(more) == Tokens(toks) + [t]
  {
    var l := Lexeme(t, i, i + 1);
    more := toks + [l];
    EmitOnce(src, i, toks, l);
  }

  lemma NameAlone(src: string, i: nat, c: char, toks: seq<Lexeme>) returns (more: seq<Lexeme>)
    requires i + 1 < |src| && src[i] == c && 'a' <= c <= 'z' && !IsIdentByte(src[i + 1])
    ensures LexFrom(src, i, toks) == LexFrom(src, i + 1, more) && Tokens(more) == Tokens(toks) + [Token(Ident, [c])]
  {
    SpanEndsAt(src, i, IsIdentByte, i + 1);
    NameStep(src, i, toks);
    assert src[i..i + 1] == [c];
    more := OneEmitted(src, i, Token(Ident, [c]), toks);
  }

  lemma OnlySign(src: string, i: nat, c: char)
    requires i < |src| && src[i] == c && (c == '(' || c == ')' || c == '=')
    ensures c != '/' && !IsBlank(c) && !StartsQuoted(c) && !StartsNumber(src, i) && !StartsName(c)
  {
  }

  lemma OneSign(src: string, i: nat, c: char)
    requires i + 1 < |src| && src[i] == c && (c == '(' || c == ')' || c == '=')
    requires IsIdentByte(src[i + 1]) || src[i + 1] == '(' || src[i + 1] == '/'
    ensures SignLength(src, i) == 1
  {
  }

  lemma SignRead(src: string, i: nat, c: char, toks: seq<Lexeme>)
    requires i < |src| && src[i] == c && SignLength(src, i) == 1
    requires c != '/' && !IsBlank(c) && !StartsQuoted(c) && !StartsNumber(src, i) && !StartsName(c)
    ensures NextStep(src, i, toks) == Emit(Lexeme(Token(Punct, [c]), i, i + 1))
  {
    OperatorRead(src, i, toks, 1);
    assert src[i..i + 1] == [c];
  }

  lemma SignAlone(src: string, i: nat, c: char, toks: seq<Lexeme>) returns (more: seq<Lexeme>)
    requires i + 1 < |src| && src[i] == c && (c == '(' || c == ')' || c == '=')
    requires IsIdentByte(src[i + 1]) || src[i + 1] == '(' || src[i + 1] == '/'
    ensures LexFrom(src, i, toks) == LexFrom(src, i + 1, more) && Tokens(more) == Tokens(toks) + [Token(Punct, [c])]
  {
    OneSign(src, i, c);
    OnlySign(src, i, c);
    SignRead(src, i, c, toks);
    more := OneEmitted(src, i, Token(Punct, [c]), toks);
  }

  lemma AssignRead(src: string) returns (before: seq<Lexeme>)
    requires |src| >= 7 && src[0] == 'x' && src[1] == '=' && src[2] == '('
    ensures LexFrom(src, 2, before) == Lex(src) && Tokens(before) == [Token(Ident, "x"), Token(Punct, "=")]
  {
    before := NameAlone(src, 0, 'x', []);
    before := SignAlone(src, 1, '=', before);
  }

  lemma OperandRead(src: string, i: nat, toks: seq<Lexeme>) returns (before: seq<Lexeme>)
    requires i + 4 <= |src| && src[i] == '(' && src[i + 1] == 'a' && src[i + 2] == ')' && src[i + 3] == '/'
    ensures LexFrom(src, i, toks) == LexFrom(src, i + 3, before)
    ensures Tokens(before) == Tokens(toks) + [Token(Punct, "("), Token(Ident, "a"), Token(Punct, ")")]
  {
    before := SignAlone(src, i, '(', toks);
    before := NameAlone(src, i + 1, 'a', before);
    before := SignAlone(src, i + 2, ')', before);
  }

  lemma Arrived(src: string, i: nat, lead: seq<Lexeme>, j: nat, before: seq<Lexeme>)
    requires j == i + 3 && j + 1 < |src| && src[j] == '/' && src[j + 1] == '2'
    requires LexFrom(src, i, lead) == Lex(src) && LexFrom(src, i, lead) == LexFrom(src, j, before)
    requires BehindOperand(Tokens(before))
    ensures DividesAt(src, j, before)
  {
  }

  lemma LeadTokens(src: string, i: nat, j: nat) returns (before: seq<Lexeme>)
    requires |src| >= 7 && src[0] == 'x' && src[1] == '=' && src[2] == '(' && src[3] == 'a' && src[4] == ')'
    requires src[5] == '/' && src[6] == '2' && i == 2 && j == 5
    ensures DividesAt(src, j, before) && AllUnmarked(Tokens(before))
  {
    var lead := AssignRead(src);
    before := OperandRead(src, i, lead);
    LeadEnds(Tokens(before));
    Arrived(src, i, lead, j, before);
  }

  lemma LeadEnds(ts: seq<Token>)
    requires ts == [Token(Ident, "x"), Token(Punct, "=")] + [Token(Punct, "("), Token(Ident, "a"), Token(Punct, ")")]
    ensures BehindOperand(ts) && AllUnmarked(ts)
  {
  }

  lemma LeadRead(src: string) returns (before: seq<Lexeme>)
    requires TextAt(src, 0, "x=(a)/2")
    ensures DividesAt(src, 5, before) && AllUnmarked(Tokens(before))
  {
    var t := "x=(a)/2";
    CharAt(src, 0, t, 0);
    CharAt(src, 0, t, 1);
    CharAt(src, 0, t, 2);
    CharAt(src, 0, t, 3);
    CharAt(src, 0, t, 4);
    CharAt(src, 0, t, 5);
    CharAt(src, 0, t, 6);
    before := LeadTokens(src, 2, 5);
  }

  lemma TwoIs(two: Word)
    requires two == Lone(Decimal("2", ""))
    ensures ValidWord(two) && WordText(two) == "2" && TokenOf(two.atom) == Token(Num, "2")
  {
  }

  lemma SemiIs(semi: Word)
    requires semi == Lone(Mark(';'))
    ensures ValidWord(semi) && WordText(semi) == ";" && TokenOf(semi.atom) == Token(Punct, ";") && !RunsOn(semi.atom)
  {
  }

  lemma DivisorText(two: Word, semi: Word, call: seq<Word>, ws: seq<Word>, text: string, d: string, e: string,
                    t: Token, u: Token)
    requires ValidWord(two) && WordText(two) == d && TokenOf(two.atom) == t
    requires ValidWord(semi) && WordText(semi) == e && TokenOf(semi.atom) == u && !RunsOn(semi.atom)
    requires ws == [two, semi] + call && AllValid(call) && Apart(call) && text == Written(call)
    ensures AllValid(ws) && Apart(ws) && Written(ws) == d + (e + text) && TokensOf(ws) == [t, u] + TokensOf(call)
  {
    TwoWords(two, semi, call, ws);
  }

  lemma CallTextIs(atoms: seq<Atom>)
    requires AreArguments(atoms)
    ensures CallText(atoms) == Written(CallWords(atoms))
    ensures TokensOf(CallWords(atoms)) == CallOf(CALLEE, Singles(AtomTokens(atoms)))
  {
    ArgTokensJoined(AtomTokens(atoms));
  }

  lemma DivisorWords(atoms: seq<Atom>, text: string, call: seq<Token>) returns (ws: seq<Word>, lead: seq<Token>)
    requires AreArguments(atoms) && text == CallText(atoms) && call == CallOf(CALLEE, Singles(AtomTokens(atoms)))
    ensures AllValid(ws) && Apart(ws) && Written(ws) == "2" + (";" + text)
    ensures AllUnmarked(lead) && TokensOf(ws) == lead + call
  {
    var two, semi, words := Lone(Decimal("2", "")), Lone(Mark(';')), CallWords(atoms);
    ws, lead := [two, semi] + words, [Token(Num, "2"), Token(Punct, ";")];
    TwoIs(two);
    SemiIs(semi);
    CallTextIs(atoms);
    DivisorText(two, semi, words, ws, text, "2", ";", lead[0], lead[1]);
  }

  lemma BodySplits(text: string, body: string)
    requires body == "x=(a)/2;" + text + ";y=b/2"
    ensures TextAt(body, 0, "x=(a)/2") && TextAt(body, 6, "2" + (";" + text))
  {
    assert body == "x=(a)/2" + (";" + text + ";y=b/2");
    assert body == "x=(a)/" + ("2" + (";" + text)) + ";y=b/2";
    assert body[6..6 + 2 + |text|] == "2" + (";" + text);
  }

  /** For any call of strings and numbers f(...) with a marker that is accepted, the body
      x=(a)/2;f(...);y=b/2 yields what f(...) does: its slashes are two divisions. */
  lemma DividedBody(atoms: seq<Atom>, ts: seq<Token>, x: nat, text: string, body: string, source: string,
                    origin: string, fl: FloatReader, r: Option<Seed>)
    requires AreArguments(atoms) && ts == AtomTokens(atoms) && AreLone(ts) && FirstMark(ts, x)
    requires text == CallText(atoms) && body == "x=(a)/2;" + text + ";y=b/2"
    requires source == origin + "/tokenizer-marker" && r == Classify(Shapes(Singles(ts), fl), true, source) && r.Some?
    ensures BodyYields(body, origin, fl, r)
  {
    var call := CallOf(CALLEE, Singles(ts));
    BodySplits(text, body);
    var before := LeadRead(body);
    var ws, lead := DivisorWords(atoms, text, call);
    CallBehindDivision(body, 5, before, 6, ws, lead, ts, x, call, source, origin, fl, r);
  }

  lemma OnlyHint(p: string, h: string, texts: seq<string>, hints: seq<string>, mark: string)
    requires hints == [h] && texts == [p, h] && mark == h
    ensures mark in hints && |hints| == 1 && hints[0] == h && texts == [p] + hints
  {
    assert mark == hints[0];
  }

  lemma ArgsWithMarker(p: string, h: string, a: Atom, level: int, texts: seq<string>, source: string,
                       fl: FloatReader)
    returns (atoms: seq<Atom>, ts: seq<Token>, x: nat)
    requires IsSeedText(p) && IsHintText(h) && h == MARKER && texts == [p, h] && ArePlain(texts)
    requires Spells(a, level) && 1 <= level <= 16
    ensures AreArguments(atoms) && atoms == ArgAtoms(texts, [a]) && ts == AtomTokens(atoms) && AreLone(ts)
    ensures FirstMark(ts, x) && Classify(Shapes(Singles(ts), fl), true, source) == Some(Seed(p, level, h, source))
  {
    var hints := OneHint(h);
    var numbers, levels := [a], [level];
    OnlyHint(p, h, texts, hints, MARKER);
    OneSpelt(a, level);
    atoms := ArgAtoms(texts, numbers);
    ts, x := ArgsClassified(p, hints, numbers, levels, texts, atoms, source, fl);
  }

  lemma SeedBehindDivision(p: string, h: string, a: Atom, level: int, texts: seq<string>, source: string,
                           origin: string, fl: FloatReader)
    returns (body: string, r: Seed)
    requires IsSeedText(p) && IsHintText(h) && h == MARKER && texts == [p, h] && ArePlain(texts)
    requires Spells(a, level) && 1 <= level <= 16 && source == origin + "/tokenizer-marker"
    ensures AreArguments(ArgAtoms(texts, [a])) && body == "x=(a)/2;" + CallText(ArgAtoms(texts, [a])) + ";y=b/2"
    ensures BodyYields(body, origin, fl, Some(r)) && r == Seed(p, level, h, source)
  {
    var atoms, ts, x := ArgsWithMarker(p, h, a, level, texts, source, fl);
    var text := CallText(atoms);
    body, r := "x=(a)/2;" + text + ";y=b/2", Seed(p, level, h, source);
    DividedBody(atoms, ts, x, text, body, source, origin, fl, Some(r));
  }

  /** The body x=(a)/2;f("abcdef","pow_timeout",1);y=b/2 yields the seed and difficulty 1. */
  lemma DivisionKeepsSeed(origin: string, fl: FloatReader)
    returns (texts: seq<string>, one: Atom, body: string, r: Seed)
    ensures texts == ["abcdef", "pow_timeout"] && one == Decimal("1", "") && ArePlain(texts)
    ensures AreArguments(ArgAtoms(texts, [one])) && body == "x=(a)/2;" + CallText(ArgAtoms(texts, [one])) + ";y=b/2"
    ensures BodyYields(body, origin, fl, Some(r)) && r.powInput == texts[0] && r.difficulty == 1
  {
    var p := SeedInput();
    var h := MarkerInput();
    texts := PlainTwo(p, h);
    one := DigitInput('1');
    body, r := SeedBehindDivision(p, h, one, 1, texts, origin + "/tokenizer-marker", origin, fl);
  }
}
