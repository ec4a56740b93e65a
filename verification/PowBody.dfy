/** Script bodies that hold a call of strings and numbers, and what the search for the
    seed finds there, whatever stands around the call (client/captcha_pow.go over
    client/captcha_jslex.go). */
module PowBody {
  import opened JsLexer
  import opened JsNumber
  import opened JsSpelling
  import opened JsRoundTrip
  import opened CallWalk
  import opened CallJoin
  import opened PowSeed
  import opened PowExtract
  import opened PowMeaning
  import opened Wrappers

  // ---------- a call of strings and numbers, as text and as tokens ----------

  /** The tokens of a call. */
  function CallOf(callee: Token, args: seq<seq<Token>>): seq<Token> {
    [callee, Token(Punct, "(")] + Join(args) + [Token(Punct, ")")]
  }

  /** A string or a number. */
  predicate IsArgument(a: Atom) { ValidAtom(a) && (a.Quoted? || IsNumber(a)) }

  function QuoteOf(s: string): (a: Atom)
    requires IsPlainText(s)
    ensures IsArgument(a)
  {
    Quoted('"', Plains(s))
  }

  function Plains(s: string): (ps: seq<Piece>)
    ensures |ps| == |s| && forall k :: 0 <= k < |s| ==> ps[k] == Plain(s[k])
  {
    seq(|s|, k requires 0 <= k < |s| => Plain(s[k]))
  }

  predicate IsPlainText(s: string) { forall k :: 0 <= k < |s| ==> s[k] != '"' && s[k] != '\\' && s[k] != '\n' }

  lemma {:induction false} PlainsValue(s: string, ps: seq<Piece>)
    requires IsPlainText(s) && ps == Plains(s)
    ensures PiecesValue(ps, '"') == s
    decreases |s|
  {
    if s != "" {
      PlainsValue(s[1..], ps[1..]);
    }
  }

  lemma QuoteIs(s: string)
    requires IsPlainText(s)
    ensures TokenOf(QuoteOf(s)) == Token(Str, s)
  {
    PlainsValue(s, Plains(s));
  }

  function Lone(a: Atom): Word { Word(a, []) }

  /** The arguments with their commas and the closing bracket. */
  function ArgWords(atoms: seq<Atom>): seq<Word>
    requires atoms != []
  {
    if |atoms| == 1 then [Lone(atoms[0]), Lone(Mark(')'))]
    else [Lone(atoms[0]), Lone(Mark(','))] + ArgWords(atoms[1..])
  }

  function ArgTokens(ts: seq<Token>): seq<Token>
    requires ts != []
  {
    if |ts| == 1 then [ts[0], Token(Punct, ")")] else [ts[0], COMMA] + ArgTokens(ts[1..])
  }

  predicate AreArguments(atoms: seq<Atom>) { atoms != [] && forall k :: 0 <= k < |atoms| ==> IsArgument(atoms[k]) }

  function AtomTokens(atoms: seq<Atom>): (ts: seq<Token>)
    requires AreArguments(atoms)
    ensures |ts| == |atoms|
  {
    seq(|atoms|, k requires 0 <= k < |atoms| => TokenOf(atoms[k]))
  }

  lemma TwoWords(v: Word, w: Word, rest: seq<Word>, ws: seq<Word>)
    requires ValidWord(v) && ValidWord(w) && AllValid(rest) && Apart(rest) && ws == [v, w] + rest
    requires !RunsOn(w.atom)
    ensures AllValid(ws) && Apart(ws) && TokensOf(ws) == [TokenOf(v.atom), TokenOf(w.atom)] + TokensOf(rest)
    ensures Written(ws) == WordText(v) + (WordText(w) + Written(rest))
  {
    assert ws[1..] == [w] + rest && ws[1..][1..] == rest;
    assert AllValid(ws[1..]) && Apart(ws[1..]);
  }

  lemma {:induction false} ArgWordsRead(atoms: seq<Atom>)
    requires AreArguments(atoms)
    ensures AllValid(ArgWords(atoms)) && Apart(ArgWords(atoms))
    ensures TokensOf(ArgWords(atoms)) == ArgTokens(AtomTokens(atoms))
    decreases |atoms|
  {
    var head, ws, ts := Lone(atoms[0]), ArgWords(atoms), AtomTokens(atoms);
    if |atoms| == 1 {
      TwoWords(head, Lone(Mark(')')), [], ws);
    } else {
      var rest := atoms[1..];
      ArgWordsRead(rest);
      assert AtomTokens(rest) == ts[1..];
      TwoWords(head, Lone(Mark(',')), ArgWords(rest), ws);
    }
  }

  /** The words of the body: f(...). */
  function CallWords(atoms: seq<Atom>): (ws: seq<Word>)
    requires AreArguments(atoms)
    ensures AllValid(ws) && Apart(ws) && TokensOf(ws) == [CALLEE, Token(Punct, "(")] + ArgTokens(AtomTokens(atoms))
  {
    ArgWordsRead(atoms);
    var f, open := Lone(Name("f")), Lone(Mark('('));
    TwoWords(f, open, ArgWords(atoms), [f, open] + ArgWords(atoms));
    [f, open] + ArgWords(atoms)
  }

  const CALLEE := Token(Ident, "f")

  /** Its text. */
  function CallText(atoms: seq<Atom>): string
    requires AreArguments(atoms)
  {
    ScriptText(Script([], CallWords(atoms)))
  }

  function Singles(ts: seq<Token>): (args: seq<seq<Token>>)
    ensures |args| == |ts| && forall k :: 0 <= k < |ts| ==> args[k] == [ts[k]]
  {
    seq(|ts|, k requires 0 <= k < |ts| => [ts[k]])
  }

  lemma {:induction false} JoinCons(x: seq<Token>, rest: seq<seq<Token>>)
    requires rest != []
    ensures Join([x] + rest) == x + [COMMA] + Join(rest)
    decreases |rest|
  {
    var front, last := rest[..|rest| - 1], rest[|rest| - 1];
    assert rest == front + [last];
    if front == [] {
      JoinSnoc([x], last);
    } else {
      JoinCons(x, front);
      assert [x] + rest == ([x] + front) + [last];
      JoinSnoc([x] + front, last);
      JoinSnoc(front, last);
    }
  }

  lemma {:induction false} ArgTokensJoined(ts: seq<Token>)
    requires ts != []
    ensures ArgTokens(ts) == Join(Singles(ts)) + [Token(Punct, ")")]
    decreases |ts|
  {
    if |ts| > 1 {
      var rest := ts[1..];
      ArgTokensJoined(rest);
      assert Singles(ts) == [[ts[0]]] + Singles(rest);
      JoinCons([ts[0]], Singles(rest));
    }
  }

  lemma CallLexed(atoms: seq<Atom>)
    requires AreArguments(atoms)
    ensures Tokens(Lex(CallText(atoms))) == CallOf(CALLEE, Singles(AtomTokens(atoms)))
  {
    PrintThenLex(Script([], CallWords(atoms)), CallText(atoms));
    ArgTokensJoined(AtomTokens(atoms));
  }
  // ---------- what a body with such a call yields ----------

  predicate IsLone(t: Token) { t.kind == Str || t.kind == Num }

  lemma LoneContained(t: Token)
    requires IsLone(t)
    ensures SelfContained([t])
  {
  }

  predicate AreLone(ts: seq<Token>) { ts != [] && forall k :: 0 <= k < |ts| ==> IsLone(ts[k]) }

  lemma SinglesContained(ts: seq<Token>)
    requires AreLone(ts)
    ensures AllSelfContained(Singles(ts)) && Singles(ts) != [[]]
  {
    forall k | 0 <= k < |ts|
      ensures SelfContained(Singles(ts)[k])
    {
      LoneContained(ts[k]);
    }
    assert Singles(ts)[0] == [ts[0]];
  }

  lemma {:induction false} NoBrackets(toks: seq<Token>, lo: nat, hi: nat)
    requires lo <= hi <= |toks| && forall j :: lo <= j < hi ==> Weight(toks[j]) == 0
    ensures Depth(toks, lo, hi) == 0
    decreases hi
  {
    if lo < hi {
      NoBrackets(toks, lo, hi - 1);
    }
  }

  /** The argument at `x` is the first that is the marker. */
  predicate FirstMark(ts: seq<Token>, x: nat) {
    x < |ts| && Site(ts[x], true) && forall y :: 0 <= y < x ==> !Site(ts[y], true)
  }

  lemma {:induction false} ArgTokenAt(ts: seq<Token>, j: nat)
    requires AreLone(ts) && j < 2 * |ts|
    ensures |ArgTokens(ts)| == 2 * |ts|
    ensures ArgTokens(ts)[j] ==
      if j % 2 == 0 then ts[j / 2] else if j + 1 == 2 * |ts| then Token(Punct, ")") else COMMA
    decreases |ts|
  {
    if |ts| > 1 {
      if j >= 2 {
        ArgTokenAt(ts[1..], j - 2);
      } else {
        ArgTokenAt(ts[1..], 0);
      }
    }
  }

  /** A token of the call before its first marker: no site, and no bracket behind the "(". */
  predicate Quiet(call: seq<Token>, j: nat)
    requires j < |call|
  {
    !Site(call[j], true) && (j >= 2 ==> Weight(call[j]) == 0)
  }

  lemma QuietBefore(ts: seq<Token>, x: nat, call: seq<Token>)
    requires AreLone(ts) && FirstMark(ts, x) && call == [CALLEE, Token(Punct, "(")] + ArgTokens(ts)
    ensures 2 + 2 * x < |call| - 1 && Site(call[2 + 2 * x], true)
    ensures forall j: nat :: j < 2 + 2 * x ==> Quiet(call, j)
  {
    ArgTokenAt(ts, 2 * x);
    forall j: nat | j < 2 + 2 * x
      ensures Quiet(call, j)
    {
      if j >= 2 {
        ArgTokenAt(ts, j - 2);
      }
    }
  }

  lemma MarkEnclosed(ts: seq<Token>, x: nat, call: seq<Token>, m: nat)
    requires AreLone(ts) && FirstMark(ts, x) && call == [CALLEE, Token(Punct, "(")] + ArgTokens(ts) && m == 2 + 2 * x
    ensures m < |call| && CallOpenAt(call, m, 1)
  {
    QuietBefore(ts, x, call);
    forall j | 2 <= j < m
      ensures Weight(call[j]) == 0
    {
      assert Quiet(call, j);
    }
    NoBrackets(call, 2, m);
  }
  lemma CallIs(ts: seq<Token>, call: seq<Token>, fl: FloatReader)
    requires AreLone(ts) && call == CallOf(CALLEE, Singles(ts))
    ensures IsCall(call) && CallShapes(call, fl) == Shapes(Singles(ts), fl)
  {
    SinglesContained(ts);
    CallOfArgs(CALLEE, Singles(ts), fl, call);
  }

  predicate Unmarked(toks: seq<Token>, j: nat)
    requires j < |toks|
  {
    !Site(toks[j], true)
  }

  /** No marker stands before the first one of the call. */
  lemma NothingBefore(toks: seq<Token>, at: nat, ts: seq<Token>, x: nat, call: seq<Token>, m: nat, k: nat,
                      source: string, fl: FloatReader)
    requires AreLone(ts) && FirstMark(ts, x) && call == CallOf(CALLEE, Singles(ts)) && m == 2 + 2 * x
    requires PartAt(toks, at, call) && k == at + m && forall j: nat :: j < at ==> Unmarked(toks, j)
    ensures k < |toks| && Site(toks[k], true) && NoSeedBefore(toks, k, source, true, fl)
  {
    ArgTokensJoined(ts);
    QuietBefore(ts, x, call);
    PartIndex(toks, at, call, m, k);
    forall j: nat | j < k
      ensures NoSeedAt(toks, j, source, true, fl)
    {
      if j < at {
        assert Unmarked(toks, j);
      } else {
        PartIndex(toks, at, call, j - at, j);
        assert Quiet(call, j - at);
      }
    }
  }

  lemma AroundMark(toks: seq<Token>, at: nat, ts: seq<Token>, x: nat, call: seq<Token>, m: nat, k: nat, fl: FloatReader)
    returns (open: nat, close: nat)
    requires AreLone(ts) && FirstMark(ts, x) && call == CallOf(CALLEE, Singles(ts)) && m == 2 + 2 * x
    requires PartAt(toks, at, call) && k == at + m
    ensures CallAround(toks, k, true, open, close)
    ensures Shapes(ArgList(toks, open, close), fl) == Shapes(Singles(ts), fl)
  {
    CallIs(ts, call, fl);
    ArgTokensJoined(ts);
    MarkEnclosed(ts, x, call, m);
    open, close := CallIsLocal(toks, at, call, true, m, k, fl);
  }

  lemma MarkedSeed(toks: seq<Token>, at: nat, ts: seq<Token>, x: nat, call: seq<Token>, m: nat, k: nat, source: string,
                   fl: FloatReader, r: Option<Seed>)
    requires AreLone(ts) && FirstMark(ts, x) && call == CallOf(CALLEE, Singles(ts)) && m == 2 + 2 * x
    requires PartAt(toks, at, call) && k == at + m && r == Classify(Shapes(Singles(ts), fl), true, source)
    ensures SeedAround(toks, k, source, true, fl, r)
  {
    var open, close := AroundMark(toks, at, ts, x, call, m, k, fl);
    SeedAroundIs(toks, k, source, true, fl, open, close, r);
  }

  lemma MarkedFirst(toks: seq<Token>, at: nat, ts: seq<Token>, x: nat, call: seq<Token>, m: nat, k: nat,
                    source: string, fl: FloatReader, r: Option<Seed>)
    requires AreLone(ts) && FirstMark(ts, x) && call == CallOf(CALLEE, Singles(ts)) && m == 2 + 2 * x
    requires PartAt(toks, at, call) && k == at + m && forall j: nat :: j < at ==> Unmarked(toks, j)
    requires r == Classify(Shapes(Singles(ts), fl), true, source)
    ensures k < |toks| && FirstSeedAt(toks, k, source, true, fl, r)
  {
    NothingBefore(toks, at, ts, x, call, m, k, source, fl);
    MarkedSeed(toks, at, ts, x, call, m, k, source, fl, r);
  }

  /** A stream in which a call of strings and numbers stands, with the first marker among
      its arguments, yields what those are classified as, if they are accepted. */
  lemma MarkedYields(toks: seq<Token>, at: nat, ts: seq<Token>, x: nat, call: seq<Token>, source: string,
                     fl: FloatReader, r: Option<Seed>)
    requires AreLone(ts) && FirstMark(ts, x) && call == CallOf(CALLEE, Singles(ts))
    requires PartAt(toks, at, call) && forall j: nat :: j < at ==> Unmarked(toks, j)
    requires r == Classify(Shapes(Singles(ts), fl), true, source) && r.Some?
    ensures PassYields(toks, source, true, fl, r)
  {
    var m := 2 + 2 * x;
    var k := at + m;
    MarkedFirst(toks, at, ts, x, call, m, k, source, fl, r);
  }

  lemma WholePart(toks: seq<Token>)
    ensures PartAt(toks, 0, toks)
  {
  }

  lemma StreamYields(body: string, toks: seq<Token>, source: string, origin: string, fl: FloatReader, r: Option<Seed>)
    requires toks == Tokens(Lex(body)) && source == origin + "/tokenizer-marker"
    requires PassYields(toks, source, true, fl, r) && r.Some?
    ensures BodyYields(body, origin, fl, r)
  {
  }

  /** A body that is one call of strings and numbers, the marker among them, yields what
      its arguments classify as, if they are accepted. */
  lemma CallYields(atoms: seq<Atom>, ts: seq<Token>, x: nat, body: string, source: string, origin: string,
                   fl: FloatReader, r: Option<Seed>)
    requires AreArguments(atoms) && ts == AtomTokens(atoms) && FirstMark(ts, x) && body == CallText(atoms)
    requires source == origin + "/tokenizer-marker" && r == Classify(Shapes(Singles(ts), fl), true, source) && r.Some?
    ensures BodyYields(body, origin, fl, r)
  {
    var call := CallOf(CALLEE, Singles(ts));
    CallLexed(atoms);
    WholePart(call);
    MarkedYields(call, 0, ts, x, call, source, fl, r);
    StreamYields(body, call, source, origin, fl, r);
  }

  // ---------- a seed, hints and levels ----------

  lemma {:induction false} FlatMapEach<A, B>(s: seq<A>, f: A -> seq<B>, r: seq<B>)
    requires |r| == |s| && forall k :: 0 <= k < |s| ==> f(s[k]) == [r[k]]
    ensures FlatMap(s, f) == r
  {
    if s != [] {
      var n := |s| - 1;
      FlatMapEach(s[..n], f, r[..n]);
      assert r == r[..n] + [r[n]];
    }
  }

  lemma {:induction false} FlatMapNone<A, B>(s: seq<A>, f: A -> seq<B>)
    requires forall k :: 0 <= k < |s| ==> f(s[k]) == []
    ensures FlatMap(s, f) == []
  {
    if s != [] {
      FlatMapNone(s[..|s| - 1], f);
    }
  }

  predicate IsLowerText(s: string) { forall k :: 0 <= k < |s| ==> 'a' <= s[k] <= 'z' || s[k] == '_' }

  lemma {:induction false} LowerKept(s: string)
    requires IsLowerText(s)
    ensures Lower(s) == s
  {
    if s != "" {
      LowerKept(s[1..]);
    }
  }

  lemma HintedBy(s: string, k: nat, word: string)
    requires IsLowerText(s) && WordAt(s, k, word) && (word == "pow" || word == "timeout" || word == "seed")
    ensures Hinted(s)
  {
    LowerKept(s);
  }

  lemma NotContained(s: string, word: string)
    requires word != "" && word[0] !in s
    ensures !Contains(s, word)
  {
    forall k | 0 <= k <= |s|
      ensures !WordAt(s, k, word)
    {
    }
  }

  /** A string that can be the seed, and one that is a hint. */
  predicate IsSeedText(p: string) { CandidateOf(p) == [p] && HintOf(p) == [] }

  predicate IsHintText(h: string) { CandidateOf(h) == [] && HintOf(h) == [h] }

  lemma PlainSeed(p: string)
    requires IsLowerText(p) && 6 <= |p| <= 64 && 'p' !in p && 't' !in p && 's' !in p
    ensures IsSeedText(p)
  {
    LowerKept(p);
    NotContained(p, "pow");
    NotContained(p, "timeout");
    NotContained(p, "seed");
  }

  /** The classification by what the shapes offer. */
  lemma ClassifiedBy(s: seq<Shape>, p: string, hints: seq<string>, levels: seq<int>, source: string)
    requires 3 <= |s| <= 6 && NoneOther(s) && Arrays(s) == [] && Levels(s) == levels != []
    requires Candidates(s) == [p] && Hints(s) == hints != []
    ensures Classify(s, true, source) == Some(Seed(p, levels[0], hints[0], source))
  {
  }

  function AsTexts(texts: seq<string>): (s: seq<Shape>)
    ensures |s| == |texts| && forall k :: 0 <= k < |s| ==> s[k] == Text(texts[k])
  {
    seq(|texts|, k requires 0 <= k < |texts| => Text(texts[k]))
  }

  function AsLevels(levels: seq<int>): (s: seq<Shape>)
    ensures |s| == |levels| && forall k :: 0 <= k < |s| ==> s[k] == Level(levels[k])
  {
    seq(|levels|, k requires 0 <= k < |levels| => Level(levels[k]))
  }

  predicate AreLevels(levels: seq<int>) { levels != [] && forall k :: 0 <= k < |levels| ==> 1 <= levels[k] <= 16 }

  predicate AreHints(hints: seq<string>) { hints != [] && forall k :: 0 <= k < |hints| ==> IsHintText(hints[k]) }

  lemma TextsSortedOut(a: seq<Shape>, b: seq<Shape>, texts: seq<string>, levels: seq<int>)
    requires a == AsTexts(texts) && b == AsLevels(levels)
    ensures Texts(a + b) == texts
  {
    FlatMapConcat(a, b, TextOf);
    FlatMapEach(a, TextOf, texts);
    FlatMapNone(b, TextOf);
  }

  lemma LevelsSortedOut(a: seq<Shape>, b: seq<Shape>, texts: seq<string>, levels: seq<int>)
    requires a == AsTexts(texts) && b == AsLevels(levels) && AreLevels(levels)
    ensures Levels(a + b) == levels
  {
    FlatMapConcat(a, b, LevelsOf);
    FlatMapNone(a, LevelsOf);
    FlatMapEach(b, LevelsOf, levels);
  }

  lemma NothingElse(s: seq<Shape>)
    requires forall k :: 0 <= k < |s| ==> s[k].Text? || s[k].Level?
    ensures Arrays(s) == [] && NoneOther(s)
  {
    FlatMapNone(s, ArrayOf);
  }

  lemma SeedAndHints(p: string, hints: seq<string>, texts: seq<string>)
    requires IsSeedText(p) && AreHints(hints) && texts == [p] + hints
    ensures FlatMap(texts, CandidateOf) == [p] && FlatMap(texts, HintOf) == hints
  {
    FlatMapConcat([p], hints, CandidateOf);
    FlatMapConcat([p], hints, HintOf);
    FlatMapEach([p], CandidateOf, [p]);
    FlatMapNone([p], HintOf);
    FlatMapNone(hints, CandidateOf);
    FlatMapEach(hints, HintOf, hints);
  }

  /** A seed, then hints, then levels: the first of each counts. */
  lemma ShapesClassified(p: string, hints: seq<string>, levels: seq<int>, s: seq<Shape>, source: string)
    requires IsSeedText(p) && AreHints(hints) && AreLevels(levels) && |hints| + |levels| <= 5
    requires s == AsTexts([p] + hints) + AsLevels(levels)
    ensures Classify(s, true, source) == Some(Seed(p, levels[0], hints[0], source))
  {
    var texts := [p] + hints;
    TextsSortedOut(AsTexts(texts), AsLevels(levels), texts, levels);
    LevelsSortedOut(AsTexts(texts), AsLevels(levels), texts, levels);
    NothingElse(s);
    SeedAndHints(p, hints, texts);
    ClassifiedBy(s, p, hints, levels, source);
  }

  // ---------- as atoms ----------

  predicate ArePlain(texts: seq<string>) { forall k :: 0 <= k < |texts| ==> IsPlainText(texts[k]) }

  function Quotes(texts: seq<string>): (atoms: seq<Atom>)
    requires ArePlain(texts)
    ensures |atoms| == |texts| && forall k :: 0 <= k < |atoms| ==> atoms[k] == QuoteOf(texts[k])
  {
    seq(|texts|, k requires 0 <= k < |texts| => QuoteOf(texts[k]))
  }

  /** A number in any spelling for each level. */
  predicate Spell(numbers: seq<Atom>, levels: seq<int>) {
    |numbers| == |levels| && forall k :: 0 <= k < |numbers| ==> Spells(numbers[k], levels[k])
  }

  predicate Spells(a: Atom, level: int) { ValidAtom(a) && IsNumber(a) && NumberOf(a) == Some(level) }

  /** The arguments of a call: texts, then numbers. */
  function ArgAtoms(texts: seq<string>, numbers: seq<Atom>): (atoms: seq<Atom>)
    requires ArePlain(texts) && texts != []
  {
    Quotes(texts) + numbers
  }

  lemma LevelIs(a: Atom, level: int, fl: FloatReader)
    requires Spells(a, level) && 1 <= level <= 16
    ensures IsArgument(a) && IsLone(TokenOf(a)) && ShapeOf([TokenOf(a)], fl) == Level(level)
  {
    NumberMeans(a, fl);
  }

  lemma TextIs(s: string, fl: FloatReader)
    requires IsPlainText(s)
    ensures TokenOf(QuoteOf(s)) == Token(Str, s) && ShapeOf([Token(Str, s)], fl) == Text(s)
  {
    QuoteIs(s);
  }

  lemma ArgShapes(texts: seq<string>, numbers: seq<Atom>, levels: seq<int>, atoms: seq<Atom>, fl: FloatReader)
    requires ArePlain(texts) && texts != [] && Spell(numbers, levels) && AreLevels(levels)
    requires atoms == ArgAtoms(texts, numbers)
    ensures AreArguments(atoms) && AreLone(AtomTokens(atoms))
    ensures forall k :: 0 <= k < |texts| ==> AtomTokens(atoms)[k] == Token(Str, texts[k])
    ensures Shapes(Singles(AtomTokens(atoms)), fl) == AsTexts(texts) + AsLevels(levels)
  {
    var n := |texts|;
    forall k | 0 <= k < |atoms|
      ensures IsArgument(atoms[k]) && IsLone(TokenOf(atoms[k]))
      ensures k < n ==> TokenOf(atoms[k]) == Token(Str, texts[k])
      ensures ShapeOf([TokenOf(atoms[k])], fl) == (AsTexts(texts) + AsLevels(levels))[k]
    {
      if k < n {
        TextIs(texts[k], fl);
      } else {
        assert Spells(numbers[k - n], levels[k - n]);
        LevelIs(numbers[k - n], levels[k - n], fl);
      }
    }
  }

  lemma FirstMarker(p: string, hints: seq<string>, ts: seq<Token>) returns (x: nat)
    requires IsSeedText(p) && AreHints(hints) && MARKER in hints && |ts| > |hints| && ts[0] == Token(Str, p)
    requires forall k :: 0 <= k < |hints| ==> ts[k + 1] == Token(Str, hints[k])
    ensures FirstMark(ts, x)
  {
    var i :| 0 <= i < |hints| && hints[i] == MARKER;
    assert p != MARKER && ts[i + 1] == Token(Str, MARKER);
    x := LeastMark(ts, i + 1);
  }

  lemma {:induction false} LeastMark(ts: seq<Token>, i: nat) returns (x: nat)
    requires i < |ts| && Site(ts[i], true)
    ensures FirstMark(ts, x)
    decreases i
  {
    if y :| 0 <= y < i && Site(ts[y], true) {
      x := LeastMark(ts, y);
    } else {
      x := i;
    }
  }

  lemma MarkerAmong(p: string, hints: seq<string>, texts: seq<string>, ts: seq<Token>) returns (x: nat)
    requires IsSeedText(p) && AreHints(hints) && MARKER in hints && texts == [p] + hints && |texts| <= |ts|
    requires forall k :: 0 <= k < |texts| ==> ts[k] == Token(Str, texts[k])
    ensures FirstMark(ts, x)
  {
    assert texts[0] == p && forall k :: 0 <= k < |hints| ==> texts[k + 1] == hints[k];
    x := FirstMarker(p, hints, ts);
  }

  /** What the call f("p", "h1", ..., x1, ...) of a seed, hints and levels classifies as,
      and where its first marker is. */
  lemma ArgsClassified(p: string, hints: seq<string>, numbers: seq<Atom>, levels: seq<int>, texts: seq<string>,
                       atoms: seq<Atom>, source: string, fl: FloatReader)
    returns (ts: seq<Token>, x: nat)
    requires IsSeedText(p) && AreHints(hints) && MARKER in hints && texts == [p] + hints && ArePlain(texts)
    requires Spell(numbers, levels) && AreLevels(levels) && |hints| + |levels| <= 5
    requires atoms == ArgAtoms(texts, numbers)
    ensures AreArguments(atoms) && ts == AtomTokens(atoms) && AreLone(ts) && FirstMark(ts, x)
    ensures Classify(Shapes(Singles(ts), fl), true, source) == Some(Seed(p, levels[0], hints[0], source))
  {
    ArgShapes(texts, numbers, levels, atoms, fl);
    ts := AtomTokens(atoms);
    x := MarkerAmong(p, hints, texts, ts);
    ShapesClassified(p, hints, levels, Shapes(Singles(ts), fl), source);
  }

  /** A body that is such a call yields the seed, the first level and the first hint. */
  lemma ArgsYield(p: string, hints: seq<string>, numbers: seq<Atom>, levels: seq<int>, texts: seq<string>,
                  atoms: seq<Atom>, body: string, source: string, origin: string, fl: FloatReader)
    requires IsSeedText(p) && AreHints(hints) && MARKER in hints && texts == [p] + hints && ArePlain(texts)
    requires Spell(numbers, levels) && AreLevels(levels) && |hints| + |levels| <= 5
    requires atoms == ArgAtoms(texts, numbers) && AreArguments(atoms) && body == CallText(atoms)
    requires source == origin + "/tokenizer-marker"
    ensures BodyYields(body, origin, fl, Some(Seed(p, levels[0], hints[0], source)))
  {
    var ts, x := ArgsClassified(p, hints, numbers, levels, texts, atoms, source, fl);
    CallYields(atoms, ts, x, body, source, origin, fl, Some(Seed(p, levels[0], hints[0], source)));
  }
}
