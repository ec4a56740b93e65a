/** Which argument lists are recognised as the seed call, argument by argument
    (client/captcha_pow.go). */
module PowAccepted {
  import opened JsLexer
  import opened JsNumber
  import opened PowSeed
  import opened Wrappers

  // ---------- one argument ----------

  predicate IsText(arg: seq<Token>) {
    |arg| == 1 && (arg[0].kind == Str || (arg[0].kind == Template && arg[0].val != ""))
  }

  predicate IsNumeral(arg: seq<Token>) { |arg| == 1 && arg[0].kind == Num }

  predicate IsArray(arg: seq<Token>) {
    |arg| >= 2 && arg[0] == Token(Punct, "[") && arg[|arg| - 1] == Token(Punct, "]")
  }

  /** A number from 1 to 16. */
  predicate IsLevel(arg: seq<Token>, fl: FloatReader) {
    IsNumeral(arg) && ParseJSNumber(arg[0].val, fl).Some? && 1 <= ParseJSNumber(arg[0].val, fl).value <= 16
  }

  /** A string of 6 to 64 letters, digits, underscores and hyphens without a hint. */
  predicate IsSeed(arg: seq<Token>) {
    IsText(arg) && 6 <= |arg[0].val| <= 64 && !Hinted(arg[0].val) && forall k :: 0 <= k < |arg[0].val| ==>
      'a' <= arg[0].val[k] <= 'z' || 'A' <= arg[0].val[k] <= 'Z' || '0' <= arg[0].val[k] <= '9'
      || arg[0].val[k] == '_' || arg[0].val[k] == '-'
  }

  predicate IsHint(arg: seq<Token>) { IsText(arg) && Hinted(arg[0].val) }

  predicate IsKnown(t: Token) {
    (t.kind == Str || (t.kind == Template && t.val != "")) && t.val in KNOWN_COMPONENTS
  }

  // ---------- counting ----------

  function Count<A>(s: seq<A>, p: A -> bool): (n: nat)
    ensures n <= |s|
  {
    if s == [] then 0 else Count(s[..|s| - 1], p) + if p(s[|s| - 1]) then 1 else 0
  }

  /** The first element of a kind, if there is one. */
  function FirstOf<A>(s: seq<A>, p: A -> bool): (k: nat)
    ensures k <= |s| && (k < |s| ==> p(s[k])) && forall j :: 0 <= j < k ==> !p(s[j])
    decreases |s|
  {
    if s == [] || p(s[0]) then 0 else FirstOf(s[1..], p) + 1
  }

  lemma {:induction false} CountJoined<A>(a: seq<A>, b: seq<A>, p: A -> bool)
    ensures Count(a + b, p) == Count(a, p) + Count(b, p)
  {
    if b == [] {
      assert a + b == a;
    } else {
      CountJoined(a, b[..|b| - 1], p);
      assert (a + b)[..|a + b| - 1] == a + b[..|b| - 1];
    }
  }

  lemma {:induction false} CountAll<A>(s: seq<A>, p: A -> bool)
    ensures Count(s, p) == |s| <==> forall k :: 0 <= k < |s| ==> p(s[k])
    ensures Count(s, p) == 0 <==> forall k :: 0 <= k < |s| ==> !p(s[k])
  {
    if s != [] {
      CountAll(s[..|s| - 1], p);
    }
  }

  /** A pass over one list that picks something out of each element of a kind collects
      as many things as there are such elements. */
  lemma {:induction false} Collected<A, B>(s: seq<A>, f: A -> seq<B>, p: A -> bool)
    requires forall x :: |f(x)| == if p(x) then 1 else 0
    ensures |FlatMap(s, f)| == Count(s, p)
  {
    if s != [] {
      Collected(s[..|s| - 1], f, p);
    }
  }

  /** Picking in two passes is picking in one. */
  lemma {:induction false} TwoPasses<A, B, C>(s: seq<A>, f: A -> seq<B>, g: B -> seq<C>, h: A -> seq<C>)
    requires forall x :: h(x) == FlatMap(f(x), g)
    ensures FlatMap(FlatMap(s, f), g) == FlatMap(s, h)
  {
    if s != [] {
      var front, last := s[..|s| - 1], s[|s| - 1];
      TwoPasses(front, f, g, h);
      FlatMapConcat(FlatMap(front, f), f(last), g);
    }
  }

  /** The first thing collected comes from the first such element. */
  lemma {:induction false} CollectedFirst<A, B>(s: seq<A>, f: A -> seq<B>, p: A -> bool)
    requires forall x :: |f(x)| == if p(x) then 1 else 0
    ensures var k := FirstOf(s, p); k < |s| ==> FlatMap(s, f) != [] && FlatMap(s, f)[0] == f(s[k])[0]
    ensures FirstOf(s, p) == |s| ==> FlatMap(s, f) == []
    decreases |s|
  {
    if s != [] {
      assert s == [s[0]] + s[1..];
      FlatMapConcat([s[0]], s[1..], f);
      assert [s[0]][..0] == [] && FlatMap([s[0]], f) == f(s[0]);
      if !p(s[0]) {
        CollectedFirst(s[1..], f, p);
      }
    }
  }

  // ---------- the passes of the code, argument by argument ----------

  lemma {:induction false} ShapesFused<B>(args: seq<seq<Token>>, fl: FloatReader, f: Shape -> seq<B>,
                                          h: seq<Token> -> seq<B>)
    requires forall arg :: h(arg) == f(ShapeOf(arg, fl))
    ensures FlatMap(Shapes(args, fl), f) == FlatMap(args, h)
  {
    if args != [] {
      var front := args[..|args| - 1];
      ShapesFused(front, fl, f, h);
      assert Shapes(args, fl)[..|front|] == Shapes(front, fl);
    }
  }

  function LevelAt(arg: seq<Token>, fl: FloatReader): seq<int> { LevelsOf(ShapeOf(arg, fl)) }

  function ArrayAt(arg: seq<Token>, fl: FloatReader): seq<seq<string>> { ArrayOf(ShapeOf(arg, fl)) }

  function SeedAt(arg: seq<Token>): seq<string> { if IsSeed(arg) then [arg[0].val] else [] }

  function HintAt(arg: seq<Token>): seq<string> { if IsHint(arg) then [arg[0].val] else [] }

  function KnownAt(t: Token): seq<string> { if IsKnown(t) then [t.val] else [] }

  function IsLevelBy(fl: FloatReader): seq<Token> -> bool { arg => IsLevel(arg, fl) }

  lemma LevelsCounted(args: seq<seq<Token>>, fl: FloatReader)
    ensures |Levels(Shapes(args, fl))| == Count(args, IsLevelBy(fl))
    ensures var k := FirstOf(args, IsLevelBy(fl));
      First(Levels(Shapes(args, fl)), 0) == if k < |args| then ParseJSNumber(args[k][0].val, fl).value else 0
  {
    var h: seq<Token> -> seq<int> := arg => LevelAt(arg, fl);
    ShapesFused(args, fl, LevelsOf, h);
    Collected(args, h, IsLevelBy(fl));
    CollectedFirst(args, h, IsLevelBy(fl));
  }

  lemma ArraysCounted(args: seq<seq<Token>>, fl: FloatReader)
    ensures |Arrays(Shapes(args, fl))| == Count(args, IsArray)
    ensures var k := FirstOf(args, IsArray);
      k < |args| ==> Arrays(Shapes(args, fl)) != [] && [Arrays(Shapes(args, fl))[0]] == ArrayAt(args[k], fl)
  {
    var h: seq<Token> -> seq<seq<string>> := arg => ArrayAt(arg, fl);
    ShapesFused(args, fl, ArrayOf, h);
    Collected(args, h, IsArray);
    CollectedFirst(args, h, IsArray);
  }

  lemma OnePass<A, B>(x: A, f: A -> seq<B>)
    ensures FlatMap([x], f) == f(x)
  {
    assert [x][..0] == [];
  }

  lemma SeedOfText(arg: seq<Token>, fl: FloatReader)
    ensures SeedAt(arg) == FlatMap(TextOf(ShapeOf(arg, fl)), CandidateOf)
    ensures HintAt(arg) == FlatMap(TextOf(ShapeOf(arg, fl)), HintOf)
  {
    if IsText(arg) {
      OnePass(arg[0].val, CandidateOf);
      OnePass(arg[0].val, HintOf);
    }
  }

  lemma TextsPicked(args: seq<seq<Token>>, fl: FloatReader, g: string -> seq<string>, h: seq<Token> -> seq<string>)
    requires forall arg :: h(arg) == FlatMap(TextOf(ShapeOf(arg, fl)), g)
    ensures FlatMap(Texts(Shapes(args, fl)), g) == FlatMap(args, h)
  {
    var texts: seq<Token> -> seq<string> := arg => TextOf(ShapeOf(arg, fl));
    ShapesFused(args, fl, TextOf, texts);
    TwoPasses(args, texts, g, h);
  }

  lemma SeedsCounted(args: seq<seq<Token>>, fl: FloatReader)
    ensures |Candidates(Shapes(args, fl))| == Count(args, IsSeed)
    ensures var k := FirstOf(args, IsSeed);
      k < |args| ==> Candidates(Shapes(args, fl)) != [] && Candidates(Shapes(args, fl))[0] == args[k][0].val
  {
    forall arg
      ensures SeedAt(arg) == FlatMap(TextOf(ShapeOf(arg, fl)), CandidateOf)
    {
      SeedOfText(arg, fl);
    }
    TextsPicked(args, fl, CandidateOf, SeedAt);
    Collected(args, SeedAt, IsSeed);
    CollectedFirst(args, SeedAt, IsSeed);
  }

  lemma HintsCounted(args: seq<seq<Token>>, fl: FloatReader)
    ensures var k := FirstOf(args, IsHint);
      First(Hints(Shapes(args, fl)), "") == if k < |args| then args[k][0].val else ""
  {
    forall arg
      ensures HintAt(arg) == FlatMap(TextOf(ShapeOf(arg, fl)), HintOf)
    {
      SeedOfText(arg, fl);
    }
    TextsPicked(args, fl, HintOf, HintAt);
    CollectedFirst(args, HintAt, IsHint);
  }

  lemma KnownOfText(t: Token)
    ensures KnownAt(t) == FlatMap(TextItem(t), KnownOf)
  {
    if IsTextual(t) {
      OnePass(t.val, KnownOf);
    }
  }

  lemma CountOne<A>(x: A, p: A -> bool)
    ensures Count([x], p) == if p(x) then 1 else 0
  {
    assert [x][..0] == [] && Count([x][..0], p) == 0;
  }

  lemma InnerCounted(inner: seq<Token>)
    ensures |FlatMap(FlatMap(inner, TextItem), KnownOf)| == Count(inner, IsKnown)
  {
    forall t
      ensures KnownAt(t) == FlatMap(TextItem(t), KnownOf)
    {
      KnownOfText(t);
    }
    TwoPasses(inner, TextItem, KnownOf, KnownAt);
    Collected(inner, KnownAt, IsKnown);
  }

  lemma CountBetween<A>(first: A, inner: seq<A>, last: A, p: A -> bool)
    requires !p(first) && !p(last)
    ensures Count([first] + inner + [last], p) == Count(inner, p)
  {
    CountJoined([first], inner, p);
    CountJoined([first] + inner, [last], p);
    CountOne(first, p);
    CountOne(last, p);
  }

  /** The brackets of an array name no component. */
  lemma KnownCounted(arg: seq<Token>)
    requires IsArray(arg)
    ensures |FlatMap(FlatMap(arg[1..|arg| - 1], TextItem), KnownOf)| == Count(arg, IsKnown)
  {
    var inner, last := arg[1..|arg| - 1], arg[|arg| - 1];
    InnerCounted(inner);
    CountBetween(arg[0], inner, last, IsKnown);
    assert arg == [arg[0]] + inner + [last];
  }

  lemma PlainAll(args: seq<seq<Token>>, fl: FloatReader)
    ensures NoneOther(Shapes(args, fl)) <==>
      forall k :: 0 <= k < |args| ==> IsText(args[k]) || IsNumeral(args[k]) || IsArray(args[k])
  {
    var shapes := Shapes(args, fl);
    if NoneOther(shapes) {
      forall k | 0 <= k < |args|
        ensures IsText(args[k]) || IsNumeral(args[k]) || IsArray(args[k])
      {
        assert !shapes[k].Other?;
      }
    }
  }

  // ---------- the calls that are recognised ----------

  /** Three to six strings, numbers and at most one array, one of the strings able to be the
      seed; near a marker with a number from 1 to 16, otherwise with an array that names
      four components. */
  predicate IsSeedCall(args: seq<seq<Token>>, markerMode: bool, fl: FloatReader) {
    && 3 <= |args| <= 6
    && (forall k :: 0 <= k < |args| ==> IsText(args[k]) || IsNumeral(args[k]) || IsArray(args[k]))
    && Count(args, IsArray) <= 1 && Count(args, IsSeed) == 1
    && if markerMode then exists k :: 0 <= k < |args| && IsLevel(args[k], fl)
       else exists k :: 0 <= k < |args| && IsArray(args[k]) && Count(args[k], IsKnown) >= 4
  }

  lemma NamesInFirst(args: seq<seq<Token>>, fl: FloatReader, k: nat)
    requires k == FirstOf(args, IsArray) < |args|
    ensures Arrays(Shapes(args, fl)) != []
    ensures |FlatMap(Arrays(Shapes(args, fl))[0], KnownOf)| == Count(args[k], IsKnown)
  {
    ArraysCounted(args, fl);
    KnownCounted(args[k]);
  }

  lemma ArrayNames(args: seq<seq<Token>>, fl: FloatReader)
    requires Count(args, IsArray) <= 1
    ensures (|Arrays(Shapes(args, fl))| == 1 && |FlatMap(Arrays(Shapes(args, fl))[0], KnownOf)| >= 4) <==>
      exists k :: 0 <= k < |args| && IsArray(args[k]) && Count(args[k], IsKnown) >= 4
  {
    ArraysCounted(args, fl);
    CountAll(args, IsArray);
    var k := FirstOf(args, IsArray);
    if k < |args| {
      NamesInFirst(args, fl, k);
      forall j | 0 <= j < |args| && IsArray(args[j])
        ensures j == k
      {
        if k < j {
          TwoCounted(args, IsArray, k, j);
        }
      }
    }
  }

  lemma TwoCounted<A>(s: seq<A>, p: A -> bool, k: nat, j: nat)
    requires k < j < |s| && p(s[k]) && p(s[j])
    ensures Count(s, p) >= 2
  {
    assert s == s[..j] + s[j..] && s[..j][k] == s[k] && s[j..][0] == s[j];
    CountJoined(s[..j], s[j..], p);
    CountAll(s[..j], p);
    CountAll(s[j..], p);
  }

  /** A call is recognised exactly if it is a seed call. */
  lemma RecognisedIff(args: seq<seq<Token>>, markerMode: bool, source: string, fl: FloatReader)
    ensures Classify(Shapes(args, fl), markerMode, source).Some? <==> IsSeedCall(args, markerMode, fl)
  {
    LevelsCounted(args, fl);
    ArraysCounted(args, fl);
    SeedsCounted(args, fl);
    PlainAll(args, fl);
    CountAll(args, IsLevelBy(fl));
    if Count(args, IsArray) <= 1 {
      ArrayNames(args, fl);
    }
  }

  /** Then the seed is the string that can be it, the difficulty the first number from 1 to
      16, or none, and the marker the first hint, or none. */
  lemma RecognisedSeed(args: seq<seq<Token>>, markerMode: bool, source: string, fl: FloatReader)
    requires IsSeedCall(args, markerMode, fl)
    ensures var seed, level, hint := FirstOf(args, IsSeed), FirstOf(args, IsLevelBy(fl)), FirstOf(args, IsHint);
      && seed < |args|
      && Classify(Shapes(args, fl), markerMode, source) ==
         Some(Seed(args[seed][0].val, if level < |args| then ParseJSNumber(args[level][0].val, fl).value else 0,
                   if hint < |args| then args[hint][0].val else "", source))
  {
    RecognisedIff(args, markerMode, source, fl);
    LevelsCounted(args, fl);
    SeedsCounted(args, fl);
    HintsCounted(args, fl);
    CountAll(args, IsSeed);
  }

  // ---------- hints ----------

  /** The letter `d`, or its capital. */
  predicate SameLetter(c: char, d: char) { c == d || ('A' <= c <= 'Z' && c as int + 32 == d as int) }

  predicate SpelledAt(s: string, k: nat, word: string) {
    k + |word| <= |s| && forall j :: 0 <= j < |word| ==> SameLetter(s[k + j], word[j])
  }

  lemma {:induction false} LowerByChar(s: string)
    requires '\U{C4}' !in s
    ensures |Lower(s)| == |s| && forall k :: 0 <= k < |s| ==> Lower(s)[k] == LowerChar(s[k])
    decreases |s|
  {
    if s != "" {
      LowerByChar(s[1..]);
    }
  }

  predicate IsLowerCase(word: string) { forall j :: 0 <= j < |word| ==> 'a' <= word[j] <= 'z' }

  lemma SpelledIff(s: string, k: nat, word: string)
    requires '\U{C4}' !in s && IsLowerCase(word)
    ensures WordAt(Lower(s), k, word) <==> SpelledAt(s, k, word)
  {
    LowerByChar(s);
    if k + |word| <= |s| {
      var part := Lower(s)[k..k + |word|];
      assert forall j :: 0 <= j < |word| ==> (part[j] == word[j] <==> SameLetter(s[k + j], word[j]));
    }
  }

  lemma ContainsIff(s: string, word: string)
    requires '\U{C4}' !in s && IsLowerCase(word)
    ensures Contains(Lower(s), word) <==> exists k: nat :: SpelledAt(s, k, word)
  {
    LowerByChar(s);
    if Contains(Lower(s), word) {
      var k :| 0 <= k <= |Lower(s)| && WordAt(Lower(s), k, word);
      SpelledIff(s, k, word);
    }
    if k: nat :| SpelledAt(s, k, word) {
      SpelledIff(s, k, word);
    }
  }

  /** Unless it holds the first byte of U+0130, a string is a hint exactly if one of three
      words stands in it, in any mixture of capitals and small letters. */
  lemma HintedIff(s: string)
    requires '\U{C4}' !in s
    ensures Hinted(s) <==>
      || (exists k: nat :: SpelledAt(s, k, "pow"))
      || (exists k: nat :: SpelledAt(s, k, "timeout"))
      || (exists k: nat :: SpelledAt(s, k, "seed"))
  {
    ContainsIff(s, "pow");
    ContainsIff(s, "timeout");
    ContainsIff(s, "seed");
  }
}
