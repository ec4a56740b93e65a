/** The search for the seed over whole script bodies, and what it does not
    depend on: the order of a call's arguments (client/captcha_pow.go). */
module PowExtract {
  import opened JsLexer
  import opened JsNumber
  import opened CallWalk
  import opened PowSeed
  import opened Wrappers

  /** Where a pass looks: at the marker's string, or at every "(". */
  predicate Site(t: Token, markerMode: bool) {
    if markerMode then IsTextual(t) && t.val == MARKER else IsPunct(t, "(")
  }

  ghost predicate NoSeedAt(toks: seq<Token>, j: nat, source: string, markerMode: bool, fl: FloatReader)
    requires j < |toks|
  {
    Site(toks[j], markerMode) ==> SeedAround(toks, j, source, markerMode, fl, None)
  }

  ghost predicate NoSeedBefore(toks: seq<Token>, k: nat, source: string, markerMode: bool, fl: FloatReader)
    requires k <= |toks|
  {
    forall j: nat :: j < k ==> NoSeedAt(toks, j, source, markerMode, fl)
  }

  /** `r` is the seed of the first site that yields one. */
  ghost predicate PassYields(toks: seq<Token>, source: string, markerMode: bool, fl: FloatReader, r: Option<Seed>) {
    if r.None? then NoSeedBefore(toks, |toks|, source, markerMode, fl)
    else exists k: nat :: k < |toks| && FirstSeedAt(toks, k, source, markerMode, fl, r)
  }

  ghost predicate FirstSeedAt(toks: seq<Token>, k: nat, source: string, markerMode: bool, fl: FloatReader,
                              r: Option<Seed>)
    requires k < |toks|
  {
    && Site(toks[k], markerMode)
    && SeedAround(toks, k, source, markerMode, fl, r)
    && NoSeedBefore(toks, k, source, markerMode, fl)
  }

  /** The seed of the call at token `k`, if `k` is a site at all. */
  method ReadSite(toks: seq<Token>, k: nat, source: string, markerMode: bool, fl: FloatReader) returns (r: Option<Seed>)
    requires k < |toks|
    ensures r.Some? ==> Site(toks[k], markerMode) && SeedAround(toks, k, source, markerMode, fl, r)
    ensures r.None? ==> NoSeedAt(toks, k, source, markerMode, fl)
  {
    if !Site(toks[k], markerMode) {
      return None;
    }
    r := ClassifyCallAround(toks, k, source, markerMode, fl);
  }

  lemma NoSeedExtends(toks: seq<Token>, k: nat, source: string, markerMode: bool, fl: FloatReader)
    requires k < |toks| && NoSeedBefore(toks, k, source, markerMode, fl) && NoSeedAt(toks, k, source, markerMode, fl)
    ensures NoSeedBefore(toks, k + 1, source, markerMode, fl)
  {
    forall j: nat | j < k + 1
      ensures NoSeedAt(toks, j, source, markerMode, fl)
    {
    }
  }

  method Pass(toks: seq<Token>, source: string, markerMode: bool, fl: FloatReader) returns (r: Option<Seed>)
    ensures PassYields(toks, source, markerMode, fl, r)
  {
    for k := 0 to |toks|
      invariant NoSeedBefore(toks, k, source, markerMode, fl)
    {
      r := ReadSite(toks, k, source, markerMode, fl);
      if r.Some? {
        assert FirstSeedAt(toks, k, source, markerMode, fl, r);
        return r;
      }
      NoSeedExtends(toks, k, source, markerMode, fl);
    }
    return None;
  }

  /** The marker's pass decides; failing that, the structural one. */
  ghost predicate BodyYields(body: string, origin: string, fl: FloatReader, r: Option<Seed>) {
    var toks := Tokens(Lex(body));
    || (r.Some? && PassYields(toks, origin + "/tokenizer-marker", true, fl, r))
    || (PassYields(toks, origin + "/tokenizer-marker", true, fl, None)
        && PassYields(toks, origin + "/tokenizer-structure", false, fl, r))
  }

  method ReadBody(body: string, origin: string, fl: FloatReader) returns (r: Option<Seed>)
    ensures BodyYields(body, origin, fl, r)
  {
    var lexemes := LexJS(body);
    var toks := Tokens(lexemes);
    r := Pass(toks, origin + "/tokenizer-marker", true, fl);
    if r.None? {
      r := Pass(toks, origin + "/tokenizer-structure", false, fl);
    }
  }

  ghost predicate NoSeedIn(bodies: seq<string>, origin: string, fl: FloatReader) {
    bodies == [] || (NoSeedIn(bodies[..|bodies| - 1], origin, fl) && BodyYields(bodies[|bodies| - 1], origin, fl, None))
  }

  /** `r` is the seed of the first body that yields one. */
  ghost predicate BodiesYield(bodies: seq<string>, origin: string, fl: FloatReader, r: Option<Seed>) {
    if r.None? then NoSeedIn(bodies, origin, fl)
    else exists i :: 0 <= i < |bodies| && BodyYields(bodies[i], origin, fl, r) && NoSeedIn(bodies[..i], origin, fl)
  }

  method ExtractPowFromBodies(bodies: seq<string>, origin: string, fl: FloatReader) returns (r: Option<Seed>)
    ensures BodiesYield(bodies, origin, fl, r)
  {
    for i := 0 to |bodies|
      invariant NoSeedIn(bodies[..i], origin, fl)
    {
      r := ReadBody(bodies[i], origin, fl);
      if r.Some? {
        assert BodyYields(bodies[i], origin, fl, r) && NoSeedIn(bodies[..i], origin, fl);
        return r;
      }
      assert bodies[..i + 1][..i] == bodies[..i];
    }
    assert bodies[..|bodies|] == bodies;
    return None;
  }

  lemma PassSeed(toks: seq<Token>, source: string, markerMode: bool, fl: FloatReader, r: Option<Seed>)
      returns (open: nat, close: nat)
    requires PassYields(toks, source, markerMode, fl, r) && r.Some?
    ensures ClosesAt(toks, open, close)
    ensures r == ClassifyList(toks, open, close, source, markerMode, fl)
  {
    var k: nat :| k < |toks| && FirstSeedAt(toks, k, source, markerMode, fl, r);
    open, close :| CallAround(toks, k, markerMode, open, close);
  }

  /** Whatever is extracted is the only argument of some call in some body that
      has the shape of a seed and no hint in it. */
  lemma ExtractedSeed(bodies: seq<string>, origin: string, fl: FloatReader, r: Option<Seed>)
      returns (i: nat, open: nat, close: nat)
    requires BodiesYield(bodies, origin, fl, r) && r.Some?
    ensures i < |bodies| && ClosesAt(Tokens(Lex(bodies[i])), open, close)
    ensures var shapes := Shapes(ArgList(Tokens(Lex(bodies[i])), open, close), fl);
      && 3 <= |shapes| <= 6 && CandidateCount(shapes) == 1
      && Text(r.value.powInput) in shapes && SeedShaped(r.value.powInput) && !Hinted(r.value.powInput)
  {
    i :| 0 <= i < |bodies| && BodyYields(bodies[i], origin, fl, r);
    var toks := Tokens(Lex(bodies[i]));
    var marker, structure := origin + "/tokenizer-marker", origin + "/tokenizer-structure";
    if PassYields(toks, marker, true, fl, r) {
      open, close := PassSeed(toks, marker, true, fl, r);
      AcceptedSeed(Shapes(ArgList(toks, open, close), fl), true, marker);
    } else {
      open, close := PassSeed(toks, structure, false, fl, r);
      AcceptedSeed(Shapes(ArgList(toks, open, close), fl), false, structure);
    }
  }

  // ---------- the order of the arguments ----------

  /** A permutation of `front + [x]` less one `x` permutes `front`. */
  lemma Cancel<A>(p: multiset<A>, q: multiset<A>, x: A)
    requires p + multiset{x} == q + multiset{x}
    ensures p == q
  {
    assert p == (p + multiset{x}) - multiset{x};
    assert q == (q + multiset{x}) - multiset{x};
  }

  lemma TakeOut<A>(front: seq<A>, x: A, b: seq<A>) returns (before: seq<A>, after: seq<A>)
    requires multiset(front + [x]) == multiset(b)
    ensures b == before + [x] + after && multiset(front) == multiset(before + after)
  {
    assert x in multiset(front + [x]);
    var i :| 0 <= i < |b| && b[i] == x;
    before, after := b[..i], b[i + 1..];
    assert b == before + [x] + after;
    assert multiset(b) == multiset(before + after) + multiset{x};
    Cancel(multiset(front), multiset(before + after), x);
  }

  lemma FlatMapOne<A, B>(before: seq<A>, x: A, f: A -> seq<B>)
    ensures FlatMap(before + [x], f) == FlatMap(before, f) + f(x)
  {
    assert (before + [x])[..|before|] == before;
  }

  /** An element contributes the same wherever it stands. */
  lemma FlatMapMoved<A, B>(before: seq<A>, x: A, after: seq<A>, f: A -> seq<B>)
    ensures multiset(FlatMap(before + [x] + after, f)) == multiset(FlatMap(before + after, f)) + multiset(f(x))
  {
    FlatMapConcat(before, after, f);
    FlatMapConcat(before + [x], after, f);
    FlatMapOne(before, x, f);
  }

  lemma {:induction false} FlatMapPermuted<A, B>(a: seq<A>, b: seq<A>, f: A -> seq<B>)
    requires multiset(a) == multiset(b)
    ensures multiset(FlatMap(a, f)) == multiset(FlatMap(b, f))
    decreases |a|
  {
    assert |multiset(a)| == |multiset(b)|;
    if a != [] {
      var front, x := a[..|a| - 1], a[|a| - 1];
      assert a == front + [x];
      var before, after := TakeOut(front, x, b);
      var rest := before + after;
      FlatMapPermuted(front, rest, f);
      FlatMapMoved(before, x, after, f);
      FlatMapOne(front, x, f);
    }
  }

  lemma {:induction false} ShapesAreFlatMap(args: seq<seq<Token>>, fl: FloatReader)
    ensures Shapes(args, fl) == FlatMap(args, (arg: seq<Token>) => [ShapeOf(arg, fl)])
  {
    if args != [] {
      var front, last := args[..|args| - 1], args[|args| - 1];
      ShapesAreFlatMap(front, fl);
      assert Shapes(args, fl) == Shapes(front, fl) + [ShapeOf(last, fl)];
    }
  }

  lemma SameWhenSingle<T>(a: seq<T>, b: seq<T>, default: T)
    requires multiset(a) == multiset(b)
    requires forall i, j :: 0 <= i < |a| && 0 <= j < |a| ==> a[i] == a[j]
    ensures |a| == |b| && First(a, default) == First(b, default)
  {
    assert |multiset(a)| == |multiset(b)|;
    if b != [] {
      assert b[0] in multiset(a);
    }
  }

  lemma ShapesPermuted(a: seq<seq<Token>>, b: seq<seq<Token>>, fl: FloatReader)
    requires multiset(a) == multiset(b)
    ensures multiset(Shapes(a, fl)) == multiset(Shapes(b, fl))
  {
    ShapesAreFlatMap(a, fl);
    ShapesAreFlatMap(b, fl);
    FlatMapPermuted(a, b, (arg: seq<Token>) => [ShapeOf(arg, fl)]);
  }

  lemma NoneOtherPermuted(a: seq<Shape>, b: seq<Shape>)
    requires multiset(a) == multiset(b) && NoneOther(a)
    ensures NoneOther(b) && |a| == |b|
  {
    assert |multiset(a)| == |multiset(b)|;
    assert forall k :: 0 <= k < |b| ==> b[k] in multiset(a);
  }

  lemma CandidatesPermuted(a: seq<Shape>, b: seq<Shape>)
    requires multiset(a) == multiset(b)
    ensures multiset(Candidates(a)) == multiset(Candidates(b))
  {
    FlatMapPermuted(a, b, TextOf);
    FlatMapPermuted(Texts(a), Texts(b), CandidateOf);
  }

  lemma SingletonPermuted<T>(a: seq<T>, b: seq<T>)
    requires multiset(a) == multiset(b) && |a| == 1
    ensures a == b
  {
    assert |multiset(a)| == |multiset(b)|;
    assert b[0] in multiset(a);
  }

  lemma AcceptancePermuted(a: seq<Shape>, b: seq<Shape>, markerMode: bool)
    requires multiset(a) == multiset(b) && Accepts(a, markerMode)
    ensures Accepts(b, markerMode) && Candidates(b) == Candidates(a)
  {
    NoneOtherPermuted(a, b);
    FlatMapPermuted(a, b, ArrayOf);
    SameWhenSingle(Arrays(a), Arrays(b), []);
    FlatMapPermuted(a, b, LevelsOf);
    assert |multiset(Levels(a))| == |multiset(Levels(b))|;
    CandidatesPermuted(a, b);
    SingletonPermuted(Candidates(a), Candidates(b));
  }

  ghost predicate AllSame<T>(s: seq<T>) {
    forall i, j :: 0 <= i < |s| && 0 <= j < |s| ==> s[i] == s[j]
  }

  lemma AcceptanceBlind(s: seq<Shape>, t: seq<Shape>, markerMode: bool)
    requires multiset(s) == multiset(t)
    ensures (Accepts(s, markerMode) <==> Accepts(t, markerMode))
    ensures (Accepts(s, markerMode) ==> Candidates(s) == Candidates(t))
  {
    if Accepts(s, markerMode) {
      AcceptancePermuted(s, t, markerMode);
    } else if Accepts(t, markerMode) {
      AcceptancePermuted(t, s, markerMode);
    }
  }

  lemma LevelBlind(s: seq<Shape>, t: seq<Shape>)
    requires multiset(s) == multiset(t) && AllSame(Levels(s))
    ensures First(Levels(s), 0) == First(Levels(t), 0)
  {
    FlatMapPermuted(s, t, LevelsOf);
    SameWhenSingle(Levels(s), Levels(t), 0);
  }

  lemma HintBlind(s: seq<Shape>, t: seq<Shape>)
    requires multiset(s) == multiset(t) && AllSame(Hints(s))
    ensures First(Hints(s), "") == First(Hints(t), "")
  {
    FlatMapPermuted(s, t, TextOf);
    FlatMapPermuted(Texts(s), Texts(t), HintOf);
    SameWhenSingle(Hints(s), Hints(t), "");
  }

  /** Permuting a call's arguments changes neither whether it is accepted nor
      the seed; nor the difficulty or the marker, unless the arguments offer two
      different ones. */
  lemma OrderBlind(a: seq<seq<Token>>, b: seq<seq<Token>>, markerMode: bool, source: string, fl: FloatReader)
    requires multiset(a) == multiset(b)
    ensures var p, q := Classify(Shapes(a, fl), markerMode, source), Classify(Shapes(b, fl), markerMode, source);
      && (p.Some? <==> q.Some?)
      && (p.Some? ==>
          && p.value.powInput == q.value.powInput
          && (AllSame(Levels(Shapes(a, fl))) ==> p.value.difficulty == q.value.difficulty)
          && (AllSame(Hints(Shapes(a, fl))) ==> p.value.marker == q.value.marker))
  {
    var s, t := Shapes(a, fl), Shapes(b, fl);
    ShapesPermuted(a, b, fl);
    AcceptanceBlind(s, t, markerMode);
    if AllSame(Levels(s)) {
      LevelBlind(s, t);
    }
    if AllSame(Hints(s)) {
      HintBlind(s, t);
    }
  }

  // ---------- what does depend on the order ----------

  function ToFront<A>(s: seq<A>, m: nat): (t: seq<A>)
    requires m < |s|
    ensures |t| == |s| && t[0] == s[m]
  {
    [s[m]] + (s[..m] + s[m + 1..])
  }

  lemma ToFrontPermutes<A>(s: seq<A>, m: nat)
    requires m < |s|
    ensures multiset(ToFront(s, m)) == multiset(s)
  {
    assert s == s[..m] + [s[m]] + s[m + 1..];
  }

  lemma ToFrontShapes(a: seq<seq<Token>>, m: nat, fl: FloatReader)
    requires m < |a|
    ensures Shapes(ToFront(a, m), fl) == ToFront(Shapes(a, fl), m)
  {
    var b, s := ToFront(a, m), Shapes(a, fl);
    forall k | 0 <= k < |b|
      ensures Shapes(b, fl)[k] == ToFront(s, m)[k]
    {
      ToFrontAt(a, m, k);
      ToFrontAt(s, m, k);
    }
  }

  lemma ToFrontAt<A>(s: seq<A>, m: nat, k: nat)
    requires m < |s| && k < |s|
    ensures ToFront(s, m)[k] == s[if k == 0 then m else if k <= m then k - 1 else k]
  {
    if k > 0 {
      assert ToFront(s, m)[k] == (s[..m] + s[m + 1..])[k - 1];
    }
  }

  /** What the argument in front has to offer comes first. */
  lemma ToFrontFirst<B>(s: seq<Shape>, m: nat, f: Shape -> seq<B>, default: B)
    requires m < |s| && f(s[m]) != []
    ensures First(FlatMap(ToFront(s, m), f), default) == f(s[m])[0]
  {
    FlatMapConcat([s[m]], s[..m] + s[m + 1..], f);
    FlatMapOne([], s[m], f);
    assert [] + [s[m]] == [s[m]];
  }

  /** If the arguments offer different values, some argument's value is not the first. */
  lemma OtherValue<B>(s: seq<Shape>, f: Shape -> seq<B>, default: B) returns (m: nat)
    requires forall x :: |f(x)| <= 1
    requires !AllSame(FlatMap(s, f))
    ensures m < |s| && f(s[m]) != [] && f(s[m])[0] != First(FlatMap(s, f), default)
  {
    var values := FlatMap(s, f);
    var k: nat :| k < |values| && values[k] != values[0];
    m := FlatMapMember(s, f, k);
  }

  function HintOfShape(s: Shape): (h: seq<string>)
    ensures |h| <= 1
  {
    if s.Text? then HintOf(s.text) else []
  }

  lemma {:induction false} HintsAreFlatMap(s: seq<Shape>)
    ensures Hints(s) == FlatMap(s, HintOfShape)
  {
    if s != [] {
      var front, last := s[..|s| - 1], s[|s| - 1];
      HintsAreFlatMap(front);
      if last.Text? {
        FlatMapOne(Texts(front), last.text, HintOf);
      } else {
        assert Texts(s) == Texts(front);
      }
    }
  }

  predicate SameDifficulty(p: Option<Seed>, q: Option<Seed>) {
    p.Some? && q.Some? && p.value.difficulty == q.value.difficulty
  }

  predicate SameMarker(p: Option<Seed>, q: Option<Seed>) {
    p.Some? && q.Some? && p.value.marker == q.value.marker
  }

  /** Two different levels: some order of the same arguments gives another difficulty. */
  lemma DifficultyMoves(a: seq<seq<Token>>, markerMode: bool, source: string,
                        fl: FloatReader) returns (b: seq<seq<Token>>)
    requires Classify(Shapes(a, fl), markerMode, source).Some? && !AllSame(Levels(Shapes(a, fl)))
    ensures multiset(b) == multiset(a)
    ensures !SameDifficulty(Classify(Shapes(a, fl), markerMode, source), Classify(Shapes(b, fl), markerMode, source))
  {
    var s := Shapes(a, fl);
    var m := OtherValue(s, LevelsOf, 0);
    b := ToFront(a, m);
    ToFrontPermutes(a, m);
    ToFrontShapes(a, m, fl);
    ToFrontFirst(s, m, LevelsOf, 0);
  }

  /** Two different hints: some order gives another marker. */
  lemma MarkerMoves(a: seq<seq<Token>>, markerMode: bool, source: string, fl: FloatReader) returns (b: seq<seq<Token>>)
    requires Classify(Shapes(a, fl), markerMode, source).Some? && !AllSame(Hints(Shapes(a, fl)))
    ensures multiset(b) == multiset(a)
    ensures !SameMarker(Classify(Shapes(a, fl), markerMode, source), Classify(Shapes(b, fl), markerMode, source))
  {
    var s := Shapes(a, fl);
    HintsAreFlatMap(s);
    var m := OtherValue(s, HintOfShape, "");
    b := ToFront(a, m);
    ToFrontPermutes(a, m);
    ToFrontShapes(a, m, fl);
    ToFrontFirst(s, m, HintOfShape, "");
    HintsAreFlatMap(ToFront(s, m));
  }

  /** The difficulty of an accepted call is the same in every order of its arguments
      if and only if all its levels are equal. */
  lemma DifficultyFixedIff(a: seq<seq<Token>>, markerMode: bool, source: string, fl: FloatReader)
    requires Classify(Shapes(a, fl), markerMode, source).Some?
    ensures (forall b :: multiset(b) == multiset(a) ==>
               SameDifficulty(Classify(Shapes(a, fl), markerMode, source), Classify(Shapes(b, fl), markerMode, source)))
            <==> AllSame(Levels(Shapes(a, fl)))
  {
    if AllSame(Levels(Shapes(a, fl))) {
      forall b | multiset(b) == multiset(a)
        ensures SameDifficulty(Classify(Shapes(a, fl), markerMode, source), Classify(Shapes(b, fl), markerMode, source))
      {
        OrderBlind(a, b, markerMode, source, fl);
      }
    } else {
      var b := DifficultyMoves(a, markerMode, source, fl);
    }
  }

  /** The marker is so if and only if all its hinted strings are equal. */
  lemma MarkerFixedIff(a: seq<seq<Token>>, markerMode: bool, source: string, fl: FloatReader)
    requires Classify(Shapes(a, fl), markerMode, source).Some?
    ensures (forall b :: multiset(b) == multiset(a) ==>
               SameMarker(Classify(Shapes(a, fl), markerMode, source), Classify(Shapes(b, fl), markerMode, source)))
            <==> AllSame(Hints(Shapes(a, fl)))
  {
    if AllSame(Hints(Shapes(a, fl))) {
      forall b | multiset(b) == multiset(a)
        ensures SameMarker(Classify(Shapes(a, fl), markerMode, source), Classify(Shapes(b, fl), markerMode, source))
      {
        OrderBlind(a, b, markerMode, source, fl);
      }
    } else {
      var b := MarkerMoves(a, markerMode, source, fl);
    }
  }
}
