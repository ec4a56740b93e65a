/** Calls whose arguments change places: what stays the same wherever the calls stand,
    and script bodies for which the difficulty or the marker does not
    (client/captcha_pow.go over client/captcha_jslex.go). */
module PowOrder {
  import opened JsLexer
  import opened JsNumber
  import opened JsSpelling
  import opened CallWalk
  import opened CallJoin
  import opened PowSeed
  import opened PowExtract
  import opened PowMeaning
  import opened PowBody
  import opened Wrappers

  /** What the recogniser makes of a call, wherever it stands, it makes of its arguments. */
  lemma SeedOfArgs(toks: seq<Token>, at: nat, callee: Token, args: seq<seq<Token>>, markerMode: bool, m: nat, k: nat,
                   source: string, fl: FloatReader, seed: Option<Seed>)
    requires IsCallee(callee) && AllSelfContained(args) && args != [[]]
    requires PartAt(toks, at, CallOf(callee, args)) && LooksFrom(CallOf(callee, args), markerMode, m) && k == at + m
    requires SeedAround(toks, k, source, markerMode, fl, seed)
    ensures seed == Classify(Shapes(args, fl), markerMode, source)
  {
    var call := CallOf(callee, args);
    CallOfArgs(callee, args, fl, call);
    SeedIsLocal(toks, at, call, markerMode, m, k, source, fl, seed);
  }

  lemma PermutedContained(a: seq<seq<Token>>, b: seq<seq<Token>>)
    requires multiset(a) == multiset(b) && AllSelfContained(a) && a != [[]]
    ensures AllSelfContained(b) && b != [[]]
  {
    forall k | 0 <= k < |b|
      ensures SelfContained(b[k])
    {
      assert b[k] in multiset(b);
    }
    assert |multiset(a)| == |multiset(b)|;
    if |b| == 1 {
      assert a[0] in multiset(a);
      assert a == b;
    }
  }

  lemma AlikeByArgs(a: seq<seq<Token>>, b: seq<seq<Token>>, p: Option<Seed>, q: Option<Seed>, markerMode: bool,
                    source: string, fl: FloatReader)
    requires multiset(a) == multiset(b)
    requires p == Classify(Shapes(a, fl), markerMode, source) && q == Classify(Shapes(b, fl), markerMode, source)
    ensures (p.Some? <==> q.Some?) && (p.Some? ==> AlikeSeeds(p.value, q.value, Shapes(a, fl)))
  {
    OrderBlind(a, b, markerMode, source, fl);
  }

  /** The same seed; and the same difficulty and marker, unless the shapes offer
      different ones. */
  ghost predicate AlikeSeeds(p: Seed, q: Seed, shapes: seq<Shape>) {
    && p.powInput == q.powInput
    && (AllSame(Levels(shapes)) ==> p.difficulty == q.difficulty)
    && (AllSame(Hints(shapes)) ==> p.marker == q.marker)
  }

  /** Two calls with the same arguments in different places, each standing anywhere in
      any stream and under any callee: both are accepted or neither, with seeds alike. */
  lemma OrderBlindInPlace(ts: seq<Token>, i: nat, f: Token, a: seq<seq<Token>>, m: nat, k: nat, p: Option<Seed>,
                          us: seq<Token>, j: nat, g: Token, b: seq<seq<Token>>, n: nat, l: nat, q: Option<Seed>,
                          markerMode: bool, source: string, fl: FloatReader)
    requires IsCallee(f) && IsCallee(g) && AllSelfContained(a) && a != [[]] && multiset(a) == multiset(b)
    requires PartAt(ts, i, CallOf(f, a)) && LooksFrom(CallOf(f, a), markerMode, m) && k == i + m
    requires PartAt(us, j, CallOf(g, b)) && LooksFrom(CallOf(g, b), markerMode, n) && l == j + n
    requires SeedAround(ts, k, source, markerMode, fl, p) && SeedAround(us, l, source, markerMode, fl, q)
    ensures (p.Some? <==> q.Some?) && (p.Some? ==> AlikeSeeds(p.value, q.value, Shapes(a, fl)))
  {
    PermutedContained(a, b);
    SeedOfArgs(ts, i, f, a, markerMode, m, k, source, fl, p);
    SeedOfArgs(us, j, g, b, markerMode, n, l, source, fl, q);
    AlikeByArgs(a, b, p, q, markerMode, source, fl);
  }

  // ---------- two orders, two difficulties; two orders, two markers ----------

  lemma SeedInput() returns (p: string)
    ensures p == "abcdef" && IsPlainText(p) && IsSeedText(p)
  {
    p := "abcdef";
    PlainSeed(p);
  }

  lemma MarkerInput() returns (h: string)
    ensures h == MARKER && IsPlainText(h) && IsHintText(h)
  {
    h := MARKER;
    HintedBy(h, 0, "pow");
  }

  lemma HintInput() returns (g: string)
    ensures g == "my_seed" && IsPlainText(g) && IsHintText(g)
  {
    g := "my_seed";
    HintedBy(g, 3, "seed");
  }

  lemma DigitInput(c: char) returns (a: Atom)
    requires '1' <= c <= '9'
    ensures a == Decimal([c], "") && Spells(a, c as int - '0' as int)
  {
    a := Decimal([c], "");
    assert [c][1..] == "" == [c][..0];
    assert Without([c], '_') == [c] && DigitsValue("", 10) == 0;
  }

  /** What makes up such a call. */
  predicate Fit(p: string, hints: seq<string>, numbers: seq<Atom>, levels: seq<int>, texts: seq<string>) {
    && IsSeedText(p) && AreHints(hints) && MARKER in hints && texts == [p] + hints && ArePlain(texts)
    && Spell(numbers, levels) && AreLevels(levels) && |hints| + |levels| <= 5
  }

  /** One body of such a call, with a text for the body as a whole. */
  lemma BodyInput(p: string, hints: seq<string>, numbers: seq<Atom>, levels: seq<int>, texts: seq<string>,
                  source: string, origin: string, fl: FloatReader)
    returns (body: string)
    requires Fit(p, hints, numbers, levels, texts) && source == origin + "/tokenizer-marker"
    ensures AreArguments(ArgAtoms(texts, numbers)) && body == CallText(ArgAtoms(texts, numbers))
    ensures BodyYields(body, origin, fl, Some(Seed(p, levels[0], hints[0], source)))
  {
    var atoms := ArgAtoms(texts, numbers);
    ArgShapes(texts, numbers, levels, atoms, fl);
    body := CallText(atoms);
    ArgsYield(p, hints, numbers, levels, texts, atoms, body, source, origin, fl);
  }

  lemma SameHint(h: string, g: string)
    requires IsHintText(h) && g == h
    ensures IsHintText(g)
  {
  }

  lemma HintsGrow(hints: seq<string>, g: string, more: seq<string>)
    requires (hints == [] || AreHints(hints)) && IsHintText(g) && more == hints + [g]
    ensures AreHints(more)
  {
    forall k | 0 <= k < |more|
      ensures IsHintText(more[k])
    {
      if k == |hints| {
        SameHint(g, more[k]);
      }
    }
  }

  lemma OneSpelt(a: Atom, x: int)
    requires Spells(a, x) && 1 <= x <= 16
    ensures Spell([a], [x]) && AreLevels([x])
  {
  }

  lemma BothSpelt(a: Atom, x: int, b: Atom, y: int)
    requires Spells(a, x) && Spells(b, y) && 1 <= x <= 16 && 1 <= y <= 16
    ensures Spell([a, b], [x, y]) && AreLevels([x, y])
  {
  }

  /** The body f("p","h",a,b). */
  lemma LevelsBody(p: string, h: string, hints: seq<string>, a: Atom, x: int, b: Atom, y: int, texts: seq<string>,
                  source: string, origin: string, fl: FloatReader)
    returns (body: string, r: Seed)
    requires IsSeedText(p) && AreHints(hints) && MARKER in hints && hints == [h] && texts == [p, h] && ArePlain(texts)
    requires Spells(a, x) && Spells(b, y) && 1 <= x <= 16 && 1 <= y <= 16 && source == origin + "/tokenizer-marker"
    ensures AreArguments(ArgAtoms(texts, [a, b])) && body == CallText(ArgAtoms(texts, [a, b]))
    ensures BodyYields(body, origin, fl, Some(r)) && r == Seed(p, x, h, source)
  {
    var numbers, levels := [a, b], [x, y];
    BothSpelt(a, x, b, y);
    assert texts == [p] + hints;
    body := BodyInput(p, hints, numbers, levels, texts, source, origin, fl);
    r := Seed(p, x, h, source);
  }

  /** The body f("p","h","g",a). */
  lemma HintsBody(p: string, h: string, hints: seq<string>, a: Atom, x: int, texts: seq<string>, source: string,
                  origin: string, fl: FloatReader)
    returns (body: string, r: Seed)
    requires IsSeedText(p) && AreHints(hints) && MARKER in hints && |hints| == 2 && hints[0] == h
    requires texts == [p] + hints && ArePlain(texts)
    requires Spells(a, x) && 1 <= x <= 16 && source == origin + "/tokenizer-marker"
    ensures AreArguments(ArgAtoms(texts, [a])) && body == CallText(ArgAtoms(texts, [a]))
    ensures BodyYields(body, origin, fl, Some(r)) && r == Seed(p, x, h, source)
  {
    var numbers, levels := [a], [x];
    OneSpelt(a, x);
    body := BodyInput(p, hints, numbers, levels, texts, source, origin, fl);
    r := Seed(p, x, h, source);
  }

  lemma OneHint(h: string) returns (hints: seq<string>)
    requires IsHintText(h)
    ensures hints == [h] && AreHints(hints)
  {
    hints := [h];
    HintsGrow([], h, hints);
  }

  lemma BothHints(h: string, g: string) returns (hints: seq<string>)
    requires IsHintText(h) && IsHintText(g)
    ensures hints == [h, g] && AreHints(hints)
  {
    var first := OneHint(h);
    hints := first + [g];
    HintsGrow(first, g, hints);
  }

  lemma TwoLevels(p: string, h: string, a: Atom, x: int, b: Atom, y: int, texts: seq<string>, source: string,
                  origin: string, fl: FloatReader)
    returns (body: string, r: Seed)
    requires IsSeedText(p) && IsHintText(h) && h == MARKER && texts == [p, h] && ArePlain(texts)
    requires Spells(a, x) && Spells(b, y) && 1 <= x <= 16 && 1 <= y <= 16 && source == origin + "/tokenizer-marker"
    ensures AreArguments(ArgAtoms(texts, [a, b])) && body == CallText(ArgAtoms(texts, [a, b]))
    ensures BodyYields(body, origin, fl, Some(r)) && r == Seed(p, x, h, source)
  {
    var hints := OneHint(h);
    assert hints[0] == MARKER;
    body, r := LevelsBody(p, h, hints, a, x, b, y, texts, source, origin, fl);
  }

  lemma MarkedHints(p: string, h: string, g: string, m: nat, texts: seq<string>) returns (hints: seq<string>)
    requires IsHintText(h) && IsHintText(g) && m < 2 && (if m == 0 then h else g) == MARKER && texts == [p, h, g]
    ensures AreHints(hints) && MARKER in hints && |hints| == 2 && hints[0] == h && texts == [p] + hints
  {
    hints := BothHints(h, g);
    PairOf(p, h, g, m, texts, hints, MARKER);
  }

  lemma PairOf(p: string, h: string, g: string, m: nat, texts: seq<string>, hints: seq<string>, mark: string)
    requires hints == [h, g] && texts == [p, h, g] && m < 2 && mark == (if m == 0 then h else g)
    ensures mark in hints && |hints| == 2 && hints[0] == h && texts == [p] + hints
  {
    assert mark == hints[m];
  }

  lemma TwoHints(p: string, h: string, g: string, m: nat, a: Atom, x: int, texts: seq<string>, source: string,
                 origin: string, fl: FloatReader)
    returns (body: string, r: Seed)
    requires IsSeedText(p) && IsHintText(h) && IsHintText(g) && m < 2 && (if m == 0 then h else g) == MARKER
    requires texts == [p, h, g] && ArePlain(texts)
    requires Spells(a, x) && 1 <= x <= 16 && source == origin + "/tokenizer-marker"
    ensures AreArguments(ArgAtoms(texts, [a])) && body == CallText(ArgAtoms(texts, [a]))
    ensures BodyYields(body, origin, fl, Some(r)) && r == Seed(p, x, h, source)
  {
    var hints := MarkedHints(p, h, g, m, texts);
    body, r := HintsBody(p, h, hints, a, x, texts, source, origin, fl);
  }

  lemma PlainTwo(p: string, h: string) returns (texts: seq<string>)
    requires IsPlainText(p) && IsPlainText(h)
    ensures texts == [p, h] && ArePlain(texts)
  {
    texts := [p, h];
  }

  lemma PlainThree(p: string, h: string, g: string) returns (texts: seq<string>)
    requires IsPlainText(p) && IsPlainText(h) && IsPlainText(g)
    ensures texts == [p, h, g] && ArePlain(texts)
  {
    texts := [p, h, g];
  }

  /** The bodies f("abcdef","pow_timeout",1,2) and f("abcdef","pow_timeout",2,1) have
      the same arguments and different difficulties. */
  lemma TwoDifficulties(origin: string, fl: FloatReader)
    returns (texts: seq<string>, one: Atom, two: Atom, body: string, other: string, r: Seed, q: Seed)
    ensures texts == ["abcdef", "pow_timeout"] && one == Decimal("1", "") && two == Decimal("2", "") && ArePlain(texts)
    ensures AreArguments(ArgAtoms(texts, [one, two])) && body == CallText(ArgAtoms(texts, [one, two]))
    ensures AreArguments(ArgAtoms(texts, [two, one])) && other == CallText(ArgAtoms(texts, [two, one]))
    ensures BodyYields(body, origin, fl, Some(r)) && r.difficulty == 1
    ensures BodyYields(other, origin, fl, Some(q)) && q.difficulty == 2
    ensures r.powInput == q.powInput == texts[0] && r.marker == q.marker == texts[1]
  {
    var source := origin + "/tokenizer-marker";
    var p := SeedInput();
    var h := MarkerInput();
    texts := PlainTwo(p, h);
    one := DigitInput('1');
    two := DigitInput('2');
    body, r := TwoLevels(p, h, one, 1, two, 2, texts, source, origin, fl);
    other, q := TwoLevels(p, h, two, 2, one, 1, texts, source, origin, fl);
  }

  /** The bodies f("abcdef","pow_timeout","my_seed",1) and f("abcdef","my_seed","pow_timeout",1)
      have the same arguments and different markers. */
  lemma TwoMarkers(origin: string, fl: FloatReader)
    returns (texts: seq<string>, swapped: seq<string>, one: Atom, body: string, other: string, r: Seed, q: Seed)
    ensures texts == ["abcdef", "pow_timeout", "my_seed"] && swapped == ["abcdef", "my_seed", "pow_timeout"]
    ensures ArePlain(texts) && ArePlain(swapped) && one == Decimal("1", "")
    ensures AreArguments(ArgAtoms(texts, [one])) && body == CallText(ArgAtoms(texts, [one]))
    ensures AreArguments(ArgAtoms(swapped, [one])) && other == CallText(ArgAtoms(swapped, [one]))
    ensures BodyYields(body, origin, fl, Some(r)) && r.marker == texts[1]
    ensures BodyYields(other, origin, fl, Some(q)) && q.marker == swapped[1]
    ensures r.powInput == q.powInput == texts[0] && r.difficulty == q.difficulty == 1
  {
    var source := origin + "/tokenizer-marker";
    var p := SeedInput();
    var h := MarkerInput();
    var g := HintInput();
    texts := PlainThree(p, h, g);
    swapped := PlainThree(p, g, h);
    one := DigitInput('1');
    body, r := TwoHints(p, h, g, 0, one, 1, texts, source, origin, fl);
    other, q := TwoHints(p, g, h, 1, one, 1, swapped, source, origin, fl);
  }
}
