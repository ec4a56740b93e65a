/** Printing and lexing: a text written from words is read back as the tokens
    those words denote, and so the writing of a call does not matter. */
module JsRoundTrip {
  import opened JsLexer
  import opened JsSpelling
  import opened JsNumber
  import opened CallJoin
  import opened PowSeed
  import opened PowMeaning
  import opened Wrappers

  lemma GapStops(src: string, j: nat, gs: seq<Gap>)
    requires gs != [] && ValidGap(gs[0]) && TextAt(src, j, GapsText(gs))
    ensures StopsAt(src, j)
  {
    CharAt(src, j, GapsText(gs), 0);
  }

  lemma AtomStops(src: string, j: nat, a: Atom)
    requires ValidAtom(a) && !RunsOn(a) && TextAt(src, j, AtomText(a))
    ensures StopsAt(src, j)
  {
    CharAt(src, j, AtomText(a), 0);
  }

  lemma WordParts(src: string, i: nat, ws: seq<Word>, a: nat, g: nat)
    requires ws != [] && AllValid(ws) && TextAt(src, i, Written(ws))
    requires a == i + |AtomText(ws[0].atom)| && g == a + |GapsText(ws[0].gaps)|
    ensures TextAt(src, i, AtomText(ws[0].atom)) && TextAt(src, a, GapsText(ws[0].gaps))
    ensures TextAt(src, g, Written(ws[1..]))
  {
    TextSplits(src, i, WordText(ws[0]), Written(ws[1..]), g);
    TextSplits(src, i, AtomText(ws[0].atom), GapsText(ws[0].gaps), a);
  }

  lemma FirstAtomStops(src: string, i: nat, ws: seq<Word>)
    requires ws != [] && AllValid(ws) && !RunsOn(ws[0].atom) && TextAt(src, i, Written(ws))
    ensures StopsAt(src, i)
  {
    var a := i + |AtomText(ws[0].atom)|;
    WordParts(src, i, ws, a, a + |GapsText(ws[0].gaps)|);
    AtomStops(src, i, ws[0].atom);
  }

  lemma WordStops(src: string, a: nat, ws: seq<Word>, g: nat)
    requires ws != [] && AllValid(ws) && Apart(ws) && RunsOn(ws[0].atom)
    requires TextAt(src, a, GapsText(ws[0].gaps)) && TextAt(src, g, Written(ws[1..])) && g == a + |GapsText(ws[0].gaps)|
    ensures StopsAt(src, a)
  {
    if ws[0].gaps != [] {
      GapStops(src, a, ws[0].gaps);
    } else {
      FirstAtomStops(src, a, ws[1..]);
    }
  }

  lemma WordRead(src: string, i: nat, w: Word, toks: seq<Lexeme>, a: nat, g: nat) returns (l: Lexeme)
    requires ValidWord(w) && TextAt(src, i, AtomText(w.atom)) && a == i + |AtomText(w.atom)|
    requires TextAt(src, a, GapsText(w.gaps)) && g == a + |GapsText(w.gaps)| && (RunsOn(w.atom) ==> StopsAt(src, a))
    ensures LexFrom(src, i, toks) == LexFrom(src, g, toks + [l]) && l.tok == TokenOf(w.atom)
  {
    l := Lexeme(TokenOf(w.atom), i, a);
    AtomRead(src, i, w.atom, toks, a);
    EmitOnce(src, i, toks, l);
    GapsSkipped(src, a, w.gaps, toks + [l], g);
  }

  lemma FirstWordRead(src: string, i: nat, ws: seq<Word>, toks: seq<Lexeme>, g: nat) returns (l: Lexeme)
    requires ws != [] && AllValid(ws) && Apart(ws) && TextAt(src, i, Written(ws)) && g == i + |WordText(ws[0])|
    ensures LexFrom(src, i, toks) == LexFrom(src, g, toks + [l]) && l.tok == TokenOf(ws[0].atom)
    ensures TextAt(src, g, Written(ws[1..]))
  {
    var a := i + |AtomText(ws[0].atom)|;
    WordParts(src, i, ws, a, g);
    if RunsOn(ws[0].atom) {
      WordStops(src, a, ws, g);
    }
    l := WordRead(src, i, ws[0], toks, a, g);
  }

  lemma TokensCons(l: Lexeme, rest: seq<Lexeme>, ls: seq<Lexeme>)
    requires ls == [l] + rest
    ensures Tokens(ls) == [l.tok] + Tokens(rest)
  {
  }

  /** Wherever the lexer stands, whatever it has read: words it finds there are
      read as their tokens. */
  lemma {:induction false} WordsRead(src: string, i: nat, ws: seq<Word>, toks: seq<Lexeme>,
                                     j: nat) returns (ls: seq<Lexeme>)
    requires AllValid(ws) && Apart(ws) && TextAt(src, i, Written(ws)) && j == i + |Written(ws)|
    ensures LexFrom(src, i, toks) == LexFrom(src, j, toks + ls)
    ensures Tokens(ls) == TokensOf(ws)
    decreases |ws|
  {
    if ws == [] {
      ls := [];
      assert toks + ls == toks;
    } else {
      var g := i + |WordText(ws[0])|;
      var l := FirstWordRead(src, i, ws, toks, g);
      var more := toks + [l];
      var rest := WordsRead(src, g, ws[1..], more, j);
      ls := [l] + rest;
      assert more + rest == toks + ls;
      TokensCons(l, rest, ls);
    }
  }

  /** A script: gaps, then words. */
  datatype Script = Script(gaps: seq<Gap>, words: seq<Word>)

  predicate ValidScript(s: Script) {
    && (forall k :: 0 <= k < |s.gaps| ==> ValidGap(s.gaps[k]))
    && AllValid(s.words) && Apart(s.words)
  }

  function ScriptText(s: Script): string
    requires ValidScript(s)
  {
    GapsText(s.gaps) + Written(s.words)
  }

  /** Print, then lex: a script is read as exactly the tokens it was written from. */
  lemma PrintThenLex(s: Script, src: string)
    requires ValidScript(s) && src == ScriptText(s)
    ensures Tokens(Lex(src)) == TokensOf(s.words)
  {
    var g := |GapsText(s.gaps)|;
    assert src[0..0 + |src|] == src;
    TextSplits(src, 0, GapsText(s.gaps), Written(s.words), g);
    GapsSkipped(src, 0, s.gaps, [], g);
    var ls := WordsRead(src, g, s.words, [], |src|);
    assert [] + ls == ls;
  }

  lemma {:induction false} LexExtends(src: string, i: nat, toks: seq<Lexeme>)
    requires i <= |src|
    ensures |toks| <= |LexFrom(src, i, toks)| && LexFrom(src, i, toks)[..|toks|] == toks
    decreases |src| - i
  {
    if i < |src| {
      match NextStep(src, i, toks)
      case Skip(j) => LexExtends(src, j, toks);
      case Emit(l) =>
        LexExtends(src, l.end, toks + [l]);
        assert LexFrom(src, l.end, toks + [l])[..|toks|] == (toks + [l])[..|toks|];
    }
  }

  /** In the text `src` the words stand where the lexer arrives at `i`, having
      read the tokens `before`. */
  ghost predicate WrittenIn(src: string, i: nat, before: seq<Lexeme>, ws: seq<Word>) {
    && AllValid(ws) && Apart(ws) && TextAt(src, i, Written(ws))
    && LexFrom(src, i, before) == Lex(src)
  }

  lemma PartBehind(all: seq<Lexeme>, before: seq<Lexeme>, ls: seq<Lexeme>)
    requires |before + ls| <= |all| && all[..|before + ls|] == before + ls
    ensures PartAt(Tokens(all), |before|, Tokens(ls))
  {
    forall k | 0 <= k < |ls|
      ensures Tokens(all)[|before| + k] == Tokens(ls)[k]
    {
      assert all[..|before + ls|][|before| + k] == (before + ls)[|before| + k];
    }
  }

  /** Then their tokens stand in the token stream right behind `before`. */
  lemma WordsInStream(src: string, i: nat, before: seq<Lexeme>, ws: seq<Word>)
    requires WrittenIn(src, i, before, ws)
    ensures PartAt(Tokens(Lex(src)), |before|, TokensOf(ws))
  {
    var j := i + |Written(ws)|;
    var ls := WordsRead(src, i, ws, before, j);
    LexExtends(src, j, before + ls);
    PartBehind(Lex(src), before, ls);
  }

  /** The writing does not matter. Take two texts, and in each a call, written in
      any way: with any whitespace and comments, any quotes and escapes, its
      numbers in any base, and anything before and behind it. If the tokens of
      the two calls mean the same, the recogniser finds the same seed, the same
      difficulty and the same marker in both, or nothing in either. */
  lemma WritingDoesNotMatter(src: string, i: nat, before: seq<Lexeme>, call: seq<Word>,
                             src': string, i': nat, before': seq<Lexeme>, call': seq<Word>,
                             markerMode: bool, m: nat, k: nat, k': nat, source: string, fl: FloatReader,
                             seed: Option<Seed>, seed': Option<Seed>)
    requires WrittenIn(src, i, before, call) && WrittenIn(src', i', before', call')
    requires SameStream(TokensOf(call), TokensOf(call'), fl)
    requires IsCall(TokensOf(call)) && LooksFrom(TokensOf(call), markerMode, m)
    requires k == |before| + m && SeedAround(Tokens(Lex(src)), k, source, markerMode, fl, seed)
    requires k' == |before'| + m && SeedAround(Tokens(Lex(src')), k', source, markerMode, fl, seed')
    ensures seed == seed' == Classify(CallShapes(TokensOf(call), fl), markerMode, source)
  {
    WordsInStream(src, i, before, call);
    WordsInStream(src', i', before', call');
    MeaningDecides(Tokens(Lex(src)), |before|, TokensOf(call), Tokens(Lex(src')), |before'|, TokensOf(call'),
                   markerMode, m, k, k', source, fl, seed, seed');
  }

  // ---------- what a spelled number means ----------

  function Base(a: Atom): nat
    requires a.Decimal? || a.Prefixed?
  {
    if a.Decimal? then 10
    else if a.radix == 'x' || a.radix == 'X' then 16
    else if a.radix == 'o' || a.radix == 'O' then 8
    else 2
  }

  /** The number an atom denotes: that of its digits, separators aside, if it
      has any and they fit into 63 bits. */
  function NumberOf(a: Atom): Option<int>
    requires a.Decimal? || a.Prefixed?
  {
    var digits := Without(a.digits, '_');
    if digits == "" || DigitsValue(digits, Base(a)) > INT64_MAX then None else Some(DigitsValue(digits, Base(a)))
  }

  lemma {:induction false} WithoutConcat(s: string, t: string, c: char)
    ensures Without(s + t, c) == Without(s, c) + Without(t, c)
    decreases |s|
  {
    if s == "" {
      assert s + t == t;
    } else {
      assert (s + t)[1..] == s[1..] + t;
      WithoutConcat(s[1..], t, c);
    }
  }

  lemma {:induction false} WithoutKeeps(s: string, c: char, p: char -> bool)
    requires AllOf(s, x => p(x) || x == c)
    ensures AllOf(Without(s, c), p)
    decreases |s|
  {
    if s != "" {
      assert forall k :: 0 <= k < |s[1..]| ==> s[1..][k] == s[k + 1];
      WithoutKeeps(s[1..], c, p);
    }
  }

  predicate IsDigitOf(base: nat, c: char) { DigitVal(c) < base }

  lemma RunDigits(a: Atom)
    requires ValidAtom(a) && (a.Decimal? || a.Prefixed?)
    ensures AllDigits(Without(a.digits, '_'), Base(a))
  {
    var base := Base(a);
    WithoutKeeps(a.digits, '_', c => IsDigitOf(base, c));
  }

  lemma CleanDecimal(a: Atom)
    requires ValidAtom(a) && a.Decimal?
    ensures WithoutBigIntSuffix(Without(AtomText(a), '_')) == Without(a.digits, '_')
  {
    var digits := Without(a.digits, '_');
    RunDigits(a);
    WithoutConcat(a.digits, a.suffix, '_');
    assert digits != "" by {
      assert Without(a.digits, '_')[0] == a.digits[0];
    }
    SuffixStripped(digits, a.suffix);
  }

  /** A prefix and digits end in neither letter of the suffix. */
  lemma PrefixedEnd(radix: char, digits: string)
    requires radix in "xXoObB" && AllDigits(digits, 16)
    ensures var s := ['0', radix] + digits; s != "" && s[|s| - 1] != 'n' && s[|s| - 1] != 'N'
  {
    if digits != "" {
      assert (['0', radix] + digits)[|digits| + 1] == digits[|digits| - 1];
    }
  }

  lemma NothingRemoved(radix: char)
    requires radix in "xXoObB"
    ensures Without(['0', radix], '_') == ['0', radix]
  {
    assert ['0', radix][1..] == [radix];
    assert [radix][1..] == "" && Without([radix], '_') == [radix];
  }

  lemma CleanPrefixed(a: Atom)
    requires ValidAtom(a) && a.Prefixed?
    ensures WithoutBigIntSuffix(Without(AtomText(a), '_')) == ['0', a.radix] + Without(a.digits, '_')
  {
    var head, digits := ['0', a.radix], Without(a.digits, '_');
    RunDigits(a);
    WithoutConcat(head + a.digits, a.suffix, '_');
    WithoutConcat(head, a.digits, '_');
    NothingRemoved(a.radix);
    PrefixedEnd(a.radix, digits);
    SuffixStripped(head + digits, a.suffix);
  }

  lemma SuffixStripped(s: string, suffix: string)
    requires ValidSuffix(suffix) && s != "" && s[|s| - 1] != 'n' && s[|s| - 1] != 'N'
    ensures Without(suffix, '_') == suffix && WithoutBigIntSuffix(s + suffix) == s
  {
    if suffix != "" {
      assert (s + suffix)[..|s|] == s;
    } else {
      assert s + suffix == s;
    }
  }

  /** A spelled number is read as the number it denotes, so two spellings of
      one number, whatever their bases, have the same meaning. */
  lemma NumberMeans(a: Atom, fl: FloatReader)
    requires ValidAtom(a) && (a.Decimal? || a.Prefixed?)
    ensures ParseJSNumber(AtomText(a), fl) == NumberOf(a)
  {
    var digits := Without(a.digits, '_');
    if a.Decimal? {
      ReadDecimal(a, fl);
    } else {
      ReadPrefixed(a, fl);
    }
    RunDigits(a);
    UnsignedMeans(digits, Base(a));
  }

  lemma ReadDecimal(a: Atom, fl: FloatReader)
    requires ValidAtom(a) && a.Decimal?
    ensures ParseJSNumber(AtomText(a), fl) == ParseInt(Without(a.digits, '_'), 10)
  {
    CleanDecimal(a);
    RunDigits(a);
    DecimalMeans(Without(a.digits, '_'), fl);
  }

  lemma ReadPrefixed(a: Atom, fl: FloatReader)
    requires ValidAtom(a) && a.Prefixed?
    ensures ParseJSNumber(AtomText(a), fl) == ParseInt(Without(a.digits, '_'), Base(a))
  {
    CleanPrefixed(a);
    PrefixedMeans(a.radix, Without(a.digits, '_'), fl);
  }

  lemma UnsignedMeans(digits: string, base: nat)
    requires AllDigits(digits, base) && base <= 16
    ensures ParseInt(digits, base) ==
      if digits == "" || DigitsValue(digits, base) > INT64_MAX then None else Some(DigitsValue(digits, base))
  {
  }

  lemma PrefixedMeans(radix: char, digits: string, fl: FloatReader)
    requires radix in "xXoObB"
    ensures var s := ['0', radix] + digits;
      !HasPrefix(s, "-") && ParseMagnitude(s, fl) == ParseInt(digits, Base(Prefixed(radix, digits, "")))
  {
    var s := ['0', radix] + digits;
    assert s[2..] == digits && s[..1] == "0" && s[..2] == ['0', radix];
  }

  lemma NoLetterPrefix(digits: string, p: string)
    requires AllDigits(digits, 10) && p != "" && DigitVal(p[|p| - 1]) >= 10
    ensures !HasPrefix(digits, p)
  {
  }

  lemma DecimalMeans(digits: string, fl: FloatReader)
    requires AllDigits(digits, 10)
    ensures !HasPrefix(digits, "-") && ParseMagnitude(digits, fl) == ParseInt(digits, 10)
  {
    NoLetterPrefix(digits, "-");
    NoLetterPrefix(digits, "0x");
    NoLetterPrefix(digits, "0X");
    NoLetterPrefix(digits, "0o");
    NoLetterPrefix(digits, "0O");
    NoLetterPrefix(digits, "0b");
    NoLetterPrefix(digits, "0B");
    assert !ContainsAny(digits, {'.', 'e', 'E'}) by {
      assert forall k :: 0 <= k < |digits| ==> DigitVal(digits[k]) < 10;
    }
  }

  // ---------- the same values, however they are spelled ----------

  predicate IsNumber(a: Atom) { a.Decimal? || a.Prefixed? }

  /** Two atoms that write down the same thing: the same token, the same text between
      any quotes, or the same number in any base. */
  predicate SameValue(a: Atom, b: Atom)
    requires ValidAtom(a) && ValidAtom(b)
  {
    || TokenOf(a) == TokenOf(b)
    || (IsTextual(TokenOf(a)) && IsTextual(TokenOf(b)) && TokenOf(a).val == TokenOf(b).val)
    || (IsNumber(a) && IsNumber(b) && NumberOf(a) == NumberOf(b))
  }

  predicate SameValues(ws: seq<Word>, vs: seq<Word>)
    requires AllValid(ws) && AllValid(vs)
  {
    |ws| == |vs| && (ws == [] || (SameValue(ws[0].atom, vs[0].atom) && SameValues(ws[1..], vs[1..])))
  }

  lemma SameValueMeans(a: Atom, b: Atom, fl: FloatReader)
    requires ValidAtom(a) && ValidAtom(b) && SameValue(a, b)
    ensures SameMeaning(TokenOf(a), TokenOf(b), fl)
  {
    if IsNumber(a) && IsNumber(b) {
      NumberMeans(a, fl);
      NumberMeans(b, fl);
    }
  }

  lemma {:induction false} SameValuesMean(ws: seq<Word>, vs: seq<Word>, fl: FloatReader)
    requires AllValid(ws) && AllValid(vs) && SameValues(ws, vs)
    ensures SameStream(TokensOf(ws), TokensOf(vs), fl)
  {
    if ws != [] {
      SameValueMeans(ws[0].atom, vs[0].atom, fl);
      SameValuesMean(ws[1..], vs[1..], fl);
      StreamCons(TokenOf(ws[0].atom), TokenOf(vs[0].atom), TokensOf(ws[1..]), TokensOf(vs[1..]),
                 TokensOf(ws), TokensOf(vs), fl);
    }
  }

  lemma StreamCons(t: Token, u: Token, ts: seq<Token>, us: seq<Token>, all: seq<Token>, also: seq<Token>,
                   fl: FloatReader)
    requires SameMeaning(t, u, fl) && SameStream(ts, us, fl) && all == [t] + ts && also == [u] + us
    ensures SameStream(all, also, fl)
  {
    forall k | 0 <= k < |all|
      ensures SameAt(all, also, fl, k)
    {
      if k > 0 {
        assert SameAt(ts, us, fl, k - 1);
      }
    }
  }

  /** Two texts that write the same values down as a call, each in its own way and in
      its own surroundings, yield the same seed, difficulty and marker. */
  lemma SpellingDoesNotMatter(src: string, i: nat, before: seq<Lexeme>, call: seq<Word>,
                              src': string, i': nat, before': seq<Lexeme>, call': seq<Word>,
                              markerMode: bool, m: nat, k: nat, k': nat, source: string, fl: FloatReader,
                              seed: Option<Seed>, seed': Option<Seed>)
    requires WrittenIn(src, i, before, call) && WrittenIn(src', i', before', call') && SameValues(call, call')
    requires IsCall(TokensOf(call)) && LooksFrom(TokensOf(call), markerMode, m)
    requires k == |before| + m && SeedAround(Tokens(Lex(src)), k, source, markerMode, fl, seed)
    requires k' == |before'| + m && SeedAround(Tokens(Lex(src')), k', source, markerMode, fl, seed')
    ensures seed == seed'
  {
    SameValuesMean(call, call', fl);
    WritingDoesNotMatter(src, i, before, call, src', i', before', call', markerMode, m, k, k', source, fl, seed, seed');
  }
}
