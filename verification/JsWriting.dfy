/** The whole search, from script bodies to seed, does not depend on how the bodies
    are written (client/captcha_pow.go over client/captcha_jslex.go). */
module JsWriting {
  import opened JsLexer
  import opened JsNumber
  import opened JsSpelling
  import opened JsRoundTrip
  import opened JsTail
  import opened CallWalk
  import opened PowSeed
  import opened PowExtract
  import opened PowMeaning
  import opened Wrappers

  lemma SameFlipped(ts: seq<Token>, us: seq<Token>, fl: FloatReader)
    requires SameStream(ts, us, fl)
    ensures SameStream(us, ts, fl)
  {
    forall k | 0 <= k < |us|
      ensures SameAt(us, ts, fl, k)
    {
      assert SameAt(ts, us, fl, k);
    }
  }

  lemma SameCallOpen(ts: seq<Token>, us: seq<Token>, fl: FloatReader, k: nat, open: nat)
    requires SameStream(ts, us, fl) && CallOpenAt(ts, k, open)
    ensures CallOpenAt(us, k, open)
  {
    SameEncloser(ts, us, fl, k, open);
    assert SameAt(ts, us, fl, open);
    SamePlay(ts[open], us[open], fl);
    if open > 0 {
      assert SameAt(ts, us, fl, open - 1);
      SamePlay(ts[open - 1], us[open - 1], fl);
    }
  }

  lemma SameCallAround(ts: seq<Token>, us: seq<Token>, fl: FloatReader, k: nat, markerMode: bool, open: nat, close: nat)
    requires SameStream(ts, us, fl) && CallAround(ts, k, markerMode, open, close)
    ensures CallAround(us, k, markerMode, open, close)
  {
    SameClose(ts, us, fl, open, close);
    if markerMode {
      SameCallOpen(ts, us, fl, k, open);
    }
  }

  lemma SameList(ts: seq<Token>, us: seq<Token>, fl: FloatReader, open: nat, close: nat, source: string,
                 markerMode: bool)
    requires SameStream(ts, us, fl) && open < close <= |ts|
    ensures ClassifyList(ts, open, close, source, markerMode, fl) ==
            ClassifyList(us, open, close, source, markerMode, fl)
  {
    SameListShapes(ts, us, fl, open, close);
  }

  lemma SameSeedAround(ts: seq<Token>, us: seq<Token>, k: nat, source: string, markerMode: bool, fl: FloatReader,
                       r: Option<Seed>)
    requires SameStream(ts, us, fl) && SeedAround(ts, k, source, markerMode, fl, r)
    ensures SeedAround(us, k, source, markerMode, fl, r)
  {
    if r.Some? {
      var open: nat, close: nat :| CallAround(ts, k, markerMode, open, close);
      SameCallAround(ts, us, fl, k, markerMode, open, close);
    }
    SameFlipped(ts, us, fl);
    forall open: nat, close: nat | CallAround(us, k, markerMode, open, close)
      ensures r == ClassifyList(us, open, close, source, markerMode, fl)
    {
      SameCallAround(us, ts, fl, k, markerMode, open, close);
      SameList(ts, us, fl, open, close, source, markerMode);
    }
  }

  lemma SameSite(ts: seq<Token>, us: seq<Token>, fl: FloatReader, k: nat, markerMode: bool)
    requires SameStream(ts, us, fl) && k < |ts|
    ensures Site(ts[k], markerMode) <==> Site(us[k], markerMode)
  {
    assert SameAt(ts, us, fl, k);
  }

  lemma SameNoSeedAt(ts: seq<Token>, us: seq<Token>, j: nat, source: string, markerMode: bool, fl: FloatReader)
    requires SameStream(ts, us, fl) && j < |ts| && NoSeedAt(ts, j, source, markerMode, fl)
    ensures NoSeedAt(us, j, source, markerMode, fl)
  {
    SameSite(ts, us, fl, j, markerMode);
    if Site(ts[j], markerMode) {
      SameSeedAround(ts, us, j, source, markerMode, fl, None);
    }
  }

  lemma SameNoSeed(ts: seq<Token>, us: seq<Token>, k: nat, source: string, markerMode: bool, fl: FloatReader)
    requires SameStream(ts, us, fl) && k <= |ts| && NoSeedBefore(ts, k, source, markerMode, fl)
    ensures NoSeedBefore(us, k, source, markerMode, fl)
  {
    forall j: nat | j < k
      ensures NoSeedAt(us, j, source, markerMode, fl)
    {
      assert NoSeedAt(ts, j, source, markerMode, fl);
      SameNoSeedAt(ts, us, j, source, markerMode, fl);
    }
  }

  lemma SamePass(ts: seq<Token>, us: seq<Token>, source: string, markerMode: bool, fl: FloatReader, r: Option<Seed>)
    requires SameStream(ts, us, fl) && PassYields(ts, source, markerMode, fl, r)
    ensures PassYields(us, source, markerMode, fl, r)
  {
    if r.None? {
      SameNoSeed(ts, us, |ts|, source, markerMode, fl);
    } else {
      var k: nat :| k < |ts| && FirstSeedAt(ts, k, source, markerMode, fl, r);
      SameNoSeed(ts, us, k, source, markerMode, fl);
      SameSite(ts, us, fl, k, markerMode);
      SameSeedAround(ts, us, k, source, markerMode, fl, r);
      assert FirstSeedAt(us, k, source, markerMode, fl, r);
    }
  }

  /** Two bodies whose tokens mean the same yield the same. */
  lemma SameBody(a: string, b: string, origin: string, fl: FloatReader, r: Option<Seed>)
    requires SameStream(Tokens(Lex(a)), Tokens(Lex(b)), fl) && BodyYields(a, origin, fl, r)
    ensures BodyYields(b, origin, fl, r)
  {
    var ts, us := Tokens(Lex(a)), Tokens(Lex(b));
    if r.Some? && PassYields(ts, origin + "/tokenizer-marker", true, fl, r) {
      SamePass(ts, us, origin + "/tokenizer-marker", true, fl, r);
    } else {
      SamePass(ts, us, origin + "/tokenizer-marker", true, fl, None);
      SamePass(ts, us, origin + "/tokenizer-structure", false, fl, r);
    }
  }

  // ---------- the answer is the only one ----------

  lemma SeedOnce(toks: seq<Token>, k: nat, source: string, markerMode: bool, fl: FloatReader, r: Option<Seed>,
                 q: Option<Seed>)
    requires SeedAround(toks, k, source, markerMode, fl, r) && SeedAround(toks, k, source, markerMode, fl, q)
    ensures r == q
  {
    if r.Some? {
      var open: nat, close: nat :| CallAround(toks, k, markerMode, open, close);
    }
  }

  lemma NoneAt(toks: seq<Token>, j: nat, source: string, markerMode: bool, fl: FloatReader, r: Option<Seed>)
    requires j < |toks| && NoSeedAt(toks, j, source, markerMode, fl)
    requires Site(toks[j], markerMode) && SeedAround(toks, j, source, markerMode, fl, r)
    ensures r.None?
  {
    SeedOnce(toks, j, source, markerMode, fl, r, None);
  }

  lemma FirstOnce(toks: seq<Token>, k: nat, j: nat, source: string, markerMode: bool, fl: FloatReader,
                  r: Option<Seed>, q: Option<Seed>)
    requires k <= j < |toks| && r.Some?
    requires FirstSeedAt(toks, k, source, markerMode, fl, r) && FirstSeedAt(toks, j, source, markerMode, fl, q)
    ensures r == q
  {
    if k < j {
      NoneAt(toks, k, source, markerMode, fl, r);
    }
    SeedOnce(toks, k, source, markerMode, fl, r, q);
  }

  lemma PassOnce(toks: seq<Token>, source: string, markerMode: bool, fl: FloatReader, r: Option<Seed>, q: Option<Seed>)
    requires PassYields(toks, source, markerMode, fl, r) && PassYields(toks, source, markerMode, fl, q) && r.Some?
    ensures r == q
  {
    var k: nat :| k < |toks| && FirstSeedAt(toks, k, source, markerMode, fl, r);
    if q.None? {
      NoneAt(toks, k, source, markerMode, fl, r);
    } else {
      var j: nat :| j < |toks| && FirstSeedAt(toks, j, source, markerMode, fl, q);
      if k <= j {
        FirstOnce(toks, k, j, source, markerMode, fl, r, q);
      } else {
        FirstOnce(toks, j, k, source, markerMode, fl, q, r);
      }
    }
  }

  lemma SomeOnce(body: string, origin: string, fl: FloatReader, r: Option<Seed>, q: Option<Seed>)
    requires BodyYields(body, origin, fl, r) && BodyYields(body, origin, fl, q) && r.Some?
    ensures r == q
  {
    var toks := Tokens(Lex(body));
    var marker, structure := origin + "/tokenizer-marker", origin + "/tokenizer-structure";
    if PassYields(toks, marker, true, fl, r) {
      if q.Some? && PassYields(toks, marker, true, fl, q) {
        PassOnce(toks, marker, true, fl, r, q);
      } else {
        PassOnce(toks, marker, true, fl, r, None);
      }
    } else if q.Some? && PassYields(toks, marker, true, fl, q) {
      PassOnce(toks, marker, true, fl, q, None);
    } else {
      PassOnce(toks, structure, false, fl, r, q);
    }
  }

  /** A body yields one result only. */
  lemma BodyOnce(body: string, origin: string, fl: FloatReader, r: Option<Seed>, q: Option<Seed>)
    requires BodyYields(body, origin, fl, r) && BodyYields(body, origin, fl, q)
    ensures r == q
  {
    if r.Some? {
      SomeOnce(body, origin, fl, r, q);
    } else if q.Some? {
      SomeOnce(body, origin, fl, q, r);
    }
  }

  // ---------- one call rewritten in a body that is otherwise arbitrary ----------

  lemma TokensJoin(ls: seq<Lexeme>, ms: seq<Lexeme>)
    ensures Tokens(ls + ms) == Tokens(ls) + Tokens(ms)
  {
  }

  lemma SameJoined(ts: seq<Token>, us: seq<Token>, vs: seq<Token>, ws: seq<Token>, fl: FloatReader)
    requires SameStream(ts, us, fl) && SameStream(vs, ws, fl)
    ensures SameStream(ts + vs, us + ws, fl)
  {
    forall k | 0 <= k < |ts + vs|
      ensures SameAt(ts + vs, us + ws, fl, k)
    {
      if k < |ts| {
        assert SameAt(ts, us, fl, k);
      } else {
        assert SameAt(vs, ws, fl, k - |ts|);
      }
    }
  }

  /** Behind two writings of the same values the tokens read so far still mean the same. */
  lemma SameReadings(before: seq<Lexeme>, before': seq<Lexeme>, ls: seq<Lexeme>, ls': seq<Lexeme>,
                     ws: seq<Word>, ws': seq<Word>, fl: FloatReader)
    requires SameStream(Tokens(before), Tokens(before'), fl)
    requires AllValid(ws) && AllValid(ws') && SameValues(ws, ws')
    requires Tokens(ls) == TokensOf(ws) && Tokens(ls') == TokensOf(ws')
    ensures SameStream(Tokens(before + ls), Tokens(before' + ls'), fl)
  {
    SameValuesMean(ws, ws', fl);
    SameJoined(Tokens(before), Tokens(before'), Tokens(ls), Tokens(ls'), fl);
    TokensJoin(before, ls);
    TokensJoin(before', ls');
  }

  /** The words written in two texts may differ in their writing; what stands before
      them is read as tokens of the same meaning and what stands behind them is the
      same text. */
  ghost predicate Rewritten(src: string, i: nat, before: seq<Lexeme>, words: seq<Word>,
                            src': string, i': nat, before': seq<Lexeme>, words': seq<Word>, fl: FloatReader) {
    && WrittenIn(src, i, before, words) && WrittenIn(src', i', before', words') && SameValues(words, words')
    && SameStream(Tokens(before), Tokens(before'), fl)
    && src[i + |Written(words)|..] == src'[i' + |Written(words')|..]
  }

  /** Then the two texts are read as streams of the same meaning. */
  lemma RewritingKeepsMeaning(src: string, i: nat, before: seq<Lexeme>, words: seq<Word>,
                              src': string, i': nat, before': seq<Lexeme>, words': seq<Word>, fl: FloatReader)
    requires Rewritten(src, i, before, words, src', i', before', words', fl)
    ensures SameStream(Tokens(Lex(src)), Tokens(Lex(src')), fl)
  {
    var j, j' := i + |Written(words)|, i' + |Written(words')|;
    var ls := WordsRead(src, i, words, before, j);
    var ls' := WordsRead(src', i', words', before', j');
    SameReadings(before, before', ls, ls', words, words', fl);
    TailsReadAlike(src, j, before + ls, src', j', before' + ls', fl);
  }

  /** Write some of a script body's values down in another way, say one call, and leave
      the rest of the body as it is, whatever it holds: the search yields the same
      seed, difficulty and marker as before, or nothing as before. */
  lemma ExtractionIgnoresRewriting(src: string, i: nat, before: seq<Lexeme>, words: seq<Word>,
                                   src': string, i': nat, before': seq<Lexeme>, words': seq<Word>,
                                   origin: string, fl: FloatReader, r: Option<Seed>, q: Option<Seed>)
    requires Rewritten(src, i, before, words, src', i', before', words', fl)
    requires BodyYields(src, origin, fl, r) && BodyYields(src', origin, fl, q)
    ensures r == q
  {
    RewritingKeepsMeaning(src, i, before, words, src', i', before', words', fl);
    SameBody(src, src', origin, fl, r);
    BodyOnce(src', origin, fl, r, q);
  }

  // ---------- any number of rewritings ----------

  lemma SameThrough(ts: seq<Token>, us: seq<Token>, vs: seq<Token>, fl: FloatReader)
    requires SameStream(ts, us, fl) && SameStream(us, vs, fl)
    ensures SameStream(ts, vs, fl)
  {
    forall k | 0 <= k < |ts|
      ensures SameAt(ts, vs, fl, k)
    {
      assert SameAt(ts, us, fl, k) && SameAt(us, vs, fl, k);
    }
  }

  /** Some words of the one text are written in another way in the other. */
  ghost predicate RewrittenInto(src: string, src': string, fl: FloatReader) {
    exists i: nat, before: seq<Lexeme>, words: seq<Word>, i': nat, before': seq<Lexeme>, words': seq<Word> ::
      Rewritten(src, i, before, words, src', i', before', words', fl)
  }

  /** Each body of the list comes from the one before it by such a rewriting. */
  ghost predicate RewrittenStepwise(bodies: seq<string>, fl: FloatReader) {
    |bodies| >= 1 && forall k: nat :: k + 1 < |bodies| ==> RewrittenAt(bodies, k, fl)
  }

  ghost predicate RewrittenAt(bodies: seq<string>, k: nat, fl: FloatReader)
    requires k + 1 < |bodies|
  {
    RewrittenInto(bodies[k], bodies[k + 1], fl)
  }

  lemma OneRewriting(src: string, src': string, fl: FloatReader)
    requires RewrittenInto(src, src', fl)
    ensures SameStream(Tokens(Lex(src)), Tokens(Lex(src')), fl)
  {
    var i: nat, before: seq<Lexeme>, words: seq<Word>, i': nat, before': seq<Lexeme>, words': seq<Word> :|
      Rewritten(src, i, before, words, src', i', before', words', fl);
    RewritingKeepsMeaning(src, i, before, words, src', i', before', words', fl);
  }

  lemma SameAsItself(ts: seq<Token>, fl: FloatReader)
    ensures SameStream(ts, ts, fl)
  {
    forall k | 0 <= k < |ts|
      ensures SameAt(ts, ts, fl, k)
    {
    }
  }

  ghost predicate SameNext(streams: seq<seq<Token>>, k: nat, fl: FloatReader)
    requires k + 1 < |streams|
  {
    SameStream(streams[k], streams[k + 1], fl)
  }

  lemma {:induction false} SameAlong(streams: seq<seq<Token>>, n: nat, fl: FloatReader)
    requires n < |streams| && forall k: nat :: k + 1 < |streams| ==> SameNext(streams, k, fl)
    ensures SameStream(streams[0], streams[n], fl)
    decreases n
  {
    if n == 0 {
      SameAsItself(streams[0], fl);
    } else {
      SameAlong(streams, n - 1, fl);
      assert SameNext(streams, n - 1, fl);
      SameThrough(streams[0], streams[n - 1], streams[n], fl);
    }
  }

  function StreamsOf(bodies: seq<string>): (streams: seq<seq<Token>>)
    ensures |streams| == |bodies|
  {
    seq(|bodies|, k requires 0 <= k < |bodies| => Tokens(Lex(bodies[k])))
  }

  lemma NextMeans(bodies: seq<string>, streams: seq<seq<Token>>, k: nat, fl: FloatReader)
    requires streams == StreamsOf(bodies) && k + 1 < |bodies| && RewrittenAt(bodies, k, fl)
    ensures SameNext(streams, k, fl)
  {
    var here, next := bodies[k], bodies[k + 1];
    OneRewriting(here, next, fl);
  }

  lemma StepsKeepMeaning(bodies: seq<string>, n: nat, streams: seq<seq<Token>>, ts: seq<Token>, us: seq<Token>,
                         fl: FloatReader)
    requires RewrittenStepwise(bodies, fl) && n < |bodies| && streams == StreamsOf(bodies)
    requires ts == streams[0] && us == streams[n]
    ensures SameStream(ts, us, fl)
  {
    forall k: nat | k + 1 < |streams|
      ensures SameNext(streams, k, fl)
    {
      assert RewrittenAt(bodies, k, fl);
      NextMeans(bodies, streams, k, fl);
    }
    SameAlong(streams, n, fl);
  }

  lemma StreamAt(bodies: seq<string>, streams: seq<seq<Token>>, k: nat, body: string)
    requires k < |bodies| && streams == StreamsOf(bodies) && body == bodies[k]
    ensures streams[k] == Tokens(Lex(body))
  {
  }

  lemma EndsMean(bodies: seq<string>, one: string, other: string, fl: FloatReader)
    requires RewrittenStepwise(bodies, fl) && one == bodies[0] && other == bodies[|bodies| - 1]
    ensures SameStream(Tokens(Lex(one)), Tokens(Lex(other)), fl)
  {
    var streams, n := StreamsOf(bodies), |bodies| - 1;
    StreamAt(bodies, streams, 0, one);
    StreamAt(bodies, streams, n, other);
    StepsKeepMeaning(bodies, n, streams, Tokens(Lex(one)), Tokens(Lex(other)), fl);
  }

  /** Two script bodies that come from each other by any number of rewritings, each of
      any words anywhere, are searched with the same result: the same seed, difficulty
      and marker, or nothing in either. */
  lemma ExtractionIgnoresWriting(bodies: seq<string>, one: string, other: string, origin: string, fl: FloatReader,
                                 r: Option<Seed>, q: Option<Seed>)
    requires RewrittenStepwise(bodies, fl) && one == bodies[0] && other == bodies[|bodies| - 1]
    requires BodyYields(one, origin, fl, r) && BodyYields(other, origin, fl, q)
    ensures r == q
  {
    EndsMean(bodies, one, other, fl);
    SameBody(one, other, origin, fl, r);
    BodyOnce(other, origin, fl, r, q);
  }
}
