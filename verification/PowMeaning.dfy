/** What the recogniser does depend on: the meaning of the tokens of one call,
    neither their spelling nor what stands before or behind the call. */
module PowMeaning {
  import opened JsLexer
  import opened JsNumber
  import opened CallWalk
  import opened CallJoin
  import opened PowSeed
  import opened Wrappers

  /** The same token; or two texts with the same value, whether string or
      template; or two literals of the same number. */
  predicate SameMeaning(t: Token, u: Token, fl: FloatReader) {
    || t == u
    || (IsTextual(t) && IsTextual(u) && t.val == u.val)
    || (t.kind == Num && u.kind == Num && ParseJSNumber(t.val, fl) == ParseJSNumber(u.val, fl))
  }

  predicate SameAt(ts: seq<Token>, us: seq<Token>, fl: FloatReader, k: nat)
    requires k < |ts| == |us|
  {
    SameMeaning(ts[k], us[k], fl)
  }

  ghost predicate SameStream(ts: seq<Token>, us: seq<Token>, fl: FloatReader) {
    |ts| == |us| && forall k :: 0 <= k < |ts| ==> SameAt(ts, us, fl, k)
  }

  lemma {:induction false} SameDepth(ts: seq<Token>, us: seq<Token>, fl: FloatReader, lo: nat, hi: nat)
    requires SameStream(ts, us, fl) && lo <= hi <= |ts|
    ensures Depth(ts, lo, hi) == Depth(us, lo, hi)
    decreases hi
  {
    if lo < hi {
      SameDepth(ts, us, fl, lo, hi - 1);
      assert SameAt(ts, us, fl, hi - 1);
    }
  }

  /** Tokens of the same meaning play the same part in a call. */
  lemma SamePlay(t: Token, u: Token, fl: FloatReader)
    requires SameMeaning(t, u, fl)
    ensures t == u || (t.kind != Punct && u.kind != Punct && t.kind != Ident && u.kind != Ident)
  {
  }

  lemma SameStart(ts: seq<Token>, us: seq<Token>, fl: FloatReader, open: nat, j: nat)
    requires SameStream(ts, us, fl) && open < j < |ts|
    ensures StartsArg(ts, open, j) <==> StartsArg(us, open, j)
  {
    assert SameAt(ts, us, fl, j - 1);
    SamePlay(ts[j - 1], us[j - 1], fl);
  }

  lemma SameInner(ts: seq<Token>, us: seq<Token>, fl: FloatReader, open: nat, j: nat)
    requires SameStream(ts, us, fl) && open < j < |ts|
    ensures Inner(ts, open, j) <==> Inner(us, open, j)
    ensures TopComma(ts, open, j) <==> TopComma(us, open, j)
  {
    SameDepth(ts, us, fl, open + 1, j);
    SameStart(ts, us, fl, open, j);
    assert SameAt(ts, us, fl, j);
    SamePlay(ts[j], us[j], fl);
  }

  lemma SameClose(ts: seq<Token>, us: seq<Token>, fl: FloatReader, open: nat, close: nat)
    requires SameStream(ts, us, fl) && ClosesAt(ts, open, close)
    ensures ClosesAt(us, open, close)
  {
    SameDepth(ts, us, fl, open + 1, close);
    assert SameAt(ts, us, fl, open) && SameAt(ts, us, fl, close);
    forall j | open < j < close
      ensures Inner(us, open, j)
    {
      assert Inner(ts, open, j);
      SameInner(ts, us, fl, open, j);
    }
  }

  lemma SameEncloser(ts: seq<Token>, us: seq<Token>, fl: FloatReader, k: nat, j: nat)
    requires SameStream(ts, us, fl) && EncloserAt(ts, k, j)
    ensures EncloserAt(us, k, j)
  {
    SameDepth(ts, us, fl, j + 1, k);
    assert SameAt(ts, us, fl, j);
    forall m | j < m < k && IsOpener(us[m])
      ensures Depth(us, m + 1, k) < 0
    {
      assert SameAt(ts, us, fl, m);
      SameDepth(ts, us, fl, m + 1, k);
    }
  }

  ghost predicate SameArgs(a: seq<seq<Token>>, b: seq<seq<Token>>, fl: FloatReader) {
    |a| == |b| && (a == [] || (SameArgs(a[..|a| - 1], b[..|b| - 1], fl) && SameStream(a[|a| - 1], b[|b| - 1], fl)))
  }

  lemma SameComma(ts: seq<Token>, us: seq<Token>, fl: FloatReader, open: nat, j: nat, comma: bool)
    requires SameStream(ts, us, fl) && open < j < |ts| && (comma <==> TopComma(ts, open, j))
    ensures comma <==> TopComma(us, open, j)
  {
    SameInner(ts, us, fl, open, j);
  }

  lemma {:induction false} SameMarks(ts: seq<Token>, us: seq<Token>, fl: FloatReader, open: nat, i: nat)
    requires SameStream(ts, us, fl) && open < i <= |ts|
    ensures Marks(ts, open, i) == Marks(us, open, i)
    decreases i
  {
    if i > open + 1 {
      var before, comma := Marks(ts, open, i - 1), TopComma(ts, open, i - 1);
      SameMarks(ts, us, fl, open, i - 1);
      SameComma(ts, us, fl, open, i - 1, comma);
      MarksNext(ts, open, i, before, comma);
      MarksNext(us, open, i, before, comma);
    }
  }

  lemma SamePart(ts: seq<Token>, us: seq<Token>, fl: FloatReader, lo: nat, hi: nat)
    requires SameStream(ts, us, fl) && lo <= hi <= |ts|
    ensures SameStream(ts[lo..hi], us[lo..hi], fl)
  {
    forall k | 0 <= k < hi - lo
      ensures SameAt(ts[lo..hi], us[lo..hi], fl, k)
    {
      assert SameAt(ts, us, fl, lo + k);
    }
  }

  lemma SameArgsSnoc(a: seq<seq<Token>>, b: seq<seq<Token>>, x: seq<Token>, y: seq<Token>, fl: FloatReader)
    requires SameArgs(a, b, fl) && SameStream(x, y, fl)
    ensures SameArgs(a + [x], b + [y], fl)
  {
    assert (a + [x])[..|a|] == a && (b + [y])[..|b|] == b;
  }

  lemma {:induction false} SameDone(ts: seq<Token>, us: seq<Token>, fl: FloatReader, open: nat, i: nat,
                                    a: seq<seq<Token>>, b: seq<seq<Token>>)
    requires SameStream(ts, us, fl) && open < i <= |ts|
    requires a == Done(ts, open, i) && b == Done(us, open, i)
    ensures SameArgs(a, b, fl)
    decreases i
  {
    if i > open + 1 {
      var c, d := Done(ts, open, i - 1), Done(us, open, i - 1);
      var x, y := Pending(ts, open, i - 1), Pending(us, open, i - 1);
      var comma := TopComma(ts, open, i - 1);
      SameDone(ts, us, fl, open, i - 1, c, d);
      SameComma(ts, us, fl, open, i - 1, comma);
      SamePending(ts, us, fl, open, i - 1, x, y);
      DoneNext(ts, open, i, c, x, comma);
      DoneNext(us, open, i, d, y, comma);
      SameArgsGrow(c, d, x, y, comma, a, b, fl);
    }
  }

  lemma SameArgsGrow(c: seq<seq<Token>>, d: seq<seq<Token>>, x: seq<Token>, y: seq<Token>, comma: bool,
                     a: seq<seq<Token>>, b: seq<seq<Token>>, fl: FloatReader)
    requires SameArgs(c, d, fl) && SameStream(x, y, fl)
    requires a == (if comma then c + [x] else c) && b == if comma then d + [y] else d
    ensures SameArgs(a, b, fl)
  {
    SameArgsSnoc(c, d, x, y, fl);
  }

  lemma SamePending(ts: seq<Token>, us: seq<Token>, fl: FloatReader, open: nat, i: nat, x: seq<Token>, y: seq<Token>)
    requires SameStream(ts, us, fl) && open < i <= |ts|
    requires x == Pending(ts, open, i) && y == Pending(us, open, i)
    ensures SameStream(x, y, fl)
  {
    SameMarks(ts, us, fl, open, i);
    SamePart(ts, us, fl, LastMark(ts, open, i) + 1, i);
  }

  lemma {:induction false} SameItems(a: seq<Token>, b: seq<Token>, fl: FloatReader)
    requires SameStream(a, b, fl)
    ensures FlatMap(a, TextItem) == FlatMap(b, TextItem)
    decreases |a|
  {
    if a != [] {
      SamePart(a, b, fl, 0, |a| - 1);
      SameItems(a[..|a| - 1], b[..|b| - 1], fl);
      assert SameAt(a, b, fl, |a| - 1);
    }
  }

  lemma SameShape(a: seq<Token>, b: seq<Token>, fl: FloatReader)
    requires SameStream(a, b, fl)
    ensures ShapeOf(a, fl) == ShapeOf(b, fl)
  {
    if a != [] {
      assert SameAt(a, b, fl, 0) && SameAt(a, b, fl, |a| - 1);
    }
    if |a| >= 2 {
      SamePart(a, b, fl, 1, |a| - 1);
      SameItems(a[1..|a| - 1], b[1..|b| - 1], fl);
    }
  }

  lemma {:induction false} SameShapes(a: seq<seq<Token>>, b: seq<seq<Token>>, fl: FloatReader)
    requires SameArgs(a, b, fl)
    ensures Shapes(a, fl) == Shapes(b, fl)
  {
    if a != [] {
      SameShapes(a[..|a| - 1], b[..|b| - 1], fl);
      SameShape(a[|a| - 1], b[|b| - 1], fl);
      ShapesSnoc(a, fl);
      ShapesSnoc(b, fl);
    }
  }

  lemma ShapesSnoc(a: seq<seq<Token>>, fl: FloatReader)
    requires a != []
    ensures Shapes(a, fl) == Shapes(a[..|a| - 1], fl) + [ShapeOf(a[|a| - 1], fl)]
  {
  }

  lemma SameArgList(ts: seq<Token>, us: seq<Token>, fl: FloatReader, open: nat, close: nat)
    requires SameStream(ts, us, fl) && open < close <= |ts|
    ensures SameArgs(ArgList(ts, open, close), ArgList(us, open, close), fl)
  {
    var c, d := Done(ts, open, close), Done(us, open, close);
    var x, y := Pending(ts, open, close), Pending(us, open, close);
    SameDone(ts, us, fl, open, close, c, d);
    SamePending(ts, us, fl, open, close, x, y);
    SameArgsSnoc(c, d, x, y, fl);
  }

  // ---------- a call within a larger stream ----------

  lemma InnerOfPart(toks: seq<Token>, at: nat, part: seq<Token>, open: nat, j: nat, o: nat, k: nat)
    requires PartAt(toks, at, part) && open < j < |part|
    requires o == at + open && k == at + j
    ensures Inner(part, open, j) <==> Inner(toks, o, k)
    ensures TopComma(part, open, j) <==> TopComma(toks, o, k)
  {
    DepthOfPart(toks, part, at, open + 1, j);
    PartIndex(toks, at, part, j, k);
    PartIndex(toks, at, part, j - 1, k - 1);
  }

  lemma CommaOfPart(toks: seq<Token>, at: nat, part: seq<Token>, open: nat, j: nat, o: nat, k: nat)
    requires PartAt(toks, at, part) && open < j < |part| && o == at + open && k == at + j
    ensures TopComma(toks, o, k) <==> TopComma(part, open, j)
  {
    InnerOfPart(toks, at, part, open, j, o, k);
  }

  lemma CloseOfPart(toks: seq<Token>, at: nat, part: seq<Token>, open: nat, close: nat)
    requires PartAt(toks, at, part) && ClosesAt(part, open, close)
    ensures ClosesAt(toks, at + open, at + close)
  {
    DepthOfPart(toks, part, at, open + 1, close);
    PartIndex(toks, at, part, open, at + open);
    PartIndex(toks, at, part, close, at + close);
    var o := at + open;
    forall j | o < j < at + close
      ensures Inner(toks, o, j)
    {
      assert Inner(part, open, j - at);
      InnerOfPart(toks, at, part, open, j - at, o, j);
    }
  }

  lemma EncloserOfPart(toks: seq<Token>, at: nat, part: seq<Token>, k: nat, j: nat)
    requires PartAt(toks, at, part) && EncloserAt(part, k, j)
    ensures EncloserAt(toks, at + k, at + j)
  {
    DepthOfPart(toks, part, at, j + 1, k);
    PartIndex(toks, at, part, j, at + j);
    forall m | at + j < m < at + k && IsOpener(toks[m])
      ensures Depth(toks, m + 1, at + k) < 0
    {
      PartIndex(toks, at, part, m - at, m);
      DepthOfPart(toks, part, at, m - at + 1, k);
    }
  }

  lemma {:induction false} MarkOfPart(toks: seq<Token>, at: nat, part: seq<Token>, open: nat, i: nat, o: nat, k: nat)
    requires PartAt(toks, at, part) && open < i <= |part|
    requires o == at + open && k == at + i
    ensures LastMark(toks, o, k) == at + LastMark(part, open, i)
    decreases i
  {
    if i > open + 1 {
      var m, comma := LastMark(part, open, i - 1), TopComma(part, open, i - 1);
      MarkOfPart(toks, at, part, open, i - 1, o, k - 1);
      CommaOfPart(toks, at, part, open, i - 1, o, k - 1);
      LastMarkNext(part, open, i, m, comma);
      LastMarkNext(toks, o, k, at + m, comma);
    }
  }

  lemma PendingOfPart(toks: seq<Token>, at: nat, part: seq<Token>, open: nat, i: nat, o: nat, k: nat)
    requires PartAt(toks, at, part) && open < i <= |part|
    requires o == at + open && k == at + i
    ensures Pending(toks, o, k) == Pending(part, open, i)
  {
    MarkOfPart(toks, at, part, open, i, o, k);
    SliceOfPart(toks, at, part, LastMark(part, open, i) + 1, i);
  }

  lemma SliceOfPart(toks: seq<Token>, at: nat, part: seq<Token>, lo: nat, hi: nat)
    requires PartAt(toks, at, part) && lo <= hi <= |part|
    ensures toks[at + lo..at + hi] == part[lo..hi]
  {
    forall i | 0 <= i < hi - lo
      ensures toks[at + lo..at + hi][i] == part[lo..hi][i]
    {
      PartIndex(toks, at, part, lo + i, at + lo + i);
    }
  }

  /** The two streams have the same token, and the same argument so far, `d` tokens
      after their brackets. */
  predicate Agree(toks: seq<Token>, o: nat, part: seq<Token>, open: nat, d: nat)
    requires 0 < d && o + d < |toks| && open + d < |part|
  {
    && Pending(toks, o, o + d) == Pending(part, open, open + d)
    && (TopComma(toks, o, o + d) <==> TopComma(part, open, open + d))
  }

  lemma DoneStep(toks: seq<Token>, o: nat, part: seq<Token>, open: nat, k: nat, i: nat,
                 before: seq<seq<Token>>, last: seq<Token>, comma: bool)
    requires o + 1 < k <= |toks| && open + 1 < i <= |part|
    requires before == Done(toks, o, k - 1) && before == Done(part, open, i - 1)
    requires last == Pending(toks, o, k - 1) && last == Pending(part, open, i - 1)
    requires (comma <==> TopComma(toks, o, k - 1)) && (comma <==> TopComma(part, open, i - 1))
    ensures Done(toks, o, k) == Done(part, open, i)
  {
    DoneNext(part, open, i, before, last, comma);
    DoneNext(toks, o, k, before, last, comma);
  }

  lemma {:induction false} DoneAgrees(toks: seq<Token>, o: nat, part: seq<Token>, open: nat, n: nat, k: nat, i: nat)
    requires 0 < n && k == o + n <= |toks| && i == open + n <= |part|
    requires forall d: nat :: 0 < d < n ==> Agree(toks, o, part, open, d)
    ensures Done(toks, o, k) == Done(part, open, i)
    decreases n
  {
    if n > 1 {
      DoneAgrees(toks, o, part, open, n - 1, k - 1, i - 1);
      assert Agree(toks, o, part, open, n - 1);
      DoneStep(toks, o, part, open, k, i, Done(part, open, i - 1), Pending(part, open, i - 1),
               TopComma(part, open, i - 1));
    }
  }

  lemma AgreeOfPart(toks: seq<Token>, at: nat, part: seq<Token>, open: nat, o: nat, d: nat)
    requires PartAt(toks, at, part) && 0 < d && open + d < |part| && o == at + open
    ensures Agree(toks, o, part, open, d)
  {
    CommaOfPart(toks, at, part, open, open + d, o, o + d);
    PendingOfPart(toks, at, part, open, open + d, o, o + d);
  }

  lemma DoneOfPart(toks: seq<Token>, at: nat, part: seq<Token>, open: nat, i: nat, o: nat, k: nat)
    requires PartAt(toks, at, part) && open < i <= |part|
    requires o == at + open && k == at + i
    ensures Done(toks, o, k) == Done(part, open, i)
  {
    forall d: nat | 0 < d < i - open
      ensures Agree(toks, o, part, open, d)
    {
      AgreeOfPart(toks, at, part, open, o, d);
    }
    DoneAgrees(toks, o, part, open, i - open, k, i);
  }

  lemma ArgListOfPart(toks: seq<Token>, at: nat, part: seq<Token>, open: nat, close: nat, o: nat, c: nat)
    requires PartAt(toks, at, part) && open < close <= |part|
    requires o == at + open && c == at + close
    ensures ArgList(toks, o, c) == ArgList(part, open, close)
  {
    DoneOfPart(toks, at, part, open, close, o, c);
    PendingOfPart(toks, at, part, open, close, o, c);
  }

  /** A call is a callee, its "(", and everything up to the ")" that closes it. */
  ghost predicate IsCall(call: seq<Token>) {
    |call| >= 3 && IsCallee(call[0]) && ClosesAt(call, 1, |call| - 1)
  }

  /** What the recogniser sees of a call: the shapes of its arguments. */
  function CallShapes(call: seq<Token>, fl: FloatReader): seq<Shape>
    requires |call| >= 3
  {
    Shapes(ArgList(call, 1, |call| - 1), fl)
  }

  lemma SameIsCall(call: seq<Token>, other: seq<Token>, fl: FloatReader)
    requires IsCall(call) && SameStream(call, other, fl)
    ensures IsCall(other)
  {
    assert SameAt(call, other, fl, 0);
    SameClose(call, other, fl, 1, |call| - 1);
  }

  lemma SameListShapes(ts: seq<Token>, us: seq<Token>, fl: FloatReader, open: nat, close: nat)
    requires SameStream(ts, us, fl) && open < close <= |ts|
    ensures Shapes(ArgList(ts, open, close), fl) == Shapes(ArgList(us, open, close), fl)
  {
    var a, b := ArgList(ts, open, close), ArgList(us, open, close);
    SameArgList(ts, us, fl, open, close);
    SameShapes(a, b, fl);
  }

  lemma SameCallShapes(call: seq<Token>, other: seq<Token>, fl: FloatReader)
    requires IsCall(call) && SameStream(call, other, fl)
    ensures IsCall(other) && CallShapes(call, fl) == CallShapes(other, fl)
  {
    SameIsCall(call, other, fl);
    SameListShapes(call, other, fl, 1, |call| - 1);
  }

  /** Where the recogniser looks at a call from: its "(", or in marker mode one
      of its direct arguments. */
  ghost predicate LooksFrom(call: seq<Token>, markerMode: bool, m: nat) {
    if markerMode then EncloserAt(call, m, 1) else m == 1
  }

  lemma CallAroundPart(toks: seq<Token>, at: nat, call: seq<Token>, markerMode: bool, m: nat, k: nat, open: nat,
                       close: nat)
    requires IsCall(call) && PartAt(toks, at, call) && LooksFrom(call, markerMode, m)
    requires k == at + m && open == at + 1 && close == at + |call| - 1
    ensures CallAround(toks, k, markerMode, open, close)
  {
    CloseOfPart(toks, at, call, 1, |call| - 1);
    if markerMode {
      EncloserOfPart(toks, at, call, m, 1);
      PartIndex(toks, at, call, 0, at + 0);
      PartIndex(toks, at, call, 1, at + 1);
    }
  }

  lemma SeedByShapes(toks: seq<Token>, k: nat, open: nat, close: nat, markerMode: bool, source: string, fl: FloatReader,
                     shapes: seq<Shape>, seed: Option<Seed>)
    requires CallAround(toks, k, markerMode, open, close) && SeedAround(toks, k, source, markerMode, fl, seed)
    requires Shapes(ArgList(toks, open, close), fl) == shapes
    ensures seed == Classify(shapes, markerMode, source)
  {
  }

  lemma ShapesLocal(toks: seq<Token>, at: nat, call: seq<Token>, open: nat, close: nat, fl: FloatReader)
    requires PartAt(toks, at, call) && |call| >= 3 && open == at + 1 && close == at + |call| - 1
    ensures Shapes(ArgList(toks, open, close), fl) == CallShapes(call, fl)
  {
    var n := |call| - 1;
    var here, there := ArgList(toks, open, close), ArgList(call, 1, n);
    ArgListOfPart(toks, at, call, 1, n, open, close);
    assert here == there;
  }

  lemma CallIsLocal(toks: seq<Token>, at: nat, call: seq<Token>, markerMode: bool, m: nat, k: nat, fl: FloatReader)
      returns (open: nat, close: nat)
    requires IsCall(call) && PartAt(toks, at, call) && LooksFrom(call, markerMode, m) && k == at + m
    ensures CallAround(toks, k, markerMode, open, close)
    ensures Shapes(ArgList(toks, open, close), fl) == CallShapes(call, fl)
  {
    open, close := at + 1, at + |call| - 1;
    CallAroundPart(toks, at, call, markerMode, m, k, open, close);
    ShapesLocal(toks, at, call, open, close, fl);
  }

  /** Wherever it stands, a call is classified by its own shapes. */
  lemma SeedIsLocal(toks: seq<Token>, at: nat, call: seq<Token>, markerMode: bool, m: nat, k: nat, source: string,
                    fl: FloatReader, seed: Option<Seed>)
    requires IsCall(call) && PartAt(toks, at, call) && LooksFrom(call, markerMode, m) && k == at + m
    requires SeedAround(toks, k, source, markerMode, fl, seed)
    ensures seed == Classify(CallShapes(call, fl), markerMode, source)
  {
    var open, close := CallIsLocal(toks, at, call, markerMode, m, k, fl);
    SeedByShapes(toks, k, open, close, markerMode, source, fl, CallShapes(call, fl), seed);
  }

  lemma SameLook(call: seq<Token>, other: seq<Token>, fl: FloatReader, markerMode: bool, m: nat)
    requires SameStream(call, other, fl) && LooksFrom(call, markerMode, m)
    ensures LooksFrom(other, markerMode, m)
  {
    if markerMode {
      SameEncloser(call, other, fl, m, 1);
    }
  }

  /** Two calls of the same meaning carry the same seed, wherever each stands
      and whatever stands around it. */
  lemma MeaningDecides(ts: seq<Token>, i: nat, call: seq<Token>, us: seq<Token>, j: nat, other: seq<Token>,
                       markerMode: bool, m: nat, p: nat, q: nat, source: string, fl: FloatReader,
                       a: Option<Seed>, b: Option<Seed>)
    requires IsCall(call) && LooksFrom(call, markerMode, m) && SameStream(call, other, fl)
    requires PartAt(ts, i, call) && p == i + m && SeedAround(ts, p, source, markerMode, fl, a)
    requires PartAt(us, j, other) && q == j + m && SeedAround(us, q, source, markerMode, fl, b)
    ensures a == b == Classify(CallShapes(call, fl), markerMode, source)
  {
    SameCallShapes(call, other, fl);
    SameLook(call, other, fl, markerMode, m);
    SeedIsLocal(ts, i, call, markerMode, m, p, source, fl, a);
    SeedIsLocal(us, j, other, markerMode, m, q, source, fl, b);
  }

  /** What a call written from its arguments is: its shapes are theirs. */
  lemma CallOfArgs(callee: Token, args: seq<seq<Token>>, fl: FloatReader, call: seq<Token>)
    requires IsCallee(callee) && AllSelfContained(args) && args != [[]]
    requires call == [callee, Token(Punct, "(")] + Join(args) + [Token(Punct, ")")]
    ensures IsCall(call) && CallShapes(call, fl) == Shapes(args, fl)
  {
    var joined := Join(args);
    assert call[2..2 + |joined|] == joined;
    SplitUndoesJoin(call, 1, args, |call| - 1);
  }
}
