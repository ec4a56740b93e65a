/** Recognising the proof-of-work seed among the arguments of a call
    (client/captcha_pow.go). */
module PowSeed {
  import opened JsLexer
  import opened JsNumber
  import opened CallWalk
  import opened Wrappers

  datatype Seed = Seed(powInput: string, difficulty: int, marker: string, source: string)

  /** What one argument is to the recogniser. A number outside 1..16 is `Level(0)`. */
  datatype Shape = Text(text: string) | Level(level: int) | Array(items: seq<string>) | Other

  const KNOWN_COMPONENTS: set<string> := {
    "frame", "cookie_test", "referrer", "nav_tamper", "timezone_locale", "plugins",
    "devtools", "ua", "shadow_dom_check", "env_viewport", "device_pixel_ratio",
    "native_integrity", "match_media", "env_ua", "max_touch_points", "chrome_runtime",
    "media_codecs", "ancestor_origins", "globals", "css", "sandbox_behavior",
    "origin_via_self", "font", "webgl", "canvas", "audio", "battery", "speech",
    "notification", "permissions"
  }

  const MARKER := "pow_timeout"

  /** A string, or a template literal with some text. */
  predicate IsTextual(t: Token) { t.kind == Str || (t.kind == Template && t.val != "") }

  function FlatMap<A, B>(s: seq<A>, f: A -> seq<B>): seq<B> {
    if s == [] then [] else FlatMap(s[..|s| - 1], f) + f(s[|s| - 1])
  }

  function TextItem(t: Token): seq<string> { if IsTextual(t) then [t.val] else [] }

  function LevelOf(text: string, fl: FloatReader): int {
    match ParseJSNumber(text, fl)
    case Some(v) => if 1 <= v <= 16 then v else 0
    case None => 0
  }

  function ShapeOf(arg: seq<Token>, fl: FloatReader): Shape {
    if |arg| == 1 && IsTextual(arg[0]) then Text(arg[0].val)
    else if |arg| == 1 && arg[0].kind == Num then Level(LevelOf(arg[0].val, fl))
    else if |arg| >= 2 && IsPunct(arg[0], "[") && IsPunct(arg[|arg| - 1], "]")
    then Array(FlatMap(arg[1..|arg| - 1], TextItem))
    else Other
  }

  // ---------- the seed's shape and the hint words ----------

  predicate IsSeedChar(c: char) { 'a' <= c <= 'z' || 'A' <= c <= 'Z' || '0' <= c <= '9' || c == '_' || c == '-' }

  predicate SeedShaped(s: string) { 6 <= |s| <= 64 && forall k :: 0 <= k < |s| ==> IsSeedChar(s[k]) }

  function LowerChar(c: char): char {
    if 'A' <= c <= 'Z' then (c as int - 'A' as int + 'a' as int) as char else c
  }

  /** Lower case as far as the ASCII letters of the result go: besides A to Z,
      the two-byte encoding of U+0130 is lowered to "i". */
  function Lower(s: string): string {
    if s == "" then ""
    else if |s| >= 2 && s[0] == '\U{C4}' && s[1] == '\U{B0}' then "i" + Lower(s[2..])
    else [LowerChar(s[0])] + Lower(s[1..])
  }

  predicate WordAt(s: string, k: nat, word: string) { k + |word| <= |s| && s[k..k + |word|] == word }

  predicate Contains(s: string, word: string) { exists k :: 0 <= k <= |s| && WordAt(s, k, word) }

  predicate Hinted(s: string) {
    var low := Lower(s);
    Contains(low, "pow") || Contains(low, "timeout") || Contains(low, "seed")
  }

  // ---------- classification ----------

  function TextOf(s: Shape): seq<string> { if s.Text? then [s.text] else [] }

  function LevelsOf(s: Shape): seq<int> { if s.Level? && s.level != 0 then [s.level] else [] }

  function ArrayOf(s: Shape): seq<seq<string>> { if s.Array? then [s.items] else [] }

  function HintOf(s: string): seq<string> { if Hinted(s) then [s] else [] }

  function CandidateOf(s: string): seq<string> { if !Hinted(s) && SeedShaped(s) then [s] else [] }

  function KnownOf(s: string): seq<string> { if s in KNOWN_COMPONENTS then [s] else [] }

  function Texts(shapes: seq<Shape>): seq<string> { FlatMap(shapes, TextOf) }

  function Levels(shapes: seq<Shape>): seq<int> { FlatMap(shapes, LevelsOf) }

  function Arrays(shapes: seq<Shape>): seq<seq<string>> { FlatMap(shapes, ArrayOf) }

  function Candidates(shapes: seq<Shape>): seq<string> { FlatMap(Texts(shapes), CandidateOf) }

  function Hints(shapes: seq<Shape>): seq<string> { FlatMap(Texts(shapes), HintOf) }

  /** The arguments make up a seed call: strings, numbers and at most one array;
      in marker mode a difficulty, otherwise an array naming four components;
      and exactly one string that can be the seed. */
  predicate Accepts(shapes: seq<Shape>, markerMode: bool) {
    && 3 <= |shapes| <= 6
    && NoneOther(shapes)
    && |Arrays(shapes)| <= 1
    && (if markerMode then Levels(shapes) != []
        else |Arrays(shapes)| == 1 && |FlatMap(Arrays(shapes)[0], KnownOf)| >= 4)
    && |Candidates(shapes)| == 1
  }

  function First<T>(s: seq<T>, default: T): T { if s == [] then default else s[0] }

  function Classify(shapes: seq<Shape>, markerMode: bool, source: string): Option<Seed> {
    if Accepts(shapes, markerMode)
    then Some(Seed(Candidates(shapes)[0], First(Levels(shapes), 0), First(Hints(shapes), ""), source))
    else None
  }

  function Shapes(args: seq<seq<Token>>, fl: FloatReader): (shapes: seq<Shape>)
    ensures |shapes| == |args|
    ensures forall k :: 0 <= k < |args| ==> shapes[k] == ShapeOf(args[k], fl)
  {
    seq(|args|, k requires 0 <= k < |args| => ShapeOf(args[k], fl))
  }

  /** The argument list from `open` to `close` is that of the call related to
      token `k`: in marker mode the one `k` is an argument of, otherwise the one
      `k` opens. */
  ghost predicate CallAround(toks: seq<Token>, k: nat, markerMode: bool, open: nat, close: nat) {
    (if markerMode then CallOpenAt(toks, k, open) else open == k) && ClosesAt(toks, open, close)
  }

  lemma CallOnce(toks: seq<Token>, k: nat, markerMode: bool, open: nat, close: nat, o: nat, c: nat)
    requires CallAround(toks, k, markerMode, open, close) && CallAround(toks, k, markerMode, o, c)
    ensures open == o && close == c
  {
    if markerMode {
      EnclosedOnce(toks, k, o, open);
    }
    ClosesOnce(toks, open, c, close);
  }

  /** What the arguments from `open` to `close` are classified as. */
  function ClassifyList(toks: seq<Token>, open: nat, close: nat, source: string, markerMode: bool,
                        fl: FloatReader): Option<Seed>
    requires open < close <= |toks|
  {
    Classify(Shapes(ArgList(toks, open, close), fl), markerMode, source)
  }

  /** `r` is the seed, if any, that the call related to token `k` carries. */
  ghost predicate SeedAround(toks: seq<Token>, k: nat, source: string, markerMode: bool, fl: FloatReader,
                             r: Option<Seed>) {
    && (r.Some? ==> exists open: nat, close: nat :: CallAround(toks, k, markerMode, open, close))
    && (forall open: nat, close: nat :: CallAround(toks, k, markerMode, open, close) ==>
        r == ClassifyList(toks, open, close, source, markerMode, fl))
  }

  predicate NoneOther(shapes: seq<Shape>) { forall k :: 0 <= k < |shapes| ==> !shapes[k].Other? }

  lemma FlatMapSnoc<A, B>(s: seq<A>, i: nat, f: A -> seq<B>)
    requires i < |s|
    ensures FlatMap(s[..i + 1], f) == FlatMap(s[..i], f) + f(s[i])
  {
    assert s[..i + 1][..i] == s[..i];
  }

  /** What the pass over the arguments has collected. */
  datatype Sorted = Sorted(texts: seq<string>, items: Option<seq<string>>, difficulty: int)

  ghost predicate SortedBy(shapes: seq<Shape>, r: Sorted) {
    && r.texts == Texts(shapes)
    && r.difficulty == First(Levels(shapes), 0)
    && Arrays(shapes) == match r.items { case Some(items) => [items] case None => [] }
  }

  /** The pass over the arguments, which stops at the first that disqualifies
      the call. */
  method SortShapes(shapes: seq<Shape>) returns (r: Option<Sorted>)
    ensures r.Some? ==> NoneOther(shapes) && SortedBy(shapes, r.value)
    ensures r.None? ==> !NoneOther(shapes) || |Arrays(shapes)| > 1
  {
    var s := Sorted([], None, 0);
    ghost var before := [];
    for i := 0 to |shapes|
      invariant before == shapes[..i] && NoneOther(before)
      invariant SortedBy(before, s)
    {
      if shapes[i].Other? {
        return None;
      }
      if shapes[i].Array? && s.items.Some? {
        SecondArray(shapes, i, s);
        return None;
      }
      s := SortOne(before, s, shapes[i]);
      before := before + [shapes[i]];
    }
    assert shapes[..|shapes|] == shapes;
    return Some(s);
  }

  lemma SecondArray(shapes: seq<Shape>, i: nat, s: Sorted)
    requires i < |shapes| && SortedBy(shapes[..i], s) && s.items.Some? && shapes[i].Array?
    ensures |Arrays(shapes)| > 1
  {
    FlatMapSnoc(shapes, i, ArrayOf);
    ArraysGrow(shapes, i + 1);
  }

  /** One more argument, of a sort that may still belong to the call. */
  method SortOne(ghost before: seq<Shape>, s: Sorted, shape: Shape) returns (r: Sorted)
    requires SortedBy(before, s) && !shape.Other? && !(shape.Array? && s.items.Some?)
    ensures SortedBy(before + [shape], r)
  {
    LevelsAreSet(before);
    assert (before + [shape])[..|before|] == before;
    match shape
    case Text(t) => return s.(texts := s.texts + [t]);
    case Level(v) => return if v != 0 && s.difficulty == 0 then s.(difficulty := v) else s;
    case Array(items) => return s.(items := Some(items));
  }

  lemma {:induction false} ArraysGrow(shapes: seq<Shape>, i: nat)
    requires i <= |shapes|
    ensures |Arrays(shapes[..i])| <= |Arrays(shapes)|
    decreases |shapes|
  {
    if i < |shapes| {
      ArraysGrow(shapes[..|shapes| - 1], i);
      assert shapes[..|shapes| - 1][..i] == shapes[..i];
    } else {
      assert shapes[..i] == shapes;
    }
  }

  /** The pass over the strings: the first that hints at the marker, and those
      that can be the seed. */
  method SortTexts(texts: seq<string>) returns (marker: string, candidates: seq<string>)
    ensures marker == First(FlatMap(texts, HintOf), "")
    ensures candidates == FlatMap(texts, CandidateOf)
  {
    marker, candidates := "", [];
    for i := 0 to |texts|
      invariant marker == First(FlatMap(texts[..i], HintOf), "")
      invariant marker == "" ==> FlatMap(texts[..i], HintOf) == []
      invariant candidates == FlatMap(texts[..i], CandidateOf)
    {
      assert texts[..i + 1][..i] == texts[..i];
      var s := texts[i];
      if Hinted(s) {
        EmptyIsNotHinted();
        if marker == "" {
          marker := s;
        }
      } else if SeedShaped(s) {
        candidates := candidates + [s];
      }
    }
    assert texts[..|texts|] == texts;
  }

  lemma EmptyIsNotHinted()
    ensures !Hinted("")
  {
  }

  method CountKnown(items: seq<string>) returns (known: nat)
    ensures known == |FlatMap(items, KnownOf)|
  {
    known := 0;
    for i := 0 to |items|
      invariant known == |FlatMap(items[..i], KnownOf)|
    {
      assert items[..i + 1][..i] == items[..i];
      if items[i] in KNOWN_COMPONENTS {
        known := known + 1;
      }
    }
    assert items[..|items|] == items;
  }

  lemma LevelsAreSet(shapes: seq<Shape>)
    ensures forall k :: 0 <= k < |Levels(shapes)| ==> Levels(shapes)[k] != 0
  {
    forall k | 0 <= k < |Levels(shapes)|
      ensures Levels(shapes)[k] != 0
    {
      var i := FlatMapMember(shapes, LevelsOf, k);
    }
  }

  method ClassifyArgs(args: seq<seq<Token>>, source: string, markerMode: bool,
                      fl: FloatReader) returns (r: Option<Seed>)
    ensures r == Classify(Shapes(args, fl), markerMode, source)
  {
    if |args| < 3 || |args| > 6 {
      return None;
    }
    var sorted := SortShapes(Shapes(args, fl));
    if sorted.None? {
      return None;
    }
    var Sorted(texts, items, difficulty) := sorted.value;
    LevelsAreSet(Shapes(args, fl));
    var marker, candidates := SortTexts(texts);
    var known := CountKnown(if items.Some? then items.value else []);
    if markerMode {
      if items.None? && difficulty == 0 {
        return None;
      }
    } else if items.None? || known < 4 {
      return None;
    }
    if |candidates| != 1 {
      return None;
    }
    if markerMode && difficulty == 0 {
      return None;
    }
    return Some(Seed(candidates[0], difficulty, marker, source));
  }

  method ClassifyCallAround(toks: seq<Token>, k: nat, source: string, markerMode: bool, fl: FloatReader)
    returns (r: Option<Seed>)
    requires k < |toks|
    ensures SeedAround(toks, k, source, markerMode, fl, r)
  {
    var open: int := k;
    if markerMode {
      open := FindEnclosingCallOpen(toks, k);
      if open < 0 {
        return None;
      }
    }
    var args, closed := ParseCallArgs(toks, open);
    if !closed {
      return None;
    }
    ghost var close: nat :| ClosesAt(toks, open, close) && args == ArgList(toks, open, close);
    r := ClassifyArgs(args, source, markerMode, fl);
    SeedAroundIs(toks, k, source, markerMode, fl, open, close, r);
  }

  lemma SeedAroundIs(toks: seq<Token>, k: nat, source: string, markerMode: bool, fl: FloatReader,
                     open: nat, close: nat, r: Option<Seed>)
    requires CallAround(toks, k, markerMode, open, close)
    requires r == ClassifyList(toks, open, close, source, markerMode, fl)
    ensures SeedAround(toks, k, source, markerMode, fl, r)
  {
    forall o: nat, c: nat | CallAround(toks, k, markerMode, o, c)
      ensures r == ClassifyList(toks, o, c, source, markerMode, fl)
    {
      CallOnce(toks, k, markerMode, open, close, o, c);
    }
  }

  // ---------- what an accepted seed is ----------

  lemma {:induction false} FlatMapMember<A, B>(s: seq<A>, f: A -> seq<B>, k: nat) returns (i: nat)
    requires k < |FlatMap(s, f)|
    ensures i < |s| && FlatMap(s, f)[k] in f(s[i])
    decreases |s|
  {
    if k < |FlatMap(s[..|s| - 1], f)| {
      i := FlatMapMember(s[..|s| - 1], f, k);
    } else {
      i := |s| - 1;
    }
  }

  predicate IsCandidate(shape: Shape) { shape.Text? && !Hinted(shape.text) && SeedShaped(shape.text) }

  /** How many arguments could be the seed. */
  function CandidateCount(shapes: seq<Shape>): nat {
    if shapes == [] then 0
    else CandidateCount(shapes[..|shapes| - 1]) + if IsCandidate(shapes[|shapes| - 1]) then 1 else 0
  }

  lemma {:induction false} FlatMapConcat<A, B>(a: seq<A>, b: seq<A>, f: A -> seq<B>)
    ensures FlatMap(a + b, f) == FlatMap(a, f) + FlatMap(b, f)
  {
    if b == [] {
      assert a + b == a;
    } else {
      FlatMapConcat(a, b[..|b| - 1], f);
      assert (a + b)[..|a + b| - 1] == a + b[..|b| - 1];
    }
  }

  lemma {:induction false} CandidatesCounted(shapes: seq<Shape>)
    ensures |Candidates(shapes)| == CandidateCount(shapes)
  {
    if shapes != [] {
      var front, last := shapes[..|shapes| - 1], shapes[|shapes| - 1];
      CandidatesCounted(front);
      FlatMapConcat(Texts(front), TextOf(last), CandidateOf);
      if last.Text? {
        assert TextOf(last)[..0] == [];
      }
    }
  }

  /** An accepted seed is an argument of the call, has the seed's shape, carries
      no hint word, and no other argument could have been taken for it. */
  lemma AcceptedSeed(shapes: seq<Shape>, markerMode: bool, source: string)
    requires Classify(shapes, markerMode, source).Some?
    ensures var seed := Classify(shapes, markerMode, source).value;
      && SeedShaped(seed.powInput) && !Hinted(seed.powInput)
      && Text(seed.powInput) in shapes
      && CandidateCount(shapes) == 1
      && (markerMode ==> seed.difficulty != 0)
  {
    CandidatesCounted(shapes);
    var i := FlatMapMember(Texts(shapes), CandidateOf, 0);
    var j := FlatMapMember(shapes, TextOf, i);
    LevelsAreSet(shapes);
  }
}
