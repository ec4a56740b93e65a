/** Around which tokens a seed is found, bracket by bracket (client/captcha_pow.go). */
module PowFound {
  import opened JsLexer
  import opened JsLiterals
  import opened JsNumber
  import opened CallWalk
  import opened PowSeed
  import opened PowAccepted
  import opened PowExtract
  import opened Wrappers

  predicate Opens(t: Token) { t == Token(Punct, "(") || t == Token(Punct, "[") || t == Token(Punct, "{") }

  predicate Closes(t: Token) { t == Token(Punct, ")") || t == Token(Punct, "]") || t == Token(Punct, "}") }

  lemma CountSnoc<A>(s: seq<A>, lo: nat, hi: nat, p: A -> bool)
    requires lo < hi <= |s|
    ensures Count(s[lo..hi], p) == Count(s[lo..hi - 1], p) + if p(s[hi - 1]) then 1 else 0
  {
    assert s[lo..hi][..hi - lo - 1] == s[lo..hi - 1];
  }

  /** How deep a token stands is the brackets opened less those closed. */
  lemma {:induction false} DepthCounted(toks: seq<Token>, lo: nat, hi: nat)
    requires lo <= hi <= |toks|
    ensures Depth(toks, lo, hi) == Count(toks[lo..hi], Opens) - Count(toks[lo..hi], Closes)
    decreases hi
  {
    if lo < hi {
      DepthCounted(toks, lo, hi - 1);
      CountSnoc(toks, lo, hi, Opens);
      CountSnoc(toks, lo, hi, Closes);
    }
  }

  predicate HeadsStatement(s: string) {
    || s == "return" || s == "var" || s == "let" || s == "const" || s == "if" || s == "for" || s == "while" || s == "do"
    || s == "switch" || s == "try" || s == "typeof" || s == "new" || s == "delete" || s == "void" || s == "class"
    || s == "import" || s == "export" || s == "yield" || s == "await" || s == "throw" || s == "else" || s == "case"
  }

  lemma HeadsListed(s: string)
    ensures s in STATEMENT_WORDS <==> HeadsStatement(s)
  {
  }

  /** At the top level of a list no bracket closes, no ";" stands, and no argument begins
      with the word of a statement. */
  predicate MayStand(toks: seq<Token>, open: nat, j: nat)
    requires open < j < |toks|
  {
    Depth(toks, open + 1, j) == 0 ==>
      && !Closes(toks[j]) && toks[j] != Token(Punct, ";")
      && !(toks[j].kind == Ident && HeadsStatement(toks[j].val) && (j == open + 1 || toks[j - 1] == Token(Punct, ",")))
  }

  lemma MayStandIff(toks: seq<Token>, open: nat, j: nat)
    requires open < j < |toks|
    ensures MayStand(toks, open, j) <==> Inner(toks, open, j)
  {
    HeadsListed(toks[j].val);
  }

  ghost predicate ListFrom(toks: seq<Token>, open: nat, close: nat) {
    && open < close < |toks| && toks[open] == Token(Punct, "(") && toks[close] == Token(Punct, ")")
    && Depth(toks, open + 1, close) == 0 && forall j :: open < j < close ==> MayStand(toks, open, j)
  }

  lemma ListFromIff(toks: seq<Token>, open: nat, close: nat)
    ensures ListFrom(toks, open, close) <==> ClosesAt(toks, open, close)
  {
    if open < close < |toks| {
      forall j | open < j < close
        ensures MayStand(toks, open, j) <==> Inner(toks, open, j)
      {
        MayStandIff(toks, open, j);
      }
    }
  }

  /** A bracket behind a name, a ")" or a "}" is the one that token `k` stands in. */
  ghost predicate CallBefore(toks: seq<Token>, k: nat, open: nat) {
    && 0 < open < k <= |toks| && toks[open] == Token(Punct, "(")
    && (toks[open - 1].kind == Ident || toks[open - 1] == Token(Punct, ")") || toks[open - 1] == Token(Punct, "}"))
    && Depth(toks, open + 1, k) == 0
    && forall m :: open < m < k && Opens(toks[m]) ==> Depth(toks, m + 1, k) < 0
  }

  lemma CallBeforeIff(toks: seq<Token>, k: nat, open: nat)
    ensures CallBefore(toks, k, open) <==> CallOpenAt(toks, k, open)
  {
    if open < k <= |toks| {
      assert forall m :: open < m < k ==> (Opens(toks[m]) <==> IsOpener(toks[m]));
    }
  }

  /** The list that token `k` stands in, or that it opens. */
  ghost predicate RelatedList(toks: seq<Token>, k: nat, markerMode: bool, open: nat, close: nat) {
    (if markerMode then CallBefore(toks, k, open) else open == k) && ListFrom(toks, open, close)
  }

  lemma RelatedIff(toks: seq<Token>, k: nat, markerMode: bool, open: nat, close: nat)
    ensures RelatedList(toks, k, markerMode, open, close) <==> CallAround(toks, k, markerMode, open, close)
  {
    CallBeforeIff(toks, k, open);
    ListFromIff(toks, open, close);
  }

  ghost predicate SeedCallOf(toks: seq<Token>, k: nat, markerMode: bool, open: nat, close: nat, fl: FloatReader) {
    RelatedList(toks, k, markerMode, open, close) && IsSeedCall(ArgList(toks, open, close), markerMode, fl)
  }

  lemma FoundAt(toks: seq<Token>, k: nat, source: string, markerMode: bool, fl: FloatReader, r: Option<Seed>,
                open: nat, close: nat)
    requires SeedAround(toks, k, source, markerMode, fl, r) && CallAround(toks, k, markerMode, open, close)
    ensures r.Some? <==> IsSeedCall(ArgList(toks, open, close), markerMode, fl)
  {
    RecognisedIff(ArgList(toks, open, close), markerMode, source, fl);
  }

  /** A seed is found around a token exactly if it stands in, or opens, an argument list
      that is a seed call's. */
  lemma FoundIff(toks: seq<Token>, k: nat, source: string, markerMode: bool, fl: FloatReader, r: Option<Seed>)
    requires SeedAround(toks, k, source, markerMode, fl, r)
    ensures r.Some? <==> exists open: nat, close: nat :: SeedCallOf(toks, k, markerMode, open, close, fl)
  {
    if r.Some? {
      var open: nat, close: nat :| CallAround(toks, k, markerMode, open, close);
      RelatedIff(toks, k, markerMode, open, close);
      FoundAt(toks, k, source, markerMode, fl, r, open, close);
      assert SeedCallOf(toks, k, markerMode, open, close, fl);
    }
    if open: nat, close: nat :| SeedCallOf(toks, k, markerMode, open, close, fl) {
      RelatedIff(toks, k, markerMode, open, close);
      FoundAt(toks, k, source, markerMode, fl, r, open, close);
    }
  }

  // ---------- whole bodies ----------

  /** The marker's string, or any bracket that opens. */
  predicate Starts(t: Token, markerMode: bool) {
    if markerMode then (t.kind == Str || t.kind == Template) && t.val == "pow_timeout" else t == Token(Punct, "(")
  }

  lemma StartsIff(t: Token, markerMode: bool)
    ensures Starts(t, markerMode) <==> Site(t, markerMode)
  {
  }

  /** Token `k` starts the search of a seed call. */
  ghost predicate SeedSite(toks: seq<Token>, k: nat, markerMode: bool, fl: FloatReader) {
    k < |toks| && Starts(toks[k], markerMode)
    && exists open: nat, close: nat :: SeedCallOf(toks, k, markerMode, open, close, fl)
  }

  lemma NoSiteIff(toks: seq<Token>, j: nat, source: string, markerMode: bool, fl: FloatReader)
    requires j < |toks| && NoSeedAt(toks, j, source, markerMode, fl)
    ensures !SeedSite(toks, j, markerMode, fl)
  {
    StartsIff(toks[j], markerMode);
    if Site(toks[j], markerMode) {
      FoundIff(toks, j, source, markerMode, fl, None);
    }
  }

  lemma NoSiteBefore(toks: seq<Token>, k: nat, source: string, markerMode: bool, fl: FloatReader)
    requires k <= |toks| && NoSeedBefore(toks, k, source, markerMode, fl)
    ensures forall j: nat :: j < k ==> !SeedSite(toks, j, markerMode, fl)
  {
    forall j: nat | j < k
      ensures !SeedSite(toks, j, markerMode, fl)
    {
      NoSiteIff(toks, j, source, markerMode, fl);
    }
  }

  /** A pass finds the call of the first token that starts a seed call, if any does. */
  lemma PassFinds(toks: seq<Token>, source: string, markerMode: bool, fl: FloatReader, r: Option<Seed>)
    returns (k: nat)
    requires PassYields(toks, source, markerMode, fl, r)
    ensures k <= |toks| && (k < |toks| <==> r.Some?) && forall j: nat :: j < k ==> !SeedSite(toks, j, markerMode, fl)
    ensures r.Some? ==> SeedSite(toks, k, markerMode, fl) && SeedAround(toks, k, source, markerMode, fl, r)
  {
    if r.None? {
      k := |toks|;
    } else {
      k :| k < |toks| && FirstSeedAt(toks, k, source, markerMode, fl, r);
      FoundIff(toks, k, source, markerMode, fl, r);
      StartsIff(toks[k], markerMode);
    }
    NoSiteBefore(toks, k, source, markerMode, fl);
  }

  ghost predicate HasSite(toks: seq<Token>, markerMode: bool, fl: FloatReader) {
    exists k: nat :: SeedSite(toks, k, markerMode, fl)
  }

  lemma PassFindsIff(toks: seq<Token>, source: string, markerMode: bool, fl: FloatReader, r: Option<Seed>)
    requires PassYields(toks, source, markerMode, fl, r)
    ensures r.Some? <==> HasSite(toks, markerMode, fl)
  {
    var k := PassFinds(toks, source, markerMode, fl, r);
    if r.Some? {
      assert SeedSite(toks, k, markerMode, fl);
    }
  }

  /** A body yields a seed exactly if the marker stands in a seed call of it or a bracket
      opens one. */
  lemma BodyFoundIff(body: string, origin: string, fl: FloatReader, r: Option<Seed>)
    requires BodyYields(body, origin, fl, r)
    ensures r.Some? <==> HasSite(Tokens(Lex(body)), true, fl) || HasSite(Tokens(Lex(body)), false, fl)
  {
    var toks := Tokens(Lex(body));
    var marker, structure := origin + "/tokenizer-marker", origin + "/tokenizer-structure";
    if r.Some? && PassYields(toks, marker, true, fl, r) {
      PassFindsIff(toks, marker, true, fl, r);
    } else {
      PassFindsIff(toks, marker, true, fl, None);
      PassFindsIff(toks, structure, false, fl, r);
    }
  }

  // ---------- templates ----------

  lemma BraceIsNoSeed(s: string)
    requires '}' in s
    ensures !IsSeed([Token(Template, s)]) && s != "pow_timeout"
  {
    var k :| 0 <= k < |s| && s[k] == '}';
    assert [Token(Template, s)][0].val[k] == '}';
  }

  /** A template with a substitution is read as neither a seed nor the marker, whatever
      else stands in it. */
  lemma SubstitutionIsNoSeed(ss: seq<Stretch>, k: nat)
    requires k < |ss| && ss[k].Substitution?
    ensures !IsSeed([Token(Template, StretchesValue(ss))]) && StretchesValue(ss) != "pow_timeout"
  {
    BraceKept(ss, k);
    BraceIsNoSeed(StretchesValue(ss));
  }
}
