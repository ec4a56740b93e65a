/** Where the tokens of a text lie: their spans are non-empty, disjoint and in
    order, and what lies between them is whitespace and comments only. */
module JsSpans {
  import opened JsLexer

  ghost predicate LineComment(src: string, lo: nat, hi: nat) {
    && lo + 2 <= hi <= |src|
    && src[lo..lo + 2] == "//"
    && (forall k :: lo <= k < hi ==> src[k] != '\n')
    && (hi == |src| || src[hi] == '\n')
  }

  /** Closed by its first terminator, or by the end of the text. */
  ghost predicate BlockComment(src: string, lo: nat, hi: nat) {
    && lo + 2 <= hi <= |src|
    && src[lo..lo + 2] == "/*"
    && (|| (lo + 4 <= hi && StarSlash(src, hi - 2) && forall k :: lo + 2 <= k < hi - 2 ==> !StarSlash(src, k))
        || (hi == |src| && forall k :: lo + 2 <= k < hi ==> !StarSlash(src, k)))
  }

  ghost predicate TriviaPiece(src: string, lo: nat, hi: nat) {
    || (lo + 1 == hi <= |src| && IsBlank(src[lo]))
    || LineComment(src, lo, hi)
    || BlockComment(src, lo, hi)
  }

  /** The text from `lo` to `hi` splits into whitespace and comments. */
  ghost predicate Trivia(src: string, lo: nat, hi: nat)
    decreases hi
  {
    lo == hi || exists mid :: lo <= mid < hi && Trivia(src, lo, mid) && TriviaPiece(src, mid, hi)
  }

  /** The end of the last token, or the start of the text. */
  function LastEnd(ls: seq<Lexeme>): nat {
    if ls == [] then 0 else ls[|ls| - 1].end
  }

  ghost predicate CarriesItsText(src: string, l: Lexeme) {
    && l.pos < l.end <= |src|
    && (l.tok.kind in {Num, Ident, Regex, Punct} ==> l.tok.val == src[l.pos..l.end])
    && (l.tok.kind == Str ==> src[l.pos] in {'\'', '"'})
    && (l.tok.kind == Template ==> src[l.pos] == '`')
  }

  /** `ls` covers the text up to `upto`, trivia excepted. */
  ghost predicate Covers(src: string, ls: seq<Lexeme>, upto: nat) {
    && (forall k :: 0 <= k < |ls| ==>
        && CarriesItsText(src, ls[k])
        && LastEnd(ls[..k]) <= ls[k].pos
        && Trivia(src, LastEnd(ls[..k]), ls[k].pos))
    && LastEnd(ls) <= upto <= |src|
    && Trivia(src, LastEnd(ls), upto)
  }

  lemma SkipIsTrivia(src: string, i: nat, toks: seq<Lexeme>)
    requires i < |src| && NextStep(src, i, toks).Skip?
    ensures TriviaPiece(src, i, NextStep(src, i, toks).next)
  {
    var j := NextStep(src, i, toks).next;
    if IsBlank(src[i]) {
    } else if src[i + 1] == '/' {
      assert src[i..i + 2] == "//";
      assert NotNewline(src[i]) && NotNewline(src[i + 1]);
      assert j == SpanEnd(src, i, NotNewline);
      assert i + 2 <= j;
      assert forall k :: i <= k < j ==> NotNewline(src[k]);
      assert LineComment(src, i, j);
    } else {
      assert src[i..i + 2] == "/*";
      assert BlockComment(src, i, j);
    }
  }

  lemma EmitCarriesItsText(src: string, i: nat, toks: seq<Lexeme>)
    requires i < |src| && NextStep(src, i, toks).Emit?
    ensures CarriesItsText(src, NextStep(src, i, toks).lexeme)
  {
  }

  /** One turn of the main loop keeps the text covered. */
  lemma StepCovers(src: string, i: nat, toks: seq<Lexeme>)
    requires i < |src| && Covers(src, toks, i)
    ensures var s := NextStep(src, i, toks);
      if s.Skip? then Covers(src, toks, s.next) else Covers(src, toks + [s.lexeme], s.lexeme.end)
  {
    var s := NextStep(src, i, toks);
    if s.Skip? {
      SkipIsTrivia(src, i, toks);
    } else {
      EmitCarriesItsText(src, i, toks);
      var ls := toks + [s.lexeme];
      forall k | 0 <= k < |ls|
        ensures CarriesItsText(src, ls[k]) && LastEnd(ls[..k]) <= ls[k].pos && Trivia(src, LastEnd(ls[..k]), ls[k].pos)
      {
        if k < |toks| {
          assert ls[..k] == toks[..k];
        } else {
          assert ls[..k] == toks;
        }
      }
    }
  }

  lemma {:induction false} LexFromCovers(src: string, i: nat, toks: seq<Lexeme>)
    requires i <= |src| && Covers(src, toks, i)
    ensures Covers(src, LexFrom(src, i, toks), |src|)
    decreases |src| - i
  {
    if i < |src| {
      StepCovers(src, i, toks);
      match NextStep(src, i, toks)
      case Skip(j) => LexFromCovers(src, j, toks);
      case Emit(l) => LexFromCovers(src, l.end, toks + [l]);
    }
  }

  /** Every text is covered by its tokens. */
  lemma LexCovers(src: string)
    ensures Covers(src, Lex(src), |src|)
  {
    LexFromCovers(src, 0, []);
  }

  lemma NextBehind(src: string, ls: seq<Lexeme>, upto: nat, b: nat)
    requires Covers(src, ls, upto) && 0 < b < |ls|
    ensures ls[b - 1].end <= ls[b].pos < ls[b].end
  {
    assert CarriesItsText(src, ls[b]);
    assert ls[..b][b - 1] == ls[b - 1];
  }

  lemma {:induction false} EndsAscend(src: string, ls: seq<Lexeme>, upto: nat, a: nat, b: nat)
    requires Covers(src, ls, upto) && a < b < |ls|
    ensures ls[a].end <= ls[b].pos
    decreases b
  {
    NextBehind(src, ls, upto, b);
    if a < b - 1 {
      EndsAscend(src, ls, upto, a, b - 1);
      NextBehind(src, ls, upto, b - 1);
    }
  }

  /** The spans are disjoint and strictly increasing. */
  lemma SpansAscend(src: string)
    ensures forall a, b :: 0 <= a < b < |Lex(src)| ==>
      Lex(src)[a].pos < Lex(src)[a].end <= Lex(src)[b].pos < Lex(src)[b].end
  {
    LexCovers(src);
    forall a, b | 0 <= a < b < |Lex(src)|
      ensures Lex(src)[a].pos < Lex(src)[a].end <= Lex(src)[b].pos < Lex(src)[b].end
    {
      EndsAscend(src, Lex(src), |src|, a, b);
      assert CarriesItsText(src, Lex(src)[a]) && CarriesItsText(src, Lex(src)[b]);
    }
  }

  /** A byte inside no token is part of whitespace or of a comment. */
  lemma {:induction false} OutsideIsTrivia(src: string, lo: nat, hi: nat, p: nat) returns (a: nat, b: nat)
    requires Trivia(src, lo, hi) && lo <= p < hi
    ensures lo <= a <= p < b <= hi && TriviaPiece(src, a, b)
    decreases hi
  {
    var mid :| lo <= mid < hi && Trivia(src, lo, mid) && TriviaPiece(src, mid, hi);
    if p < mid {
      a, b := OutsideIsTrivia(src, lo, mid, p);
    } else {
      a, b := mid, hi;
    }
  }

  predicate InsideToken(ls: seq<Lexeme>, p: nat) {
    exists k :: 0 <= k < |ls| && ls[k].pos <= p < ls[k].end
  }

  /** The stretch from `a` to `b` touches no token. */
  predicate Outside(ls: seq<Lexeme>, a: nat, b: nat) {
    forall k :: 0 <= k < |ls| ==> ls[k].end <= a || b <= ls[k].pos
  }

  lemma BehindAll(src: string, ls: seq<Lexeme>, upto: nat, a: nat, b: nat)
    requires Covers(src, ls, upto) && LastEnd(ls) <= a
    ensures Outside(ls, a, b)
  {
    forall k | 0 <= k < |ls|
      ensures ls[k].end <= a
    {
      if k < |ls| - 1 {
        EndsAscend(src, ls, upto, k, |ls| - 1);
        assert CarriesItsText(src, ls[|ls| - 1]);
      }
    }
  }

  lemma CoversFront(src: string, ls: seq<Lexeme>, upto: nat, before: seq<Lexeme>, last: Lexeme)
    requires Covers(src, ls, upto) && ls == before + [last]
    ensures Covers(src, before, last.pos)
  {
    var n := |before|;
    assert ls[..n] == before && CarriesItsText(src, ls[n]);
    forall k | 0 <= k < n
      ensures CarriesItsText(src, before[k]) && LastEnd(before[..k]) <= before[k].pos
      ensures Trivia(src, LastEnd(before[..k]), before[k].pos)
    {
      assert before[..k] == ls[..k];
    }
  }

  lemma {:induction false} GapAt(src: string, ls: seq<Lexeme>, upto: nat, p: nat) returns (a: nat, b: nat)
    requires Covers(src, ls, upto) && p < upto && !InsideToken(ls, p)
    ensures a <= p < b <= upto && TriviaPiece(src, a, b) && Outside(ls, a, b)
    decreases |ls|
  {
    if LastEnd(ls) <= p {
      a, b := OutsideIsTrivia(src, LastEnd(ls), upto, p);
      BehindAll(src, ls, upto, a, b);
    } else {
      var before, last := ls[..|ls| - 1], ls[|ls| - 1];
      assert ls == before + [last];
      CoversFront(src, ls, upto, before, last);
      a, b := GapAt(src, before, last.pos, p);
    }
  }

  /** Part of a blank or of a comment that touches no token. */
  ghost predicate InTrivia(src: string, p: nat) {
    exists a: nat, b: nat :: a <= p < b && TriviaPiece(src, a, b) && Outside(Lex(src), a, b)
  }

  /** Each byte of the source is either inside a token or part of whitespace or of a
      comment outside all tokens, never both. */
  lemma EveryByteAccountedFor(src: string, p: nat)
    requires p < |src|
    ensures InsideToken(Lex(src), p) <==> !InTrivia(src, p)
  {
    LexCovers(src);
    if !InsideToken(Lex(src), p) {
      var a, b := GapAt(src, Lex(src), |src|, p);
    }
  }
}
