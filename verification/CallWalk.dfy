/** The two bracket walks of client/captcha_pow.go over a token stream: the
    backward one that finds the "(" a token is an argument of, and the forward
    one that splits the list behind a "(" into its arguments. */
module CallWalk {
  import opened JsLexer

  const STATEMENT_WORDS: set<string> := {
    "return", "var", "let", "const", "if", "for", "while", "do", "switch", "try",
    "typeof", "new", "delete", "void", "class", "import", "export", "yield",
    "await", "throw", "else", "case"
  }

  const COMMA: Token := Token(Punct, ",")

  predicate IsPunct(t: Token, v: string) { t.kind == Punct && t.val == v }

  predicate IsOpener(t: Token) { t.kind == Punct && (t.val == "(" || t.val == "[" || t.val == "{") }

  predicate IsCloser(t: Token) { t.kind == Punct && (t.val == ")" || t.val == "]" || t.val == "}") }

  predicate IsStatementWord(t: Token) { t.kind == Ident && t.val in STATEMENT_WORDS }

  /** What before a "(" makes it a call rather than a grouping. */
  predicate IsCallee(t: Token) { IsPunct(t, ")") || IsPunct(t, "}") || t.kind == Ident }

  function Weight(t: Token): int { if IsOpener(t) then 1 else if IsCloser(t) then -1 else 0 }

  /** Brackets opened less brackets closed in `toks[lo..hi]`, of any sort. */
  function Depth(toks: seq<Token>, lo: nat, hi: nat): int
    requires lo <= hi <= |toks|
  {
    if lo == hi then 0 else Depth(toks, lo, hi - 1) + Weight(toks[hi - 1])
  }

  lemma {:induction false} DepthSplits(toks: seq<Token>, lo: nat, mid: nat, hi: nat)
    requires lo <= mid <= hi <= |toks|
    ensures Depth(toks, lo, hi) == Depth(toks, lo, mid) + Depth(toks, mid, hi)
    decreases hi
  {
    if mid < hi {
      DepthSplits(toks, lo, mid, hi - 1);
    }
  }

  lemma {:induction false} DepthOfPart(toks: seq<Token>, part: seq<Token>, at: nat, lo: nat, hi: nat)
    requires at + |part| <= |toks| && toks[at..at + |part|] == part
    requires lo <= hi <= |part|
    ensures Depth(part, lo, hi) == Depth(toks, at + lo, at + hi)
    decreases hi
  {
    if lo < hi {
      DepthOfPart(toks, part, at, lo, hi - 1);
      assert part[hi - 1] == toks[at..at + |part|][hi - 1];
    }
  }

  // ---------- forward ----------

  /** Whether token `j` is the first of an argument of the list opened at `open`. */
  predicate StartsArg(toks: seq<Token>, open: nat, j: nat)
    requires open < j < |toks|
  {
    j == open + 1 || toks[j - 1] == COMMA
  }

  /** What every token inside an argument list satisfies: it closes nothing
      that was not opened inside, and no statement stands at the top level. */
  predicate Inner(toks: seq<Token>, open: nat, j: nat)
    requires open < j < |toks|
  {
    var d := Depth(toks, open + 1, j);
    && (IsCloser(toks[j]) ==> d != 0)
    && (d == 0 ==> !IsPunct(toks[j], ";"))
    && (d == 0 && IsStatementWord(toks[j]) ==> !StartsArg(toks, open, j))
  }

  /** The argument list opened at `open` closes properly at `close`. */
  ghost predicate ClosesAt(toks: seq<Token>, open: nat, close: nat) {
    && open < close < |toks|
    && IsPunct(toks[open], "(")
    && IsPunct(toks[close], ")")
    && Depth(toks, open + 1, close) == 0
    && forall j :: open < j < close ==> Inner(toks, open, j)
  }

  ghost predicate NeverCloses(toks: seq<Token>, open: nat) {
    forall close: nat :: !ClosesAt(toks, open, close)
  }

  lemma ClosesOnce(toks: seq<Token>, open: nat, a: nat, b: nat)
    requires ClosesAt(toks, open, a) && ClosesAt(toks, open, b)
    ensures a == b
  {
    assert a < b ==> Inner(toks, open, a);
    assert b < a ==> Inner(toks, open, b);
  }

  predicate TopComma(toks: seq<Token>, open: nat, j: nat)
    requires open < j < |toks|
  {
    toks[j] == COMMA && Depth(toks, open + 1, j) == 0
  }

  /** The bracket at `open` and the top-level commas before `i`, in order. */
  function Marks(toks: seq<Token>, open: nat, i: nat): (marks: seq<nat>)
    requires open < i <= |toks|
    ensures marks != [] && marks[0] == open
    ensures forall k :: 0 <= k < |marks| ==> open <= marks[k] < i
  {
    if i == open + 1 then [open]
    else if TopComma(toks, open, i - 1) then Marks(toks, open, i - 1) + [i - 1]
    else Marks(toks, open, i - 1)
  }

  function LastMark(toks: seq<Token>, open: nat, i: nat): (m: nat)
    requires open < i <= |toks|
    ensures open <= m < i
  {
    var marks := Marks(toks, open, i);
    marks[|marks| - 1]
  }

  /** The tokens since the last mark. */
  function Pending(toks: seq<Token>, open: nat, i: nat): seq<Token>
    requires open < i <= |toks|
  {
    toks[LastMark(toks, open, i) + 1..i]
  }

  /** The arguments that top-level commas before `i` have ended. */
  function Done(toks: seq<Token>, open: nat, i: nat): (args: seq<seq<Token>>)
    requires open < i <= |toks|
    ensures |args| + 1 == |Marks(toks, open, i)|
  {
    if i == open + 1 then []
    else if TopComma(toks, open, i - 1) then Done(toks, open, i - 1) + [Pending(toks, open, i - 1)]
    else Done(toks, open, i - 1)
  }

  /** The arguments of the list from `open` to `close`, none when nothing
      stands between the brackets. */
  function ArgList(toks: seq<Token>, open: nat, close: nat): seq<seq<Token>>
    requires open < close <= |toks|
  {
    if close == open + 1 then [] else Done(toks, open, close) + [Pending(toks, open, close)]
  }

  method ParseCallArgs(toks: seq<Token>, open: nat) returns (args: seq<seq<Token>>, closed: bool)
    ensures closed ==> exists close: nat :: ClosesAt(toks, open, close) && args == ArgList(toks, open, close)
    ensures !closed ==> args == [] && NeverCloses(toks, open)
  {
    if open >= |toks| || !IsPunct(toks[open], "(") {
      return [], false;
    }
    args := [];
    var cur: seq<Token>, depth := [], 0;
    var i := open + 1;
    while i < |toks|
      invariant open < i <= |toks| && Reading(toks, open, i, args, cur, depth)
    {
      var t := toks[i];
      if IsCloser(t) && depth == 0 {
        if t.val == ")" {
          ghost var done := args;
          if |cur| > 0 || |args| > 0 {
            args := args + [cur];
          }
          ReadingCloses(toks, open, i, done, cur, depth, args);
          return args, true;
        }
        ReadingFails(toks, open, i, args, cur, depth);
        return [], false;
      }
      if depth == 0 && IsPunct(t, ";") {
        ReadingFails(toks, open, i, args, cur, depth);
        return [], false;
      }
      if depth == 0 && |cur| == 0 && IsStatementWord(t) {
        ReadingFails(toks, open, i, args, cur, depth);
        return [], false;
      }
      ReadingOn(toks, open, i, args, cur, depth);
      if t == COMMA && depth == 0 {
        args, cur := args + [cur], [];
      } else {
        depth := depth + Weight(t);
        cur := cur + [t];
      }
      i := i + 1;
    }
    ReadingRunsOut(toks, open, args, cur, depth);
    return [], false;
  }

  /** What the loop has gathered before `i`. */
  ghost predicate Reading(toks: seq<Token>, open: nat, i: nat, args: seq<seq<Token>>, cur: seq<Token>, depth: int)
    requires open < i <= |toks|
  {
    && IsPunct(toks[open], "(")
    && depth == Depth(toks, open + 1, i) >= 0
    && (forall j :: open < j < i ==> Inner(toks, open, j))
    && args == Done(toks, open, i) && cur == Pending(toks, open, i)
  }

  /** The tests of the loop on the token `t`, as one. */
  predicate Ends(t: Token, cur: seq<Token>, depth: int) {
    depth == 0 && (IsCloser(t) || IsPunct(t, ";") || (cur == [] && IsStatementWord(t)))
  }

  lemma EndsIffNotInner(toks: seq<Token>, open: nat, i: nat, cur: seq<Token>, depth: int)
    requires open < i < |toks| && depth == Depth(toks, open + 1, i) && cur == Pending(toks, open, i)
    ensures Ends(toks[i], cur, depth) <==> !Inner(toks, open, i)
  {
    CurEmptyAtStart(toks, open, i);
  }

  lemma ReadingOn(toks: seq<Token>, open: nat, i: nat, args: seq<seq<Token>>, cur: seq<Token>, depth: int)
    requires open < i < |toks| && Reading(toks, open, i, args, cur, depth) && !Ends(toks[i], cur, depth)
    ensures var comma := toks[i] == COMMA && depth == 0;
      Reading(toks, open, i + 1, if comma then args + [cur] else args, if comma then [] else cur + [toks[i]],
              depth + Weight(toks[i]))
  {
    EndsIffNotInner(toks, open, i, cur, depth);
    OneMoreToken(toks, open, i);
  }

  lemma ReadingFails(toks: seq<Token>, open: nat, i: nat, args: seq<seq<Token>>, cur: seq<Token>, depth: int)
    requires open < i < |toks| && Reading(toks, open, i, args, cur, depth)
    requires Ends(toks[i], cur, depth) && !IsPunct(toks[i], ")")
    ensures NeverCloses(toks, open)
  {
    EndsIffNotInner(toks, open, i, cur, depth);
    NoCloseFrom(toks, open, i);
  }

  lemma ReadingRunsOut(toks: seq<Token>, open: nat, args: seq<seq<Token>>, cur: seq<Token>, depth: int)
    requires open < |toks| && Reading(toks, open, |toks|, args, cur, depth)
    ensures NeverCloses(toks, open)
  {
    NoCloseBefore(toks, open, |toks|);
  }

  lemma ReadingCloses(toks: seq<Token>, open: nat, i: nat, done: seq<seq<Token>>, cur: seq<Token>, depth: int,
                      args: seq<seq<Token>>)
    requires open < i < |toks| && Reading(toks, open, i, done, cur, depth)
    requires depth == 0 && IsPunct(toks[i], ")") && args == if |cur| > 0 || |done| > 0 then done + [cur] else done
    ensures exists close: nat :: ClosesAt(toks, open, close) && args == ArgList(toks, open, close)
  {
    assert ClosesAt(toks, open, i);
  }

  lemma NoCloseBefore(toks: seq<Token>, open: nat, i: nat)
    requires open < i <= |toks|
    requires forall j :: open < j < i ==> Inner(toks, open, j)
    ensures forall close: nat :: ClosesAt(toks, open, close) ==> i <= close
  {
    assert forall close: nat :: ClosesAt(toks, open, close) && close < i ==> Inner(toks, open, close);
  }

  /** Nothing closes the list beyond a token it cannot contain. */
  lemma NoCloseFrom(toks: seq<Token>, open: nat, i: nat)
    requires open < i < |toks| && !Inner(toks, open, i) && !IsPunct(toks[i], ")")
    requires forall j :: open < j < i ==> Inner(toks, open, j)
    ensures NeverCloses(toks, open)
  {
    NoCloseBefore(toks, open, i);
  }

  /** What one more token does to the arguments. */
  lemma OneMoreToken(toks: seq<Token>, open: nat, i: nat)
    requires open < i < |toks|
    ensures Depth(toks, open + 1, i + 1) == Depth(toks, open + 1, i) + Weight(toks[i])
    ensures TopComma(toks, open, i) ==>
      Done(toks, open, i + 1) == Done(toks, open, i) + [Pending(toks, open, i)] && Pending(toks, open, i + 1) == []
    ensures !TopComma(toks, open, i) ==>
      && Done(toks, open, i + 1) == Done(toks, open, i)
      && Pending(toks, open, i + 1) == Pending(toks, open, i) + [toks[i]]
  {
    var m := LastMark(toks, open, i);
    assert toks[m + 1..i + 1] == toks[m + 1..i] + [toks[i]];
    assert !TopComma(toks, open, i) ==> LastMark(toks, open, i + 1) == m;
    assert TopComma(toks, open, i) ==> LastMark(toks, open, i + 1) == i;
  }

  /** At the top level the pending argument is empty exactly at its first token. */
  lemma CurEmptyAtStart(toks: seq<Token>, open: nat, i: nat)
    requires open < i < |toks|
    ensures Depth(toks, open + 1, i) == 0 ==> (Pending(toks, open, i) == [] <==> StartsArg(toks, open, i))
  {
    if i > open + 1 {
      assert Depth(toks, open + 1, i) == Depth(toks, open + 1, i - 1) + Weight(toks[i - 1]);
    }
  }

  // ---------- backward ----------

  /** `j` is the innermost bracket opened before `k` and not closed before it. */
  ghost predicate EncloserAt(toks: seq<Token>, k: nat, j: nat) {
    && j < k <= |toks|
    && IsOpener(toks[j])
    && Depth(toks, j + 1, k) == 0
    && forall m :: j < m < k && IsOpener(toks[m]) ==> Depth(toks, m + 1, k) < 0
  }

  /** The "(" of the call that token `k` is a direct argument of. */
  ghost predicate CallOpenAt(toks: seq<Token>, k: nat, open: nat) {
    EncloserAt(toks, k, open) && IsPunct(toks[open], "(") && open > 0 && IsCallee(toks[open - 1])
  }

  lemma EnclosedOnce(toks: seq<Token>, k: nat, a: nat, b: nat)
    requires EncloserAt(toks, k, a) && EncloserAt(toks, k, b)
    ensures a == b
  {
  }

  method FindEnclosingCallOpen(toks: seq<Token>, k: nat) returns (open: int)
    requires k <= |toks|
    ensures open == -1 || (0 <= open && CallOpenAt(toks, k, open))
    ensures forall j :: CallOpenAt(toks, k, j) ==> open == j
  {
    var depth := 0;
    var j := k - 1;
    while j >= 0
      invariant -1 <= j < k
      invariant depth == -Depth(toks, j + 1, k) >= 0
      invariant forall m :: j < m < k && IsOpener(toks[m]) ==> Depth(toks, m + 1, k) < 0
    {
      var t := toks[j];
      DepthSplits(toks, j, j + 1, k);
      assert Depth(toks, j, j + 1) == Depth(toks, j, j) + Weight(t);
      if IsCloser(t) {
        depth := depth + 1;
      } else if IsOpener(t) {
        if depth == 0 {
          assert EncloserAt(toks, k, j);
          if t.val == "(" && j > 0 && IsCallee(toks[j - 1]) {
            return j;
          }
          return -1;
        }
        depth := depth - 1;
      }
      j := j - 1;
    }
    return -1;
  }

  // ---------- the walks agree ----------

  lemma {:induction false} SuffixNeverOpens(toks: seq<Token>, k: nat, open: nat, m: nat)
    requires EncloserAt(toks, k, open) && open < m <= k
    ensures Depth(toks, m, k) <= 0
    decreases k - m
  {
    if m < k {
      SuffixNeverOpens(toks, k, open, m + 1);
      DepthSplits(toks, m, m + 1, k);
      assert Depth(toks, m, m + 1) == Depth(toks, m, m) + Weight(toks[m]);
    }
  }

  /** The forward walk from the bracket the backward one found passes token
      `k`: the list closes after it, or at it when it is the closing bracket. */
  lemma ClosesBeyond(toks: seq<Token>, k: nat, open: nat, close: nat)
    requires k < |toks| && EncloserAt(toks, k, open) && ClosesAt(toks, open, close)
    ensures k <= close
    ensures close == k <==> IsCloser(toks[k])
    ensures Depth(toks, open + 1, k) == 0
  {
    if close < k {
      DepthSplits(toks, open + 1, close + 1, k);
      SuffixNeverOpens(toks, k, open, close + 1);
    } else if k < close {
      assert Inner(toks, open, k);
    }
  }

  /** The bracket, the top-level commas and the closing bracket: argument `a`
      is what stands between bounds `a` and `a + 1`. */
  function Bounds(toks: seq<Token>, open: nat, close: nat): (bounds: seq<nat>)
    requires open < close <= |toks|
    ensures |bounds| >= 2
  {
    Marks(toks, open, close) + [close]
  }

  lemma {:induction false} MarksIncrease(toks: seq<Token>, open: nat, i: nat, a: nat, b: nat)
    requires open < i <= |toks| && a < b < |Marks(toks, open, i)|
    ensures Marks(toks, open, i)[a] < Marks(toks, open, i)[b]
    decreases i
  {
    if TopComma(toks, open, i - 1) && b == |Marks(toks, open, i)| - 1 {
    } else {
      MarksIncrease(toks, open, i - 1, a, b);
    }
  }

  lemma BoundsIncrease(toks: seq<Token>, open: nat, close: nat, a: nat, b: nat)
    requires open < close <= |toks| && a < b < |Bounds(toks, open, close)|
    ensures open <= Bounds(toks, open, close)[a] < Bounds(toks, open, close)[b] <= close
  {
    if b < |Marks(toks, open, close)| {
      MarksIncrease(toks, open, close, a, b);
    }
  }

  lemma MarksNext(toks: seq<Token>, open: nat, i: nat, before: seq<nat>, comma: bool)
    requires open + 1 < i <= |toks| && before == Marks(toks, open, i - 1) && (comma <==> TopComma(toks, open, i - 1))
    ensures Marks(toks, open, i) == if comma then before + [i - 1] else before
  {
  }

  lemma DoneNext(toks: seq<Token>, open: nat, i: nat, before: seq<seq<Token>>, last: seq<Token>, comma: bool)
    requires open + 1 < i <= |toks|
    requires before == Done(toks, open, i - 1) && last == Pending(toks, open, i - 1)
    requires comma <==> TopComma(toks, open, i - 1)
    ensures Done(toks, open, i) == if comma then before + [last] else before
  {
  }

  lemma DoneLast(toks: seq<Token>, open: nat, i: nat, a: nat)
    requires open + 1 < i <= |toks| && TopComma(toks, open, i - 1) && a == |Done(toks, open, i - 1)|
    ensures var marks := Marks(toks, open, i);
      |marks| == a + 2 && marks[a] + 1 <= marks[a + 1] < i && Done(toks, open, i)[a] == toks[marks[a] + 1..marks[a + 1]]
  {
    assert Marks(toks, open, i)[a] == LastMark(toks, open, i - 1);
  }

  lemma DoneKept(toks: seq<Token>, open: nat, i: nat, a: nat)
    requires open + 1 < i <= |toks| && a < |Done(toks, open, i - 1)|
    ensures a < |Done(toks, open, i)| && Done(toks, open, i)[a] == Done(toks, open, i - 1)[a]
    ensures Marks(toks, open, i)[a] == Marks(toks, open, i - 1)[a]
    ensures Marks(toks, open, i)[a + 1] == Marks(toks, open, i - 1)[a + 1]
  {
  }

  lemma {:induction false} DoneAt(toks: seq<Token>, open: nat, i: nat, a: nat)
    requires open < i <= |toks| && a < |Done(toks, open, i)|
    ensures var marks := Marks(toks, open, i);
      marks[a] + 1 <= marks[a + 1] < i && Done(toks, open, i)[a] == toks[marks[a] + 1..marks[a + 1]]
    decreases i
  {
    if a < |Done(toks, open, i - 1)| {
      DoneAt(toks, open, i - 1, a);
      DoneKept(toks, open, i, a);
    } else {
      DoneLast(toks, open, i, a);
    }
  }

  lemma ArgAt(toks: seq<Token>, open: nat, close: nat, a: nat)
    requires open < close <= |toks| && a < |ArgList(toks, open, close)|
    ensures |ArgList(toks, open, close)| == |Bounds(toks, open, close)| - 1
    ensures var bounds := Bounds(toks, open, close);
      bounds[a] + 1 <= bounds[a + 1] <= close && ArgList(toks, open, close)[a] == toks[bounds[a] + 1..bounds[a + 1]]
  {
    if a < |Done(toks, open, close)| {
      DoneAt(toks, open, close, a);
    }
  }

  /** Every mark but the first is a top-level comma. */
  lemma {:induction false} MarkIsComma(toks: seq<Token>, open: nat, i: nat, a: nat)
    requires open < i <= |toks| && 0 < a < |Marks(toks, open, i)|
    ensures open < Marks(toks, open, i)[a] && TopComma(toks, open, Marks(toks, open, i)[a])
    decreases i
  {
    if TopComma(toks, open, i - 1) && a == |Marks(toks, open, i)| - 1 {
    } else {
      MarkIsComma(toks, open, i - 1, a);
    }
  }

  /** Every top-level comma is a mark. */
  lemma {:induction false} CommaIsMark(toks: seq<Token>, open: nat, i: nat, j: nat) returns (a: nat)
    requires open < j < i <= |toks| && TopComma(toks, open, j)
    ensures a < |Marks(toks, open, i)| && Marks(toks, open, i)[a] == j
    decreases i
  {
    if j < i - 1 {
      a := CommaIsMark(toks, open, i - 1, j);
    } else {
      a := |Marks(toks, open, i)| - 1;
    }
  }

  /** No top-level comma stands strictly between two neighbouring bounds. */
  lemma CleanBetween(toks: seq<Token>, open: nat, close: nat, a: nat, j: nat)
    requires open < close <= |toks| && a + 1 < |Bounds(toks, open, close)|
    requires Bounds(toks, open, close)[a] < j < Bounds(toks, open, close)[a + 1]
    ensures open < j < close && !TopComma(toks, open, j)
  {
    BoundsIncrease(toks, open, close, a, a + 1);
    if TopComma(toks, open, j) {
      var c := CommaIsMark(toks, open, close, j);
      if c < a {
        BoundsIncrease(toks, open, close, c, a);
      } else if a + 1 < c {
        BoundsIncrease(toks, open, close, a + 1, c);
      }
    }
  }

  /** Position `k` lies in the argument behind the `a`-th of the bounds. */
  predicate Within(bounds: seq<nat>, a: nat, k: nat)
    requires a + 1 < |bounds|
  {
    bounds[a] < k < bounds[a + 1]
  }

  /** A position that carries no mark lies in some argument. */
  lemma {:induction false} StretchOf(toks: seq<Token>, open: nat, i: nat, k: nat) returns (a: nat)
    requires open < k < i <= |toks| && !TopComma(toks, open, k)
    ensures a + 1 < |Bounds(toks, open, i)| && Within(Bounds(toks, open, i), a, k)
    decreases i
  {
    if k < i - 1 {
      a := StretchOf(toks, open, i - 1, k);
    } else {
      a := |Marks(toks, open, i)| - 1;
    }
  }

  lemma StretchOnce(toks: seq<Token>, open: nat, close: nat, k: nat, a: nat, b: nat)
    requires open < close <= |toks|
    requires a < b && b + 1 < |Bounds(toks, open, close)|
    requires Within(Bounds(toks, open, close), a, k)
    ensures !Within(Bounds(toks, open, close), b, k)
  {
    if a + 1 < b {
      BoundsIncrease(toks, open, close, a + 1, b);
    }
  }

  /** The two walks agree: the token the backward walk started from lies, at
      bracket depth zero, in exactly one of the arguments the forward walk
      returns, whatever the brackets around them. */
  lemma WalksAgree(toks: seq<Token>, k: nat, open: nat, close: nat) returns (a: nat)
    requires k < |toks| && toks[k].kind != Punct
    requires EncloserAt(toks, k, open) && ClosesAt(toks, open, close)
    ensures open < k < close && a < |ArgList(toks, open, close)| == |Bounds(toks, open, close)| - 1
    ensures Within(Bounds(toks, open, close), a, k)
    ensures forall b :: 0 <= b < |ArgList(toks, open, close)| && Within(Bounds(toks, open, close), b, k) ==> b == a
    ensures var arg, at := ArgList(toks, open, close)[a], k - Bounds(toks, open, close)[a] - 1;
      0 <= at < |arg| && arg[at] == toks[k] && Depth(arg, 0, at) == 0
  {
    ClosesBeyond(toks, k, open, close);
    a := StretchOf(toks, open, close, k);
    ArgAt(toks, open, close, a);
    DepthInArg(toks, open, close, a, k - Bounds(toks, open, close)[a] - 1);
    forall b | 0 <= b < |ArgList(toks, open, close)| && Within(Bounds(toks, open, close), b, k)
      ensures b == a
    {
      if a < b {
        StretchOnce(toks, open, close, k, a, b);
      } else if b < a {
        StretchOnce(toks, open, close, k, b, a);
      }
    }
  }

  lemma TopLevelAtArg(toks: seq<Token>, open: nat, close: nat, a: nat)
    requires open < close <= |toks| && a + 1 < |Bounds(toks, open, close)|
    ensures open + 1 <= Bounds(toks, open, close)[a] + 1 <= close
    ensures Depth(toks, open + 1, Bounds(toks, open, close)[a] + 1) == 0
  {
    BoundsIncrease(toks, open, close, a, a + 1);
    if a > 0 {
      MarkIsComma(toks, open, close, a);
    }
  }

  lemma DepthInStretch(toks: seq<Token>, open: nat, lo: nat, hi: nat, j: nat)
    requires open < lo <= lo + j <= hi <= |toks| && Depth(toks, open + 1, lo) == 0
    ensures Depth(toks[lo..hi], 0, j) == Depth(toks, open + 1, lo + j)
  {
    DepthOfPart(toks, toks[lo..hi], lo, 0, j);
    DepthSplits(toks, open + 1, lo, lo + j);
  }

  /** Depth measured in an argument is depth measured from the bracket. */
  lemma DepthInArg(toks: seq<Token>, open: nat, close: nat, a: nat, j: nat)
    requires open < close <= |toks| && a < |ArgList(toks, open, close)|
    requires j <= |ArgList(toks, open, close)[a]|
    ensures a + 1 < |Bounds(toks, open, close)|
    ensures var at := Bounds(toks, open, close)[a] + 1 + j;
      open < at <= close && Depth(ArgList(toks, open, close)[a], 0, j) == Depth(toks, open + 1, at)
  {
    ArgAt(toks, open, close, a);
    TopLevelAtArg(toks, open, close, a);
    DepthInStretch(toks, open, Bounds(toks, open, close)[a] + 1, Bounds(toks, open, close)[a + 1], j);
  }

  // ---------- splitting and joining ----------

  function Join(args: seq<seq<Token>>): seq<Token> {
    if args == [] then []
    else if |args| == 1 then args[0]
    else Join(args[..|args| - 1]) + [COMMA] + args[|args| - 1]
  }

  lemma JoinSnoc(args: seq<seq<Token>>, arg: seq<Token>)
    requires args != []
    ensures Join(args + [arg]) == Join(args) + [COMMA] + arg
  {
    assert (args + [arg])[..|args|] == args;
  }

  lemma JoinGrows(done: seq<seq<Token>>, pending: seq<Token>, t: Token, text: seq<Token>)
    requires Join(done + [pending]) == text
    ensures Join(done + [pending + [t]]) == text + [t]
  {
    if done != [] {
      JoinSnoc(done, pending);
      JoinSnoc(done, pending + [t]);
      assert Join(done) + [COMMA] + (pending + [t]) == (Join(done) + [COMMA] + pending) + [t];
    }
  }

  lemma JoinEnds(done: seq<seq<Token>>, pending: seq<Token>, text: seq<Token>)
    requires Join(done + [pending]) == text
    ensures Join((done + [pending]) + [[]]) == text + [COMMA]
  {
    JoinSnoc(done + [pending], []);
  }

  lemma JoinStep(done: seq<seq<Token>>, pending: seq<Token>, text: seq<Token>, t: Token, comma: bool,
                 all: seq<seq<Token>>, more: seq<seq<Token>>)
    requires all == done + [pending] && Join(all) == text && (comma ==> t == COMMA)
    requires more == if comma then all + [[]] else done + [pending + [t]]
    ensures Join(more) == text + [t]
  {
    if comma {
      JoinEnds(done, pending, text);
    } else {
      JoinGrows(done, pending, t, text);
    }
  }

  lemma SliceSnoc(toks: seq<Token>, lo: nat, i: nat, text: seq<Token>)
    requires lo < i <= |toks| && text == toks[lo..i - 1]
    ensures toks[lo..i] == text + [toks[i - 1]]
  {
  }

  lemma LastMarkNext(toks: seq<Token>, open: nat, i: nat, m: nat, comma: bool)
    requires open + 1 < i <= |toks| && m == LastMark(toks, open, i - 1) && (comma <==> TopComma(toks, open, i - 1))
    ensures LastMark(toks, open, i) == if comma then i - 1 else m
  {
  }

  lemma PendingNext(toks: seq<Token>, open: nat, i: nat, last: seq<Token>, comma: bool)
    requires open + 1 < i <= |toks| && last == Pending(toks, open, i - 1) && (comma <==> TopComma(toks, open, i - 1))
    ensures Pending(toks, open, i) == if comma then [] else last + [toks[i - 1]]
  {
    var m := LastMark(toks, open, i - 1);
    LastMarkNext(toks, open, i, m, comma);
    SliceSnoc(toks, m + 1, i, last);
  }

  lemma PartsStep(toks: seq<Token>, open: nat, i: nat, before: seq<seq<Token>>, last: seq<Token>, comma: bool,
                  all: seq<seq<Token>>)
    requires open + 1 < i <= |toks| && all == before + [last] && (comma <==> TopComma(toks, open, i - 1))
    requires before == Done(toks, open, i - 1) && last == Pending(toks, open, i - 1)
    ensures Done(toks, open, i) + [Pending(toks, open, i)] ==
      if comma then all + [[]] else before + [last + [toks[i - 1]]]
  {
    DoneNext(toks, open, i, before, last, comma);
    PendingNext(toks, open, i, last, comma);
  }

  lemma {:induction false} JoinOfDone(toks: seq<Token>, open: nat, i: nat, more: seq<seq<Token>>)
    requires open < i <= |toks| && more == Done(toks, open, i) + [Pending(toks, open, i)]
    ensures Join(more) == toks[open + 1..i]
    decreases i
  {
    if i > open + 1 {
      var before, last, comma := Done(toks, open, i - 1), Pending(toks, open, i - 1), TopComma(toks, open, i - 1);
      var all, text := before + [last], toks[open + 1..i - 1];
      JoinOfDone(toks, open, i - 1, all);
      PartsStep(toks, open, i, before, last, comma, all);
      JoinStep(before, last, text, toks[i - 1], comma, all, more);
      SliceSnoc(toks, open + 1, i, text);
    }
  }

  /** Joined with commas, the arguments give back exactly the tokens between
      the brackets, and there are none exactly when there is nothing there. */
  lemma JoinUndoesSplit(toks: seq<Token>, open: nat, close: nat)
    requires ClosesAt(toks, open, close)
    ensures Join(ArgList(toks, open, close)) == toks[open + 1..close]
    ensures ArgList(toks, open, close) == [] <==> close == open + 1
  {
    JoinOfDone(toks, open, close, Done(toks, open, close) + [Pending(toks, open, close)]);
  }

  ghost predicate Balanced(arg: seq<Token>) {
    && Depth(arg, 0, |arg|) == 0
    && forall j :: 0 <= j <= |arg| ==> Depth(arg, 0, j) >= 0
  }

  ghost predicate TopLevelClean(arg: seq<Token>, j: nat)
    requires j < |arg|
  {
    Depth(arg, 0, j) == 0 ==> arg[j] != COMMA && !IsPunct(arg[j], ";")
  }

  /** An argument as such: its brackets balance, and neither a comma nor a
      semicolon stands outside them, nor a statement's keyword at its head. */
  ghost predicate SelfContained(arg: seq<Token>) {
    && Balanced(arg)
    && (forall j :: 0 <= j < |arg| ==> TopLevelClean(arg, j))
    && (arg != [] ==> !IsStatementWord(arg[0]))
  }

  lemma {:induction false} InnerDepth(toks: seq<Token>, open: nat, close: nat, j: nat)
    requires open < j <= close <= |toks|
    requires forall m :: open < m < close ==> Inner(toks, open, m)
    ensures Depth(toks, open + 1, j) >= 0
    decreases j
  {
    if open + 1 < j {
      InnerDepth(toks, open, close, j - 1);
      assert Inner(toks, open, j - 1);
    }
  }

  /** Conversely the backward walk, begun at any top-level position of a list
      that closes, finds the bracket that opened it. */
  lemma BackwardFindsOpen(toks: seq<Token>, open: nat, close: nat, k: nat)
    requires ClosesAt(toks, open, close) && open < k <= close
    ensures EncloserAt(toks, k, open) <==> Depth(toks, open + 1, k) == 0
  {
    forall m | open < m < k && IsOpener(toks[m])
      ensures Depth(toks, m + 1, k) < Depth(toks, open + 1, k)
    {
      InnerDepth(toks, open, close, m);
      DepthSplits(toks, open + 1, m + 1, k);
    }
  }

  lemma ArgDepthAt(toks: seq<Token>, open: nat, close: nat, a: nat, arg: seq<Token>, j: nat)
    requires ClosesAt(toks, open, close) && a < |ArgList(toks, open, close)| && arg == ArgList(toks, open, close)[a]
    requires j <= |arg|
    ensures Depth(arg, 0, j) >= 0
  {
    DepthInArg(toks, open, close, a, j);
    InnerDepth(toks, open, close, Bounds(toks, open, close)[a] + 1 + j);
  }

  lemma BoundAtZero(toks: seq<Token>, open: nat, close: nat, b: nat, at: nat)
    requires ClosesAt(toks, open, close) && 0 < b < |Bounds(toks, open, close)| && at == Bounds(toks, open, close)[b]
    ensures open < at <= close && Depth(toks, open + 1, at) == 0
  {
    if b < |Marks(toks, open, close)| {
      MarkIsComma(toks, open, close, b);
    }
  }

  lemma ArgEnds(toks: seq<Token>, open: nat, close: nat, a: nat, arg: seq<Token>) returns (at: nat)
    requires open < close <= |toks| && a < |ArgList(toks, open, close)| && arg == ArgList(toks, open, close)[a]
    ensures a + 1 < |Bounds(toks, open, close)| && at == Bounds(toks, open, close)[a + 1]
    ensures open < at <= close && Depth(arg, 0, |arg|) == Depth(toks, open + 1, at)
  {
    DepthInArg(toks, open, close, a, |arg|);
    ArgAt(toks, open, close, a);
    at := Bounds(toks, open, close)[a + 1];
  }

  lemma ArgDepthEnds(toks: seq<Token>, open: nat, close: nat, a: nat, arg: seq<Token>)
    requires ClosesAt(toks, open, close) && a < |ArgList(toks, open, close)| && arg == ArgList(toks, open, close)[a]
    ensures Depth(arg, 0, |arg|) == 0
  {
    var at := ArgEnds(toks, open, close, a, arg);
    BoundAtZero(toks, open, close, a + 1, at);
  }

  lemma ArgBalanced(toks: seq<Token>, open: nat, close: nat, a: nat, arg: seq<Token>)
    requires ClosesAt(toks, open, close) && a < |ArgList(toks, open, close)| && arg == ArgList(toks, open, close)[a]
    ensures Balanced(arg)
  {
    forall j | 0 <= j <= |arg|
      ensures Depth(arg, 0, j) >= 0
    {
      ArgDepthAt(toks, open, close, a, arg, j);
    }
    ArgDepthEnds(toks, open, close, a, arg);
  }

  lemma ArgClean(toks: seq<Token>, open: nat, close: nat, a: nat, j: nat)
    requires ClosesAt(toks, open, close) && a < |ArgList(toks, open, close)|
    requires j < |ArgList(toks, open, close)[a]|
    ensures TopLevelClean(ArgList(toks, open, close)[a], j)
  {
    ArgAt(toks, open, close, a);
    DepthInArg(toks, open, close, a, j);
    var at := Bounds(toks, open, close)[a] + 1 + j;
    CleanBetween(toks, open, close, a, at);
    assert Inner(toks, open, at);
  }

  /** Every argument the forward walk returns is self-contained. */
  lemma ArgsSelfContained(toks: seq<Token>, open: nat, close: nat, a: nat)
    requires ClosesAt(toks, open, close) && a < |ArgList(toks, open, close)|
    ensures SelfContained(ArgList(toks, open, close)[a])
  {
    var arg := ArgList(toks, open, close)[a];
    ArgBalanced(toks, open, close, a, arg);
    forall j | 0 <= j < |arg|
      ensures TopLevelClean(arg, j)
    {
      ArgClean(toks, open, close, a, j);
    }
    if arg != [] {
      ArgAt(toks, open, close, a);
      TopLevelAtArg(toks, open, close, a);
      assert Inner(toks, open, Bounds(toks, open, close)[a] + 1);
      if a > 0 {
        MarkIsComma(toks, open, close, a);
      }
    }
  }
}
