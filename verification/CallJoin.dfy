/** The converse of splitting: a list written from self-contained arguments is
    split into exactly those arguments. */
module CallJoin {
  import opened JsLexer
  import opened CallWalk

  ghost predicate PartAt(toks: seq<Token>, at: nat, part: seq<Token>) {
    at + |part| <= |toks| && toks[at..at + |part|] == part
  }

  lemma PartIndex(toks: seq<Token>, at: nat, part: seq<Token>, k: nat, p: nat)
    requires PartAt(toks, at, part) && k < |part| && p == at + k
    ensures toks[p] == part[k]
  {
    assert toks[at..at + |part|][k] == toks[at + k];
  }

  lemma PartSplits(toks: seq<Token>, at: nat, a: seq<Token>, b: seq<Token>)
    requires PartAt(toks, at, a + b)
    ensures PartAt(toks, at, a) && PartAt(toks, at + |a|, b)
  {
    var whole := toks[at..at + |a + b|];
    assert whole[..|a|] == a && whole[|a|..] == b;
    assert whole[..|a|] == toks[at..at + |a|];
    assert whole[|a|..] == toks[at + |a|..at + |a| + |b|];
  }

  /** The scan is at the top level, and the pending argument is empty. */
  ghost predicate AtArgStart(toks: seq<Token>, open: nat, s: nat) {
    open < s <= |toks| && Depth(toks, open + 1, s) == 0 && LastMark(toks, open, s) + 1 == s
  }

  /** The scan has read the first `t` tokens of argument `x`, begun at `s`. */
  ghost predicate ReadSoFar(toks: seq<Token>, open: nat, s: nat, x: seq<Token>, t: nat, p: nat)
    requires open < s <= p <= |toks| && t <= |x|
  {
    && Depth(toks, open + 1, p) == Depth(x, 0, t)
    && LastMark(toks, open, p) + 1 == s
    && Done(toks, open, p) == Done(toks, open, s)
  }

  lemma ReadOne(toks: seq<Token>, open: nat, s: nat, x: seq<Token>, t: nat, p: nat)
    requires AtArgStart(toks, open, s) && PartAt(toks, s, x) && SelfContained(x)
    requires t < |x| && p == s + t && ReadSoFar(toks, open, s, x, t, p)
    ensures Inner(toks, open, p) && ReadSoFar(toks, open, s, x, t + 1, p + 1)
  {
    PartIndex(toks, s, x, t, p);
    assert TopLevelClean(x, t);
    assert Depth(x, 0, t + 1) == Depth(x, 0, t) + Weight(x[t]) >= 0;
    OneMoreToken(toks, open, p);
    assert LastMark(toks, open, p + 1) == LastMark(toks, open, p);
    if t > 0 {
      PartIndex(toks, s, x, t - 1, p - 1);
      assert TopLevelClean(x, t - 1);
      assert Depth(x, 0, t) == Depth(x, 0, t - 1) + Weight(x[t - 1]);
    }
  }

  lemma {:induction false} ReadArg(toks: seq<Token>, open: nat, s: nat, x: seq<Token>, t: nat, p: nat)
    requires AtArgStart(toks, open, s) && PartAt(toks, s, x) && SelfContained(x)
    requires t <= |x| && p == s + t
    ensures ReadSoFar(toks, open, s, x, t, p)
    decreases t
  {
    if t > 0 {
      ReadArg(toks, open, s, x, t - 1, p - 1);
      ReadOne(toks, open, s, x, t - 1, p - 1);
    }
  }

  lemma ReadInner(toks: seq<Token>, open: nat, s: nat, x: seq<Token>, t: nat, p: nat)
    requires AtArgStart(toks, open, s) && PartAt(toks, s, x) && SelfContained(x)
    requires t < |x| && p == s + t
    ensures Inner(toks, open, p)
  {
    ReadArg(toks, open, s, x, t, p);
    ReadOne(toks, open, s, x, t, p);
  }

  ghost predicate AllSelfContained(args: seq<seq<Token>>) {
    forall a :: 0 <= a < |args| ==> SelfContained(args[a])
  }

  /** The scan has read `args`, the last of them still pending, up to `p`. */
  ghost predicate HasRead(toks: seq<Token>, open: nat, args: seq<seq<Token>>, p: nat)
    requires open < p <= |toks|
  {
    && Depth(toks, open + 1, p) == 0
    && (forall j :: open < j < p ==> Inner(toks, open, j))
    && Done(toks, open, p) + [Pending(toks, open, p)] == args
  }

  lemma ReadLast(toks: seq<Token>, open: nat, s: nat, x: seq<Token>, p: nat)
    requires AtArgStart(toks, open, s) && PartAt(toks, s, x) && SelfContained(x) && p == s + |x|
    requires forall j :: open < j < s ==> Inner(toks, open, j)
    ensures HasRead(toks, open, Done(toks, open, s) + [x], p)
  {
    ReadArg(toks, open, s, x, |x|, p);
    forall j | s <= j < p
      ensures Inner(toks, open, j)
    {
      ReadInner(toks, open, s, x, j - s, j);
    }
    assert Pending(toks, open, p) == toks[s..p] == x;
  }

  lemma CommaEndsArg(toks: seq<Token>, open: nat, args: seq<seq<Token>>, p: nat)
    requires open < p < |toks| && HasRead(toks, open, args, p) && toks[p] == COMMA
    ensures AtArgStart(toks, open, p + 1) && Inner(toks, open, p) && Done(toks, open, p + 1) == args
  {
    OneMoreToken(toks, open, p);
  }

  lemma ReadAnother(toks: seq<Token>, open: nat, args: seq<seq<Token>>, c: nat, s: nat, x: seq<Token>, p: nat,
                    all: seq<seq<Token>>)
    requires open < c < |toks| && HasRead(toks, open, args, c) && toks[c] == COMMA && s == c + 1
    requires PartAt(toks, s, x) && SelfContained(x) && p == s + |x| && all == args + [x]
    ensures p <= |toks| && HasRead(toks, open, all, p)
  {
    CommaEndsArg(toks, open, args, c);
    ReadLast(toks, open, s, x, p);
  }

  lemma JoinedParts(toks: seq<Token>, at: nat, args: seq<seq<Token>>, front: seq<seq<Token>>, x: seq<Token>, c: nat,
                    s: nat)
    requires front != [] && args == front + [x] && PartAt(toks, at, Join(args))
    requires c == at + |Join(front)| && s == c + 1
    ensures PartAt(toks, at, Join(front)) && c < |toks| && toks[c] == COMMA && PartAt(toks, s, x)
    ensures |Join(args)| == |Join(front)| + 1 + |x|
  {
    JoinSnoc(front, x);
    PartSplits(toks, at, Join(front) + [COMMA], x);
    PartSplits(toks, at, Join(front), [COMMA]);
    PartIndex(toks, c, [COMMA], 0, c);
  }

  lemma ReadFirst(toks: seq<Token>, open: nat, args: seq<seq<Token>>, x: seq<Token>, p: nat)
    requires open < |toks| && SelfContained(x) && args == [x] && PartAt(toks, open + 1, Join(args))
    requires p == open + 1 + |Join(args)|
    ensures p <= |toks| && HasRead(toks, open, args, p)
  {
    ReadLast(toks, open, open + 1, x, p);
  }

  lemma JoinedFront(toks: seq<Token>, at: nat, args: seq<seq<Token>>, front: seq<seq<Token>>, x: seq<Token>, c: nat)
    requires front != [] && args == front + [x] && PartAt(toks, at, Join(args)) && c == at + |Join(front)|
    ensures c < |toks| && PartAt(toks, at, Join(front))
  {
    JoinedParts(toks, at, args, front, x, c, c + 1);
  }

  lemma JoinedBack(toks: seq<Token>, at: nat, args: seq<seq<Token>>, front: seq<seq<Token>>, x: seq<Token>, s: nat,
                   p: nat)
    requires front != [] && args == front + [x] && PartAt(toks, at, Join(args))
    requires s == at + |Join(front)| + 1 && p == at + |Join(args)|
    ensures s <= |toks| && toks[s - 1] == COMMA && PartAt(toks, s, x) && p == s + |x|
  {
    JoinedParts(toks, at, args, front, x, s - 1, s);
  }

  lemma ReadLonger(toks: seq<Token>, open: nat, args: seq<seq<Token>>, front: seq<seq<Token>>, x: seq<Token>, s: nat,
                   p: nat)
    requires front != [] && args == front + [x] && SelfContained(x) && PartAt(toks, open + 1, Join(args))
    requires open + 1 < s <= |toks| && s == open + 2 + |Join(front)| && p == open + 1 + |Join(args)|
    requires HasRead(toks, open, front, s - 1)
    ensures p <= |toks| && HasRead(toks, open, args, p)
  {
    JoinedBack(toks, open + 1, args, front, x, s, p);
    ReadAnother(toks, open, front, s - 1, s, x, p, args);
  }

  lemma {:induction false} ReadJoined(toks: seq<Token>, open: nat, args: seq<seq<Token>>, p: nat)
    requires open < |toks| && args != [] && AllSelfContained(args)
    requires PartAt(toks, open + 1, Join(args)) && p == open + 1 + |Join(args)|
    ensures HasRead(toks, open, args, p)
    decreases |args|
  {
    var front, x := args[..|args| - 1], args[|args| - 1];
    assert args == front + [x];
    SplitContained(args, front, x);
    if front == [] {
      ReadFirst(toks, open, args, x, p);
    } else {
      var s := open + 2 + |Join(front)|;
      JoinedFront(toks, open + 1, args, front, x, s - 1);
      ReadJoined(toks, open, front, s - 1);
      ReadLonger(toks, open, args, front, x, s, p);
    }
  }

  lemma SplitContained(args: seq<seq<Token>>, front: seq<seq<Token>>, x: seq<Token>)
    requires AllSelfContained(args) && args == front + [x]
    ensures AllSelfContained(front) && SelfContained(x)
  {
    assert args[|front|] == x && forall k :: 0 <= k < |front| ==> front[k] == args[k];
  }

  /** Splitting undoes joining: any arguments that are self-contained, written
      between brackets with commas, are what the forward walk returns. One
      empty argument by itself is not told from none. */
  lemma SplitUndoesJoin(toks: seq<Token>, open: nat, args: seq<seq<Token>>, close: nat)
    requires close == open + 1 + |Join(args)| && close < |toks|
    requires IsPunct(toks[open], "(") && PartAt(toks, open + 1, Join(args)) && IsPunct(toks[close], ")")
    requires AllSelfContained(args) && args != [[]]
    ensures ClosesAt(toks, open, close) && ArgList(toks, open, close) == args
  {
    if args != [] {
      ReadJoined(toks, open, args, close);
      assert |args| >= 2 ==> Join(args) == Join(args[..|args| - 1]) + [COMMA] + args[|args| - 1];
      assert Join(args) != [];
    }
  }
}
