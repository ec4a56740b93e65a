/** The internet checksum of client/probe_linux.go and the echo request that
    carries it. */
module Checksum {
  import opened NonceCounter

  const ONES := 0xFFFF
  const ECHO_REQUEST := 8

  // ---------- the sum, on values ----------

  /** The first `n` 16-bit words of `b`, added up without bound. */
  function Words(b: seq<Byte>, n: nat): nat
    requires 2 * n <= |b|
  {
    if n == 0 then 0 else Words(b, n - 1) + Read16(b, 2 * n - 2)
  }

  /** An odd last byte counts as the high half of a word. */
  function Tail(b: seq<Byte>): nat {
    if |b| % 2 == 1 then b[|b| - 1] as int * 256 else 0
  }

  function WordSum(b: seq<Byte>): nat { Words(b, |b| / 2) + Tail(b) }

  /** Adding the carries back in, as often as it takes. */
  function Fold(sum: nat): nat
    decreases sum
  {
    if sum / M16 == 0 then sum else Fold(sum % M16 + sum / M16)
  }

  /** What the code computes: its accumulator is 32 bits wide. */
  function InternetChecksum(b: seq<Byte>): int { ONES - Fold(WordSum(b) % M32) }

  lemma AddWrapped(total: nat, sum: nat, word: nat)
    requires sum == total % M32
    ensures (sum + word) % M32 == (total + word) % M32
  {
  }

  method ComputeChecksum(b: seq<Byte>) returns (c: U16)
    ensures c == InternetChecksum(b)
  {
    var sum: nat := 0;
    var i := 0;
    ghost var n := 0;
    while i + 1 < |b|
      invariant i == 2 * n <= |b|
      invariant sum == Words(b, n) % M32
    {
      AddWrapped(Words(b, n), sum, Read16(b, i));
      sum := (sum + Read16(b, i)) % M32;
      i, n := i + 2, n + 1;
    }
    if |b| % 2 == 1 {
      AddWrapped(Words(b, n), sum, Tail(b));
      sum := (sum + b[|b| - 1] as int * 256) % M32;
    }
    sum := FoldCarries(sum);
    c := ONES - sum;
  }

  method FoldCarries(total: nat) returns (sum: nat)
    ensures sum == Fold(total) && sum < M16
  {
    sum := total;
    while sum / M16 != 0
      invariant Fold(sum) == Fold(total)
      decreases sum
    {
      sum := sum % M16 + sum / M16;
    }
  }

  // ---------- folding is reduction modulo 2^16 - 1 ----------

  /** The representative of `x` modulo 65535 that one's complement sums use: zero
      only for zero. */
  function Canonical(x: nat): nat { if x == 0 then 0 else (x - 1) % ONES + 1 }

  lemma CanonicalDropsCarry(x: nat)
    requires x > 0
    ensures Canonical(x % M16 + x / M16) == Canonical(x)
  {
    var hi, lo := x / M16, x % M16;
    assert x - 1 == (lo + hi - 1) + hi * ONES;
    Shift(lo + hi - 1, hi);
  }

  lemma Shift(a: int, k: int)
    ensures (a + k * ONES) % ONES == a % ONES
  {
  }

  lemma {:induction false} FoldIsCanonical(sum: nat)
    ensures Fold(sum) == Canonical(sum)
    decreases sum
  {
    if sum / M16 != 0 {
      FoldIsCanonical(sum % M16 + sum / M16);
      CanonicalDropsCarry(sum);
    }
  }

  // ---------- a stored checksum verifies ----------

  function Stored(b: seq<Byte>, at: nat, c: U16): (b': seq<Byte>)
    requires at + 2 <= |b|
    ensures |b'| == |b|
  {
    b[..at] + Be16(c) + b[at + 2..]
  }

  lemma {:induction false} StoredWords(b: seq<Byte>, at: nat, c: U16, n: nat)
    requires at % 2 == 0 && at + 2 <= |b| && Read16(b, at) == 0 && 2 * n <= |b|
    ensures Words(Stored(b, at, c), n) == Words(b, n) + if at < 2 * n then c else 0
  {
    if n > 0 {
      StoredWords(b, at, c, n - 1);
      var b', k := Stored(b, at, c), 2 * n - 2;
      if k == at {
        assert b'[k] == Be16(c)[0] && b'[k + 1] == Be16(c)[1];
      } else {
        assert b'[k] == b[k] && b'[k + 1] == b[k + 1];
      }
    }
  }

  lemma StoredSum(b: seq<Byte>, at: nat, c: U16)
    requires at % 2 == 0 && at + 2 <= |b| && Read16(b, at) == 0
    ensures WordSum(Stored(b, at, c)) == WordSum(b) + c
  {
    StoredWords(b, at, c, |b| / 2);
  }

  /** Adding its own complement brings any 32-bit sum to a positive multiple of
      65535, and never overflows, since 2^32 - 1 is such a multiple itself. */
  lemma ComplementFits(sum: nat)
    requires sum < M32
    ensures sum + (ONES - Canonical(sum)) < M32
    ensures Canonical(sum + (ONES - Canonical(sum))) == ONES
  {
    if sum > 0 {
      var q := (sum - 1) / ONES;
      assert sum == q * ONES + Canonical(sum);
      assert M32 == 65537 * ONES + 1;
      assert q < 65537;
      Shift(ONES - 1, q);
    }
  }

  lemma AddModulo(a: nat, c: nat)
    requires a % M32 + c < M32
    ensures (a + c) % M32 == a % M32 + c
  {
  }

  /** Storing the checksum in a zero field at an even offset makes the checksum of
      the whole zero, for every length, odd ones and overflowing ones included. */
  lemma ChecksumVerifies(b: seq<Byte>, at: nat, c: U16)
    requires at % 2 == 0 && at + 2 <= |b| && Read16(b, at) == 0
    requires c == InternetChecksum(b)
    ensures InternetChecksum(Stored(b, at, c)) == 0
  {
    var sum := WordSum(b) % M32;
    FoldIsCanonical(sum);
    ComplementFits(sum);
    StoredSum(b, at, c);
    AddModulo(WordSum(b), c);
    FoldIsCanonical(sum + c);
  }

  lemma {:induction false} WordsOfPrefix(b: seq<Byte>, more: seq<Byte>, n: nat)
    requires 2 * n <= |b| <= |more| && more[..|b|] == b
    ensures Words(more, n) == Words(b, n)
  {
    if n > 0 {
      WordsOfPrefix(b, more, n - 1);
      assert b[2 * n - 2] == more[..|b|][2 * n - 2] && b[2 * n - 1] == more[..|b|][2 * n - 1];
    }
  }

  /** An odd number of bytes is summed up as if a zero byte followed. */
  lemma OddIsPadded(b: seq<Byte>)
    requires |b| % 2 == 1
    ensures InternetChecksum(b + [0]) == InternetChecksum(b)
  {
    var n := |b| / 2;
    WordsOfPrefix(b, b + [0], n);
    assert Words(b + [0], n + 1) == Words(b + [0], n) + Read16(b + [0], 2 * n);
  }

  // ---------- the checksum of RFC 1071 ----------

  /** One's complement addition: the carry goes round to the low end. */
  function OnesAdd(x: nat, y: nat): nat { if x + y > ONES then x + y - ONES else x + y }

  function OnesWords(b: seq<Byte>, n: nat): nat
    requires 2 * n <= |b|
  {
    if n == 0 then 0 else OnesAdd(OnesWords(b, n - 1), Read16(b, 2 * n - 2))
  }

  /** The one's complement sum of section 1 of RFC 1071. */
  function OnesSum(b: seq<Byte>): nat { OnesAdd(OnesWords(b, |b| / 2), Tail(b)) }

  lemma OnesAddCanonical(x: nat, y: nat)
    requires y <= ONES
    ensures OnesAdd(Canonical(x), y) == Canonical(x + y)
  {
    if x > 0 {
      var q := (x - 1) / ONES;
      assert x == q * ONES + Canonical(x);
      Shift(Canonical(x) + y - 1, q);
    }
  }

  lemma {:induction false} OnesWordsCanonical(b: seq<Byte>, n: nat)
    requires 2 * n <= |b|
    ensures OnesWords(b, n) == Canonical(Words(b, n))
  {
    if n > 0 {
      OnesWordsCanonical(b, n - 1);
      OnesAddCanonical(Words(b, n - 1), Read16(b, 2 * n - 2));
    }
  }

  lemma OnesSumCanonical(b: seq<Byte>)
    ensures OnesSum(b) == Canonical(WordSum(b))
  {
    OnesWordsCanonical(b, |b| / 2);
    OnesAddCanonical(Words(b, |b| / 2), Tail(b));
  }

  lemma {:induction false} WordsBounded(b: seq<Byte>, n: nat)
    requires 2 * n <= |b|
    ensures Words(b, n) <= n * ONES
  {
    if n > 0 {
      WordsBounded(b, n - 1);
    }
  }

  lemma WrapCanonical(sum: nat)
    ensures Canonical(sum % M32) == Canonical(sum) <==>
            sum / M32 % ONES == 0 && (sum % M32 == 0 ==> sum == 0)
  {
    var k, r := sum / M32, sum % M32;
    assert sum == (r + k) + k * 65537 * ONES;
    if r > 0 {
      Shift(r + k - 1, k * 65537);
      var q := (r - 1) / ONES;
      assert r == q * ONES + Canonical(r);
      Shift(Canonical(r) + k - 1, q);
      var j := k / ONES;
      assert k == j * ONES + k % ONES;
      Shift(Canonical(r) + k % ONES - 1, j);
    }
  }

  /** The code agrees with the standard exactly when the overflows of its 32-bit
      accumulator leave no trace; that is always so up to 131074 bytes. */
  lemma AgreesWithStandard(b: seq<Byte>)
    ensures InternetChecksum(b) == ONES - OnesSum(b) <==>
            WordSum(b) / M32 % ONES == 0 && (WordSum(b) % M32 == 0 ==> WordSum(b) == 0)
    ensures |b| <= 131074 ==> InternetChecksum(b) == ONES - OnesSum(b)
  {
    OnesSumCanonical(b);
    FoldIsCanonical(WordSum(b) % M32);
    WrapCanonical(WordSum(b));
    if |b| <= 131074 {
      WordsBounded(b, |b| / 2);
      assert WordSum(b) < M32;
    }
  }

  function AllOnes(n: nat): (b: seq<Byte>)
    ensures |b| == n
  {
    seq(n, _ => 255)
  }

  lemma {:induction false} AllOnesWords(size: nat, n: nat)
    requires 2 * n <= size
    ensures Words(AllOnes(size), n) == n * ONES
  {
    if n > 0 {
      AllOnesWords(size, n - 1);
    }
  }

  /** Two bytes past that size the accumulator can overflow and the answers differ. */
  lemma DisagreesBeyond(b: seq<Byte>)
    requires |b| == 131076 && b == AllOnes(|b|)
    ensures InternetChecksum(b) != ONES - OnesSum(b)
  {
    AllOnesWords(|b|, 65538);
    assert WordSum(b) == M32 + 65534;
    AgreesWithStandard(b);
  }

  // ---------- the echo request ----------

  method IcmpEcho(id: U16) returns (b: array<Byte>)
    ensures fresh(b) && b.Length == 8
    ensures b[0] == ECHO_REQUEST && b[1] == 0 && Read16(b[..], 4) == id && b[6] == b[7] == 0
    ensures InternetChecksum(b[..]) == 0
  {
    b := new Byte[8](_ => 0);
    b[0] := ECHO_REQUEST;
    var i := Be16(id);
    b[4], b[5] := i[0], i[1];
    var c := ComputeChecksum(b[..]);
    ghost var zeroed := b[..];
    var w := Be16(c);
    b[2], b[3] := w[0], w[1];
    assert b[..] == Stored(zeroed, 2, c);
    ChecksumVerifies(zeroed, 2, c);
  }
}
