/** The 48-bit packet counter of client/obfs.go: how a packet's sequence number,
    timestamp and AEAD nonce come from the number of packets sent before it. */
module NonceCounter {
  const M16 := 0x1_0000
  const M32 := 0x1_0000_0000
  const M48 := 0x1_0000_0000_0000
  const M64 := 0x1_0000_0000_0000_0000

  type Byte = b: int | 0 <= b < 256
  type U16 = v: int | 0 <= v < 0x1_0000
  type U32 = v: int | 0 <= v < 0x1_0000_0000

  /** The initial sequence number advanced by the low half of the count, wrapping at 16 bits. */
  function SeqAt(initSeq: U16, c: nat): U16 { (initSeq + c % M16) % M16 }

  /** The initial timestamp advanced by 960 for each packet and by one more for every
      65536 packets, each product and sum wrapping at 32 bits. */
  function TsAt(initTs: U32, c: nat): U32 {
    (initTs + c % M32 * 960 % M32 + c / M16 % M32) % M32
  }

  /** The 16-bit big-endian number that starts at `at`. */
  function Read16(b: seq<Byte>, at: nat): (v: U16)
    requires at + 2 <= |b|
  {
    var hi: int, lo: int := b[at], b[at + 1];
    hi * 256 + lo
  }

  function Read32(b: seq<Byte>, at: nat): (v: U32)
    requires at + 4 <= |b|
  {
    var hi: int, lo: int := Read16(b, at), Read16(b, at + 2);
    hi * M16 + lo
  }

  function Be16(v: U16): (b: seq<Byte>)
    ensures |b| == 2 && Read16(b, 0) == v
  {
    [v / 256, v % 256]
  }

  function Be32(v: U32): (b: seq<Byte>)
    ensures |b| == 4 && Read32(b, 0) == v
  {
    var hi, lo := Be16(v / M16), Be16(v % M16);
    assert Read16(hi + lo, 0) == v / M16 && Read16(hi + lo, 2) == v % M16;
    hi + lo
  }

  /** Numbers are written in network order, the high byte first. */
  lemma HighByteFirst(a: Byte, b: Byte, c: Byte, d: Byte, v: U16, w: U32)
    requires v == a as int * 256 + b as int && w == (v * 256 + c as int) * 256 + d as int
    ensures Be16(v) == [a, b] && Be32(w) == [a, b, c, d]
    ensures Read16([a, b], 0) == v && Read32([a, b, c, d], 0) == w
  {
    assert w / M16 == v && w % M16 == c as int * 256 + d as int;
  }

  /** SSRC, sequence number, two zero bytes, timestamp. */
  function Nonce(ssrc: U32, s: U16, ts: U32): (n: seq<Byte>)
    ensures |n| == 12
  {
    Be32(ssrc) + Be16(s) + [0, 0] + Be32(ts)
  }

  function NonceAt(ssrc: U32, initSeq: U16, initTs: U32, c: nat): seq<Byte> {
    Nonce(ssrc, SeqAt(initSeq, c), TsAt(initTs, c))
  }

  // ---------- the timestamp is linear in both halves of the counter ----------

  /** How far the timestamp moves when the sequence number has come round once:
      1 + 960 * 2^16, an odd number, whose inverse modulo 2^32 is 2 less itself. */
  const PER_ROUND := 1 + 960 * 0x1_0000

  lemma SameResidue(a: int, b: int, k: int)
    requires a == b + k * M32
    ensures a % M32 == b % M32
  {
  }

  lemma TsLinear(initTs: U32, c: nat)
    ensures TsAt(initTs, c) == (initTs + 960 * (c % M16) + c / M16 * PER_ROUND) % M32
  {
    var scaled := c % M32 * 960;
    var a := initTs + scaled % M32 + c / M16 % M32;
    var b := initTs + 960 * (c % M16) + c / M16 * PER_ROUND;
    assert b == initTs + 960 * c + c / M16 by {
      assert c == c / M16 * M16 + c % M16;
    }
    assert 960 * c == scaled + 960 * (c / M32) * M32;
    SameResidue(b, a, 960 * (c / M32) + scaled / M32 + c / M16 / M32);
  }

  /** Multiplication by the odd step loses nothing modulo 2^32. */
  lemma OddStepCancels(d: int)
    requires d * PER_ROUND % M32 == 0
    ensures d % M32 == 0
  {
    var q := d * PER_ROUND / M32;
    assert d * PER_ROUND == q * M32;
    assert d * PER_ROUND * (2 - PER_ROUND) == d - d * 921600 * M32;
    SameResidue(d, 0, q * (2 - PER_ROUND) + d * 921600);
  }

  lemma EqualResidues(a: int, b: int)
    ensures a % M32 == b % M32 <==> (a - b) % M32 == 0
  {
    assert a == a / M32 * M32 + a % M32 && b == b / M32 * M32 + b % M32;
    if a % M32 == b % M32 {
      SameResidue(a - b, 0, a / M32 - b / M32);
    }
    if (a - b) % M32 == 0 {
      SameResidue(a, b, (a - b) / M32);
    }
  }

  lemma SeqRepeats(initSeq: U16, a: nat, b: nat)
    ensures SeqAt(initSeq, a) == SeqAt(initSeq, b) <==> a % M16 == b % M16
  {
  }

  lemma TsRepeats(initTs: U32, a: nat, b: nat)
    requires a % M16 == b % M16
    ensures TsAt(initTs, a) == TsAt(initTs, b) <==> a / M16 % M32 == b / M16 % M32
  {
    TsLinear(initTs, a);
    TsLinear(initTs, b);
    var low := initTs + 960 * (a % M16);
    var h, g := a / M16, b / M16;
    EqualResidues(low + h * PER_ROUND, low + g * PER_ROUND);
    assert (low + h * PER_ROUND) - (low + g * PER_ROUND) == (h - g) * PER_ROUND;
    EqualResidues(h, g);
    if (h - g) * PER_ROUND % M32 == 0 {
      OddStepCancels(h - g);
    }
    if (h - g) % M32 == 0 {
      SameResidue((h - g) * PER_ROUND, 0, (h - g) / M32 * PER_ROUND);
    }
  }

  lemma Halves(c: nat)
    ensures c % M48 == c / M16 % M32 * M16 + c % M16
  {
    var h := c / M16;
    assert c == (h / M32 * M32 + h % M32) * M16 + c % M16;
  }

  /** A pair of sequence number and timestamp comes back exactly every 2^48
      packets. */
  lemma PairRepeats(initSeq: U16, initTs: U32, a: nat, b: nat)
    ensures SeqAt(initSeq, a) == SeqAt(initSeq, b) && TsAt(initTs, a) == TsAt(initTs, b) <==> a % M48 == b % M48
  {
    SeqRepeats(initSeq, a, b);
    Halves(a);
    Halves(b);
    if a % M16 == b % M16 {
      TsRepeats(initTs, a, b);
    }
  }

  lemma NonceDetermines(ssrc: U32, s: U16, ts: U32, ssrc': U32, s': U16, ts': U32)
    ensures Nonce(ssrc, s, ts) == Nonce(ssrc', s', ts') <==> ssrc == ssrc' && s == s' && ts == ts'
  {
    var n, n' := Nonce(ssrc, s, ts), Nonce(ssrc', s', ts');
    if n == n' {
      assert n[..4] == Be32(ssrc) && n[4..6] == Be16(s) && n[8..] == Be32(ts);
      assert n'[..4] == Be32(ssrc') && n'[4..6] == Be16(s') && n'[8..] == Be32(ts');
    }
  }

  /** Two packets of one session share a nonce exactly when their numbers differ
      by a multiple of 2^48: the bound is sharp. */
  lemma NonceRepeats(ssrc: U32, initSeq: U16, initTs: U32, a: nat, b: nat)
    ensures NonceAt(ssrc, initSeq, initTs, a) == NonceAt(ssrc, initSeq, initTs, b) <==> a % M48 == b % M48
  {
    NonceDetermines(ssrc, SeqAt(initSeq, a), TsAt(initTs, a), ssrc, SeqAt(initSeq, b), TsAt(initTs, b));
    PairRepeats(initSeq, initTs, a, b);
  }

  /** The counter is 64 bits wide, and 2^48 divides 2^64. */
  lemma CounterWraps(x: nat)
    ensures x % M64 % M48 == x % M48
  {
    var q, r := x / M64, x % M64;
    assert x == (q * M16 + r / M48) * M48 + r % M48;
  }

  lemma NearbyDiffer(first: nat, i: nat, j: nat)
    requires i < j < M48
    ensures (first + i) % M48 != (first + j) % M48
  {
    var q, r := first / M48, first % M48;
    assert first == q * M48 + r;
  }

  /** So no nonce is used twice in any run of at most 2^48 packets, which section
      2.8 of RFC 8439 asks for. */
  lemma NoncesDistinct(ssrc: U32, initSeq: U16, initTs: U32, first: nat, i: nat, j: nat)
    requires i < j < M48
    ensures NonceAt(ssrc, initSeq, initTs, (first + i) % M64) != NonceAt(ssrc, initSeq, initTs, (first + j) % M64)
  {
    var a, b := (first + i) % M64, (first + j) % M64;
    CounterWraps(first + i);
    CounterWraps(first + j);
    NearbyDiffer(first, i, j);
    NonceRepeats(ssrc, initSeq, initTs, a, b);
  }

  // ---------- every pair is reached ----------

  /** What the rounds must have added to the timestamp for a given pair. */
  function Moved(initSeq: U16, initTs: U32, s: U16, ts: U32): int {
    ts - initTs - 960 * ((s - initSeq) % M16)
  }

  /** The number of the packet that carries a given pair. */
  function PacketNumber(initSeq: U16, initTs: U32, s: U16, ts: U32): (c: nat)
    ensures c < M48
  {
    Moved(initSeq, initTs, s, ts) * (2 - PER_ROUND) % M32 * M16 + (s - initSeq) % M16
  }

  lemma Joined(c: nat, h: nat, low: nat)
    requires low < M16 && c == h * M16 + low
    ensures c % M16 == low && c / M16 == h
  {
  }

  /** Two less the odd step is its inverse. */
  lemma StepInverse(e: int, h: nat)
    requires h == e * (2 - PER_ROUND) % M32
    ensures h * PER_ROUND % M32 == e % M32
  {
    var q := e * (2 - PER_ROUND) / M32;
    assert h == e * (2 - PER_ROUND) - q * M32;
    SameResidue(h * PER_ROUND, e, -(e * 921600) - q * PER_ROUND);
  }

  lemma TsReached(initTs: U32, ts: U32, low: nat, p: int)
    requires p % M32 == (ts - initTs - 960 * low) % M32
    ensures (initTs + 960 * low + p) % M32 == ts
  {
    EqualResidues(p, ts - initTs - 960 * low);
    EqualResidues(initTs + 960 * low + p, ts);
  }

  lemma SeqReached(initSeq: U16, s: U16)
    ensures (initSeq + (s - initSeq) % M16) % M16 == s
  {
  }

  /** Every pair is carried by one of the first 2^48 packets. */
  lemma EveryPairReached(initSeq: U16, initTs: U32, s: U16, ts: U32, c: nat)
    requires c == PacketNumber(initSeq, initTs, s, ts)
    ensures SeqAt(initSeq, c) == s && TsAt(initTs, c) == ts
  {
    var low := (s - initSeq) % M16;
    var e := ts - initTs - 960 * low;
    var h := e * (2 - PER_ROUND) % M32;
    Joined(c, h, low);
    SeqReached(initSeq, s);
    StepInverse(e, h);
    TsLinear(initTs, c);
    TsReached(initTs, ts, low, h * PER_ROUND);
  }

  lemma InRange(c: nat)
    requires c < M48
    ensures c % M48 == c
  {
  }

  lemma OnlyOneCarries(initSeq: U16, initTs: U32, c: nat, d: nat)
    requires c < M48 && d < M48
    ensures SeqAt(initSeq, c) == SeqAt(initSeq, d) && TsAt(initTs, c) == TsAt(initTs, d) <==> c == d
  {
    InRange(c);
    InRange(d);
    PairRepeats(initSeq, initTs, c, d);
  }

  /** The packet number is recovered from the pair, so the first 2^48 packets and
      the pairs correspond one to one. */
  lemma NumberRecovered(initSeq: U16, initTs: U32, s: U16, ts: U32, c: nat)
    requires c < M48
    ensures s == SeqAt(initSeq, c) && ts == TsAt(initTs, c) <==> c == PacketNumber(initSeq, initTs, s, ts)
  {
    var d := PacketNumber(initSeq, initTs, s, ts);
    EveryPairReached(initSeq, initTs, s, ts, d);
    OnlyOneCarries(initSeq, initTs, c, d);
  }
}
