/** The per-direction state of client/obfs.go: the packet counter and the padding
    randomness, which is drawn ahead a chunk at a time. */
module ObfsState {
  import opened NonceCounter
  import opened ObfsPacket

  const CHUNK := 4096
  const DRAW := 1 + PADDING_CEILING

  /** `n` bytes of the system's randomness. */
  function Window(stream: nat -> Byte, start: nat, n: nat): (w: seq<Byte>)
    ensures |w| == n && forall i :: 0 <= i < n ==> w[i] == stream(start + i)
  {
    seq(n, i requires 0 <= i < n => stream(start + i))
  }

  lemma WindowPart(stream: nat -> Byte, start: int, at: nat, n: nat, w: seq<Byte>)
    requires at + n <= |w| && (n > 0 ==> start >= 0 && w == Window(stream, start, |w|))
    ensures n > 0 ==> w[at..at + n] == Window(stream, start + at, n)
  {
  }

  /** The system's randomness: one endless stream that everybody reads from. */
  class Entropy {
    const stream: nat -> Byte
    var drawn: nat

    constructor (stream: nat -> Byte)
      ensures this.stream == stream && drawn == 0
    {
      this.stream, drawn := stream, 0;
    }

    method Read(buf: array<Byte>)
      modifies this, buf
      ensures drawn == old(drawn) + buf.Length
      ensures buf[..] == Window(stream, old(drawn), buf.Length)
    {
      var i := 0;
      while i < buf.Length
        invariant 0 <= i <= buf.Length && drawn == old(drawn)
        invariant forall k :: 0 <= k < i ==> buf[k] == stream(drawn + k)
      {
        buf[i] := stream(drawn + i);
        i := i + 1;
      }
      drawn := drawn + buf.Length;
    }
  }

  // ---------- the reservoir, on values ----------

  /** Where the chunk at hand came from, how much of it is used, and how much has
      been read from the system by anybody. */
  datatype Reservoir = Reservoir(base: int, pos: nat, drawn: nat) {
    predicate Sound() { pos <= CHUNK && base + CHUNK <= drawn && (pos < CHUNK ==> 0 <= base) }

    predicate Refills(n: nat) { pos + n > CHUNK }

    function Start(n: nat): int { if Refills(n) then drawn else base + pos }

    function Taken(n: nat): nat { if n > CHUNK then CHUNK else n }

    function Next(n: nat): Reservoir {
      if Refills(n) then Reservoir(drawn, Taken(n), drawn + CHUNK) else Reservoir(base, pos + n, drawn)
    }

    /** Somebody else reads `n` bytes. */
    function Elsewhere(n: nat): Reservoir { Reservoir(base, pos, drawn + n) }
  }

  /** After one packet per entry, each preceded by that many bytes read elsewhere. */
  function After(r: Reservoir, others: seq<nat>): Reservoir
    decreases |others|, 0
  {
    if others == [] then r
    else Before(r, others, |others| - 1).Next(DRAW)
  }

  function Before(r: Reservoir, others: seq<nat>, i: nat): Reservoir
    requires i < |others|
    decreases i, 1
  {
    After(r, others[..i]).Elsewhere(others[i])
  }

  /** Where the randomness of packet `i` starts in the stream. */
  function StartOf(r: Reservoir, others: seq<nat>, i: nat): int
    requires i < |others|
  {
    Before(r, others, i).Start(DRAW)
  }

  function RefillCount(r: Reservoir, others: seq<nat>): nat {
    if others == [] then 0
    else
      var n := |others| - 1;
      RefillCount(r, others[..n]) + if Before(r, others, n).Refills(DRAW) then 1 else 0
  }

  lemma {:induction false} SoundAfter(r: Reservoir, others: seq<nat>)
    requires r.Sound()
    ensures After(r, others).Sound()
  {
    if others != [] {
      SoundAfter(r, others[..|others| - 1]);
    }
  }

  lemma StartedBeforeEnd(r: Reservoir, others: seq<nat>, i: nat, n: nat)
    requires r.Sound() && i < n <= |others|
    ensures StartOf(r, others, i) + DRAW <= After(r, others[..n]).base + After(r, others[..n]).pos
  {
    assert others[..n][..n - 1] == others[..n - 1];
    SoundAfter(r, others[..n - 1]);
    if i < n - 1 {
      StartedBeforeEnd(r, others, i, n - 1);
    }
  }

  /** No byte of the system's randomness pads two packets, whatever is read
      elsewhere in between. */
  lemma PaddingNeverReused(r: Reservoir, others: seq<nat>, i: nat, j: nat)
    requires r.Sound() && i < j < |others|
    ensures StartOf(r, others, i) + DRAW <= StartOf(r, others, j)
  {
    StartedBeforeEnd(r, others, i, j);
    SoundAfter(r, others[..j]);
  }

  function Total(others: seq<nat>): nat {
    if others == [] then 0 else Total(others[..|others| - 1]) + others[|others| - 1]
  }

  /** Starting empty, N packets cost one refill of 4096 bytes for every 67 begun. */
  lemma {:induction false} RefillsCounted(r: Reservoir, others: seq<nat>)
    requires r.pos == CHUNK
    ensures RefillCount(r, others) == (|others| + 66) / 67
    ensures After(r, others).drawn == r.drawn + Total(others) + 4096 * RefillCount(r, others)
    ensures After(r, others).pos == if others == [] then CHUNK else ((|others| - 1) % 67 + 1) * DRAW
  {
    if others != [] {
      RefillsCounted(r, others[..|others| - 1]);
    }
  }

  // ---------- the state, in place ----------

  class ObfsState {
    const initSeq: U16
    const initTs: U32
    var count: nat
    const randBuf: array<Byte>
    var randPos: nat
    ghost var base: int

    ghost predicate Valid(src: Entropy)
      reads this, randBuf, src
    {
      && count < M64
      && randBuf.Length == CHUNK
      && Supply(src).Sound()
      && (randPos < CHUNK ==> randBuf[..] == Window(src.stream, base, CHUNK))
    }

    ghost function Supply(src: Entropy): Reservoir
      reads this, src
    {
      Reservoir(base, randPos, src.drawn)
    }

    /** Empty, so the first packet fills it. */
    constructor (initSeq: U16, initTs: U32, src: Entropy)
      ensures Valid(src) && fresh(randBuf)
      ensures this.initSeq == initSeq && this.initTs == initTs && count == 0 && randPos == CHUNK
    {
      this.initSeq, this.initTs := initSeq, initTs;
      count, randPos, base := 0, CHUNK, src.drawn - CHUNK;
      randBuf := new Byte[CHUNK](_ => 0);
    }

    method Refill(src: Entropy)
      requires Valid(src)
      modifies this`randPos, this`base, randBuf, src
      ensures Valid(src) && randPos == 0
      ensures base == old(src.drawn) && src.drawn == old(src.drawn) + CHUNK
    {
      base := src.drawn;
      src.Read(randBuf);
      randPos := 0;
    }

    method FillRandom(src: Entropy, dst: array<Byte>)
      requires Valid(src) && dst != randBuf
      modifies this`randPos, this`base, randBuf, src, dst
      ensures Valid(src)
      ensures Supply(src) == old(Supply(src)).Next(dst.Length)
      ensures var n := old(Supply(src)).Taken(dst.Length);
        n > 0 ==> dst[..] == Window(src.stream, old(Supply(src)).Start(dst.Length), n) + old(dst[n..])
    {
      if randPos + dst.Length > randBuf.Length {
        Refill(src);
      }
      var n := if dst.Length < CHUNK - randPos then dst.Length else CHUNK - randPos;
      WindowPart(src.stream, base, randPos, n, randBuf[..]);
      CopyInto(dst, 0, randBuf[randPos..randPos + n]);
      randPos := randPos + n;
    }

    /** The part done under the lock: a packet number, and randomness for its
        padding. */
    method Take(src: Entropy) returns (c: nat, rnd: seq<Byte>)
      requires Valid(src)
      modifies this`count, this`randPos, this`base, randBuf, src
      ensures Valid(src)
      ensures c == old(count) && count == (c + 1) % M64
      ensures Supply(src) == old(Supply(src)).Next(DRAW)
      ensures rnd == Window(src.stream, old(Supply(src)).Start(DRAW), DRAW)
    {
      var dst := new Byte[DRAW](_ => 0);
      c := count;
      count := (count + 1) % M64;
      FillRandom(src, dst);
      assert old(Supply(src)).Taken(DRAW) == DRAW;
      rnd := dst[..];
    }
  }

  method WrapPacket(aead: Aead, payload: seq<Byte>, cfg: Config, state: ObfsState, src: Entropy)
    returns (ok: bool, out: array<Byte>)
    requires aead.Ideal() && state.Valid(src)
    modifies state`count, state`randPos, state`base, state.randBuf, src
    ensures state.Valid(src) && fresh(out)
    ensures ok <==> payload != []
    ensures !ok ==> state.count == old(state.count) && state.Supply(src) == old(state.Supply(src)) && out.Length == 0
    ensures ok ==> state.count == (old(state.count) + 1) % M64
    ensures ok ==> state.Supply(src) == old(state.Supply(src)).Next(DRAW)
    ensures ok ==> out[..] == Wire(aead, payload, cfg,
      SeqAt(state.initSeq, old(state.count)), TsAt(state.initTs, old(state.count)),
      Window(src.stream, old(state.Supply(src)).Start(DRAW), DRAW))
  {
    if |payload| == 0 {
      ok, out := false, new Byte[0];
      return;
    }
    var c, rnd := state.Take(src);
    out := BuildPacket(aead, payload, cfg, SeqAt(state.initSeq, c), TsAt(state.initTs, c), rnd);
    ok := true;
  }

  /** Writes `s` at `at` in a buffer that is still zero from there on. */
  method Append(out: array<Byte>, at: nat, s: seq<Byte>)
    requires at + |s| <= out.Length && out[at..] == Zeros(out.Length - at)
    modifies out
    ensures out[..] == old(out[..at]) + s + Zeros(out.Length - at - |s|)
  {
    CopyInto(out, at, s);
    assert old(out[at..])[|s|..] == old(out[..])[at + |s|..];
  }

  method BuildPacket(aead: Aead, payload: seq<Byte>, cfg: Config, s: U16, ts: U32, rnd: seq<Byte>)
    returns (out: array<Byte>)
    requires aead.Ideal() && |rnd| == DRAW
    ensures fresh(out) && out[..] == Wire(aead, payload, cfg, s, ts, rnd)
  {
    var padRand := 0;
    if cfg.paddingMax > 0 {
      padRand := rnd[0] as int % cfg.paddingMax;
    }
    var padTotal := padRand + 1;
    var outLen := HEADER + |payload| + OVERHEAD + padTotal;
    out := new Byte[outLen](_ => 0);
    WriteHeader(out, cfg, s, ts);
    var sealed := aead.seal(Nonce(cfg.ssrc, s, ts), payload, out[..HEADER]);
    WriteBody(out, Header(cfg, s, ts), sealed, rnd, padRand);
  }

  /** The sealed text, the padding and its length, behind the header. */
  method WriteBody(out: array<Byte>, ghost header: seq<Byte>, sealed: seq<Byte>, rnd: seq<Byte>, padRand: nat)
    requires |header| == HEADER && |rnd| == DRAW && out.Length == HEADER + |sealed| + padRand + 1
    requires out[..] == header + Zeros(out.Length - HEADER)
    modifies out
    ensures out[..] == header + sealed + Padding(rnd, padRand) + [(padRand + 1) % 256]
  {
    Append(out, HEADER, sealed);
    var filling := if padRand <= PADDING_CEILING then rnd[1..1 + padRand] else rnd[1..];
    Append(out, HEADER + |sealed|, filling);
    assert out[..out.Length - 1] == header + sealed + Padding(rnd, padRand);
    out[out.Length - 1] := (padRand + 1) % 256;
    assert out[..] == out[..out.Length - 1] + [out[out.Length - 1]];
  }

  method WriteHeader(out: array<Byte>, cfg: Config, s: U16, ts: U32)
    requires out.Length >= HEADER && out[..] == Zeros(out.Length)
    modifies out
    ensures out[..] == Header(cfg, s, ts) + Zeros(out.Length - HEADER)
  {
    Append(out, 0, [160, cfg.payloadType % 128]);
    Append(out, 2, Be16(s));
    Append(out, 4, Be32(ts));
    Append(out, 8, Be32(cfg.ssrc));
  }

  /** On the wire itself: no two of any 2^48 consecutive packets of one state carry
      the same nonce. */
  lemma WireNoncesDistinct(aead: Aead, p: seq<Byte>, q: seq<Byte>, cfg: Config, initSeq: U16, initTs: U32,
                           first: nat, i: nat, j: nat, rnd: seq<Byte>, rnd': seq<Byte>)
    requires aead.Ideal() && |rnd| == |rnd'| == DRAW && i < j < M48
    ensures var a, b := (first + i) % M64, (first + j) % M64;
      NonceOf(Wire(aead, p, cfg, SeqAt(initSeq, a), TsAt(initTs, a), rnd)) !=
      NonceOf(Wire(aead, q, cfg, SeqAt(initSeq, b), TsAt(initTs, b), rnd'))
  {
    var a, b := (first + i) % M64, (first + j) % M64;
    var v := Wire(aead, p, cfg, SeqAt(initSeq, a), TsAt(initTs, a), rnd);
    var w := Wire(aead, q, cfg, SeqAt(initSeq, b), TsAt(initTs, b), rnd');
    WireLooksLikeRtp(aead, p, cfg, SeqAt(initSeq, a), TsAt(initTs, a), rnd, v);
    WireLooksLikeRtp(aead, q, cfg, SeqAt(initSeq, b), TsAt(initTs, b), rnd', w);
    NoncesDistinct(cfg.ssrc, initSeq, initTs, first, i, j);
  }
}
