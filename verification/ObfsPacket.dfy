/** The RTP-shaped packets of client/obfs.go: the wire format, what unwrapping
    accepts, and why unwrapping undoes wrapping. The cipher is a parameter. */
module ObfsPacket {
  import opened Wrappers
  import opened NonceCounter

  const HEADER := 12
  const HEADER_WITH_EXTENSION := 24
  const OVERHEAD := 16
  const PADDING_CEILING := 60

  /** A cipher with associated data; both operations take a nonce, a text and the
      associated data, in that order. */
  datatype Aead = Aead(
    seal: (seq<Byte>, seq<Byte>, seq<Byte>) -> seq<Byte>,
    open: (seq<Byte>, seq<Byte>, seq<Byte>) -> Option<seq<Byte>>)
  {
    /** What the packet code relies on: opening undoes sealing, and a sealed text
        is 16 bytes longer than the plain one. */
    ghost predicate Ideal() {
      && (forall n: seq<Byte>, p: seq<Byte>, ad: seq<Byte> :: |seal(n, p, ad)| == |p| + OVERHEAD)
      && (forall n: seq<Byte>, p: seq<Byte>, ad: seq<Byte> :: open(n, seal(n, p, ad), ad) == Some(p))
      && (forall n: seq<Byte>, c: seq<Byte>, ad: seq<Byte> :: Fits(open(n, c, ad), |c|))
    }
  }

  predicate Fits(plain: Option<seq<Byte>>, sealedLength: nat) {
    plain.Some? ==> |plain.value| + OVERHEAD == sealedLength
  }

  datatype Config = Config(ssrc: U32, payloadType: Byte, paddingMax: int)

  /** The two modes: OPUS-like audio and H264-like video. */
  function NewConfig(ssrc: U32, video: bool): Config {
    if video then Config(ssrc, 96, 60) else Config(ssrc, 111, 24)
  }

  // ---------- the wire format ----------

  /** Version 2, padding present, no extension, then the payload type without the
      marker bit, the sequence number, the timestamp and the source. */
  function Header(cfg: Config, s: U16, ts: U32): (h: seq<Byte>)
    ensures |h| == HEADER
    ensures h[0] == 160 && h[1] == cfg.payloadType % 128
    ensures Read16(h, 2) == s && Read32(h, 4) == ts && Read32(h, 8) == cfg.ssrc
  {
    var a, b, c := Be16(s), Be32(ts), Be32(cfg.ssrc);
    [160, cfg.payloadType % 128] + a + b + c
  }

  /** How many bytes of padding precede the length byte. */
  function PadRand(cfg: Config, rnd: seq<Byte>): (n: nat)
    requires 0 < |rnd|
    ensures n < 256
  {
    if cfg.paddingMax > 0 then rnd[0] as int % cfg.paddingMax else 0
  }

  function Zeros(n: nat): (z: seq<Byte>)
    ensures |z| == n && forall i :: 0 <= i < n ==> z[i] == 0
  {
    seq(n, _ => 0)
  }

  /** Padding comes from the randomness as far as that goes; the rest is zero. */
  function Padding(rnd: seq<Byte>, n: nat): (p: seq<Byte>)
    requires |rnd| == 1 + PADDING_CEILING
    ensures |p| == n
  {
    if n <= PADDING_CEILING then rnd[1..1 + n] else rnd[1..] + Zeros(n - PADDING_CEILING)
  }

  function Wire(aead: Aead, payload: seq<Byte>, cfg: Config, s: U16, ts: U32, rnd: seq<Byte>): seq<Byte>
    requires |rnd| == 1 + PADDING_CEILING
  {
    var header, n := Header(cfg, s, ts), PadRand(cfg, rnd);
    header + aead.seal(Nonce(cfg.ssrc, s, ts), payload, header) + Padding(rnd, n) + [(n + 1) % 256]
  }

  // ---------- unwrapping ----------

  datatype Fault =
    | TooShort | NotVersion2 | TooShortForExtension | BadPadding(length: nat) | NoPayload | DstTooSmall | Auth

  datatype Result<T> = Ok(value: T) | Err(fault: Fault)

  predicate HasVersion2(b: Byte) { b as int / 64 == 2 }

  predicate HasPadding(b: Byte) { b as int / 32 % 2 == 1 }

  predicate HasExtension(b: Byte) { b as int / 16 % 2 == 1 }

  function HeaderLen(first: Byte): nat { if HasExtension(first) then HEADER_WITH_EXTENSION else HEADER }

  function NonceOf(wire: seq<Byte>): seq<Byte>
    requires |wire| >= HEADER
  {
    Nonce(Read32(wire, 8), Read16(wire, 2), Read32(wire, 4))
  }

  /** The number of trailing bytes that are padding, or a fault. */
  function PaddingLen(wire: seq<Byte>, headerLen: nat): Result<nat>
    requires 0 < |wire|
  {
    if !HasPadding(wire[0]) then Ok(0) else
    var n: int := wire[|wire| - 1];
    if n == 0 || n > |wire| - headerLen then Err(BadPadding(n)) else Ok(n)
  }

  function Opened(aead: Aead, wire: seq<Byte>, headerLen: nat, end: nat, room: nat): Result<seq<Byte>>
    requires HEADER <= headerLen <= end <= |wire|
  {
    if end - headerLen <= OVERHEAD then Err(NoPayload)
    else if end - headerLen - OVERHEAD > room then Err(DstTooSmall)
    else match aead.open(NonceOf(wire), wire[headerLen..end], wire[..headerLen])
      case None => Err(Auth)
      case Some(plain) => Ok(plain)
  }

  /** What unwrapping a packet into `room` bytes yields. */
  function Unwrapped(aead: Aead, wire: seq<Byte>, room: nat): Result<seq<Byte>> {
    if |wire| < HEADER + 1 then Err(TooShort)
    else if !HasVersion2(wire[0]) then Err(NotVersion2)
    else if |wire| < HeaderLen(wire[0]) + 1 then Err(TooShortForExtension)
    else match PaddingLen(wire, HeaderLen(wire[0]))
      case Err(fault) => Err(fault)
      case Ok(n) => Opened(aead, wire, HeaderLen(wire[0]), |wire| - n, room)
  }

  /** `d` with `s` written over it from `at` on. */
  function Patch(d: seq<Byte>, at: nat, s: seq<Byte>): (p: seq<Byte>)
    requires at + |s| <= |d|
    ensures |p| == |d|
  {
    d[..at] + s + d[at + |s|..]
  }

  method CopyInto(dst: array<Byte>, at: nat, s: seq<Byte>)
    requires at + |s| <= dst.Length
    modifies dst
    ensures dst[..] == Patch(old(dst[..]), at, s)
  {
    var i := 0;
    while i < |s|
      invariant 0 <= i <= |s|
      invariant dst[..] == Patch(old(dst[..]), at, s[..i])
    {
      dst[at + i] := s[i];
      assert s[..i + 1] == s[..i] + [s[i]];
      i := i + 1;
    }
    assert s[..|s|] == s;
  }

  /** How a result and the destination before and after show an outcome. */
  predicate Delivers(r: Result<nat>, outcome: Result<seq<Byte>>, before: seq<Byte>, after: seq<Byte>) {
    match outcome
    case Err(fault) => r == Err(fault) && (fault == Auth || after == before)
    case Ok(plain) => r == Ok(|plain|) && |plain| <= |before| && after == plain + before[|plain|..]
  }

  method OpenInto(aead: Aead, wire: seq<Byte>, headerLen: nat, payloadEnd: nat, nonce: seq<Byte>, dst: array<Byte>)
    returns (r: Result<nat>)
    requires aead.Ideal()
    requires HEADER <= headerLen <= payloadEnd <= |wire| && nonce == NonceOf(wire)
    modifies dst
    ensures Delivers(r, Opened(aead, wire, headerLen, payloadEnd, dst.Length), old(dst[..]), dst[..])
  {
    var ciphertextLen := payloadEnd - headerLen;
    if ciphertextLen <= OVERHEAD {
      return Err(NoPayload);
    }
    if ciphertextLen - OVERHEAD > dst.Length {
      return Err(DstTooSmall);
    }
    var plain := aead.open(nonce, wire[headerLen..payloadEnd], wire[..headerLen]);
    if plain.None? {
      return Err(Auth);
    }
    assert Fits(plain, payloadEnd - headerLen);
    CopyInto(dst, 0, plain.value);
    return Ok(|plain.value|);
  }

  method UnwrapPacket(aead: Aead, wire: seq<Byte>, dst: array<Byte>) returns (r: Result<nat>)
    requires aead.Ideal()
    modifies dst
    ensures Delivers(r, Unwrapped(aead, wire, dst.Length), old(dst[..]), dst[..])
  {
    if |wire| < HEADER + 1 {
      return Err(TooShort);
    }
    if wire[0] as int / 64 != 2 {
      return Err(NotVersion2);
    }
    var headerLen := HEADER;
    if wire[0] as int / 16 % 2 != 0 {
      headerLen := HEADER_WITH_EXTENSION;
    }
    if |wire| < headerLen + 1 {
      return Err(TooShortForExtension);
    }
    var s, ts, ssrc := Read16(wire, 2), Read32(wire, 4), Read32(wire, 8);
    var payloadEnd: int := |wire|;
    if wire[0] as int / 32 % 2 != 0 {
      var padLen: int := wire[|wire| - 1];
      if padLen == 0 || padLen > payloadEnd - headerLen {
        return Err(BadPadding(padLen));
      }
      payloadEnd := payloadEnd - padLen;
    }
    r := OpenInto(aead, wire, headerLen, payloadEnd, Nonce(ssrc, s, ts), dst);
  }

  // ---------- what unwrapping accepts, said without its steps ----------

  /** `wire` is a version 2 header of 12 or, with an extension, 24 bytes, a sealed text
      and, if the header announces padding, as many padding bytes as the last of them
      says; the bits are those of section 5.1 of RFC 3550. */
  ghost predicate Splits(wire: seq<Byte>, header: seq<Byte>, text: seq<Byte>, pad: seq<Byte>) {
    && wire == header + text + pad
    && |header| >= 12
    && 128 <= header[0] < 192
    && |header| == (if header[0] as int % 32 >= 16 then 24 else 12)
    && (if header[0] as int % 64 >= 32 then 0 < |pad| && pad[|pad| - 1] as int == |pad| else pad == [])
  }

  lemma FirstByte(b: Byte)
    ensures HasVersion2(b) <==> 128 <= b < 192
    ensures HeaderLen(b) == if b as int % 32 >= 16 then 24 else 12
    ensures HasPadding(b) <==> b as int % 64 >= 32
  {
  }

  lemma SameNonce(wire: seq<Byte>, header: seq<Byte>)
    requires HEADER <= |header| <= |wire| && header == wire[..|header|]
    ensures NonceOf(header) == NonceOf(wire)
  {
  }

  lemma CutsSplit(wire: seq<Byte>, k: nat, end: nat)
    requires |wire| > HEADER && HasVersion2(wire[0]) && k == HeaderLen(wire[0])
    requires k <= end <= |wire| && PaddingLen(wire, k) == Ok(|wire| - end)
    ensures Splits(wire, wire[..k], wire[k..end], wire[end..])
  {
    FirstByte(wire[0]);
    assert wire == wire[..k] + wire[k..end] + wire[end..];
  }

  lemma AcceptedSplits(aead: Aead, wire: seq<Byte>, room: nat, plain: seq<Byte>)
      returns (header: seq<Byte>, text: seq<Byte>, pad: seq<Byte>)
    requires aead.Ideal() && Unwrapped(aead, wire, room) == Ok(plain)
    ensures 0 < |plain| <= room && Splits(wire, header, text, pad)
    ensures aead.open(NonceOf(header), text, header) == Some(plain)
  {
    var k := HeaderLen(wire[0]);
    var end := |wire| - PaddingLen(wire, k).value;
    header, text, pad := wire[..k], wire[k..end], wire[end..];
    assert Fits(aead.open(NonceOf(wire), text, header), |text|);
    CutsSplit(wire, k, end);
    SameNonce(wire, header);
  }

  /** Unwrapping returns a text exactly when the packet splits into a header, the
      sealed form of that text under the header's nonce, and padding. */
  lemma AcceptedIffSplits(aead: Aead, wire: seq<Byte>, room: nat, plain: seq<Byte>)
    requires aead.Ideal()
    ensures Unwrapped(aead, wire, room) == Ok(plain) <==>
            0 < |plain| <= room &&
            exists header, text, pad :: Splits(wire, header, text, pad) &&
              aead.open(NonceOf(header), text, header) == Some(plain)
  {
    if Unwrapped(aead, wire, room) == Ok(plain) {
      var header, text, pad := AcceptedSplits(aead, wire, room, plain);
    }
    forall header, text, pad | 0 < |plain| <= room && Splits(wire, header, text, pad) &&
        aead.open(NonceOf(header), text, header) == Some(plain)
      ensures Unwrapped(aead, wire, room) == Ok(plain)
    {
      assert Fits(aead.open(NonceOf(header), text, header), |text|);
      SplitOutcome(aead, wire, room, header, text, pad);
    }
  }

  lemma SplitParts(wire: seq<Byte>, header: seq<Byte>, text: seq<Byte>, pad: seq<Byte>, k: nat, end: nat)
    requires Splits(wire, header, text, pad) && |wire| > |header| == k && end == k + |text|
    ensures wire[..k] == header && wire[k..end] == text && NonceOf(wire) == NonceOf(header)
    ensures HasVersion2(wire[0]) && HeaderLen(wire[0]) == k && PaddingLen(wire, k) == Ok(|wire| - end)
  {
    FirstByte(wire[0]);
    assert wire[..k] == header && wire[k..end] == text && wire[end..] == pad;
    assert wire[0] == header[0];
    if HasPadding(wire[0]) {
      assert wire[|wire| - 1] == pad[|pad| - 1];
    }
  }

  /** What becomes of a packet that splits. */
  lemma SplitOutcome(aead: Aead, wire: seq<Byte>, room: nat, header: seq<Byte>, text: seq<Byte>, pad: seq<Byte>)
    requires aead.Ideal() && Splits(wire, header, text, pad) && |wire| > |header|
    ensures Unwrapped(aead, wire, room) ==
      if |text| <= 16 then Err(NoPayload)
      else if |text| > 16 + room then Err(DstTooSmall)
      else match aead.open(NonceOf(header), text, header)
        case None => Err(Auth)
        case Some(plain) => Ok(plain)
  {
    SplitParts(wire, header, text, pad, |header|, |header| + |text|);
  }

  /** And which packets do not split: those with one of four faults, found in this order. */
  lemma HeaderFaults(aead: Aead, wire: seq<Byte>, room: nat)
    ensures Unwrapped(aead, wire, room) == Err(TooShort) <==> |wire| <= 12
    ensures Unwrapped(aead, wire, room) == Err(NotVersion2) <==> |wire| > 12 && !(128 <= wire[0] < 192)
    ensures Unwrapped(aead, wire, room) == Err(TooShortForExtension) <==>
      12 < |wire| <= 24 && 128 <= wire[0] < 192 && wire[0] as int % 32 >= 16
    ensures (exists n :: Unwrapped(aead, wire, room) == Err(BadPadding(n))) <==>
      && |wire| > 12 && 128 <= wire[0] < 192
      && |wire| > (if wire[0] as int % 32 >= 16 then 24 else 12)
      && wire[0] as int % 64 >= 32
      && (wire[|wire| - 1] == 0 || wire[|wire| - 1] as int > |wire| - if wire[0] as int % 32 >= 16 then 24 else 12)
    ensures Unwrapped(aead, wire, room).Err? && Unwrapped(aead, wire, room).fault.BadPadding? ==>
      |wire| > 0 && Unwrapped(aead, wire, room).fault.length == wire[|wire| - 1] as int
  {
    if |wire| > 12 {
      FirstByte(wire[0]);
      assert Unwrapped(aead, wire, room).Err? && Unwrapped(aead, wire, room).fault.BadPadding? ==>
        Unwrapped(aead, wire, room) == Err(BadPadding(Unwrapped(aead, wire, room).fault.length));
    }
  }

  // ---------- wrapping, then unwrapping ----------

  lemma HeaderSplits(cfg: Config, s: U16, ts: U32, header: seq<Byte>, text: seq<Byte>, pad: seq<Byte>)
    requires header == Header(cfg, s, ts) && 0 < |pad| && pad[|pad| - 1] as int == |pad|
    ensures Splits(header + text + pad, header, text, pad)
  {
    assert header[0] == 160;
  }

  /** The wire of a packet splits as it was put together, unless the length byte
      overflowed. */
  lemma WireSplits(aead: Aead, payload: seq<Byte>, cfg: Config, s: U16, ts: U32, rnd: seq<Byte>)
    requires aead.Ideal() && |rnd| == 1 + PADDING_CEILING
    requires PadRand(cfg, rnd) != 255
    ensures var header, n := Header(cfg, s, ts), PadRand(cfg, rnd);
      Splits(Wire(aead, payload, cfg, s, ts, rnd), header,
             aead.seal(Nonce(cfg.ssrc, s, ts), payload, header), Padding(rnd, n) + [n + 1])
  {
    var header, n := Header(cfg, s, ts), PadRand(cfg, rnd);
    var text := aead.seal(Nonce(cfg.ssrc, s, ts), payload, header);
    assert header + text + Padding(rnd, n) + [n + 1] == header + text + (Padding(rnd, n) + [n + 1]);
    HeaderSplits(cfg, s, ts, header, text, Padding(rnd, n) + [n + 1]);
  }

  /** Unwrapping undoes wrapping, exactly when the padding count fits its byte and
      the destination can hold the payload. */
  lemma RoundTrip(aead: Aead, payload: seq<Byte>, cfg: Config, s: U16, ts: U32, rnd: seq<Byte>, room: nat,
                  wire: seq<Byte>)
    requires aead.Ideal() && |rnd| == 1 + PADDING_CEILING
    requires 0 < |payload|
    requires wire == Wire(aead, payload, cfg, s, ts, rnd)
    ensures Unwrapped(aead, wire, room) == Ok(payload) <==> PadRand(cfg, rnd) != 255 && |payload| <= room
    ensures PadRand(cfg, rnd) == 255 ==> Unwrapped(aead, wire, room) == Err(BadPadding(0))
  {
    if PadRand(cfg, rnd) == 255 {
      assert wire[0] == 160 && wire[|wire| - 1] == 0;
    } else {
      var header, n := Header(cfg, s, ts), PadRand(cfg, rnd);
      var text := aead.seal(Nonce(cfg.ssrc, s, ts), payload, header);
      WireSplits(aead, payload, cfg, s, ts, rnd);
      assert NonceOf(header) == Nonce(cfg.ssrc, s, ts);
      AcceptedIffSplits(aead, wire, room, payload);
    }
  }

  predicate IsRtpPacket(wire: seq<Byte>) {
    && |wire| >= HEADER + 1
    && HasVersion2(wire[0])
    && (wire[1] as int % 128 == 111 || wire[1] as int % 128 == 96)
  }

  /** The parts of a packet by their places. */
  lemma WireParts(aead: Aead, payload: seq<Byte>, cfg: Config, s: U16, ts: U32, rnd: seq<Byte>, wire: seq<Byte>, n: nat)
    requires aead.Ideal() && |rnd| == 1 + PADDING_CEILING && n == PadRand(cfg, rnd)
    requires wire == Wire(aead, payload, cfg, s, ts, rnd)
    ensures |wire| == 12 + |payload| + 16 + n + 1 && wire[..12] == Header(cfg, s, ts)
    ensures wire[|wire| - 1] as int == (n + 1) % 256
    ensures n <= PADDING_CEILING ==> wire[|wire| - 1 - n..|wire| - 1] == rnd[1..1 + n]
  {
    var header := Header(cfg, s, ts);
    var text := aead.seal(Nonce(cfg.ssrc, s, ts), payload, header);
    assert wire == header + text + Padding(rnd, n) + [(n + 1) % 256];
  }

  lemma SameFields(wire: seq<Byte>, header: seq<Byte>)
    requires |wire| >= 12 == |header| && wire[..12] == header
    ensures wire[0] == header[0] && wire[1] == header[1] && Read16(wire, 2) == Read16(header, 2)
    ensures Read32(wire, 4) == Read32(header, 4) && Read32(wire, 8) == Read32(header, 8)
  {
    assert forall k :: 0 <= k < 12 ==> wire[..12][k] == wire[k];
  }

  lemma FieldsOnWire(wire: seq<Byte>, cfg: Config, s: U16, ts: U32, header: seq<Byte>)
    requires |wire| > 12 && header == Header(cfg, s, ts) && wire[..12] == header
    ensures IsRtpPacket(wire) <==> cfg.payloadType % 128 == 111 || cfg.payloadType % 128 == 96
    ensures NonceOf(wire) == Nonce(cfg.ssrc, s, ts)
  {
    SameFields(wire, header);
  }

  lemma CountOf(n: nat)
    requires n < 256
    ensures (n + 1) % 256 == n + 1 <==> n != 255
  {
  }

  /** What an observer can read off a packet: its fields are those it was built
      from, and its last byte counts the padding (section 5.1 of RFC 3550). */
  lemma WireLooksLikeRtp(aead: Aead, payload: seq<Byte>, cfg: Config, s: U16, ts: U32, rnd: seq<Byte>, wire: seq<Byte>)
    requires aead.Ideal() && |rnd| == 1 + PADDING_CEILING && wire == Wire(aead, payload, cfg, s, ts, rnd)
    ensures |wire| == HEADER + |payload| + OVERHEAD + PadRand(cfg, rnd) + 1
    ensures IsRtpPacket(wire) <==> cfg.payloadType % 128 == 111 || cfg.payloadType % 128 == 96
    ensures wire[|wire| - 1] as int == |wire| - HEADER - |payload| - OVERHEAD <==> PadRand(cfg, rnd) != 255
    ensures NonceOf(wire) == Nonce(cfg.ssrc, s, ts)
  {
    var n, header := PadRand(cfg, rnd), Header(cfg, s, ts);
    WireParts(aead, payload, cfg, s, ts, rnd, wire, n);
    FieldsOnWire(wire, cfg, s, ts, header);
    CountOf(n);
  }

  /** Audio packets have payload type 111 and 1 to 24 bytes of padding, video packets 96
      and 1 to 60; the first random byte chooses how many, the next are the padding, and
      the count comes last. */
  lemma ModeOnWire(aead: Aead, payload: seq<Byte>, ssrc: U32, video: bool, s: U16, ts: U32, rnd: seq<Byte>,
                   wire: seq<Byte>, n: nat)
    requires aead.Ideal() && |rnd| == 61 && wire == Wire(aead, payload, NewConfig(ssrc, video), s, ts, rnd)
    requires n == rnd[0] as int % (if video then 60 else 24)
    ensures |wire| == 12 + |payload| + 16 + n + 1 && wire[0] == 160 && wire[1] == if video then 96 else 111
    ensures wire[|wire| - 1] as int == n + 1 && wire[|wire| - 1 - n..|wire| - 1] == rnd[1..1 + n]
  {
    var cfg := NewConfig(ssrc, video);
    WireParts(aead, payload, cfg, s, ts, rnd, wire, n);
    SameFields(wire, Header(cfg, s, ts));
  }

  lemma ModesPadLittle(ssrc: U32, video: bool, rnd: seq<Byte>)
    requires 0 < |rnd|
    ensures PadRand(NewConfig(ssrc, video), rnd) < PADDING_CEILING
  {
  }

  /** Neither mode ever reaches that one bad padding length. */
  lemma ModesRoundTrip(aead: Aead, payload: seq<Byte>, ssrc: U32, video: bool, s: U16, ts: U32, rnd: seq<Byte>,
                       room: nat, wire: seq<Byte>)
    requires aead.Ideal() && |rnd| == 1 + PADDING_CEILING
    requires 0 < |payload| <= room
    requires wire == Wire(aead, payload, NewConfig(ssrc, video), s, ts, rnd)
    ensures IsRtpPacket(wire) && Unwrapped(aead, wire, room) == Ok(payload)
  {
    var cfg := NewConfig(ssrc, video);
    ModesPadLittle(ssrc, video, rnd);
    RoundTrip(aead, payload, cfg, s, ts, rnd, room, wire);
    WireLooksLikeRtp(aead, payload, cfg, s, ts, rnd, wire);
  }
}
