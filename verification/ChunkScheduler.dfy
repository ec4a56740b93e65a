/** How client/dispatcher.go chooses a worker for a packet: runs of packets stay on
    one worker, small packets try the priority queues first. Pure; the queues enter
    only through which of them are full. */
module ChunkScheduler {
  import opened Wrappers

  const MAX_DWELL := 15
  const MAX_PAUSE := 10
  const PRIO_THRESHOLD := 128

  /** How many packets of a size go to one worker in a row. */
  function ChunkSizeFor(size: nat): (c: nat)
    ensures 1 <= c <= 64
  {
    if size > 1100 then 64
    else if size >= 701 then 24
    else if size >= 301 then 8
    else if size >= 101 then 3
    else 1
  }

  /** The dispatcher's pointer: the current worker, the packets it got in this chunk,
      and the times, in milliseconds, of the last packet and of the chunk's start. */
  datatype Turn = Turn(index: nat, count: nat, lastPkt: int, chunkStart: int)

  datatype Outcome = Prio(worker: nat) | Ordinary(worker: nat) | Dropped

  /** The first worker from `idx + i` on, in cyclic order, whose queue has room. */
  function Scan(full: seq<bool>, idx: nat, i: nat): (w: Option<nat>)
    requires i <= |full|
    ensures w.Some? ==> w.value < |full| && !full[w.value]
    decreases |full| - i
  {
    if i == |full| then None
    else if !full[(idx + i) % |full|] then Some((idx + i) % |full|)
    else Scan(full, idx, i + 1)
  }

  // ---------- the pointer's moves ----------

  function NextChunk(t: Turn, idx: nat, n: nat, now: int): Turn
    requires n > 0
  {
    t.(index := (idx + 1) % n, count := 0, chunkStart := now)
  }

  /** After more than 10 ms without a packet a chunk is over. */
  function AfterPause(t: Turn, n: nat, now: int): Turn
    requires n > 0
  {
    var u := t.(lastPkt := now);
    if t.lastPkt > 0 && now - t.lastPkt > MAX_PAUSE then NextChunk(u, u.index, n, now) else u
  }

  /** So it is after 15 ms on one worker. */
  function AfterDwell(t: Turn, n: nat, now: int): Turn
    requires n > 0
  {
    if t.chunkStart == 0 then t.(chunkStart := now)
    else if now - t.chunkStart >= MAX_DWELL then NextChunk(t, t.index, n, now)
    else t
  }

  /** The worker `w` took a packet of this size in the ordinary way; `idx` was the
      current one. */
  function AfterSend(t: Turn, idx: nat, w: nat, n: nat, size: nat, now: int): Turn
    requires n > 0
  {
    if w != idx then t.(index := w, count := 1, chunkStart := now)
    else if t.count + 1 >= ChunkSizeFor(size) then NextChunk(t, idx, n, now)
    else t.(count := t.count + 1)
  }

  /** Where a packet goes once the pointer is settled. */
  function Place(u: Turn, sendFull: seq<bool>, size: nat, now: int): (Turn, Outcome)
    requires sendFull != []
  {
    var n := |sendFull|;
    var idx := u.index % n;
    match Scan(sendFull, idx, 0)
    case Some(w) => (AfterSend(u, idx, w, n, size, now), Ordinary(w))
    case None => (u.(index := (idx + 1) % n, count := 0), Dropped)
  }

  /** A packet for which no priority queue was looked for or found. */
  function DecideOrdinary(t: Turn, sendFull: seq<bool>, size: nat, now: int): (Turn, Outcome)
    requires sendFull != []
  {
    Place(AfterDwell(t, |sendFull|, now), sendFull, size, now)
  }

  /** What becomes of a packet, and of the pointer. */
  function Decide(t: Turn, sendFull: seq<bool>, prioFull: seq<bool>, size: nat, now: int): (Turn, Outcome)
    requires |sendFull| == |prioFull|
  {
    if sendFull == [] then (t, Dropped) else
    var u := AfterPause(t, |sendFull|, now);
    if size > PRIO_THRESHOLD then DecideOrdinary(u, sendFull, size, now)
    else match Scan(prioFull, u.index % |prioFull|, 0)
      case Some(w) => (u, Prio(w))
      case None => DecideOrdinary(u, sendFull, size, now)
  }

  // ---------- dropping ----------

  lemma ModRange(k: nat, n: nat)
    requires k < n
    ensures k % n == k
  {
  }

  lemma PastOnce(k: nat, n: nat)
    requires n <= k < 2 * n
    ensures k % n == k - n
  {
    assert k == 1 * n + (k - n);
  }

  lemma {:induction false} ScanSees(full: seq<bool>, idx: nat, i: nat, k: nat)
    requires i <= k < |full| && Scan(full, idx, i).None?
    ensures full[(idx + k) % |full|]
    decreases |full| - i
  {
    if i < k {
      ScanSees(full, idx, i + 1, k);
    }
  }

  /** A scan of the whole circle misses no worker. */
  lemma ScanSeesAll(full: seq<bool>, idx: nat, w: nat)
    requires idx < |full| && w < |full| && Scan(full, idx, 0).None?
    ensures full[w]
  {
    var n := |full|;
    if w >= idx {
      ScanSees(full, idx, 0, w - idx);
      ModRange(w, n);
    } else {
      ScanSees(full, idx, 0, w + n - idx);
      PastOnce(w + n, n);
    }
  }

  predicate AllFull(full: seq<bool>) { forall w :: 0 <= w < |full| ==> full[w] }

  lemma ScanFailsIff(full: seq<bool>, idx: nat)
    requires idx < |full|
    ensures Scan(full, idx, 0).None? <==> AllFull(full)
  {
    if Scan(full, idx, 0).None? {
      forall w | 0 <= w < |full|
        ensures full[w]
      {
        ScanSeesAll(full, idx, w);
      }
    }
  }

  /** A packet is dropped exactly when there are no workers, or every ordinary queue
      is full and, if it is small, every priority queue too. A chosen queue has
      room, and a priority queue is chosen only for small packets. */
  lemma DroppedIff(t: Turn, sendFull: seq<bool>, prioFull: seq<bool>, size: nat, now: int)
    requires |sendFull| == |prioFull|
    ensures match Decide(t, sendFull, prioFull, size, now).1
      case Dropped => AllFull(sendFull) && (size <= PRIO_THRESHOLD ==> AllFull(prioFull))
      case Prio(w) => w < |prioFull| && !prioFull[w] && size <= PRIO_THRESHOLD
      case Ordinary(w) => w < |sendFull| && !sendFull[w] && (size <= PRIO_THRESHOLD ==> AllFull(prioFull))
  {
    if sendFull != [] {
      var n := |sendFull|;
      var u := AfterPause(t, n, now);
      ScanFailsIff(prioFull, u.index % n);
      ScanFailsIff(sendFull, AfterDwell(u, n, now).index % n);
    }
  }

  // ---------- the pointer stays in bounds ----------

  predicate InBounds(t: Turn, n: nat) { (t.index < n || t.index == 0) && t.count < 64 }

  lemma DecideInBounds(t: Turn, sendFull: seq<bool>, prioFull: seq<bool>, size: nat, now: int)
    requires |sendFull| == |prioFull| && InBounds(t, |sendFull|)
    ensures InBounds(Decide(t, sendFull, prioFull, size, now).0, |sendFull|)
  {
  }

  /** With a clock that is positive and does not go back, a packet that reaches the
      ordinary queues leaves the current chunk less than 15 ms old. */
  lemma ChunkIsYoung(t: Turn, sendFull: seq<bool>, prioFull: seq<bool>, size: nat, now: int)
    requires |sendFull| == |prioFull| && 0 < now && t.chunkStart <= now
    ensures var (u, outcome) := Decide(t, sendFull, prioFull, size, now);
      && u.chunkStart <= now
      && (sendFull != [] && !outcome.Prio? ==> 0 <= now - u.chunkStart < MAX_DWELL)
  {
  }

  // ---------- the closed form ----------

  /** How many chunks are full before packet `i` of a run. */
  function ChunksBefore(t: Turn, i: nat): nat { (t.count + i) / 64 }

  /** When packet `i` arrives, the chunk in progress began with the packet that
      filled the one before, if there was one. */
  function ChunkBegan(t: Turn, times: seq<int>, i: nat): int
    requires i <= |times| && t.count < 64
  {
    var q := ChunksBefore(t, i);
    if q > 0 then times[64 * q - t.count - 1]
    else if i == 0 || t.chunkStart != 0 then t.chunkStart
    else times[0]
  }

  /** Packet `i` comes neither after a pause nor after too long on one worker. */
  predicate OnTime(t: Turn, times: seq<int>, i: nat)
    requires i < |times| && t.count < 64
  {
    && times[i] > 0
    && (if i == 0 then t.lastPkt <= 0 || times[i] - t.lastPkt <= MAX_PAUSE else times[i] - times[i - 1] <= MAX_PAUSE)
    && ((i == 0 && t.chunkStart == 0) || times[i] - ChunkBegan(t, times, i) < MAX_DWELL)
  }

  ghost predicate LargeAndOnTime(t: Turn, sizes: seq<nat>, times: seq<int>) {
    && |sizes| == |times| && t.count < 64
    && forall i: nat :: i < |times| ==> sizes[i] > 1100 && OnTime(t, times, i)
  }

  function Room(n: nat): (f: seq<bool>)
    ensures |f| == n && forall w :: 0 <= w < n ==> !f[w]
  {
    seq(n, _ => false)
  }

  predicate StepAt(n: nat, sizes: seq<nat>, times: seq<int>, turns: seq<Turn>, outcomes: seq<Outcome>, i: nat)
    requires i < |sizes| == |times| == |outcomes| == |turns| - 1
  {
    (turns[i + 1], outcomes[i]) == Decide(turns[i], Room(n), Room(n), sizes[i], times[i])
  }

  /** A run over `n` workers, all queues having room: the pointer before and after
      each packet, and what became of it. */
  ghost predicate IsRun(n: nat, sizes: seq<nat>, times: seq<int>, turns: seq<Turn>, outcomes: seq<Outcome>) {
    && |sizes| == |times| == |outcomes| == |turns| - 1
    && forall i: nat :: i < |times| ==> StepAt(n, sizes, times, turns, outcomes, i)
  }

  /** The worker `q` chunks on. */
  function Onward(start: nat, n: nat, q: nat): (w: nat)
    requires start < n
    ensures w < n
  {
    if q == 0 then start else
    var w := Onward(start, n, q - 1);
    if w + 1 == n then 0 else w + 1
  }

  lemma {:induction false} OnwardIsModular(start: nat, n: nat, q: nat)
    requires start < n
    ensures Onward(start, n, q) == (start + q) % n
  {
    if q == 0 {
      ModRange(start, n);
    } else {
      OnwardIsModular(start, n, q - 1);
      NextMod(start + q - 1, n);
      NextIndex(Onward(start, n, q - 1), n);
    }
  }

  lemma NextIndex(w: nat, n: nat)
    requires w < n
    ensures (w + 1) % n == if w + 1 == n then 0 else w + 1
  {
    if w + 1 < n {
      ModRange(w + 1, n);
    }
  }

  /** Where the pointer should be after `k` packets. */
  function Expected(t: Turn, n: nat, times: seq<int>, k: nat): Turn
    requires t.index < n && k <= |times| && t.count < 64
  {
    Turn(Onward(t.index, n, ChunksBefore(t, k)), (t.count + k) % 64,
         if k == 0 then t.lastPkt else times[k - 1], ChunkBegan(t, times, k))
  }

  lemma DivisionUnique(a: nat, n: nat, q: nat, r: nat)
    requires r < n && a == q * n + r
    ensures a % n == r
  {
    var d := a / n - q;
    assert d * n == r - a % n;
  }

  lemma NextMod(a: nat, n: nat)
    requires n > 0
    ensures (a % n + 1) % n == (a + 1) % n
  {
    var q, r := a / n, a % n;
    if r + 1 < n {
      DivisionUnique(a + 1, n, q, r + 1);
      ModRange(r + 1, n);
    } else {
      assert (q + 1) * n == a + 1;
      DivisionUnique(a + 1, n, q + 1, 0);
    }
  }

  function Moved(u: Turn, n: nat, now: int): Turn {
    if u.count == 63 then Turn(if u.index + 1 == n then 0 else u.index + 1, 0, now, now)
    else Turn(u.index, u.count + 1, now, if u.chunkStart == 0 then now else u.chunkStart)
  }

  /** A large packet on time, with room everywhere, goes to the current worker and
      moves the pointer on when it is the 64th of its chunk. */
  lemma OneServed(u: Turn, n: nat, size: nat, now: int)
    requires u.index < n && u.count < 64 && size > 1100
    requires u.lastPkt <= 0 || now - u.lastPkt <= MAX_PAUSE
    requires u.chunkStart == 0 || now - u.chunkStart < MAX_DWELL
    ensures Decide(u, Room(n), Room(n), size, now) == (Moved(u, n, now), Ordinary(u.index))
  {
    ModRange(u.index, n);
    NextIndex(u.index, n);
  }

  lemma ExpectedNext(t: Turn, n: nat, sizes: seq<nat>, times: seq<int>, k: nat)
    requires t.index < n && k < |times| && LargeAndOnTime(t, sizes, times)
    ensures Expected(t, n, times, k + 1) == Moved(Expected(t, n, times, k), n, times[k])
  {
    assert OnTime(t, times, k) && OnTime(t, times, 0);
    var q := ChunksBefore(t, k);
    if q > 0 {
      assert OnTime(t, times, 64 * q - t.count - 1);
    }
  }

  lemma {:induction false} PointerIsExpected(n: nat, sizes: seq<nat>, times: seq<int>,
                                             turns: seq<Turn>, outcomes: seq<Outcome>, k: nat)
    requires IsRun(n, sizes, times, turns, outcomes) && k <= |times|
    requires turns[0].index < n && LargeAndOnTime(turns[0], sizes, times)
    ensures turns[k] == Expected(turns[0], n, times, k)
  {
    if k > 0 {
      PointerIsExpected(n, sizes, times, turns, outcomes, k - 1);
      assert OnTime(turns[0], times, k - 1) && StepAt(n, sizes, times, turns, outcomes, k - 1);
      OneServed(turns[k - 1], n, sizes[k - 1], times[k - 1]);
      ExpectedNext(turns[0], n, sizes, times, k - 1);
    }
  }

  lemma ServedBy(n: nat, sizes: seq<nat>, times: seq<int>, turns: seq<Turn>, outcomes: seq<Outcome>, i: nat)
    requires IsRun(n, sizes, times, turns, outcomes) && i < |times|
    requires turns[0].index < n && LargeAndOnTime(turns[0], sizes, times)
    ensures outcomes[i] == Ordinary(Onward(turns[0].index, n, ChunksBefore(turns[0], i)))
  {
    PointerIsExpected(n, sizes, times, turns, outcomes, i);
    assert OnTime(turns[0], times, i) && StepAt(n, sizes, times, turns, outcomes, i);
    OneServed(turns[i], n, sizes[i], times[i]);
  }

  /** From pointer r and count c, with room in every queue, packets over 1100 bytes
      and no switch on time, packet i goes to worker (r + (c + i) / 64) mod n. */
  lemma ClosedForm(n: nat, sizes: seq<nat>, times: seq<int>, turns: seq<Turn>, outcomes: seq<Outcome>, i: nat)
    requires IsRun(n, sizes, times, turns, outcomes) && i < |times|
    requires turns[0].index < n && LargeAndOnTime(turns[0], sizes, times)
    ensures outcomes[i] == Ordinary((turns[0].index + (turns[0].count + i) / 64) % n)
  {
    OnwardIsModular(turns[0].index, n, ChunksBefore(turns[0], i));
    ServedBy(n, sizes, times, turns, outcomes, i);
  }
}
