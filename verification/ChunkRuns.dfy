/** Where packets go (client/dispatcher.go), in numbers: the chunk lengths, the pause and
    the time on one worker after which the pointer moves on, the worker with room that is
    found, and the worker of every packet of any run as a count of the moves before it. */
module ChunkRuns {
  import opened ChunkScheduler

  lemma ChunkLengths(size: nat)
    ensures size > 1100 ==> ChunkSizeFor(size) == 64
    ensures 700 < size <= 1100 ==> ChunkSizeFor(size) == 24
    ensures 300 < size <= 700 ==> ChunkSizeFor(size) == 8
    ensures 100 < size <= 300 ==> ChunkSizeFor(size) == 3
    ensures size <= 100 ==> ChunkSizeFor(size) == 1
  {
  }

  // ---------- the worker found ----------

  predicate FullOn(full: seq<bool>, s: nat, d: nat)
    requires full != []
  {
    full[(s + d) % |full|]
  }

  /** `w` is the first worker with room from `s` on, `e` places further. */
  predicate FirstWithRoom(full: seq<bool>, s: nat, w: nat, e: nat) {
    e < |full| && w == (s + e) % |full| && !full[w] && forall d: nat :: d < e ==> FullOn(full, s, d)
  }

  lemma {:induction false} ScanIs(full: seq<bool>, s: nat, i: nat, w: nat)
    requires full != [] && i <= |full| && Scan(full, s, i) == Wrappers.Some(w)
    requires forall d: nat :: d < i ==> FullOn(full, s, d)
    ensures exists e: nat :: FirstWithRoom(full, s, w, e)
    decreases |full| - i
  {
    if FullOn(full, s, i) {
      ScanIs(full, s, i + 1, w);
    } else {
      assert FirstWithRoom(full, s, w, i);
    }
  }

  lemma FoundAtOnce(full: seq<bool>, s: nat, w: nat)
    requires s < |full| && Scan(full, s, 0) == Wrappers.Some(w)
    ensures (exists e: nat :: FirstWithRoom(full, s, w, e)) && (!full[s] ==> w == s)
  {
    ScanIs(full, s, 0, w);
    ModRange(s, |full|);
  }

  // ---------- one packet ----------

  /** More than 10 ms have passed since the last packet. */
  predicate Late(t: Turn, now: int) { t.lastPkt > 0 && now - t.lastPkt > 10 }

  /** Not so, but the chunk is 15 ms old. */
  predicate Aged(t: Turn, now: int) { !Late(t, now) && t.chunkStart != 0 && now - t.chunkStart >= 15 }

  /** The pointer as a packet that comes to the ordinary queues finds it: moved on and at
      the start of a chunk if the packet is late or the chunk old. */
  predicate Finds(t: Turn, n: nat, now: int, c: Turn) {
    if Late(t, now) || Aged(t, now) then n > 0 && c == Turn((t.index + 1) % n, 0, now, now)
    else c == Turn(t.index, t.count, now, if t.chunkStart == 0 then now else t.chunkStart)
  }

  lemma SettledAs(t: Turn, n: nat, now: int, c: Turn)
    requires t.index < n && Finds(t, n, now, c)
    ensures AfterDwell(AfterPause(t, n, now), n, now) == c && c.index < n
  {
  }

  /** An ordinary packet goes to the first worker with room from the one it finds; the
      pointer follows it there, and goes one further when the chunk is full or no worker
      has room. */
  lemma OrdinaryChoice(t: Turn, sendFull: seq<bool>, prioFull: seq<bool>, size: nat, now: int, c: Turn)
    requires |sendFull| == |prioFull| && t.index < |sendFull| && Finds(t, |sendFull|, now, c)
    requires size > 128 || AllFull(prioFull)
    ensures match Decide(t, sendFull, prioFull, size, now)
      case (u, Prio(_)) => false
      case (u, Dropped) => AllFull(sendFull) && u == c.(index := (c.index + 1) % |sendFull|, count := 0)
      case (u, Ordinary(w)) =>
        && (exists e: nat :: FirstWithRoom(sendFull, c.index, w, e))
        && (!sendFull[c.index] ==> w == c.index)
        && u == if w != c.index then Turn(w, 1, now, now)
                else if c.count + 1 < ChunkSizeFor(size) then c.(count := c.count + 1)
                else Turn((w + 1) % |sendFull|, 0, now, now)
  {
    var n := |sendFull|;
    SettledAs(t, n, now, c);
    ScanFailsIff(prioFull, AfterPause(t, n, now).index % n);
    ScanFailsIff(sendFull, c.index);
    ModRange(c.index, n);
    var found := Scan(sendFull, c.index, 0);
    if found.Some? {
      FoundAtOnce(sendFull, c.index, found.value);
    }
  }

  /** A small packet goes to the first priority queue with room from the current worker's
      on, or after a pause from the next one's; the age of the chunk does not matter. */
  lemma PriorityChoice(t: Turn, sendFull: seq<bool>, prioFull: seq<bool>, size: nat, now: int, c: Turn)
    requires |sendFull| == |prioFull| && t.index < |sendFull| && size <= 128 && !AllFull(prioFull)
    requires c == if Late(t, now) then Turn((t.index + 1) % |sendFull|, 0, now, now) else t.(lastPkt := now)
    ensures match Decide(t, sendFull, prioFull, size, now)
      case (u, Prio(w)) =>
        && (exists e: nat :: FirstWithRoom(prioFull, c.index, w, e))
        && (!prioFull[c.index] ==> w == c.index)
        && u == c
      case _ => false
  {
    ScanFailsIff(prioFull, c.index);
    ModRange(c.index, |prioFull|);
    FoundAtOnce(prioFull, c.index, Scan(prioFull, c.index, 0).value);
  }

  // ---------- any run ----------

  /** The pointer of a run without the circle: how often it has moved on, how many packets
      the chunk has, and when that began. */
  datatype Course = Course(moves: nat, sent: nat, began: int)

  /** The priority queues have no room for the packet, or it is not small. */
  predicate IsOrdinary(size: nat, busy: bool) { size > 128 || busy }

  /** A packet comes: a pause of more than 10 ms moves the pointer on, and so do 15 ms on
      one worker if the packet is ordinary. */
  function Arrived(c: Course, last: int, now: int, ordinary: bool): Course {
    if last > 0 && now - last > 10 then Course(c.moves + 1, 0, now)
    else if ordinary && c.began == 0 then c.(began := now)
    else if ordinary && now - c.began >= 15 then Course(c.moves + 1, 0, now)
    else c
  }

  /** It is sent, and if it is ordinary it may fill the chunk. */
  function Gone(c: Course, size: nat, now: int, ordinary: bool): Course {
    if !ordinary then c
    else if c.sent + 1 < ChunkSizeFor(size) then c.(sent := c.sent + 1)
    else Course(c.moves + 1, 0, now)
  }

  function LastBefore(t: Turn, times: seq<int>, k: nat): int
    requires k <= |times|
  {
    if k == 0 then t.lastPkt else times[k - 1]
  }

  /** The course when packet `k` has come, and before that. */
  function CourseWith(t: Turn, sizes: seq<nat>, times: seq<int>, busy: seq<bool>, k: nat): Course
    requires |sizes| == |times| == |busy| && k < |times|
    decreases k, 1
  {
    Arrived(CourseBefore(t, sizes, times, busy, k), LastBefore(t, times, k), times[k], IsOrdinary(sizes[k], busy[k]))
  }

  function CourseBefore(t: Turn, sizes: seq<nat>, times: seq<int>, busy: seq<bool>, k: nat): Course
    requires |sizes| == |times| == |busy| && k <= |times|
    decreases k, 0
  {
    if k == 0 then Course(0, t.count, t.chunkStart)
    else Gone(CourseWith(t, sizes, times, busy, k - 1), sizes[k - 1], times[k - 1],
              IsOrdinary(sizes[k - 1], busy[k - 1]))
  }

  function Busy(n: nat, busy: bool): (f: seq<bool>)
    ensures |f| == n && forall w :: 0 <= w < n ==> f[w] == busy
  {
    seq(n, _ => busy)
  }

  predicate Taken(n: nat, sizes: seq<nat>, times: seq<int>, busy: seq<bool>, turns: seq<Turn>,
                  outcomes: seq<Outcome>, i: nat)
    requires i < |sizes| == |times| == |busy| == |outcomes| == |turns| - 1
  {
    (turns[i + 1], outcomes[i]) == Decide(turns[i], Room(n), Busy(n, busy[i]), sizes[i], times[i])
  }

  /** A run over `n` workers whose ordinary queues have room; `busy` says of each packet
      whether all the priority queues are full when it comes. */
  ghost predicate IsRunOf(n: nat, sizes: seq<nat>, times: seq<int>, busy: seq<bool>, turns: seq<Turn>,
                          outcomes: seq<Outcome>) {
    && |sizes| == |times| == |busy| == |outcomes| == |turns| - 1
    && forall i: nat :: i < |times| ==> Taken(n, sizes, times, busy, turns, outcomes, i)
  }

  /** The pointer that a course stands for. */
  function AsTurn(r: nat, n: nat, c: Course, last: int): (t: Turn)
    requires n > 0
  {
    Turn((r + c.moves) % n, c.sent, last, c.began)
  }

  lemma OneFurther(r: nat, n: nat, moves: nat)
    requires n > 0
    ensures ((r + moves) % n + 1) % n == (r + moves + 1) % n && (r + moves) % n < n
  {
    NextMod(r + moves, n);
  }

  lemma OrdinaryOpen(t: Turn, n: nat, size: nat, now: int, busy: bool, c: Turn)
    requires t.index < n && IsOrdinary(size, busy) && Finds(t, n, now, c)
    ensures Decide(t, Room(n), Busy(n, busy), size, now) ==
      (if c.count + 1 < ChunkSizeFor(size) then c.(count := c.count + 1) else Turn((c.index + 1) % n, 0, now, now),
       Ordinary(c.index))
  {
    SettledAs(t, n, now, c);
    OrdinaryChoice(t, Room(n), Busy(n, busy), size, now, c);
  }

  lemma SmallOpen(t: Turn, n: nat, size: nat, now: int, busy: bool, c: Turn)
    requires t.index < n && !IsOrdinary(size, busy)
    requires c == if Late(t, now) then Turn((t.index + 1) % n, 0, now, now) else t.(lastPkt := now)
    ensures Decide(t, Room(n), Busy(n, busy), size, now) == (c, Prio(c.index))
  {
    assert !Busy(n, busy)[0];
    PriorityChoice(t, Room(n), Busy(n, busy), size, now, c);
  }

  lemma ArrivedFinds(r: nat, n: nat, c: Course, last: int, now: int, ordinary: bool, d: Course, t: Turn, u: Turn)
    requires n > 0 && d == Arrived(c, last, now, ordinary) && t == AsTurn(r, n, c, last) && u == AsTurn(r, n, d, now)
    ensures t.index < n
    ensures if ordinary then Finds(t, n, now, u)
            else u == if Late(t, now) then Turn((t.index + 1) % n, 0, now, now) else t.(lastPkt := now)
  {
    OneFurther(r, n, c.moves);
  }

  lemma PacketPlaced(r: nat, n: nat, c: Course, last: int, size: nat, now: int, busy: bool, d: Course)
    requires n > 0 && d == Arrived(c, last, now, IsOrdinary(size, busy))
    ensures Decide(AsTurn(r, n, c, last), Room(n), Busy(n, busy), size, now) ==
      (AsTurn(r, n, Gone(d, size, now, IsOrdinary(size, busy)), now),
       if IsOrdinary(size, busy) then Ordinary((r + d.moves) % n) else Prio((r + d.moves) % n))
  {
    var t, u := AsTurn(r, n, c, last), AsTurn(r, n, d, now);
    ArrivedFinds(r, n, c, last, now, IsOrdinary(size, busy), d, t, u);
    if IsOrdinary(size, busy) {
      OneFurther(r, n, d.moves);
      OrdinaryOpen(t, n, size, now, busy, u);
    } else {
      SmallOpen(t, n, size, now, busy, u);
    }
  }

  /** The closed form for runs of any sizes and times: with room in the ordinary queues
      packet `i` goes to the worker as many places from the first as the course has
      moves, to its priority queue if it is small and those are not full. */
  lemma {:induction false} PlacedBy(n: nat, sizes: seq<nat>, times: seq<int>, busy: seq<bool>, turns: seq<Turn>,
                                    outcomes: seq<Outcome>, i: nat)
    requires IsRunOf(n, sizes, times, busy, turns, outcomes) && turns[0].index < n && i < |times|
    ensures var w := (turns[0].index + CourseWith(turns[0], sizes, times, busy, i).moves) % n;
      outcomes[i] == if IsOrdinary(sizes[i], busy[i]) then Ordinary(w) else Prio(w)
    ensures turns[i + 1] ==
      AsTurn(turns[0].index, n, CourseBefore(turns[0], sizes, times, busy, i + 1), times[i])
  {
    var t := turns[0];
    if i > 0 {
      PlacedBy(n, sizes, times, busy, turns, outcomes, i - 1);
    } else {
      ModRange(t.index, n);
    }
    assert Taken(n, sizes, times, busy, turns, outcomes, i);
    PacketPlaced(t.index, n, CourseBefore(t, sizes, times, busy, i), LastBefore(t, times, i),
                 sizes[i], times[i], busy[i], CourseWith(t, sizes, times, busy, i));
  }

  lemma TwoFurther(r: nat, n: nat, moves: nat)
    requires n > 0
    ensures ((r + moves) % n + 2) % n == (r + moves + 2) % n
  {
    var w := (r + moves) % n;
    NextMod(r + moves, n);
    NextMod(r + moves + 1, n);
    NextMod(w + 1, n);
  }

  /** A packet that fills its chunk and then a pause move the pointer twice: the next
      ordinary packet passes one worker over. */
  lemma PausePassesOneOver(n: nat, sizes: seq<nat>, times: seq<int>, busy: seq<bool>, turns: seq<Turn>,
                           outcomes: seq<Outcome>, i: nat)
    requires IsRunOf(n, sizes, times, busy, turns, outcomes) && turns[0].index < n && i + 1 < |times|
    requires IsOrdinary(sizes[i], busy[i]) && IsOrdinary(sizes[i + 1], busy[i + 1])
    requires CourseWith(turns[0], sizes, times, busy, i).sent + 1 >= ChunkSizeFor(sizes[i])
    requires times[i] > 0 && times[i + 1] - times[i] > 10
    ensures outcomes[i].Ordinary? && outcomes[i + 1] == Ordinary((outcomes[i].worker + 2) % n)
  {
    PlacedBy(n, sizes, times, busy, turns, outcomes, i);
    PlacedBy(n, sizes, times, busy, turns, outcomes, i + 1);
    TwoFurther(turns[0].index, n, CourseWith(turns[0], sizes, times, busy, i).moves);
  }
}
