/** The dispatcher of client/dispatcher.go, changed in place: the worker list, the
    pointer, and the workers' queues. Every method here runs under the lock. */
module Dispatcher {
  import opened Wrappers
  import opened ChunkScheduler

  datatype Packet = Packet(id: nat, size: nat)

  /** A worker's two channels, oldest packet first, and their capacities. */
  datatype Lane = Lane(send: seq<Packet>, prio: seq<Packet>, sendCap: nat, prioCap: nat)

  predicate SendFull(l: Lane) { |l.send| >= l.sendCap }

  predicate PrioFull(l: Lane) { |l.prio| >= l.prioCap }

  function SendFulls(lanes: seq<Lane>): (f: seq<bool>)
    ensures |f| == |lanes|
  {
    seq(|lanes|, i requires 0 <= i < |lanes| => SendFull(lanes[i]))
  }

  function PrioFulls(lanes: seq<Lane>): (f: seq<bool>)
    ensures |f| == |lanes|
  {
    seq(|lanes|, i requires 0 <= i < |lanes| => PrioFull(lanes[i]))
  }

  function PushSend(l: Lane, p: Packet): Lane { l.(send := l.send + [p]) }

  function PushPrio(l: Lane, p: Packet): Lane { l.(prio := l.prio + [p]) }

  /** The queues after a packet was dispatched with an outcome. */
  function Enqueue(lanes: seq<Lane>, outcome: Outcome, p: Packet): (after: seq<Lane>)
    ensures |after| == |lanes|
  {
    match outcome
    case Dropped => lanes
    case Prio(w) => if w < |lanes| then lanes[w := PushPrio(lanes[w], p)] else lanes
    case Ordinary(w) => if w < |lanes| then lanes[w := PushSend(lanes[w], p)] else lanes
  }

  /** The pointer after a worker has gone and `remaining` are left. */
  function AfterUnregister(t: Turn, remaining: nat): Turn {
    t.(index := if t.index >= remaining && remaining > 0 then t.index % remaining else t.index, count := 0)
  }

  /** `after` is `before` less `slot`, found at `i`, or the same if it is not there. */
  predicate Removed<T(==)>(before: seq<T>, after: seq<T>, slot: T, i: nat) {
    if i < |before| then before[i] == slot && after == before[..i] + before[i + 1..]
    else slot !in before && after == before
  }

  /** Any two of the workers' lists and the pointer before and after worker `i` has left:
      the pointer stays on its worker if that stands before the one that left; otherwise
      it comes to the next that remains, round the end if need be. The count starts anew. */
  lemma PointerAfterLeaving<T>(before: seq<T>, after: seq<T>, i: nat, t: Turn)
    requires i < |before| && after == before[..i] + before[i + 1..] && t.index < |before| && after != []
    ensures var u := AfterUnregister(t, |after|);
      && u == Turn(u.index, 0, t.lastPkt, t.chunkStart) && u.index < |after|
      && after[u.index] ==
         if t.index < i then before[t.index]
         else if t.index + 1 < |before| then before[t.index + 1]
         else if i > 0 then before[0]
         else before[1]
  {
    if t.index == |after| {
      SelfMod(t.index);
    }
  }

  lemma SelfMod(n: nat)
    requires n > 0
    ensures n % n == 0
  {
  }

  class WorkerSlot {
    const id: nat
    const sendCap: nat
    const prioCap: nat
    var sendCh: seq<Packet>
    var prioCh: seq<Packet>

    constructor (id: nat, sendCap: nat, prioCap: nat)
      ensures this.id == id && Queues() == Lane([], [], sendCap, prioCap)
    {
      this.id, this.sendCap, this.prioCap := id, sendCap, prioCap;
      sendCh, prioCh := [], [];
    }

    function Queues(): Lane
      reads this
    {
      Lane(sendCh, prioCh, sendCap, prioCap)
    }
  }

  function Lanes(workers: seq<WorkerSlot>): (l: seq<Lane>)
    reads workers
    ensures |l| == |workers|
  {
    seq(|workers|, i requires 0 <= i < |workers| reads workers => workers[i].Queues())
  }

  ghost predicate Distinct(workers: seq<WorkerSlot>) {
    forall i, j :: 0 <= i < j < |workers| ==> workers[i] != workers[j]
  }

  class Dispatcher {
    var workers: seq<WorkerSlot>
    var rrIndex: nat
    var rrCount: nat
    var lastPktTime: int
    var chunkStartTs: int

    function Pointer(): Turn
      reads this
    {
      Turn(rrIndex, rrCount, lastPktTime, chunkStartTs)
    }

    /** No slot is registered twice, and the pointer is in bounds. */
    ghost predicate Valid()
      reads this
    {
      Distinct(workers) && InBounds(Pointer(), |workers|)
    }

    constructor ()
      ensures Valid() && workers == [] && Pointer() == Turn(0, 0, 0, 0)
    {
      workers, rrIndex, rrCount, lastPktTime, chunkStartTs := [], 0, 0, 0, 0;
    }

    /** A session registers the slot it has just made; registering one twice would
        put it in the list twice. */
    method Register(w: WorkerSlot)
      requires Valid()
      modifies this`workers
      ensures workers == old(workers) + [w] && InBounds(Pointer(), |workers|)
      ensures Valid() <==> w !in old(workers)
    {
      workers := workers + [w];
      if w in old(workers) {
        var i :| 0 <= i < |old(workers)| && old(workers)[i] == w;
        assert workers[i] == workers[|old(workers)|];
      }
    }

    method Unregister(slot: WorkerSlot)
      requires Valid()
      modifies this`workers, this`rrIndex, this`rrCount
      ensures Valid()
      ensures exists i: nat :: Removed(old(workers), workers, slot, i)
      ensures slot !in workers
      ensures Pointer() == AfterUnregister(old(Pointer()), |workers|)
    {
      var i := 0;
      while i < |workers| && workers[i] != slot
        invariant 0 <= i <= |workers| && workers == old(workers)
        invariant slot !in workers[..i]
      {
        i := i + 1;
      }
      if i < |workers| {
        workers := workers[..i] + workers[i + 1..];
      }
      if rrIndex >= |workers| && |workers| > 0 {
        rrIndex := rrIndex % |workers|;
      }
      rrCount := 0;
      assert Removed(old(workers), workers, slot, i);
    }

    /** A send on worker `a`'s ordinary channel that does not wait. */
    method TrySend(a: nat, p: Packet) returns (ok: bool)
      requires a < |workers| && Distinct(workers)
      modifies workers[a]
      ensures ok <==> !SendFulls(old(Lanes(workers)))[a]
      ensures Lanes(workers) == if ok then Enqueue(old(Lanes(workers)), Ordinary(a), p) else old(Lanes(workers))
    {
      var w := workers[a];
      ok := |w.sendCh| < w.sendCap;
      if ok {
        w.sendCh := w.sendCh + [p];
      }
    }

    method TryPrio(a: nat, p: Packet) returns (ok: bool)
      requires a < |workers| && Distinct(workers)
      modifies workers[a]
      ensures ok <==> !PrioFulls(old(Lanes(workers)))[a]
      ensures Lanes(workers) == if ok then Enqueue(old(Lanes(workers)), Prio(a), p) else old(Lanes(workers))
    {
      var w := workers[a];
      ok := |w.prioCh| < w.prioCap;
      if ok {
        w.prioCh := w.prioCh + [p];
      }
    }

    /** Tries the ordinary channels of the workers after `idx`, in cyclic order. */
    method SendElsewhere(idx: nat, p: Packet) returns (sent: Option<nat>)
      requires idx < |workers| && Distinct(workers)
      modifies workers
      ensures sent == Scan(SendFulls(old(Lanes(workers))), idx, 1)
      ensures Lanes(workers) ==
        if sent.Some? then Enqueue(old(Lanes(workers)), Ordinary(sent.value), p) else old(Lanes(workers))
    {
      var i, nw := 1, |workers|;
      ghost var before := Lanes(workers);
      while i < nw
        invariant 1 <= i <= nw
        invariant Lanes(workers) == before
        invariant Scan(SendFulls(before), idx, 1) == Scan(SendFulls(before), idx, i)
      {
        var alt := (idx + i) % nw;
        var ok := TrySend(alt, p);
        if ok {
          return Some(alt);
        }
        i := i + 1;
      }
      sent := None;
    }

    /** Tries every priority channel, from the current worker's on. */
    method SendPrio(idx: nat, p: Packet) returns (sent: Option<nat>)
      requires idx < |workers| && Distinct(workers)
      modifies workers
      ensures sent == Scan(PrioFulls(old(Lanes(workers))), idx, 0)
      ensures Lanes(workers) ==
        if sent.Some? then Enqueue(old(Lanes(workers)), Prio(sent.value), p) else old(Lanes(workers))
    {
      var nw := |workers|;
      ghost var before := Lanes(workers);
      ModRange(idx, nw);
      var ok := TryPrio(idx, p);
      if ok {
        return Some(idx);
      }
      var i := 1;
      while i < nw
        invariant 1 <= i <= nw
        invariant Lanes(workers) == before
        invariant Scan(PrioFulls(before), idx, 0) == Scan(PrioFulls(before), idx, i)
      {
        var alt := (idx + i) % nw;
        ok := TryPrio(alt, p);
        if ok {
          return Some(alt);
        }
        i := i + 1;
      }
      sent := None;
    }

    /** The part of the read loop that runs under the lock: one packet is put in one
        queue or dropped. */
    method Dispatch(p: Packet, now: int) returns (outcome: Outcome)
      requires Valid()
      modifies this`rrIndex, this`rrCount, this`lastPktTime, this`chunkStartTs, workers
      ensures Valid()
      ensures (Pointer(), outcome) ==
        Decide(old(Pointer()), SendFulls(old(Lanes(workers))), PrioFulls(old(Lanes(workers))), p.size, now)
      ensures Lanes(workers) == Enqueue(old(Lanes(workers)), outcome, p)
    {
      DecideInBounds(Pointer(), SendFulls(Lanes(workers)), PrioFulls(Lanes(workers)), p.size, now);
      if |workers| == 0 {
        return Dropped;
      }
      LeavePause(now);
      if p.size <= PRIO_THRESHOLD {
        var sentPrio := SendPrio(rrIndex % |workers|, p);
        if sentPrio.Some? {
          return Prio(sentPrio.value);
        }
      }
      LeaveDwell(now);
      outcome := SendOrdinary(p, now);
    }

    method LeavePause(now: int)
      requires workers != []
      modifies this`rrIndex, this`rrCount, this`lastPktTime, this`chunkStartTs
      ensures Pointer() == AfterPause(old(Pointer()), |workers|, now)
    {
      var lastTime := lastPktTime;
      lastPktTime := now;
      if lastTime > 0 && now - lastTime > MAX_PAUSE {
        rrIndex := (rrIndex + 1) % |workers|;
        rrCount := 0;
        chunkStartTs := now;
      }
    }

    method LeaveDwell(now: int)
      requires workers != []
      modifies this`rrIndex, this`rrCount, this`chunkStartTs
      ensures Pointer() == AfterDwell(old(Pointer()), |workers|, now)
    {
      if chunkStartTs == 0 {
        chunkStartTs := now;
      } else if now - chunkStartTs >= MAX_DWELL {
        rrIndex := (rrIndex + 1) % |workers|;
        rrCount := 0;
        chunkStartTs := now;
      }
    }

    method SendOrdinary(p: Packet, now: int) returns (outcome: Outcome)
      requires workers != [] && Distinct(workers)
      modifies this`rrIndex, this`rrCount, this`chunkStartTs, workers
      ensures (Pointer(), outcome) == Place(old(Pointer()), SendFulls(old(Lanes(workers))), p.size, now)
      ensures Lanes(workers) == Enqueue(old(Lanes(workers)), outcome, p)
    {
      var nw := |workers|;
      ghost var full := SendFulls(Lanes(workers));
      var chunk := ChunkSizeFor(p.size);
      var idx := rrIndex % nw;
      ModRange(idx, nw);
      var sent := TrySend(idx, p);
      if sent {
        assert Scan(full, idx, 0) == Some(idx);
        rrCount := rrCount + 1;
        if rrCount >= chunk {
          rrIndex := (idx + 1) % nw;
          rrCount := 0;
          chunkStartTs := now;
        }
        return Ordinary(idx);
      }
      var alt := SendElsewhere(idx, p);
      assert Scan(full, idx, 0) == alt;
      if alt.Some? {
        rrIndex := alt.value;
        rrCount := 1;
        chunkStartTs := now;
        return Ordinary(alt.value);
      }
      rrIndex := (idx + 1) % nw;
      rrCount := 0;
      return Dropped;
    }
  }
}
