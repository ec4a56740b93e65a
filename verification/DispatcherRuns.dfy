/** Whole runs of the dispatcher of client/dispatcher.go, with workers coming and
    going, their writers emptying the queues and their keepalives (client/session.go)
    filling the priority queues too: nothing is lost unseen, nothing is doubled,
    nothing overtakes. */
module DispatcherRuns {
  import opened ChunkScheduler
  import opened Dispatcher

  /** A worker's queues, and what its writer has taken out of each so far. */
  datatype Slot = Slot(lane: Lane, sendOut: seq<Packet>, prioOut: seq<Packet>)

  /** A packet that was offered to the queues: read from the device, or a keepalive. */
  datatype Entry = Entry(p: Packet, keepalive: bool)

  /** What became of an entry. */
  datatype Where = InSend(slot: nat) | InPrio(slot: nat) | Lost

  datatype Event =
    | Arrive(p: Packet, now: int)
    | Register(sendCap: nat, prioCap: nat)
    | Unregister(slot: nat)
    | TakeSend(slot: nat)
    | TakePrio(slot: nat)
    | Keepalive(slot: nat, ping: Packet)

  /** Every slot ever registered, the registered ones in order, the pointer, and the
      entries with what became of each. */
  datatype State = State(slots: seq<Slot>, members: seq<nat>, turn: Turn,
                         entries: seq<Entry>, places: seq<Where>)

  const START := State([], [], Turn(0, 0, 0, 0), [], [])

  predicate Known(members: seq<nat>, n: nat) { forall i :: 0 <= i < |members| ==> members[i] < n }

  ghost predicate Apart(members: seq<nat>) {
    forall i, j :: 0 <= i < j < |members| ==> members[i] != members[j]
  }

  function MemberLanes(slots: seq<Slot>, members: seq<nat>): (l: seq<Lane>)
    requires Known(members, |slots|)
    ensures |l| == |members|
  {
    seq(|members|, i requires 0 <= i < |members| => slots[members[i]].lane)
  }

  function Decision(s: State, size: nat, now: int): (Turn, Outcome)
    requires Known(s.members, |s.slots|)
  {
    var lanes := MemberLanes(s.slots, s.members);
    Decide(s.turn, SendFulls(lanes), PrioFulls(lanes), size, now)
  }

  function PlaceOf(outcome: Outcome, members: seq<nat>): Where {
    match outcome
    case Prio(w) => if w < |members| then InPrio(members[w]) else Lost
    case Ordinary(w) => if w < |members| then InSend(members[w]) else Lost
    case Dropped => Lost
  }

  function Put(slot: Slot, k: nat, place: Where, p: Packet): Slot {
    if place == InSend(k) then slot.(lane := PushSend(slot.lane, p))
    else if place == InPrio(k) then slot.(lane := PushPrio(slot.lane, p))
    else slot
  }

  function PutAll(slots: seq<Slot>, place: Where, p: Packet): (after: seq<Slot>)
    ensures |after| == |slots|
  {
    seq(|slots|, k requires 0 <= k < |slots| => Put(slots[k], k, place, p))
  }

  function TakeFromSend(slot: Slot): Slot {
    if slot.lane.send == [] then slot
    else slot.(lane := slot.lane.(send := slot.lane.send[1..]), sendOut := slot.sendOut + slot.lane.send[..1])
  }

  function TakeFromPrio(slot: Slot): Slot {
    if slot.lane.prio == [] then slot
    else slot.(lane := slot.lane.(prio := slot.lane.prio[1..]), prioOut := slot.prioOut + slot.lane.prio[..1])
  }

  /** `members` less the first `slot`, if any. */
  function Drop(members: seq<nat>, slot: nat): seq<nat> {
    if members == [] then []
    else if members[0] == slot then members[1..]
    else [members[0]] + Drop(members[1..], slot)
  }

  /** One more entry, put where it goes. */
  function Fed(s: State, e: Entry, place: Where): State {
    s.(slots := PutAll(s.slots, place, e.p), entries := s.entries + [e], places := s.places + [place])
  }

  /** A keepalive goes into its own session's priority queue if there is room. */
  function PingPlace(s: State, k: nat): Where {
    if k < |s.slots| && !PrioFull(s.slots[k].lane) then InPrio(k) else Lost
  }

  function Step(s: State, e: Event): State
    requires Known(s.members, |s.slots|)
  {
    match e
    case Arrive(p, now) =>
      var (turn, outcome) := Decision(s, p.size, now);
      var place := PlaceOf(outcome, s.members);
      Fed(s, Entry(p, false), place).(turn := turn)
    case Register(sendCap, prioCap) =>
      s.(slots := s.slots + [Slot(Lane([], [], sendCap, prioCap), [], [])], members := s.members + [|s.slots|])
    case Unregister(slot) =>
      var members := Drop(s.members, slot);
      s.(members := members, turn := AfterUnregister(s.turn, |members|))
    case TakeSend(k) => if k < |s.slots| then s.(slots := s.slots[k := TakeFromSend(s.slots[k])]) else s
    case TakePrio(k) => if k < |s.slots| then s.(slots := s.slots[k := TakeFromPrio(s.slots[k])]) else s
    case Keepalive(k, ping) => Fed(s, Entry(ping, true), PingPlace(s, k))
  }

  // ---------- which entries went to a place ----------

  /** The items that went to `place`, in order. */
  function Picked<T>(items: seq<T>, places: seq<Where>, place: Where): seq<T>
    requires |items| == |places|
  {
    if items == [] then []
    else
      var n := |items| - 1;
      var picked := Picked(items[..n], places[..n], place);
      if places[n] == place then picked + [items[n]] else picked
  }

  lemma PickedNext<T>(items: seq<T>, places: seq<Where>, item: T, at: Where, place: Where)
    requires |items| == |places|
    ensures Picked(items + [item], places + [at], place) ==
            if at == place then Picked(items, places, place) + [item] else Picked(items, places, place)
  {
    assert (items + [item])[..|items|] == items && (places + [at])[..|items|] == places;
  }

  function PacketsOf(es: seq<Entry>): (ps: seq<Packet>)
    ensures |ps| == |es|
  {
    if es == [] then [] else PacketsOf(es[..|es| - 1]) + [es[|es| - 1].p]
  }

  lemma PacketsNext(es: seq<Entry>, e: Entry)
    ensures PacketsOf(es + [e]) == PacketsOf(es) + [e.p]
  {
    assert (es + [e])[..|es|] == es;
  }

  /** The packets read from the device among the entries, keepalives removed. */
  function ArrivalsOf(es: seq<Entry>): seq<Packet> {
    if es == [] then []
    else
      var arrivals := ArrivalsOf(es[..|es| - 1]);
      if es[|es| - 1].keepalive then arrivals else arrivals + [es[|es| - 1].p]
  }

  // ---------- the invariant ----------

  /** The packets that went to a place. */
  function History(s: State, place: Where): seq<Packet>
    requires |s.entries| == |s.places|
  {
    PacketsOf(Picked(s.entries, s.places, place))
  }

  /** What left a queue and then what is in it are exactly the entries that went to
      it, in order. */
  predicate SlotKept(s: State, k: nat)
    requires k < |s.slots| && |s.entries| == |s.places|
  {
    && s.slots[k].sendOut + s.slots[k].lane.send == History(s, InSend(k))
    && s.slots[k].prioOut + s.slots[k].lane.prio == History(s, InPrio(k))
  }

  /** An ordinary queue only ever gets packets from the device. */
  predicate NoPing(e: Entry, place: Where) { e.keepalive ==> !place.InSend? }

  predicate PlaceKnown(place: Where, n: nat) { place.Lost? || place.slot < n }

  ghost predicate Kept(s: State) {
    && Known(s.members, |s.slots|) && Apart(s.members)
    && |s.entries| == |s.places|
    && (forall i :: 0 <= i < |s.places| ==> PlaceKnown(s.places[i], |s.slots|) && NoPing(s.entries[i], s.places[i]))
    && (forall k: nat :: k < |s.slots| ==> SlotKept(s, k))
    && InBounds(s.turn, |s.members|)
  }

  lemma {:induction false} DropKeeps(members: seq<nat>, slot: nat, n: nat)
    requires Known(members, n) && Apart(members)
    ensures var d := Drop(members, slot);
      Known(d, n) && Apart(d) && |d| <= |members| && forall x :: x in d ==> x in members
  {
    if members != [] {
      var rest := members[1..];
      assert Known(rest, n) && Apart(rest);
      DropKeeps(rest, slot, n);
      if members[0] != slot {
        assert members[0] !in rest;
      }
    }
  }

  lemma {:induction false} DropLength(members: seq<nat>, slot: nat)
    ensures |Drop(members, slot)| == |members| - if slot in members then 1 else 0
  {
    if members != [] && members[0] != slot {
      DropLength(members[1..], slot);
    }
  }

  lemma HistoryNext(s: State, e: Entry, at: Where, place: Where)
    requires |s.entries| == |s.places|
    ensures History(Fed(s, e, at), place) == if at == place then History(s, place) + [e.p] else History(s, place)
  {
    PickedNext(s.entries, s.places, e, at, place);
    PacketsNext(Picked(s.entries, s.places, place), e);
  }

  lemma FedSlot(s: State, e: Entry, at: Where, k: nat)
    requires |s.entries| == |s.places| && k < |s.slots| && SlotKept(s, k)
    ensures SlotKept(Fed(s, e, at), k)
  {
    HistoryNext(s, e, at, InSend(k));
    HistoryNext(s, e, at, InPrio(k));
  }

  lemma FedKept(s: State, e: Entry, at: Where)
    requires Kept(s) && PlaceKnown(at, |s.slots|) && NoPing(e, at)
    ensures Kept(Fed(s, e, at))
  {
    var t := Fed(s, e, at);
    forall k: nat | k < |t.slots|
      ensures SlotKept(t, k)
    {
      assert SlotKept(s, k);
      FedSlot(s, e, at, k);
    }
  }

  lemma TurnKept(s: State, turn: Turn)
    requires Kept(s) && InBounds(turn, |s.members|)
    ensures Kept(s.(turn := turn))
  {
    forall k: nat | k < |s.slots|
      ensures SlotKept(s.(turn := turn), k)
    {
      assert SlotKept(s, k);
    }
  }

  lemma ArrivalKept(s: State, p: Packet, now: int)
    requires Kept(s)
    ensures Kept(Step(s, Arrive(p, now)))
  {
    var lanes := MemberLanes(s.slots, s.members);
    DecideInBounds(s.turn, SendFulls(lanes), PrioFulls(lanes), p.size, now);
    var (turn, outcome) := Decision(s, p.size, now);
    var at := PlaceOf(outcome, s.members);
    FedKept(s, Entry(p, false), at);
    TurnKept(Fed(s, Entry(p, false), at), turn);
  }

  lemma {:induction false} PickedNowhere<T>(items: seq<T>, places: seq<Where>, place: Where)
    requires |items| == |places| && place !in places
    ensures Picked(items, places, place) == []
  {
    if items != [] {
      PickedNowhere(items[..|items| - 1], places[..|items| - 1], place);
    }
  }

  lemma RegisterKept(s: State, sendCap: nat, prioCap: nat)
    requires Kept(s)
    ensures Kept(Step(s, Register(sendCap, prioCap)))
  {
    var t, n := Step(s, Register(sendCap, prioCap)), |s.slots|;
    PickedNowhere(s.entries, s.places, InSend(n));
    PickedNowhere(s.entries, s.places, InPrio(n));
    forall k: nat | k < |t.slots|
      ensures SlotKept(t, k)
    {
      if k < n {
        assert SlotKept(s, k);
      }
    }
  }

  lemma OthersKept(s: State, e: Event)
    requires Kept(s) && (e.Unregister? || e.TakeSend? || e.TakePrio?)
    ensures Kept(Step(s, e))
  {
    var t := Step(s, e);
    if e.Unregister? {
      DropKeeps(s.members, e.slot, |s.slots|);
      DropLength(s.members, e.slot);
    }
    forall k: nat | k < |t.slots|
      ensures SlotKept(t, k)
    {
      assert SlotKept(s, k);
    }
  }

  lemma StepKept(s: State, e: Event)
    requires Kept(s)
    ensures Kept(Step(s, e))
  {
    match e
    case Arrive(p, now) => ArrivalKept(s, p, now);
    case Register(sendCap, prioCap) => RegisterKept(s, sendCap, prioCap);
    case Keepalive(k, ping) => FedKept(s, Entry(ping, true), PingPlace(s, k));
    case _ => OthersKept(s, e);
  }

  // ---------- whole runs ----------

  ghost function After(run: seq<Event>): (s: State)
    ensures Kept(s)
  {
    if run == [] then START
    else
      var s := After(run[..|run| - 1]);
      StepKept(s, run[|run| - 1]);
      Step(s, run[|run| - 1])
  }

  /** What a run offers to the queues, in order. */
  function Offered(run: seq<Event>): seq<Entry> {
    if run == [] then []
    else
      var offered, e := Offered(run[..|run| - 1]), run[|run| - 1];
      if e.Arrive? then offered + [Entry(e.p, false)]
      else if e.Keepalive? then offered + [Entry(e.ping, true)]
      else offered
  }

  /** The packets it reads from the device, in order. */
  function Arrivals(run: seq<Event>): seq<Packet> {
    if run == [] then []
    else
      var arrivals, e := Arrivals(run[..|run| - 1]), run[|run| - 1];
      if e.Arrive? then arrivals + [e.p] else arrivals
  }

  lemma {:induction false} AllRecorded(run: seq<Event>)
    ensures After(run).entries == Offered(run)
  {
    if run != [] {
      AllRecorded(run[..|run| - 1]);
    }
  }

  lemma ArrivalsNext(es: seq<Entry>, e: Entry)
    ensures ArrivalsOf(es + [e]) == if e.keepalive then ArrivalsOf(es) else ArrivalsOf(es) + [e.p]
  {
    assert (es + [e])[..|es|] == es;
  }

  lemma {:induction false} OfferedArrivals(run: seq<Event>)
    ensures ArrivalsOf(Offered(run)) == Arrivals(run)
  {
    if run != [] {
      var init, e := run[..|run| - 1], run[|run| - 1];
      OfferedArrivals(init);
      if e.Arrive? {
        ArrivalsNext(Offered(init), Entry(e.p, false));
      } else if e.Keepalive? {
        ArrivalsNext(Offered(init), Entry(e.ping, true));
      }
    }
  }

  /** The places of the packets from the device alone. */
  function ArrivalPlaces(es: seq<Entry>, places: seq<Where>): (at: seq<Where>)
    requires |es| == |places|
    ensures |at| == |ArrivalsOf(es)|
  {
    if es == [] then []
    else
      var n := |es| - 1;
      var at := ArrivalPlaces(es[..n], places[..n]);
      if es[n].keepalive then at else at + [places[n]]
  }

  /** Picking and removing keepalives can be done in either order. */
  lemma {:induction false} PickedArrivals(es: seq<Entry>, places: seq<Where>, place: Where)
    requires |es| == |places|
    ensures ArrivalsOf(Picked(es, places, place)) == Picked(ArrivalsOf(es), ArrivalPlaces(es, places), place)
  {
    if es != [] {
      var n := |es| - 1;
      PickedArrivals(es[..n], places[..n], place);
      ArrivalsNext(Picked(es[..n], places[..n], place), es[n]);
      PickedNext(ArrivalsOf(es[..n]), ArrivalPlaces(es[..n], places[..n]), es[n].p, places[n], place);
    }
  }

  lemma {:induction false} NoPingsPicked(es: seq<Entry>, places: seq<Where>, k: nat)
    requires |es| == |places| && forall i :: 0 <= i < |es| ==> NoPing(es[i], places[i])
    ensures PacketsOf(Picked(es, places, InSend(k))) == ArrivalsOf(Picked(es, places, InSend(k)))
  {
    if es != [] {
      var n := |es| - 1;
      NoPingsPicked(es[..n], places[..n], k);
      assert NoPing(es[n], places[n]);
      PacketsNext(Picked(es[..n], places[..n], InSend(k)), es[n]);
      ArrivalsNext(Picked(es[..n], places[..n], InSend(k)), es[n]);
    }
  }

  /** Over every run, what left an ordinary queue and then what is in it are exactly
      the packets sent there, in the order in which they were read. */
  lemma OrdinaryInOrder(run: seq<Event>, k: nat)
    requires k < |After(run).slots|
    ensures var s := After(run);
      var at := ArrivalPlaces(s.entries, s.places);
      && |at| == |Arrivals(run)|
      && s.slots[k].sendOut + s.slots[k].lane.send == Picked(Arrivals(run), at, InSend(k))
  {
    var s := After(run);
    assert SlotKept(s, k);
    AllRecorded(run);
    OfferedArrivals(run);
    NoPingsPicked(s.entries, s.places, k);
    PickedArrivals(s.entries, s.places, InSend(k));
  }

  /** And what left a priority queue, then what is in it, are keepalives of its
      session and the packets sent there; without the keepalives these are exactly
      the packets sent there, in the order in which they were read. */
  lemma PriorityInOrder(run: seq<Event>, k: nat) returns (h: seq<Entry>)
    requires k < |After(run).slots|
    ensures var s := After(run);
      var at := ArrivalPlaces(s.entries, s.places);
      && |at| == |Arrivals(run)|
      && s.slots[k].prioOut + s.slots[k].lane.prio == PacketsOf(h)
      && ArrivalsOf(h) == Picked(Arrivals(run), at, InPrio(k))
      && |s.places| == |Offered(run)| && h == Picked(Offered(run), s.places, InPrio(k))
  {
    var s := After(run);
    assert SlotKept(s, k);
    AllRecorded(run);
    OfferedArrivals(run);
    h := Picked(s.entries, s.places, InPrio(k));
    PickedArrivals(s.entries, s.places, InPrio(k));
  }

  // ---------- nothing is lost unseen, nothing is doubled ----------

  /** How often `x` went to `place`. */
  function TimesAt(es: seq<Entry>, places: seq<Where>, place: Where, x: Packet): nat
    requires |es| == |places|
  {
    if es == [] then 0
    else
      var n := |es| - 1;
      TimesAt(es[..n], places[..n], place, x) + if es[n].p == x && places[n] == place then 1 else 0
  }

  lemma {:induction false} TimesAtCounts(es: seq<Entry>, places: seq<Where>, place: Where, x: Packet)
    requires |es| == |places|
    ensures multiset(PacketsOf(Picked(es, places, place)))[x] == TimesAt(es, places, place, x)
  {
    if es != [] {
      var n := |es| - 1;
      TimesAtCounts(es[..n], places[..n], place, x);
      PacketsNext(Picked(es[..n], places[..n], place), es[n]);
    }
  }

  /** How often `x` went to one of the first `n` slots' queues, or was lost. */
  function TimesTo(es: seq<Entry>, places: seq<Where>, n: nat, x: Packet): nat
    requires |es| == |places|
  {
    if n == 0 then TimesAt(es, places, Lost, x) else
    TimesTo(es, places, n - 1, x) + TimesAt(es, places, InSend(n - 1), x) + TimesAt(es, places, InPrio(n - 1), x)
  }

  lemma {:induction false} TimesToLast(es: seq<Entry>, places: seq<Where>, n: nat, x: Packet,
                                       init: seq<Entry>, before: seq<Where>)
    requires |es| == |places| > 0
    requires init == es[..|es| - 1] && before == places[..|es| - 1]
    ensures TimesTo(es, places, n, x) == TimesTo(init, before, n, x)
      + if es[|es| - 1].p == x && PlaceKnown(places[|es| - 1], n) then 1 else 0
  {
    if n > 0 {
      TimesToLast(es, places, n - 1, x, init, before);
    }
  }

  lemma {:induction false} TimesToAll(es: seq<Entry>, places: seq<Where>, n: nat, x: Packet)
    requires |es| == |places| && forall i :: 0 <= i < |places| ==> PlaceKnown(places[i], n)
    ensures TimesTo(es, places, n, x) == multiset(PacketsOf(es))[x]
  {
    if es == [] {
      TimesToNothing(n, x);
    } else {
      var init, before := es[..|es| - 1], places[..|es| - 1];
      TimesToAll(init, before, n, x);
      TimesToLast(es, places, n, x, init, before);
    }
  }

  lemma {:induction false} TimesToNothing(n: nat, x: Packet)
    ensures TimesTo([], [], n, x) == 0
  {
    if n > 0 {
      TimesToNothing(n - 1, x);
    }
  }

  /** Everything that ever entered a slot's queues: what has been taken out of each,
      and what is still in it. */
  function InSlot(slot: Slot): multiset<Packet> {
    multiset(slot.sendOut + slot.lane.send) + multiset(slot.prioOut + slot.lane.prio)
  }

  predicate SlotCounts(slots: seq<Slot>, es: seq<Entry>, places: seq<Where>, k: nat, x: Packet)
    requires |es| == |places| && k < |slots|
  {
    InSlot(slots[k])[x] == TimesAt(es, places, InSend(k), x) + TimesAt(es, places, InPrio(k), x)
  }

  lemma SlotTimes(s: State, k: nat, x: Packet)
    requires |s.entries| == |s.places| && k < |s.slots| && SlotKept(s, k)
    ensures SlotCounts(s.slots, s.entries, s.places, k, x)
  {
    TimesAtCounts(s.entries, s.places, InSend(k), x);
    TimesAtCounts(s.entries, s.places, InPrio(k), x);
  }

  /** The same for the first `n` slots. */
  function InQueues(slots: seq<Slot>, n: nat): multiset<Packet>
    requires n <= |slots|
  {
    if n == 0 then multiset{} else InQueues(slots, n - 1) + InSlot(slots[n - 1])
  }

  lemma OneQueueMore(slots: seq<Slot>, es: seq<Entry>, places: seq<Where>, k: nat, x: Packet)
    requires |es| == |places| && k < |slots| && SlotCounts(slots, es, places, k, x)
    requires QueuesCount(slots, es, places, k, x)
    ensures QueuesCount(slots, es, places, k + 1, x)
  {
  }

  /** What the first `n` workers hold and held, with what was lost, is what was offered there. */
  predicate QueuesCount(slots: seq<Slot>, es: seq<Entry>, places: seq<Where>, n: nat, x: Packet)
    requires |es| == |places| && n <= |slots|
  {
    InQueues(slots, n)[x] + TimesAt(es, places, Lost, x) == TimesTo(es, places, n, x)
  }

  lemma {:induction false} QueueTimes(slots: seq<Slot>, es: seq<Entry>, places: seq<Where>, n: nat, x: Packet)
    requires |es| == |places| && n <= |slots|
    requires forall k: nat :: k < |slots| ==> SlotCounts(slots, es, places, k, x)
    ensures QueuesCount(slots, es, places, n, x)
  {
    if n > 0 {
      assert SlotCounts(slots, es, places, n - 1, x);
      QueueTimes(slots, es, places, n - 1, x);
      OneQueueMore(slots, es, places, n - 1, x);
    }
  }

  /** Dispatching conserves packets: what has been taken from the queues, what is in
      them, and what was dropped are together exactly the packets read and the
      keepalives made, none missing and none twice. */
  lemma HistoriesPartition(run: seq<Event>)
    ensures var s := After(run);
      InQueues(s.slots, |s.slots|) + multiset(History(s, Lost)) == multiset(PacketsOf(Offered(run)))
  {
    var s := After(run);
    AllRecorded(run);
    forall x: Packet
      ensures (InQueues(s.slots, |s.slots|) + multiset(History(s, Lost)))[x] == multiset(PacketsOf(Offered(run)))[x]
    {
      forall k: nat | k < |s.slots|
        ensures SlotCounts(s.slots, s.entries, s.places, k, x)
      {
        assert SlotKept(s, k);
        SlotTimes(s, k, x);
      }
      QueueTimes(s.slots, s.entries, s.places, |s.slots|, x);
      TimesAtCounts(s.entries, s.places, Lost, x);
      TimesToAll(s.entries, s.places, |s.slots|, x);
    }
  }

  /** An arrival is lost exactly when there are no workers, or every ordinary queue
      is full and, for 128 bytes or less, every priority queue too. */
  lemma LostIff(run: seq<Event>, p: Packet, now: int)
    ensures var s := After(run);
      var lanes := MemberLanes(s.slots, s.members);
      PlaceOf(Decision(s, p.size, now).1, s.members) == Lost <==>
        AllFull(SendFulls(lanes)) && (p.size <= PRIO_THRESHOLD ==> AllFull(PrioFulls(lanes)))
  {
    var s := After(run);
    var lanes := MemberLanes(s.slots, s.members);
    DroppedIff(s.turn, SendFulls(lanes), PrioFulls(lanes), p.size, now);
  }

  /** The same whatever each attempt found: a writer may make room in a queue after it
      was tried, and a keepalive may fill one before. `sendFull` and `prioFull` say of
      each member's queues whether they were full when they were tried. */
  lemma LostAsTried(run: seq<Event>, sendFull: seq<bool>, prioFull: seq<bool>, p: Packet, now: int)
    requires |sendFull| == |prioFull| == |After(run).members|
    ensures var s := After(run);
      PlaceOf(Decide(s.turn, sendFull, prioFull, p.size, now).1, s.members) == Lost <==>
        AllFull(sendFull) && (p.size <= PRIO_THRESHOLD ==> AllFull(prioFull))
  {
    DroppedIff(After(run).turn, sendFull, prioFull, p.size, now);
  }

  // ---------- queues stay within their capacities ----------

  predicate LaneFits(l: Lane) { |l.send| <= l.sendCap && |l.prio| <= l.prioCap }

  predicate SlotFits(slots: seq<Slot>, k: nat)
    requires k < |slots|
  {
    LaneFits(slots[k].lane)
  }

  /** A place that was chosen has room. */
  lemma PlaceHasRoom(s: State, size: nat, now: int, k: nat)
    requires Kept(s) && k < |s.slots|
    ensures var place := PlaceOf(Decision(s, size, now).1, s.members);
      && (place == InSend(k) ==> |s.slots[k].lane.send| < s.slots[k].lane.sendCap)
      && (place == InPrio(k) ==> |s.slots[k].lane.prio| < s.slots[k].lane.prioCap)
  {
    var lanes := MemberLanes(s.slots, s.members);
    DroppedIff(s.turn, SendFulls(lanes), PrioFulls(lanes), size, now);
  }

  lemma StepFits(s: State, e: Event, k: nat)
    requires Kept(s) && k < |Step(s, e).slots| && (k < |s.slots| ==> SlotFits(s.slots, k))
    ensures SlotFits(Step(s, e).slots, k)
  {
    if e.Arrive? {
      PlaceHasRoom(s, e.p.size, e.now, k);
    }
  }

  /** In every run no queue ever holds more packets than its channel has room for. */
  lemma {:induction false} WithinCapacity(run: seq<Event>, k: nat)
    requires k < |After(run).slots|
    ensures var l := After(run).slots[k].lane; |l.send| <= l.sendCap && |l.prio| <= l.prioCap
  {
    var s := After(run[..|run| - 1]);
    if k < |s.slots| {
      WithinCapacity(run[..|run| - 1], k);
    }
    StepFits(s, run[|run| - 1], k);
  }

  /** So a keepalive is lost exactly if its session's priority queue is at its capacity. */
  lemma KeepaliveLostIff(run: seq<Event>, k: nat, ping: Packet)
    requires k < |After(run).slots|
    ensures var s, t := After(run), After(run + [Keepalive(k, ping)]);
      && t.entries == s.entries + [Entry(ping, true)] && |t.places| == |s.places| + 1
      && t.places[|s.places|] ==
         if |s.slots[k].lane.prio| == s.slots[k].lane.prioCap then Lost else InPrio(k)
  {
    WithinCapacity(run, k);
    assert (run + [Keepalive(k, ping)])[..|run|] == run;
  }

  /** The values here are the class's: what an arrival does to the members' queues is
      what `Dispatcher.Dispatch` does to its workers'. */
  lemma SameAsInPlace(run: seq<Event>, p: Packet, now: int)
    ensures var s := After(run);
      MemberLanes(PutAll(s.slots, PlaceOf(Decision(s, p.size, now).1, s.members), p), s.members)
      == Enqueue(MemberLanes(s.slots, s.members), Decision(s, p.size, now).1, p)
  {
  }

  lemma RemovedBehind<T>(first: T, before: seq<T>, after: seq<T>, slot: T, j: nat)
    requires Removed(before, after, slot, j) && first != slot
    ensures Removed([first] + before, [first] + after, slot, j + 1)
  {
    var all := [first] + before;
    if j < |before| {
      assert all[..j + 1] == [first] + before[..j] && all[j + 2..] == before[j + 1..];
    }
  }

  /** So does leaving: the members that remain are those that `Dispatcher.Unregister`
      leaves. */
  lemma {:induction false} UnregisteredAsInPlace(members: seq<nat>, slot: nat) returns (i: nat)
    ensures Removed(members, Drop(members, slot), slot, i)
  {
    if members == [] || members[0] == slot {
      i := 0;
    } else {
      var rest := members[1..];
      var j := UnregisteredAsInPlace(rest, slot);
      RemovedBehind(members[0], rest, Drop(rest, slot), slot, j);
      assert members == [members[0]] + rest;
      i := j + 1;
    }
  }

  // ---------- the pointer over runs ----------

  function LastNow(run: seq<Event>): int {
    if run == [] then 0
    else if run[|run| - 1].Arrive? then run[|run| - 1].now
    else LastNow(run[..|run| - 1])
  }

  /** The clock is positive and does not go back. */
  predicate Clocked(run: seq<Event>) {
    run == [] ||
    (Clocked(run[..|run| - 1]) &&
     (run[|run| - 1].Arrive? ==> 0 < run[|run| - 1].now && LastNow(run[..|run| - 1]) <= run[|run| - 1].now))
  }

  lemma {:induction false} ChunkNotAhead(run: seq<Event>)
    requires Clocked(run)
    ensures After(run).turn.chunkStart <= LastNow(run)
  {
    if run != [] {
      var init, e := run[..|run| - 1], run[|run| - 1];
      ChunkNotAhead(init);
      if e.Arrive? {
        var s := After(init);
        var lanes := MemberLanes(s.slots, s.members);
        ChunkIsYoung(s.turn, SendFulls(lanes), PrioFulls(lanes), e.p.size, e.now);
      }
    }
  }

  /** Over every run the pointer is within the worker list and its count below 64;
      and a packet that reaches the ordinary queues leaves a chunk under 15 ms old. */
  lemma PointerOverRuns(run: seq<Event>, p: Packet, now: int)
    ensures InBounds(After(run).turn, |After(run).members|)
    ensures Clocked(run + [Arrive(p, now)]) ==>
      var s := After(run);
      var (turn, outcome) := Decision(s, p.size, now);
      s.members != [] && !outcome.Prio? ==> 0 <= now - turn.chunkStart < MAX_DWELL
  {
    assert (run + [Arrive(p, now)])[..|run|] == run;
    if Clocked(run + [Arrive(p, now)]) {
      ChunkNotAhead(run);
      var s := After(run);
      var lanes := MemberLanes(s.slots, s.members);
      ChunkIsYoung(s.turn, SendFulls(lanes), PrioFulls(lanes), p.size, now);
    }
  }
}
