/** The tunnel watch of client/netifd.go: a loop that looks at the traffic counters
    every few seconds, probes the tunnel, and decides when to give it up. */
module TrafficWatch {
  import opened Wrappers

  /** Times and durations are in nanoseconds. */
  const SECOND := 1_000_000_000
  const TICK := 5 * SECOND
  const PROBE_AFTER := 30 * SECOND
  const STALL_TIMEOUT := 300 * SECOND
  const PROBE_ARM_FOR := 300 * SECOND

  /** What the watch does on a device: whether to probe, whether to give up. */
  function WatchAction(idle: int, age: int, answered: bool): (bool, bool) {
    if !answered then (age < PROBE_ARM_FOR, false)
    else if idle < PROBE_AFTER then (false, false)
    else (true, idle >= STALL_TIMEOUT)
  }

  predicate RelayStalled(idleIn: int, idleOut: int, received: bool) {
    received && idleIn >= STALL_TIMEOUT && idleOut < STALL_TIMEOUT
  }

  /** What happens in and around the watch. A tick is a look at the time, the two byte
      counters and the probe socket, and then, if one is due, a probe: a socket may
      have to be opened, and the send may fail. A reply reaches the open socket, if
      there is one, at any moment, between the look and the probe too. */
  datatype Event =
    | Reply
    | Look(now: int, down: int, up: int)
    | Probe(opens: bool, sends: bool)

  /** The watch's variables. `probe` says of an open probe socket whether it was ever
      answered; `due` is set between a look and the probe it asked for. */
  datatype Watch = Watch(
    relay: bool, started: int,
    last: int, lastSeen: int, lastSent: int, sentAt: int,
    probe: Option<bool>, answered: bool, due: bool, gaveUp: bool)

  function Start(relay: bool, started: int): Watch {
    Watch(relay, started, 0, started, 0, started, None, false, false, false)
  }

  // ---------- one event, on values ----------

  function SeeInbound(w: Watch, now: int, down: int): Watch {
    if down != w.last then w.(last := down, lastSeen := now) else w
  }

  function SeeOutbound(w: Watch, now: int, up: int): Watch {
    if up != w.lastSent then w.(lastSent := up, sentAt := now) else w
  }

  /** The socket after a probe was due: opened if need be, closed if it failed. */
  function ProbeAfter(probe: Option<bool>, opens: bool, sends: bool): Option<bool> {
    if probe.None? && !opens then None
    else if !sends then None
    else if probe.None? then Some(false)
    else probe
  }

  function RelayLook(w: Watch, now: int, down: int, up: int): Watch {
    var v := SeeOutbound(SeeInbound(w, now, down), now, up);
    v.(gaveUp := RelayStalled(now - v.lastSeen, now - v.sentAt, down > 0))
  }

  function DeviceLook(w: Watch, now: int, down: int): Watch {
    var v := SeeInbound(w, now, down);
    var (due, giveUp) := WatchAction(now - v.lastSeen, now - v.started, Armed(w));
    v.(answered := Armed(w), due := due && !giveUp, gaveUp := giveUp)
  }

  /** The server is known to answer: seen at a look, or to be seen at the next. */
  predicate Armed(w: Watch) { w.answered || w.probe == Some(true) }

  function Step(w: Watch, e: Event): Watch {
    if w.gaveUp then w
    else match e
      case Reply => if w.probe.Some? then w.(probe := Some(true)) else w
      case Look(now, down, up) => if w.relay then RelayLook(w, now, down, up) else DeviceLook(w, now, down)
      case Probe(opens, sends) => w.(probe := ProbeAfter(w.probe, opens, sends), due := false)
  }

  // ---------- the loop body, in place ----------

  class Watcher {
    const relay: bool
    const started: int
    var last: int
    var lastSeen: int
    var lastSent: int
    var sentAt: int
    var probe: Option<bool>
    var answered: bool
    var due: bool
    var gaveUp: bool

    ghost function State(): Watch
      reads this
    {
      Watch(relay, started, last, lastSeen, lastSent, sentAt, probe, answered, due, gaveUp)
    }

    constructor (relay: bool, now: int)
      ensures State() == Start(relay, now)
    {
      this.relay, started := relay, now;
      last, lastSeen, lastSent, sentAt := 0, now, 0, now;
      probe, answered, due, gaveUp := None, false, false, false;
    }

    /** A reply arrives on the probe socket. */
    method Answer()
      modifies this
      ensures State() == Step(old(State()), Reply)
    {
      if !gaveUp && probe.Some? {
        probe := Some(true);
      }
    }

    /** The first part of a tick, up to the decision to probe. */
    method OnTick(now: int, down: int, up: int)
      requires !due
      modifies this
      ensures State() == Step(old(State()), Look(now, down, up))
    {
      if gaveUp {
        return;
      }
      if down != last {
        last := down;
        lastSeen := now;
      }
      if relay {
        if up != lastSent {
          lastSent := up;
          sentAt := now;
        }
        if RelayStalled(now - lastSeen, now - sentAt, down > 0) {
          gaveUp := true;
        }
        return;
      }
      var idle := now - lastSeen;
      if probe.Some? && probe.value {
        answered := true;
      }
      var (shouldProbe, giveUp) := WatchAction(idle, now - started, answered);
      if giveUp {
        gaveUp := true;
        return;
      }
      due := shouldProbe;
    }

    /** The second part, if a probe is due. */
    method SendProbe(opens: bool, sends: bool)
      requires due && !gaveUp
      modifies this
      ensures State() == Step(old(State()), Probe(opens, sends))
    {
      due := false;
      if probe.None? {
        if !opens {
          return;
        }
        probe := Some(false);
      }
      if !sends {
        probe := None;
      }
    }
  }

  // ---------- whole runs ----------

  function After(w: Watch, run: seq<Event>): Watch {
    if run == [] then w else Step(After(w, run[..|run| - 1]), run[|run| - 1])
  }

  /** The time of the last look, and the counters it saw. */
  function LastNow(w: Watch, run: seq<Event>): int {
    if run == [] then w.started
    else if run[|run| - 1].Look? then run[|run| - 1].now
    else LastNow(w, run[..|run| - 1])
  }

  function LastDown(run: seq<Event>): int {
    if run == [] then 0
    else if run[|run| - 1].Look? then run[|run| - 1].down
    else LastDown(run[..|run| - 1])
  }

  function LastUp(run: seq<Event>): int {
    if run == [] then 0
    else if run[|run| - 1].Look? then run[|run| - 1].up
    else LastUp(run[..|run| - 1])
  }

  /** The loop looks when no probe is due and probes when one is; its clock never goes
      back. */
  predicate Possible(w: Watch, now: int, e: Event) {
    match e
    case Reply => true
    case Look(t, _, _) => !w.due && now <= t
    case Probe(_, _) => w.due
  }

  predicate Regular(w: Watch, run: seq<Event>) {
    run == [] ||
    (Regular(w, run[..|run| - 1]) &&
     Possible(After(w, run[..|run| - 1]), LastNow(w, run[..|run| - 1]), run[|run| - 1]))
  }

  predicate SawAfter(e: Event, since: int, down: int) { e.Look? && e.now > since ==> e.down == down }

  /** Every look later than `since` saw the same inbound counter. */
  predicate StoodStill(run: seq<Event>, since: int, down: int) {
    run == [] ||
    (StoodStill(run[..|run| - 1], since, down) && SawAfter(run[|run| - 1], since, down))
  }

  /** The inbound counter as the last look no later than `since` saw it. */
  function SeenBy(run: seq<Event>, since: int): int {
    if run == [] then 0
    else if run[|run| - 1].Look? && run[|run| - 1].now <= since then run[|run| - 1].down
    else SeenBy(run[..|run| - 1], since)
  }

  /** The inbound counter has been `down` since then, and before that look too. */
  predicate Silent(run: seq<Event>, since: int, down: int) {
    SeenBy(run, since) == down && StoodStill(run, since, down)
  }

  /** Some look later than `since` saw the outbound counter moved. */
  predicate Moved(run: seq<Event>, since: int) {
    run != [] &&
    (Moved(run[..|run| - 1], since) ||
     (run[|run| - 1].Look? && run[|run| - 1].now > since && run[|run| - 1].up != LastUp(run[..|run| - 1])))
  }

  lemma {:induction false} FixedParts(w: Watch, run: seq<Event>)
    ensures After(w, run).relay == w.relay && After(w, run).started == w.started
  {
    if run != [] {
      FixedParts(w, run[..|run| - 1]);
    }
  }

  lemma {:induction false} NothingLater(w: Watch, run: seq<Event>, since: int, down: int)
    requires Regular(w, run) && LastNow(w, run) <= since
    ensures StoodStill(run, since, down)
    ensures SeenBy(run, since) == LastDown(run)
  {
    if run != [] {
      NothingLater(w, run[..|run| - 1], since, down);
    }
  }

  /** If some counter has been silent since then, no other has. */
  lemma SilentDown(run: seq<Event>, since: int, last: int, down: int)
    ensures last != down && Silent(run, since, down) ==> !Silent(run, since, last)
    ensures last == LastDown(run) && last != down ==> !Silent(run, since, down)
  {
    if Silent(run, since, down) {
      SilentIsLast(run, since, down);
    }
  }

  lemma {:induction false} SilentIsLast(run: seq<Event>, since: int, down: int)
    requires Silent(run, since, down)
    ensures LastDown(run) == down
  {
    if run != [] && !run[|run| - 1].Look? {
      SilentIsLast(run[..|run| - 1], since, down);
    }
  }

  /** While the watch runs, `lastSeen` tells since when the counter has been silent. */
  lemma {:induction false} InboundTracked(w: Watch, run: seq<Event>, since: int)
    requires w == Start(w.relay, w.started) && Regular(w, run) && !After(w, run).gaveUp && w.started <= since
    ensures var v := After(w, run);
      && w.started <= v.lastSeen <= LastNow(w, run)
      && v.last == LastDown(run)
      && (v.lastSeen <= since <==> Silent(run, since, v.last))
  {
    if run != [] {
      var init, e := run[..|run| - 1], run[|run| - 1];
      InboundTracked(w, init, since);
      FixedParts(w, init);
      if e.Look? {
        if e.now <= since {
          NothingLater(w, init, since, e.down);
        } else {
          SilentDown(init, since, After(w, init).last, e.down);
        }
      }
    }
  }

  /** And `sentAt` tells since when outbound has. */
  lemma {:induction false} OutboundTracked(w: Watch, run: seq<Event>, since: int)
    requires w == Start(true, w.started) && Regular(w, run) && !After(w, run).gaveUp && w.started <= since
    ensures var v := After(w, run);
      && v.lastSent == LastUp(run) && v.sentAt <= LastNow(w, run)
      && (since < v.sentAt <==> Moved(run, since))
  {
    if run != [] {
      OutboundTracked(w, run[..|run| - 1], since);
      FixedParts(w, run[..|run| - 1]);
    }
  }

  // ---------- arming ----------

  /** The last probes left a socket open: one was opened or already there, and no send
      since then has failed. */
  predicate SocketOpen(run: seq<Event>) {
    run != [] &&
    var init, e := run[..|run| - 1], run[|run| - 1];
    if e.Probe? then e.sends && (e.opens || SocketOpen(init)) else SocketOpen(init)
  }

  /** The watch knows: it holds a socket exactly then. */
  lemma {:induction false} SocketTracked(w: Watch, run: seq<Event>)
    requires w.probe.None? && !After(w, run).gaveUp
    ensures SocketOpen(run) <==> After(w, run).probe.Some?
  {
    if run != [] {
      SocketTracked(w, run[..|run| - 1]);
    }
  }

  /** A reply came in while a probe socket was open. */
  predicate AnsweredAt(run: seq<Event>, k: nat)
    requires k < |run|
  {
    run[k] == Reply && SocketOpen(run[..k])
  }

  /** There was a look after event `k`. */
  predicate LookedAfter(run: seq<Event>, k: nat)
    requires k < |run|
  {
    k < |run| - 1 && (LookedAfter(run[..|run| - 1], k) || run[|run| - 1].Look?)
  }

  /** A failed send closed the socket after event `k` and before the next look. */
  predicate ClosedUnseen(run: seq<Event>, k: nat)
    requires k < |run|
  {
    k < |run| - 1 &&
    (ClosedUnseen(run[..|run| - 1], k) ||
     (run[|run| - 1].Probe? && !run[|run| - 1].sends && !LookedAfter(run[..|run| - 1], k)))
  }

  /** The reply at `k` reached an open socket that lived to be looked at. */
  predicate Heard(run: seq<Event>, k: nat)
    requires k < |run|
  {
    AnsweredAt(run, k) && !ClosedUnseen(run, k)
  }

  ghost predicate EverHeard(run: seq<Event>) { exists k: nat :: k < |run| && Heard(run, k) }

  ghost predicate EverSeen(run: seq<Event>) {
    exists k: nat :: k < |run| && Heard(run, k) && LookedAfter(run, k)
  }

  lemma HeardEarlier(run: seq<Event>, init: seq<Event>, e: Event, k: nat)
    requires run == init + [e] && k < |init|
    ensures AnsweredAt(run, k) <==> AnsweredAt(init, k)
    ensures LookedAfter(run, k) <==> LookedAfter(init, k) || e.Look?
    ensures ClosedUnseen(run, k) <==> ClosedUnseen(init, k) || (e.Probe? && !e.sends && !LookedAfter(init, k))
  {
    assert run[..|run| - 1] == init && run[..k] == init[..k];
  }

  /** What one event does to the replies heard and seen so far. */
  lemma HeardNext(run: seq<Event>, init: seq<Event>, e: Event)
    requires run == init + [e]
    ensures EverHeard(run) <==>
      if e == Reply then EverHeard(init) || SocketOpen(init)
      else if e.Probe? && !e.sends then EverSeen(init)
      else EverHeard(init)
    ensures EverSeen(run) <==> if e.Look? then EverHeard(init) else EverSeen(init)
  {
    var n := |init|;
    assert run[..n] == init && run[n] == e;
    forall k: nat | k < n
      ensures Heard(run, k) <==> Heard(init, k) && !(e.Probe? && !e.sends && !LookedAfter(init, k))
      ensures LookedAfter(run, k) <==> LookedAfter(init, k) || e.Look?
    {
      HeardEarlier(run, init, e, k);
    }
    assert Heard(run, n) <==> e == Reply && SocketOpen(init);
    if EverHeard(init) {
      var k: nat :| k < n && Heard(init, k);
      assert Heard(run, k) <==> !(e.Probe? && !e.sends && !LookedAfter(init, k));
    }
    if EverSeen(init) {
      var k: nat :| k < n && Heard(init, k) && LookedAfter(init, k);
      assert Heard(run, k) && LookedAfter(run, k);
    }
  }

  /** The watch is armed exactly when a reply reached an open socket and was not lost
      with it: closing and rebuilding sockets forgets nothing that a look has seen. */
  lemma {:induction false} ArmedIffHeard(w: Watch, run: seq<Event>)
    requires w == Start(false, w.started) && Regular(w, run) && !After(w, run).gaveUp
    ensures Armed(After(w, run)) <==> EverHeard(run)
    ensures After(w, run).answered <==> EverSeen(run)
  {
    if run != [] {
      var init, e := run[..|run| - 1], run[|run| - 1];
      assert run == init + [e];
      ArmedIffHeard(w, init);
      FixedParts(w, init);
      SocketTracked(w, init);
      HeardNext(run, init, e);
    }
  }

  /** A first reply that arrives between a look and a failing send is lost: the looks
      of the first two ticks, five seconds apart. */
  lemma ReplyCanBeLost(started: int, run: seq<Event>)
    requires run == [Look(started + TICK, 0, 0), Probe(true, true), Look(started + 2 * TICK, 0, 0), Reply,
                     Probe(true, false)]
    ensures Regular(Start(false, started), run) && AnsweredAt(run, 3)
    ensures !Armed(After(Start(false, started), run)) && !EverHeard(run)
  {
    var w := Start(false, started);
    var one, two, three, four := run[..1], run[..2], run[..3], run[..4];
    assert one[..0] == [] && two[..1] == one && three[..2] == two && four[..3] == three && run[..4] == four;
    assert After(w, one) == w.(due := true) && Regular(w, one);
    assert After(w, two) == w.(probe := Some(false)) && Regular(w, two) && SocketOpen(two);
    assert After(w, three) == w.(probe := Some(false), due := true) && Regular(w, three) && SocketOpen(three);
    assert After(w, four) == w.(probe := Some(true), due := true) && Regular(w, four);
    ArmedIffHeard(w, run);
  }

  // ---------- giving up ----------

  lemma LookNext(w: Watch, run: seq<Event>, t: Event)
    ensures After(w, run + [t]) == Step(After(w, run), t)
    ensures Regular(w, run + [t]) <==> Regular(w, run) && Possible(After(w, run), LastNow(w, run), t)
  {
    assert (run + [t])[..|run|] == run;
  }

  /** A device's tunnel is given up at a look exactly when some reply was once heard
      and the inbound counter has been what it is for five minutes, the watch itself
      having run that long. */
  lemma GivesUpIff(w: Watch, run: seq<Event>, t: Event)
    requires w == Start(false, w.started) && !After(w, run).gaveUp && t.Look? && Regular(w, run + [t])
    ensures var since := t.now - 300_000_000_000;
      After(w, run + [t]).gaveUp <==> EverHeard(run) && w.started <= since && Silent(run, since, t.down)
  {
    var v, since := After(w, run), t.now - STALL_TIMEOUT;
    LookNext(w, run, t);
    FixedParts(w, run);
    ArmedIffHeard(w, run);
    if w.started <= since {
      InboundTracked(w, run, since);
      SilentDown(run, since, v.last, t.down);
    } else {
      InboundTracked(w, run, w.started);
    }
  }

  /** A look that does not give up asks for a probe exactly if, as long as no reply was
      heard, the client is less than five minutes old, and afterwards if the inbound
      counter has been what it is for half a minute. */
  lemma ProbesIff(w: Watch, run: seq<Event>, t: Event)
    requires w == Start(false, w.started) && t.Look? && Regular(w, run + [t]) && !After(w, run + [t]).gaveUp
    ensures var since := t.now - 30_000_000_000;
      After(w, run + [t]).due <==>
        if EverHeard(run) then w.started <= since && Silent(run, since, t.down)
        else t.now - w.started < 300_000_000_000
  {
    var v, since := After(w, run), t.now - 30_000_000_000;
    LookNext(w, run, t);
    FixedParts(w, run);
    ArmedIffHeard(w, run);
    if w.started <= since {
      InboundTracked(w, run, since);
      SilentDown(run, since, v.last, t.down);
    } else {
      InboundTracked(w, run, w.started);
    }
  }

  /** No look of `run` is late enough to give up, and none sees new bytes. */
  predicate Quiet(v: Watch, run: seq<Event>) {
    forall k :: 0 <= k < |run| ==> QuietEvent(v, run[k])
  }

  predicate QuietEvent(v: Watch, e: Event) {
    e.Look? ==> e.down == v.last && e.now - v.lastSeen < STALL_TIMEOUT
  }

  /** An answer has been seen by a look, or is bound to be seen by the next. */
  predicate SureOfAnswer(v: Watch) { v.answered || (v.probe == Some(true) && !v.due) }

  lemma {:induction false} QuietKeepsWaiting(v: Watch, run: seq<Event>)
    requires !v.relay && !v.gaveUp && SureOfAnswer(v) && Quiet(v, run) && Regular(v, run)
    ensures var u := After(v, run);
      !u.gaveUp && !u.relay && SureOfAnswer(u) && u.last == v.last && u.lastSeen == v.lastSeen
  {
    if run != [] {
      var n := |run| - 1;
      QuietKeepsWaiting(v, run[..n]);
      assert QuietEvent(v, run[n]);
    }
  }

  /** Once an answer is sure to be seen, with inbound traffic stopped for good, the
      tunnel is given up at the first look at or past five minutes, whatever becomes
      of the probe sockets, and not before. */
  lemma GivesUpAtFirstLateTick(v: Watch, run: seq<Event>, t: Event)
    requires !v.relay && !v.gaveUp && SureOfAnswer(v) && Quiet(v, run) && Regular(v, run)
    requires t.Look? && t.down == v.last && t.now - v.lastSeen >= STALL_TIMEOUT
    ensures !After(v, run).gaveUp && After(v, run + [t]).gaveUp
  {
    LookNext(v, run, t);
    QuietKeepsWaiting(v, run);
  }

  /** A relay is given up at a look exactly when it has received bytes, inbound has
      been silent for five minutes, and outbound was seen to move within them. */
  lemma RelayGivesUpIff(w: Watch, run: seq<Event>, t: Event)
    requires w == Start(true, w.started) && !After(w, run).gaveUp && t.Look? && Regular(w, run + [t])
    ensures var since := t.now - 300_000_000_000;
      After(w, run + [t]).gaveUp <==>
        t.down > 0 && w.started <= since && Silent(run, since, t.down) && Moved(run + [t], since)
  {
    var v, since := After(w, run), t.now - STALL_TIMEOUT;
    LookNext(w, run, t);
    assert (run + [t])[..|run|] == run;
    FixedParts(w, run);
    if w.started <= since {
      InboundTracked(w, run, since);
      SilentDown(run, since, v.last, t.down);
      OutboundTracked(w, run, since);
    } else {
      InboundTracked(w, run, w.started);
    }
  }
}
