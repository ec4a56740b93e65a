/** Who asks the server for the tunnel's configuration (client/group.go, the
    configuration branch of client/session.go, the channel of client/main.go): the
    workers claim the request with a compare-and-swap and deliver the answer over a
    channel with one slot. One action below is one atomic step of one goroutine. */
module ConfigClaim {
  /** Where a worker is in its loop. A session that asks is `Asking`; afterwards it
      carries traffic; `Back` is between its end and the worker's bookkeeping. */
  datatype Worker =
    | Top
    | SawUnsent
    | Plain
    | Asking
    | Carrying(delivered: bool)
    | Back(delivered: bool)
    | Done

  /** How the server answered the request. */
  datatype Answer = Config | NothingYet | Failure | Refusal

  datatype Act =
    | Look                              // reads configSent
    | Claim                             // compare-and-swap of configRequestInFlight
    | Ask(raw: bool, answer: Answer)    // the request and, if it succeeded, the delivery
    | EndSession
    | Record                            // stores to one flag or the other
    | Quit                              // the context is over

  datatype Action =
    | At(i: nat, act: Act)
    | Receive                           // main's goroutine takes the configuration
    | GiveUpReceiving                   // ... or the context is over
    | CloseChannel                      // main, when every worker is done

  /** The shared variables: the group's two flags, the channel and its receiver.
      The last four fields record what the code must avoid. */
  datatype Shared = Shared(
    configSent: bool, requestInFlight: bool,
    slotFull: bool, receiving: bool, closed: bool,
    deliveries: nat, received: nat, tookDefault: bool, sentOnClosed: bool)

  /** `wants` tells the first group's workers from the others. */
  datatype State = State(workers: seq<Worker>, wants: seq<bool>, shared: Shared)

  ghost predicate Initial(s: State) {
    && |s.workers| == |s.wants|
    && (forall i :: 0 <= i < |s.workers| ==> s.workers[i] == Top)
    && s.shared == Shared(false, false, false, true, false, 0, 0, false, false)
  }

  // ---------- one step ----------

  /** Only a session in raw mode ends for want of a configuration; a refusal ends
      it in either mode. The session counts a configuration as delivered whichever
      branch the send takes. */
  function AfterAnswer(raw: bool, answer: Answer): Worker {
    match answer
    case Config => Carrying(true)
    case Refusal => Back(false)
    case NothingYet => if raw then Back(false) else Carrying(false)
    case Failure => if raw then Back(false) else Carrying(false)
  }

  /** Where one act takes a worker; an act that is not enabled takes it nowhere. */
  function WorkerAfter(w: Worker, wants: bool, m: Shared, act: Act): Worker {
    match (w, act)
    case (Top, Look) => if wants && !m.configSent then SawUnsent else Plain
    case (Top, Quit) => Done
    case (SawUnsent, Claim) => if m.requestInFlight then Plain else Asking
    case (Plain, EndSession) => Top
    case (Asking, Ask(raw, answer)) => AfterAnswer(raw, answer)
    case (Asking, EndSession) => Back(false)
    case (Carrying(delivered), EndSession) => Back(delivered)
    case (Back(_), Record) => Top
    case _ => w
  }

  /** A send that does not wait: into the free slot, or else the default branch. */
  function Deliver(m: Shared): (after: Shared)
    ensures !m.closed && m.slotFull ==> after.tookDefault
    ensures m.closed ==> after.sentOnClosed
  {
    if m.closed then m.(sentOnClosed := true)
    else if m.slotFull then m.(tookDefault := true)
    else m.(slotFull := true, deliveries := m.deliveries + 1)
  }

  function SharedAfter(w: Worker, m: Shared, act: Act): Shared {
    match (w, act)
    case (SawUnsent, Claim) => m.(requestInFlight := true)
    case (Asking, Ask(_, Config)) => Deliver(m)
    case (Back(delivered), Record) =>
      if delivered then m.(configSent := true) else m.(requestInFlight := false)
    case _ => m
  }

  ghost predicate AllDone(ws: seq<Worker>) { forall i :: 0 <= i < |ws| ==> ws[i] == Done }

  ghost function Step(s: State, a: Action): (t: State)
    requires |s.workers| == |s.wants|
    ensures |t.workers| == |s.workers| && t.wants == s.wants
  {
    var m := s.shared;
    match a
    case At(i, act) =>
      if i >= |s.workers| then s
      else State(s.workers[i := WorkerAfter(s.workers[i], s.wants[i], m, act)], s.wants,
                 SharedAfter(s.workers[i], m, act))
    case Receive =>
      if m.receiving && m.slotFull
      then s.(shared := m.(slotFull := false, receiving := false, received := m.received + 1))
      else s
    case GiveUpReceiving => s.(shared := m.(receiving := false))
    case CloseChannel => if AllDone(s.workers) then s.(shared := m.(closed := true)) else s
  }

  ghost function After(s: State, run: seq<Action>): (t: State)
    requires |s.workers| == |s.wants|
    ensures |t.workers| == |s.workers| && t.wants == s.wants
  {
    if run == [] then s else Step(After(s, run[..|run| - 1]), run[|run| - 1])
  }

  // ---------- the invariant ----------

  /** The worker owns the claim. */
  predicate Holds(w: Worker) { w == Asking || w.Carrying? || w.Back? }

  predicate HasDelivered(w: Worker) { (w.Carrying? || w.Back?) && w.delivered }

  /** Only worker `h` may own the claim. */
  predicate OtherThan(ws: seq<Worker>, h: nat, i: nat)
    requires i < |ws|
  {
    i != h ==> !Holds(ws[i])
  }

  /** `h` is the one owner of the claim, or there is none when `h` is past the end. */
  ghost predicate OwnedBy(ws: seq<Worker>, h: nat) {
    && (forall i: nat :: i < |ws| ==> OtherThan(ws, h, i))
    && h <= |ws|
    && (h < |ws| ==> Holds(ws[h]))
  }

  /** The claim is out exactly while some worker owns it or the configuration has
      been recorded as sent; the configuration was delivered exactly if the owner
      did it or it has been so recorded. */
  predicate FlagsAgree(m: Shared, owned: bool, delivered: bool) {
    && m.requestInFlight == (owned || m.configSent)
    && !(owned && m.configSent)
    && m.deliveries == (if m.configSent || delivered then 1 else 0)
    && m.deliveries == m.received + (if m.slotFull then 1 else 0)
    && !m.tookDefault && !m.sentOnClosed
  }

  ghost predicate ClaimKept(s: State, h: nat) {
    && |s.workers| == |s.wants|
    && OwnedBy(s.workers, h)
    && FlagsAgree(s.shared, h < |s.workers|, h < |s.workers| && HasDelivered(s.workers[h]))
    && (s.shared.closed ==> AllDone(s.workers))
  }

  ghost predicate Sound(s: State) { exists h: nat :: ClaimKept(s, h) }

  lemma InitialSound(s: State)
    requires Initial(s)
    ensures Sound(s)
  {
    assert ClaimKept(s, |s.workers|);
  }

  lemma OwnerAlone(ws: seq<Worker>, h: nat, i: nat)
    requires OwnedBy(ws, h) && i < |ws| && Holds(ws[i])
    ensures i == h
  {
    assert OtherThan(ws, h, i);
  }

  /** Claiming makes an owner, recording unmakes it. */
  lemma MoveKeepsOwner(ws: seq<Worker>, h: nat, i: nat, w: Worker, h': nat)
    requires OwnedBy(ws, h) && i < |ws|
    requires if Holds(w) then h' == i && (h == i || h == |ws|)
             else if h == i then h' == |ws| else h' == h
    ensures OwnedBy(ws[i := w], h')
  {
    var ws' := ws[i := w];
    forall k: nat | k < |ws|
      ensures OtherThan(ws', h', k)
    {
      assert OtherThan(ws, h, k);
    }
  }

  /** The owner after worker `i` has become `w`. */
  function OwnerAfter(n: nat, h: nat, i: nat, w: Worker): nat {
    if Holds(w) then i else if h == i then n else h
  }

  lemma OwnerStep(s: State, h: nat, i: nat, act: Act, w: Worker)
    requires ClaimKept(s, h) && i < |s.workers|
    requires w == WorkerAfter(s.workers[i], s.wants[i], s.shared, act)
    ensures OwnedBy(s.workers[i := w], OwnerAfter(|s.workers|, h, i, w))
  {
    if Holds(s.workers[i]) {
      OwnerAlone(s.workers, h, i);
    }
    MoveKeepsOwner(s.workers, h, i, w, OwnerAfter(|s.workers|, h, i, w));
  }

  lemma FlagsStep(s: State, h: nat, i: nat, act: Act, w: Worker, h': nat)
    requires ClaimKept(s, h) && i < |s.workers|
    requires w == WorkerAfter(s.workers[i], s.wants[i], s.shared, act) && h' == OwnerAfter(|s.workers|, h, i, w)
    ensures FlagsAgree(SharedAfter(s.workers[i], s.shared, act), h' < |s.workers|,
                       h' < |s.workers| && HasDelivered(s.workers[i := w][h']))
  {
    if Holds(s.workers[i]) {
      OwnerAlone(s.workers, h, i);
    }
    if s.shared.closed {
      assert s.workers[i] == Done;
    }
  }

  lemma ClosedStep(s: State, i: nat, act: Act)
    requires |s.workers| == |s.wants| && i < |s.workers|
    requires s.shared.closed ==> AllDone(s.workers)
    ensures var t := Step(s, At(i, act)); t.shared.closed ==> AllDone(t.workers)
  {
    if s.shared.closed {
      assert s.workers[i] == Done;
    }
  }

  lemma StepSound(s: State, a: Action)
    requires Sound(s)
    ensures Sound(Step(s, a))
  {
    var h: nat :| ClaimKept(s, h);
    if a.At? && a.i < |s.workers| {
      var w := WorkerAfter(s.workers[a.i], s.wants[a.i], s.shared, a.act);
      var h' := OwnerAfter(|s.workers|, h, a.i, w);
      OwnerStep(s, h, a.i, a.act, w);
      FlagsStep(s, h, a.i, a.act, w, h');
      ClosedStep(s, a.i, a.act);
      assert ClaimKept(Step(s, a), h');
    } else {
      assert ClaimKept(Step(s, a), h);
    }
  }

  lemma {:induction false} AlwaysSound(s: State, run: seq<Action>)
    requires Initial(s)
    ensures Sound(After(s, run))
  {
    if run == [] {
      InitialSound(s);
    } else {
      AlwaysSound(s, run[..|run| - 1]);
      StepSound(After(s, run[..|run| - 1]), run[|run| - 1]);
    }
  }

  // ---------- what the invariant says of every run ----------

  /** At most one session is asking at any time. */
  lemma OneAsks(s: State, run: seq<Action>, i: nat, j: nat)
    requires Initial(s) && i < |s.workers| && j < |s.workers|
    requires After(s, run).workers[i] == Asking && After(s, run).workers[j] == Asking
    ensures i == j
  {
    AlwaysSound(s, run);
    var h: nat :| ClaimKept(After(s, run), h);
    OwnerAlone(After(s, run).workers, h, i);
    OwnerAlone(After(s, run).workers, h, j);
  }

  /** The configuration is sent at most once per process; the branch for one that
      was already delivered is never taken, nothing is sent on the closed channel,
      and once it has been sent nobody asks again. */
  lemma SentAtMostOnce(s: State, run: seq<Action>)
    requires Initial(s)
    ensures var t := After(s, run).shared;
      && t.received <= t.deliveries <= 1
      && !t.tookDefault && !t.sentOnClosed
      && (t.deliveries == 1 ==> Asking !in After(s, run).workers)
  {
    AlwaysSound(s, run);
    var t := After(s, run);
    var h: nat :| ClaimKept(t, h);
    if t.shared.deliveries == 1 && Asking in t.workers {
      var i: nat :| i < |t.workers| && t.workers[i] == Asking;
      OwnerAlone(t.workers, h, i);
    }
  }

  /** The worker is on its way to ask, or has asked. */
  predicate Asks(w: Worker) { w == SawUnsent || Holds(w) }

  /** Only workers of the first group ever ask, and of those only ones that looked before
      the configuration was recorded as sent. */
  lemma {:induction false} OnlyWantingAsk(s: State, run: seq<Action>, i: nat)
    requires Initial(s) && i < |s.workers|
    ensures var t := After(s, run);
      && (Asks(t.workers[i]) ==> s.wants[i])
      && (t.workers[i] == Top ==> (Asks(Step(t, At(i, Look)).workers[i]) <==> s.wants[i] && !t.shared.configSent))
  {
    if run != [] {
      OnlyWantingAsk(s, run[..|run| - 1], i);
    }
  }

  /** A failed request never loses the claim: while nothing has been delivered it is
      either free or owned by a worker still in, or just out of, the session that
      took it. */
  lemma ClaimNeverLost(s: State, run: seq<Action>)
    requires Initial(s)
    ensures var t := After(s, run);
      t.shared.deliveries == 0 ==>
        (t.shared.requestInFlight <==> exists i: nat :: i < |t.workers| && Holds(t.workers[i]))
  {
    AlwaysSound(s, run);
    var t := After(s, run);
    var h: nat :| ClaimKept(t, h);
    if i: nat :| i < |t.workers| && Holds(t.workers[i]) {
      OwnerAlone(t.workers, h, i);
    }
  }

  /** Hence a worker whose session ended after a failed request leaves it to be made
      again: any worker of the group that looks next gets to ask. */
  lemma FailureIsRetried(s: State, run: seq<Action>, i: nat, j: nat)
    requires Initial(s) && i < |s.workers| && j < |s.workers|
    requires After(s, run).workers[i] == Back(false)
    requires s.wants[j] && (j == i || After(s, run).workers[j] == Top)
    ensures Step(Step(Step(After(s, run), At(i, Record)), At(j, Look)), At(j, Claim)).workers[j] == Asking
  {
    var t := After(s, run);
    AlwaysSound(s, run);
    var h: nat :| ClaimKept(t, h);
    OwnerAlone(t.workers, h, i);
  }

  // ---------- a request in vain ----------

  /** When a failed answer lets go of the claim: exactly if it ends the session, in raw
      mode or by a refusal, does the worker's next bookkeeping free it. */
  lemma VainAskFreesIff(s: State, i: nat, raw: bool, answer: Answer)
    requires |s.workers| == |s.wants| && i < |s.workers|
    requires s.workers[i] == Asking && s.shared.requestInFlight && answer != Config
    ensures var t := Step(Step(s, At(i, Ask(raw, answer))), At(i, Record));
      (t.workers[i] == Top && !t.shared.requestInFlight) <==> raw || answer == Refusal
  {
  }

  /** In the other mode a request can fail while its session goes on: a worker that
      looks, claims and gets no configuration carries on with the claim. */
  lemma VainAskCarriesOn(s: State, i: nat, answer: Answer)
    requires Initial(s) && i < |s.workers| && s.wants[i] && (answer == Failure || answer == NothingYet)
    ensures var t := After(s, [At(i, Look), At(i, Claim), At(i, Ask(false, answer))]);
      t.workers[i] == Carrying(false) && t.shared.requestInFlight && t.shared.deliveries == 0
  {
    var run := [At(i, Look), At(i, Claim), At(i, Ask(false, answer))];
    assert run[..2] == [At(i, Look), At(i, Claim)] && run[..2][..1] == [At(i, Look)] && run[..1][..0] == [];
    var one := Step(s, At(i, Look));
    assert After(s, run[..1]) == one;
    var two := Step(one, At(i, Claim));
    assert After(s, run[..2]) == two;
  }

  lemma AfterSnoc(s: State, run: seq<Action>, last: Action, all: seq<Action>)
    requires |s.workers| == |s.wants| && all == run + [last]
    ensures After(s, all) == Step(After(s, run), last)
  {
    assert all[..|all| - 1] == run;
  }

  lemma AfterOneMore(s: State, part: seq<Action>, u: State, front: seq<Action>, last: Action, all: seq<Action>,
                     more: seq<Action>)
    requires |s.workers| == |s.wants| && |u.workers| == |u.wants| && After(s, part) == After(u, front)
    requires all == part + [last] && more == front + [last]
    ensures After(s, all) == After(u, more)
  {
    AfterSnoc(s, part, last, all);
    AfterSnoc(u, front, last, more);
  }

  lemma {:induction false} AfterBoth(s: State, run: seq<Action>, more: seq<Action>, all: seq<Action>)
    requires |s.workers| == |s.wants| && all == run + more
    ensures After(s, all) == After(After(s, run), more)
    decreases |more|
  {
    if more == [] {
      assert all == run;
    } else {
      var front, last, part := more[..|more| - 1], more[|more| - 1], all[..|all| - 1];
      assert part == run + front;
      AfterBoth(s, run, front, part);
      assert all == part + [last];
      AfterOneMore(s, part, After(s, run), front, last, all, more);
    }
  }

  /** Nobody's action ends the session of worker `i`. */
  predicate LeavesBe(run: seq<Action>, i: nat) { At(i, EndSession) !in run }

  lemma {:induction false} StaysCarrying(t: State, more: seq<Action>, i: nat)
    requires |t.workers| == |t.wants| && i < |t.workers| && t.workers[i] == Carrying(false) && LeavesBe(more, i)
    ensures After(t, more).workers[i] == Carrying(false)
  {
    if more != [] {
      StaysCarrying(t, more[..|more| - 1], i);
    }
  }

  /** For as long as such a session lasts the claim stays with it: nothing is
      delivered, and nobody asks, it included. */
  lemma VainClaimIsHeld(s: State, run: seq<Action>, i: nat, more: seq<Action>)
    requires Initial(s) && i < |s.workers| && After(s, run).workers[i] == Carrying(false) && LeavesBe(more, i)
    ensures var t := After(After(s, run), more);
      && t.workers[i] == Carrying(false) && t.shared.requestInFlight
      && t.shared.deliveries == 0 && Asking !in t.workers
  {
    StaysCarrying(After(s, run), more, i);
    AfterBoth(s, run, more, run + more);
    AlwaysSound(s, run + more);
    var t := After(s, run + more);
    var h: nat :| ClaimKept(t, h);
    OwnerAlone(t.workers, h, i);
    if Asking in t.workers {
      var j: nat :| j < |t.workers| && t.workers[j] == Asking;
      OwnerAlone(t.workers, h, j);
    }
  }

  // ---------- somebody can always deliver ----------

  /** How the owner of a claim gives it back: by the end of its session. */
  function LettingGo(w: Worker, h: nat): seq<Action> {
    if w.Back? then [At(h, Record)] else [At(h, EndSession), At(h, Record)]
  }

  lemma AfterOne(t: State, a: Action)
    requires |t.workers| == |t.wants|
    ensures After(t, [a]) == Step(t, a)
  {
    assert [a][..0] == [] && After(t, []) == t;
  }

  lemma AfterTwo(t: State, a: Action, b: Action)
    requires |t.workers| == |t.wants|
    ensures After(t, [a, b]) == Step(Step(t, a), b)
  {
    assert [a, b] == [a] + [b];
    AfterBoth(t, [a], [b], [a] + [b]);
    AfterOne(t, a);
    AfterOne(Step(t, a), b);
  }

  predicate Freed(t: State, u: State, h: nat)
    requires h < |t.workers|
  {
    u == State(t.workers[h := Top], t.wants, t.shared.(requestInFlight := false))
  }

  lemma BackLetsGo(t: State, h: nat)
    requires |t.workers| == |t.wants| && h < |t.workers| && t.workers[h] == Back(false)
    ensures Freed(t, Step(t, At(h, Record)), h)
  {
  }

  lemma SessionEnds(t: State, h: nat)
    requires |t.workers| == |t.wants| && h < |t.workers|
    requires t.workers[h] == Asking || t.workers[h] == Carrying(false)
    ensures Step(t, At(h, EndSession)) == State(t.workers[h := Back(false)], t.wants, t.shared)
  {
  }

  lemma OwnerLetsGo(t: State, h: nat)
    requires |t.workers| == |t.wants| && h < |t.workers|
    requires Holds(t.workers[h]) && !HasDelivered(t.workers[h])
    ensures Freed(t, After(t, LettingGo(t.workers[h], h)), h)
  {
    if t.workers[h].Back? {
      BackLetsGo(t, h);
      AfterOne(t, At(h, Record));
    } else {
      SessionEnds(t, h);
      var u := Step(t, At(h, EndSession));
      BackLetsGo(u, h);
      AfterTwo(t, At(h, EndSession), At(h, Record));
      assert u.workers[h := Top] == t.workers[h := Top];
    }
  }

  /** A worker that wants the configuration and finds the claim free delivers it. */
  lemma DeliversFrom(u: State, j: nat) returns (run: seq<Action>)
    requires |u.workers| == |u.wants| && j < |u.workers| && u.wants[j]
    requires u.workers[j] == Top || u.workers[j] == Plain || u.workers[j] == SawUnsent
    requires !u.shared.requestInFlight && !u.shared.configSent && !u.shared.closed && !u.shared.slotFull
    ensures After(u, run).shared.deliveries == u.shared.deliveries + 1
    decreases if u.workers[j] == Plain then 1 else 0
  {
    var ask := [At(j, Claim), At(j, Ask(true, Config))];
    if u.workers[j] == SawUnsent {
      run := ask;
      AfterTwo(u, At(j, Claim), At(j, Ask(true, Config)));
    } else if u.workers[j] == Top {
      run := [At(j, Look)] + ask;
      var v := Step(u, At(j, Look));
      AfterOne(u, At(j, Look));
      AfterTwo(v, At(j, Claim), At(j, Ask(true, Config)));
      AfterBoth(u, [At(j, Look)], ask, [At(j, Look)] + ask);
    } else {
      var v := Step(u, At(j, EndSession));
      var rest := DeliversFrom(v, j);
      AfterOne(u, At(j, EndSession));
      run := [At(j, EndSession)] + rest;
      AfterBoth(u, [At(j, EndSession)], rest, [At(j, EndSession)] + rest);
    }
  }

  /** While nothing is delivered and some worker of the first group is not done, some
      continuation delivers: the claim can never get stuck for good. */
  lemma CanStillDeliver(s: State, run: seq<Action>, j: nat) returns (more: seq<Action>)
    requires Initial(s) && j < |s.workers| && s.wants[j]
    requires After(s, run).shared.deliveries == 0 && After(s, run).workers[j] != Done
    ensures After(After(s, run), more).shared.deliveries == 1
  {
    var t := After(s, run);
    AlwaysSound(s, run);
    var h: nat :| ClaimKept(t, h);
    if h == |t.workers| {
      if Holds(t.workers[j]) {
        OwnerAlone(t.workers, h, j);
      }
      more := DeliversFrom(t, j);
    } else {
      var first := LettingGo(t.workers[h], h);
      OwnerLetsGo(t, h);
      if Holds(t.workers[j]) {
        OwnerAlone(t.workers, h, j);
      }
      var rest := DeliversFrom(After(t, first), j);
      more := first + rest;
      AfterBoth(t, first, rest, first + rest);
    }
  }
}
