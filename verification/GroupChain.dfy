/** The chain of worker groups (client/main.go builds it, client/group.go runs it):
    each group starts once the one before it has handed over or ended. */
module GroupChain {
  import opened Wrappers

  const WORKERS_PER_GROUP := 9

  /** What a group is started with. Channels are numbered in the order they are made. */
  datatype Plan = Plan(id: nat, hashIndex: nat, first: bool, workerIds: seq<nat>,
                       wait: Option<nat>, signal: Option<nat>)

  // ---------- building the chain ----------

  function Range(start: nat, n: nat): (r: seq<nat>)
    ensures |r| == n
  {
    seq(n, i requires 0 <= i < n => start + i)
  }

  function AllIds(plans: seq<Plan>): seq<nat> {
    if plans == [] then [] else AllIds(plans[..|plans| - 1]) + plans[|plans| - 1].workerIds
  }

  /** Group `g` of `n` waits on the channel of its predecessor and signals on its
      own; the ends of the chain have only one of the two. All groups but the last are
      full. */
  predicate WiredAt(p: Plan, g: nat, n: nat) {
    && p.wait == (if g == 0 then None else Some(g - 1))
    && p.signal == (if g + 1 < n then Some(g) else None)
    && p.id == g + 1 && p.hashIndex == g && (p.first <==> g == 0)
    && 1 <= |p.workerIds| <= 9 && (g + 1 < n ==> |p.workerIds| == 9)
  }

  ghost predicate Wired(plans: seq<Plan>, n: nat) {
    forall g: nat :: g < |plans| ==> WiredAt(plans[g], g, n)
  }

  method NumberWorkers(counter: nat, groupSize: nat) returns (ids: seq<nat>, next: nat)
    ensures ids == Range(counter, groupSize) && next == counter + groupSize
  {
    ids, next := [], counter;
    while |ids| < groupSize
      invariant |ids| <= groupSize && next == counter + |ids|
      invariant ids == Range(counter, |ids|)
    {
      ids := ids + [next];
      next := next + 1;
    }
  }

  /** The workers are numbered from 1 without gaps across the groups, no group is
      empty, and every group waits on exactly the channel its predecessor signals. */
  method BuildChain(numW: nat) returns (plans: seq<Plan>)
    ensures |plans| == (numW + 8) / 9
    ensures Wired(plans, |plans|)
    ensures AllIds(plans) == Range(1, numW)
  {
    var numGroups := (numW + WORKERS_PER_GROUP - 1) / WORKERS_PER_GROUP;
    var workerIdCounter, channels, prevWaitReady: Option<nat> := 1, 0, None;
    plans := [];
    for g := 0 to numGroups
      invariant |plans| == g
      invariant Wired(plans, numGroups)
      invariant channels == if g < numGroups then g else if g == 0 then 0 else g - 1
      invariant g > 0 && g < numGroups ==> prevWaitReady == Some(g - 1)
      invariant workerIdCounter == 1 + if g * WORKERS_PER_GROUP < numW then g * WORKERS_PER_GROUP else numW
      invariant AllIds(plans) == Range(1, workerIdCounter - 1)
    {
      var myWaitReady: Option<nat>, mySignalReady: Option<nat> := None, None;
      if g > 0 {
        myWaitReady := prevWaitReady;
      }
      if g < numGroups - 1 {
        var ch := channels;
        channels := channels + 1;
        mySignalReady := Some(ch);
        prevWaitReady := Some(ch);
      }
      var startIdx := g * WORKERS_PER_GROUP;
      var endIdx := startIdx + WORKERS_PER_GROUP;
      if endIdx > numW {
        endIdx := numW;
      }
      var groupSize := endIdx - startIdx;
      if groupSize <= 0 {
        continue;
      }
      ghost var firstId := workerIdCounter;
      var ids;
      ids, workerIdCounter := NumberWorkers(workerIdCounter, groupSize);
      var p := Plan(g + 1, g, g == 0, ids, myWaitReady, mySignalReady);
      assert (plans + [p])[..g] == plans;
      assert Range(1, firstId - 1) + ids == Range(1, workerIdCounter - 1);
      plans := plans + [p];
    }
  }

  // ---------- running it ----------

  /** Where a group is: waiting for its turn, paused, fetching credentials, running
      its workers, on its way out, gone. */
  datatype Phase = Waiting | Dozing | Fetching | Running | Leaving | Ended

  /** `timer` is the goroutine that hands over some time after the credentials came;
      `handedOver` is the once-only guard. */
  datatype Group = Group(phase: Phase, timer: bool, handedOver: bool)

  datatype Act =
    | Begin             // the predecessor's signal arrives
    | Wake              // not paused
    | FetchDone
    | FetchAgain        // a passing failure
    | FetchFatal
    | TimerFires
    | WorkersFinish
    | Leave             // the deferred hand-over, and the end
    | Notice            // the context is over

  datatype Action = At(g: nat, act: Act) | Cancel

  /** `closes` counts how often each group's signal channel was closed. */
  datatype State = State(groups: seq<Group>, closes: seq<nat>, cancelled: bool)

  predicate Initial(s: State) {
    && |s.closes| == |s.groups| && !s.cancelled
    && (forall g :: 0 <= g < |s.groups| ==> s.groups[g] == Group(Waiting, false, false) && s.closes[g] == 0)
  }

  /** Whether a group that hands over now closes its channel. */
  predicate Closes(p: Group, signals: bool, act: Act) {
    && signals && !p.handedOver
    && ((act == TimerFires && p.timer) || (act == Leave && p.phase == Leaving))
  }

  function PhaseAfter(phase: Phase, gate: bool, cancelled: bool, act: Act): Phase {
    match (phase, act)
    case (Waiting, Begin) => if gate then Dozing else Waiting
    case (Waiting, Notice) => if cancelled then Ended else Waiting
    case (Dozing, Wake) => Fetching
    case (Dozing, Notice) => if cancelled then Ended else Dozing
    case (Fetching, FetchDone) => Running
    case (Fetching, FetchFatal) => Leaving
    case (Fetching, Notice) => if cancelled then Leaving else Fetching
    case (Running, WorkersFinish) => Leaving
    case (Leaving, Leave) => Ended
    case _ => phase
  }

  function GroupAfter(p: Group, gate: bool, signals: bool, cancelled: bool, act: Act): Group {
    Group(PhaseAfter(p.phase, gate, cancelled, act),
          (p.timer && act != TimerFires) || (signals && p.phase == Fetching && act == FetchDone),
          p.handedOver || Closes(p, signals, act))
  }

  /** The channel a group waits on, if any, is closed. */
  predicate Gate(plans: seq<Plan>, closes: seq<nat>, g: nat)
    requires g < |plans|
  {
    plans[g].wait.None? || (plans[g].wait.value < |closes| && closes[plans[g].wait.value] > 0)
  }

  function Step(plans: seq<Plan>, s: State, a: Action): (t: State)
    requires |plans| == |s.groups| == |s.closes|
    ensures |t.groups| == |t.closes| == |plans|
  {
    if a.Cancel? then s.(cancelled := true)
    else if a.g >= |s.groups| then s
    else
      var g, p, signal := a.g, s.groups[a.g], plans[a.g].signal;
      var groups := s.groups[g := GroupAfter(p, Gate(plans, s.closes, g), signal.Some?, s.cancelled, a.act)];
      if Closes(p, signal.Some?, a.act) && signal.value < |s.closes|
      then State(groups, s.closes[signal.value := s.closes[signal.value] + 1], s.cancelled)
      else State(groups, s.closes, s.cancelled)
  }

  function After(plans: seq<Plan>, s: State, run: seq<Action>): (t: State)
    requires |plans| == |s.groups| == |s.closes|
    ensures |t.groups| == |t.closes| == |plans|
  {
    if run == [] then s else Step(plans, After(plans, s, run[..|run| - 1]), run[|run| - 1])
  }

  // ---------- the invariant ----------

  predicate Started(phase: Phase) { phase == Dozing || phase == Fetching || phase == Running || phase == Leaving }

  predicate PastFetching(phase: Phase) { phase == Running || phase == Leaving || phase == Ended }

  /** `gate` says whether the predecessor's channel is closed, `last` whether there
      is no successor. */
  predicate GroupSound(p: Group, closes: nat, gate: bool, last: bool, cancelled: bool) {
    && closes == (if p.handedOver then 1 else 0)
    && (p.handedOver || p.timer ==> PastFetching(p.phase) && !last && gate)
    && (Started(p.phase) ==> gate)
    && (p.phase == Ended && !cancelled ==> gate && (p.handedOver || last))
  }

  predicate Open(s: State, g: nat)
    requires g < |s.closes|
  {
    g == 0 || s.closes[g - 1] > 0
  }

  predicate SoundAt(s: State, g: nat)
    requires g < |s.groups| == |s.closes|
  {
    GroupSound(s.groups[g], s.closes[g], Open(s, g), g + 1 == |s.groups|, s.cancelled)
  }

  ghost predicate Sound(plans: seq<Plan>, s: State) {
    && |plans| == |s.groups| == |s.closes|
    && Wired(plans, |plans|)
    && forall g: nat :: g < |s.groups| ==> SoundAt(s, g)
  }

  lemma GroupStep(p: Group, closes: nat, gate: bool, last: bool, cancelled: bool, act: Act)
    requires GroupSound(p, closes, gate, last, cancelled)
    ensures GroupSound(GroupAfter(p, gate, !last, cancelled, act),
                       closes + (if Closes(p, !last, act) then 1 else 0), gate, last, cancelled)
  {
  }

  /** A closed gate never shuts, and a cancelled context stays so. */
  lemma GroupSoundLater(p: Group, closes: nat, gate: bool, gate': bool, last: bool, cancelled: bool, cancelled': bool)
    requires GroupSound(p, closes, gate, last, cancelled) && (gate ==> gate') && (cancelled ==> cancelled')
    ensures GroupSound(p, closes, gate', last, cancelled')
  {
  }

  lemma StepKeepsGroup(plans: seq<Plan>, s: State, a: Action, k: nat)
    requires Sound(plans, s) && k < |plans|
    ensures SoundAt(Step(plans, s, a), k)
  {
    var t := Step(plans, s, a);
    assert SoundAt(s, k);
    if a.At? && a.g < |plans| {
      assert WiredAt(plans[a.g], a.g, |plans|);
      if k == a.g {
        GroupStep(s.groups[k], s.closes[k], Open(s, k), k + 1 == |plans|, s.cancelled, a.act);
      } else {
        GroupSoundLater(s.groups[k], s.closes[k], Open(s, k), Open(t, k), k + 1 == |plans|, s.cancelled, s.cancelled);
      }
    }
  }

  lemma {:induction false} AlwaysSound(plans: seq<Plan>, s: State, run: seq<Action>)
    requires Initial(s) && |plans| == |s.groups| && Wired(plans, |plans|)
    ensures Sound(plans, After(plans, s, run))
  {
    if run == [] {
      assert forall g: nat :: g < |s.groups| ==> SoundAt(s, g);
    } else {
      var u := After(plans, s, run[..|run| - 1]);
      AlwaysSound(plans, s, run[..|run| - 1]);
      var t := Step(plans, u, run[|run| - 1]);
      forall g: nat | g < |plans|
        ensures SoundAt(t, g)
      {
        StepKeepsGroup(plans, u, run[|run| - 1], g);
      }
    }
  }

  // ---------- what it says of every run ----------

  /** No signal channel is closed twice, and a group that has returned while the
      context is alive has released its successor. */
  lemma ReleasedExactlyOnce(plans: seq<Plan>, s: State, run: seq<Action>, g: nat)
    requires Initial(s) && |plans| == |s.groups| && Wired(plans, |plans|) && g < |plans|
    ensures var t := After(plans, s, run);
      && t.closes[g] <= 1
      && (g + 1 < |plans| && t.groups[g].phase == Ended && !t.cancelled ==> t.closes[g] == 1)
  {
    AlwaysSound(plans, s, run);
    assert SoundAt(After(plans, s, run), g);
  }

  lemma {:induction false} OpenedInTurn(plans: seq<Plan>, t: State, i: nat, j: nat)
    requires Sound(plans, t) && i < j < |plans| && Open(t, j)
    ensures t.closes[i] == 1 && PastFetching(t.groups[i].phase)
  {
    assert SoundAt(t, j - 1);
    if i < j - 1 {
      OpenedInTurn(plans, t, i, j - 1);
    }
  }

  /** A group fetches its first credentials only after every group before it has
      handed over or ended, so no two groups are at their first fetch at once. What a
      running group later does to renew its credentials is not part of the chain. */
  lemma FetchesInTurn(plans: seq<Plan>, s: State, run: seq<Action>, i: nat, j: nat)
    requires Initial(s) && |plans| == |s.groups| && Wired(plans, |plans|) && i < j < |plans|
    requires After(plans, s, run).groups[j].phase == Fetching
    ensures var t := After(plans, s, run);
      t.closes[i] == 1 && PastFetching(t.groups[i].phase)
  {
    AlwaysSound(plans, s, run);
    assert SoundAt(After(plans, s, run), j);
    OpenedInTurn(plans, After(plans, s, run), i, j);
  }

  // ---------- no deadlock ----------

  ghost predicate EndedBefore(s: State, g: nat) {
    forall k :: 0 <= k < g && k < |s.groups| ==> s.groups[k].phase == Ended
  }

  ghost predicate NoCancel(run: seq<Action>) { forall k :: 0 <= k < |run| ==> run[k].At? }

  /** What group `g` can do next without any help. */
  function NextAct(phase: Phase, cancelled: bool): Act {
    match phase
    case Waiting => if cancelled then Notice else Begin
    case Dozing => Wake
    case Fetching => FetchDone
    case Running => WorkersFinish
    case Leaving => Leave
    case Ended => Leave
  }

  function Remaining(phase: Phase): nat {
    match phase
    case Waiting => 5
    case Dozing => 4
    case Fetching => 3
    case Running => 2
    case Leaving => 1
    case Ended => 0
  }

  /** The first group that has not ended can always move on. */
  lemma FirstCanMove(plans: seq<Plan>, s: State, g: nat)
    requires Sound(plans, s) && g < |plans| && EndedBefore(s, g) && s.groups[g].phase != Ended
    ensures var t := Step(plans, s, At(g, NextAct(s.groups[g].phase, s.cancelled)));
      && Sound(plans, t) && EndedBefore(t, g)
      && Remaining(t.groups[g].phase) < Remaining(s.groups[g].phase)
  {
    var a := At(g, NextAct(s.groups[g].phase, s.cancelled));
    var t := Step(plans, s, a);
    assert SoundAt(s, g) && WiredAt(plans[g], g, |plans|);
    if g > 0 {
      assert SoundAt(s, g - 1);
    }
    forall k: nat | k < |plans|
      ensures SoundAt(t, k)
    {
      StepKeepsGroup(plans, s, a, k);
    }
  }

  lemma {:induction false} AfterFirst(plans: seq<Plan>, s: State, a: Action, rest: seq<Action>)
    requires |plans| == |s.groups| == |s.closes|
    ensures After(plans, s, [a] + rest) == After(plans, Step(plans, s, a), rest)
  {
    if rest == [] {
      assert [a] + rest == [a] && [a][..0] == [];
      assert After(plans, s, []) == s;
    } else {
      var init := rest[..|rest| - 1];
      AfterFirst(plans, s, a, init);
      assert ([a] + rest)[..|rest|] == [a] + init;
    }
  }

  lemma FinishFrom(plans: seq<Plan>, s: State, g: nat) returns (run: seq<Action>)
    requires Sound(plans, s) && g <= |plans| && EndedBefore(s, g)
    ensures NoCancel(run) && EndedBefore(After(plans, s, run), |plans|)
    decreases |plans| - g, if g < |plans| then Remaining(s.groups[g].phase) else 0
  {
    if g == |plans| {
      run := [];
    } else if s.groups[g].phase == Ended {
      run := FinishFrom(plans, s, g + 1);
    } else {
      var a := At(g, NextAct(s.groups[g].phase, s.cancelled));
      FirstCanMove(plans, s, g);
      var rest := FinishFrom(plans, Step(plans, s, a), g);
      AfterFirst(plans, s, a, rest);
      run := [a] + rest;
    }
  }

  /** The chain cannot deadlock: from every reachable state some continuation,
      without a cancellation, brings every group to its end. */
  lemma NeverStuck(plans: seq<Plan>, s: State, run: seq<Action>)
    requires Initial(s) && |plans| == |s.groups| && Wired(plans, |plans|)
    ensures exists more :: NoCancel(more) && EndedBefore(After(plans, After(plans, s, run), more), |plans|)
  {
    AlwaysSound(plans, s, run);
    var more := FinishFrom(plans, After(plans, s, run), 0);
  }

  // ---------- groups run side by side ----------

  /** A group whose credentials come hands over when its timer fires, while its workers
      run: then its successor's gate is open. */
  lemma HandsOverRunning(plans: seq<Plan>, s: State, run: seq<Action>, g: nat)
    requires Initial(s) && |plans| == |s.groups| && Wired(plans, |plans|) && g + 1 < |plans|
    requires After(plans, s, run).groups[g].phase == Fetching
    ensures var t := After(plans, s, run + [At(g, FetchDone), At(g, TimerFires)]);
      t.groups[g].phase == Running && t.closes[g] == 1 && Gate(plans, t.closes, g + 1)
  {
    var u := After(plans, s, run);
    AlwaysSound(plans, s, run);
    assert SoundAt(u, g) && WiredAt(plans[g], g, |plans|) && WiredAt(plans[g + 1], g + 1, |plans|);
    AfterTwo(plans, s, run, At(g, FetchDone), At(g, TimerFires));
  }

  lemma AfterLast(plans: seq<Plan>, s: State, run: seq<Action>, a: Action)
    requires |plans| == |s.groups| == |s.closes|
    ensures After(plans, s, run + [a]) == Step(plans, After(plans, s, run), a)
  {
    assert (run + [a])[..|run|] == run;
  }

  lemma AfterTwo(plans: seq<Plan>, s: State, run: seq<Action>, a: Action, b: Action)
    requires |plans| == |s.groups| == |s.closes|
    ensures After(plans, s, run + [a, b]) == Step(plans, Step(plans, After(plans, s, run), a), b)
  {
    assert run + [a, b] == (run + [a]) + [b];
    AfterLast(plans, s, run, a);
    AfterLast(plans, s, run + [a], b);
  }

  /** The first `g` groups run and have handed over; the others wait. */
  predicate RunningUpTo(s: State, g: nat) {
    && |s.closes| == |s.groups| && !s.cancelled
    && forall k: nat :: k < |s.groups| ==> RunsOrWaits(s, g, k)
  }

  predicate RunsOrWaits(s: State, g: nat, k: nat)
    requires k < |s.groups| == |s.closes|
  {
    if k < g then s.groups[k].phase == Running && (k + 1 < |s.groups| ==> s.closes[k] > 0)
    else s.groups[k] == Group(Waiting, false, false)
  }

  /** A group's way from its gate to its hand-over. */
  function Way(g: nat): seq<Action> { [At(g, Begin), At(g, Wake), At(g, FetchDone), At(g, TimerFires)] }

  lemma OneOnTheWay(plans: seq<Plan>, s: State, g: nat, u: State)
    requires |plans| == |s.groups| == |s.closes| && g < |plans| && WiredAt(plans[g], g, |plans|) && !s.cancelled
    requires s.groups[g] == Group(Waiting, false, false) && Gate(plans, s.closes, g)
    requires u == s.(groups := s.groups[g := Group(Fetching, false, false)])
    ensures After(plans, s, [At(g, Begin), At(g, Wake)]) == u
  {
    AfterTwo(plans, s, [], At(g, Begin), At(g, Wake));
    assert [] + [At(g, Begin), At(g, Wake)] == [At(g, Begin), At(g, Wake)];
  }

  lemma OneHandsOver(plans: seq<Plan>, u: State, g: nat, t: State)
    requires |plans| == |u.groups| == |u.closes| && g < |plans| && WiredAt(plans[g], g, |plans|) && !u.cancelled
    requires u.groups[g] == Group(Fetching, false, false)
    requires t == State(u.groups[g := Group(Running, false, g + 1 < |plans|)],
                        if g + 1 < |plans| then u.closes[g := u.closes[g] + 1] else u.closes, false)
    ensures Step(plans, Step(plans, u, At(g, FetchDone)), At(g, TimerFires)) == t
  {
  }

  lemma WayTaken(plans: seq<Plan>, s: State, g: nat) returns (t: State)
    requires |plans| == |s.groups| == |s.closes| && g < |plans| && WiredAt(plans[g], g, |plans|) && !s.cancelled
    requires s.groups[g] == Group(Waiting, false, false) && Gate(plans, s.closes, g)
    ensures t == After(plans, s, Way(g))
    ensures t == State(s.groups[g := Group(Running, false, g + 1 < |plans|)],
                       if g + 1 < |plans| then s.closes[g := s.closes[g] + 1] else s.closes, false)
  {
    var u := s.(groups := s.groups[g := Group(Fetching, false, false)]);
    t := State(s.groups[g := Group(Running, false, g + 1 < |plans|)],
               if g + 1 < |plans| then s.closes[g := s.closes[g] + 1] else s.closes, false);
    OneOnTheWay(plans, s, g, u);
    AfterTwo(plans, s, [At(g, Begin), At(g, Wake)], At(g, FetchDone), At(g, TimerFires));
    assert [At(g, Begin), At(g, Wake)] + [At(g, FetchDone), At(g, TimerFires)] == Way(g);
    OneHandsOver(plans, u, g, t);
  }

  lemma GroupStarts(plans: seq<Plan>, s: State, g: nat)
    requires |plans| == |s.groups| && Wired(plans, |plans|) && g < |plans| && RunningUpTo(s, g)
    ensures RunningUpTo(After(plans, s, Way(g)), g + 1)
  {
    assert RunsOrWaits(s, g, g) && WiredAt(plans[g], g, |plans|) && (g > 0 ==> RunsOrWaits(s, g, g - 1));
    var h := g + 1;
    var t := WayTaken(plans, s, g);
    forall k: nat | k < |t.groups|
      ensures RunsOrWaits(t, h, k)
    {
      assert RunsOrWaits(s, g, k);
    }
  }

  lemma {:induction false} AfterBoth(plans: seq<Plan>, s: State, run: seq<Action>, more: seq<Action>)
    requires |plans| == |s.groups| == |s.closes|
    ensures After(plans, s, run + more) == After(plans, After(plans, s, run), more)
  {
    if more == [] {
      assert run + more == run;
    } else {
      var front, last := more[..|more| - 1], more[|more| - 1];
      assert more == front + [last] && run + more == (run + front) + [last];
      AfterBoth(plans, s, run, front);
      AfterLast(plans, s, run + front, last);
      AfterLast(plans, After(plans, s, run), front, last);
    }
  }

  lemma {:induction false} StartUpTo(plans: seq<Plan>, s: State, g: nat) returns (run: seq<Action>)
    requires Initial(s) && |plans| == |s.groups| && Wired(plans, |plans|) && g <= |plans|
    ensures NoCancel(run) && RunningUpTo(After(plans, s, run), g)
  {
    if g == 0 {
      run := [];
      forall k: nat | k < |s.groups|
        ensures RunsOrWaits(s, 0, k)
      {
      }
    } else {
      var before := StartUpTo(plans, s, g - 1);
      GroupStarts(plans, After(plans, s, before), g - 1);
      AfterBoth(plans, s, before, Way(g - 1));
      run := before + Way(g - 1);
    }
  }

  ghost predicate AllRunning(t: State) { forall g :: 0 <= g < |t.groups| ==> t.groups[g].phase == Running }

  /** All groups can run at once: a hand-over does not wait for workers to finish. */
  lemma AllRunAtOnce(plans: seq<Plan>, s: State)
    requires Initial(s) && |plans| == |s.groups| && Wired(plans, |plans|)
    ensures exists run :: NoCancel(run) && AllRunning(After(plans, s, run))
  {
    var run := StartUpTo(plans, s, |plans|);
    var t := After(plans, s, run);
    forall g | 0 <= g < |t.groups|
      ensures t.groups[g].phase == Running
    {
      assert RunsOrWaits(t, |plans|, g);
    }
  }

  // ---------- the way out ----------

  /** What a group does once the context is over: it notices, waits for its workers, or
      leaves; it need not be woken, and fetches nothing more. */
  function OutAct(phase: Phase): Act {
    match phase
    case Running => WorkersFinish
    case Leaving => Leave
    case _ => Notice
  }

  function OutSteps(phase: Phase): nat {
    match phase
    case Running => 2
    case Fetching => 2
    case Ended => 0
    case _ => 1
  }

  ghost predicate OnlyOut(run: seq<Action>) {
    forall k :: 0 <= k < |run| ==> run[k].At? && run[k].act in {Notice, WorkersFinish, Leave}
  }

  /** The group has asked for its credentials, and if it has ended, it has handed over. */
  predicate WillHandOver(s: State, g: nat)
    requires g < |s.groups| == |s.closes|
  {
    match s.groups[g].phase
    case Waiting => false
    case Dozing => false
    case Ended => g + 1 < |s.groups| ==> s.closes[g] == 1
    case _ => true
  }

  lemma OutStep(plans: seq<Plan>, s: State, g: nat) returns (t: State)
    requires Sound(plans, s) && s.cancelled && g < |plans| && s.groups[g].phase != Ended
    ensures t == Step(plans, s, At(g, OutAct(s.groups[g].phase)))
    ensures Sound(plans, t) && t.cancelled && OutSteps(t.groups[g].phase) < OutSteps(s.groups[g].phase)
    ensures forall k: nat :: k < |plans| && k != g ==> t.groups[k] == s.groups[k] && t.closes[k] == s.closes[k]
    ensures WillHandOver(s, g) ==> WillHandOver(t, g)
  {
    var a := At(g, OutAct(s.groups[g].phase));
    t := Step(plans, s, a);
    assert SoundAt(s, g) && WiredAt(plans[g], g, |plans|);
    forall k: nat | k < |plans|
      ensures SoundAt(t, k)
    {
      StepKeepsGroup(plans, s, a, k);
    }
    assert SoundAt(t, g);
  }

  lemma OutFrom(plans: seq<Plan>, s: State, g: nat) returns (run: seq<Action>)
    requires Sound(plans, s) && s.cancelled && g <= |plans| && EndedBefore(s, g)
    ensures OnlyOut(run) && EndedBefore(After(plans, s, run), |plans|)
    ensures forall k: nat :: k < |plans| && WillHandOver(s, k) ==> WillHandOver(After(plans, s, run), k)
    decreases |plans| - g, if g < |plans| then OutSteps(s.groups[g].phase) else 0
  {
    if g == |plans| {
      run := [];
    } else if s.groups[g].phase == Ended {
      run := OutFrom(plans, s, g + 1);
    } else {
      var a := At(g, OutAct(s.groups[g].phase));
      var t := OutStep(plans, s, g);
      var rest := OutFrom(plans, t, g);
      AfterFirst(plans, s, a, rest);
      run := [a] + rest;
    }
  }

  ghost predicate AllEnded(t: State) { forall g :: 0 <= g < |t.groups| ==> t.groups[g].phase == Ended }

  ghost predicate AllHandedOver(s: State, t: State)
    requires |s.groups| == |s.closes| == |t.groups| == |t.closes|
  {
    forall g: nat :: g < |s.groups| && WillHandOver(s, g) ==> WillHandOver(t, g)
  }

  /** From every reachable state with the context over, some continuation in which no
      group is woken and none fetches ends them all; those that had asked for their
      credentials hand over on the way. */
  lemma CancelledEnds(plans: seq<Plan>, s: State, run: seq<Action>)
    requires Initial(s) && |plans| == |s.groups| && Wired(plans, |plans|) && After(plans, s, run).cancelled
    ensures var u := After(plans, s, run);
      exists more :: OnlyOut(more) && AllEnded(After(plans, u, more)) && AllHandedOver(u, After(plans, u, more))
  {
    AlwaysSound(plans, s, run);
    var u := After(plans, s, run);
    var more := OutFrom(plans, u, 0);
    assert AllEnded(After(plans, u, more)) && AllHandedOver(u, After(plans, u, more));
  }
}
