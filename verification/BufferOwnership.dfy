/** Who owns a packet buffer: the pool, the channels and the goroutines of
    client/dispatcher.go and client/session.go, interleaved step by step. A buffer
    is a number; a goroutine's hand is the place of the buffer its variable names. */
module BufferOwnership {
  import opened Wrappers

  datatype Who = ReadLoop | WriteLoop | Keepalive(k: nat) | Writer(k: nat) | Reader(k: nat)

  datatype Place = Pool | ReturnCh | SendCh(k: nat) | PrioCh(k: nat) | Hand(who: Who)

  /** Where a goroutine is. `Pacing` and `Sending` hold a packet on its way out; the
      last four are the writer's deferred draining of its two channels. */
  datatype Pc = Ready | Filled | Pacing | Sending | DrainPrio | DroppingPrio | DrainSend | DroppingSend | Stopped

  /** What a step does with buffers. `Acquire` takes one out of the pool, or a new one
      when the pool has none to give. */
  datatype Effect =
    | Acquire(index: Option<nat>)
    | Release
    | Offer(to: Place)
    | Take(from: Place)
    | FoundEmpty(place: Place)
    | Nothing

  datatype Action =
    | Do(who: Who, effect: Effect, next: Pc)
    | Register
    | Unregister(k: nat)
    | Collect(index: nat)       // the pool may forget a buffer at any time

  /** `fault` is set if a goroutine ever returns or sends a buffer it does not hold. */
  datatype State = State(at: map<Place, seq<nat>>, pcs: map<Who, Pc>, slots: nat, members: set<nat>,
                         created: nat, collected: set<nat>, fault: bool)

  const START := State(map[], map[ReadLoop := Ready, WriteLoop := Ready], 0, {}, 0, {}, false)

  function At(at: map<Place, seq<nat>>, place: Place): seq<nat> { if place in at then at[place] else [] }

  function PcOf(s: State, who: Who): Pc { if who in s.pcs then s.pcs[who] else Stopped }

  predicate Holds(pc: Pc) { pc.Filled? || pc.Pacing? || pc.Sending? || pc.DroppingPrio? || pc.DroppingSend? }

  // ---------- what each goroutine's code allows ----------

  /** The read loop copies a packet into a buffer, then puts it in a registered
      worker's queue or back. */
  predicate ReadLoopCode(members: set<nat>, pc: Pc, effect: Effect, next: Pc) {
    match pc
    case Ready => (effect.Acquire? && next == Filled) || (effect.Nothing? && next == Stopped)
    case Filled =>
      next == Ready &&
      (effect.Release? || (effect.Offer? && (effect.to.SendCh? || effect.to.PrioCh?) && effect.to.k in members))
    case _ => false
  }

  /** The write loop gives every packet back: paced or not, written or not. */
  predicate WriteLoopCode(pc: Pc, effect: Effect, next: Pc) {
    match pc
    case Ready => (effect == Take(ReturnCh) && next == Pacing) || (effect.Nothing? && next == Stopped)
    case Pacing => (effect.Release? && next == Stopped) || (effect.Nothing? && next == Sending)
    case Sending => effect.Release? && (next == Ready || next == Stopped)
    case _ => false
  }

  predicate KeepaliveCode(k: nat, pc: Pc, effect: Effect, next: Pc) {
    match pc
    case Ready => (effect.Acquire? && next == Filled) || (effect.Nothing? && next == Stopped)
    case Filled => (effect.Release? || effect == Offer(PrioCh(k))) && next == Ready
    case _ => false
  }

  /** The writer empties its two channels, priority first, and on its way out gives
      back whatever is still in them. */
  predicate WriterCode(k: nat, pc: Pc, effect: Effect, next: Pc) {
    match pc
    case Ready =>
      ((effect == Take(PrioCh(k)) || effect == Take(SendCh(k))) && next == Pacing) ||
      (effect.Nothing? && next == DrainPrio)
    case Pacing => (effect.Release? && next == DrainPrio) || (effect.Nothing? && next == Sending)
    case Sending => effect.Release? && (next == Ready || next == DrainPrio)
    case DrainPrio =>
      (effect == Take(PrioCh(k)) && next == DroppingPrio) || (effect == FoundEmpty(PrioCh(k)) && next == DrainSend)
    case DroppingPrio => effect.Release? && next == DrainPrio
    case DrainSend =>
      (effect == Take(SendCh(k)) && next == DroppingSend) || (effect == FoundEmpty(SendCh(k)) && next == Stopped)
    case DroppingSend => effect.Release? && next == DrainSend
    case _ => false
  }

  predicate ReaderCode(pc: Pc, effect: Effect, next: Pc) {
    match pc
    case Ready => (effect.Acquire? && next == Filled) || (effect.Nothing? && (next == Stopped || next == Ready))
    case Filled =>
      (effect == Offer(ReturnCh) && next == Ready) || (effect.Release? && (next == Ready || next == Stopped))
    case _ => false
  }

  predicate Code(members: set<nat>, who: Who, pc: Pc, effect: Effect, next: Pc) {
    match who
    case ReadLoop => ReadLoopCode(members, pc, effect, next)
    case WriteLoop => WriteLoopCode(pc, effect, next)
    case Keepalive(k) => KeepaliveCode(k, pc, effect, next)
    case Writer(k) => WriterCode(k, pc, effect, next)
    case Reader(_) => ReaderCode(pc, effect, next)
  }

  // ---------- one step ----------

  function Cut(s: seq<nat>, i: nat): seq<nat>
    requires i < |s|
  {
    s[..i] + s[i + 1..]
  }

  /** Buffer `i` of one place goes to the end of another. */
  function Move(at: map<Place, seq<nat>>, from: Place, i: nat, to: Place): map<Place, seq<nat>>
    requires i < |At(at, from)| && from != to
  {
    at[from := Cut(At(at, from), i)][to := At(at, to) + [At(at, from)[i]]]
  }

  /** What an effect does to the places; a step that cannot be taken changes nothing. */
  function EffectOn(s: State, hand: Place, effect: Effect): State
    requires hand.Hand?
  {
    match effect
    case Acquire(Some(i)) => if i < |At(s.at, Pool)| then s.(at := Move(s.at, Pool, i, hand)) else s
    case Acquire(None) => s.(at := s.at[hand := At(s.at, hand) + [s.created]], created := s.created + 1)
    case Release => if At(s.at, hand) == [] then s.(fault := true) else s.(at := Move(s.at, hand, 0, Pool))
    case Offer(to) =>
      if At(s.at, hand) == [] || to.Hand? then s.(fault := true) else s.(at := Move(s.at, hand, 0, to))
    case Take(from) => if from.Hand? || At(s.at, from) == [] then s else s.(at := Move(s.at, from, 0, hand))
    case _ => s
  }

  /** A receive waits for something to receive, and a pool index must be one. */
  predicate Possible(at: map<Place, seq<nat>>, effect: Effect) {
    match effect
    case Acquire(Some(i)) => i < |At(at, Pool)|
    case Take(from) => At(at, from) != []
    case FoundEmpty(place) => At(at, place) == []
    case _ => true
  }

  function Step(s: State, a: Action): State {
    match a
    case Do(who, effect, next) =>
      if who in s.pcs && Code(s.members, who, PcOf(s, who), effect, next) && Possible(s.at, effect)
      then EffectOn(s, Hand(who), effect).(pcs := s.pcs[who := next])
      else s
    case Register =>
      var k := s.slots;
      s.(slots := k + 1, members := s.members + {k},
         pcs := s.pcs[Keepalive(k) := Ready][Writer(k) := Ready][Reader(k) := Ready])
    case Unregister(k) => s.(members := s.members - {k})
    case Collect(i) =>
      if i < |At(s.at, Pool)|
      then s.(at := s.at[Pool := Cut(At(s.at, Pool), i)], collected := s.collected + {At(s.at, Pool)[i]})
      else s
  }

  function After(run: seq<Action>): State {
    if run == [] then START else Step(After(run[..|run| - 1]), run[|run| - 1])
  }

  // ---------- the invariant ----------

  predicate In(at: map<Place, seq<nat>>, place: Place, b: nat) { b in At(at, place) }

  predicate NoDup(s: seq<nat>) { forall i, j :: 0 <= i < j < |s| ==> s[i] != s[j] }

  predicate NoDupAt(at: map<Place, seq<nat>>, place: Place) { NoDup(At(at, place)) }

  /** No buffer is in two places, or twice in one. */
  ghost predicate Unique(at: map<Place, seq<nat>>) {
    && (forall place :: NoDupAt(at, place))
    && (forall p, q, b :: In(at, p, b) && In(at, q, b) ==> p == q)
  }

  ghost predicate Somewhere(at: map<Place, seq<nat>>, b: nat) { exists place :: In(at, place, b) }

  /** Exactly the buffers made and not forgotten are somewhere. */
  predicate Alive(s: State, b: nat) { b < s.created && b !in s.collected }

  /** A hand is empty or holds one buffer, as the code's position says. */
  predicate HandFits(s: State, who: Who) {
    |At(s.at, Hand(who))| == if Holds(PcOf(s, who)) then 1 else 0
  }

  ghost predicate Sound(s: State) {
    && Unique(s.at)
    && (forall b: nat :: Somewhere(s.at, b) <==> Alive(s, b))
    && (forall b :: b in s.collected ==> b < s.created)
    && (forall who :: HandFits(s, who))
    && NewSlotsIdle(s)
    && !s.fault
  }

  predicate SlotOf(who: Who, k: nat) { !who.ReadLoop? && !who.WriteLoop? && who.k >= k }

  ghost predicate NewSlotsIdle(s: State) {
    forall who :: SlotOf(who, s.slots) ==> who !in s.pcs
  }

  // ---------- moving a buffer ----------

  lemma CutMembers(s: seq<nat>, i: nat)
    requires NoDup(s) && i < |s|
    ensures NoDup(Cut(s, i))
    ensures forall c :: c in Cut(s, i) <==> c in s && c != s[i]
  {
    var t := Cut(s, i);
    forall c | c in s && c != s[i]
      ensures c in t
    {
      var j :| 0 <= j < |s| && s[j] == c;
      assert t[if j < i then j else j - 1] == c;
    }
  }

  lemma MoveMembers(at: map<Place, seq<nat>>, from: Place, i: nat, to: Place)
    requires Unique(at) && from != to && i < |At(at, from)|
    ensures var b := At(at, from)[i];
      forall place, c :: In(Move(at, from, i, to), place, c) <==> if c == b then place == to else In(at, place, c)
  {
    var b, after := At(at, from)[i], Move(at, from, i, to);
    assert NoDupAt(at, from) && In(at, from, b);
    CutMembers(At(at, from), i);
    forall place, c
      ensures In(after, place, c) <==> if c == b then place == to else In(at, place, c)
    {
      assert In(at, place, b) ==> place == from;
    }
  }

  lemma MoveNoDup(at: map<Place, seq<nat>>, from: Place, i: nat, to: Place, place: Place)
    requires Unique(at) && from != to && i < |At(at, from)|
    ensures NoDupAt(Move(at, from, i, to), place)
  {
    assert NoDupAt(at, place) && NoDupAt(at, from);
    CutMembers(At(at, from), i);
    assert In(at, from, At(at, from)[i]);
    assert !In(at, to, At(at, from)[i]);
  }

  lemma MoveUnique(at: map<Place, seq<nat>>, from: Place, i: nat, to: Place)
    requires Unique(at) && from != to && i < |At(at, from)|
    ensures Unique(Move(at, from, i, to))
    ensures forall b: nat :: Somewhere(Move(at, from, i, to), b) <==> Somewhere(at, b)
  {
    var b, after := At(at, from)[i], Move(at, from, i, to);
    MoveMembers(at, from, i, to);
    assert In(at, from, b) && In(after, to, b);
    forall place
      ensures NoDupAt(after, place)
    {
      MoveNoDup(at, from, i, to, place);
    }
    forall c: nat
      ensures Somewhere(after, c) <==> Somewhere(at, c)
    {
      if place :| In(after, place, c) && c != b {
        assert In(at, place, c);
      }
      if place :| In(at, place, c) && c != b {
        assert In(after, place, c);
      }
    }
  }

  lemma NewUnique(at: map<Place, seq<nat>>, to: Place, b: nat)
    requires Unique(at) && !Somewhere(at, b)
    ensures var after := at[to := At(at, to) + [b]];
      Unique(after) && forall c: nat :: Somewhere(after, c) <==> c == b || Somewhere(at, c)
  {
    var after := at[to := At(at, to) + [b]];
    assert !In(at, to, b);
    assert forall place, c :: In(after, place, c) <==> In(at, place, c) || (c == b && place == to);
    forall place
      ensures NoDupAt(after, place)
    {
      assert NoDupAt(at, place);
    }
    forall c: nat
      ensures Somewhere(after, c) <==> c == b || Somewhere(at, c)
    {
      if place :| In(after, place, c) && c != b {
        assert In(at, place, c);
      }
      if place :| In(at, place, c) {
        assert In(after, place, c);
      }
      assert In(after, to, b);
    }
  }

  lemma ForgetUnique(at: map<Place, seq<nat>>, from: Place, i: nat)
    requires Unique(at) && i < |At(at, from)|
    ensures var after, b := at[from := Cut(At(at, from), i)], At(at, from)[i];
      Unique(after) && forall c: nat :: Somewhere(after, c) <==> c != b && Somewhere(at, c)
  {
    var after, b := at[from := Cut(At(at, from), i)], At(at, from)[i];
    assert NoDupAt(at, from) && In(at, from, b);
    CutMembers(At(at, from), i);
    forall place, c
      ensures In(after, place, c) <==> In(at, place, c) && c != b
    {
      assert In(at, place, b) ==> place == from;
    }
    forall place
      ensures NoDupAt(after, place)
    {
      assert NoDupAt(at, place);
    }
    forall c: nat
      ensures Somewhere(after, c) <==> c != b && Somewhere(at, c)
    {
      if place :| In(after, place, c) {
        assert In(at, place, c);
      }
      if place :| In(at, place, c) && c != b {
        assert In(after, place, c);
      }
    }
  }

  // ---------- every step ----------

  /** How many buffers an effect leaves in the hand of the goroutine that did it. */
  predicate Changes(effect: Effect, before: Pc, after: Pc) {
    match effect
    case Acquire(_) => !Holds(before) && Holds(after)
    case Take(_) => !Holds(before) && Holds(after)
    case Release => Holds(before) && !Holds(after)
    case Offer(_) => Holds(before) && !Holds(after)
    case _ => Holds(before) == Holds(after)
  }

  /** The code changes hands exactly when it moves a buffer; channels only ever
      exchange buffers with hands. */
  lemma CodeChanges(members: set<nat>, who: Who, pc: Pc, effect: Effect, next: Pc)
    requires Code(members, who, pc, effect, next)
    ensures Changes(effect, pc, next)
    ensures effect.Offer? ==> !effect.to.Hand? && effect.to != Pool
    ensures effect.Take? ==> !effect.from.Hand? && effect.from != Pool
  {
  }

  lemma EffectSound(s: State, who: Who, effect: Effect, next: Pc)
    requires Sound(s) && Code(s.members, who, PcOf(s, who), effect, next) && Possible(s.at, effect)
    ensures var t := EffectOn(s, Hand(who), effect);
      && Unique(t.at) && (forall b: nat :: Somewhere(t.at, b) <==> Alive(t, b))
      && (forall b :: b in t.collected ==> b < t.created)
      && !t.fault && t.slots == s.slots
      && |At(t.at, Hand(who))| == (if Holds(next) then 1 else 0)
      && (forall other :: other != who ==> At(t.at, Hand(other)) == At(s.at, Hand(other)))
  {
    CodeChanges(s.members, who, PcOf(s, who), effect, next);
    assert HandFits(s, who);
    match effect
    case Acquire(Some(i)) => MoveUnique(s.at, Pool, i, Hand(who));
    case Acquire(None) =>
      assert !Alive(s, s.created);
      NewUnique(s.at, Hand(who), s.created);
    case Release => MoveUnique(s.at, Hand(who), 0, Pool);
    case Offer(to) => MoveUnique(s.at, Hand(who), 0, to);
    case Take(from) => MoveUnique(s.at, from, 0, Hand(who));
    case _ =>
  }

  lemma DoSound(s: State, who: Who, effect: Effect, next: Pc)
    requires Sound(s)
    ensures Sound(Step(s, Do(who, effect, next)))
  {
    var t := Step(s, Do(who, effect, next));
    if who in s.pcs && Code(s.members, who, PcOf(s, who), effect, next) && Possible(s.at, effect) {
      var u := EffectOn(s, Hand(who), effect);
      EffectSound(s, who, effect, next);
      forall b: nat
        ensures Somewhere(t.at, b) <==> Alive(t, b)
      {
        assert Alive(u, b) == Alive(t, b);
      }
      forall other
        ensures HandFits(t, other)
      {
        assert HandFits(s, other);
      }
    }
  }

  lemma OtherSound(s: State, a: Action)
    requires Sound(s) && !a.Do?
    ensures Sound(Step(s, a))
  {
    var t := Step(s, a);
    if a.Collect? && a.index < |At(s.at, Pool)| {
      ForgetUnique(s.at, Pool, a.index);
      var b := At(s.at, Pool)[a.index];
      assert In(s.at, Pool, b);
      assert Somewhere(s.at, b) && Alive(s, b);
    }
    forall b: nat
      ensures Somewhere(t.at, b) <==> Alive(t, b)
    {
      assert Somewhere(s.at, b) <==> Alive(s, b);
    }
    forall who
      ensures HandFits(t, who)
    {
      assert HandFits(s, who);
    }
  }

  lemma {:induction false} AlwaysSound(run: seq<Action>)
    ensures Sound(After(run))
  {
    if run == [] {
      assert forall place, b :: !In(START.at, place, b);
    } else {
      var s, a := After(run[..|run| - 1]), run[|run| - 1];
      AlwaysSound(run[..|run| - 1]);
      if a.Do? {
        DoSound(s, a.who, a.effect, a.next);
      } else {
        OtherSound(s, a);
      }
    }
  }

  // ---------- what it says of every run ----------

  /** Over every interleaving, each buffer made and not yet forgotten by the pool is
      in exactly one place: the pool, one channel or one goroutine's hand. */
  lemma ExactlyOnePlace(run: seq<Action>, b: nat)
    requires Alive(After(run), b)
    ensures exists p :: In(After(run).at, p, b) && forall q :: In(After(run).at, q, b) ==> q == p
    ensures forall place :: NoDup(At(After(run).at, place))
  {
    AlwaysSound(run);
    var at := After(run).at;
    assert Somewhere(at, b);
    forall place
      ensures NoDup(At(at, place))
    {
      assert NoDupAt(at, place);
    }
  }

  /** So a buffer being returned is not in the pool already, nor anywhere else, and
      no goroutine ever returns or sends one it does not hold. */
  lemma NeverReturnedTwice(run: seq<Action>, who: Who, next: Pc)
    requires ReleaseAllowed(After(run), who, next)
    ensures !After(run).fault
    ensures |At(After(run).at, Hand(who))| == 1
    ensures forall place :: place != Hand(who) ==> At(After(run).at, Hand(who))[0] !in At(After(run).at, place)
  {
    AlwaysSound(run);
    var s := After(run);
    CodeChanges(s.members, who, PcOf(s, who), Release, next);
    assert HandFits(s, who);
    var b := At(s.at, Hand(who))[0];
    assert In(s.at, Hand(who), b);
    forall place | place != Hand(who)
      ensures b !in At(s.at, place)
    {
      assert !In(s.at, place, b);
    }
  }

  predicate ReleaseAllowed(s: State, who: Who, next: Pc) {
    Code(s.members, who, PcOf(s, who), Release, next)
  }

  /** A goroutine that has stopped has kept nothing. */
  lemma StopsEmptyHanded(run: seq<Action>, who: Who)
    requires PcOf(After(run), who) == Stopped
    ensures At(After(run).at, Hand(who)) == []
  {
    AlwaysSound(run);
    assert HandFits(After(run), who);
  }

  /** Only its own step, or a new slot of its number, moves a writer on. */
  lemma WriterMoves(s: State, a: Action, k: nat)
    requires NewSlotsIdle(s) && Writer(k) in s.pcs && PcOf(Step(s, a), Writer(k)) != PcOf(s, Writer(k))
    ensures a.Do? && a.who == Writer(k) && PcOf(Step(s, a), Writer(k)) == a.next
    ensures WriterCode(k, PcOf(s, Writer(k)), a.effect, a.next) && Possible(s.at, a.effect)
    ensures a.effect.FoundEmpty? ==> Step(s, a).at == s.at
  {
    assert SlotOf(Writer(k), s.slots) ==> Writer(k) !in s.pcs;
  }

  /** A writer stops only when it has found its priority channel empty and then, at that
      very step, its ordinary one. */
  lemma StopsDrained(run: seq<Action>, a: Action, k: nat)
    requires Writer(k) in After(run).pcs && PcOf(After(run), Writer(k)) != PcOf(After(run + [a]), Writer(k))
    ensures PcOf(After(run + [a]), Writer(k)) == Stopped ==>
      PcOf(After(run), Writer(k)) == DrainSend && At(After(run + [a]).at, SendCh(k)) == []
    ensures PcOf(After(run + [a]), Writer(k)) == DrainSend ==>
      || PcOf(After(run), Writer(k)) == DroppingSend
      || (PcOf(After(run), Writer(k)) == DrainPrio && At(After(run + [a]).at, PrioCh(k)) == [])
  {
    AlwaysSound(run);
    assert (run + [a])[..|run|] == run;
    WriterMoves(After(run), a, k);
  }

  /** A session that registers gets a new slot, to which packets may be sent, and its three
      goroutines, ready to run. */
  lemma Registered(run: seq<Action>)
    ensures var s, t := After(run), After(run + [Register]);
      && Keepalive(s.slots) !in s.pcs && Writer(s.slots) !in s.pcs && Reader(s.slots) !in s.pcs
      && t.members == s.members + {s.slots} && t.slots == s.slots + 1 && t.at == s.at
      && PcOf(t, Keepalive(s.slots)) == PcOf(t, Writer(s.slots)) == PcOf(t, Reader(s.slots)) == Ready
  {
    AlwaysSound(run);
    assert (run + [Register])[..|run|] == run;
    var k := After(run).slots;
    assert SlotOf(Keepalive(k), k) && SlotOf(Writer(k), k) && SlotOf(Reader(k), k);
  }

  /** The goroutine is ready and the channel empty. */
  predicate Idle(s: State, who: Who, channel: Place) {
    who in s.pcs && PcOf(s, who) == Ready && At(s.at, Hand(who)) == [] && At(s.at, channel) == []
  }

  /** One step of a goroutine that its code allows and that can be taken. */
  ghost predicate Takes(s: State, who: Who, effect: Effect, next: Pc, t: State) {
    && who in s.pcs && Code(s.members, who, PcOf(s, who), effect, next) && Possible(s.at, effect)
    && t == EffectOn(s, Hand(who), effect).(pcs := s.pcs[who := next])
  }

  /** A goroutine makes a buffer, fills it and sends it over an empty channel. */
  lemma MadeAndSent(s: State, from: Who, channel: Place) returns (one: State, two: State)
    requires Idle(s, from, channel) && !channel.Hand?
    requires forall pc, effect, next :: Sends(pc, effect, next, channel) ==> Code(s.members, from, pc, effect, next)
    ensures Takes(s, from, Acquire(None), Filled, one) && At(one.at, Hand(from)) == [s.created]
    ensures Takes(one, from, Offer(channel), Ready, two)
    ensures two.at == s.at[Hand(from) := []][channel := [s.created]]
    ensures two.pcs == s.pcs && two.members == s.members
  {
    assert Sends(Ready, Acquire(None), Filled, channel) && Sends(Filled, Offer(channel), Ready, channel);
    one := Step(s, Do(from, Acquire(None), Filled));
    two := Step(one, Do(from, Offer(channel), Ready));
    assert two.pcs == s.pcs;
  }

  /** The two steps with which a buffer is made and sent. */
  predicate Sends(pc: Pc, effect: Effect, next: Pc, channel: Place) {
    || (pc == Ready && effect == Acquire(None) && next == Filled)
    || (pc == Filled && effect == Offer(channel) && next == Ready)
  }

  /** The three steps with which it is taken, paced, written and given back. */
  predicate Writes(pc: Pc, effect: Effect, next: Pc, channel: Place) {
    || (pc == Ready && effect == Take(channel) && next == Pacing)
    || (pc == Pacing && effect == Nothing && next == Sending)
    || (pc == Sending && effect == Release && next == Ready)
  }

  lemma TakenAndGivenBack(s: State, to: Who, channel: Place, b: nat)
    returns (three: State, four: State, five: State)
    requires to in s.pcs && PcOf(s, to) == Ready && At(s.at, Hand(to)) == [] && At(s.at, channel) == [b]
    requires !channel.Hand? && channel != Pool
    requires forall pc, effect, next :: Writes(pc, effect, next, channel) ==> Code(s.members, to, pc, effect, next)
    ensures Takes(s, to, Take(channel), Pacing, three) && At(three.at, Hand(to)) == [b]
    ensures Takes(three, to, Nothing, Sending, four) && four.at == three.at
    ensures Takes(four, to, Release, Ready, five) && At(five.at, Pool) == At(s.at, Pool) + [b]
  {
    assert Writes(Ready, Take(channel), Pacing, channel) && Writes(Pacing, Nothing, Sending, channel);
    assert Writes(Sending, Release, Ready, channel);
    three := Step(s, Do(to, Take(channel), Pacing));
    four := Step(three, Do(to, Nothing, Sending));
    five := Step(four, Do(to, Release, Ready));
  }

  /** A packet's way out and in: a buffer is made, filled by one goroutine, sent over a
      channel, and taken, paced, written and given back by another. */
  lemma OneTrip(s: State, from: Who, channel: Place, to: Who)
    returns (one: State, two: State, three: State, four: State, five: State)
    requires Idle(s, from, channel) && Idle(s, to, channel) && from != to
    requires (from == ReadLoop && channel.SendCh? && channel.k in s.members && to == Writer(channel.k))
      || (from.Reader? && channel == ReturnCh && to == WriteLoop)
    ensures Takes(s, from, Acquire(None), Filled, one) && At(one.at, Hand(from)) == [s.created]
    ensures Takes(one, from, Offer(channel), Ready, two) && At(two.at, channel) == [s.created]
    ensures Takes(two, to, Take(channel), Pacing, three) && At(three.at, Hand(to)) == [s.created]
    ensures Takes(three, to, Nothing, Sending, four) && four.at == three.at
    ensures Takes(four, to, Release, Ready, five) && At(five.at, Pool) == At(s.at, Pool) + [s.created]
  {
    one, two := MadeAndSent(s, from, channel);
    three, four, five := TakenAndGivenBack(two, to, channel, s.created);
  }
}
