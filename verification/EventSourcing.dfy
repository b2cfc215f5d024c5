/**
  Event-sourced aggregates: how an event mutates an entity, how an aggregate numbers,
  applies and queues its events, and how a snapshot stores and restores one.
  Values first, then the class that updates them in place.
 */
module EventSourcing {
  import opened Wrappers

  // An empty reference is replaced by a random one when an entity is built, so a reference is never empty.
  type Ref = s: string | s != "" witness "reference"

  // A creation event overrides mutate and builds the entity; every other event inherits mutate.
  datatype Kind = Creation | Change
  datatype Event<P> = Event(reference: Ref, version: int, kind: Kind, payload: P)
  datatype Entity<S> = Entity(reference: Ref, version: int, state: S)
  datatype Snapshot<B> = Snapshot(reference: Ref, version: int, state: B)

  /**
    What one aggregate class supplies. A None result is an exception; `residue` is the state that a handler
    which raised has left behind.
   */
  datatype Behaviour<!S, !P, !B> = Behaviour(
    blank: S,
    created: P -> Option<S>,
    apply: (S, P) -> Option<S>,
    residue: (S, P) -> S,
    encode: S -> B,
    decode: B -> S)

  predicate RoundTripsAt<S(==), P, B>(b: Behaviour<S, P, B>, s: S) {
    b.decode(b.encode(s)) == s
  }

  function Blank<S, P, B>(b: Behaviour<S, P, B>, r: Ref): Entity<S> {
    Entity(r, 0, b.blank)
  }

  /** event.mutate(entity); None when an assertion fails or the handler raises. */
  function Mutate<S, P, B>(b: Behaviour<S, P, B>, e: Event<P>, m: Entity<S>): Option<Entity<S>> {
    match e.kind
    case Creation =>
      (match b.created(e.payload)
       case None => None
       case Some(s) => Some(Entity(e.reference, e.version, s)))
    case Change =>
      if e.reference != m.reference || e.version != m.version + 1 then None
      else match b.apply(m.state, e.payload)
           case None => None
           case Some(s) => Some(Entity(m.reference, m.version + 1, s))
  }

  function Replay<S, P, B>(b: Behaviour<S, P, B>, start: Entity<S>, events: seq<Event<P>>): Option<Entity<S>> {
    if events == [] then Some(start)
    else
      match Replay(b, start, events[..|events| - 1])
      case None => None
      case Some(m) => Mutate(b, events[|events| - 1], m)
  }

  /** An aggregate with the events it has not handed over yet. */
  datatype Live<S, P> = Live(entity: Entity<S>, queue: seq<Event<P>>)

  function Create<S, P, B>(b: Behaviour<S, P, B>, r: Ref, p: P): Option<Live<S, P>> {
    var e := Event(r, 1, Creation, p);
    match Mutate(b, e, Blank(b, r))
    case None => None
    case Some(m) => Some(Live(m, [e]))
  }

  function NextEvent<S, P>(l: Live<S, P>, p: P): Event<P> {
    Event(l.entity.reference, l.entity.version + 1, Change, p)
  }

  function Trigger<S, P, B>(b: Behaviour<S, P, B>, l: Live<S, P>, p: P): Option<Live<S, P>> {
    match Mutate(b, NextEvent(l, p), l.entity)
    case None => None
    case Some(m) => Some(Live(m, l.queue + [NextEvent(l, p)]))
  }

  /** What a failed mutate leaves of the entity: only a handler that raised can have changed it. */
  function Left<S, P, B>(b: Behaviour<S, P, B>, e: Event<P>, m: Entity<S>): Entity<S> {
    if e.reference != m.reference || e.version != m.version + 1 then m
    else m.(state := b.residue(m.state, e.payload))
  }

  /** The aggregate after a trigger, whether it raised or not. */
  function Triggered<S, P, B>(b: Behaviour<S, P, B>, l: Live<S, P>, p: P): Live<S, P> {
    match Trigger(b, l, p)
    case Some(l') => l'
    case None => l.(entity := Left(b, NextEvent(l, p), l.entity))
  }

  /** If the handler raises here, it has changed nothing. */
  predicate LeavesAlone<S(==), P, B>(b: Behaviour<S, P, B>, s: S, p: P) {
    b.apply(s, p).None? ==> b.residue(s, p) == s
  }

  function TakeSnapshot<S, P, B>(b: Behaviour<S, P, B>, m: Entity<S>): Snapshot<B> {
    Snapshot(m.reference, m.version, b.encode(m.state))
  }

  function FromSnapshot<S, P, B>(b: Behaviour<S, P, B>, s: Snapshot<B>): Entity<S> {
    Entity(s.reference, s.version, b.decode(s.state))
  }

  // ---- facts about replaying -------------------------------------------------------------

  predicate Numbered<P>(events: seq<Event<P>>, base: int) {
    forall i | 0 <= i < |events| :: events[i].version == base + 1 + i
  }

  predicate Belongs<P>(events: seq<Event<P>>, r: Ref) {
    forall i | 0 <= i < |events| :: events[i].reference == r
  }

  /** Replaying in two parts is replaying at once. */
  lemma {:induction false} ReplaySplits<S, P, B>(b: Behaviour<S, P, B>, start: Entity<S>, xs: seq<Event<P>>,
      ys: seq<Event<P>>)
    ensures Replay(b, start, xs + ys)
         == match Replay(b, start, xs) case None => None case Some(m) => Replay(b, m, ys)
    decreases |ys|
  {
    if ys == [] {
      assert xs + ys == xs;
    } else {
      var init := ys[..|ys| - 1];
      assert (xs + ys)[..|xs + ys| - 1] == xs + init;
      ReplaySplits(b, start, xs, init);
    }
  }

  lemma ReplayOne<S, P, B>(b: Behaviour<S, P, B>, m: Entity<S>, e: Event<P>)
    ensures Replay(b, m, [e]) == Mutate(b, e, m)
  {
    assert [e][..0] == [];
  }

  lemma ReplaySnoc<S, P, B>(b: Behaviour<S, P, B>, start: Entity<S>, xs: seq<Event<P>>, e: Event<P>)
    ensures Replay(b, start, xs + [e])
         == match Replay(b, start, xs) case None => None case Some(m) => Mutate(b, e, m)
  {
    assert (xs + [e])[..|xs|] == xs;
  }

  /** A numbered history leaves the entity at the version of its last event, under its own reference. */
  lemma {:induction false} ReplayPosition<S, P, B>(b: Behaviour<S, P, B>, start: Entity<S>, events: seq<Event<P>>)
    requires Numbered(events, start.version) && Belongs(events, start.reference)
    requires Replay(b, start, events).Some?
    ensures var m := Replay(b, start, events).value;
            m.version == start.version + |events| && m.reference == start.reference
  {
    if events != [] {
      ReplayPosition(b, start, events[..|events| - 1]);
    }
  }

  /** The payloads run through the aggregate's own state machine; None as soon as one is refused. */
  function Fold<S, P, B>(b: Behaviour<S, P, B>, s: S, events: seq<Event<P>>): Option<S> {
    if events == [] then Some(s)
    else
      match Fold(b, s, events[..|events| - 1])
      case None => None
      case Some(s') => b.apply(s', events[|events| - 1].payload)
  }

  /**
    Replaying changes accepts nothing but the entity's own history: it succeeds if and only if every event
    carries its reference, the versions follow on without a gap, and the payloads apply.
   */
  lemma {:induction false} ReplayAcceptsOnlyOwnHistory<S, P, B>(b: Behaviour<S, P, B>, start: Entity<S>,
      events: seq<Event<P>>)
    requires forall i | 0 <= i < |events| :: events[i].kind == Change
    ensures Replay(b, start, events).Some? <==>
              Belongs(events, start.reference) && Numbered(events, start.version) && Fold(b, start.state, events).Some?
    ensures Replay(b, start, events).Some? ==>
              Replay(b, start, events) ==
                Some(Entity(start.reference, start.version + |events|, Fold(b, start.state, events).value))
  {
    if events != [] {
      var n := |events| - 1;
      ReplayAcceptsOnlyOwnHistory(b, start, events[..n]);
      if Belongs(events, start.reference) && Numbered(events, start.version) {
        assert Belongs(events[..n], start.reference) && Numbered(events[..n], start.version);
      }
      if Replay(b, start, events).Some? {
        forall i | 0 <= i < |events|
          ensures events[i].version == start.version + 1 + i && events[i].reference == start.reference
        {
          if i < n {
            assert events[..n][i] == events[i];
          }
        }
      }
    }
  }

  /** What a creation comes to: it raises when building the state does, and else queues its event at version 1. */
  lemma CreateGives<S, P, B>(b: Behaviour<S, P, B>, r: Ref, p: P)
    ensures Create(b, r, p)
         == match b.created(p)
            case None => None
            case Some(s) => Some(Live(Entity(r, 1, s), [Event(r, 1, Creation, p)]))
  {
  }

  /**
    A history that starts with a creation forgets what was there before it: it replays if and only if building
    the state does not raise, the changes carry the creation's reference, follow its version without a gap, and
    apply; and it gives the state they lead to from the one that was built.
   */
  lemma CreationStartsHistory<S, P, B>(
      b: Behaviour<S, P, B>, before: Entity<S>, creation: Event<P>, changes: seq<Event<P>>)
    requires creation.kind == Creation && forall i | 0 <= i < |changes| :: changes[i].kind == Change
    ensures var built := b.created(creation.payload);
            var replays := && built.Some? && Belongs(changes, creation.reference)
                           && Numbered(changes, creation.version) && Fold(b, built.value, changes).Some?;
            Replay(b, before, [creation] + changes) ==
              if replays
              then Some(Entity(creation.reference, creation.version + |changes|, Fold(b, built.value, changes).value))
              else None
  {
    ReplaySplits(b, before, [creation], changes);
    ReplayOne(b, before, creation);
    match b.created(creation.payload)
    case None =>
    case Some(s) => ReplayAcceptsOnlyOwnHistory(b, Entity(creation.reference, creation.version, s), changes);
  }

  // ---- every run of one aggregate ---------------------------------------------------------

  datatype Op<P> = Fire(payload: P) | Collect
  datatype Journal<S, P> = Journal(live: Live<S, P>, batches: seq<seq<Event<P>>>)

  /** A failed trigger raises and queues nothing; collecting hands over the queue and empties it. */
  function Perform<S, P, B>(b: Behaviour<S, P, B>, start: Live<S, P>, ops: seq<Op<P>>): Journal<S, P> {
    if ops == [] then Journal(start, [])
    else
      var j := Perform(b, start, ops[..|ops| - 1]);
      match ops[|ops| - 1]
      case Collect => Journal(j.live.(queue := []), j.batches + [j.live.queue])
      case Fire(p) => j.(live := Triggered(b, j.live, p))
  }

  /** Every trigger of the run whose handler raised has left the state alone. */
  predicate CleanRun<S(==), P, B>(b: Behaviour<S, P, B>, start: Live<S, P>, ops: seq<Op<P>>) {
    forall k | 0 <= k < |ops| && ops[k].Fire? ::
      LeavesAlone(b, Perform(b, start, ops[..k]).live.entity.state, ops[k].payload)
  }

  function Flatten<T>(xss: seq<seq<T>>): seq<T> {
    if xss == [] then [] else Flatten(xss[..|xss| - 1]) + xss[|xss| - 1]
  }

  datatype Outcome<S, P> = Outcome(payloads: seq<P>, state: S)

  /** The payloads a plain state machine accepts, in order, and the state it ends in: no versions, no queue. */
  function Accepted<S, P, B>(b: Behaviour<S, P, B>, s: S, ops: seq<Op<P>>): Outcome<S, P> {
    if ops == [] then Outcome([], s)
    else
      var o := Accepted(b, s, ops[..|ops| - 1]);
      match ops[|ops| - 1]
      case Collect => o
      case Fire(p) =>
        match b.apply(o.state, p)
        case None => o
        case Some(s') => Outcome(o.payloads + [p], s')
  }

  /** The numbered events for payloads accepted after `version`. */
  function Numbering<P>(r: Ref, version: int, payloads: seq<P>): (events: seq<Event<P>>)
    ensures |events| == |payloads|
    ensures Numbered(events, version) && Belongs(events, r)
  {
    seq(|payloads|, i requires 0 <= i < |payloads| => Event(r, version + 1 + i, Change, payloads[i]))
  }

  lemma FlattenSnoc<T>(xss: seq<seq<T>>, xs: seq<T>)
    ensures Flatten(xss + [xs]) == Flatten(xss) + xs
  {
    assert (xss + [xs])[..|xss|] == xss;
  }

  lemma NumberingSnoc<P>(r: Ref, version: int, payloads: seq<P>, p: P)
    ensures Numbering(r, version, payloads + [p])
         == Numbering(r, version, payloads) + [Event(r, version + 1 + |payloads|, Change, p)]
  {
  }

  /** A journal and a plain outcome tell the same story from the same start. */
  ghost predicate SameStory<S, P, B>(b: Behaviour<S, P, B>, start: Live<S, P>, j: Journal<S, P>, o: Outcome<S, P>) {
    var news := Numbering(start.entity.reference, start.entity.version, o.payloads);
    && Flatten(j.batches) + j.live.queue == start.queue + news
    && j.live.entity == Entity(start.entity.reference, start.entity.version + |news|, o.state)
    && Replay(b, start.entity, news) == Some(j.live.entity)
  }

  lemma CollectTellsSame<S, P, B>(b: Behaviour<S, P, B>, start: Live<S, P>, j: Journal<S, P>, o: Outcome<S, P>)
    requires SameStory(b, start, j, o)
    ensures SameStory(b, start, Journal(j.live.(queue := []), j.batches + [j.live.queue]), o)
  {
    FlattenSnoc(j.batches, j.live.queue);
    assert Flatten(j.batches + [j.live.queue]) + [] == Flatten(j.batches) + j.live.queue;
  }

  lemma FireTellsSame<S, P, B>(b: Behaviour<S, P, B>, start: Live<S, P>, j: Journal<S, P>, o: Outcome<S, P>, p: P, s: S)
    requires SameStory(b, start, j, o) && b.apply(o.state, p) == Some(s)
    ensures Trigger(b, j.live, p).Some?
    ensures SameStory(b, start, j.(live := Trigger(b, j.live, p).value), Outcome(o.payloads + [p], s))
  {
    var news := Numbering(start.entity.reference, start.entity.version, o.payloads);
    var e := NextEvent(j.live, p);
    NumberingSnoc(start.entity.reference, start.entity.version, o.payloads, p);
    ReplaySnoc(b, start.entity, news, e);
    assert Flatten(j.batches) + (j.live.queue + [e]) == (Flatten(j.batches) + j.live.queue) + [e];
    assert start.queue + news + [e] == start.queue + (news + [e]);
  }

  lemma CleanPrefix<S, P, B>(b: Behaviour<S, P, B>, start: Live<S, P>, ops: seq<Op<P>>, n: nat)
    requires CleanRun(b, start, ops) && n <= |ops|
    ensures CleanRun(b, start, ops[..n])
  {
    forall k | 0 <= k < n && ops[..n][k].Fire?
      ensures LeavesAlone(b, Perform(b, start, ops[..n][..k]).live.entity.state, ops[..n][k].payload)
    {
      assert ops[..n][..k] == ops[..k];
    }
  }

  /**
    For every run of triggers and collections in which raising handlers leave the state alone: the collected
    batches followed by the queue are the queue at the start followed by one event per accepted payload, in
    order and with consecutive versions, and replaying those events gives the live entity.
   */
  lemma {:induction false} CollectedBatchesAreTheHistory<S, P, B>(
      b: Behaviour<S, P, B>, start: Live<S, P>, ops: seq<Op<P>>)
    requires CleanRun(b, start, ops)
    ensures SameStory(b, start, Perform(b, start, ops), Accepted(b, start.entity.state, ops))
  {
    if ops == [] {
      assert Replay<S, P, B>(b, start.entity, []) == Some(start.entity);
      assert Numbering<P>(start.entity.reference, start.entity.version, []) == [];
      assert Flatten<Event<P>>([]) + start.queue == start.queue + [];
    } else {
      var n := |ops| - 1;
      CleanPrefix(b, start, ops, n);
      CollectedBatchesAreTheHistory(b, start, ops[..n]);
      var j, o := Perform(b, start, ops[..n]), Accepted(b, start.entity.state, ops[..n]);
      match ops[n]
      case Collect => CollectTellsSame(b, start, j, o);
      case Fire(p) =>
        assert LeavesAlone(b, j.live.entity.state, p);
        if b.apply(o.state, p).Some? {
          FireTellsSame(b, start, j, o, p, b.apply(o.state, p).value);
        }
    }
  }

  /** The live entity is what replaying the events since the start gives. */
  predicate StandsOnReplay<S(==), P, B>(b: Behaviour<S, P, B>, start: Live<S, P>, j: Journal<S, P>) {
    var all := Flatten(j.batches) + j.live.queue;
    |start.queue| <= |all| && Replay(b, start.entity, all[|start.queue|..]) == Some(j.live.entity)
  }

  lemma StoryStandsOnReplay<S, P, B>(b: Behaviour<S, P, B>, start: Live<S, P>, j: Journal<S, P>, o: Outcome<S, P>)
    requires SameStory(b, start, j, o)
    ensures StandsOnReplay(b, start, j)
  {
    var news := Numbering(start.entity.reference, start.entity.version, o.payloads);
    assert (start.queue + news)[|start.queue|..] == news;
  }

  /** The live entity stays what its events replay to if and only if no handler raised after changing the state. */
  lemma StandsOnReplayIff<S, P, B>(b: Behaviour<S, P, B>, start: Live<S, P>, ops: seq<Op<P>>)
    ensures (forall k | 0 <= k <= |ops| :: StandsOnReplay(b, start, Perform(b, start, ops[..k]))) <==>
            CleanRun(b, start, ops)
  {
    if CleanRun(b, start, ops) {
      forall k | 0 <= k <= |ops| ensures StandsOnReplay(b, start, Perform(b, start, ops[..k])) {
        CleanPrefix(b, start, ops, k);
        CollectedBatchesAreTheHistory(b, start, ops[..k]);
        StoryStandsOnReplay(b, start, Perform(b, start, ops[..k]), Accepted(b, start.entity.state, ops[..k]));
      }
    } else {
      var k :| 0 <= k < |ops| && ops[k].Fire?
               && !LeavesAlone(b, Perform(b, start, ops[..k]).live.entity.state, ops[k].payload);
      DirtyStep(b, start, Perform(b, start, ops[..k]), ops[k].payload);
      assert ops[..k + 1][..k] == ops[..k] && ops[..k + 1][k] == ops[k];
    }
  }

  lemma DirtyStep<S, P, B>(b: Behaviour<S, P, B>, start: Live<S, P>, j: Journal<S, P>, p: P)
    requires !LeavesAlone(b, j.live.entity.state, p)
    ensures !StandsOnReplay(b, start, j) || !StandsOnReplay(b, start, j.(live := Triggered(b, j.live, p)))
  {
  }

  /** A story that starts with one queued event replays from nothing. */
  lemma StoryFromNothing<S, P, B>(
      b: Behaviour<S, P, B>, start: Live<S, P>, j: Journal<S, P>, o: Outcome<S, P>)
    requires SameStory(b, start, j, o)
    requires var r := start.entity.reference;
             && start.entity.version == |start.queue| && Numbered(start.queue, 0) && Belongs(start.queue, r)
             && Replay(b, Blank(b, r), start.queue) == Some(start.entity)
    ensures var r, all := start.entity.reference, Flatten(j.batches) + j.live.queue;
            && |all| == |start.queue| + |o.payloads|
            && Numbered(all, 0) && Belongs(all, r)
            && Replay(b, Blank(b, r), all) == Some(j.live.entity)
  {
    var r := start.entity.reference;
    ReplaySplits(b, Blank(b, r), start.queue, Numbering(r, start.entity.version, o.payloads));
  }

  /**
    The same for an aggregate that was just created: everything it handed over or has queued is its creation
    and then one event per accepted payload, numbered from 1, and replays from nothing to the live entity,
    whose state is the one the accepted payloads lead to from the one that was built.
   */
  lemma CreatedBatchesReplay<S, P, B>(b: Behaviour<S, P, B>, r: Ref, p: P, ops: seq<Op<P>>)
    requires Create(b, r, p).Some? && CleanRun(b, Create(b, r, p).value, ops)
    ensures b.created(p).Some?
    ensures var j := Perform(b, Create(b, r, p).value, ops);
            var o := Accepted(b, b.created(p).value, ops);
            var all := Flatten(j.batches) + j.live.queue;
            && all == [Event(r, 1, Creation, p)] + Numbering(r, 1, o.payloads)
            && j.live.entity == Entity(r, 1 + |o.payloads|, o.state)
            && Replay(b, Blank(b, r), all) == Some(j.live.entity)
  {
    var start := Create(b, r, p).value;
    CollectedBatchesAreTheHistory(b, start, ops);
    ReplayOne(b, Blank(b, r), start.queue[0]);
    assert start.queue == [start.queue[0]];
    StoryFromNothing(b, start, Perform(b, start, ops), Accepted(b, start.entity.state, ops));
  }

  // ---- the aggregate as an object ---------------------------------------------------------

  class RootEntity<S, P> {
    const reference: Ref
    var version: int
    var state: S
    var events: seq<Event<P>>

    function Value(): Live<S, P>
      reads this
    {
      Live(Entity(reference, version, state), events)
    }

    constructor (reference: Ref, version: int, state: S)
      ensures Value() == Live(Entity(reference, version, state), [])
    {
      this.reference := reference;
      this.version := version;
      this.state := state;
      this.events := [];
    }

    /** The class method behind creation: build from the creation event, then register it. Null is an exception. */
    static method Create<B>(b: Behaviour<S, P, B>, r: Ref, p: P) returns (entity: RootEntity?<S, P>)
      ensures match b.created(p)
              case None => entity == null
              case Some(s) =>
                && entity != null && fresh(entity)
                && entity.Value() == Live(Entity(r, 1, s), [Event(r, 1, Creation, p)])
    {
      match b.created(p) {
        case None => entity := null;
        case Some(s) =>
          entity := new RootEntity(r, 1, s);
          entity.RegisterEvent(Event(r, 1, Creation, p));
      }
    }

    /**
      The inherited mutate: check reference and version, apply, then count. A handler that raises may leave a
      trace.
     */
    method Apply<B>(b: Behaviour<S, P, B>, e: Event<P>) returns (ok: bool)
      requires e.kind == Change
      modifies this
      ensures events == old(events)
      ensures match Mutate(b, e, old(Value().entity))
              case None => !ok && Value().entity == Left(b, e, old(Value().entity))
              case Some(m) => ok && Value().entity == m
    {
      if e.reference != reference || e.version != version + 1 {
        return false;
      }
      match b.apply(state, e.payload) {
        case None =>
          state := b.residue(state, e.payload);
          return false;
        case Some(s) =>
          state := s;
          version := version + 1;
          return true;
      }
    }

    method RegisterEvent(e: Event<P>)
      modifies this
      ensures Value() == old(Value()).(queue := old(events) + [e])
    {
      events := events + [e];
    }

    method TriggerEvent<B>(b: Behaviour<S, P, B>, p: P) returns (ok: bool)
      modifies this
      ensures Value() == Triggered(b, old(Value()), p)
      ensures ok == Trigger(b, old(Value()), p).Some?
    {
      var e := Event(reference, version + 1, Change, p);
      ok := Apply(b, e);
      if ok {
        RegisterEvent(e);
      }
    }

    /** The generator consumed to its end. */
    method CollectEvents() returns (collected: seq<Event<P>>)
      modifies this
      ensures collected == old(events)
      ensures Value() == old(Value()).(queue := [])
    {
      collected := events;
      events := [];
    }
  }
}
