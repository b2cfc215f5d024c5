/**
  What the streams of a run mean: that every event was produced on the replay of exactly the events before it,
  and when. Versions need no condition; states need one on what the run itself does to the aggregate in question.
 */
module EventStoreHistory {
  import opened Wrappers
  import opened EventSourcing
  import opened EventStore
  import opened EventStoreSystem

  /** origins[i] is the replay of the events before event from + i. */
  predicate ProducedInOrder<S(==), P, B>(b: Behaviour<S, P, B>, r: Ref, events: seq<Event<P>>,
      origins: seq<Entity<S>>, from: nat)
    requires from <= |events|
  {
    |origins| == |events| - from
    && forall i | 0 <= i < |origins| :: Some(origins[i]) == Replay(b, Blank(b, r), events[..from + i])
  }

  /** The client stands on a prefix of its stream: the prefix then its queue replay to its entity. */
  predicate OnPrefix<S(==), P, B>(b: Behaviour<S, P, B>, stream: seq<Event<P>>, me: Client<S, P>) {
    var r := me.live.entity.reference;
    && Standing(stream, me)
    && Replay(b, Blank(b, r), stream[..Base(me)] + me.live.queue) == Some(me.live.entity)
    && ProducedInOrder(b, r, stream[..Base(me)] + me.live.queue, me.bases, Base(me))
  }

  predicate AllCommitted<S(==), P, B>(
      b: Behaviour<S, P, B>, r: Ref, stream: seq<Event<P>>, taken: seq<Snapshot<B>>)
  {
    forall k | 0 <= k < |taken| :: CommittedSnapshot(b, r, stream, taken[k])
  }

  predicate StreamInv<S(==), P, B>(b: Behaviour<S, P, B>, sys: System<S, P, B>, r: Ref) {
    && Committed(b, r, Items(sys.streams, r))
    && ProducedInOrder(b, r, Items(sys.streams, r), Items(sys.origins, r), 0)
    && AllCommitted(b, r, Items(sys.streams, r), Items(sys.snapshots, r))
  }

  predicate Concerns<S, P, B>(sys: System<S, P, B>, c: ClientId, r: Ref) {
    c in sys.clients && sys.clients[c].live.entity.reference == r
  }

  /** The stream is one serial history, and so is what every unspoiled client of it holds. */
  predicate Inv<S(==), P, B>(b: Behaviour<S, P, B>, sys: System<S, P, B>, r: Ref) {
    && StreamInv(b, sys, r)
    && forall c | c in sys.clients && Concerns(sys, c, r) && !sys.clients[c].spoiled ::
         OnPrefix(b, Items(sys.streams, r), sys.clients[c])
  }

  // ---- the conditions ------------------------------------------------------------------------------------

  /** The state a capture of r would store comes back as it was. */
  predicate CapturesWell<S(==), P, B>(b: Behaviour<S, P, B>, sys: System<S, P, B>, r: Ref, upTo: int) {
    match Rehydrate(b, Items(sys.streams, r), Items(sys.snapshots, r), r, Some(upTo))
    case None => true
    case Some(m) => RoundTripsAt(b, m.state)
  }

  /** No aggregate r that a handler has spoiled gets events accepted, and snapshots of r round-trip. */
  predicate Honest<S(==), P, B>(b: Behaviour<S, P, B>, sys: System<S, P, B>, step: Step<P>, r: Ref) {
    match step
    case Save(c) =>
      Concerns(sys, c, r) && sys.clients[c].spoiled && sys.clients[c].live.queue != [] ==>
        Base(sys.clients[c]) != |Items(sys.streams, r)|
    case Capture(q, upTo) => q == r ==> CapturesWell(b, sys, r, upTo)
    case _ => true
  }

  ghost predicate HonestRun<S, P, B>(b: Behaviour<S, P, B>, steps: seq<Step<P>>, r: Ref) {
    forall k | 0 <= k < |steps| :: Honest(b, Run(b, steps[..k]), steps[k], r)
  }

  /** No handler of an aggregate r raises after changing the state, and snapshots of r round-trip. */
  predicate Clean<S(==), P, B>(b: Behaviour<S, P, B>, sys: System<S, P, B>, step: Step<P>, r: Ref) {
    match step
    case Fire(c, p) => Concerns(sys, c, r) ==> LeavesAlone(b, sys.clients[c].live.entity.state, p)
    case Capture(q, upTo) => q == r ==> CapturesWell(b, sys, r, upTo)
    case _ => true
  }

  ghost predicate CleanRun<S, P, B>(b: Behaviour<S, P, B>, steps: seq<Step<P>>, r: Ref) {
    forall k | 0 <= k < |steps| :: Clean(b, Run(b, steps[..k]), steps[k], r)
  }

  // ---- each honest step keeps it --------------------------------------------------------------------------

  lemma ClientSetKeepsInv<S, P, B>(
      b: Behaviour<S, P, B>, sys: System<S, P, B>, c: ClientId, me: Client<S, P>, r: Ref)
    requires Inv(b, sys, r)
    requires me.live.entity.reference == r && !me.spoiled ==> OnPrefix(b, Items(sys.streams, r), me)
    ensures Inv(b, sys.(clients := sys.clients[c := me]), r)
  {
    var sys' := sys.(clients := sys.clients[c := me]);
    forall d | d in sys'.clients && Concerns(sys', d, r) && !sys'.clients[d].spoiled
      ensures OnPrefix(b, Items(sys'.streams, r), sys'.clients[d])
    {
      assert d != c ==> Concerns(sys, d, r);
    }
  }

  /** What a load in a serial history gives. */
  lemma LoadedClient<S, P, B>(b: Behaviour<S, P, B>, sys: System<S, P, B>, c: ClientId, r: Ref)
    requires StreamInv(b, sys, r)
    ensures var stream := Items(sys.streams, r);
            && Replay(b, Blank(b, r), stream).Some?
            && var m := Replay(b, Blank(b, r), stream).value;
               && m.reference == r && m.version == |stream|
               && Rehydrate(b, stream, Items(sys.snapshots, r), r, None) == Some(m)
               && LoadStep(b, sys, c, r) == sys.(clients := sys.clients[c := Client(Live(m, []), [], false)])
  {
    RestoreEqualsReplay(b, r, Items(sys.streams, r), Items(sys.snapshots, r), None);
    ReplayPosition(b, Blank(b, r), Items(sys.streams, r));
  }

  lemma LoadKeepsInv<S, P, B>(b: Behaviour<S, P, B>, sys: System<S, P, B>, c: ClientId, q: Ref, r: Ref)
    requires Versions(sys) && Inv(b, sys, r)
    ensures Inv(b, LoadStep(b, sys, c, q), r)
  {
    var loaded := Rehydrate(b, Items(sys.streams, q), Items(sys.snapshots, q), q, None);
    if loaded.Some? {
      LoadedStands(b, sys, q);
      if q == r {
        LoadedClient(b, sys, c, r);
        LoadedOnPrefix(b, Items(sys.streams, r), loaded.value, r);
      }
      ClientSetKeepsInv(b, sys, c, Client(Live(loaded.value, []), [], false), r);
    }
  }

  lemma LoadedOnPrefix<S, P, B>(b: Behaviour<S, P, B>, stream: seq<Event<P>>, m: Entity<S>, r: Ref)
    requires Replay(b, Blank(b, r), stream) == Some(m) && m.reference == r && m.version == |stream|
    ensures OnPrefix(b, stream, Client(Live(m, []), [], false))
  {
    assert stream[..|stream|] + [] == stream;
  }

  lemma BeginKeepsInv<S, P, B>(b: Behaviour<S, P, B>, sys: System<S, P, B>, c: ClientId, q: Ref, p: P, r: Ref)
    requires Inv(b, sys, r)
    ensures Inv(b, BeginStep(b, sys, c, q, p), r)
  {
    match Create(b, q, p)
    case None =>
    case Some(l) =>
      BegunStandsOnPrefix(b, Items(sys.streams, r), q, p, l);
      ClientSetKeepsInv(b, sys, c, Client(l, [Blank(b, q)], false), r);
  }

  lemma BegunStandsOnPrefix<S, P, B>(b: Behaviour<S, P, B>, stream: seq<Event<P>>, r: Ref, p: P, l: Live<S, P>)
    requires Create(b, r, p) == Some(l)
    ensures OnPrefix(b, stream, Client(l, [Blank(b, r)], false)) && l.entity.reference == r
  {
    assert stream[..0] + l.queue == l.queue;
    ReplayOne(b, Blank(b, r), l.queue[0]);
    assert l.queue[..0] == [];
  }

  /** One more event on what the others replay to. */
  lemma ProducedSnoc<S, P, B>(
      b: Behaviour<S, P, B>, r: Ref, events: seq<Event<P>>, origins: seq<Entity<S>>, from: nat, e: Event<P>,
      m: Entity<S>)
    requires from <= |events| && ProducedInOrder(b, r, events, origins, from)
    requires Replay(b, Blank(b, r), events) == Some(m)
    ensures ProducedInOrder(b, r, events + [e], origins + [m], from)
  {
    var all := origins + [m];
    forall i | 0 <= i < |all| ensures Some(all[i]) == Replay(b, Blank(b, r), (events + [e])[..from + i]) {
      assert (events + [e])[..from + i] == events[..from + i];
      if i == |origins| {
        assert events[..from + i] == events;
      }
    }
  }

  lemma AcceptedKeepsPrefix<S, P, B>(b: Behaviour<S, P, B>, stream: seq<Event<P>>, me: Client<S, P>, p: P)
    requires OnPrefix(b, stream, me) && Trigger(b, me.live, p).Some?
    ensures OnPrefix(b, stream, FiredClient(b, me, p))
  {
    FiredStands(b, stream, me, p);
    var me' := FiredClient(b, me, p);
    EventJoinsPrefix(b, stream[..Base(me)], me, NextEvent(me.live, p), me'.live.entity);
    assert stream[..Base(me')] == stream[..Base(me)];
  }

  lemma EventJoinsPrefix<S, P, B>(
      b: Behaviour<S, P, B>, prefix: seq<Event<P>>, me: Client<S, P>, e: Event<P>, m: Entity<S>)
    requires var r := me.live.entity.reference;
             && Replay(b, Blank(b, r), prefix + me.live.queue) == Some(me.live.entity)
             && ProducedInOrder(b, r, prefix + me.live.queue, me.bases, |prefix|)
    requires Mutate(b, e, me.live.entity) == Some(m)
    ensures var r := me.live.entity.reference;
            && Replay(b, Blank(b, r), prefix + (me.live.queue + [e])) == Some(m)
            && ProducedInOrder(b, r, prefix + (me.live.queue + [e]), me.bases + [me.live.entity], |prefix|)
  {
    var r, before := me.live.entity.reference, prefix + me.live.queue;
    assert prefix + (me.live.queue + [e]) == before + [e];
    ReplaySnoc(b, Blank(b, r), before, e);
    ProducedSnoc(b, r, before, me.bases, |prefix|, e, me.live.entity);
  }

  /** A trigger leaves the client on its prefix if and only if its handler, should it raise, has changed nothing. */
  lemma FireKeepsPrefixIff<S, P, B>(b: Behaviour<S, P, B>, stream: seq<Event<P>>, me: Client<S, P>, p: P)
    requires OnPrefix(b, stream, me)
    ensures OnPrefix(b, stream, FiredClient(b, me, p)) <==> LeavesAlone(b, me.live.entity.state, p)
    ensures FiredClient(b, me, p).spoiled <==> me.spoiled || !LeavesAlone(b, me.live.entity.state, p)
  {
    if Trigger(b, me.live, p).Some? {
      AcceptedKeepsPrefix(b, stream, me, p);
    } else if LeavesAlone(b, me.live.entity.state, p) {
      assert FiredClient(b, me, p) == me;
    }
  }

  lemma FireKeepsInv<S, P, B>(b: Behaviour<S, P, B>, sys: System<S, P, B>, c: ClientId, p: P, r: Ref)
    requires Inv(b, sys, r)
    ensures Inv(b, FireStep(b, sys, c, p), r)
  {
    if c in sys.clients {
      var me := sys.clients[c];
      if Concerns(sys, c, r) && !me.spoiled {
        FireKeepsPrefixIff(b, Items(sys.streams, r), me, p);
      }
      ClientSetKeepsInv(b, sys, c, FiredClient(b, me, p), r);
    }
  }

  /** What is known on a prefix stays known when the stream grows. */
  lemma PrefixSurvivesGrowth<S, P, B>(b: Behaviour<S, P, B>, stream: seq<Event<P>>, more: seq<Event<P>>,
      me: Client<S, P>)
    requires OnPrefix(b, stream, me)
    ensures OnPrefix(b, stream + more, me)
  {
    assert (stream + more)[..Base(me)] == stream[..Base(me)];
  }

  lemma SnapshotsSurviveGrowth<S, P, B>(b: Behaviour<S, P, B>, r: Ref, stream: seq<Event<P>>, more: seq<Event<P>>,
      taken: seq<Snapshot<B>>)
    requires AllCommitted(b, r, stream, taken)
    ensures AllCommitted(b, r, stream + more, taken)
  {
    forall k | 0 <= k < |taken| ensures CommittedSnapshot(b, r, stream + more, taken[k]) {
      assert CommittedSnapshot(b, r, stream, taken[k]);
      assert (stream + more)[..taken[k].version] == stream[..taken[k].version];
    }
  }

  /** The queue of a client standing at the end of its stream: the grown stream is committed and in order. */
  lemma GrownIsCommitted<S, P, B>(b: Behaviour<S, P, B>, stream: seq<Event<P>>, origins: seq<Entity<S>>,
      me: Client<S, P>)
    requires var r := me.live.entity.reference;
             && Committed(b, r, stream) && ProducedInOrder(b, r, stream, origins, 0) && OnPrefix(b, stream, me)
    requires Base(me) == |stream|
    ensures var r := me.live.entity.reference;
            && Committed(b, r, stream + me.live.queue)
            && ProducedInOrder(b, r, stream + me.live.queue, origins + me.bases, 0)
  {
    var r, grown := me.live.entity.reference, stream + me.live.queue;
    assert stream[..Base(me)] == stream;
    var all := origins + me.bases;
    forall i | 0 <= i < |all| ensures Some(all[i]) == Replay(b, Blank(b, r), grown[..i]) {
      if i < |stream| {
        assert grown[..i] == stream[..i];
      }
    }
  }

  /** After a save the client stands on the grown stream with nothing queued. */
  lemma SavedStandsOnPrefix<S, P, B>(b: Behaviour<S, P, B>, stream: seq<Event<P>>, me: Client<S, P>)
    requires OnPrefix(b, stream, me) && (me.live.queue == [] || Base(me) == |stream|)
    ensures OnPrefix(b, stream + me.live.queue, Drained(me))
  {
    var grown := stream + me.live.queue;
    assert grown[..me.live.entity.version] + [] == stream[..Base(me)] + me.live.queue;
  }

  lemma SaveKeepsInv<S, P, B>(b: Behaviour<S, P, B>, sys: System<S, P, B>, c: ClientId, r: Ref)
    requires Versions(sys) && Inv(b, sys, r) && Honest(b, sys, Save(c), r)
    ensures Inv(b, SaveStep(sys, c), r)
  {
    if c in sys.clients {
      SaveIsAtomic(sys, c);
      var me := sys.clients[c];
      if !Concerns(sys, c, r) {
        OtherSaveKeepsInv(b, sys, c, r);
      } else if me.live.queue == [] {
        IdleSaveKeepsInv(b, sys, c, r);
      } else if Base(me) == |Items(sys.streams, r)| {
        assert OnPrefix(b, Items(sys.streams, r), me);
        AcceptedSaveKeepsInv(b, sys, c, r);
      } else {
        RefusedSaveKeepsInv(b, sys, c, r);
      }
    }
  }

  /** Clients that were there before hold what they held. */
  predicate SameClients<S(==), P(==), B>(sys: System<S, P, B>, sys': System<S, P, B>, c: ClientId) {
    forall d | d in sys'.clients && d != c :: d in sys.clients && sys'.clients[d] == sys.clients[d]
  }

  lemma OtherSaveKeepsInv<S, P, B>(b: Behaviour<S, P, B>, sys: System<S, P, B>, c: ClientId, r: Ref)
    requires Inv(b, sys, r) && c in sys.clients && !Concerns(sys, c, r)
    ensures Inv(b, SaveStep(sys, c), r)
  {
    var sys' := SaveStep(sys, c);
    assert SameClients(sys, sys', c);
    forall d | d in sys'.clients && Concerns(sys', d, r) && !sys'.clients[d].spoiled
      ensures OnPrefix(b, Items(sys'.streams, r), sys'.clients[d])
    {
      assert d != c && Concerns(sys, d, r);
    }
  }

  lemma IdleSaveKeepsInv<S, P, B>(b: Behaviour<S, P, B>, sys: System<S, P, B>, c: ClientId, r: Ref)
    requires Inv(b, sys, r) && Concerns(sys, c, r) && sys.clients[c].live.queue == []
    requires Standing(Items(sys.streams, r), sys.clients[c])
    ensures Inv(b, SaveStep(sys, c), r)
  {
    var sys' := SaveStep(sys, c);
    var me, stream := sys.clients[c], Items(sys.streams, r);
    assert stream + me.live.queue == stream && Drained(me) == me;
    assert Items(sys.origins, r) + me.bases == Items(sys.origins, r);
    assert SameClients(sys, sys', c) && sys'.clients[c] == me;
    forall d | d in sys'.clients && Concerns(sys', d, r) && !sys'.clients[d].spoiled
      ensures OnPrefix(b, Items(sys'.streams, r), sys'.clients[d])
    {
      assert Concerns(sys, d, r);
    }
  }

  lemma RefusedSaveKeepsInv<S, P, B>(b: Behaviour<S, P, B>, sys: System<S, P, B>, c: ClientId, r: Ref)
    requires Inv(b, sys, r) && Concerns(sys, c, r)
    requires var stream := Items(sys.streams, r); Append(stream, sys.clients[c].live.queue) == Appended(stream, false)
    ensures Inv(b, SaveStep(sys, c), r)
  {
    var sys' := SaveStep(sys, c);
    assert SameClients(sys, sys', c);
    forall d | d in sys'.clients && Concerns(sys', d, r) && !sys'.clients[d].spoiled
      ensures OnPrefix(b, Items(sys'.streams, r), sys'.clients[d])
    {
      assert Concerns(sys, d, r);
    }
  }

  lemma AcceptedSaveKeepsInv<S, P, B>(b: Behaviour<S, P, B>, sys: System<S, P, B>, c: ClientId, r: Ref)
    requires Inv(b, sys, r) && Concerns(sys, c, r)
    requires var me, stream := sys.clients[c], Items(sys.streams, r);
             && OnPrefix(b, stream, me) && Base(me) == |stream|
             && Append(stream, me.live.queue) == Appended(stream + me.live.queue, true)
    ensures Inv(b, SaveStep(sys, c), r)
  {
    var sys' := SaveStep(sys, c);
    var me, stream := sys.clients[c], Items(sys.streams, r);
    GrownIsCommitted(b, stream, Items(sys.origins, r), me);
    SnapshotsSurviveGrowth(b, r, stream, me.live.queue, Items(sys.snapshots, r));
    SavedStandsOnPrefix(b, stream, me);
    assert SameClients(sys, sys', c) && sys'.clients[c] == Drained(me);
    forall d | d in sys'.clients && Concerns(sys', d, r) && !sys'.clients[d].spoiled
      ensures OnPrefix(b, Items(sys'.streams, r), sys'.clients[d])
    {
      if d != c {
        assert Concerns(sys, d, r);
        PrefixSurvivesGrowth(b, stream, me.live.queue, sys.clients[d]);
      }
    }
  }

  /** One more snapshot, of the state at the bound or, if that was captured before, later; nothing else changes. */
  predicate CapturedAt<S(==), P(==), B(==)>(
      b: Behaviour<S, P, B>, sys: System<S, P, B>, sys': System<S, P, B>, r: Ref, upTo: int)
  {
    var stream, taken := Items(sys.streams, r), Items(sys.snapshots, r);
    var last := if taken == [] then 0 else taken[|taken| - 1].version;
    && 0 <= last <= |stream|
    && sys'.streams == sys.streams && sys'.clients == sys.clients
    && var state := StateAt(b, r, stream, Reached(last, Some(upTo), |stream|));
       state.Some? && Items(sys'.snapshots, r) == taken + [TakeSnapshot(b, state.value)]
  }

  /** In a serial history a capture takes committed state. */
  lemma CaptureTakes<S, P, B>(
      b: Behaviour<S, P, B>, sys: System<S, P, B>, sys': System<S, P, B>, r: Ref, upTo: int)
    requires Inv(b, sys, r) && sys' == Next(b, sys, Capture(r, upTo))
    ensures CapturedAt(b, sys, sys', r, upTo)
  {
    CaptureAdds(b, sys, r, upTo);
  }

  lemma CaptureAdds<S, P, B>(b: Behaviour<S, P, B>, sys: System<S, P, B>, r: Ref, upTo: int)
    requires Committed(b, r, Items(sys.streams, r))
    requires var taken := Items(sys.snapshots, r);
             taken != [] ==> CommittedSnapshot(b, r, Items(sys.streams, r), taken[|taken| - 1])
    ensures CapturedAt(b, sys, CaptureStep(b, sys, r, upTo), r, upTo)
  {
    RestoreUpTo(b, r, Items(sys.streams, r), Items(sys.snapshots, r), Some(upTo));
  }

  /** The snapshot it adds is committed iff that state round-trips. */
  lemma CaptureOutcome<S, P, B>(b: Behaviour<S, P, B>, sys: System<S, P, B>, r: Ref, upTo: int)
    requires StreamInv(b, sys, r)
    ensures StreamInv(b, CaptureStep(b, sys, r, upTo), r) <==> CapturesWell(b, sys, r, upTo)
  {
    var stream, taken := Items(sys.streams, r), Items(sys.snapshots, r);
    RestoreUpTo(b, r, stream, taken, Some(upTo));
    var last := if taken == [] then 0 else taken[|taken| - 1].version;
    var k := Reached(last, Some(upTo), |stream|);
    TakenIsCommittedIff(b, r, stream, k);
    SnapshotAdded(b, sys, r, TakeSnapshot(b, StateAt(b, r, stream, k).value));
  }

  lemma SnapshotAdded<S, P, B>(b: Behaviour<S, P, B>, sys: System<S, P, B>, r: Ref, s: Snapshot<B>)
    requires StreamInv(b, sys, r)
    ensures var sys' := sys.(snapshots := sys.snapshots[r := Items(sys.snapshots, r) + [s]]);
            StreamInv(b, sys', r) <==> CommittedSnapshot(b, r, Items(sys.streams, r), s)
  {
    AllCommittedSnoc(b, r, Items(sys.streams, r), Items(sys.snapshots, r), s);
  }

  lemma AllCommittedSnoc<S, P, B>(
      b: Behaviour<S, P, B>, r: Ref, stream: seq<Event<P>>, taken: seq<Snapshot<B>>, s: Snapshot<B>)
    requires AllCommitted(b, r, stream, taken)
    ensures AllCommitted(b, r, stream, taken + [s]) <==> CommittedSnapshot(b, r, stream, s)
  {
    assert (taken + [s])[|taken|] == s;
  }

  lemma CaptureKeepsInv<S, P, B>(b: Behaviour<S, P, B>, sys: System<S, P, B>, q: Ref, upTo: int, r: Ref)
    requires Inv(b, sys, r) && Honest(b, sys, Capture(q, upTo), r)
    ensures Inv(b, CaptureStep(b, sys, q, upTo), r)
  {
    var sys' := CaptureStep(b, sys, q, upTo);
    if q == r {
      CaptureOutcome(b, sys, r, upTo);
    }
    assert sys'.clients == sys.clients && sys'.streams == sys.streams;
    forall d | d in sys'.clients && Concerns(sys', d, r) && !sys'.clients[d].spoiled
      ensures OnPrefix(b, Items(sys'.streams, r), sys'.clients[d])
    {
      assert Concerns(sys, d, r);
    }
  }

  lemma DiscardKeepsInv<S, P, B>(b: Behaviour<S, P, B>, sys: System<S, P, B>, c: ClientId, r: Ref)
    requires Inv(b, sys, r)
    ensures Inv(b, Next(b, sys, Discard(c)), r)
  {
    var sys' := Next(b, sys, Discard(c));
    forall d | d in sys'.clients && Concerns(sys', d, r) && !sys'.clients[d].spoiled
      ensures OnPrefix(b, Items(sys'.streams, r), sys'.clients[d])
    {
      assert Concerns(sys, d, r);
    }
  }

  lemma StepKeepsInv<S, P, B>(b: Behaviour<S, P, B>, sys: System<S, P, B>, step: Step<P>, r: Ref)
    requires Versions(sys) && Inv(b, sys, r) && Honest(b, sys, step, r)
    ensures Inv(b, Next(b, sys, step), r)
  {
    match step
    case Load(c, q) => LoadKeepsInv(b, sys, c, q, r);
    case Begin(c, q, p) => BeginKeepsInv(b, sys, c, q, p, r);
    case Fire(c, p) => FireKeepsInv(b, sys, c, p, r);
    case Save(c) => SaveKeepsInv(b, sys, c, r);
    case Discard(c) => DiscardKeepsInv(b, sys, c, r);
    case Capture(q, upTo) => CaptureKeepsInv(b, sys, q, upTo, r);
  }

  lemma HonestPrefix<S, P, B>(b: Behaviour<S, P, B>, steps: seq<Step<P>>, n: nat, r: Ref)
    requires HonestRun(b, steps, r) && n <= |steps|
    ensures HonestRun(b, steps[..n], r)
  {
    forall k | 0 <= k < n ensures Honest(b, Run(b, steps[..n][..k]), steps[..n][k], r) {
      assert steps[..n][..k] == steps[..k];
    }
  }

  /** After every honest run the stream is one serial history, and so is what every unspoiled client of it holds. */
  lemma {:induction false} RunKeepsInv<S, P, B>(b: Behaviour<S, P, B>, steps: seq<Step<P>>, r: Ref)
    requires HonestRun(b, steps, r)
    ensures Inv(b, Run(b, steps), r)
  {
    if steps != [] {
      var n := |steps| - 1;
      HonestPrefix(b, steps, n, r);
      RunKeepsInv(b, steps[..n], r);
      RunKeepsVersions(b, steps[..n]);
      StepKeepsInv(b, Run(b, steps[..n]), steps[n], r);
    }
  }

  // ---- when every client stands on its prefix --------------------------------------------------------------

  /** The stream is one serial history, and so is what every client of it holds. */
  predicate AllStand<S(==), P, B>(b: Behaviour<S, P, B>, sys: System<S, P, B>, r: Ref) {
    && StreamInv(b, sys, r)
    && forall c | c in sys.clients && Concerns(sys, c, r) :: OnPrefix(b, Items(sys.streams, r), sys.clients[c])
  }

  predicate NoneSpoiled<S, P, B>(sys: System<S, P, B>, r: Ref) {
    forall c | c in sys.clients && Concerns(sys, c, r) :: !sys.clients[c].spoiled
  }

  lemma CleanStepSpoilsNone<S, P, B>(b: Behaviour<S, P, B>, sys: System<S, P, B>, step: Step<P>, r: Ref)
    requires NoneSpoiled(sys, r) && Clean(b, sys, step, r)
    ensures NoneSpoiled(Next(b, sys, step), r) && Honest(b, sys, step, r)
  {
    match step
    case Fire(c, p) => FireSpoilsNone(b, sys, c, p, r);
    case Save(c) =>
      assert Concerns(sys, c, r) ==> !sys.clients[c].spoiled;
      SaveSpoilsNone(sys, c, r);
    case _ =>
      var sys' := Next(b, sys, step);
      forall c | c in sys'.clients && Concerns(sys', c, r) ensures !sys'.clients[c].spoiled {
        assert c in sys.clients && sys'.clients[c] == sys.clients[c] ==> Concerns(sys, c, r);
      }
  }

  lemma FireSpoilsNone<S, P, B>(b: Behaviour<S, P, B>, sys: System<S, P, B>, c: ClientId, p: P, r: Ref)
    requires NoneSpoiled(sys, r) && (Concerns(sys, c, r) ==> LeavesAlone(b, sys.clients[c].live.entity.state, p))
    ensures NoneSpoiled(FireStep(b, sys, c, p), r)
  {
    var sys' := FireStep(b, sys, c, p);
    forall d | d in sys'.clients && Concerns(sys', d, r) ensures !sys'.clients[d].spoiled {
      assert Concerns(sys, d, r);
    }
  }

  lemma SaveSpoilsNone<S, P, B>(sys: System<S, P, B>, c: ClientId, r: Ref)
    requires NoneSpoiled(sys, r)
    ensures NoneSpoiled(SaveStep(sys, c), r)
  {
    var sys' := SaveStep(sys, c);
    forall d | d in sys'.clients && Concerns(sys', d, r) ensures !sys'.clients[d].spoiled {
      assert Concerns(sys, d, r);
    }
  }

  lemma {:induction false} CleanIsHonest<S, P, B>(b: Behaviour<S, P, B>, steps: seq<Step<P>>, r: Ref)
    requires CleanRun(b, steps, r)
    ensures HonestRun(b, steps, r) && NoneSpoiled(Run(b, steps), r)
  {
    if steps != [] {
      var n := |steps| - 1;
      CleanPrefix(b, steps, n, r);
      CleanIsHonest(b, steps[..n], r);
      CleanStepSpoilsNone(b, Run(b, steps[..n]), steps[n], r);
      HonestSnoc(b, steps, r);
    }
  }

  lemma HonestSnoc<S, P, B>(b: Behaviour<S, P, B>, steps: seq<Step<P>>, r: Ref)
    requires steps != [] && HonestRun(b, steps[..|steps| - 1], r)
    requires Honest(b, Run(b, steps[..|steps| - 1]), steps[|steps| - 1], r)
    ensures HonestRun(b, steps, r)
  {
    var n := |steps| - 1;
    forall k | 0 <= k < |steps| ensures Honest(b, Run(b, steps[..k]), steps[k], r) {
      if k < n {
        assert steps[..n][..k] == steps[..k] && steps[..n][k] == steps[k];
      }
    }
  }

  lemma CleanPrefix<S, P, B>(b: Behaviour<S, P, B>, steps: seq<Step<P>>, n: nat, r: Ref)
    requires CleanRun(b, steps, r) && n <= |steps|
    ensures CleanRun(b, steps[..n], r)
  {
    forall k | 0 <= k < n ensures Clean(b, Run(b, steps[..n][..k]), steps[..n][k], r) {
      assert steps[..n][..k] == steps[..k];
    }
  }

  lemma StandingStepIsClean<S, P, B>(b: Behaviour<S, P, B>, sys: System<S, P, B>, step: Step<P>, r: Ref)
    requires AllStand(b, sys, r) && AllStand(b, Next(b, sys, step), r)
    ensures Clean(b, sys, step, r)
  {
    match step
    case Fire(c, p) =>
      if Concerns(sys, c, r) {
        FireKeepsPrefixIff(b, Items(sys.streams, r), sys.clients[c], p);
        assert Concerns(Next(b, sys, step), c, r);
      }
    case Capture(q, upTo) =>
      if q == r {
        CaptureOutcome(b, sys, r, upTo);
      }
    case _ =>
  }

  /**
    Throughout a run every client of r stands on the replay of its stream's prefix and its queue, and the
    stream is one serial history, if and only if no handler of r raised after changing the state and every
    snapshot taken of r gives its state back.
   */
  lemma AllStandIff<S, P, B>(b: Behaviour<S, P, B>, steps: seq<Step<P>>, r: Ref)
    ensures (forall k | 0 <= k <= |steps| :: AllStand(b, Run(b, steps[..k]), r)) <==> CleanRun(b, steps, r)
  {
    if CleanRun(b, steps, r) {
      forall k | 0 <= k <= |steps| ensures AllStand(b, Run(b, steps[..k]), r) {
        CleanPrefix(b, steps, k, r);
        CleanRunStands(b, steps[..k], r);
      }
    }
    if forall k | 0 <= k <= |steps| :: AllStand(b, Run(b, steps[..k]), r) {
      forall k | 0 <= k < |steps| ensures Clean(b, Run(b, steps[..k]), steps[k], r) {
        StandingIsCleanAt(b, steps, k, r);
      }
    }
  }

  lemma CleanRunStands<S, P, B>(b: Behaviour<S, P, B>, steps: seq<Step<P>>, r: Ref)
    requires CleanRun(b, steps, r)
    ensures AllStand(b, Run(b, steps), r)
  {
    CleanIsHonest(b, steps, r);
    RunKeepsInv(b, steps, r);
  }

  lemma StandingIsCleanAt<S, P, B>(b: Behaviour<S, P, B>, steps: seq<Step<P>>, k: nat, r: Ref)
    requires k < |steps| && AllStand(b, Run(b, steps[..k]), r) && AllStand(b, Run(b, steps[..k + 1]), r)
    ensures Clean(b, Run(b, steps[..k]), steps[k], r)
  {
    assert steps[..k + 1] == steps[..k] + [steps[k]];
    RunSnoc(b, steps[..k], steps[k]);
    StandingStepIsClean(b, Run(b, steps[..k]), steps[k], r);
  }

  // ---- what holds of every honest run ---------------------------------------------------------------------

  /** Event i was produced on `origin`, and that is the replay of exactly the i events before it. */
  predicate ProducedOn<S(==), P, B>(b: Behaviour<S, P, B>, r: Ref, stream: seq<Event<P>>, i: nat, origin: Entity<S>)
    requires i < |stream|
  {
    && Replay(b, Blank(b, r), stream[..i]) == Some(origin)
    && Mutate(b, stream[i], origin).Some?
    && Replay(b, Blank(b, r), stream[..i + 1]) == Mutate(b, stream[i], origin)
  }

  /** Numbered 1..n in insertion order, the saves joined in their order, each event produced on those before it. */
  predicate SerialHistory<S(==), P(==), B>(b: Behaviour<S, P, B>, sys: System<S, P, B>, r: Ref) {
    var stream, origins := Items(sys.streams, r), Items(sys.origins, r);
    && (forall i | 0 <= i < |stream| :: stream[i].version == i + 1 && stream[i].reference == r)
    && stream == SavedUnder(sys.saves, r)
    && |origins| == |stream|
    && (forall i | 0 <= i < |stream| :: ProducedOn(b, r, stream, i, origins[i]))
  }

  lemma InvIsSerial<S, P, B>(b: Behaviour<S, P, B>, sys: System<S, P, B>, r: Ref)
    requires Versions(sys) && StreamInv(b, sys, r)
    ensures SerialHistory(b, sys, r)
  {
    assert VersionsAt(sys, r);
    var stream, origins := Items(sys.streams, r), Items(sys.origins, r);
    forall i | 0 <= i < |stream| ensures ProducedOn(b, r, stream, i, origins[i]) {
      assert stream[..i + 1] == stream[..i] + [stream[i]];
      ReplaySnoc(b, Blank(b, r), stream[..i], stream[i]);
      StateAtIsPosition(b, r, stream, i + 1);
    }
  }

  /**
    One serial history: after any honest run, the stream is numbered 1..n in insertion order, is the
    successful saves' batches joined in save order, and event i was produced on the replay of exactly
    the i events before it: no update is lost.
   */
  lemma OneSerialHistory<S, P, B>(b: Behaviour<S, P, B>, steps: seq<Step<P>>, r: Ref)
    requires HonestRun(b, steps, r)
    ensures SerialHistory(b, Run(b, steps), r)
  {
    RunKeepsInv(b, steps, r);
    RunKeepsVersions(b, steps);
    InvIsSerial(b, Run(b, steps), r);
  }

  /** The client holds what replaying the whole stream gives, with nothing queued. */
  predicate LoadedWhole<S(==), P, B>(
      b: Behaviour<S, P, B>, sys: System<S, P, B>, sys': System<S, P, B>, c: ClientId, r: Ref)
  {
    && c in sys'.clients
    && Replay(b, Blank(b, r), Items(sys.streams, r)) == Some(sys'.clients[c].live.entity)
    && sys'.clients[c].live.queue == []
    && sys'.clients[c].live.entity.version == |Items(sys.streams, r)|
  }

  /** A load never raises after an honest run and gives what replaying the whole stream gives. */
  lemma LoadGivesCommittedState<S, P, B>(b: Behaviour<S, P, B>, steps: seq<Step<P>>, c: ClientId, r: Ref)
    requires HonestRun(b, steps, r)
    ensures LoadedWhole(b, Run(b, steps), Run(b, steps + [Load(c, r)]), c, r)
  {
    RunKeepsInv(b, steps, r);
    RunSnoc(b, steps, Load(c, r));
    LoadedClient(b, Run(b, steps), c, r);
  }

  /** The stream has grown by the event if the aggregate accepts it on the replayed state, and else not at all. */
  predicate UpdateCommitted<S(==), P(==), B>(
      b: Behaviour<S, P, B>, sys: System<S, P, B>, sys': System<S, P, B>, r: Ref, p: P)
  {
    var stream := Items(sys.streams, r);
    var now := Replay(b, Blank(b, r), stream);
    && now.Some?
    && Items(sys'.streams, r)
    == stream + (if b.apply(now.value.state, p).Some? then [Event(r, |stream| + 1, Change, p)] else [])
  }

  /**
    A handler that loads, triggers and saves without interruption commits its event at the next version if
    the aggregate accepts it on the replayed state, and leaves the stream alone otherwise.
   */
  lemma UninterruptedUpdate<S, P, B>(b: Behaviour<S, P, B>, steps: seq<Step<P>>, c: ClientId, r: Ref, p: P)
    requires HonestRun(b, steps, r)
    ensures UpdateCommitted(
              b, Run(b, steps), Run(b, steps + [Load(c, r)] + [Step.Fire(c, p)] + [Save(c)]), r, p)
  {
    RunThree(b, steps, Load(c, r), Step.Fire(c, p), Save(c));
    RunKeepsInv(b, steps, r);
    LoadFireSave(b, Run(b, steps), c, r, p);
  }

  lemma LoadFireSave<S, P, B>(b: Behaviour<S, P, B>, sys: System<S, P, B>, c: ClientId, r: Ref, p: P)
    requires StreamInv(b, sys, r)
    ensures UpdateCommitted(b, sys, SaveStep(FireStep(b, LoadStep(b, sys, c, r), c, p), c), r, p)
  {
    LoadedClient(b, sys, c, r);
    var stream := Items(sys.streams, r);
    FireSave(b, LoadStep(b, sys, c, r), c, r, Replay(b, Blank(b, r), stream).value, stream, p);
  }

  lemma FireSave<S, P, B>(
    b: Behaviour<S, P, B>, sys: System<S, P, B>, c: ClientId, r: Ref, m: Entity<S>, stream: seq<Event<P>>, p: P)
    requires stream == Items(sys.streams, r) && Numbered(stream, 0) && m.reference == r && m.version == |stream|
    requires c in sys.clients && sys.clients[c] == Client(Live(m, []), [], false)
    ensures Items(SaveStep(FireStep(b, sys, c, p), c).streams, r)
         == stream + (if b.apply(m.state, p).Some? then [Event(r, |stream| + 1, Change, p)] else [])
  {
    var e := Event(r, |stream| + 1, Change, p);
    assert NextEvent(Live(m, []), p) == e;
    assert [] + [e] == [e] && stream + [] == stream;
    AppendNumbered(stream, [e], |stream|);
  }

  /** A captured snapshot is always of committed state, and capturing touches neither streams nor clients. */
  lemma CaptureStoresCommittedState<S, P, B>(b: Behaviour<S, P, B>, steps: seq<Step<P>>, r: Ref, upTo: int)
    requires HonestRun(b, steps, r)
    ensures CapturedAt(b, Run(b, steps), Run(b, steps + [Capture(r, upTo)]), r, upTo)
  {
    RunSnoc(b, steps, Capture(r, upTo));
    RunKeepsInv(b, steps, r);
    CaptureTakes(b, Run(b, steps), Run(b, steps + [Capture(r, upTo)]), r, upTo);
  }
}
