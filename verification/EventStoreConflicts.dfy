/**
  What goes wrong when an aggregate is used on: after a refused save, or after a handler that raised halfway.
 */
module EventStoreConflicts {
  import opened Wrappers
  import opened EventSourcing
  import opened EventStore
  import opened EventStoreSystem
  import opened EventStoreHistory

  /** The client after triggers with these payloads, those that raise included. */
  function FiredThrough<S(==), P, B>(b: Behaviour<S, P, B>, me: Client<S, P>, payloads: seq<P>): Client<S, P> {
    if payloads == [] then me
    else FiredClient(b, FiredThrough(b, me, payloads[..|payloads| - 1]), payloads[|payloads| - 1])
  }

  /** No handler of these triggers raises after changing the state. */
  ghost predicate FiresCleanly<S, P, B>(b: Behaviour<S, P, B>, me: Client<S, P>, payloads: seq<P>) {
    forall i | 0 <= i < |payloads| ::
      LeavesAlone(b, FiredThrough(b, me, payloads[..i]).live.entity.state, payloads[i])
  }

  /** The client has something to save, and somebody saved since it loaded. */
  ghost predicate InConflict<S, P, B>(b: Behaviour<S, P, B>, steps: seq<Step<P>>, c: ClientId) {
    var sys := Run(b, steps);
    && c in sys.clients && sys.clients[c].live.queue != []
    && Base(sys.clients[c]) != |Items(sys.streams, sys.clients[c].live.entity.reference)|
  }

  /** The client after its save was refused, and after further triggers: its queue was drained, nothing else. */
  ghost function Kept<S, P, B>(
      b: Behaviour<S, P, B>, steps: seq<Step<P>>, c: ClientId, payloads: seq<P>): Client<S, P>
    requires c in Run(b, steps).clients
  {
    FiredThrough(b, Drained(Run(b, steps).clients[c]), payloads)
  }

  /** Whatever is triggered, the queue follows on from the version the client was drained at. */
  lemma {:induction false} FiredNumbers<S, P, B>(b: Behaviour<S, P, B>, me: Client<S, P>, payloads: seq<P>)
    requires me.live.queue == [] && me.bases == []
    ensures var fired := FiredThrough(b, me, payloads);
            && Numbered(fired.live.queue, me.live.entity.version)
            && Belongs(fired.live.queue, me.live.entity.reference)
            && fired.live.entity.reference == me.live.entity.reference
            && fired.live.entity.version == me.live.entity.version + |fired.live.queue|
            && |fired.bases| == |fired.live.queue|
  {
    if payloads != [] {
      FiredNumbers(b, me, payloads[..|payloads| - 1]);
    }
  }

  /** What a later save of a client drained at `version` comes to. */
  ghost predicate AcceptedFrom<P>(stream: seq<Event<P>>, a: Appended<P>, version: int) {
    && (a.ok <==> |stream| <= version)
    && (Numbered(a.stream, 0) <==> version <= |stream|)
  }

  /**
    Why a client must be dropped after a conflict: its queue is drained while its version stays ahead. Kept,
    with any triggers and any steps of others since, its next save is accepted as soon as the version it had at
    the conflict has reached the stream's length, and past it leaves a gap.
   */
  lemma KeptAfterConflict<S, P, B>(
      b: Behaviour<S, P, B>, steps: seq<Step<P>>, c: ClientId, later: seq<Step<P>>, payloads: seq<P>)
    requires InConflict(b, steps, c) && Kept(b, steps, c, payloads).live.queue != []
    ensures var entity := Run(b, steps).clients[c].live.entity;
            var stream := Items(Run(b, steps + [Save(c)] + later).streams, entity.reference);
            && c !in Run(b, steps + [Save(c)]).clients
            && AcceptedFrom(stream, Append(stream, Kept(b, steps, c, payloads).live.queue), entity.version)
  {
    var me := Run(b, steps).clients[c];
    SaveSucceedsIff(b, steps, c);
    RunKeepsVersions(b, steps);
    SaveIsAtomic(Run(b, steps), c);
    FiredNumbers(b, Drained(me), payloads);
    var after := steps + [Save(c)] + later;
    RunKeepsVersions(b, after);
    assert VersionsAt(Run(b, after), me.live.entity.reference);
    AppendNumbered(Items(Run(b, after).streams, me.live.entity.reference),
                   Kept(b, steps, c, payloads).live.queue, me.live.entity.version);
  }

  /** The queue and what it was produced on are what clean triggers on `kept` give. */
  ghost predicate FiredFrom<S, P, B>(b: Behaviour<S, P, B>, kept: Entity<S>, me: Client<S, P>) {
    && Replay(b, kept, me.live.queue) == Some(me.live.entity)
    && |me.bases| == |me.live.queue|
    && forall i | 0 <= i < |me.bases| :: Some(me.bases[i]) == Replay(b, kept, me.live.queue[..i])
  }

  lemma FiringStays<S, P, B>(b: Behaviour<S, P, B>, kept: Entity<S>, me: Client<S, P>, p: P)
    requires FiredFrom(b, kept, me) && LeavesAlone(b, me.live.entity.state, p)
    ensures FiredFrom(b, kept, FiredClient(b, me, p))
  {
    if Trigger(b, me.live, p).Some? {
      var queue, e := me.live.queue, NextEvent(me.live, p);
      ReplaySnoc(b, kept, queue, e);
      var bases := me.bases + [me.live.entity];
      forall i | 0 <= i < |bases| ensures Some(bases[i]) == Replay(b, kept, (queue + [e])[..i]) {
        assert (queue + [e])[..i] == queue[..i];
        assert queue[..|queue|] == queue;
      }
    }
  }

  lemma {:induction false} FiredThroughCleanly<S, P, B>(b: Behaviour<S, P, B>, me: Client<S, P>, payloads: seq<P>)
    requires me.live.queue == [] && me.bases == [] && FiresCleanly(b, me, payloads)
    ensures FiredFrom(b, me.live.entity, FiredThrough(b, me, payloads))
  {
    if payloads != [] {
      var n := |payloads| - 1;
      forall i | 0 <= i < n
        ensures LeavesAlone(b, FiredThrough(b, me, payloads[..n][..i]).live.entity.state, payloads[..n][i])
      {
        assert payloads[..n][..i] == payloads[..i];
      }
      FiredThroughCleanly(b, me, payloads[..n]);
      FiringStays(b, me.live.entity, FiredThrough(b, me, payloads[..n]), payloads[n]);
    }
  }

  lemma KeptStandsOnReplay<S, P, B>(
      b: Behaviour<S, P, B>, stream: seq<Event<P>>, kept: Entity<S>, me: Client<S, P>)
    requires FiredFrom(b, kept, me) && Replay(b, Blank(b, kept.reference), stream) == Some(kept)
    ensures ProducedInOrder(b, kept.reference, stream + me.live.queue, me.bases, |stream|)
  {
    var r, queue := kept.reference, me.live.queue;
    forall i | 0 <= i < |me.bases|
      ensures Some(me.bases[i]) == Replay(b, Blank(b, r), (stream + queue)[..|stream| + i])
    {
      assert (stream + queue)[..|stream| + i] == stream + queue[..i];
      ReplaySplits(b, Blank(b, r), stream, queue[..i]);
    }
  }

  lemma SerialStandsOnReplay<S, P, B>(
      b: Behaviour<S, P, B>, stream: seq<Event<P>>, kept: Entity<S>, me: Client<S, P>)
    requires FiredFrom(b, kept, me) && me.live.queue != []
    requires ProducedInOrder(b, kept.reference, stream + me.live.queue, me.bases, |stream|)
    ensures Replay(b, Blank(b, kept.reference), stream) == Some(kept)
  {
    assert (stream + me.live.queue)[..|stream| + 0] == stream && me.live.queue[..0] == [];
    assert Some(me.bases[0]) == Replay(b, kept, me.live.queue[..0]);
  }

  /** An append succeeded and each event of the batch was produced on the replay of exactly the events before it. */
  predicate AppendedInOrder<S(==), P, B>(
      b: Behaviour<S, P, B>, r: Ref, stream: seq<Event<P>>, a: Appended<P>, origins: seq<Entity<S>>)
  {
    a.ok && |stream| <= |a.stream| && ProducedInOrder(b, r, a.stream, origins, |stream|)
  }

  lemma SerialFromIff<S, P, B>(
      b: Behaviour<S, P, B>, stream: seq<Event<P>>, kept: Entity<S>, me: Client<S, P>)
    requires Numbered(stream, 0) && Belongs(stream, kept.reference) && kept.version >= 0
    requires Numbered(me.live.queue, kept.version) && FiredFrom(b, kept, me) && me.live.queue != []
    ensures AppendedInOrder(b, kept.reference, stream, Append(stream, me.live.queue), me.bases) <==>
            Replay(b, Blank(b, kept.reference), stream) == Some(kept)
  {
    AppendNumbered(stream, me.live.queue, kept.version);
    if Replay(b, Blank(b, kept.reference), stream) == Some(kept) {
      ReplayPosition(b, Blank(b, kept.reference), stream);
      KeptStandsOnReplay(b, stream, kept, me);
    } else if AppendedInOrder(b, kept.reference, stream, Append(stream, me.live.queue), me.bases) {
      SerialStandsOnReplay(b, stream, kept, me);
    }
  }

  /**
    That save, with every trigger since the conflict clean, is accepted and keeps the history serial if and only
    if the entity kept is what replaying the stream gives by then: its state too, not just its version.
   */
  lemma KeptSaveIsSerialIff<S, P, B>(
      b: Behaviour<S, P, B>, steps: seq<Step<P>>, c: ClientId, later: seq<Step<P>>, payloads: seq<P>)
    requires InConflict(b, steps, c) && FiresCleanly(b, Drained(Run(b, steps).clients[c]), payloads)
    requires Kept(b, steps, c, payloads).live.queue != []
    ensures var entity := Run(b, steps).clients[c].live.entity;
            var r := entity.reference;
            var stream, me := Items(Run(b, steps + [Save(c)] + later).streams, r), Kept(b, steps, c, payloads);
            AppendedInOrder(b, r, stream, Append(stream, me.live.queue), me.bases) <==>
            Replay(b, Blank(b, r), stream) == Some(entity)
  {
    var me := Run(b, steps).clients[c];
    RunKeepsVersions(b, steps);
    SaveIsAtomic(Run(b, steps), c);
    FiredNumbers(b, Drained(me), payloads);
    FiredThroughCleanly(b, Drained(me), payloads);
    var after := steps + [Save(c)] + later;
    RunKeepsVersions(b, after);
    assert VersionsAt(Run(b, after), me.live.entity.reference);
    SerialFromIff(b, Items(Run(b, after).streams, me.live.entity.reference), me.live.entity,
                  Kept(b, steps, c, payloads));
  }

  /** A running total: the smallest aggregate on which an update can be lost. */
  function Total(): Behaviour<int, int, int> {
    Behaviour(0, p => Some(p), (s, p) => Some(s + p), (s, p) => s, s => s, s => s)
  }

  /** Two clients add 10 and 20; the second is refused but kept, adds 5, and now believes 25 where replay gives 15. */
  lemma KeptClientLosesAnUpdate(r: Ref)
    ensures var b := Total();
            var first := Trigger(b, Live(Blank(b, r), []), 10).value;
            var second := Trigger(b, Live(Blank(b, r), []), 20).value;
            var stream := Append([], first.queue).stream;
            var again := Trigger(b, second.(queue := []), 5).value;
            var refused, accepted := Append(stream, second.queue), Append(stream, again.queue);
            && !refused.ok && refused.stream == stream
            && accepted.ok && again.entity.state == 25
            && Replay(b, Blank(b, r), accepted.stream) == Some(Entity(r, 2, 15))
  {
    var b := Total();
    var e1, e2 := Event(r, 1, Change, 10), Event(r, 2, Change, 5);
    assert [] + [e1] == [e1];
    assert Append([e1], []) == Appended([e1], true);
    assert [e1][0].version == 1;
    AppendNumbered([e1], [e2], 1);
    assert [e1] + [e2] == [e1, e2];
    assert [e1, e2][..1] == [e1];
    ReplayOne(b, Blank(b, r), e1);
  }

  // ---- a handler that raises halfway -----------------------------------------------------------------------

  /** The same total with a handler that adds first and then raises if what it added was negative. */
  function Halfway(): Behaviour<int, int, int> {
    Behaviour(0, p => Some(p), (s, p) => if p < 0 then None else Some(s + p), (s, p) => s + p, s => s, s => s)
  }

  lemma FirstLoad<S, P, B>(b: Behaviour<S, P, B>, c: ClientId, r: Ref)
    ensures var loaded := Client(Live(Blank(b, r), []), [], false);
            LoadStep(b, Empty(), c, r) == Empty<S, P, B>().(clients := map[c := loaded])
  {
    assert Between<P>([], 0, None) == [];
  }

  lemma FirstSave<S, P, B>(sys: System<S, P, B>, c: ClientId, me: Client<S, P>, e: Event<P>, base: Entity<S>)
    requires sys == Empty<S, P, B>().(clients := map[c := me])
    requires me.live.queue == [e] && me.bases == [base]
    ensures var r, sys' := me.live.entity.reference, SaveStep(sys, c);
            Items(sys'.streams, r) == [e] && Items(sys'.origins, r) == [base]
  {
    assert [e][1..] == [] && [] + [e] == [e] && [] + [base] == [base];
    assert Append([], [e]) == Appended([e], true);
  }

  /**
    Trigger -3, which raises, then 5, and save: the event was produced on -3, while replaying what precedes it
    gives 0.
   */
  lemma DirtyRunBreaksHistory(c: ClientId, r: Ref) returns (steps: seq<Step<int>>)
    ensures var sys := Run(Halfway(), steps);
            var stream, origins := Items(sys.streams, r), Items(sys.origins, r);
            && |stream| == 1 && |origins| == 1 && origins[0].state == -3
            && Replay(Halfway(), Blank(Halfway(), r), stream[..0]) == Some(Blank(Halfway(), r))
            && !ProducedOn(Halfway(), r, stream, 0, origins[0])
  {
    var b := Halfway();
    var begun := [] + [Load(c, r)] + [Step.Fire(c, -3)];
    steps := begun + [Step.Fire(c, 5)] + [Save(c)];
    RunTwo(b, [], Load(c, r), Step.Fire(c, -3));
    RunTwo(b, begun, Step.Fire(c, 5), Save(c));
    FirstLoad(b, c, r);
    var loaded := Client(Live(Blank(b, r), []), [], false);
    var spoiled := FiredClient(b, loaded, -3);
    assert spoiled == Client(Live(Entity(r, 0, -3), []), [], true);
    var fired := FiredClient(b, spoiled, 5);
    assert fired.live.queue == [Event(r, 1, Change, 5)] && fired.bases == [Entity(r, 0, -3)];
    FirstSave(FireStep(b, Run(b, begun), c, 5), c, fired, Event(r, 1, Change, 5), Entity(r, 0, -3));
  }
}
