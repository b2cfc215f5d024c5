/**
  What an aggregate's state is in terms of the payloads alone: a stream's creation, if it has one, is its first
  event, and the changes after it go on from the state that was built.
 */
module EventStoreCreation {
  import opened Wrappers
  import opened EventSourcing
  import opened EventStore
  import opened EventStoreSystem
  import opened EventStoreHistory

  predicate CreatesFirst<P>(events: seq<Event<P>>) {
    forall i | 0 <= i < |events| && events[i].kind == Creation :: events[i].version == 1
  }

  ghost predicate AllCreateFirst<S, P, B>(sys: System<S, P, B>) {
    && (forall r | r in sys.streams :: CreatesFirst(sys.streams[r]))
    && (forall c | c in sys.clients :: CreatesFirst(sys.clients[c].live.queue))
  }

  lemma SaveKeepsFirst<S, P, B>(sys: System<S, P, B>, c: ClientId)
    requires AllCreateFirst(sys)
    ensures AllCreateFirst(SaveStep(sys, c))
  {
    if c in sys.clients {
      var me := sys.clients[c];
      var k := AppendWritesFreePrefix(Items(sys.streams, me.live.entity.reference), me.live.queue);
    }
  }

  lemma StepKeepsFirst<S, P, B>(b: Behaviour<S, P, B>, sys: System<S, P, B>, step: Step<P>)
    requires AllCreateFirst(sys)
    ensures AllCreateFirst(Next(b, sys, step))
  {
    match step
    case Save(c) => SaveKeepsFirst(sys, c);
    case _ =>
  }

  lemma {:induction false} RunKeepsFirst<S, P, B>(b: Behaviour<S, P, B>, steps: seq<Step<P>>)
    ensures AllCreateFirst(Run(b, steps))
  {
    if steps != [] {
      RunKeepsFirst(b, steps[..|steps| - 1]);
      StepKeepsFirst(b, Run(b, steps[..|steps| - 1]), steps[|steps| - 1]);
    }
  }

  /** In every run a stream has at most one creation, as its first event. */
  lemma OnlyFirstEventCreates<S, P, B>(b: Behaviour<S, P, B>, steps: seq<Step<P>>, r: Ref, i: nat)
    requires 0 < i < |Items(Run(b, steps).streams, r)|
    ensures Items(Run(b, steps).streams, r)[i].kind == Change
  {
    RunKeepsFirst(b, steps);
    RunKeepsVersions(b, steps);
    assert VersionsAt(Run(b, steps), r);
  }

  /** The state the payloads lead to, from the one the creation built or else from the blank one. */
  function StateOf<S, P, B>(b: Behaviour<S, P, B>, stream: seq<Event<P>>): Option<S> {
    if stream == [] || stream[0].kind == Change then Fold(b, b.blank, stream)
    else match b.created(stream[0].payload) case None => None case Some(s) => Fold(b, s, stream[1..])
  }

  lemma ReplayIsState<S, P, B>(b: Behaviour<S, P, B>, r: Ref, stream: seq<Event<P>>)
    requires Replay(b, Blank(b, r), stream).Some? && Numbered(stream, 0) && Belongs(stream, r)
    requires forall i | 0 < i < |stream| :: stream[i].kind == Change
    ensures StateOf(b, stream).Some?
    ensures Replay(b, Blank(b, r), stream) == Some(Entity(r, |stream|, StateOf(b, stream).value))
  {
    if stream == [] || stream[0].kind == Change {
      ReplayAcceptsOnlyOwnHistory(b, Blank(b, r), stream);
    } else {
      assert stream == [stream[0]] + stream[1..];
      CreationStartsHistory(b, Blank(b, r), stream[0], stream[1..]);
    }
  }

  /** The client holds the aggregate at its last version, in this state, with nothing queued. */
  predicate HoldsState<S(==), P(==), B>(sys: System<S, P, B>, c: ClientId, r: Ref, version: int, state: Option<S>) {
    state.Some? && c in sys.clients && sys.clients[c].live == Live(Entity(r, version, state.value), [])
  }

  /** After every honest run a load gives the state that the stream's payloads lead to. */
  lemma LoadGivesState<S, P, B>(b: Behaviour<S, P, B>, steps: seq<Step<P>>, c: ClientId, r: Ref)
    requires HonestRun(b, steps, r)
    ensures var stream := Items(Run(b, steps).streams, r);
            HoldsState(Run(b, steps + [Load(c, r)]), c, r, |stream|, StateOf(b, stream))
  {
    LoadGivesCommittedState(b, steps, c, r);
    RunKeepsVersions(b, steps);
    assert VersionsAt(Run(b, steps), r);
    var stream := Items(Run(b, steps).streams, r);
    forall i | 0 < i < |stream| ensures stream[i].kind == Change {
      OnlyFirstEventCreates(b, steps, r, i);
    }
    ReplayIsState(b, r, stream);
  }

  /** What was created and saved is what anybody loads next: the state that was built, at version 1. */
  lemma CreationIsLoaded<S, P, B>(
      b: Behaviour<S, P, B>, steps: seq<Step<P>>, c: ClientId, d: ClientId, r: Ref, p: P)
    requires HonestRun(b, steps, r) && b.created(p).Some? && Items(Run(b, steps).streams, r) == []
    ensures HoldsState(Run(b, steps + [Begin(c, r, p)] + [Save(c)] + [Load(d, r)]), d, r, 1, b.created(p))
  {
    RunThree(b, steps, Begin(c, r, p), Save(c), Load(d, r));
    RunKeepsInv(b, steps, r);
    RunKeepsVersions(b, steps);
    CreateThenLoad(b, Run(b, steps), c, d, r, p);
  }

  lemma CreateThenLoad<S, P, B>(
      b: Behaviour<S, P, B>, sys: System<S, P, B>, c: ClientId, d: ClientId, r: Ref, p: P)
    requires Versions(sys) && Inv(b, sys, r) && b.created(p).Some? && Items(sys.streams, r) == []
    ensures HoldsState(LoadStep(b, SaveStep(BeginStep(b, sys, c, r, p), c), d, r), d, r, 1, b.created(p))
  {
    var begun := BeginStep(b, sys, c, r, p);
    var saved := SaveStep(begun, c);
    BeginKeepsInv(b, sys, c, r, p, r);
    StepKeepsVersions(b, sys, Begin(c, r, p));
    SaveKeepsInv(b, begun, c, r);
    BeginSave(b, sys, c, r, p);
    LoadedClient(b, saved, d, r);
    ReplayOne(b, Blank(b, r), Event(r, 1, Creation, p));
  }
}
