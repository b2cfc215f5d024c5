/**
  Any number of clients sharing one event store. Each step is one atomic call: loading or creating an
  aggregate, triggering an event on it, saving it, dropping it, or storing a snapshot. A run is any
  sequence of steps, in any interleaving; a step that is not enabled changes nothing.
 */
module EventStoreSystem {
  import opened Wrappers
  import opened EventSourcing
  import opened EventStore

  type ClientId = nat

  /**
    `bases` records, beside each queued event, the entity it was produced on; `spoiled` that a handler of this
    aggregate has raised after changing the state. Nothing reads either.
   */
  datatype Client<S, P> = Client(live: Live<S, P>, bases: seq<Entity<S>>, spoiled: bool)

  datatype Saved<P> = Saved(reference: Ref, batch: seq<Event<P>>)

  /** `origins` and `saves` record what was produced on what and which saves succeeded. Nothing reads them. */
  datatype System<S, P, B> = System(
    streams: Table<Event<P>>,
    snapshots: Table<Snapshot<B>>,
    clients: map<ClientId, Client<S, P>>,
    origins: Table<Entity<S>>,
    saves: seq<Saved<P>>)

  datatype Step<P> =
    | Load(client: ClientId, reference: Ref)
    | Begin(client: ClientId, reference: Ref, payload: P)
    | Fire(client: ClientId, payload: P)
    | Save(client: ClientId)
    | Discard(client: ClientId)
    | Capture(reference: Ref, upTo: int)

  function Empty<S, P, B>(): System<S, P, B> {
    System(map[], map[], map[], map[], [])
  }

  function LoadStep<S, P, B>(b: Behaviour<S, P, B>, sys: System<S, P, B>, c: ClientId, r: Ref): System<S, P, B> {
    match Rehydrate(b, Items(sys.streams, r), Items(sys.snapshots, r), r, None)
    case None => sys
    case Some(m) => sys.(clients := sys.clients[c := Client(Live(m, []), [], false)])
  }

  function BeginStep<S, P, B>(b: Behaviour<S, P, B>, sys: System<S, P, B>, c: ClientId, r: Ref, p: P): System<S, P, B> {
    match Create(b, r, p)
    case None => sys
    case Some(l) => sys.(clients := sys.clients[c := Client(l, [Blank(b, r)], false)])
  }

  function FiredClient<S(==), P, B>(b: Behaviour<S, P, B>, me: Client<S, P>, p: P): Client<S, P> {
    match Trigger(b, me.live, p)
    case Some(l) => Client(l, me.bases + [me.live.entity], me.spoiled)
    case None =>
      Client(Triggered(b, me.live, p), me.bases, me.spoiled || !LeavesAlone(b, me.live.entity.state, p))
  }

  function FireStep<S(==), P, B>(b: Behaviour<S, P, B>, sys: System<S, P, B>, c: ClientId, p: P): System<S, P, B> {
    if c !in sys.clients then sys
    else sys.(clients := sys.clients[c := FiredClient(b, sys.clients[c], p)])
  }

  /** The queue is drained before the append; after a conflict the handler's exception drops the aggregate. */
  function SaveStep<S, P, B>(sys: System<S, P, B>, c: ClientId): System<S, P, B> {
    if c !in sys.clients then sys
    else
      var me := sys.clients[c];
      var r := me.live.entity.reference;
      var appended := Append(Items(sys.streams, r), me.live.queue);
      var sys' := sys.(streams := sys.streams[r := appended.stream]);
      if appended.ok then
        sys'.(clients := sys.clients[c := Drained(me)],
              origins := sys.origins[r := Items(sys.origins, r) + me.bases],
              saves := sys.saves + [Saved(r, me.live.queue)])
      else
        sys'.(clients := sys.clients - {c})
  }

  /** The client after its events were collected. */
  function Drained<S, P>(me: Client<S, P>): Client<S, P> {
    Client(me.live.(queue := []), [], me.spoiled)
  }

  function CaptureStep<S, P, B>(b: Behaviour<S, P, B>, sys: System<S, P, B>, r: Ref, upTo: int): System<S, P, B> {
    match Rehydrate(b, Items(sys.streams, r), Items(sys.snapshots, r), r, Some(upTo))
    case None => sys
    case Some(m) => sys.(snapshots := sys.snapshots[r := Items(sys.snapshots, r) + [TakeSnapshot(b, m)]])
  }

  function Next<S(==), P, B>(b: Behaviour<S, P, B>, sys: System<S, P, B>, step: Step<P>): System<S, P, B> {
    match step
    case Load(c, r) => LoadStep(b, sys, c, r)
    case Begin(c, r, p) => BeginStep(b, sys, c, r, p)
    case Fire(c, p) => FireStep(b, sys, c, p)
    case Save(c) => SaveStep(sys, c)
    case Discard(c) => sys.(clients := sys.clients - {c})
    case Capture(r, upTo) => CaptureStep(b, sys, r, upTo)
  }

  function Run<S(==), P, B>(b: Behaviour<S, P, B>, steps: seq<Step<P>>): System<S, P, B> {
    if steps == [] then Empty() else Next(b, Run(b, steps[..|steps| - 1]), steps[|steps| - 1])
  }

  lemma RunSnoc<S, P, B>(b: Behaviour<S, P, B>, steps: seq<Step<P>>, step: Step<P>)
    ensures Run(b, steps + [step]) == Next(b, Run(b, steps), step)
  {
    assert (steps + [step])[..|steps|] == steps;
  }

  lemma RunThree<S, P, B>(b: Behaviour<S, P, B>, steps: seq<Step<P>>, x: Step<P>, y: Step<P>, z: Step<P>)
    ensures Run(b, steps + [x] + [y] + [z]) == Next(b, Next(b, Next(b, Run(b, steps), x), y), z)
  {
    RunSnoc(b, steps, x);
    RunSnoc(b, steps + [x], y);
    RunSnoc(b, steps + [x] + [y], z);
  }

  lemma RunTwo<S, P, B>(b: Behaviour<S, P, B>, steps: seq<Step<P>>, x: Step<P>, y: Step<P>)
    ensures Run(b, steps + [x] + [y]) == Next(b, Next(b, Run(b, steps), x), y)
  {
    RunSnoc(b, steps, x);
    RunSnoc(b, steps + [x], y);
  }

  // ---- versions: right in every run, whatever the handlers do ----------------------------------------

  function Base<S, P>(me: Client<S, P>): int {
    me.live.entity.version - |me.live.queue|
  }

  /** The batches of the successful saves under one name, joined in the order of the saves. */
  function SavedUnder<P>(saves: seq<Saved<P>>, r: Ref): seq<Event<P>> {
    if saves == [] then []
    else
      var last := saves[|saves| - 1];
      SavedUnder(saves[..|saves| - 1], r) + (if last.reference == r then last.batch else [])
  }

  /** The client's queue follows on from a prefix of its stream. */
  predicate Standing<S, P>(stream: seq<Event<P>>, me: Client<S, P>) {
    && 0 <= Base(me) <= |stream|
    && Numbered(me.live.queue, Base(me)) && Belongs(me.live.queue, me.live.entity.reference)
    && |me.bases| == |me.live.queue|
  }

  /** A snapshot of this stream at a version it has. */
  predicate WithinStream<P, B>(stream: seq<Event<P>>, r: Ref, s: Snapshot<B>) {
    s.reference == r && 0 <= s.version <= |stream|
  }

  predicate AllWithin<P, B>(stream: seq<Event<P>>, r: Ref, taken: seq<Snapshot<B>>) {
    forall k | 0 <= k < |taken| :: WithinStream(stream, r, taken[k])
  }

  /** Numbered from 1, its own events only, and nothing but what was saved. */
  predicate StreamAt<S, P(==), B>(sys: System<S, P, B>, r: Ref) {
    var stream := Items(sys.streams, r);
    && Numbered(stream, 0) && Belongs(stream, r)
    && stream == SavedUnder(sys.saves, r) && |Items(sys.origins, r)| == |stream|
  }

  predicate ClientsAt<S, P, B>(sys: System<S, P, B>, r: Ref) {
    forall c | c in sys.clients && sys.clients[c].live.entity.reference == r ::
      Standing(Items(sys.streams, r), sys.clients[c])
  }

  predicate VersionsAt<S, P(==), B>(sys: System<S, P, B>, r: Ref) {
    StreamAt(sys, r) && ClientsAt(sys, r) && AllWithin(Items(sys.streams, r), r, Items(sys.snapshots, r))
  }

  ghost predicate Versions<S, P, B>(sys: System<S, P, B>) {
    forall r: Ref :: VersionsAt(sys, r)
  }

  lemma ClientSetKeepsVersions<S, P, B>(sys: System<S, P, B>, c: ClientId, me: Client<S, P>)
    requires Versions(sys) && Standing(Items(sys.streams, me.live.entity.reference), me)
    ensures Versions(sys.(clients := sys.clients[c := me]))
  {
    var sys' := sys.(clients := sys.clients[c := me]);
    forall r: Ref ensures VersionsAt(sys', r) {
      assert VersionsAt(sys, r);
    }
  }

  /** What a load that does not raise gives, as far as versions go. */
  lemma LoadedStands<S, P, B>(b: Behaviour<S, P, B>, sys: System<S, P, B>, r: Ref)
    requires Versions(sys)
    requires Rehydrate(b, Items(sys.streams, r), Items(sys.snapshots, r), r, None).Some?
    ensures var m := Rehydrate(b, Items(sys.streams, r), Items(sys.snapshots, r), r, None).value;
            m.reference == r && m.version == |Items(sys.streams, r)|
  {
    assert VersionsAt(sys, r);
    RehydratePosition(b, r, Items(sys.streams, r), Items(sys.snapshots, r), None);
  }

  lemma FiredStands<S, P, B>(b: Behaviour<S, P, B>, stream: seq<Event<P>>, me: Client<S, P>, p: P)
    requires Standing(stream, me)
    ensures Standing(stream, FiredClient(b, me, p))
    ensures FiredClient(b, me, p).live.entity.reference == me.live.entity.reference
    ensures Base(FiredClient(b, me, p)) == Base(me)
  {
  }

  lemma CaptureKeepsVersions<S, P, B>(b: Behaviour<S, P, B>, sys: System<S, P, B>, r: Ref, upTo: int)
    requires Versions(sys)
    ensures Versions(CaptureStep(b, sys, r, upTo))
  {
    var stream, taken := Items(sys.streams, r), Items(sys.snapshots, r);
    assert VersionsAt(sys, r);
    if Rehydrate(b, stream, taken, r, Some(upTo)).Some? {
      RehydratePosition(b, r, stream, taken, Some(upTo));
      SnapshotAddedKeepsVersions(sys, r, TakeSnapshot(b, Rehydrate(b, stream, taken, r, Some(upTo)).value));
    }
  }

  lemma SnapshotAddedKeepsVersions<S, P, B>(sys: System<S, P, B>, r: Ref, s: Snapshot<B>)
    requires Versions(sys) && WithinStream(Items(sys.streams, r), r, s)
    ensures Versions(sys.(snapshots := sys.snapshots[r := Items(sys.snapshots, r) + [s]]))
  {
    var sys' := sys.(snapshots := sys.snapshots[r := Items(sys.snapshots, r) + [s]]);
    forall q: Ref ensures VersionsAt(sys', q) {
      assert VersionsAt(sys, q);
      assert q == r ==> AllWithin(Items(sys.streams, r), r, Items(sys.snapshots, r) + [s]);
    }
  }

  /** A save writes the whole queue exactly when the client's base is the stream's length, else nothing. */
  lemma SaveIsAtomic<S, P, B>(sys: System<S, P, B>, c: ClientId)
    requires Versions(sys) && c in sys.clients
    ensures var me := sys.clients[c];
            var stream := Items(sys.streams, me.live.entity.reference);
            && Standing(stream, me)
            && Append(stream, me.live.queue)
            == (if me.live.queue == [] || Base(me) == |stream|
                then Appended(stream + me.live.queue, true) else Appended(stream, false))
  {
    var me := sys.clients[c];
    var r := me.live.entity.reference;
    var stream := Items(sys.streams, r);
    assert VersionsAt(sys, r);
    if me.live.queue == [] {
      assert stream + [] == stream;
    } else {
      AppendNumbered(stream, me.live.queue, Base(me));
    }
  }

  lemma SaveKeepsVersions<S, P, B>(sys: System<S, P, B>, c: ClientId)
    requires Versions(sys)
    ensures Versions(SaveStep(sys, c))
  {
    if c in sys.clients {
      SaveIsAtomic(sys, c);
      forall r: Ref ensures VersionsAt(SaveStep(sys, c), r) {
        assert VersionsAt(sys, r);
        SavedVersionsAt(sys, c, r);
      }
    }
  }

  lemma SavedVersionsAt<S, P, B>(sys: System<S, P, B>, c: ClientId, r: Ref)
    requires c in sys.clients && VersionsAt(sys, r)
    requires var me := sys.clients[c];
             var stream := Items(sys.streams, me.live.entity.reference);
             && Standing(stream, me)
             && Append(stream, me.live.queue)
             == (if me.live.queue == [] || Base(me) == |stream|
                 then Appended(stream + me.live.queue, true) else Appended(stream, false))
    ensures VersionsAt(SaveStep(sys, c), r)
  {
    var me := sys.clients[c];
    var q := me.live.entity.reference;
    var stream := Items(sys.streams, q);
    if me.live.queue == [] || Base(me) == |stream| {
      SavedStreamAt(sys, c, r);
      SavedClientsAt(sys, c, r);
    } else {
      assert Items(SaveStep(sys, c).streams, r) == Items(sys.streams, r);
    }
  }

  lemma SavedStreamAt<S, P, B>(sys: System<S, P, B>, c: ClientId, r: Ref)
    requires c in sys.clients && StreamAt(sys, r)
    requires var me := sys.clients[c];
             var stream := Items(sys.streams, me.live.entity.reference);
             && Standing(stream, me) && (me.live.queue == [] || Base(me) == |stream|)
             && Append(stream, me.live.queue) == Appended(stream + me.live.queue, true)
    ensures StreamAt(SaveStep(sys, c), r)
  {
    var me := sys.clients[c];
    SavedUnderSnoc(sys.saves, Saved(me.live.entity.reference, me.live.queue), r);
  }

  lemma SavedUnderSnoc<P>(saves: seq<Saved<P>>, last: Saved<P>, r: Ref)
    ensures SavedUnder(saves + [last], r) == SavedUnder(saves, r) + (if last.reference == r then last.batch else [])
  {
    assert (saves + [last])[..|saves|] == saves;
  }

  lemma SavedClientsAt<S, P, B>(sys: System<S, P, B>, c: ClientId, r: Ref)
    requires c in sys.clients && ClientsAt(sys, r)
    requires var me := sys.clients[c];
             var stream := Items(sys.streams, me.live.entity.reference);
             && Standing(stream, me) && (me.live.queue == [] || Base(me) == |stream|)
             && Append(stream, me.live.queue) == Appended(stream + me.live.queue, true)
    ensures ClientsAt(SaveStep(sys, c), r)
  {
  }

  lemma StepKeepsVersions<S, P, B>(b: Behaviour<S, P, B>, sys: System<S, P, B>, step: Step<P>)
    requires Versions(sys)
    ensures Versions(Next(b, sys, step))
  {
    match step
    case Load(c, r) =>
      var m := Rehydrate(b, Items(sys.streams, r), Items(sys.snapshots, r), r, None);
      if m.Some? {
        LoadedStands(b, sys, r);
        ClientSetKeepsVersions(sys, c, Client(Live(m.value, []), [], false));
      }
    case Begin(c, r, p) =>
      if Create(b, r, p).Some? {
        ClientSetKeepsVersions(sys, c, Client(Create(b, r, p).value, [Blank(b, r)], false));
      }
    case Fire(c, p) =>
      if c in sys.clients {
        assert VersionsAt(sys, sys.clients[c].live.entity.reference);
        FiredStands(b, Items(sys.streams, sys.clients[c].live.entity.reference), sys.clients[c], p);
        ClientSetKeepsVersions(sys, c, FiredClient(b, sys.clients[c], p));
      }
    case Save(c) => SaveKeepsVersions(sys, c);
    case Discard(c) =>
      forall r: Ref ensures VersionsAt(Next(b, sys, step), r) { assert VersionsAt(sys, r); }
    case Capture(r, upTo) => CaptureKeepsVersions(b, sys, r, upTo);
  }

  /**
    After every run of every aggregate class, whatever its handlers leave behind when they raise and whatever
    its snapshots lose: each stream is numbered 1..n in insertion order, carries its own reference, and is the
    batches of its successful saves, in their order; each client's queue follows on from a prefix of its stream.
   */
  lemma {:induction false} RunKeepsVersions<S, P, B>(b: Behaviour<S, P, B>, steps: seq<Step<P>>)
    ensures Versions(Run(b, steps))
  {
    if steps == [] {
      forall r: Ref ensures VersionsAt(Run(b, steps), r) {}
    } else {
      RunKeepsVersions(b, steps[..|steps| - 1]);
      StepKeepsVersions(b, Run(b, steps[..|steps| - 1]), steps[|steps| - 1]);
    }
  }

  /** What saving a non-empty queue comes to, given where the client stands. */
  ghost predicate SavedOrRefused<S, P, B>(sys: System<S, P, B>, sys': System<S, P, B>, c: ClientId)
    requires c in sys.clients
  {
    var me := sys.clients[c];
    var r := me.live.entity.reference;
    && (c in sys'.clients <==> Base(me) == |Items(sys.streams, r)|)
    && (c in sys'.clients ==> Items(sys'.streams, r) == Items(sys.streams, r) + me.live.queue)
    && (c !in sys'.clients ==> forall q: Ref :: Items(sys'.streams, q) == Items(sys.streams, q))
    && (forall q: Ref | q != r :: Items(sys'.streams, q) == Items(sys.streams, q))
  }

  lemma AtomicOutcome<S, P, B>(sys: System<S, P, B>, c: ClientId)
    requires c in sys.clients
    requires var me := sys.clients[c];
             var stream := Items(sys.streams, me.live.entity.reference);
             Append(stream, me.live.queue)
             == if Base(me) == |stream| then Appended(stream + me.live.queue, true) else Appended(stream, false)
    ensures SavedOrRefused(sys, SaveStep(sys, c), c)
  {
  }

  /**
    In every reachable state a save of a non-empty queue succeeds if and only if nobody saved since the
    client loaded: then the stream is the old one followed by the whole queue; otherwise the store is
    unchanged and the client is gone.
   */
  lemma SaveSucceedsIff<S, P, B>(b: Behaviour<S, P, B>, steps: seq<Step<P>>, c: ClientId)
    requires c in Run(b, steps).clients && Run(b, steps).clients[c].live.queue != []
    ensures SavedOrRefused(Run(b, steps), Run(b, steps + [Save(c)]), c)
  {
    RunKeepsVersions(b, steps);
    RunSnoc(b, steps, Save(c));
    SaveIsAtomic(Run(b, steps), c);
    AtomicOutcome(Run(b, steps), c);
  }

  /** Creating an aggregate and saving it succeeds exactly when its stream is empty; a second creation is a conflict. */
  lemma CreationSucceedsIff<S, P, B>(b: Behaviour<S, P, B>, steps: seq<Step<P>>, c: ClientId, r: Ref, p: P)
    requires b.created(p).Some?
    ensures CreatedOrRefused(Run(b, steps), Run(b, steps + [Begin(c, r, p)] + [Save(c)]), c, r, p)
  {
    RunTwo(b, steps, Begin(c, r, p), Save(c));
    RunKeepsVersions(b, steps);
    assert VersionsAt(Run(b, steps), r);
    BeginSave(b, Run(b, steps), c, r, p);
  }

  predicate CreatedOrRefused<S, P(==), B>(sys: System<S, P, B>, sys': System<S, P, B>, c: ClientId, r: Ref, p: P) {
    var stream := Items(sys.streams, r);
    && (c in sys'.clients <==> stream == [])
    && Items(sys'.streams, r) == (if stream == [] then [Event(r, 1, Creation, p)] else stream)
  }

  lemma BeginSave<S, P, B>(b: Behaviour<S, P, B>, sys: System<S, P, B>, c: ClientId, r: Ref, p: P)
    requires b.created(p).Some? && Numbered(Items(sys.streams, r), 0)
    ensures CreatedOrRefused(sys, SaveStep(BeginStep(b, sys, c, r, p), c), c, r, p)
  {
    var stream, e := Items(sys.streams, r), Event(r, 1, Creation, p);
    assert Create(b, r, p).value.queue == [e];
    AppendNumbered(stream, [e], 0);
    assert stream == [] ==> stream + [e] == [e];
  }

  /** The stream's events are all still there, in place, with any new ones after them. */
  predicate Extends<S, P(==), B>(sys: System<S, P, B>, sys': System<S, P, B>, r: Ref) {
    Items(sys.streams, r) <= Items(sys'.streams, r)
  }

  lemma ExtendsChain<S, P, B>(sys1: System<S, P, B>, sys2: System<S, P, B>, sys3: System<S, P, B>, r: Ref)
    requires Extends(sys1, sys2, r) && Extends(sys2, sys3, r)
    ensures Extends(sys1, sys3, r)
  {
  }

  /** Committed events are never changed, moved or removed by anything that happens later. */
  lemma {:induction false} HistoryOnlyGrows<S, P, B>(b: Behaviour<S, P, B>, steps: seq<Step<P>>,
      later: seq<Step<P>>, r: Ref)
    ensures Extends(Run(b, steps), Run(b, steps + later), r)
    decreases |later|
  {
    if later == [] {
      assert steps + later == steps;
    } else {
      var init, last := later[..|later| - 1], later[|later| - 1];
      HistoryOnlyGrows(b, steps, init, r);
      assert steps + later == (steps + init) + [last];
      RunSnoc(b, steps + init, last);
      StepOnlyGrows(b, Run(b, steps + init), last, r);
      ExtendsChain(Run(b, steps), Run(b, steps + init), Run(b, (steps + init) + [last]), r);
    }
  }

  lemma StepOnlyGrows<S, P, B>(b: Behaviour<S, P, B>, sys: System<S, P, B>, step: Step<P>, r: Ref)
    ensures Extends(sys, Next(b, sys, step), r)
  {
    if step.Save? && step.client in sys.clients {
      var me := sys.clients[step.client];
      var k := AppendWritesFreePrefix(Items(sys.streams, me.live.entity.reference), me.live.queue);
    }
  }

  /** Whose step it is; a capture is nobody's. */
  predicate IsBy<P>(step: Step<P>, c: ClientId) {
    !step.Capture? && step.client == c
  }

  /** The step is one on this aggregate's stored events or snapshots. */
  predicate Writes<S, P, B>(sys: System<S, P, B>, step: Step<P>, r: Ref) {
    match step
    case Save(c) => c in sys.clients && sys.clients[c].live.entity.reference == r
    case Capture(q, _) => q == r
    case _ => false
  }

  /** A step touches no client but its own, and a discarded one is gone. */
  lemma OtherClientsStay<S, P, B>(b: Behaviour<S, P, B>, sys: System<S, P, B>, step: Step<P>, c: ClientId)
    ensures var sys' := Next(b, sys, step);
            && (!IsBy(step, c) ==> (c in sys'.clients <==> c in sys.clients)
                                   && (c in sys.clients ==> sys'.clients[c] == sys.clients[c]))
            && (step == Discard(c) ==> c !in sys'.clients)
  {
  }

  /** Only a save writes events, only a capture snapshots, each of its own aggregate. */
  lemma OtherTablesStay<S, P, B>(b: Behaviour<S, P, B>, sys: System<S, P, B>, step: Step<P>, r: Ref)
    ensures var sys' := Next(b, sys, step);
            && (!Writes(sys, step, r) || step.Capture? ==> Items(sys'.streams, r) == Items(sys.streams, r))
            && (!Writes(sys, step, r) || step.Save? ==> Items(sys'.snapshots, r) == Items(sys.snapshots, r))
  {
  }
}
