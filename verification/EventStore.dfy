/**
  The in-memory event store: append with an optimistic version check but no rollback, reads in
  insertion order, snapshots in lists; and the repository that loads and saves aggregates with it.
 */
module EventStore {
  import opened Wrappers
  import opened EventSourcing

  // A stream is the dict's values in insertion order; each is stored under its own version.
  type Table<T> = map<Ref, seq<T>>

  /** What the store holds under a name; a name never asked for holds nothing. */
  function Items<T>(table: Table<T>, name: Ref): seq<T> {
    if name in table then table[name] else []
  }

  /** One list may have become another, every other name holds what it held. */
  predicate NowHolds<T(==)>(was: Table<T>, now: Table<T>, name: Ref, items: seq<T>) {
    Items(now, name) == items && forall q | q in was.Keys + now.Keys && q != name :: Items(now, q) == Items(was, q)
  }

  predicate HasVersion<P>(stream: seq<Event<P>>, v: int) {
    exists i | 0 <= i < |stream| :: stream[i].version == v
  }

  datatype Appended<P> = Appended(stream: seq<Event<P>>, ok: bool)

  /** The append loop: it stops at the first version that exists and keeps what it wrote before. */
  function Append<P>(stream: seq<Event<P>>, events: seq<Event<P>>): Appended<P>
    decreases |events|
  {
    if events == [] then Appended(stream, true)
    else if HasVersion(stream, events[0].version) then Appended(stream, false)
    else Append(stream + [events[0]], events[1..])
  }

  predicate Within(v: int, lo: int, hi: Option<int>) {
    lo <= v && (hi.Some? ==> v <= hi.value)
  }

  /** The events with versions in the range, in insertion order. */
  function Between<P>(stream: seq<Event<P>>, lo: int, hi: Option<int>): seq<Event<P>> {
    if stream == [] then []
    else
      var last := stream[|stream| - 1];
      Between(stream[..|stream| - 1], lo, hi) + (if Within(last.version, lo, hi) then [last] else [])
  }

  /**
    Start from the last snapshot if there is one, else from a blank entity, and mutate through the
    stored events that follow. `hi` None is the source's sys.maxsize: no Python container holds more items.
   */
  function Rehydrate<S, P, B>(b: Behaviour<S, P, B>, stream: seq<Event<P>>, snapshots: seq<Snapshot<B>>, r: Ref,
      hi: Option<int>)
    : Option<Entity<S>>
  {
    if snapshots == [] then Replay(b, Blank(b, r), Between(stream, 0, hi))
    else
      var m := FromSnapshot(b, snapshots[|snapshots| - 1]);
      Replay(b, m, Between(stream, m.version + 1, hi))
  }

  /** The snapshots after a number of captures, and whether none of them raised. */
  datatype Captures<B> = Captures(taken: seq<Snapshot<B>>, ok: bool)

  /** A remainder by zero raises. */
  predicate IsDue(version: int, interval: int)
    requires interval != 0
  {
    version % interval == 0
  }

  /**
    After an append, events are asked for their message class's version, not for their own: where that is a
    multiple of the interval, the aggregate is captured up to that version.
   */
  function CaptureAll<S, P, B>(b: Behaviour<S, P, B>, stream: seq<Event<P>>, taken: seq<Snapshot<B>>, r: Ref,
      versions: seq<int>, interval: int)
    : Captures<B>
  {
    if versions == [] then Captures(taken, true)
    else
      var before := CaptureAll(b, stream, taken, r, versions[..|versions| - 1], interval);
      CaptureNext(b, stream, before, r, versions[|versions| - 1], interval)
  }

  function CaptureNext<S, P, B>(b: Behaviour<S, P, B>, stream: seq<Event<P>>, before: Captures<B>, r: Ref,
      version: int, interval: int)
    : Captures<B>
  {
    if !before.ok then before
    else if interval == 0 then Captures(before.taken, false)
    else if !IsDue(version, interval) then before
    else match Rehydrate(b, stream, before.taken, r, Some(version))
      case None => Captures(before.taken, false)
      case Some(m) => Captures(before.taken + [TakeSnapshot(b, m)], true)
  }

  /** Once a capture has raised the loop is over. */
  lemma {:induction false} CaptureAllStops<S, P, B>(b: Behaviour<S, P, B>, stream: seq<Event<P>>,
      taken: seq<Snapshot<B>>, r: Ref, versions: seq<int>, n: nat, interval: int)
    requires n <= |versions| && !CaptureAll(b, stream, taken, r, versions[..n], interval).ok
    ensures CaptureAll(b, stream, taken, r, versions, interval)
         == CaptureAll(b, stream, taken, r, versions[..n], interval)
    decreases |versions|
  {
    if n < |versions| {
      assert versions[..|versions| - 1][..n] == versions[..n];
      CaptureAllStops(b, stream, taken, r, versions[..|versions| - 1], n, interval);
    } else {
      assert versions[..n] == versions;
    }
  }

  /** The versions of the batch's message classes. */
  function ClassVersions<P>(versionOf: P -> int, batch: seq<Event<P>>): (versions: seq<int>)
    ensures |versions| == |batch|
  {
    seq(|batch|, i requires 0 <= i < |batch| => versionOf(batch[i].payload))
  }

  function Times(k: int, n: int): int {
    k * n
  }

  ghost predicate IsMultiple(v: int, n: int) {
    exists k :: Times(k, n) == v
  }

  lemma DueIffMultiple(v: int, n: int)
    requires n != 0
    ensures IsDue(v, n) <==> IsMultiple(v, n)
  {
    if IsDue(v, n) {
      assert Times(v / n, n) == v;
    }
    if k :| Times(k, n) == v {
      var d := k - v / n;
      assert d * n == k * n - (v / n) * n;
      SmallMultipleIsZero(d, n);
    }
  }

  lemma SmallMultipleIsZero(d: int, n: int)
    requires 0 <= d * n && (d * n < n || d * n < -n)
    ensures d * n == 0
  {
  }

  /** These captures, one for each position in `at`, in order: each rehydrates up to the version asked for there. */
  predicate CapturedAtEach<S, P, B(==)>(b: Behaviour<S, P, B>, stream: seq<Event<P>>, all: seq<Snapshot<B>>, first: nat,
      r: Ref, versions: seq<int>, at: seq<nat>)
  {
    && first + |at| == |all|
    && (forall j | 0 <= j < |at| :: at[j] < |versions|)
    && forall j | 0 <= j < |at| ::
         var m := Rehydrate(b, stream, all[..first + j], r, Some(versions[at[j]]));
         m.Some? && all[first + j] == TakeSnapshot(b, m.value)
  }

  /** `at` are the positions before `stop` of versions that are multiples of the interval, in order. */
  ghost predicate Selects(versions: seq<int>, interval: int, at: seq<nat>, stop: nat) {
    && stop <= |versions|
    && (forall i: nat :: i in at <==> i < stop && IsMultiple(versions[i], interval))
    && (forall i, j | 0 <= i < j < |at| :: at[i] < at[j])
  }

  /** The loop ended at `stop`: behind the last version, or at a capture that raises. */
  ghost predicate Stops<S, P, B>(b: Behaviour<S, P, B>, stream: seq<Event<P>>, c: Captures<B>, r: Ref,
      versions: seq<int>, interval: int, stop: nat)
  {
    && stop <= |versions| && (c.ok <==> stop == |versions|)
    && (interval == 0 ==> stop == 0)
    && (stop < |versions| && interval != 0 ==>
          IsMultiple(versions[stop], interval) && Rehydrate(b, stream, c.taken, r, Some(versions[stop])).None?)
  }

  /**
    What the captures after an append are: one for each version that is a multiple of the interval, in order,
    up to the first that raises; with an interval of zero that is the very first.
   */
  lemma {:induction false} CapturesSelect<S, P, B>(b: Behaviour<S, P, B>, stream: seq<Event<P>>,
      taken: seq<Snapshot<B>>, r: Ref, versions: seq<int>, interval: int) returns (at: seq<nat>, stop: nat)
    ensures var c := CaptureAll(b, stream, taken, r, versions, interval);
            && taken <= c.taken && CapturedAtEach(b, stream, c.taken, |taken|, r, versions, at)
            && Stops(b, stream, c, r, versions, interval, stop)
    ensures Selects(versions, interval, at, stop)
  {
    if versions == [] {
      at, stop := [], 0;
    } else {
      var n := |versions| - 1;
      var before := CaptureAll(b, stream, taken, r, versions[..n], interval);
      at, stop := CapturesSelect(b, stream, taken, r, versions[..n], interval);
      var after := CaptureNext(b, stream, before, r, versions[n], interval);
      if interval != 0 {
        DueIffMultiple(versions[n], interval);
      }
      if after.taken != before.taken {
        CaptureJoins(b, stream, before.taken, after.taken, |taken|, r, versions, at);
      }
      at, stop := SelectsNext(versions, interval, at, stop, after.ok);
    }
  }

  lemma SelectsNext(versions: seq<int>, interval: int, at: seq<nat>, stop: nat, goesOn: bool)
      returns (at': seq<nat>, stop': nat)
    requires versions != [] && Selects(versions[..|versions| - 1], interval, at, stop)
    requires goesOn ==> stop == |versions| - 1
    ensures stop' == (if goesOn then |versions| else stop) && Selects(versions, interval, at', stop')
    ensures at' == if goesOn && IsMultiple(versions[|versions| - 1], interval) then at + [|versions| - 1] else at
  {
    var n := |versions| - 1;
    stop' := if goesOn then n + 1 else stop;
    at' := if goesOn && IsMultiple(versions[n], interval) then at + [n] else at;
    forall i | 0 <= i < |at| ensures at[i] < n {
      assert at[i] in at;
    }
    forall i: nat ensures i in at' <==> i < stop' && IsMultiple(versions[i], interval) {
      assert i < n ==> versions[..n][i] == versions[i];
    }
  }

  lemma CaptureJoins<S, P, B>(b: Behaviour<S, P, B>, stream: seq<Event<P>>, all: seq<Snapshot<B>>,
      more: seq<Snapshot<B>>, first: nat, r: Ref, versions: seq<int>, at: seq<nat>)
    requires versions != [] && CapturedAtEach(b, stream, all, first, r, versions[..|versions| - 1], at)
    requires var m := Rehydrate(b, stream, all, r, Some(versions[|versions| - 1]));
             m.Some? && more == all + [TakeSnapshot(b, m.value)]
    ensures CapturedAtEach(b, stream, more, first, r, versions, at + [|versions| - 1])
  {
    var n := |versions| - 1;
    forall j | 0 <= j < |at + [n]|
      ensures var m := Rehydrate(b, stream, more[..first + j], r, Some(versions[(at + [n])[j]]));
              m.Some? && more[first + j] == TakeSnapshot(b, m.value)
    {
      assert j < |at| ==> more[..first + j] == all[..first + j];
      assert more[..|all|] == all;
    }
  }

  // ---- what the append loop does on any stream and batch ----------------------------------

  /** The loop writes exactly the longest prefix of the batch that meets no existing version. */
  lemma {:induction false} AppendWritesFreePrefix<P>(stream: seq<Event<P>>, events: seq<Event<P>>) returns (k: nat)
    ensures k <= |events|
    ensures Append(stream, events) == Appended(stream + events[..k], k == |events|)
    ensures forall i | 0 <= i < k :: !HasVersion(stream + events[..i], events[i].version)
    ensures k < |events| ==> HasVersion(stream + events[..k], events[k].version)
    decreases |events|
  {
    if events == [] || HasVersion(stream, events[0].version) {
      k := 0;
      assert stream + events[..0] == stream;
    } else {
      var rest := AppendWritesFreePrefix(stream + [events[0]], events[1..]);
      k := rest + 1;
      forall i | 0 <= i <= rest ensures (stream + [events[0]]) + events[1..][..i] == stream + events[..i + 1] {}
      forall i | 0 <= i < k ensures !HasVersion(stream + events[..i], events[i].version) {
        if i == 0 {
          assert stream + events[..0] == stream;
        } else {
          assert (stream + [events[0]]) + events[1..][..i - 1] == stream + events[..i];
          assert events[1..][i - 1] == events[i];
        }
      }
    }
  }

  /** A failed append left the store unchanged if and only if the first event was the one that clashed. */
  lemma FailedAppendIsAtomicIff<P>(stream: seq<Event<P>>, events: seq<Event<P>>)
    requires !Append(stream, events).ok
    ensures Append(stream, events).stream == stream <==> HasVersion(stream, events[0].version)
  {
    var k := AppendWritesFreePrefix(stream, events);
    assert stream + events[..0] == stream;
    if k == 0 {
      assert HasVersion(stream + events[..0], events[0].version);
    } else {
      assert !HasVersion(stream + events[..0], events[0].version);
      assert |stream + events[..k]| == |stream| + k;
    }
  }

  /** The store itself does not give atomicity: here the first event stays although the batch is refused. */
  lemma AppendCanTear<P>(r: Ref, p: P)
    ensures var e := (v: int) => Event(r, v, Change, p);
            Append([e(2)], [e(1), e(2)]) == Appended([e(2), e(1)], false)
  {
    var e := (v: int) => Event(r, v, Change, p);
    assert [e(2)] + [e(1)] == [e(2), e(1)];
    assert [e(2), e(1)][0].version == 2;
    assert Append([e(2), e(1)], [e(2)]) == Appended([e(2), e(1)], false);
  }

  lemma NumberedHas<P>(stream: seq<Event<P>>, v: int)
    requires Numbered(stream, 0)
    ensures HasVersion(stream, v) <==> 1 <= v <= |stream|
  {
    if 1 <= v <= |stream| {
      assert stream[v - 1].version == v;
    }
  }

  lemma NumberedLacksLater<P>(stream: seq<Event<P>>, events: seq<Event<P>>, base: nat, k: nat)
    requires Numbered(stream, 0) && Numbered(events, base) && |stream| <= base && k <= |events|
    ensures !HasVersion(stream + events[..k], base + 1 + k)
  {
  }

  /**
    On a stream numbered 1..n, a numbered batch that follows version `base` is refused untouched,
    appended whole, or appended past a gap, as base is below, equal to or above n.
   */
  lemma AppendNumbered<P>(stream: seq<Event<P>>, events: seq<Event<P>>, base: nat)
    requires Numbered(stream, 0) && Numbered(events, base) && events != []
    ensures var a := Append(stream, events);
            && (a.ok <==> |stream| <= base)
            && a.stream == (if |stream| <= base then stream + events else stream)
            && (Numbered(a.stream, 0) <==> base <= |stream|)
  {
    NumberedHas(stream, base + 1);
    if |stream| <= base {
      var k := AppendWritesFreePrefix(stream, events);
      NumberedLacksLater(stream, events, base, k);
      assert k == |events|;
      assert events[..k] == events;
      assert (stream + events)[|stream|].version == base + 1;
    }
  }

  // ---- reading ranges -----------------------------------------------------------------------

  /** Exactly the events in range, in insertion order: `at` names where each came from. */
  lemma {:induction false} BetweenSelects<P>(stream: seq<Event<P>>, lo: int, hi: Option<int>) returns (at: seq<nat>)
    ensures |at| == |Between(stream, lo, hi)|
    ensures forall i | 0 <= i < |at| :: at[i] < |stream| && Between(stream, lo, hi)[i] == stream[at[i]]
    ensures forall i, j | 0 <= i < j < |at| :: at[i] < at[j]
    ensures forall k | 0 <= k < |stream| :: k in at <==> Within(stream[k].version, lo, hi)
  {
    if stream == [] {
      at := [];
    } else {
      var n := |stream| - 1;
      var at' := BetweenSelects(stream[..n], lo, hi);
      at := at' + (if Within(stream[n].version, lo, hi) then [n] else []);
    }
  }

  function Clamp(v: int, n: nat): nat {
    if v < 0 then 0 else if v < n then v else n
  }

  /** The events of versions lo to hi of a stream numbered from 1, by position. */
  function Slice<P>(stream: seq<Event<P>>, lo: nat, hi: Option<int>): seq<Event<P>> {
    var from := if lo == 0 then 0 else lo - 1;
    var to := match hi case None => |stream| case Some(v) => Clamp(v, |stream|);
    if from <= to then stream[from..to] else []
  }

  lemma SliceSnoc<P>(init: seq<Event<P>>, e: Event<P>, lo: nat, hi: Option<int>)
    ensures Slice(init + [e], lo, hi) == Slice(init, lo, hi) + (if Within(|init| + 1, lo, hi) then [e] else [])
  {
    var n, from := |init|, if lo == 0 then 0 else lo - 1;
    if Within(n + 1, lo, hi) {
      assert (init + [e])[from..n + 1] == init[from..n] + [e];
    } else if hi.Some? && hi.value <= n {
      var to := Clamp(hi.value, n);
      assert from <= to ==> (init + [e])[from..to] == init[from..to];
    }
  }

  /** On a numbered stream a range of versions is a slice. */
  lemma {:induction false} BetweenIsSlice<P>(stream: seq<Event<P>>, lo: nat, hi: Option<int>)
    requires Numbered(stream, 0)
    ensures Between(stream, lo, hi) == Slice(stream, lo, hi)
  {
    if stream != [] {
      var n := |stream| - 1;
      BetweenIsSlice(stream[..n], lo, hi);
      SliceSnoc(stream[..n], stream[n], lo, hi);
      assert stream == stream[..n] + [stream[n]];
    }
  }

  // ---- how far snapshots get --------------------------------------------------------------------

  predicate AtMost<B>(taken: seq<Snapshot<B>>, top: int) {
    forall k | 0 <= k < |taken| :: taken[k].version <= top
  }

  lemma {:induction false} ReplayStaysLow<S, P, B>(b: Behaviour<S, P, B>, start: Entity<S>, events: seq<Event<P>>,
      top: int)
    requires start.version <= top && forall i | 0 <= i < |events| :: events[i].version <= top
    requires Replay(b, start, events).Some?
    ensures Replay(b, start, events).value.version <= top
  {
    if events != [] {
      ReplayStaysLow(b, start, events[..|events| - 1], top);
    }
  }

  /** Whatever the stream: loading up to a version ends there at most, or at the snapshot it started from. */
  lemma RehydrateStaysLow<S, P, B>(b: Behaviour<S, P, B>, stream: seq<Event<P>>, snapshots: seq<Snapshot<B>>, r: Ref,
      hi: int, top: nat)
    requires AtMost(snapshots, top) && hi <= top && Rehydrate(b, stream, snapshots, r, Some(hi)).Some?
    ensures Rehydrate(b, stream, snapshots, r, Some(hi)).value.version <= top
  {
    var start := if snapshots == [] then Blank(b, r) else FromSnapshot(b, snapshots[|snapshots| - 1]);
    var lo := if snapshots == [] then 0 else start.version + 1;
    var at := BetweenSelects(stream, lo, Some(hi));
    forall i | 0 <= i < |at| ensures Between(stream, lo, Some(hi))[i].version <= top {
      assert at[i] in at;
    }
    ReplayStaysLow(b, start, Between(stream, lo, Some(hi)), top);
  }

  lemma {:induction false} CapturesStayLow<S, P, B>(b: Behaviour<S, P, B>, stream: seq<Event<P>>,
      taken: seq<Snapshot<B>>, r: Ref, versions: seq<int>, interval: int, top: nat)
    requires AtMost(taken, top) && forall i | 0 <= i < |versions| :: versions[i] <= top
    ensures AtMost(CaptureAll(b, stream, taken, r, versions, interval).taken, top)
  {
    if versions != [] {
      var n := |versions| - 1;
      CapturesStayLow(b, stream, taken, r, versions[..n], interval, top);
      var before := CaptureAll(b, stream, taken, r, versions[..n], interval);
      if Rehydrate(b, stream, before.taken, r, Some(versions[n])).Some? {
        RehydrateStaysLow(b, stream, before.taken, r, versions[n], top);
      }
    }
  }

  /** No message class of the batch has a version that is a multiple of the interval. */
  ghost predicate NoneDue<P>(versionOf: P -> int, batch: seq<Event<P>>, interval: int) {
    forall i | 0 <= i < |batch| :: !IsMultiple(versionOf(batch[i].payload), interval)
  }

  predicate ClassesAtMost<P>(versionOf: P -> int, batch: seq<Event<P>>, top: int) {
    forall i | 0 <= i < |batch| :: versionOf(batch[i].payload) <= top
  }

  /** What a save can have captured, from the versions of its batch's message classes. */
  ghost predicate CapturesByClass<P, B>(versionOf: P -> int, batch: seq<Event<P>>, interval: int,
      was: seq<Snapshot<B>>, now: seq<Snapshot<B>>)
  {
    && was <= now
    && (NoneDue(versionOf, batch, interval) ==> now == was)
    && forall top: nat | ClassesAtMost(versionOf, batch, top) && AtMost(was, top) :: AtMost(now, top)
  }

  lemma {:induction false} NothingDueNothingTaken<S, P, B>(b: Behaviour<S, P, B>, stream: seq<Event<P>>,
      taken: seq<Snapshot<B>>, r: Ref, versions: seq<int>, interval: int)
    requires forall i | 0 <= i < |versions| :: !IsMultiple(versions[i], interval)
    ensures CaptureAll(b, stream, taken, r, versions, interval).taken == taken
  {
    if versions != [] {
      NothingDueNothingTaken(b, stream, taken, r, versions[..|versions| - 1], interval);
      if interval != 0 {
        DueIffMultiple(versions[|versions| - 1], interval);
      }
    }
  }

  lemma CapturesGoByClass<S, P, B>(b: Behaviour<S, P, B>, stream: seq<Event<P>>, taken: seq<Snapshot<B>>, r: Ref,
      versionOf: P -> int, batch: seq<Event<P>>, interval: int)
    ensures CapturesByClass(versionOf, batch, interval, taken,
                            CaptureAll(b, stream, taken, r, ClassVersions(versionOf, batch), interval).taken)
  {
    var versions := ClassVersions(versionOf, batch);
    var at, stop := CapturesSelect(b, stream, taken, r, versions, interval);
    forall top: nat | ClassesAtMost(versionOf, batch, top) && AtMost(taken, top)
      ensures AtMost(CaptureAll(b, stream, taken, r, versions, interval).taken, top)
    {
      CapturesStayLow(b, stream, taken, r, versions, interval, top);
    }
    if NoneDue(versionOf, batch, interval) {
      NothingDueNothingTaken(b, stream, taken, r, versions, interval);
    }
  }

  // ---- committed streams and snapshots ------------------------------------------------------

  /** A stream that is one history: its own events, numbered 1..n, replaying from nothing without error. */
  predicate Committed<S, P, B>(b: Behaviour<S, P, B>, r: Ref, stream: seq<Event<P>>) {
    Belongs(stream, r) && Numbered(stream, 0) && Replay(b, Blank(b, r), stream).Some?
  }

  /** The entity after the first k events. */
  function StateAt<S, P, B>(b: Behaviour<S, P, B>, r: Ref, stream: seq<Event<P>>, k: nat): Option<Entity<S>>
    requires k <= |stream|
  {
    Replay(b, Blank(b, r), stream[..k])
  }

  /** The snapshot gives back the entity after the events up to its version. */
  predicate CommittedSnapshot<S(==), P, B>(b: Behaviour<S, P, B>, r: Ref, stream: seq<Event<P>>, s: Snapshot<B>) {
    0 <= s.version <= |stream| && StateAt(b, r, stream, s.version) == Some(FromSnapshot(b, s))
  }

  lemma StateAtIsPosition<S, P, B>(b: Behaviour<S, P, B>, r: Ref, stream: seq<Event<P>>, k: nat)
    requires Committed(b, r, stream) && k <= |stream|
    ensures StateAt(b, r, stream, k).Some?
    ensures StateAt(b, r, stream, k).value.version == k && StateAt(b, r, stream, k).value.reference == r
  {
    assert stream[..k] + stream[k..] == stream;
    ReplaySplits(b, Blank(b, r), stream[..k], stream[k..]);
    ReplayPosition(b, Blank(b, r), stream[..k]);
  }

  /** Where loading up to `hi` ends on n events when the last snapshot stands at version s. */
  function Reached(s: nat, hi: Option<int>, n: nat): nat {
    match hi
    case None => n
    case Some(v) => if Clamp(v, n) < s then s else Clamp(v, n)
  }

  /** A snapshot taken of a committed state is committed exactly when that state's encoding round-trips. */
  lemma TakenIsCommittedIff<S, P, B>(b: Behaviour<S, P, B>, r: Ref, stream: seq<Event<P>>, k: nat)
    requires Committed(b, r, stream) && k <= |stream| && StateAt(b, r, stream, k).Some?
    ensures var m := StateAt(b, r, stream, k).value;
            CommittedSnapshot(b, r, stream, TakeSnapshot(b, m)) <==> RoundTripsAt(b, m.state)
  {
    StateAtIsPosition(b, r, stream, k);
  }

  /**
    Whatever committed snapshots a stream has, loading it through the last of them gives the entity
    a full replay gives: state, version and reference. With an upper bound below the snapshot it gives
    the snapshot's own version, which is committed too.
   */
  lemma RestoreEqualsReplay<S, P, B>(
    b: Behaviour<S, P, B>, r: Ref, stream: seq<Event<P>>, snapshots: seq<Snapshot<B>>, hi: Option<int>)
    requires Committed(b, r, stream)
    requires snapshots != [] ==> CommittedSnapshot(b, r, stream, snapshots[|snapshots| - 1])
    ensures var s := if snapshots == [] then 0 else snapshots[|snapshots| - 1].version;
            && 0 <= s <= |stream|
            && Rehydrate(b, stream, snapshots, r, hi) == StateAt(b, r, stream, Reached(s, hi, |stream|))
            && Rehydrate(b, stream, snapshots, r, hi).Some?
    ensures Rehydrate(b, stream, snapshots, r, None) == Replay(b, Blank(b, r), stream)
  {
    RestoreUpTo(b, r, stream, snapshots, None);
    RestoreUpTo(b, r, stream, snapshots, hi);
    assert stream[..|stream|] == stream;
  }

  lemma RestoreUpTo<S, P, B>(
    b: Behaviour<S, P, B>, r: Ref, stream: seq<Event<P>>, snapshots: seq<Snapshot<B>>, hi: Option<int>)
    requires Committed(b, r, stream)
    requires snapshots != [] ==> CommittedSnapshot(b, r, stream, snapshots[|snapshots| - 1])
    ensures var s := if snapshots == [] then 0 else snapshots[|snapshots| - 1].version;
            && 0 <= s <= |stream|
            && Rehydrate(b, stream, snapshots, r, hi) == StateAt(b, r, stream, Reached(s, hi, |stream|))
            && Rehydrate(b, stream, snapshots, r, hi).Some?
  {
    if snapshots == [] {
      WholeReplays(b, r, stream, hi);
    } else {
      TailReplays(b, r, stream, snapshots[|snapshots| - 1].version, hi);
    }
  }

  lemma WholeReplays<S, P, B>(b: Behaviour<S, P, B>, r: Ref, stream: seq<Event<P>>, hi: Option<int>)
    requires Committed(b, r, stream)
    ensures Replay(b, Blank(b, r), Between(stream, 0, hi)) == StateAt(b, r, stream, Reached(0, hi, |stream|))
    ensures StateAt(b, r, stream, Reached(0, hi, |stream|)).Some?
  {
    BetweenIsSlice(stream, 0, hi);
    SliceFromStart(stream, hi);
    SliceAfter(stream, 0, hi);
    assert stream[0..Reached(0, hi, |stream|)] == stream[..Reached(0, hi, |stream|)];
    StateAtIsPosition(b, r, stream, Reached(0, hi, |stream|));
  }

  /** Mutating through a stream's events after version k leaves the entity at the last of them. */
  lemma TailPosition<S, P, B>(
    b: Behaviour<S, P, B>, r: Ref, stream: seq<Event<P>>, start: Entity<S>, hi: Option<int>)
    requires Numbered(stream, 0) && Belongs(stream, r) && start.reference == r && 0 <= start.version <= |stream|
    ensures var tail := Slice(stream, start.version + 1, hi);
            Replay(b, start, tail).Some? ==>
              && Replay(b, start, tail).value.reference == r
              && Replay(b, start, tail).value.version == Reached(start.version, hi, |stream|)
  {
    var tail := Slice(stream, start.version + 1, hi);
    SliceAfter(stream, start.version, hi);
    if Replay(b, start, tail).Some? {
      ReplayPosition(b, start, tail);
    }
  }

  /** Loading from any snapshot at all that has the stream's name and a version of it: where it ends, if it ends. */
  lemma RehydratePosition<S, P, B>(
    b: Behaviour<S, P, B>, r: Ref, stream: seq<Event<P>>, snapshots: seq<Snapshot<B>>, hi: Option<int>)
    requires Numbered(stream, 0) && Belongs(stream, r)
    requires snapshots != [] ==>
               var s := snapshots[|snapshots| - 1]; s.reference == r && 0 <= s.version <= |stream|
    requires Rehydrate(b, stream, snapshots, r, hi).Some?
    ensures var s := if snapshots == [] then 0 else snapshots[|snapshots| - 1].version;
            var m := Rehydrate(b, stream, snapshots, r, hi).value;
            m.reference == r && m.version == Reached(s, hi, |stream|)
  {
    if snapshots == [] {
      BetweenIsSlice(stream, 0, hi);
      SliceFromStart(stream, hi);
      TailPosition(b, r, stream, Blank(b, r), hi);
    } else {
      var start := FromSnapshot(b, snapshots[|snapshots| - 1]);
      BetweenIsSlice(stream, start.version + 1, hi);
      TailPosition(b, r, stream, start, hi);
    }
  }

  lemma SliceFromStart<P>(stream: seq<Event<P>>, hi: Option<int>)
    ensures Slice(stream, 0, hi) == Slice(stream, 1, hi)
  {
  }

  lemma SliceAfter<P>(stream: seq<Event<P>>, k: nat, hi: Option<int>)
    requires k <= |stream|
    ensures var to := Reached(k, hi, |stream|);
            && k <= to <= |stream|
            && Slice(stream, k + 1, hi) == stream[k..to] && stream[..to] == stream[..k] + stream[k..to]
  {
  }

  /** Replaying the events after version k from the state at k. */
  lemma TailReplays<S, P, B>(b: Behaviour<S, P, B>, r: Ref, stream: seq<Event<P>>, k: nat, hi: Option<int>)
    requires Committed(b, r, stream) && k <= |stream| && StateAt(b, r, stream, k).Some?
    ensures Replay(b, StateAt(b, r, stream, k).value, Between(stream, k + 1, hi))
         == StateAt(b, r, stream, Reached(k, hi, |stream|))
    ensures StateAt(b, r, stream, Reached(k, hi, |stream|)).Some?
  {
    var to := Reached(k, hi, |stream|);
    BetweenIsSlice(stream, k + 1, hi);
    SliceAfter(stream, k, hi);
    ReplaySplits(b, Blank(b, r), stream[..k], stream[k..to]);
    StateAtIsPosition(b, r, stream, to);
  }

  // ---- the store as an object ------------------------------------------------------------------

  class InMemoryStore<P, B> {
    var events: Table<Event<P>>
    var snapshots: Table<Snapshot<B>>

    constructor ()
      ensures events == map[] && snapshots == map[]
    {
      events, snapshots := map[], map[];
    }

    method GetOrCreateEventStream(name: Ref) returns (stream: seq<Event<P>>)
      modifies this`events
      ensures stream == Items(old(events), name)
      ensures events == old(events)[name := stream]
    {
      if name !in events {
        events := events[name := []];
      }
      stream := events[name];
    }

    method GetOrCreateSnapshotStream(name: Ref) returns (stream: seq<Snapshot<B>>)
      modifies this`snapshots
      ensures stream == Items(old(snapshots), name)
      ensures snapshots == old(snapshots)[name := stream]
    {
      if name !in snapshots {
        snapshots := snapshots[name := []];
      }
      stream := snapshots[name];
    }

    /** Raises (not ok) halfway through the batch, keeping what was written. */
    method AppendToStream(name: Ref, batch: seq<Event<P>>) returns (ok: bool)
      modifies this`events
      ensures ok == Append(Items(old(events), name), batch).ok
      ensures events == old(events)[name := Append(Items(old(events), name), batch).stream]
    {
      var stream := GetOrCreateEventStream(name);
      for i := 0 to |batch|
        invariant name in events && stream == events[name]
        invariant events == old(events)[name := stream]
        invariant Append(Items(old(events), name), batch) == Append(stream, batch[i..])
      {
        assert batch[i..][1..] == batch[i + 1..];
        if HasVersion(stream, batch[i].version) {
          return false;
        }
        stream := stream + [batch[i]];
        events := events[name := stream];
      }
      return true;
    }

    method GetStream(name: Ref, lo: int, hi: Option<int>) returns (found: seq<Event<P>>)
      modifies this`events
      ensures found == Between(Items(old(events), name), lo, hi)
      ensures events == old(events)[name := Items(old(events), name)]
    {
      var stream := GetOrCreateEventStream(name);
      found := [];
      for i := 0 to |stream|
        invariant found == Between(stream[..i], lo, hi)
      {
        assert stream[..i + 1][..i] == stream[..i];
        if Within(stream[i].version, lo, hi) {
          found := found + [stream[i]];
        }
      }
      assert stream[..|stream|] == stream;
    }

    method AddSnapshot(name: Ref, s: Snapshot<B>)
      modifies this`snapshots
      ensures snapshots == old(snapshots)[name := Items(old(snapshots), name) + [s]]
    {
      var stream := GetOrCreateSnapshotStream(name);
      snapshots := snapshots[name := stream + [s]];
    }

    method GetLastSnapshot(name: Ref) returns (s: Option<Snapshot<B>>)
      modifies this`snapshots
      ensures snapshots == old(snapshots)[name := Items(old(snapshots), name)]
      ensures var stream := Items(old(snapshots), name);
              s == if stream == [] then None else Some(stream[|stream| - 1])
    {
      var stream := GetOrCreateSnapshotStream(name);
      if |stream| > 0 {
        s := Some(stream[|stream| - 1]);
      } else {
        s := None;
      }
    }
  }

  // ---- the repository ---------------------------------------------------------------------------

  /** A null result is an exception from a mutate. */
  class Repository<S, P, B> {
    const store: InMemoryStore<P, B>
    const behaviour: Behaviour<S, P, B>
    const versionOf: P -> int
    const interval: int

    constructor (store: InMemoryStore<P, B>, behaviour: Behaviour<S, P, B>, versionOf: P -> int, interval: int)
      ensures this.store == store && this.behaviour == behaviour
      ensures this.versionOf == versionOf && this.interval == interval
    {
      this.store := store;
      this.behaviour := behaviour;
      this.versionOf := versionOf;
      this.interval := interval;
    }

    /** One stored event's mutate: a creation event answers with a new entity, any other mutates this one. */
    method MutateEntity(e: Event<P>, entity: RootEntity<S, P>) returns (next: RootEntity?<S, P>)
      modifies entity
      ensures next != null ==> next == entity || fresh(next)
      ensures match Mutate(behaviour, e, old(entity.Value().entity))
              case None => next == null
              case Some(m) => next != null && next.Value().entity == m
      ensures old(entity.events) == [] && next != null ==> next.events == []
    {
      match e.kind {
        case Creation =>
          match behaviour.created(e.payload) {
            case None => next := null;
            case Some(s) => next := new RootEntity(e.reference, e.version, s);
          }
        case Change =>
          var ok := entity.Apply(behaviour, e);
          next := if ok then entity else null;
      }
    }

    /** The loop of a load: each stored event's mutate rebinds the entity. */
    method MutateThrough(found: seq<Event<P>>, blank: RootEntity<S, P>) returns (entity: RootEntity?<S, P>)
      requires blank.events == []
      modifies blank
      ensures entity != null ==> entity == blank || fresh(entity)
      ensures match Replay(behaviour, old(blank.Value().entity), found)
              case None => entity == null
              case Some(m) => entity != null && entity.Value() == Live(m, [])
    {
      entity := blank;
      ghost var start := blank.Value().entity;
      for i := 0 to |found|
        invariant entity != null && (entity == blank || fresh(entity)) && entity.events == []
        invariant Replay(behaviour, start, found[..i]) == Some(entity.Value().entity)
      {
        assert found[..i + 1] == found[..i] + [found[i]];
        ReplaySnoc(behaviour, start, found[..i], found[i]);
        entity := MutateEntity(found[i], entity);
        if entity == null {
          assert found == found[..i + 1] + found[i + 1..];
          ReplaySplits(behaviour, start, found[..i + 1], found[i + 1..]);
          return;
        }
      }
      assert found[..|found|] == found;
    }

    method RehydrateEntity(r: Ref, hi: Option<int>) returns (entity: RootEntity?<S, P>)
      modifies store
      ensures store.events == old(store.events)[r := Items(old(store.events), r)]
      ensures store.snapshots == old(store.snapshots)[r := Items(old(store.snapshots), r)]
      ensures entity != null ==> fresh(entity)
      ensures match Rehydrate(behaviour, Items(old(store.events), r), Items(old(store.snapshots), r), r, hi)
              case None => entity == null
              case Some(m) => entity != null && entity.Value() == Live(m, [])
    {
      var fromVersion := 0;
      entity := new RootEntity(r, 0, behaviour.blank);
      var snapshot := store.GetLastSnapshot(r);
      if snapshot.Some? {
        var start := FromSnapshot(behaviour, snapshot.value);
        entity := new RootEntity(start.reference, start.version, start.state);
        fromVersion := entity.version + 1;
      }
      ghost var begun := entity.Value().entity;
      var found := store.GetStream(r, fromVersion, hi);
      assert Rehydrate(behaviour, Items(old(store.events), r), Items(old(store.snapshots), r), r, hi)
          == Replay(behaviour, begun, found);
      entity := MutateThrough(found, entity);
    }

    method FindBy(r: Ref) returns (entity: RootEntity?<S, P>)
      modifies store
      ensures store.events == old(store.events)[r := Items(old(store.events), r)]
      ensures store.snapshots == old(store.snapshots)[r := Items(old(store.snapshots), r)]
      ensures match Rehydrate(behaviour, Items(old(store.events), r), Items(old(store.snapshots), r), r, None)
              case None => entity == null
              case Some(m) => entity != null && fresh(entity) && entity.Value() == Live(m, [])
    {
      entity := RehydrateEntity(r, None);
    }

    /** Drains the aggregate, appends, then captures: on a conflict the drained events are gone from it. */
    method Save(entity: RootEntity<S, P>) returns (ok: bool)
      modifies store, entity
      ensures entity.Value() == old(entity.Value()).(queue := [])
      ensures var r, batch := entity.reference, old(entity.events);
              var appended := Append(Items(old(store.events), r), batch);
              var captured := CaptureAll(behaviour, appended.stream, Items(old(store.snapshots), r), r,
                                         ClassVersions(versionOf, batch), interval);
              && store.events == old(store.events)[r := appended.stream]
              && ok == (appended.ok && captured.ok)
              && NowHolds(old(store.snapshots), store.snapshots, r,
                          if appended.ok then captured.taken else Items(old(store.snapshots), r))
      ensures CapturesByClass(versionOf, old(entity.events), interval, Items(old(store.snapshots), entity.reference),
                              Items(store.snapshots, entity.reference))
    {
      var batch := entity.CollectEvents();
      ok := store.AppendToStream(entity.reference, batch);
      if ok {
        ok := CaptureSnapshots(entity.reference, batch);
      }
      CapturesGoByClass(behaviour, store.events[entity.reference], Items(old(store.snapshots), entity.reference),
                        entity.reference, versionOf, batch, interval);
    }

    /** The loop over the events just appended; not ok at the first capture that raises. */
    method CaptureSnapshots(r: Ref, batch: seq<Event<P>>) returns (ok: bool)
      requires r in store.events
      modifies store
      ensures store.events == old(store.events)
      ensures var captured := CaptureAll(behaviour, store.events[r], Items(old(store.snapshots), r), r,
                                         ClassVersions(versionOf, batch), interval);
              ok == captured.ok && NowHolds(old(store.snapshots), store.snapshots, r, captured.taken)
    {
      ghost var versions := ClassVersions(versionOf, batch);
      ghost var stream, taken := store.events[r], Items(store.snapshots, r);
      for i := 0 to |batch|
        invariant store.events == old(store.events)
        invariant CaptureAll(behaviour, stream, taken, r, versions[..i], interval)
               == Captures(Items(store.snapshots, r), true)
        invariant NowHolds(old(store.snapshots), store.snapshots, r, Items(store.snapshots, r))
      {
        assert versions[..i + 1][..i] == versions[..i];
        ok := CaptureIfDue(r, versionOf(batch[i].payload));
        if !ok {
          CaptureAllStops(behaviour, stream, taken, r, versions, i + 1, interval);
          return;
        }
      }
      assert versions[..|batch|] == versions;
      return true;
    }

    /** One turn of that loop: the remainder, then the capture. */
    method CaptureIfDue(r: Ref, version: int) returns (ok: bool)
      requires r in store.events
      modifies store
      ensures store.events == old(store.events)
      ensures var before := Captures(Items(old(store.snapshots), r), true);
              var next := CaptureNext(behaviour, store.events[r], before, r, version, interval);
              ok == next.ok && NowHolds(old(store.snapshots), store.snapshots, r, next.taken)
    {
      ok := interval != 0;
      if ok && IsDue(version, interval) {
        ok := CaptureSnapshot(r, version);
      }
    }

    /** Store a snapshot of the entity rehydrated up to a version; not ok when rehydrating raises. */
    method CaptureSnapshot(r: Ref, upTo: int) returns (ok: bool)
      modifies store
      ensures store.events == old(store.events)[r := Items(old(store.events), r)]
      ensures var taken := Items(old(store.snapshots), r);
              match Rehydrate(behaviour, Items(old(store.events), r), taken, r, Some(upTo))
              case None => !ok && store.snapshots == old(store.snapshots)[r := taken]
              case Some(m) => ok && store.snapshots == old(store.snapshots)[r := taken + [TakeSnapshot(behaviour, m)]]
    {
      var entity := RehydrateEntity(r, Some(upTo));
      if entity == null {
        return false;
      }
      store.AddSnapshot(r, TakeSnapshot(behaviour, entity.Value().entity));
      return true;
    }
  }
}
