/**
  What a repository's saves take snapshots of: after each append it captures by the versions of the message
  classes, not by those of the events.
 */
module EventStoreCaptures {
  import opened Wrappers
  import opened EventSourcing
  import opened EventStore
  import opened EventStoreSystem
  import opened EventStoreHistory

  /** The captures that follow an append, as steps of a run. */
  function Due<P>(r: Ref, versions: seq<int>, interval: int): seq<Step<P>>
    requires interval != 0
  {
    if versions == [] then []
    else
      var v := versions[|versions| - 1];
      Due(r, versions[..|versions| - 1], interval) + (if IsDue(v, interval) then [Capture(r, v)] else [])
  }

  /** None of the captures raised, and they left what the steps leave. */
  predicate AllCaptured<S(==), P(==), B(==)>(b: Behaviour<S, P, B>, sys: System<S, P, B>, sys': System<S, P, B>,
      r: Ref, versions: seq<int>, interval: int)
  {
    && sys'.streams == sys.streams && sys'.clients == sys.clients
    && CaptureAll(b, Items(sys.streams, r), Items(sys.snapshots, r), r, versions, interval)
    == Captures(Items(sys'.snapshots, r), true)
  }

  /** One more version: a step if it is due, and in a serial history it does not raise. */
  lemma CaptureGoesOn<S, P, B>(b: Behaviour<S, P, B>, sys: System<S, P, B>, mid: System<S, P, B>, r: Ref,
      versions: seq<int>, interval: int)
    requires interval != 0 && versions != [] && Inv(b, mid, r)
    requires AllCaptured(b, sys, mid, r, versions[..|versions| - 1], interval)
    ensures var v := versions[|versions| - 1];
            AllCaptured(b, sys, if IsDue(v, interval) then CaptureStep(b, mid, r, v) else mid, r, versions, interval)
  {
    CaptureAdds(b, mid, r, versions[|versions| - 1]);
  }

  lemma DueGoesOn<P>(before: seq<Step<P>>, r: Ref, versions: seq<int>, interval: int)
    requires interval != 0 && versions != []
    ensures var init := before + Due<P>(r, versions[..|versions| - 1], interval);
            var v := versions[|versions| - 1];
            before + Due(r, versions, interval) == if IsDue(v, interval) then init + [Capture(r, v)] else init
  {
  }

  lemma HonestInit<S, P, B>(b: Behaviour<S, P, B>, init: seq<Step<P>>, last: Step<P>, r: Ref)
    requires HonestRun(b, init + [last], r)
    ensures HonestRun(b, init, r)
  {
    assert (init + [last])[..|init|] == init;
    HonestPrefix(b, init + [last], |init|, r);
  }

  lemma {:induction false} CapturesAreSteps<S, P, B>(
      b: Behaviour<S, P, B>, before: seq<Step<P>>, r: Ref, versions: seq<int>, interval: int)
    requires interval != 0 && HonestRun(b, before + Due(r, versions, interval), r)
    ensures AllCaptured(b, Run(b, before), Run(b, before + Due(r, versions, interval)), r, versions, interval)
  {
    if versions == [] {
      assert before + Due(r, versions, interval) == before;
    } else {
      var init, v := before + Due(r, versions[..|versions| - 1], interval), versions[|versions| - 1];
      DueGoesOn(before, r, versions, interval);
      if IsDue(v, interval) {
        HonestInit(b, init, Capture(r, v), r);
        RunSnoc(b, init, Capture(r, v));
      }
      CapturesAreSteps(b, before, r, versions[..|versions| - 1], interval);
      RunKeepsInv(b, init, r);
      CaptureGoesOn(b, Run(b, before), Run(b, init), r, versions, interval);
    }
  }

  /** What a save gives the store: the appended stream, and the snapshots of all captures that were due. */
  predicate SavedWithCaptures<S(==), P(==), B(==)>(b: Behaviour<S, P, B>, sys: System<S, P, B>, sys': System<S, P, B>,
      c: ClientId, versions: seq<int>, interval: int)
    requires c in sys.clients
  {
    var r := sys.clients[c].live.entity.reference;
    var appended := Append(Items(sys.streams, r), sys.clients[c].live.queue);
    && Items(sys'.streams, r) == appended.stream
    && CaptureAll(b, appended.stream, Items(sys.snapshots, r), r, versions, interval)
    == Captures(Items(sys'.snapshots, r), true)
  }

  /** The captures that are due after this client's save, by the message classes of its queue. */
  function DueAfter<S, P, B>(sys: System<S, P, B>, c: ClientId, versionOf: P -> int, interval: int): seq<Step<P>>
    requires c in sys.clients && interval != 0
  {
    var live := sys.clients[c].live;
    Due(live.entity.reference, ClassVersions(versionOf, live.queue), interval)
  }

  /**
    In an honest run no capture of a save raises, and the save as a whole is the append and then the captures
    that are due, each a step of its own.
   */
  lemma SaveIsAppendThenCaptures<S, P, B>(
      b: Behaviour<S, P, B>, steps: seq<Step<P>>, c: ClientId, versionOf: P -> int, interval: int)
    requires interval != 0 && c in Run(b, steps).clients
    requires HonestRun(b, steps + [Save(c)] + DueAfter(Run(b, steps), c, versionOf, interval),
                       Run(b, steps).clients[c].live.entity.reference)
    ensures SavedWithCaptures(b, Run(b, steps),
                              Run(b, steps + [Save(c)] + DueAfter(Run(b, steps), c, versionOf, interval)), c,
                              ClassVersions(versionOf, Run(b, steps).clients[c].live.queue), interval)
  {
    var r := Run(b, steps).clients[c].live.entity.reference;
    var versions := ClassVersions(versionOf, Run(b, steps).clients[c].live.queue);
    RunSnoc(b, steps, Save(c));
    CapturesAreSteps(b, steps + [Save(c)], r, versions, interval);
    AppendThenCaptures(b, Run(b, steps), Run(b, steps + [Save(c)] + Due(r, versions, interval)), c, versions, interval);
  }

  lemma AppendThenCaptures<S, P, B>(b: Behaviour<S, P, B>, sys: System<S, P, B>, sys': System<S, P, B>,
      c: ClientId, versions: seq<int>, interval: int)
    requires c in sys.clients
    requires AllCaptured(b, SaveStep(sys, c), sys', sys.clients[c].live.entity.reference, versions, interval)
    ensures SavedWithCaptures(b, sys, sys', c, versions, interval)
  {
  }

  /** No capture of r is asked for beyond this version. */
  predicate CapturesAtMost<P>(steps: seq<Step<P>>, r: Ref, top: int) {
    forall k | 0 <= k < |steps| && steps[k].Capture? && steps[k].reference == r :: steps[k].upTo <= top
  }

  lemma CaptureStaysLow<S, P, B>(b: Behaviour<S, P, B>, sys: System<S, P, B>, r: Ref, upTo: int, top: nat)
    requires AtMost(Items(sys.snapshots, r), top) && upTo <= top
    ensures AtMost(Items(CaptureStep(b, sys, r, upTo).snapshots, r), top)
  {
    var stream, taken := Items(sys.streams, r), Items(sys.snapshots, r);
    if Rehydrate(b, stream, taken, r, Some(upTo)).Some? {
      RehydrateStaysLow(b, stream, taken, r, upTo, top);
    }
  }

  lemma StepStaysLow<S, P, B>(b: Behaviour<S, P, B>, sys: System<S, P, B>, step: Step<P>, r: Ref, top: nat)
    requires AtMost(Items(sys.snapshots, r), top)
    requires step.Capture? && step.reference == r ==> step.upTo <= top
    ensures AtMost(Items(Next(b, sys, step).snapshots, r), top)
  {
    if step.Capture? && step.reference == r {
      CaptureStaysLow(b, sys, r, step.upTo, top);
    } else {
      OtherTablesStay(b, sys, step, r);
    }
  }

  /**
    In every run: snapshots never get past the greatest version a capture asked for. As saves ask for the
    versions of message classes, an aggregate whose classes are at version `top` never has a later snapshot
    than that of its first `top` events, however long its stream grows.
   */
  lemma {:induction false} SnapshotsStayLow<S, P, B>(b: Behaviour<S, P, B>, steps: seq<Step<P>>, r: Ref, top: nat)
    requires CapturesAtMost(steps, r, top)
    ensures AtMost(Items(Run(b, steps).snapshots, r), top)
  {
    if steps != [] {
      var n := |steps| - 1;
      assert CapturesAtMost(steps[..n], r, top) by {
        forall k | 0 <= k < n ensures steps[..n][k] == steps[k] {}
      }
      SnapshotsStayLow(b, steps[..n], r, top);
      StepStaysLow(b, Run(b, steps[..n]), steps[n], r, top);
    }
  }

  /** And by the captures that saves ask for: their class versions bound them. */
  lemma {:induction false} DueAtMost<P>(r: Ref, versions: seq<int>, interval: int, top: int)
    requires interval != 0 && forall i | 0 <= i < |versions| :: versions[i] <= top
    ensures CapturesAtMost<P>(Due(r, versions, interval), r, top)
  {
    if versions != [] {
      DueAtMost<P>(r, versions[..|versions| - 1], interval, top);
    }
  }
}
