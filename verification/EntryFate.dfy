/** From subscriptions to the server: what a delivered entry's fate depends on. */
module EntryFate {
  import opened StreamGroup
  import CG = ConsumerGroup
  import opened AskPolicy
  import Dispatch

  /**
    In any reachable state, a pending entry whose open delivery is processed leaves the pending map if and
    only if the acknowledgement reaches the server and: its event could not be built, or the application is
    running, all answering handlers are asynchronous, and none answers or one of them did not raise. When
    every answering handler raised, or the application raised, it stays.
   */
  lemma EntryLeavesPendingIff<V, C>(
    entries: seq<Id>, start: Id, steps: seq<CG.Step>, d: CG.Delivery,
    built: bool, running: bool, subs: seq<Dispatch.Subscription<V, C>>, topic: string, fields: map<string, V>,
    reached: bool)
    requires Increasing(entries)
    requires var g := CG.Run(CG.Created(entries, start), steps); d in g.open && d.id in g.server.pending
    ensures var calls := Dispatch.Answers(subs, topic, fields);
            var handling := if running then Dispatch.Gather(calls) else Failed;
            var g' := CG.Run(CG.Created(entries, start), steps + [CG.Settle(d, Verdict(built, handling), reached)]);
            d.id !in g'.server.pending <==>
              && reached
              && (!built
                  || (&& running
                      && (forall call | call in calls :: call.isAsync)
                      && (calls == [] || exists call :: call in calls && !call.outcome.Raised?)))
  {
    var handling := if running then Dispatch.Gather(Dispatch.Answers(subs, topic, fields)) else Failed;
    CG.LeavesPendingOnlyBySettlement(entries, start, steps, CG.Settle(d, Verdict(built, handling), reached), d.id);
    Dispatch.AcknowledgedIff(built, running, subs, topic, fields);
  }
}
