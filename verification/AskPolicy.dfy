/** Which deliveries are acknowledged, dropped or left pending, given what handling the event came to. */
module AskPolicy {
  /** A handler's entry in the result list. Cancellation is not an Exception in Python. */
  datatype Outcome = Returned | Raised | Cancelled

  /** application.handle either raises or gives the result list. */
  datatype Handling = Failed | Results(results: seq<Outcome>)

  datatype Settlement = Acked | Dropped | Requeued | Untouched

  /** The request behind ack and reject(requeue=False) is the same: only a requeue sends nothing. */
  predicate Acknowledges(s: Settlement) {
    s.Acked? || s.Dropped?
  }

  predicate AllRaised(results: seq<Outcome>) {
    forall i | 0 <= i < |results| :: results[i].Raised?
  }

  function Verdict(built: bool, handling: Handling): Settlement {
    if !built then Dropped
    else
      match handling
      case Failed => Untouched
      case Results(rs) => if rs == [] then Dropped else if AllRaised(rs) then Requeued else Acked
  }

  /**
    Every way of ending and its verdict: no event and no handler are rejected for good, an application that
    raised leaves the message alone, handlers that all raised send it back, and one that did not is enough for
    an acknowledgement.
   */
  lemma VerdictsAre(handling: Handling)
    ensures Verdict(false, handling).Dropped?
    ensures handling.Failed? <==> Verdict(true, handling).Untouched?
    ensures handling == Results([]) <==> Verdict(true, handling).Dropped?
    ensures Verdict(true, handling).Acked? <==>
              handling.Results? && (Returned in handling.results || Cancelled in handling.results)
    ensures Verdict(true, handling).Requeued? <==>
              && handling.Results? && handling.results != []
              && forall i | 0 <= i < |handling.results| :: handling.results[i] == Raised
  {
    if handling.Results? {
      var rs := handling.results;
      if !AllRaised(rs) {
        var i :| 0 <= i < |rs| && !rs[i].Raised?;
        assert rs[i] in rs;
      }
      if r :| r in rs && !r.Raised? {
        assert !AllRaised(rs);
      }
    }
  }

  /**
    A handler cancelled halfway counts as handled: a message is acknowledged although no handler returned,
    exactly when none returned and one was cancelled.
   */
  lemma CancelledCountsAsHandled(results: seq<Outcome>)
    ensures Verdict(true, Results(results)).Acked? && Returned !in results <==>
            Cancelled in results && Returned !in results
  {
    if Cancelled in results {
      var i :| 0 <= i < |results| && results[i] == Cancelled;
      assert !AllRaised(results);
    }
    if Returned !in results && Cancelled !in results {
      forall i | 0 <= i < |results| ensures results[i].Raised? {
        assert results[i] in results;
      }
    }
  }
}
