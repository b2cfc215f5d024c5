/** What becomes of each message handed to a consumer: its callback, from the read that gave it to its settlement. */
module GroupDeliveries {
  import opened StreamGroup
  import opened ConsumerGroup
  import opened AskPolicy

  /** The callback of this message has been started: it runs, or it has finished. */
  predicate Started(g: Group, d: Delivery) {
    d in g.open || d in g.settled
  }

  /** The callback of a message that the consumer's present session was given. */
  function CallbackOf(g: Group, c: Name, id: Id): Delivery
    requires c in g.sessions
  {
    Delivery(c, g.sessions[c].epoch, id)
  }

  ghost predicate AllStarted(g: Group) {
    forall c, id | c in g.sessions && id in g.sessions[c].delivered :: Started(g, CallbackOf(g, c, id))
  }

  lemma StepKeepsStarted(g: Group, step: Step)
    requires AllStarted(g)
    ensures AllStarted(Next(g, step))
  {
    var g' := Next(g, step);
    forall c, id | c in g'.sessions && id in g'.sessions[c].delivered ensures Started(g', CallbackOf(g', c, id)) {
      if c in g.sessions && g'.sessions[c].epoch == g.sessions[c].epoch && id in g.sessions[c].delivered {
        assert Started(g, CallbackOf(g, c, id));
      }
    }
  }

  lemma {:induction false} RunKeepsStarted(g: Group, steps: seq<Step>)
    requires AllStarted(g)
    ensures AllStarted(Run(g, steps))
  {
    if steps != [] {
      RunKeepsStarted(g, steps[..|steps| - 1]);
      StepKeepsStarted(Run(g, steps[..|steps| - 1]), steps[|steps| - 1]);
    }
  }

  /** After every run, every message that a session was given has a callback of its own: none of a reply is left out. */
  lemma EveryMessageIsHandled(entries: seq<Id>, start: Id, steps: seq<Step>, c: Name, id: Id)
    requires var g := Run(Created(entries, start), steps); c in g.sessions && id in g.sessions[c].delivered
    ensures var g := Run(Created(entries, start), steps); Started(g, CallbackOf(g, c, id))
  {
    RunKeepsStarted(Created(entries, start), steps);
  }

  /** The step gives this session this message, for the first time. */
  predicate Gives(g: Group, g': Group, step: Step, d: Delivery) {
    && step == Read(d.name) && d.name in g.sessions && g.sessions[d.name].epoch == d.epoch
    && d.name in g'.sessions && d.id in g'.sessions[d.name].delivered && d.id !in g.sessions[d.name].delivered
  }

  lemma OpensIffGiven(g: Group, start: Id, step: Step, d: Delivery)
    requires Inv(g, start) && d !in g.open
    ensures d in Next(g, step).open <==> Gives(g, Next(g, step), step, d)
  {
    if step.Read? && step.name in g.sessions {
      ReplyIsFresh(g.server, step.name, g.sessions[step.name], start);
    }
  }

  lemma ClosesIffSettled(g: Group, step: Step, d: Delivery)
    requires d in g.open
    ensures d !in Next(g, step).open <==> step.Settle? && step.delivery == d
    ensures d !in Next(g, step).open ==> Next(g, step).settled == g.settled + [d]
  {
  }

  lemma StaysSettled(g: Group, start: Id, step: Step, d: Delivery)
    requires Inv(g, start) && d in g.settled
    ensures d in Next(g, step).settled && d !in Next(g, step).open
  {
    StepKeepsInv(g, step, start);
  }

  /** A callback starts exactly when a read gives its message, and ends exactly when it is settled. */
  lemma StartsAndEndsIff(entries: seq<Id>, start: Id, steps: seq<Step>, step: Step, d: Delivery)
    requires Increasing(entries)
    ensures var g, g' := Run(Created(entries, start), steps), Run(Created(entries, start), steps + [step]);
            && (d !in g.open ==> (d in g'.open <==> Gives(g, g', step, d)))
            && (d in g.open ==> (d !in g'.open <==> step.Settle? && step.delivery == d))
  {
    RunKeepsInv(entries, start, steps);
    RunSnoc(Created(entries, start), steps, step);
    var g := Run(Created(entries, start), steps);
    if d in g.open {
      ClosesIffSettled(g, step, d);
    } else {
      OpensIffGiven(g, start, step, d);
    }
  }

  predicate Settles(steps: seq<Step>, d: Delivery) {
    exists i :: 0 <= i < |steps| && steps[i].Settle? && steps[i].delivery == d
  }

  lemma SettlesSnoc(steps: seq<Step>, d: Delivery)
    requires steps != []
    ensures Settles(steps, d) <==>
              var n := |steps| - 1; Settles(steps[..n], d) || (steps[n].Settle? && steps[n].delivery == d)
  {
    var n := |steps| - 1;
    if i :| 0 <= i < n && steps[..n][i].Settle? && steps[..n][i].delivery == d {
      assert steps[i].Settle?;
    }
    if i :| 0 <= i < |steps| && steps[i].Settle? && steps[i].delivery == d {
      assert i < n ==> steps[..n][i].Settle?;
    }
  }

  /**
    A callback stays open, whatever else happens, restarts of its consumer included, until it is settled; then it
    is settled for good.
   */
  lemma {:induction false} OpenUntilSettled(g: Group, start: Id, later: seq<Step>, d: Delivery)
    requires Inv(g, start) && d in g.open
    ensures var g' := Run(g, later);
            && (d in g'.open <==> !Settles(later, d))
            && (d in g'.settled <==> Settles(later, d))
    decreases |later|
  {
    if later == [] {
      assert d !in g.settled;
    } else {
      var n := |later| - 1;
      OpenUntilSettled(g, start, later[..n], d);
      RunFromKeepsInv(g, start, later[..n]);
      SettlesSnoc(later, d);
      OneStepOn(Run(g, later[..n]), start, later[n], d);
    }
  }

  lemma OneStepOn(g: Group, start: Id, step: Step, d: Delivery)
    requires Inv(g, start) && Started(g, d)
    ensures var g' := Next(g, step);
            && (d in g'.open <==> d in g.open && !(step.Settle? && step.delivery == d))
            && (d in g'.settled <==> d in g.settled || (step.Settle? && step.delivery == d))
  {
    if d in g.open {
      ClosesIffSettled(g, step, d);
    } else {
      StaysSettled(g, start, step, d);
    }
    StepKeepsInv(g, step, start);
  }

  /** What settling a message does to the server: it acknowledges this one entry, or nothing. */
  ghost predicate Acknowledged(s: Server, s': Server, id: Id) {
    && id !in s'.pending && (forall x: Id | x != id :: x in s'.pending <==> x in s.pending)
    && (forall x: Id | x in s'.pending :: s'.pending[x] == s.pending[x])
    && s'.entries == s.entries && s'.lastDelivered == s.lastDelivered
  }

  /**
    Each message given can be acknowledged: as long as its callback has not finished, settling it by ack or by a
    reject without requeue takes its entry, and no other, out of the pending map if the request arrives; any
    other settlement leaves the server as it is.
   */
  lemma SettlingAcknowledgesIff(entries: seq<Id>, start: Id, steps: seq<Step>, c: Name, id: Id,
      settlement: Settlement, reached: bool)
    requires var g := Run(Created(entries, start), steps);
             c in g.sessions && id in g.sessions[c].delivered && CallbackOf(g, c, id) !in g.settled
    ensures var g := Run(Created(entries, start), steps);
            var g' := Run(Created(entries, start), steps + [Settle(CallbackOf(g, c, id), settlement, reached)]);
            if reached && settlement in {Acked, Dropped} then Acknowledged(g.server, g'.server, id)
            else g'.server == g.server
  {
    var g := Run(Created(entries, start), steps);
    EveryMessageIsHandled(entries, start, steps, c, id);
    RunSnoc(Created(entries, start), steps, Settle(CallbackOf(g, c, id), settlement, reached));
  }
}
