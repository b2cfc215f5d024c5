/**
  Every run of one consumer group: publishing, (re)starting consumers, their reads, reads whose reply
  is lost on the way, and the settlement of deliveries, interleaved in any order.
 */
module ConsumerGroup {
  import opened StreamGroup
  import opened AskPolicy

  /** One message handed to one callback; `epoch` tells a consumer's sessions apart. */
  datatype Delivery = Delivery(name: Name, epoch: nat, id: Id)

  /**
    A consumer since its last bind. Only `limit` and `cursor` are state of the source; the rest records
    what happened: ids delivered, ids pending at bind and their number, successful reads up to the first
    ">", whether that was reached, and new entries whose reply was lost.
   */
  datatype Session = Session(
    epoch: nat, limit: Limit, cursor: Cursor,
    delivered: seq<Id>, bound: set<Id>, backlog: nat, readCount: nat, caughtUp: bool, lost: set<Id>)

  /** `open` are deliveries whose callback has not finished; `settled` those that have, in order. */
  datatype Group = Group(
    server: Server, sessions: map<Name, Session>, open: set<Delivery>, settled: seq<Delivery>, epochs: nat)

  datatype Step =
    | Published(id: Id)
    | Bind(name: Name, limit: Limit)
    | Read(name: Name)
    | ReadLost(name: Name)
    | Settle(delivery: Delivery, settlement: Settlement, reached: bool)

  function Created(entries: seq<Id>, start: Id): Group {
    Group(Server(entries, start, map[], map[]), map[], {}, [], 0)
  }

  function BindStep(g: Group, c: Name, limit: Limit): Group {
    var bound := set id | id in g.server.pending && g.server.pending[id] == c;
    var backlog := |History(g.server.entries, g.server.pending, c, 0)|;
    g.(sessions := g.sessions[c := Session(g.epochs, limit, After(0), [], bound, backlog, 0, false, {})],
       epochs := g.epochs + 1)
  }

  function AfterRead(me: Session, reply: seq<Id>): Session {
    me.(cursor := Track(reply),
        delivered := me.delivered + reply,
        readCount := if me.caughtUp then me.readCount else me.readCount + 1,
        caughtUp := me.caughtUp || reply == [])
  }

  function ReadStep(g: Group, c: Name): Group {
    if c !in g.sessions then g
    else
      var me := g.sessions[c];
      var reply := Reply(g.server, c, me.cursor, me.limit);
      g.(server := ReadGroup(g.server, c, me.cursor, me.limit),
         sessions := g.sessions[c := AfterRead(me, reply)],
         open := g.open + set id | id in reply :: Delivery(c, me.epoch, id))
  }

  /** The server acted, the client saw an exception: the cursor stays and nothing is delivered. */
  function ReadLostStep(g: Group, c: Name): Group {
    if c !in g.sessions then g
    else
      var me := g.sessions[c];
      var reply := Reply(g.server, c, me.cursor, me.limit);
      g.(server := ReadGroup(g.server, c, me.cursor, me.limit),
         sessions := g.sessions[c := me.(lost := if me.cursor.New? then me.lost + (set id | id in reply) else me.lost)])
  }

  /** The callback ends; if it acknowledged and the request reached the server, the entry is acknowledged. */
  function SettleStep(g: Group, d: Delivery, settlement: Settlement, reached: bool): Group {
    if d !in g.open then g
    else
      g.(open := g.open - {d},
         settled := g.settled + [d],
         server := if reached && Acknowledges(settlement) then Ack(g.server, d.id) else g.server)
  }

  function Next(g: Group, step: Step): Group {
    match step
    case Published(id) => g.(server := Publish(g.server, id))
    case Bind(c, limit) => BindStep(g, c, limit)
    case Read(c) => ReadStep(g, c)
    case ReadLost(c) => ReadLostStep(g, c)
    case Settle(d, settlement, reached) => SettleStep(g, d, settlement, reached)
  }

  function Run(g: Group, steps: seq<Step>): Group {
    if steps == [] then g else Next(Run(g, steps[..|steps| - 1]), steps[|steps| - 1])
  }

  // ---- the invariant ---------------------------------------------------------------------------------

  function Position(me: Session): Id {
    if me.delivered == [] then 0 else me.delivered[|me.delivered| - 1]
  }

  ghost predicate SessionInv(s: Server, c: Name, me: Session) {
    && Increasing(me.delivered)
    && (forall id: Id | id in me.delivered :: id <= s.lastDelivered && Holds(s, c, id))
    && (me.cursor.After? ==> me.cursor.id == Position(me))
    && (forall id: Id | id in me.lost :: id <= s.lastDelivered && id !in me.delivered && Holds(s, c, id))
    && (forall id: Id | id in me.bound :: Holds(s, c, id))
    && (if me.caughtUp then CaughtUpInv(s, c, me) else CatchingUpInv(s, c, me))
  }

  /** Walking own history: everything owned is delivered or still ahead; reads left plus reads done stay bounded. */
  ghost predicate CatchingUpInv(s: Server, c: Name, me: Session) {
    && me.cursor.After? && me.lost == {}
    && (forall id: Id | Owns(s, c, id) :: me.cursor.id < id || id in me.delivered)
    && me.readCount + Rounds(|History(s.entries, s.pending, c, me.cursor.id)|, me.limit) <= Rounds(me.backlog, me.limit)
  }

  /**
    From the first ">" on: everything owned was delivered or its reply was lost, and nothing lies past an id
    cursor.
   */
  ghost predicate CaughtUpInv(s: Server, c: Name, me: Session) {
    && me.readCount <= Rounds(me.backlog, me.limit) + 1
    && (forall id: Id | Owns(s, c, id) :: id in me.delivered || id in me.lost)
    && (forall id: Id | id in me.bound :: id in s.acked || id in me.delivered)
    && (me.cursor.After? ==> forall id: Id | Owns(s, c, id) :: id <= me.cursor.id)
  }

  predicate NoRepeats<T(==)>(xs: seq<T>) {
    forall i, j | 0 <= i < j < |xs| :: xs[i] != xs[j]
  }

  predicate Known(g: Group, d: Delivery) {
    && d.epoch < g.epochs
    && Holds(g.server, d.name, d.id)
    && (d.name in g.sessions && g.sessions[d.name].epoch == d.epoch ==> d.id in g.sessions[d.name].delivered)
  }

  ghost predicate Inv(g: Group, start: Id) {
    && Consistent(g.server, start)
    && (forall c | c in g.sessions :: SessionInv(g.server, c, g.sessions[c]) && g.sessions[c].epoch < g.epochs)
    && (forall d | d in g.open || d in g.settled :: Known(g, d))
    && NoRepeats(g.settled)
    && (forall d | d in g.settled :: d !in g.open)
  }

  // ---- what any change of the server keeps for a consumer that did not read ---------------------------

  /** Nothing new is owned by c, and what it held it holds. */
  ghost predicate Evolves(s: Server, s': Server, c: Name) {
    && s.entries <= s'.entries && Increasing(s'.entries)
    && s.lastDelivered <= s'.lastDelivered
    && (forall id: Id | Owns(s', c, id) :: Owns(s, c, id))
    && (forall id: Id | Holds(s, c, id) :: Holds(s', c, id))
    && s.acked.Keys <= s'.acked.Keys
  }

  lemma SessionSurvives(s: Server, s': Server, c: Name, me: Session, start: Id)
    requires Consistent(s, start) && SessionInv(s, c, me) && Evolves(s, s', c)
    ensures SessionInv(s', c, me)
  {
    if !me.caughtUp {
      var more := s'.entries[|s.entries|..];
      assert s'.entries == s.entries + more;
      forall id: Id | id in s'.pending && s'.pending[id] == c
        ensures id in s.pending && s.pending[id] == c && id in s.entries
      {
        assert Owns(s', c, id);
      }
      HistoryShrinks(s.entries, s.pending, more, s'.pending, c, me.cursor.id);
      RoundsMonotone(|History(s'.entries, s'.pending, c, me.cursor.id)|,
                     |History(s.entries, s.pending, c, me.cursor.id)|, me.limit);
    }
  }

  lemma AckConsistent(s: Server, id: Id, start: Id)
    requires Consistent(s, start)
    ensures Consistent(Ack(s, id), start)
  {
    var s' := Ack(s, id);
    forall x: Id ensures (x in s'.acked || x in s'.pending) <==> (x in s.acked || x in s.pending) {}
  }

  lemma AckEvolves(s: Server, id: Id, c: Name, start: Id)
    requires Consistent(s, start)
    ensures Evolves(s, Ack(s, id), c)
  {
    var s' := Ack(s, id);
    forall x: Id | Holds(s, c, x) ensures Holds(s', c, x) {}
  }

  lemma LastIsGreatest(xs: seq<Id>, id: Id)
    requires Increasing(xs) && id in xs
    ensures id <= xs[|xs| - 1]
  {
    var i :| 0 <= i < |xs| && xs[i] == id;
  }

  lemma PublishIncreasing(s: Server, id: Id)
    requires Increasing(s.entries)
    ensures Increasing(Publish(s, id).entries)
    ensures forall x: Id | x in s.entries && Publish(s, id) != s :: x < id
  {
    forall x: Id | x in s.entries ensures x <= s.entries[|s.entries| - 1] {
      LastIsGreatest(s.entries, x);
    }
  }

  lemma PublishConsistent(s: Server, id: Id, start: Id)
    requires Consistent(s, start)
    ensures Consistent(Publish(s, id), start)
  {
    PublishIncreasing(s, id);
    var s' := Publish(s, id);
    if s' != s {
      assert forall x: Id :: x in s'.entries <==> x in s.entries || x == id;
      assert s.lastDelivered == start || s.lastDelivered < id;
    }
  }

  lemma PublishEvolves(s: Server, id: Id, c: Name)
    requires Increasing(s.entries)
    ensures Evolves(s, Publish(s, id), c)
  {
    PublishIncreasing(s, id);
  }

  /** A reply of new entries is exactly the entries between the old and the new last-delivered id. */
  lemma NewReplyIsInterval(s: Server, c: Name, limit: Limit)
    requires Increasing(s.entries)
    requires Reply(s, c, New, limit) != []
    ensures var reply := Reply(s, c, New, limit);
            var last := reply[|reply| - 1];
            && s.lastDelivered < last && last in s.entries
            && forall id: Id :: id in reply <==> id in s.entries && s.lastDelivered < id <= last
  {
    var reply := Reply(s, c, New, limit);
    var last := reply[|reply| - 1];
    ReplySelects(s, c, New, limit);
    assert last in reply;
    forall id: Id | id in reply ensures id <= last { LastIsGreatest(reply, id); }
    forall id: Id | id in s.entries && s.lastDelivered < id <= last ensures id in reply {
      ReplySkipsNothing(s, c, New, limit, id);
    }
  }

  /** Any read keeps the server consistent; to everyone else it is an evolution. */
  lemma ReadConsistent(s: Server, c: Name, cursor: Cursor, limit: Limit, start: Id)
    requires Consistent(s, start)
    ensures Consistent(ReadGroup(s, c, cursor, limit), start)
  {
    if cursor.New? && Reply(s, c, cursor, limit) != [] {
      NewReplyIsInterval(s, c, limit);
    }
  }

  /** The server has handed c the entries of a reply, all past what it had handed out before. */
  ghost predicate HandsOut(s: Server, s': Server, c: Name, reply: seq<Id>) {
    && s'.lastDelivered >= s.lastDelivered
    && (forall id: Id | id in reply :: s.lastDelivered < id <= s'.lastDelivered)
    && (forall id: Id :: Owns(s', c, id) <==> Owns(s, c, id) || id in reply)
    && (forall d: Name, id: Id | d != c :: Owns(s', d, id) <==> Owns(s, d, id))
    && s'.entries == s.entries && s'.acked == s.acked
  }

  lemma NewReadHandsOut(s: Server, c: Name, limit: Limit, start: Id)
    requires Consistent(s, start) && Reply(s, c, New, limit) != []
    ensures HandsOut(s, ReadGroup(s, c, New, limit), c, Reply(s, c, New, limit))
  {
    NewReplyIsInterval(s, c, limit);
    AssignedHandsOut(s, c, Reply(s, c, New, limit), start);
  }

  lemma AssignedHandsOut(s: Server, c: Name, reply: seq<Id>, start: Id)
    requires Consistent(s, start) && reply != []
    requires forall id: Id | id in reply :: s.lastDelivered < id <= reply[|reply| - 1]
    ensures HandsOut(s, s.(lastDelivered := reply[|reply| - 1], pending := Assign(s.pending, reply, c)), c, reply)
  {
    assert reply[|reply| - 1] in reply;
    forall id: Id | id in reply ensures id !in s.pending {}
  }

  lemma ReadEvolves(s: Server, c: Name, cursor: Cursor, limit: Limit, start: Id, d: Name)
    requires Consistent(s, start)
    ensures d != c ==> Evolves(s, ReadGroup(s, c, cursor, limit), d)
    ensures forall id: Id | Holds(s, d, id) :: Holds(ReadGroup(s, c, cursor, limit), d, id)
  {
    if cursor.New? && Reply(s, c, cursor, limit) != [] {
      NewReadHandsOut(s, c, limit, start);
    }
  }

  // ---- what a read keeps for the reader -----------------------------------------------------------------

  lemma JoinedIncreasing(xs: seq<Id>, ys: seq<Id>, x: Id)
    requires Increasing(xs) && Increasing(ys)
    requires (forall id: Id | id in xs :: id <= x) && (forall id: Id | id in ys :: x < id)
    ensures Increasing(xs + ys)
  {
    forall i, j | 0 <= i < j < |xs + ys| ensures (xs + ys)[i] < (xs + ys)[j] {
      if i < |xs| && |xs| <= j {
        assert xs[i] in xs && ys[j - |xs|] in ys;
      }
    }
  }

  lemma AtMostPosition(me: Session)
    requires Increasing(me.delivered)
    ensures forall id: Id | id in me.delivered :: id <= Position(me)
  {
    forall id: Id | id in me.delivered ensures id <= Position(me) {
      LastIsGreatest(me.delivered, id);
    }
  }

  /** A reply from own history with something in it. */
  lemma HistoryReadSurvives(s: Server, c: Name, me: Session, start: Id)
    requires Consistent(s, start) && SessionInv(s, c, me) && !me.caughtUp
    requires Reply(s, c, me.cursor, me.limit) != []
    ensures SessionInv(s, c, AfterRead(me, Reply(s, c, me.cursor, me.limit)))
  {
    var reply := Reply(s, c, me.cursor, me.limit);
    var me' := AfterRead(me, reply);
    var x, last := me.cursor.id, reply[|reply| - 1];
    ReplySelects(s, c, me.cursor, me.limit);
    AtMostPosition(me);
    JoinedIncreasing(me.delivered, reply, x);
    assert Position(me') == last;
    forall id: Id | Owns(s, c, id) ensures last < id || id in me'.delivered {
      if x < id <= last {
        ReplySkipsNothing(s, c, me.cursor, me.limit, id);
      }
    }
    forall id: Id | id in me'.delivered ensures id <= s.lastDelivered && Holds(s, c, id) {
      assert id in me.delivered || id in reply;
    }
    HistoryContinues(s, c, x, me.limit);
  }

  /** The empty reply that ends the walk over own history. */
  lemma LastHistoryReadSurvives(s: Server, c: Name, me: Session, start: Id)
    requires Consistent(s, start) && SessionInv(s, c, me) && !me.caughtUp
    requires Reply(s, c, me.cursor, me.limit) == []
    ensures SessionInv(s, c, AfterRead(me, []))
    ensures forall id: Id | Owns(s, c, id) :: id in me.delivered
  {
    assert me.delivered + [] == me.delivered;
    forall id: Id | Owns(s, c, id) ensures id in me.delivered {
      if me.cursor.id < id {
        ReplySkipsNothing(s, c, me.cursor, me.limit, id);
      }
    }
  }

  lemma SteadyHistoryReadIsEmpty(s: Server, c: Name, me: Session, start: Id)
    requires Consistent(s, start) && SessionInv(s, c, me) && me.caughtUp && me.cursor.After?
    ensures Reply(s, c, me.cursor, me.limit) == []
    ensures SessionInv(s, c, AfterRead(me, []))
  {
    var reply := Reply(s, c, me.cursor, me.limit);
    ReplySelects(s, c, me.cursor, me.limit);
    HasMember(reply);
    assert me.delivered + [] == me.delivered;
  }

  /** New entries that arrive. */
  lemma HandedOutSurvives(s: Server, s': Server, c: Name, me: Session, reply: seq<Id>)
    requires SessionInv(s, c, me) && me.caughtUp && me.cursor.New?
    requires HandsOut(s, s', c, reply) && Increasing(reply) && reply != []
    ensures SessionInv(s', c, AfterRead(me, reply))
  {
    var me' := AfterRead(me, reply);
    JoinedIncreasing(me.delivered, reply, s.lastDelivered);
    assert Position(me') == reply[|reply| - 1] && reply[|reply| - 1] in reply;
    forall id: Id ensures id in me'.delivered <==> id in me.delivered || id in reply {}
    AtMostPosition(me');
  }

  /** New entries whose reply is lost. */
  lemma LostOutSurvives(s: Server, s': Server, c: Name, me: Session, reply: seq<Id>)
    requires SessionInv(s, c, me) && me.caughtUp && me.cursor.New? && HandsOut(s, s', c, reply)
    ensures SessionInv(s', c, me.(lost := me.lost + set id | id in reply))
  {
    var me' := me.(lost := me.lost + set id | id in reply);
    forall id: Id ensures id in me'.lost <==> id in me.lost || id in reply {}
  }

  lemma NewReadSurvives(s: Server, c: Name, me: Session, start: Id)
    requires Consistent(s, start) && SessionInv(s, c, me) && me.cursor.New?
    requires Reply(s, c, New, me.limit) != []
    ensures SessionInv(ReadGroup(s, c, New, me.limit), c, AfterRead(me, Reply(s, c, New, me.limit)))
  {
    ReplySelects(s, c, New, me.limit);
    NewReadHandsOut(s, c, me.limit, start);
    HandedOutSurvives(s, ReadGroup(s, c, New, me.limit), c, me, Reply(s, c, New, me.limit));
  }

  lemma ReadSurvives(s: Server, c: Name, me: Session, start: Id)
    requires Consistent(s, start) && SessionInv(s, c, me)
    ensures SessionInv(ReadGroup(s, c, me.cursor, me.limit), c, AfterRead(me, Reply(s, c, me.cursor, me.limit)))
  {
    var reply := Reply(s, c, me.cursor, me.limit);
    if !me.caughtUp {
      if reply == [] {
        LastHistoryReadSurvives(s, c, me, start);
      } else {
        HistoryReadSurvives(s, c, me, start);
      }
    } else if me.cursor.After? {
      SteadyHistoryReadIsEmpty(s, c, me, start);
    } else if reply == [] {
      assert me.delivered + [] == me.delivered;
    } else {
      NewReadSurvives(s, c, me, start);
    }
  }

  lemma LostReadSurvives(s: Server, c: Name, me: Session, start: Id)
    requires Consistent(s, start) && SessionInv(s, c, me) && me.cursor.New?
    requires Reply(s, c, New, me.limit) != []
    ensures SessionInv(ReadGroup(s, c, New, me.limit), c,
                       me.(lost := me.lost + set id | id in Reply(s, c, New, me.limit)))
  {
    NewReadHandsOut(s, c, me.limit, start);
    LostOutSurvives(s, ReadGroup(s, c, New, me.limit), c, me, Reply(s, c, New, me.limit));
  }

  // ---- each step keeps the invariant ----------------------------------------------------------------------

  lemma ServerOnlyKeepsInv(g: Group, s': Server, start: Id)
    requires Inv(g, start) && Consistent(s', start) && forall c: Name :: Evolves(g.server, s', c)
    ensures Inv(g.(server := s'), start)
  {
    forall c | c in g.sessions ensures SessionInv(s', c, g.sessions[c]) {
      SessionSurvives(g.server, s', c, g.sessions[c], start);
    }
    forall d | d in g.open || d in g.settled ensures Known(g.(server := s'), d) {
      assert Known(g, d);
      assert Evolves(g.server, s', d.name);
    }
  }

  lemma BindStartsSession(s: Server, c: Name, limit: Limit, epoch: nat, start: Id)
    requires Consistent(s, start)
    ensures var bound := set id | id in s.pending && s.pending[id] == c;
            var backlog := |History(s.entries, s.pending, c, 0)|;
            SessionInv(s, c, Session(epoch, limit, After(0), [], bound, backlog, 0, false, {}))
  {
  }

  lemma BindKeepsInv(g: Group, c: Name, limit: Limit, start: Id)
    requires Inv(g, start)
    ensures Inv(BindStep(g, c, limit), start)
  {
    BindStartsSession(g.server, c, limit, g.epochs, start);
    var g' := BindStep(g, c, limit);
    forall d | d in g'.open || d in g'.settled ensures Known(g', d) {
      assert Known(g, d);
    }
  }

  lemma ReadKeepsSessions(g: Group, c: Name, start: Id)
    requires Inv(g, start) && c in g.sessions
    ensures var g' := ReadStep(g, c);
            forall d | d in g'.sessions :: SessionInv(g'.server, d, g'.sessions[d]) && g'.sessions[d].epoch < g'.epochs
  {
    var me := g.sessions[c];
    var g' := ReadStep(g, c);
    forall d | d in g'.sessions ensures SessionInv(g'.server, d, g'.sessions[d]) {
      if d == c {
        ReadSurvives(g.server, c, me, start);
      } else {
        ReadEvolves(g.server, c, me.cursor, me.limit, start, d);
        SessionSurvives(g.server, g'.server, d, g.sessions[d], start);
      }
    }
  }

  /** What a session is given, it had not been given before. */
  lemma ReplyIsFresh(s: Server, c: Name, me: Session, start: Id)
    requires Consistent(s, start) && SessionInv(s, c, me)
    ensures forall id: Id | id in Reply(s, c, me.cursor, me.limit) :: id !in me.delivered
  {
    ReplySelects(s, c, me.cursor, me.limit);
    AtMostPosition(me);
  }

  lemma ReadKeepsDeliveries(g: Group, c: Name, start: Id)
    requires Inv(g, start) && c in g.sessions
    ensures var g' := ReadStep(g, c);
            && (forall d | d in g'.open || d in g'.settled :: Known(g', d))
            && (forall d | d in g'.settled :: d !in g'.open)
  {
    var me := g.sessions[c];
    var g' := ReadStep(g, c);
    var reply := Reply(g.server, c, me.cursor, me.limit);
    ReadKeepsSessions(g, c, start);
    ReplyIsFresh(g.server, c, me, start);
    forall d | d in g'.open || d in g'.settled ensures Known(g', d) {
      if d in g.open || d in g.settled {
        assert Known(g, d);
        ReadEvolves(g.server, c, me.cursor, me.limit, start, d.name);
      } else {
        assert d.id in g'.sessions[c].delivered;
        assert SessionInv(g'.server, c, g'.sessions[c]);
      }
    }
    forall d | d in g'.settled ensures d !in g'.open {
      assert Known(g, d);
    }
  }

  lemma ReadLostKeepsInv(g: Group, c: Name, start: Id)
    requires Inv(g, start) && c in g.sessions
    ensures Inv(ReadLostStep(g, c), start)
  {
    var me := g.sessions[c];
    var g' := ReadLostStep(g, c);
    ReadConsistent(g.server, c, me.cursor, me.limit, start);
    forall d | d in g'.sessions ensures SessionInv(g'.server, d, g'.sessions[d]) {
      if d == c {
        if me.cursor.New? {
          if Reply(g.server, c, New, me.limit) == [] {
            assert g'.sessions[c] == me;
          } else {
            LostReadSurvives(g.server, c, me, start);
          }
        }
      } else {
        ReadEvolves(g.server, c, me.cursor, me.limit, start, d);
        SessionSurvives(g.server, g'.server, d, g.sessions[d], start);
      }
    }
    forall d | d in g'.open || d in g'.settled ensures Known(g', d) {
      assert Known(g, d);
      ReadEvolves(g.server, c, me.cursor, me.limit, start, d.name);
    }
  }

  lemma SettleKeepsInv(g: Group, d: Delivery, settlement: Settlement, reached: bool, start: Id)
    requires Inv(g, start) && d in g.open
    ensures Inv(SettleStep(g, d, settlement, reached), start)
  {
    var g1 := g.(open := g.open - {d}, settled := g.settled + [d]);
    forall e | e in g1.open || e in g1.settled ensures Known(g1, e) {
      assert Known(g, e);
    }
    assert Inv(g1, start);
    if reached && Acknowledges(settlement) {
      AckConsistent(g.server, d.id, start);
      forall c: Name ensures Evolves(g.server, Ack(g.server, d.id), c) {
        AckEvolves(g.server, d.id, c, start);
      }
      ServerOnlyKeepsInv(g1, Ack(g.server, d.id), start);
    }
  }

  lemma StepKeepsInv(g: Group, step: Step, start: Id)
    requires Inv(g, start)
    ensures Inv(Next(g, step), start)
  {
    match step
    case Published(id) =>
      PublishConsistent(g.server, id, start);
      forall c: Name ensures Evolves(g.server, Publish(g.server, id), c) {
        PublishEvolves(g.server, id, c);
      }
      ServerOnlyKeepsInv(g, Publish(g.server, id), start);
    case Bind(c, limit) => BindKeepsInv(g, c, limit, start);
    case Read(c) =>
      if c in g.sessions {
        ReadConsistent(g.server, c, g.sessions[c].cursor, g.sessions[c].limit, start);
        ReadKeepsSessions(g, c, start);
        ReadKeepsDeliveries(g, c, start);
      }
    case ReadLost(c) =>
      if c in g.sessions {
        ReadLostKeepsInv(g, c, start);
      }
    case Settle(d, settlement, reached) =>
      if d in g.open {
        SettleKeepsInv(g, d, settlement, reached, start);
      }
  }

  lemma RunKeepsInv(entries: seq<Id>, start: Id, steps: seq<Step>)
    requires Increasing(entries)
    ensures Inv(Run(Created(entries, start), steps), start)
  {
    RunFromKeepsInv(Created(entries, start), start, steps);
  }

  lemma RunSnoc(g: Group, steps: seq<Step>, step: Step)
    ensures Run(g, steps + [step]) == Next(Run(g, steps), step)
  {
    assert (steps + [step])[..|steps|] == steps;
  }

  lemma RunPair(g: Group, steps: seq<Step>, first: Step, second: Step)
    ensures Run(g, steps + [first] + [second]) == Next(Next(Run(g, steps), first), second)
  {
    RunSnoc(g, steps, first);
    RunSnoc(g, steps + [first], second);
  }

  // ---- what holds of every run -------------------------------------------------------------------------------

  /**
    Conservation, over all consumers and restarts: the entries past the group's start up to the last one
    handed out are exactly those acknowledged and those pending, none is both, and whatever was ever
    delivered was delivered to the one consumer that holds or held the entry.
   */
  lemma EntriesAreConserved(entries: seq<Id>, start: Id, steps: seq<Step>)
    requires Increasing(entries)
    ensures var g := Run(Created(entries, start), steps);
            && (forall id: Id :: id in g.server.entries && start < id <= g.server.lastDelivered <==>
                             id in g.server.acked || id in g.server.pending)
            && g.server.acked.Keys !! g.server.pending.Keys
            && (forall d, e | (d in g.open || d in g.settled) && (e in g.open || e in g.settled) && d.id == e.id ::
                  d.name == e.name)
  {
    RunKeepsInv(entries, start, steps);
    var g := Run(Created(entries, start), steps);
    forall d, e | (d in g.open || d in g.settled) && (e in g.open || e in g.settled) && d.id == e.id
      ensures d.name == e.name
    {
      assert Known(g, d) && Known(g, e);
    }
  }

  /** Within one session the delivered ids only rise, across every switch of the cursor: nothing comes twice. */
  lemma SessionDeliversInOrder(entries: seq<Id>, start: Id, steps: seq<Step>, c: Name)
    requires Increasing(entries) && c in Run(Created(entries, start), steps).sessions
    ensures Increasing(Run(Created(entries, start), steps).sessions[c].delivered)
  {
    RunKeepsInv(entries, start, steps);
  }

  /** No delivery is settled twice, and a settled one is no longer open. */
  lemma SettledAtMostOnce(entries: seq<Id>, start: Id, steps: seq<Step>)
    requires Increasing(entries)
    ensures var g := Run(Created(entries, start), steps);
            NoRepeats(g.settled) && forall d | d in g.settled :: d !in g.open
  {
    RunKeepsInv(entries, start, steps);
  }

  /**
    An entry leaves the pending map in one way only: its own open delivery is settled with an acknowledgement
    that arrives.
   */
  lemma LeavesPendingOnlyBySettlement(entries: seq<Id>, start: Id, steps: seq<Step>, step: Step, id: Id)
    requires Increasing(entries)
    requires id in Run(Created(entries, start), steps).server.pending
    ensures var g, g' := Run(Created(entries, start), steps), Run(Created(entries, start), steps + [step]);
            && (id !in g'.server.pending <==>
                  && step.Settle? && step.delivery in g.open && step.delivery.id == id
                  && step.reached && Acknowledges(step.settlement))
            && (id !in g'.server.pending ==> id in g'.server.acked && g.server.pending[id] == step.delivery.name)
            && (id in g'.server.pending ==> g'.server.pending[id] == g.server.pending[id])
  {
    var g := Run(Created(entries, start), steps);
    RunKeepsInv(entries, start, steps);
    RunSnoc(Created(entries, start), steps, step);
    match step
    case Read(c) => PendingSurvivesRead(g, c, start, id);
    case ReadLost(c) => PendingSurvivesRead(g, c, start, id);
    case Settle(d, _, _) =>
      if d in g.open {
        assert Known(g, d);
      }
    case _ =>
  }

  lemma PendingSurvivesRead(g: Group, c: Name, start: Id, id: Id)
    requires Inv(g, start) && id in g.server.pending
    ensures c in g.sessions ==>
              var s' := ReadGroup(g.server, c, g.sessions[c].cursor, g.sessions[c].limit);
              id in s'.pending && s'.pending[id] == g.server.pending[id]
  {
    if c in g.sessions && g.sessions[c].cursor.New? && Reply(g.server, c, New, g.sessions[c].limit) != [] {
      NewReplyIsInterval(g.server, c, g.sessions[c].limit);
    }
  }

  // ---- from one bind to the next ----------------------------------------------------------------------------------

  predicate SameSession(steps: seq<Step>, c: Name) {
    forall i | 0 <= i < |steps| :: !(steps[i].Bind? && steps[i].name == c)
  }

  function CountReads(steps: seq<Step>, c: Name): nat {
    if steps == [] then 0
    else CountReads(steps[..|steps| - 1], c) + (if steps[|steps| - 1] == Read(c) then 1 else 0)
  }

  lemma StepKeepsBookkeeping(g: Group, step: Step, c: Name)
    requires c in g.sessions && !(step.Bind? && step.name == c)
    ensures c in Next(g, step).sessions
    ensures var me, me' := g.sessions[c], Next(g, step).sessions[c];
            && me'.limit == me.limit && me'.bound == me.bound && me'.backlog == me.backlog
            && (!me'.caughtUp ==> !me.caughtUp && me'.readCount == me.readCount + (if step == Read(c) then 1 else 0))
  {
  }

  /** The session a bind starts keeps its bookkeeping until the next bind of the same consumer. */
  lemma {:induction false} SessionContinues(g: Group, c: Name, limit: Limit, after: seq<Step>)
    requires SameSession(after, c)
    ensures var g' := Run(BindStep(g, c, limit), after);
            && c in g'.sessions && g'.sessions[c].limit == limit
            && g'.sessions[c].bound == (set id | id in g.server.pending && g.server.pending[id] == c)
            && g'.sessions[c].backlog == |History(g.server.entries, g.server.pending, c, 0)|
            && (!g'.sessions[c].caughtUp ==> g'.sessions[c].readCount == CountReads(after, c))
  {
    if after != [] {
      var init := after[..|after| - 1];
      SessionContinues(g, c, limit, init);
      StepKeepsBookkeeping(Run(BindStep(g, c, limit), init), after[|after| - 1], c);
    }
  }

  lemma {:induction false} RunFromKeepsInv(g: Group, start: Id, steps: seq<Step>)
    requires Inv(g, start)
    ensures Inv(Run(g, steps), start)
  {
    if steps != [] {
      RunFromKeepsInv(g, start, steps[..|steps| - 1]);
      StepKeepsInv(Run(g, steps[..|steps| - 1]), steps[|steps| - 1], start);
    }
  }

  /**
    Nothing is lost over a restart. After a bind, whatever was pending for the consumer is, at every later
    point of that session, acknowledged or still pending for it; and once the session has first asked for
    new entries, each of those entries was delivered in this session or is acknowledged, even if it never
    reached the client before.
   */
  lemma RestartRecovers(entries: seq<Id>, start: Id, before: seq<Step>, c: Name, limit: Limit, after: seq<Step>, id: Id)
    requires Increasing(entries) && SameSession(after, c)
    requires Owns(Run(Created(entries, start), before).server, c, id)
    ensures var g := Run(BindStep(Run(Created(entries, start), before), c, limit), after);
            && (id in g.server.acked || Owns(g.server, c, id))
            && c in g.sessions
            && (g.sessions[c].caughtUp ==> id in g.server.acked || id in g.sessions[c].delivered)
  {
    var g0 := Run(Created(entries, start), before);
    RunKeepsInv(entries, start, before);
    BindKeepsInv(g0, c, limit, start);
    RunFromKeepsInv(BindStep(g0, c, limit), start, after);
    SessionContinues(g0, c, limit, after);
    var g := Run(BindStep(g0, c, limit), after);
    assert SessionInv(g.server, c, g.sessions[c]);
    assert id in g.sessions[c].bound;
  }

  /**
    At the read that first turns the cursor to ">", everything pending for the consumer was delivered in this
    session.
   */
  lemma CatchingUpDeliversAllPending(entries: seq<Id>, start: Id, steps: seq<Step>, c: Name, id: Id)
    requires Increasing(entries)
    requires var g := Run(Created(entries, start), steps); c in g.sessions && !g.sessions[c].caughtUp
    requires Run(Created(entries, start), steps + [Read(c)]).sessions[c].cursor.New?
    requires Owns(Run(Created(entries, start), steps + [Read(c)]).server, c, id)
    ensures id in Run(Created(entries, start), steps + [Read(c)]).sessions[c].delivered
  {
    var g := Run(Created(entries, start), steps);
    RunKeepsInv(entries, start, steps);
    RunSnoc(Created(entries, start), steps, Read(c));
    var reply := Reply(g.server, c, g.sessions[c].cursor, g.sessions[c].limit);
    assert SessionInv(g.server, c, g.sessions[c]);
    LastHistoryReadSurvives(g.server, c, g.sessions[c], start);
  }

  /**
    With p entries pending at bind and a limit of n, the consumer asks for new entries after at most
    p / n rounded up, plus one, successful reads, whatever else happens in between.
   */
  lemma CatchesUpInTime(entries: seq<Id>, start: Id, before: seq<Step>, c: Name, limit: Limit, after: seq<Step>)
    requires Increasing(entries) && SameSession(after, c)
    ensures var g0 := Run(Created(entries, start), before);
            var p := |History(g0.server.entries, g0.server.pending, c, 0)|;
            var g := Run(BindStep(g0, c, limit), after);
            c in g.sessions && (CountReads(after, c) > Rounds(p, limit) ==> g.sessions[c].caughtUp)
  {
    var g0 := Run(Created(entries, start), before);
    RunKeepsInv(entries, start, before);
    BindKeepsInv(g0, c, limit, start);
    RunFromKeepsInv(BindStep(g0, c, limit), start, after);
    SessionContinues(g0, c, limit, after);
    var g := Run(BindStep(g0, c, limit), after);
    assert SessionInv(g.server, c, g.sessions[c]);
  }

  /** Past the first ">", a read from an id finds nothing and turns back to ">": reads alternate. */
  lemma SteadyReadsAlternate(entries: seq<Id>, start: Id, steps: seq<Step>, c: Name)
    requires Increasing(entries)
    requires var g := Run(Created(entries, start), steps);
             c in g.sessions && g.sessions[c].caughtUp && g.sessions[c].cursor.After?
    ensures var g, g' := Run(Created(entries, start), steps), Run(Created(entries, start), steps + [Read(c)]);
            && g'.sessions[c].cursor == New
            && g'.sessions[c].delivered == g.sessions[c].delivered
            && g'.server == g.server && g'.open == g.open
  {
    var g := Run(Created(entries, start), steps);
    RunKeepsInv(entries, start, steps);
    RunSnoc(Created(entries, start), steps, Read(c));
    SteadyHistoryReadIsEmpty(g.server, c, g.sessions[c], start);
    var epoch := g.sessions[c].epoch;
    var reply := Reply(g.server, c, g.sessions[c].cursor, g.sessions[c].limit);
    assert g.open + (set id: Id | id in reply :: Delivery(c, epoch, id)) == g.open;
    assert g.sessions[c].delivered + [] == g.sessions[c].delivered;
  }

  // ---- replies that are lost ------------------------------------------------------------------------------

  /** A read by the consumer now would carry the entry as a new one. */
  predicate WouldHandOut(g: Group, c: Name, id: Id) {
    c in g.sessions && g.sessions[c].cursor.New? && id in Reply(g.server, c, New, g.sessions[c].limit)
  }

  /** Step k lost the reply that carried the entry, and the consumer's session has not ended since. */
  predicate LostAt(g0: Group, steps: seq<Step>, k: nat, c: Name, id: Id) {
    && k < |steps| && steps[k] == ReadLost(c) && SameSession(steps[k + 1..], c)
    && WouldHandOut(Run(g0, steps[..k]), c, id)
  }

  lemma SameSessionSnoc(steps: seq<Step>, last: Step, c: Name)
    ensures SameSession(steps + [last], c) <==> SameSession(steps, c) && !(last.Bind? && last.name == c)
  {
    var all := steps + [last];
    assert all[|steps|] == last;
    forall i | SameSession(all, c) && 0 <= i < |steps| ensures !(steps[i].Bind? && steps[i].name == c) {
      assert all[i] == steps[i];
    }
  }

  lemma LostAtSnoc(g0: Group, steps: seq<Step>, last: Step, k: nat, c: Name, id: Id)
    requires k < |steps|
    ensures LostAt(g0, steps + [last], k, c, id) <==> LostAt(g0, steps, k, c, id) && !(last.Bind? && last.name == c)
  {
    var all := steps + [last];
    assert all[..k] == steps[..k] && all[k + 1..] == steps[k + 1..] + [last];
    SameSessionSnoc(steps[k + 1..], last, c);
  }

  lemma StepLoses(g: Group, step: Step, c: Name, id: Id)
    requires c in g.sessions && !(step.Bind? && step.name == c)
    ensures c in Next(g, step).sessions
    ensures id in Next(g, step).sessions[c].lost <==>
              id in g.sessions[c].lost || (step == ReadLost(c) && WouldHandOut(g, c, id))
  {
  }

  /** The lost entries of a session are those of the replies lost in it. */
  lemma {:induction false} LostIff(g0: Group, steps: seq<Step>, c: Name, id: Id)
    requires c !in g0.sessions && c in Run(g0, steps).sessions
    ensures id in Run(g0, steps).sessions[c].lost <==> exists k: nat :: LostAt(g0, steps, k, c, id)
  {
    var n := |steps| - 1;
    var init, last := steps[..n], steps[n];
    var g := Run(g0, init);
    assert steps == init + [last] && steps[..n] == init;
    forall k: nat | k < n
      ensures LostAt(g0, steps, k, c, id) <==> LostAt(g0, init, k, c, id) && !(last.Bind? && last.name == c)
    {
      LostAtSnoc(g0, init, last, k, c, id);
    }
    assert LostAt(g0, steps, n, c, id) <==> last == ReadLost(c) && WouldHandOut(g, c, id);
    if !(last.Bind? && last.name == c) {
      LostIff(g0, init, c, id);
      StepLoses(g, last, c, id);
    }
  }

  /**
    The price of reading from the last id. Once the session has asked for new entries, an entry pending for
    the consumer was delivered in this session, or a reply that carried it was lost in this session: never both.
   */
  lemma UndeliveredIffReplyLost(entries: seq<Id>, start: Id, steps: seq<Step>, c: Name, id: Id)
    requires Increasing(entries)
    requires var g := Run(Created(entries, start), steps);
             c in g.sessions && g.sessions[c].caughtUp && Owns(g.server, c, id)
    ensures id !in Run(Created(entries, start), steps).sessions[c].delivered <==>
              exists k: nat :: LostAt(Created(entries, start), steps, k, c, id)
  {
    RunKeepsInv(entries, start, steps);
    var g := Run(Created(entries, start), steps);
    assert SessionInv(g.server, c, g.sessions[c]);
    LostIff(Created(entries, start), steps, c, id);
  }

  lemma {:induction false} LostStays(g: Group, after: seq<Step>, c: Name, id: Id)
    requires c in g.sessions && id in g.sessions[c].lost && SameSession(after, c)
    ensures c in Run(g, after).sessions && id in Run(g, after).sessions[c].lost
  {
    if after != [] {
      var init := after[..|after| - 1];
      LostStays(g, init, c, id);
      StepLoses(Run(g, init), after[|after| - 1], c, id);
    }
  }

  /**
    New entries whose reply is lost stay pending until acknowledged, and no read of the session that lost
    them ever delivers them; only the session after the next bind does.
   */
  lemma LostReplyWaitsForRestart(entries: seq<Id>, start: Id, steps: seq<Step>, c: Name, id: Id, after: seq<Step>)
    requires Increasing(entries) && SameSession(after, c)
    requires WouldHandOut(Run(Created(entries, start), steps), c, id)
    ensures var g := Run(Run(Created(entries, start), steps + [ReadLost(c)]), after);
            && c in g.sessions && id !in g.sessions[c].delivered
            && (Owns(g.server, c, id) || id in g.server.acked)
  {
    var g1 := Run(Created(entries, start), steps + [ReadLost(c)]);
    RunSnoc(Created(entries, start), steps, ReadLost(c));
    StepLoses(Run(Created(entries, start), steps), ReadLost(c), c, id);
    LostStays(g1, after, c, id);
    RunKeepsInv(entries, start, steps + [ReadLost(c)]);
    RunFromKeepsInv(g1, start, after);
    var g := Run(g1, after);
    assert SessionInv(g.server, c, g.sessions[c]);
  }

  /** On an empty stream the first read turns the cursor to ">". */
  lemma FirstReadWaits(g: Group, c: Name, limit: Limit)
    requires g.server.entries == []
    ensures var g' := ReadStep(BindStep(g, c, limit), c);
            && g'.server == g.server && c in g'.sessions
            && g'.sessions[c].cursor == New && g'.sessions[c].caughtUp
            && g'.sessions[c].delivered == [] && g'.sessions[c].limit == limit
  {
  }

  lemma SingleEntryLost(g: Group, c: Name, id: Id)
    requires c in g.sessions && g.sessions[c].cursor.New? && Reply(g.server, c, New, g.sessions[c].limit) == [id]
    ensures var g' := ReadLostStep(g, c);
            && c in g'.sessions && g'.sessions[c].caughtUp == g.sessions[c].caughtUp
            && Owns(g'.server, c, id) && g'.sessions[c].delivered == g.sessions[c].delivered
  {
    assert id in [id];
  }

  lemma PublishedReplyLost(g: Group, c: Name, id: Id)
    requires Increasing(g.server.entries) && forall x: Id | x in g.server.entries :: x <= g.server.lastDelivered
    requires g.server.lastDelivered < id && c in g.sessions && g.sessions[c].cursor.New?
    ensures var g' := ReadLostStep(g.(server := Publish(g.server, id)), c);
            && c in g'.sessions && g'.sessions[c].caughtUp == g.sessions[c].caughtUp
            && Owns(g'.server, c, id) && g'.sessions[c].delivered == g.sessions[c].delivered
  {
    OnlyNewEntry(g.server, c, id, g.sessions[c].limit);
    SingleEntryLost(g.(server := Publish(g.server, id)), c, id);
  }

  lemma WaitingIsReached(g: Group, c: Name, limit: Limit) returns (steps: seq<Step>)
    ensures Run(g, steps) == ReadStep(BindStep(g, c, limit), c)
  {
    steps := [] + [Bind(c, limit)] + [Read(c)];
    RunPair(g, [], Bind(c, limit), Read(c));
  }

  /** It happens: a consumer waits, an entry is published, and the reply that carries it is lost. */
  lemma ReplyCanBeLost(c: Name, limit: Limit, id: Id) returns (steps: seq<Step>)
    requires 0 < id
    ensures var g := Run(Created([], 0), steps);
            && c in g.sessions && g.sessions[c].caughtUp
            && Owns(g.server, c, id) && id !in g.sessions[c].delivered
  {
    var waits := WaitingIsReached(Created([], 0), c, limit);
    FirstReadWaits(Created([], 0), c, limit);
    steps := waits + [Published(id)] + [ReadLost(c)];
    RunPair(Created([], 0), waits, Published(id), ReadLost(c));
    PublishedReplyLost(Run(Created([], 0), waits), c, id);
  }

  /** The entry was the consumer's one next delivery, and is its own. */
  predicate DeliveredNext(g: Group, g': Group, c: Name, id: Id)
    requires c in g.sessions
  {
    && c in g'.sessions
    && g'.sessions[c].delivered == g.sessions[c].delivered + [id]
    && Owns(g'.server, c, id) && g'.server.lastDelivered == id
    && Delivery(c, g'.sessions[c].epoch, id) in g'.open
  }

  lemma SingleEntryArrives(g: Group, c: Name, id: Id)
    requires c in g.sessions && g.sessions[c].cursor.New? && Reply(g.server, c, New, g.sessions[c].limit) == [id]
    ensures DeliveredNext(g, ReadStep(g, c), c, id)
  {
    assert id in [id];
  }

  lemma PublishedReplyArrives(g: Group, c: Name, id: Id)
    requires Increasing(g.server.entries) && forall x: Id | x in g.server.entries :: x <= g.server.lastDelivered
    requires g.server.lastDelivered < id && c in g.sessions && g.sessions[c].cursor.New?
    ensures DeliveredNext(g, ReadStep(g.(server := Publish(g.server, id)), c), c, id)
  {
    OnlyNewEntry(g.server, c, id, g.sessions[c].limit);
    SingleEntryArrives(g.(server := Publish(g.server, id)), c, id);
  }

  /** An entry published while a consumer waits for new ones, none outstanding, is its next and only delivery. */
  lemma NewEntryReachesReader(entries: seq<Id>, start: Id, steps: seq<Step>, c: Name, id: Id)
    requires Increasing(entries)
    requires var g := Run(Created(entries, start), steps);
             && c in g.sessions && g.sessions[c].cursor.New?
             && g.server.lastDelivered < id && forall x: Id | x in g.server.entries :: x <= g.server.lastDelivered
    ensures DeliveredNext(Run(Created(entries, start), steps),
                          Run(Created(entries, start), steps + [Published(id)] + [Read(c)]), c, id)
  {
    RunPair(Created(entries, start), steps, Published(id), Read(c));
    RunKeepsInv(entries, start, steps);
    PublishedReplyArrives(Run(Created(entries, start), steps), c, id);
  }

  // ---- draining what is already there ------------------------------------------------------------------------

  /** Only this consumer reads, and every reply it gets arrives; publishing and settling go on. */
  predicate ReadsAlone(steps: seq<Step>, c: Name) {
    forall i | 0 <= i < |steps| ::
      match steps[i] case Bind(d, _) => d != c case Read(d) => d == c case ReadLost(_) => false case _ => true
  }

  /** Successful reads until the first q of the entries that wait are delivered; the one from an id counts too. */
  function ReadsLeft(q: nat, cursor: Cursor, limit: Limit): nat {
    if q == 0 then 0 else 2 * Rounds(q, limit) - (if cursor.New? then 1 else 0)
  }

  /** Of the entries there were, those not handed out yet. */
  function Waiting(entries: seq<Id>, s: Server): seq<Id> {
    Newer(entries, s.lastDelivered)
  }

  /** Where the drain of `entries` from `from` on has got to, after so many reads of a budget. */
  ghost predicate Draining(g: Group, c: Name, entries: seq<Id>, from: Id, taken: nat, budget: nat) {
    && c in g.sessions && g.sessions[c].caughtUp
    && entries <= g.server.entries && from <= g.server.lastDelivered
    && (forall id: Id | id in entries && from < id <= g.server.lastDelivered :: id in g.sessions[c].delivered)
    && (Waiting(entries, g.server) == []
        || taken + ReadsLeft(|Waiting(entries, g.server)|, g.sessions[c].cursor, g.sessions[c].limit) <= budget)
  }

  /** New entries are handed out oldest first, those that were there before any published since. */
  lemma {:induction false} NewerJoins(entries: seq<Id>, more: seq<Id>, x: Id)
    ensures Newer(entries + more, x) == Newer(entries, x) + Newer(more, x)
    decreases |more|
  {
    if more == [] {
      assert entries + more == entries;
    } else {
      var n := |more| - 1;
      assert (entries + more)[..|entries| + n] == entries + more[..n];
      NewerJoins(entries, more[..n], x);
    }
  }

  /** What lies past the id at position k - 1 of the waiting entries is what follows there. */
  lemma NewerPast(entries: seq<Id>, x: Id, k: nat)
    requires Increasing(entries) && 0 < k <= |Newer(entries, x)|
    ensures var all := Newer(entries, x); Newer(entries, all[k - 1]) == all[k..]
  {
    var all := Newer(entries, x);
    NewerSelects(entries, x);
    NewerSelects(entries, all[k - 1]);
    TailIsPast(all, k);
    assert all[k - 1] in all;
    forall id: Id ensures id in Newer(entries, all[k - 1]) <==> id in all[k..] {
      assert id in all[k..] <==> id in all && all[k - 1] < id;
    }
    IncreasingUnique(Newer(entries, all[k - 1]), all[k..]);
  }

  /** Nothing of the entries lies past an id that is not below any of them. */
  lemma NothingNewer(entries: seq<Id>, x: Id)
    requires Increasing(entries) && forall id: Id | id in entries :: id <= x
    ensures Newer(entries, x) == []
  {
    NewerSelects(entries, x);
    HasMember(Newer(entries, x));
  }

  lemma PrefixIncreases(xs: seq<Id>, ys: seq<Id>)
    requires Increasing(ys) && xs <= ys
    ensures Increasing(xs)
  {
    forall i, j | 0 <= i < j < |xs| ensures xs[i] < xs[j] {
      assert xs[i] == ys[i] && xs[j] == ys[j];
    }
  }

  /** What a read of new entries gives, next to the entries that were waiting: all of them or a piece of them. */
  lemma NewReplyOverlaps(s: Server, c: Name, limit: Limit, entries: seq<Id>)
    requires entries <= s.entries && Waiting(entries, s) != []
    ensures var reply, w := Reply(s, c, New, limit), Waiting(entries, s);
            && reply != []
            && if limit.Some? && |w| > limit.value then reply == w[..limit.value] else w <= reply
  {
    var more := s.entries[|entries|..];
    assert s.entries == entries + more;
    NewerJoins(entries, more, s.lastDelivered);
  }

  /** One read of new entries takes as many of those waiting as the limit allows. */
  lemma NewReadDrains(s: Server, c: Name, limit: Limit, entries: seq<Id>)
    requires Increasing(s.entries) && entries <= s.entries && Waiting(entries, s) != []
    ensures var reply, w := Reply(s, c, New, limit), Waiting(entries, s);
            var rest := Waiting(entries, ReadGroup(s, c, New, limit));
            && reply != []
            && |rest| == (if limit.Some? && |w| > limit.value then |w| - limit.value else 0)
            && s.lastDelivered < reply[|reply| - 1]
            && forall id: Id | id in entries && s.lastDelivered < id <= reply[|reply| - 1] :: id in reply
  {
    NewReplyOverlaps(s, c, limit, entries);
    NewReplyIsInterval(s, c, limit);
    PrefixIncreases(entries, s.entries);
    if limit.Some? && |Waiting(entries, s)| > limit.value {
      NewerPast(entries, s.lastDelivered, limit.value);
    } else {
      AllTaken(s, c, limit, entries);
    }
  }

  lemma AllTaken(s: Server, c: Name, limit: Limit, entries: seq<Id>)
    requires Increasing(s.entries) && Increasing(entries) && Waiting(entries, s) != []
    requires Waiting(entries, s) <= Reply(s, c, New, limit)
    ensures Waiting(entries, ReadGroup(s, c, New, limit)) == []
  {
    var w, reply := Waiting(entries, s), Reply(s, c, New, limit);
    var last := reply[|reply| - 1];
    NewerSelects(entries, s.lastDelivered);
    ReplySelects(s, c, New, limit);
    forall id: Id | id in entries ensures id <= last {
      if s.lastDelivered < id {
        assert id in w;
        var i :| 0 <= i < |w| && w[i] == id;
        assert reply[i] == id;
        LastIsGreatest(reply, id);
      } else {
        assert reply[0] in reply;
        LastIsGreatest(reply, reply[0]);
      }
    }
    NothingNewer(entries, last);
  }

  lemma DrainingRead(g: Group, c: Name, start: Id, entries: seq<Id>, from: Id, taken: nat, budget: nat)
    requires Inv(g, start) && Draining(g, c, entries, from, taken, budget)
    ensures Draining(ReadStep(g, c), c, entries, from, taken + 1, budget)
  {
    var me := g.sessions[c];
    if me.cursor.After? {
      EmptyReadDrains(g, c, start, entries, from, taken, budget);
    } else if Waiting(entries, g.server) != [] {
      TakingReadDrains(g, c, entries, from, taken, budget);
    } else {
      IdleDrain(g, c, entries, from);
    }
  }

  lemma EmptyReadDrains(g: Group, c: Name, start: Id, entries: seq<Id>, from: Id, taken: nat, budget: nat)
    requires Inv(g, start) && Draining(g, c, entries, from, taken, budget) && g.sessions[c].cursor.After?
    ensures Draining(ReadStep(g, c), c, entries, from, taken + 1, budget)
  {
    var me := g.sessions[c];
    SteadyHistoryReadIsEmpty(g.server, c, me, start);
    assert me.delivered + [] == me.delivered;
  }

  lemma TakingReadDrains(g: Group, c: Name, entries: seq<Id>, from: Id, taken: nat, budget: nat)
    requires Increasing(g.server.entries) && Draining(g, c, entries, from, taken, budget)
    requires g.sessions[c].cursor.New? && Waiting(entries, g.server) != []
    ensures Draining(ReadStep(g, c), c, entries, from, taken + 1, budget)
  {
    var me, s := g.sessions[c], g.server;
    var reply := Reply(s, c, New, me.limit);
    NewReadDrains(s, c, me.limit, entries);
    var me' := ReadStep(g, c).sessions[c];
    assert me'.delivered == me.delivered + reply && me'.limit == me.limit && me'.cursor.After?;
  }

  /** With nothing of them waiting, further reads change nothing for those entries. */
  lemma IdleDrain(g: Group, c: Name, entries: seq<Id>, from: Id)
    requires Increasing(g.server.entries) && entries <= g.server.entries && c in g.sessions
    requires g.sessions[c].cursor.New? && Waiting(entries, g.server) == []
    ensures var g' := ReadStep(g, c);
            && Waiting(entries, g'.server) == [] && g.server.lastDelivered <= g'.server.lastDelivered
            && forall id: Id | id in entries :: id <= g.server.lastDelivered
  {
    var reply := Reply(g.server, c, New, g.sessions[c].limit);
    PrefixIncreases(entries, g.server.entries);
    NewerSelects(entries, g.server.lastDelivered);
    ReplySelects(g.server, c, New, g.sessions[c].limit);
    if reply != [] {
      assert reply[|reply| - 1] in reply;
      NothingNewer(entries, reply[|reply| - 1]);
    }
  }

  lemma DrainingStep(g: Group, c: Name, start: Id, step: Step, entries: seq<Id>, from: Id, taken: nat, budget: nat)
    requires Inv(g, start) && Draining(g, c, entries, from, taken, budget) && ReadsAlone([step], c)
    ensures Draining(Next(g, step), c, entries, from, taken + (if step == Read(c) then 1 else 0), budget)
  {
    assert [step][0] == step;
    if step == Read(c) {
      DrainingRead(g, c, start, entries, from, taken, budget);
    }
  }

  lemma {:induction false} Drains(
      g: Group, c: Name, start: Id, after: seq<Step>, entries: seq<Id>, from: Id, budget: nat)
    requires Inv(g, start) && Draining(g, c, entries, from, 0, budget) && ReadsAlone(after, c)
    ensures Draining(Run(g, after), c, entries, from, CountReads(after, c), budget)
  {
    if after != [] {
      var init := after[..|after| - 1];
      Drains(g, c, start, init, entries, from, budget);
      RunFromKeepsInv(g, start, init);
      DrainingStep(Run(g, init), c, start, after[|after| - 1], entries, from, CountReads(init, c), budget);
    }
  }

  /**
    Of a session that has asked for new entries and is alone to read, with no reply lost: all entries that were
    waiting are delivered after at most twice as many successful reads as there are rounds of the limit in
    their number, whatever is published and settled meanwhile.
   */
  lemma WaitingEntriesAreDrained(entries: seq<Id>, start: Id, steps: seq<Step>, c: Name, after: seq<Step>, id: Id)
    requires Increasing(entries) && ReadsAlone(after, c)
    requires var g := Run(Created(entries, start), steps);
             && c in g.sessions && g.sessions[c].caughtUp
             && id in g.server.entries && g.server.lastDelivered < id
             && CountReads(after, c) >= 2 * Rounds(|Waiting(g.server.entries, g.server)|, g.sessions[c].limit)
    ensures var g' := Run(Run(Created(entries, start), steps), after);
            c in g'.sessions && id in g'.sessions[c].delivered
  {
    var g := Run(Created(entries, start), steps);
    RunKeepsInv(entries, start, steps);
    var q := |Waiting(g.server.entries, g.server)|;
    Drains(g, c, start, after, g.server.entries, g.server.lastDelivered, 2 * Rounds(q, g.sessions[c].limit));
    RunFromKeepsInv(g, start, after);
    var g' := Run(g, after);
    LimitStays(g, after, c);
    DrainedAll(g', c, g.server.entries, g.server.lastDelivered, CountReads(after, c),
               2 * Rounds(q, g.sessions[c].limit), id);
  }

  /** With the budget spent nothing is left. */
  lemma DrainedAll(g: Group, c: Name, entries: seq<Id>, from: Id, taken: nat, budget: nat, id: Id)
    requires Increasing(g.server.entries) && Draining(g, c, entries, from, taken, budget) && taken >= budget
    requires id in entries && from < id
    ensures id in g.sessions[c].delivered
  {
    PrefixIncreases(entries, g.server.entries);
    NewerSelects(entries, g.server.lastDelivered);
    assert Waiting(entries, g.server) == [];
  }

  lemma {:induction false} LimitStays(g: Group, after: seq<Step>, c: Name)
    requires c in g.sessions && ReadsAlone(after, c)
    ensures c in Run(g, after).sessions && Run(g, after).sessions[c].limit == g.sessions[c].limit
  {
    if after != [] {
      LimitStays(g, after[..|after| - 1], c);
    }
  }

  lemma OnlyNewEntry(s: Server, c: Name, id: Id, limit: Limit)
    requires Increasing(s.entries) && s.lastDelivered < id && forall x: Id | x in s.entries :: x <= s.lastDelivered
    ensures Publish(s, id) == s.(entries := s.entries + [id])
    ensures Reply(Publish(s, id), c, New, limit) == [id]
  {
    NewerSelects(s.entries, s.lastDelivered);
    HasMember(Newer(s.entries, s.lastDelivered));
    assert s.entries != [] ==> s.entries[|s.entries| - 1] in s.entries;
    assert (s.entries + [id])[..|s.entries|] == s.entries;
    assert Newer(s.entries + [id], s.lastDelivered) == [id];
  }
}
