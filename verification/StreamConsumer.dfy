/**
  The consumer's side as objects: the client, the group stream handler with its trackers, the pull loop
  that survives read errors, and the ask policy's use of a message. Each is tied to the functions and
  steps the runs of a group are made of.
 */
module StreamConsumer {
  import opened Wrappers
  import opened StreamGroup
  import opened ConsumerGroup
  import opened GroupDeliveries
  import opened AskPolicy

  datatype Message = Message(topic: Topic, id: Id)

  /** What the network does to one read: a reply, an error before the server acted, or one after. */
  datatype Fate = Answered | Refused | ReplyLost

  datatype Stored = Plain(entries: seq<Id>) | Grouped(server: Server)

  function Messages(topic: Topic, ids: seq<Id>): (r: seq<Message>)
    ensures |r| == |ids| && forall i | 0 <= i < |r| :: r[i] == Message(topic, ids[i])
  {
    seq(|ids|, i requires 0 <= i < |ids| => Message(topic, ids[i]))
  }

  function Ids(messages: seq<Message>): (r: seq<Id>)
    ensures |r| == |messages| && forall i | 0 <= i < |r| :: r[i] == messages[i].id
  {
    seq(|messages|, i requires 0 <= i < |messages| => messages[i].id)
  }

  /** A group created on a topic starts after the topic's last entry; on a missing topic, at the beginning. */
  function NewGroup(streams: map<Topic, Stored>, topic: Topic): Server {
    var entries := if topic in streams && streams[topic].Plain? then streams[topic].entries else [];
    Server(entries, if entries == [] then 0 else entries[|entries| - 1], map[], map[])
  }

  predicate HasGroup(streams: map<Topic, Stored>, topic: Topic) {
    topic in streams && streams[topic].Grouped?
  }

  /** The streams after an acknowledgement was sent: it changes nothing unless it reaches the group. */
  function AfterAck(streams: map<Topic, Stored>, topic: Topic, id: Id, reached: bool): map<Topic, Stored> {
    if reached && HasGroup(streams, topic) then streams[topic := Grouped(Ack(streams[topic].server, id))] else streams
  }

  /** The topic's entries before there is a group. */
  function EntriesOf(streams: map<Topic, Stored>, topic: Topic): seq<Id> {
    if topic !in streams then []
    else match streams[topic] case Plain(entries) => entries case Grouped(server) => server.entries
  }

  /** A group's past in every run is what was published after it was created: all of that, and nothing from before. */
  ghost predicate OnlyLater(g: Group, earlier: seq<Id>) {
    && (forall d: Delivery | Started(g, d) :: d.id in g.server.entries && d.id !in earlier)
    && (forall id: Id | id in g.server.entries && id !in earlier && id <= g.server.lastDelivered ::
          id in g.server.acked || id in g.server.pending)
    && earlier <= g.server.entries
  }

  /** A group created by a bind never hands out an entry its topic had before, and none is skipped from then on. */
  lemma NewGroupHandsOutLater(streams: map<Topic, Stored>, topic: Topic, steps: seq<Step>)
    requires !HasGroup(streams, topic) && Increasing(EntriesOf(streams, topic))
    requires forall id: Id | id in EntriesOf(streams, topic) :: 0 < id
    ensures OnlyLater(Run(Group(NewGroup(streams, topic), map[], {}, [], 0), steps), EntriesOf(streams, topic))
  {
    var earlier, s := EntriesOf(streams, topic), NewGroup(streams, topic);
    assert Group(s, map[], {}, [], 0) == Created(earlier, s.lastDelivered);
    var g := Run(Created(earlier, s.lastDelivered), steps);
    RunKeepsInv(earlier, s.lastDelivered, steps);
    EntriesStay(Created(earlier, s.lastDelivered), steps);
    forall d: Delivery | Started(g, d) ensures d.id in g.server.entries && d.id !in earlier {
      assert Known(g, d);
      if d.id in earlier {
        LastIsGreatest(earlier, d.id);
      }
    }
    forall id: Id | id in g.server.entries && id !in earlier ensures s.lastDelivered < id {
      NewcomerIsLater(earlier, g.server.entries, id);
    }
  }

  lemma NewcomerIsLater(earlier: seq<Id>, all: seq<Id>, id: Id)
    requires Increasing(all) && earlier <= all && id in all && id !in earlier && 0 !in all
    ensures 0 < id && forall x: Id | x in earlier :: x < id
  {
    var k :| 0 <= k < |all| && all[k] == id;
    forall x: Id | x in earlier ensures x < id {
      var i :| 0 <= i < |earlier| && earlier[i] == x;
      assert all[i] == x;
    }
  }

  lemma {:induction false} EntriesStay(g: Group, steps: seq<Step>)
    requires 0 !in g.server.entries
    ensures g.server.entries <= Run(g, steps).server.entries && 0 !in Run(g, steps).server.entries
  {
    if steps != [] {
      EntriesStay(g, steps[..|steps| - 1]);
    }
  }

  /** The server shared by everyone; it stands for the foreign client library and what is behind it. */
  class RedisClient {
    var streams: map<Topic, Stored>

    /** BUSYGROUP (not ok) when the group exists. */
    method XGroupCreate(topic: Topic) returns (ok: bool)
      modifies this
      ensures ok == !HasGroup(old(streams), topic)
      ensures streams == if ok then old(streams)[topic := Grouped(NewGroup(old(streams), topic))] else old(streams)
    {
      ok := !HasGroup(streams, topic);
      if ok {
        streams := streams[topic := Grouped(NewGroup(streams, topic))];
      }
    }

    /** The reply lists streams with their entries; asking for new ones when there are none lists no stream. */
    method XReadGroup(topic: Topic, c: Name, cursor: Cursor, limit: Limit, fate: Fate)
      returns (response: Option<seq<(Topic, seq<Id>)>>)
      modifies this
      ensures !HasGroup(old(streams), topic) || fate.Refused? ==> response.None? && streams == old(streams)
      ensures HasGroup(old(streams), topic) && !fate.Refused? ==>
                var s := old(streams)[topic].server;
                var reply := Reply(s, c, cursor, limit);
                && streams == old(streams)[topic := Grouped(ReadGroup(s, c, cursor, limit))]
                && response == (if fate.ReplyLost? then None
                                else Some(if cursor.New? && reply == [] then [] else [(topic, reply)]))
    {
      if !HasGroup(streams, topic) || fate.Refused? {
        return None;
      }
      var s := streams[topic].server;
      var reply := Reply(s, c, cursor, limit);
      streams := streams[topic := Grouped(ReadGroup(s, c, cursor, limit))];
      if fate.ReplyLost? {
        return None;
      }
      return Some(if cursor.New? && reply == [] then [] else [(topic, reply)]);
    }

    method XAck(topic: Topic, id: Id, reached: bool)
      modifies this
      ensures streams == AfterAck(old(streams), topic, id, reached)
    {
      if reached && HasGroup(streams, topic) {
        streams := streams[topic := Grouped(Ack(streams[topic].server, id))];
      }
    }

    /** What everyone else makes of a topic's group meanwhile. */
    method ChangedElsewhere(topic: Topic, server: Server)
      modifies this
      ensures streams == old(streams)[topic := Grouped(server)]
    {
      streams := streams[topic := Grouped(server)];
    }
  }

  class GroupStreamHandler {
    const client: RedisClient
    const consumerName: Name
    var trackers: map<Topic, Cursor>

    constructor (client: RedisClient, consumerName: Name)
      ensures this.client == client && this.consumerName == consumerName && trackers == map[]
    {
      this.client, this.consumerName, this.trackers := client, consumerName, map[];
    }

    /** A fresh tracker from id "0"; the group is created unless it exists. */
    method Bind(topic: Topic)
      modifies this, client
      ensures trackers == old(trackers)[topic := After(0)]
      ensures client.streams == if HasGroup(old(client.streams), topic) then old(client.streams)
                                else old(client.streams)[topic := Grouped(NewGroup(old(client.streams), topic))]
    {
      trackers := trackers[topic := After(0)];
      var _ := client.XGroupCreate(topic);
    }

    /** None is an exception: then the tracker has not moved, whatever the server did. */
    method Read(topic: Topic, limit: Limit, fate: Fate) returns (result: Option<seq<Message>>)
      modifies this`trackers, client
      ensures topic !in old(trackers) || !HasGroup(old(client.streams), topic) || fate.Refused? ==>
                result.None? && trackers == old(trackers) && client.streams == old(client.streams)
      ensures topic in old(trackers) && HasGroup(old(client.streams), topic) && !fate.Refused? ==>
                var s, cursor := old(client.streams)[topic].server, old(trackers)[topic];
                var reply := Reply(s, consumerName, cursor, limit);
                && client.streams == old(client.streams)[topic := Grouped(ReadGroup(s, consumerName, cursor, limit))]
                && result == (if fate.Answered? then Some(Messages(topic, reply)) else None)
                && trackers == (if fate.Answered? then old(trackers)[topic := Track(reply)] else old(trackers))
    {
      if topic !in trackers {
        return None;
      }
      var response := client.XReadGroup(topic, consumerName, trackers[topic], limit, fate);
      if response.None? {
        return None;
      }
      var messages, ids := [], [];
      for i := 0 to |response.value|
        invariant messages == Messages(topic, ids)
        invariant ids == if i == 0 then [] else response.value[0].1
      {
        var stream := response.value[i].1;
        for j := 0 to |stream|
          invariant ids == stream[..j]
          invariant messages == Messages(topic, ids)
        {
          ids := ids + [stream[j]];
          messages := messages + [Message(topic, stream[j])];
        }
        assert ids == stream;
      }
      trackers := trackers[topic := Track(ids)];
      return Some(messages);
    }
  }

  /**
    One turn of a pull loop: what others did to the group before the read, how the read ended, and whether
    the loop was stopped before its next turn.
   */
  datatype Turn = Turn(others: seq<Step>, fate: Fate, stops: bool)

  /** The consumer's own binds and reads are its own; everything else, settlements included, may come between. */
  predicate TakenElsewhere(step: Step, c: Name) {
    match step
    case Bind(d, _) => d != c
    case Read(d) => d != c
    case ReadLost(d) => d != c
    case _ => true
  }

  predicate AllElsewhere(turns: seq<Turn>, c: Name) {
    forall i, j | 0 <= i < |turns| && 0 <= j < |turns[i].others| :: TakenElsewhere(turns[i].others[j], c)
  }

  /** The turns a loop takes: up to the first after which it is stopped. */
  function Taken(turns: seq<Turn>): (n: nat)
    ensures n <= |turns|
  {
    if turns == [] then 0 else if turns[0].stops then 1 else 1 + Taken(turns[1..])
  }

  predicate NoStop(turns: seq<Turn>) {
    forall i | 0 <= i < |turns| :: !turns[i].stops
  }

  /** After i turns the loop is still running, or was stopped by the last of them. */
  predicate GoneThrough(turns: seq<Turn>, i: nat, running: bool) {
    && i <= |turns|
    && Taken(turns) == i + (if running then Taken(turns[i..]) else 0)
    && (running <==> NoStop(turns[..i])) && (NoStop(turns) ==> running)
  }

  lemma NoTurnYet(turns: seq<Turn>)
    ensures GoneThrough(turns, 0, true)
  {
    assert turns[0..] == turns;
  }

  lemma NextTurn(turns: seq<Turn>, i: nat)
    requires i < |turns| && GoneThrough(turns, i, true)
    ensures GoneThrough(turns, i + 1, !turns[i].stops) && turns[..i + 1] == turns[..i] + [turns[i]]
  {
    var all := turns[..i + 1];
    assert all == turns[..i] + [turns[i]] && turns[i..][1..] == turns[i + 1..];
    if NoStop(all) {
      assert !all[i].stops;
    }
  }

  lemma LastTurn(turns: seq<Turn>, i: nat, running: bool)
    requires GoneThrough(turns, i, running) && (!running || i == |turns|)
    ensures i == Taken(turns) && (running <==> NoStop(turns))
  {
    assert running ==> turns[..i] == turns;
  }

  function OwnSteps(c: Name, fate: Fate): seq<Step> {
    match fate
    case Answered => [Step.Read(c)]
    case ReplyLost => [Step.ReadLost(c)]
    case Refused => []
  }

  /** The steps of a run that the turns are. */
  function Pulls(c: Name, turns: seq<Turn>): seq<Step> {
    if turns == [] then []
    else
      var last := turns[|turns| - 1];
      Pulls(c, turns[..|turns| - 1]) + last.others + OwnSteps(c, last.fate)
  }

  /** One read is one step, or none. */
  function Pulled(g: Group, c: Name, fate: Fate): Group {
    match fate
    case Answered => ReadStep(g, c)
    case ReplyLost => ReadLostStep(g, c)
    case Refused => g
  }

  lemma {:induction false} RunJoins(g: Group, xs: seq<Step>, ys: seq<Step>)
    ensures Run(g, xs + ys) == Run(Run(g, xs), ys)
    decreases |ys|
  {
    if ys == [] {
      assert xs + ys == xs;
    } else {
      var n := |ys| - 1;
      assert (xs + ys)[..|xs| + n] == xs + ys[..n];
      RunJoins(g, xs, ys[..n]);
    }
  }

  lemma PullsOne(g: Group, c: Name, turns: seq<Turn>, turn: Turn)
    ensures Run(g, Pulls(c, turns + [turn])) == Pulled(Run(Run(g, Pulls(c, turns)), turn.others), c, turn.fate)
  {
    assert (turns + [turn])[..|turns|] == turns;
    var before := Pulls(c, turns);
    RunJoins(g, before, turn.others);
    RunJoins(g, before + turn.others, OwnSteps(c, turn.fate));
    RunOwn(Run(g, before + turn.others), c, turn.fate);
  }

  lemma RunOwn(g: Group, c: Name, fate: Fate)
    ensures Run(g, OwnSteps(c, fate)) == Pulled(g, c, fate)
  {
    RunSnoc(g, [], Step.Read(c));
    RunSnoc(g, [], Step.ReadLost(c));
    assert [] + [Step.Read(c)] == [Step.Read(c)] && [] + [Step.ReadLost(c)] == [Step.ReadLost(c)];
  }

  /** What others do leaves the consumer's session alone. */
  lemma {:induction false} OthersKeepSession(g: Group, c: Name, steps: seq<Step>)
    requires c in g.sessions && forall j | 0 <= j < |steps| :: TakenElsewhere(steps[j], c)
    ensures c in Run(g, steps).sessions && Run(g, steps).sessions[c] == g.sessions[c]
  {
    if steps != [] {
      OthersKeepSession(g, c, steps[..|steps| - 1]);
    }
  }

  /** The tasks are those of the messages the session was given between two states, in order. */
  predicate Handed(g: Group, g': Group, c: Name, topic: Topic, tasks: seq<Message>) {
    && c in g.sessions && c in g'.sessions
    && g'.sessions[c].delivered == g.sessions[c].delivered + Ids(tasks)
    && tasks == Messages(topic, Ids(tasks))
  }

  lemma NothingHanded(g: Group, c: Name, topic: Topic)
    requires c in g.sessions
    ensures Handed(g, g, c, topic, [])
  {
    assert g.sessions[c].delivered + Ids([]) == g.sessions[c].delivered;
  }

  lemma HandedJoins(g: Group, g1: Group, g2: Group, c: Name, topic: Topic, xs: seq<Message>, ys: seq<Message>)
    requires Handed(g, g1, c, topic, xs) && Handed(g1, g2, c, topic, ys)
    ensures Handed(g, g2, c, topic, xs + ys)
  {
    MessagesJoin(topic, xs, ys);
    assert g.sessions[c].delivered + Ids(xs) + Ids(ys) == g.sessions[c].delivered + (Ids(xs) + Ids(ys));
  }

  lemma MessagesJoin(topic: Topic, xs: seq<Message>, ys: seq<Message>)
    requires xs == Messages(topic, Ids(xs)) && ys == Messages(topic, Ids(ys))
    ensures Ids(xs + ys) == Ids(xs) + Ids(ys) && xs + ys == Messages(topic, Ids(xs + ys))
  {
  }

  datatype Task = Task(topic: Topic, cancelled: bool)

  function TopicsOf(tasks: seq<Task>): (r: seq<Topic>)
    ensures |r| == |tasks| && forall i | 0 <= i < |r| :: r[i] == tasks[i].topic
  {
    seq(|tasks|, i requires 0 <= i < |tasks| => tasks[i].topic)
  }

  lemma TopicsOfSnoc(tasks: seq<Task>, task: Task)
    ensures multiset(TopicsOf(tasks + [task])) == multiset(TopicsOf(tasks)) + multiset{task.topic}
  {
    assert TopicsOf(tasks + [task]) == TopicsOf(tasks) + [task.topic];
  }

  class NotificationQueue {
    const handler: GroupStreamHandler
    const batchSize: nat
    var topics: set<Topic>
    var running: bool
    var tasks: seq<Task>

    constructor (handler: GroupStreamHandler, batchSize: nat)
      ensures this.handler == handler && this.batchSize == batchSize && topics == {} && !running && tasks == []
    {
      this.handler, this.batchSize, this.topics, this.running, this.tasks := handler, batchSize, {}, false, [];
    }

    /** The group `g` is the one behind `topic`, and its session for this consumer stands where the tracker does. */
    ghost predicate Mirrors(g: Group, topic: Topic)
      reads this, handler, handler.client
    {
      && batchSize >= 1
      && topic in handler.trackers && HasGroup(handler.client.streams, topic)
      && g.server == handler.client.streams[topic].server
      && handler.consumerName in g.sessions
      && g.sessions[handler.consumerName].cursor == handler.trackers[topic]
      && g.sessions[handler.consumerName].limit == Some(batchSize)
    }

    method Bind(topic: Topic, ghost g: Group)
      requires batchSize >= 1
      requires HasGroup(handler.client.streams, topic) ==> g.server == handler.client.streams[topic].server
      requires !HasGroup(handler.client.streams, topic) ==> g.server == NewGroup(handler.client.streams, topic)
      modifies this`topics, handler, handler.client
      ensures topics == old(topics) + {topic}
      ensures Mirrors(BindStep(g, handler.consumerName, Some(batchSize)), topic)
    {
      topics := topics + {topic};
      handler.Bind(topic);
    }

    /** One more pull task for every topic bound, exactly; the tasks of earlier calls stay. */
    method Consume()
      modifies this`running, this`tasks
      ensures running && old(tasks) <= tasks
      ensures var started := tasks[|old(tasks)|..];
              && multiset(TopicsOf(started)) == multiset(topics)
              && forall i | 0 <= i < |started| :: !started[i].cancelled
    {
      running := true;
      var started: seq<Task>, rest := [], topics;
      while rest != {}
        invariant running && tasks == old(tasks) && topics == old(topics)
        invariant rest <= topics && multiset(TopicsOf(started)) + multiset(rest) == multiset(topics)
        invariant forall i | 0 <= i < |started| :: !started[i].cancelled
        decreases rest
      {
        var topic :| topic in rest;
        TopicsOfSnoc(started, Task(topic, false));
        started := started + [Task(topic, false)];
        rest := rest - {topic};
      }
      tasks := tasks + started;
    }

    /** Every task ever started is cancelled, those of earlier calls too. */
    method StopConsume()
      modifies this`running, this`tasks
      ensures !running && TopicsOf(tasks) == TopicsOf(old(tasks))
      ensures forall i | 0 <= i < |tasks| :: tasks[i].cancelled
    {
      running := false;
      for i := 0 to |tasks|
        invariant !running && TopicsOf(tasks) == TopicsOf(old(tasks))
        invariant forall j | 0 <= j < i :: tasks[j].cancelled
      {
        tasks := tasks[i := Task(tasks[i].topic, true)];
      }
    }

    /** One turn of the loop: the tasks it creates; an error creates none. */
    method PullOnce(topic: Topic, fate: Fate, ghost g: Group) returns (tasks: seq<Message>)
      requires Mirrors(g, topic)
      modifies handler`trackers, handler.client
      ensures Mirrors(Pulled(g, handler.consumerName, fate), topic)
      ensures Handed(g, Pulled(g, handler.consumerName, fate), handler.consumerName, topic, tasks)
    {
      ghost var c := handler.consumerName;
      ghost var reply := Reply(g.server, c, g.sessions[c].cursor, Some(batchSize));
      var messages := handler.Read(topic, Some(batchSize), fate);
      match messages {
        case None =>
          tasks := [];
          assert g.sessions[c].delivered + Ids(tasks) == g.sessions[c].delivered;
        case Some(read) =>
          tasks := read;
          assert Ids(tasks) == reply;
      }
    }

    /**
      The pull loop: one callback task per message, errors logged and survived, until it is stopped. Together
      with what others do between its reads it is the run of the group that its turns are.
     */
    method LongPull(topic: Topic, turns: seq<Turn>, g: Group) returns (messages: seq<Message>)
      requires Mirrors(g, topic) && AllElsewhere(turns, handler.consumerName)
      modifies this`running, handler`trackers, handler.client
      ensures !old(running) ==>
                && messages == [] && !running
                && handler.trackers == old(handler.trackers) && handler.client.streams == old(handler.client.streams)
      ensures old(running) ==>
                var now := Run(g, Pulls(handler.consumerName, turns[..Taken(turns)]));
                && Mirrors(now, topic) && Handed(g, now, handler.consumerName, topic, messages)
                && (running <==> NoStop(turns))
    {
      if !running {
        return [];
      }
      var now;
      messages, now := PullUntilStopped(topic, turns, g);
    }

    /** The turns done so far: where they have brought the group, and the messages they gave. */
    ghost predicate Pulling(g: Group, topic: Topic, done: seq<Turn>, now: Group, messages: seq<Message>)
      reads this, handler, handler.client
    {
      && now == Run(g, Pulls(handler.consumerName, done))
      && Mirrors(now, topic) && Handed(g, now, handler.consumerName, topic, messages)
    }

    method PullUntilStopped(topic: Topic, turns: seq<Turn>, g: Group) returns (messages: seq<Message>, now: Group)
      requires running && Mirrors(g, topic) && AllElsewhere(turns, handler.consumerName)
      modifies this`running, handler`trackers, handler.client
      ensures Pulling(g, topic, turns[..Taken(turns)], now, messages)
      ensures running <==> NoStop(turns)
    {
      messages, now := [], g;
      NothingHanded(g, handler.consumerName, topic);
      NoTurnYet(turns);
      var i := 0;
      while running && i < |turns|
        invariant GoneThrough(turns, i, running) && Pulling(g, topic, turns[..i], now, messages)
      {
        NextTurn(turns, i);
        var turn := turns[i];
        assert forall j | 0 <= j < |turn.others| :: TakenElsewhere(turn.others[j], handler.consumerName);
        now, messages := Turned(topic, turn, now, messages, g, turns[..i]);
        if turn.stops {
          running := false;
        }
        i := i + 1;
      }
      LastTurn(turns, i, running);
    }

    method Turned(topic: Topic, turn: Turn, now: Group, messages: seq<Message>, ghost g: Group, ghost done: seq<Turn>)
      returns (now': Group, messages': seq<Message>)
      requires Pulling(g, topic, done, now, messages)
      requires forall j | 0 <= j < |turn.others| :: TakenElsewhere(turn.others[j], handler.consumerName)
      modifies handler`trackers, handler.client
      ensures Pulling(g, topic, done + [turn], now', messages')
    {
      ghost var c := handler.consumerName;
      PullsOne(g, c, done, turn);
      OthersKeepSession(now, c, turn.others);
      var between := Run(now, turn.others);
      handler.client.ChangedElsewhere(topic, between.server);
      var more := PullOnce(topic, turn.fate, between);
      now', messages' := Pulled(between, handler.consumerName, turn.fate), messages + more;
      HandedJoins(g, between, now', c, topic, messages, more);
    }
  }

  /** A message with the two functions the handler gave it; `asked` lists the requeue flags they were called with. */
  class PublishedMessage {
    const client: RedisClient
    const topic: Topic
    const id: Id
    var asked: seq<bool>

    constructor (client: RedisClient, topic: Topic, id: Id)
      ensures this.client == client && this.topic == topic && this.id == id && asked == []
    {
      this.client, this.topic, this.id, this.asked := client, topic, id, [];
    }

    /** Both functions are the same wrapper; ack leaves the flag at its default. */
    method Ask(requeue: bool, reached: bool)
      modifies this`asked, client
      ensures asked == old(asked) + [requeue]
      ensures client.streams ==
                if requeue then old(client.streams) else AfterAck(old(client.streams), topic, id, reached)
    {
      asked := asked + [requeue];
      if !requeue {
        client.XAck(topic, id, reached);
      }
    }

    method Ack(reached: bool)
      modifies this`asked, client
      ensures asked == old(asked) + [false]
      ensures client.streams == AfterAck(old(client.streams), topic, id, reached)
    {
      Ask(false, reached);
    }
  }

  /** The group behind the topic has this entry acknowledged, and nothing else is touched. */
  ghost predicate AcknowledgedIn(streams: map<Topic, Stored>, streams': map<Topic, Stored>, topic: Topic, id: Id) {
    && HasGroup(streams, topic) && HasGroup(streams', topic)
    && Acknowledged(streams[topic].server, streams'[topic].server, id)
    && streams'.Keys == streams.Keys && forall t | t in streams && t != topic :: streams'[t] == streams[t]
  }

  /** DefaultAskPolicy.process, given how building and handling the event ended. */
  method Process(n: PublishedMessage, built: bool, handling: Handling, reached: bool)
    modifies n`asked, n.client
    ensures !built || handling == Results([]) ==> n.asked == old(n.asked) + [false]
    ensures built && handling.Failed? ==> n.asked == old(n.asked)
    ensures built && handling.Results? && handling.results != [] ==>
              n.asked == old(n.asked) + [forall i | 0 <= i < |handling.results| :: handling.results[i] == Raised]
    ensures if && reached && HasGroup(old(n.client.streams), n.topic)
               && (!built || (handling.Results? && (handling.results == [] || Returned in handling.results
                                                    || Cancelled in handling.results)))
            then AcknowledgedIn(old(n.client.streams), n.client.streams, n.topic, n.id)
            else n.client.streams == old(n.client.streams)
    ensures forall g: Group, d | d in g.open && d.id == n.id && HasGroup(old(n.client.streams), n.topic)
                                 && old(n.client.streams)[n.topic].server == g.server ::
              HasGroup(n.client.streams, n.topic)
              && n.client.streams[n.topic].server == SettleStep(g, d, Verdict(built, handling), reached).server
  {
    VerdictsAre(handling);
    if !built {
      n.Ask(false, reached);
      return;
    }
    match handling {
      case Failed =>
      case Results(results) =>
        if |results| == 0 {
          n.Ask(false, reached);
        } else if AllRaised(results) {
          n.Ask(true, reached);
        } else {
          n.Ack(reached);
        }
    }
  }
}
