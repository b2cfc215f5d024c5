/**
  Handling one event: every module's subscriptions to its topic whose condition holds and whose command
  can be built, run together, their results listed in order.
 */
module Dispatch {
  import opened Wrappers
  import opened AskPolicy

  type Fields<V> = map<string, V>

  datatype Condition<V> =
    | Always
    | HasAttrs(names: set<string>)
    | And(parts: seq<Condition<V>>)
    | Or(parts: seq<Condition<V>>)
    | Not(part: Condition<V>)
    | Equal(attrs: map<string, V>)

  predicate Check<V(==)>(c: Condition<V>, fields: Fields<V>) {
    match c
    case Always => true
    case HasAttrs(names) => names <= fields.Keys
    case And(parts) => forall p | p in parts :: Check(p, fields)
    case Or(parts) => exists p | p in parts :: Check(p, fields)
    case Not(part) => !Check(part, fields)
    case Equal(attrs) => forall k | k in attrs :: k in fields && fields[k] == attrs[k]
  }

  /** The attributes a condition looks at. */
  function Mentions<V(==)>(c: Condition<V>): set<string> {
    match c
    case Always => {}
    case HasAttrs(names) => names
    case And(parts) => set p, k | p in parts && k in Mentions(p) :: k
    case Or(parts) => set p, k | p in parts && k in Mentions(p) :: k
    case Not(part) => Mentions(part)
    case Equal(attrs) => attrs.Keys
  }

  /** The two events have the same of these attributes, with the same values. */
  predicate Agree<V(==)>(names: set<string>, fields: Fields<V>, others: Fields<V>) {
    forall k | k in names :: (k in fields <==> k in others) && (k in fields ==> fields[k] == others[k])
  }

  /** What a condition does not mention cannot change its answer, however deep the tree and its negations. */
  lemma {:induction false} MentionedDecides<V>(c: Condition<V>, fields: Fields<V>, others: Fields<V>)
    requires Agree(Mentions(c), fields, others)
    ensures Check(c, fields) <==> Check(c, others)
  {
    match c
    case And(parts) =>
      forall p | p in parts ensures Check(p, fields) <==> Check(p, others) {
        forall k | k in Mentions(p) ensures k in Mentions(c) {}
        MentionedDecides(p, fields, others);
      }
    case Or(parts) =>
      forall p | p in parts ensures Check(p, fields) <==> Check(p, others) {
        forall k | k in Mentions(p) ensures k in Mentions(c) {}
        MentionedDecides(p, fields, others);
      }
    case Not(part) => MentionedDecides(part, fields, others);
    case _ =>
  }

  /**
    What each kind of condition asks of an event: nothing, some attributes, all parts, at least one part, the
    part's failure, and attributes with just these values.
   */
  lemma ConditionsMean<V>(parts: seq<Condition<V>>, p: Condition<V>, names: set<string>, attrs: map<string, V>,
      fields: Fields<V>)
    ensures Check(Always, fields)
    ensures Check(HasAttrs(names), fields) <==> forall k | k in names :: k in fields
    ensures Check(And([]), fields) && !Check(Or([]), fields)
    ensures Check(And(parts + [p]), fields) <==> Check(And(parts), fields) && Check(p, fields)
    ensures Check(Or(parts + [p]), fields) <==> Check(Or(parts), fields) || Check(p, fields)
    ensures Check(Not(p), fields) <==> !Check(p, fields)
    ensures Check(Equal(attrs), fields) <==> forall k | k in attrs :: k in fields && fields[k] == attrs[k]
  {
    AndTakesAll(parts, p, fields);
    OrTakesOne(parts, p, fields);
  }

  lemma AndTakesAll<V>(parts: seq<Condition<V>>, p: Condition<V>, fields: Fields<V>)
    ensures Check(And(parts + [p]), fields) <==> Check(And(parts), fields) && Check(p, fields)
  {
    assert forall q :: q in parts + [p] <==> q in parts || q == p;
  }

  lemma OrTakesOne<V>(parts: seq<Condition<V>>, p: Condition<V>, fields: Fields<V>)
    ensures Check(Or(parts + [p]), fields) <==> Check(Or(parts), fields) || Check(p, fields)
  {
    assert forall q :: q in parts + [p] <==> q in parts || q == p;
  }

  /** `build` is the converter and the command's construction; None when either raises. */
  datatype Handler<!V, !C> = Handler(
    condition: Condition<V>, build: Fields<V> -> Option<C>, isAsync: bool, run: C -> Outcome)

  datatype Subscription<!V, !C> = Subscription(topic: Topic, handler: Handler<V, C>)

  /** A resolved handler: whether calling it gives a coroutine, and what its task comes to. */
  datatype Call = Call(isAsync: bool, outcome: Outcome)

  /** EventHandler.resolve; None for either kind of exception, both of which the module swallows. */
  function Resolve<V(==), C>(h: Handler<V, C>, fields: Fields<V>): Option<Call> {
    if !Check(h.condition, fields) then None
    else
      match h.build(fields)
      case None => None
      case Some(command) => Some(Call(h.isAsync, h.run(command)))
  }

  // ---- the flat specification --------------------------------------------------------------------------

  /** The subscription answers the event with this call. */
  function Answer<V(==), C>(s: Subscription<V, C>, topic: Topic, fields: Fields<V>): seq<Call> {
    if s.topic != topic then []
    else match Resolve(s.handler, fields) case None => [] case Some(call) => [call]
  }

  /** Filter and map over a flat list of subscriptions. */
  function Answers<V(==), C>(subs: seq<Subscription<V, C>>, topic: Topic, fields: Fields<V>): seq<Call> {
    if subs == [] then []
    else Answers(subs[..|subs| - 1], topic, fields) + Answer(subs[|subs| - 1], topic, fields)
  }

  /** The subscription is to this topic, its condition holds, and its command can be built. */
  predicate Takes<V(==), C>(s: Subscription<V, C>, topic: Topic, fields: Fields<V>) {
    s.topic == topic && Check(s.handler.condition, fields) && s.handler.build(fields).Some?
  }

  /** What it then answers: the run of its handler on the command built. */
  function OwnCall<V(==), C>(s: Subscription<V, C>, topic: Topic, fields: Fields<V>): Option<Call> {
    if Takes(s, topic, fields) then Some(Call(s.handler.isAsync, s.handler.run(s.handler.build(fields).value)))
    else None
  }

  function Collected<T, U>(xs: seq<T>, one: T -> Option<U>): seq<U> {
    if xs == [] then []
    else
      Collected(xs[..|xs| - 1], one) + (match one(xs[|xs| - 1]) case None => [] case Some(y) => [y])
  }

  /** `at` are the positions that give something, in order, and these are the things they give. */
  predicate GivenAt<T, U(==)>(xs: seq<T>, one: T -> Option<U>, at: seq<nat>, ys: seq<U>) {
    && |at| == |ys|
    && (forall i | 0 <= i < |at| :: at[i] < |xs| && one(xs[at[i]]) == Some(ys[i]))
    && (forall k | 0 <= k < |xs| && one(xs[k]).Some? :: k in at)
    && (forall i, j | 0 <= i < j < |at| :: at[i] < at[j])
  }

  lemma {:induction false} CollectedSelects<T, U>(xs: seq<T>, one: T -> Option<U>) returns (at: seq<nat>)
    ensures GivenAt(xs, one, at, Collected(xs, one))
  {
    if xs == [] {
      at := [];
    } else {
      var n := |xs| - 1;
      var before := CollectedSelects(xs[..n], one);
      at := NextGiven(xs, one, before, Collected(xs[..n], one));
    }
  }

  lemma NextGiven<T, U>(xs: seq<T>, one: T -> Option<U>, at: seq<nat>, ys: seq<U>) returns (at': seq<nat>)
    requires xs != [] && GivenAt(xs[..|xs| - 1], one, at, ys)
    ensures GivenAt(xs, one, at', ys + (match one(xs[|xs| - 1]) case None => [] case Some(y) => [y]))
  {
    var n := |xs| - 1;
    at' := at + (if one(xs[n]).Some? then [n] else []);
    forall k | 0 <= k < |xs| && one(xs[k]).Some? ensures k in at' {
      if k < n {
        assert xs[..n][k] == xs[k];
        var i :| 0 <= i < |at| && at[i] == k;
        assert at'[i] == k;
      } else {
        assert at'[|at|] == k;
      }
    }
  }

  lemma AnswerIs<V, C>(s: Subscription<V, C>, topic: Topic, fields: Fields<V>)
    ensures Answer(s, topic, fields) == match OwnCall(s, topic, fields) case None => [] case Some(call) => [call]
  {
  }

  lemma {:induction false} AnswersAreCollected<V, C>(subs: seq<Subscription<V, C>>, topic: Topic, fields: Fields<V>)
    ensures Answers(subs, topic, fields) == Collected(subs, s => OwnCall(s, topic, fields))
  {
    if subs != [] {
      AnswersAreCollected(subs[..|subs| - 1], topic, fields);
      AnswerIs(subs[|subs| - 1], topic, fields);
    }
  }

  /** The answers are those of exactly the subscriptions that take the event, in order, each with its own outcome. */
  lemma AnswersSelect<V, C>(subs: seq<Subscription<V, C>>, topic: Topic, fields: Fields<V>) returns (at: seq<nat>)
    ensures GivenAt(subs, (s: Subscription<V, C>) => OwnCall(s, topic, fields), at, Answers(subs, topic, fields))
  {
    AnswersAreCollected(subs, topic, fields);
    at := CollectedSelects(subs, s => OwnCall(s, topic, fields));
  }

  /** A subscription without a condition answers every event of its topic with its own outcome. */
  lemma UnconditionalAnswers<V, C>(subs: seq<Subscription<V, C>>, s: Subscription<V, C>, fields: Fields<V>)
    requires s in subs && s.handler.condition == Always && s.handler.build(fields).Some?
    ensures Call(s.handler.isAsync, s.handler.run(s.handler.build(fields).value)) in Answers(subs, s.topic, fields)
  {
    var k :| 0 <= k < |subs| && subs[k] == s;
    assert subs == subs[..k] + [s] + subs[k + 1..];
    SubscriptionsAreIndependent(subs[..k], s, subs[k + 1..], s.topic, fields);
  }

  /** One under Equal answers exactly the events that have each named attribute with the value named. */
  lemma EqualAnswersIff<V, C>(s: Subscription<V, C>, fields: Fields<V>, attrs: map<string, V>)
    requires s.handler.condition == Equal(attrs) && s.handler.build(fields).Some?
    ensures Answer(s, s.topic, fields) != [] <==> forall k | k in attrs :: k in fields && fields[k] == attrs[k]
  {
    AnswerIs(s, s.topic, fields);
  }

  function Outcomes(calls: seq<Call>): (r: seq<Outcome>)
    ensures |r| == |calls| && forall i | 0 <= i < |r| :: r[i] == calls[i].outcome
  {
    seq(|calls|, i requires 0 <= i < |calls| => calls[i].outcome)
  }

  /** Creating a task from what is not a coroutine raises; otherwise exceptions are results. */
  function Gather(calls: seq<Call>): Handling {
    if forall i | 0 <= i < |calls| :: calls[i].isAsync then Results(Outcomes(calls)) else Failed
  }

  /**
    One subscription's fate touches no other's: swapping it for any other leaves every entry before and
    after as it was.
   */
  lemma SubscriptionsAreIndependent<V, C>(
    before: seq<Subscription<V, C>>, s: Subscription<V, C>, after: seq<Subscription<V, C>>, topic: Topic,
    fields: Fields<V>)
    ensures Answers(before + [s] + after, topic, fields)
         == Answers(before, topic, fields) + Answer(s, topic, fields) + Answers(after, topic, fields)
  {
    AnswersSplit(before + [s], after, topic, fields);
    AnswersSplit(before, [s], topic, fields);
    assert [s][..0] == [];
    assert Answers([s], topic, fields) == Answer(s, topic, fields);
  }

  lemma OutcomesJoin(xs: seq<Call>, ys: seq<Call>)
    ensures Outcomes(xs + ys) == Outcomes(xs) + Outcomes(ys)
  {
  }

  /**
    So it is for the result list: with every answering handler asynchronous, the results are those of the
    subscriptions before, then this one's own if it answers, then those after, whatever the others raise.
   */
  lemma ResultsAreIndependent<V, C>(
    before: seq<Subscription<V, C>>, s: Subscription<V, C>, after: seq<Subscription<V, C>>,
    topic: Topic, fields: Fields<V>)
    requires forall call | call in Answers(before + [s] + after, topic, fields) :: call.isAsync
    ensures Gather(Answers(before + [s] + after, topic, fields)) ==
              Results(Outcomes(Answers(before, topic, fields)) + Outcomes(Answer(s, topic, fields))
                      + Outcomes(Answers(after, topic, fields)))
  {
    var calls := Answers(before + [s] + after, topic, fields);
    var xs, y, zs := Answers(before, topic, fields), Answer(s, topic, fields), Answers(after, topic, fields);
    SubscriptionsAreIndependent(before, s, after, topic, fields);
    forall i | 0 <= i < |calls| ensures calls[i].isAsync {
      assert calls[i] in calls;
    }
    OutcomesJoin(xs, y);
    OutcomesJoin(xs + y, zs);
  }

  lemma {:induction false} AnswersSplit<V, C>(
    xs: seq<Subscription<V, C>>, ys: seq<Subscription<V, C>>, topic: Topic, fields: Fields<V>)
    ensures Answers(xs + ys, topic, fields) == Answers(xs, topic, fields) + Answers(ys, topic, fields)
    decreases |ys|
  {
    if ys == [] {
      assert xs + ys == xs;
    } else {
      var init, last := ys[..|ys| - 1], Answer(ys[|ys| - 1], topic, fields);
      assert (xs + ys)[..|xs + ys| - 1] == xs + init;
      AnswersSplit(xs, init, topic, fields);
      assert Answers(xs, topic, fields) + Answers(init, topic, fields) + last
          == Answers(xs, topic, fields) + (Answers(init, topic, fields) + last);
    }
  }

  /** The executor's loop: one task per call, then their results in the same order. */
  method ProcessHandlers(calls: seq<Call>) returns (handling: Handling)
    ensures handling == Gather(calls)
  {
    var tasks := [];
    for i := 0 to |calls|
      invariant |tasks| == i
      invariant forall j | 0 <= j < i :: calls[j].isAsync && tasks[j] == calls[j].outcome
    {
      if !calls[i].isAsync {
        return Failed;
      }
      tasks := tasks + [calls[i].outcome];
    }
    assert tasks == Outcomes(calls);
    return Results(tasks);
  }

  // ---- modules and the application -----------------------------------------------------------------------

  function Lookup<T>(table: map<Topic, seq<T>>, topic: Topic): seq<T> {
    if topic in table then table[topic] else []
  }

  /** The handlers subscribed to one topic, in registration order. */
  function OnTopic<V, C>(subs: seq<Subscription<V, C>>, topic: Topic): seq<Handler<V, C>> {
    if subs == [] then []
    else
      OnTopic(subs[..|subs| - 1], topic)
      + (if subs[|subs| - 1].topic == topic then [subs[|subs| - 1].handler] else [])
  }

  /** Asking a topic's handlers is asking all subscriptions. */
  function Resolved<V(==), C>(handlers: seq<Handler<V, C>>, fields: Fields<V>): seq<Call> {
    if handlers == [] then []
    else
      Resolved(handlers[..|handlers| - 1], fields)
      + (match Resolve(handlers[|handlers| - 1], fields) case None => [] case Some(call) => [call])
  }

  lemma {:induction false} TopicTableIsFilter<V, C>(subs: seq<Subscription<V, C>>, topic: Topic, fields: Fields<V>)
    ensures Resolved(OnTopic(subs, topic), fields) == Answers(subs, topic, fields)
  {
    if subs != [] {
      var n := |subs| - 1;
      TopicTableIsFilter(subs[..n], topic, fields);
      var hs := OnTopic(subs, topic);
      if subs[n].topic == topic {
        assert hs[..|hs| - 1] == OnTopic(subs[..n], topic);
        assert hs[|hs| - 1] == subs[n].handler;
      } else {
        assert hs == OnTopic(subs[..n], topic);
      }
    }
  }

  lemma OnTopicSnoc<V, C>(subs: seq<Subscription<V, C>>, s: Subscription<V, C>, topic: Topic)
    ensures OnTopic(subs + [s], topic) == OnTopic(subs, topic) + (if s.topic == topic then [s.handler] else [])
  {
    assert (subs + [s])[..|subs|] == subs;
  }

  class Module<V(==), C> {
    const domain: string
    var eventHandlers: map<Topic, seq<Handler<V, C>>>
    ghost var subscribed: seq<Subscription<V, C>>  // every subscription made, in order

    ghost predicate Valid()
      reads this
    {
      forall t: Topic :: Lookup(eventHandlers, t) == OnTopic(subscribed, t)
    }

    constructor (domain: string)
      ensures Valid() && this.domain == domain && subscribed == []
    {
      this.domain := domain;
      eventHandlers := map[];
      subscribed := [];
    }

    method Subscribe(topic: Topic, handler: Handler<V, C>)
      requires Valid()
      modifies this
      ensures Valid() && subscribed == old(subscribed) + [Subscription(topic, handler)]
    {
      eventHandlers := eventHandlers[topic := Lookup(eventHandlers, topic) + [handler]];
      forall t: Topic ensures OnTopic(subscribed + [Subscription(topic, handler)], t) == Lookup(eventHandlers, t) {
        OnTopicSnoc(subscribed, Subscription(topic, handler), t);
      }
      subscribed := subscribed + [Subscription(topic, handler)];
    }

    method GetEventHandlers(topic: Topic, fields: Fields<V>) returns (calls: seq<Call>)
      requires Valid()
      ensures calls == Answers(subscribed, topic, fields)
      ensures forall s | s in subscribed && s.topic == topic && s.handler.condition == Always
                         && s.handler.build(fields).Some? ::
                Call(s.handler.isAsync, s.handler.run(s.handler.build(fields).value)) in calls
    {
      calls := [];
      var handlers := Lookup(eventHandlers, topic);
      for i := 0 to |handlers|
        invariant calls == Resolved(handlers[..i], fields)
      {
        assert handlers[..i + 1][..i] == handlers[..i];
        var resolved := Resolve(handlers[i], fields);
        if resolved.Some? {
          calls := calls + [resolved.value];
        }
      }
      assert handlers[..|handlers|] == handlers;
      TopicTableIsFilter(subscribed, topic, fields);
      forall s | s in subscribed && s.topic == topic && s.handler.condition == Always
                 && s.handler.build(fields).Some?
        ensures Call(s.handler.isAsync, s.handler.run(s.handler.build(fields).value)) in calls
      {
        UnconditionalAnswers(subscribed, s, fields);
      }
    }
  }

  // ---- starting and stopping ------------------------------------------------------------------------------

  /**
    The lifespan is built once. A class-based one can be entered again by a later start; one made from a
    generator raises when it is entered a second time.
   */
  datatype Lifespan = Reenterable | OnceOnly

  /** Where a start or stop raises on its own, if it does: at its first signal, in the lifespan, at its last signal. */
  datatype Fault = Nowhere | FirstSignal | InLifespan | LastSignal

  datatype Control = Start(fault: Fault) | Halt(fault: Fault)

  /** The generator made by each start around the lifespan: one turn of it enters, the next leaves. */
  datatype Wrapper = Fresh | Held | Spent

  datatype Phase = Phase(isRunning: bool, isStopped: bool, entered: bool, wrapper: Wrapper)

  predicate Enters(lifespan: Lifespan, p: Phase, fault: Fault) {
    !fault.InLifespan? && (lifespan.Reenterable? || !p.entered)
  }

  /** A start gets past the lifespan. */
  predicate GetsIn(lifespan: Lifespan, p: Phase, fault: Fault) {
    !p.isStopped && !fault.FirstSignal? && Enters(lifespan, p, fault)
  }

  /** A stop takes the wrapper's next turn, whichever that is; at its end it does nothing. */
  predicate GetsOut(lifespan: Lifespan, p: Phase, fault: Fault) {
    match p.wrapper
    case Fresh => Enters(lifespan, p, fault)
    case Held => !fault.InLifespan?
    case Spent => true
  }

  /** One start or stop; a stop whose lifespan raises ends running without being stopped. */
  function Controlled(lifespan: Lifespan, p: Phase, control: Control): Phase {
    match control
    case Start(fault) =>
      if p.isStopped then p
      else if fault.FirstSignal? then p.(wrapper := Fresh)
      else
        var enters := Enters(lifespan, p, fault);
        Phase(p.isRunning || enters, false, true, if enters then Held else Spent)
    case Halt(fault) =>
      if !p.isRunning || fault.FirstSignal? then p
      else
        var passes, enters := GetsOut(lifespan, p, fault), p.wrapper.Fresh?;
        Phase(false, p.isStopped || passes, p.entered || enters, if passes && enters then Held else Spent)
  }

  function Lived(lifespan: Lifespan, controls: seq<Control>): Phase {
    if controls == [] then Phase(false, false, false, Spent)
    else Controlled(lifespan, Lived(lifespan, controls[..|controls| - 1]), controls[|controls| - 1])
  }

  lemma LivedSnoc(lifespan: Lifespan, controls: seq<Control>, last: Control)
    ensures Lived(lifespan, controls + [last]) == Controlled(lifespan, Lived(lifespan, controls), last)
  {
    assert (controls + [last])[..|controls|] == controls;
  }

  /** A start that is not refused and does not raise before the lifespan; it is entered, or at least tried. */
  predicate TriesLifespan(lifespan: Lifespan, controls: seq<Control>, k: nat) {
    && k < |controls| && controls[k].Start? && !controls[k].fault.FirstSignal?
    && !Lived(lifespan, controls[..k]).isStopped
  }

  lemma {:induction false} EnteredIff(lifespan: Lifespan, controls: seq<Control>)
    ensures Lived(lifespan, controls).entered <==> exists k: nat :: TriesLifespan(lifespan, controls, k)
    ensures Lived(lifespan, controls).isRunning ==> Lived(lifespan, controls).entered
  {
    if controls != [] {
      var n := |controls| - 1;
      EnteredIff(lifespan, controls[..n]);
      assert controls[..n] + [controls[n]] == controls;
      forall k: nat | k < n
        ensures TriesLifespan(lifespan, controls, k) <==> TriesLifespan(lifespan, controls[..n], k)
      {
        assert controls[..n][..k] == controls[..k];
      }
      assert TriesLifespan(lifespan, controls, n) <==>
             controls[n].Start? && !controls[n].fault.FirstSignal? && !Lived(lifespan, controls[..n]).isStopped;
    }
  }

  /** Control k got the application past its lifespan, and no stop has got past its first signal since. */
  predicate KeepsRunning(lifespan: Lifespan, controls: seq<Control>, k: nat) {
    && TriesLifespan(lifespan, controls, k) && !controls[k].fault.InLifespan?
    && (lifespan.Reenterable? || !Lived(lifespan, controls[..k]).entered)
    && forall j | k < j < |controls| :: controls[j].Halt? ==> controls[j].fault.FirstSignal?
  }

  /**
    Over every sequence of starts and stops, wherever they raise: the application runs if and only if some
    start got past its lifespan and no later stop got past its first signal; it never runs once it is stopped.
   */
  lemma {:induction false} RunsIff(lifespan: Lifespan, controls: seq<Control>)
    ensures Lived(lifespan, controls).isRunning <==> exists k: nat :: KeepsRunning(lifespan, controls, k)
    ensures Lived(lifespan, controls).isRunning ==> !Lived(lifespan, controls).isStopped
  {
    if controls != [] {
      var n := |controls| - 1;
      var init, last := controls[..n], controls[n];
      RunsIff(lifespan, init);
      assert init + [last] == controls;
      forall k: nat | k < n
        ensures KeepsRunning(lifespan, controls, k) <==>
                  KeepsRunning(lifespan, init, k) && (last.Halt? ==> last.fault.FirstSignal?)
      {
        KeepsRunningSnoc(lifespan, init, last, k);
      }
      assert KeepsRunning(lifespan, controls, n) <==>
             last.Start? && GetsIn(lifespan, Lived(lifespan, init), last.fault);
    }
  }

  /** The wrapper a start has left: the lifespan not reached yet, entered, or failed. */
  function WrapperAfter(lifespan: Lifespan, p: Phase, fault: Fault): Wrapper {
    match fault
    case FirstSignal => Fresh
    case InLifespan => Spent
    case _ => if lifespan.Reenterable? || !p.entered then Held else Spent
  }

  /** While an application runs, its wrapper is the one of the last start. */
  lemma {:induction false} RunningWrapper(lifespan: Lifespan, controls: seq<Control>) returns (k: nat)
    requires Lived(lifespan, controls).isRunning
    ensures k < |controls| && controls[k].Start? && forall j | k < j < |controls| :: controls[j].Halt?
    ensures Lived(lifespan, controls).wrapper
         == WrapperAfter(lifespan, Lived(lifespan, controls[..k]), controls[k].fault)
  {
    var n := |controls| - 1;
    assert controls[..n] + [controls[n]] == controls;
    if controls[n].Start? {
      RunsIff(lifespan, controls);
      k := n;
    } else {
      k := RunningWrapper(lifespan, controls[..n]);
      assert controls[..n][..k] == controls[..k];
    }
  }

  /** Control k stops a running application: its lifespan is left, or entered anew, or was spent already. */
  predicate GetsStopped(lifespan: Lifespan, controls: seq<Control>, k: nat) {
    && k < |controls| && controls[k].Halt? && !controls[k].fault.FirstSignal?
    && var p := Lived(lifespan, controls[..k]);
       && p.isRunning
       && (p.wrapper.Spent? || (!controls[k].fault.InLifespan? && (p.wrapper.Held? || lifespan.Reenterable?)))
  }

  /** It is stopped if and only if one of its stops got all the way through the lifespan. */
  lemma {:induction false} StoppedIff(lifespan: Lifespan, controls: seq<Control>)
    ensures Lived(lifespan, controls).isStopped <==> exists k: nat :: GetsStopped(lifespan, controls, k)
  {
    if controls != [] {
      var n := |controls| - 1;
      StoppedIff(lifespan, controls[..n]);
      EnteredIff(lifespan, controls[..n]);
      RunsIff(lifespan, controls[..n]);
      assert controls[..n] + [controls[n]] == controls;
      forall k: nat | k < n ensures GetsStopped(lifespan, controls, k) <==> GetsStopped(lifespan, controls[..n], k) {
        assert controls[..n][..k] == controls[..k];
      }
      assert GetsStopped(lifespan, controls, n) <==>
             && controls[n].Halt? && !controls[n].fault.FirstSignal?
             && var p := Lived(lifespan, controls[..n]);
                && p.isRunning
                && (p.wrapper.Spent? || (!controls[n].fault.InLifespan? && (p.wrapper.Held? || lifespan.Reenterable?)));
    }
  }

  /** A plain start and then a plain stop: the application has run and is stopped, and every later start is refused. */
  lemma PlainStopIsFinal(lifespan: Lifespan, more: seq<Control>, fault: Fault)
    ensures Lived(lifespan, [Start(Nowhere)]).isRunning
    ensures var p := Lived(lifespan, [Start(Nowhere), Halt(Nowhere)] + more);
            p.isStopped && !p.isRunning && !GetsIn(lifespan, p, fault)
            && !Lived(lifespan, [Start(Nowhere), Halt(Nowhere)] + more + [Start(fault)]).isRunning
  {
    var plain := [Start(Nowhere), Halt(Nowhere)];
    LivedSnoc(lifespan, [], Start(Nowhere));
    assert [] + [Start(Nowhere)] == [Start(Nowhere)];
    LivedSnoc(lifespan, [Start(Nowhere)], Halt(Nowhere));
    assert [Start(Nowhere)] + [Halt(Nowhere)] == plain;
    EndsForGood(lifespan, plain, more);
    LivedSnoc(lifespan, plain + more, Start(fault));
  }

  lemma KeepsRunningSnoc(lifespan: Lifespan, init: seq<Control>, last: Control, k: nat)
    requires k < |init|
    ensures KeepsRunning(lifespan, init + [last], k) <==>
              KeepsRunning(lifespan, init, k) && (last.Halt? ==> last.fault.FirstSignal?)
  {
    var all := init + [last];
    assert all[..k] == init[..k];
    if KeepsRunning(lifespan, all, k) {
      assert all[|init|] == last;
      forall j | k < j < |init| ensures init[j].Halt? ==> init[j].fault.FirstSignal? {
        assert all[j] == init[j];
      }
    }
  }

  /** Stopped is for good; and so is no longer running, with a lifespan that can be entered only once. */
  lemma {:induction false} EndsForGood(lifespan: Lifespan, controls: seq<Control>, more: seq<Control>)
    requires var p := Lived(lifespan, controls);
             p.isStopped || (lifespan.OnceOnly? && p.entered && !p.isRunning)
    ensures var p, p' := Lived(lifespan, controls), Lived(lifespan, controls + more);
            && !p'.isRunning && p'.isStopped == p.isStopped && p'.entered == p.entered
            && (p.isStopped ==> p' == p)
    decreases |more|
  {
    if more == [] {
      assert controls + more == controls;
      RunsIff(lifespan, controls);
    } else {
      var n := |more| - 1;
      assert controls + more == (controls + more[..n]) + [more[n]];
      EndsForGood(lifespan, controls, more[..n]);
      LivedSnoc(lifespan, controls + more[..n], more[n]);
    }
  }

  /**
    A lifespan that raises during a stop leaves the application neither running nor stopped; a start after
    that gets it running again exactly if the lifespan can be entered a second time.
   */
  lemma RestartsIffReenterable(lifespan: Lifespan) returns (controls: seq<Control>)
    ensures Lived(lifespan, controls) == Phase(false, false, true, Spent)
    ensures Lived(lifespan, controls + [Start(Nowhere)]).isRunning <==> lifespan.Reenterable?
  {
    controls := [] + [Start(Nowhere)] + [Halt(InLifespan)];
    LivedSnoc(lifespan, [], Start(Nowhere));
    LivedSnoc(lifespan, [] + [Start(Nowhere)], Halt(InLifespan));
    LivedSnoc(lifespan, controls, Start(Nowhere));
  }

  /**
    A start that raises at its first signal has already replaced the wrapper: the stop of an application that
    was running enters the lifespan again instead of leaving it, and raises if it cannot.
   */
  lemma StopEntersLifespan(lifespan: Lifespan) returns (controls: seq<Control>)
    ensures var p, p' := Lived(lifespan, controls), Lived(lifespan, controls + [Halt(Nowhere)]);
            && p.isRunning && p.wrapper == Fresh
            && if lifespan.Reenterable? then p'.isStopped && p'.wrapper == Held
               else !p'.isStopped && !p'.isRunning
  {
    controls := [] + [Start(Nowhere)] + [Start(FirstSignal)];
    LivedSnoc(lifespan, [], Start(Nowhere));
    LivedSnoc(lifespan, [] + [Start(Nowhere)], Start(FirstSignal));
    LivedSnoc(lifespan, controls, Halt(Nowhere));
  }

  class Application<V(==), C> {
    var modules: seq<Module<V, C>>  // in the order of inclusion
    const lifespan: Lifespan
    var isRunning: bool
    var isStopped: bool
    var entered: bool  // whether the lifespan was ever entered, or tried
    var wrapper: Wrapper

    function Now(): Phase
      reads this
    {
      Phase(isRunning, isStopped, entered, wrapper)
    }

    ghost predicate Valid()
      reads this`modules, modules
    {
      && (forall m | m in modules :: m.Valid())
      && (forall i, j | 0 <= i < j < |modules| :: modules[i].domain != modules[j].domain)
    }

    /** All subscriptions of the first n modules, module by module. */
    ghost function Subscriptions(n: nat): seq<Subscription<V, C>>
      requires n <= |modules|
      reads this`modules, modules
    {
      if n == 0 then [] else Subscriptions(n - 1) + modules[n - 1].subscribed
    }

    constructor (lifespan: Lifespan)
      ensures Valid() && modules == [] && this.lifespan == lifespan && Now() == Lived(lifespan, [])
    {
      this.lifespan, modules := lifespan, [];
      isRunning, isStopped, entered, wrapper := false, false, false, Spent;
    }

    /** A second module of the same domain is refused. */
    method Include(m: Module<V, C>) returns (ok: bool)
      requires Valid() && m.Valid()
      modifies this`modules
      ensures Valid()
      ensures ok <==> forall k | k in old(modules) :: k.domain != m.domain
      ensures modules == if ok then old(modules) + [m] else old(modules)
    {
      for i := 0 to |modules|
        invariant forall j | 0 <= j < i :: modules[j].domain != m.domain
      {
        if modules[i].domain == m.domain {
          return false;
        }
      }
      modules := modules + [m];
      return true;
    }

    /** The wrapper's next turn: enter, leave, or nothing. Not ok when it raises. */
    method TakeTurn(fault: Fault) returns (ok: bool)
      modifies this`entered, this`wrapper
      ensures ok == GetsOut(lifespan, old(Now()), fault)
      ensures entered == (old(entered) || old(wrapper).Fresh?)
      ensures wrapper == if ok && old(wrapper).Fresh? then Held else Spent
    {
      match wrapper {
        case Fresh =>
          ok := !fault.InLifespan? && (lifespan.Reenterable? || !entered);
          entered := true;
          wrapper := if ok then Held else Spent;
        case Held =>
          ok := !fault.InLifespan?;
          wrapper := Spent;
        case Spent =>
          ok := true;
      }
    }

    /** The flag is set before the last signal, so a start that raises there leaves the application running. */
    method Run(fault: Fault) returns (ok: bool)
      modifies this`isRunning, this`entered, this`wrapper
      ensures Now() == Controlled(lifespan, old(Now()), Start(fault))
      ensures ok == (GetsIn(lifespan, old(Now()), fault) && fault.Nowhere?)
    {
      if isStopped {
        return false;
      }
      wrapper := Fresh;
      if fault.FirstSignal? {
        return false;
      }
      var inside := TakeTurn(fault);
      if !inside {
        return false;
      }
      isRunning := true;
      return fault.Nowhere?;
    }

    method Stop(fault: Fault) returns (ok: bool)
      modifies this`isRunning, this`isStopped, this`entered, this`wrapper
      ensures Now() == Controlled(lifespan, old(Now()), Halt(fault))
      ensures ok == (old(isRunning) && fault !in {FirstSignal, LastSignal} && GetsOut(lifespan, old(Now()), fault))
    {
      if !isRunning || fault.FirstSignal? {
        return false;
      }
      isRunning := false;
      var through := TakeTurn(fault);
      if !through {
        return false;
      }
      isStopped := true;
      return !fault.LastSignal?;
    }

    /** The modules' handlers, one module after the other. */
    method GetEventHandlers(topic: Topic, fields: Fields<V>) returns (calls: seq<Call>)
      requires Valid()
      ensures calls == Answers(Subscriptions(|modules|), topic, fields)
    {
      calls := [];
      ghost var subs := [];
      for i := 0 to |modules|
        invariant subs == Subscriptions(i)
        invariant calls == Answers(subs, topic, fields)
      {
        var m := modules[i];
        assert m in modules && Subscriptions(i + 1) == subs + m.subscribed;
        var more := m.GetEventHandlers(topic, fields);
        AnswersSplit(subs, m.subscribed, topic, fields);
        calls := calls + more;
        subs := subs + m.subscribed;
      }
    }

    /** An application that is not running raises; a running one answers with the flat list, in order. */
    method HandleEvent(topic: Topic, fields: Fields<V>) returns (handling: Handling)
      requires Valid()
      ensures handling == if isRunning then Gather(Answers(Subscriptions(|modules|), topic, fields)) else Failed
    {
      if !isRunning {
        return Failed;
      }
      var calls := GetEventHandlers(topic, fields);
      handling := ProcessHandlers(calls);
    }
  }

  /**
    When a delivered entry is acknowledged, from the subscriptions alone: its event could not be built, or
    the application is running, every answering handler is asynchronous, and either none answers or one of
    them did not raise.
   */
  lemma AcknowledgedIff<V, C>(built: bool, running: bool, subs: seq<Subscription<V, C>>, topic: Topic,
      fields: Fields<V>)
    ensures var calls := Answers(subs, topic, fields);
            Acknowledges(Verdict(built, if running then Gather(calls) else Failed)) <==>
              || !built
              || (&& running
                  && (forall call | call in calls :: call.isAsync)
                  && (calls == [] || exists call :: call in calls && !call.outcome.Raised?))
  {
    var calls := Answers(subs, topic, fields);
    var rs := Outcomes(calls);
    if !AllRaised(rs) {
      var i :| 0 <= i < |rs| && !rs[i].Raised?;
      assert calls[i] in calls;
    }
    if call :| call in calls && !call.outcome.Raised? {
      var i :| 0 <= i < |calls| && calls[i] == call;
      assert rs[i] == call.outcome;
    }
    forall i | 0 <= i < |calls| ensures calls[i] in calls {}
  }
}
