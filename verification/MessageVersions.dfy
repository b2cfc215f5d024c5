/**
  Messages across versions of their classes: the upcast loop, the registry of classes by topic, and the
  conversion of stored events to rows and back.
 */
module MessageVersions {
  import opened Wrappers

  /** A message's payload: the optional "class_version" entry and the rest. */
  datatype Values<V> = Values(classVersion: Option<int>, body: V)

  /** Key v is the method upcast_v{v}_v{v+1}; a None result is an exception it raised. */
  type Upcasters<!V> = map<int, Values<V> -> Option<Values<V>>>

  function StartVersion<V>(values: Values<V>): int {
    match values.classVersion case None => 1 case Some(v) => v
  }

  /** The steps from lo up to hi, one after the other. */
  function Compose<V>(ups: Upcasters<V>, lo: int, hi: int, values: Values<V>): Option<Values<V>>
    requires lo <= hi
    decreases hi - lo
  {
    if lo == hi then Some(values)
    else
      match Compose(ups, lo, hi - 1, values)
      case None => None
      case Some(x) => if hi - 1 in ups then ups[hi - 1](x) else None
  }

  function Upcasted<V>(ups: Upcasters<V>, target: int, values: Values<V>): Option<Values<V>> {
    if StartVersion(values) <= target then Compose(ups, StartVersion(values), target, values) else None
  }

  /** The version a payload is at: what its class_version says, and 1 when it says nothing. */
  predicate IsAt<V>(values: Values<V>, v: int) {
    match values.classVersion case None => v == 1 case Some(said) => said == v
  }

  /** There is an upcaster from version k to the next, and this is what it makes of the payload. */
  ghost predicate TakesTo<V>(ups: Upcasters<V>, k: int, values: Values<V>, next: Values<V>) {
    k in ups && ups[k](values) == Some(next)
  }

  /** Payloads of consecutive versions from v on, each but the first what the upcaster of the one before answered. */
  ghost predicate IsChain<V>(ups: Upcasters<V>, v: int, xs: seq<Values<V>>) {
    xs != [] && forall i | 1 <= i < |xs| :: TakesTo(ups, v + i - 1, xs[i - 1], xs[i])
  }

  ghost predicate ChainTo<V>(ups: Upcasters<V>, v: int, values: Values<V>, target: int, result: Values<V>,
      xs: seq<Values<V>>)
  {
    IsChain(ups, v, xs) && |xs| == target - v + 1 && xs[0] == values && xs[|xs| - 1] == result
  }

  lemma {:induction false} ComposeIsChain<V>(ups: Upcasters<V>, lo: int, hi: int, values: Values<V>)
      returns (xs: seq<Values<V>>)
    requires lo <= hi && Compose(ups, lo, hi, values).Some?
    ensures ChainTo(ups, lo, values, hi, Compose(ups, lo, hi, values).value, xs)
    decreases hi - lo
  {
    if lo == hi {
      xs := [values];
    } else {
      xs := ComposeIsChain(ups, lo, hi - 1, values);
      xs := xs + [Compose(ups, lo, hi, values).value];
    }
  }

  lemma {:induction false} ChainIsComposed<V>(ups: Upcasters<V>, v: int, xs: seq<Values<V>>)
    requires IsChain(ups, v, xs)
    ensures Compose(ups, v, v + |xs| - 1, xs[0]) == Some(xs[|xs| - 1])
    decreases |xs|
  {
    if |xs| > 1 {
      ChainIsComposed(ups, v, xs[..|xs| - 1]);
    }
  }

  /**
    A payload at version v is loaded with this result if and only if there is a chain of answers from it to the
    result, of one upcaster for each version from v up to the target's predecessor: a payload at the target is
    left alone, one from the future is refused.
   */
  lemma UpcastIff<V>(ups: Upcasters<V>, target: int, values: Values<V>, v: int, result: Values<V>)
    requires IsAt(values, v)
    ensures Upcasted(ups, target, values) == Some(result) <==>
            exists xs: seq<Values<V>> :: ChainTo(ups, v, values, target, result, xs)
  {
    if Upcasted(ups, target, values) == Some(result) {
      var xs := ComposeIsChain(ups, v, target, values);
    }
    if xs: seq<Values<V>> :| ChainTo(ups, v, values, target, result, xs) {
      ChainIsComposed(ups, v, xs);
    }
  }

  /** What upcasters there are below the payload's version, or from the target's on, makes no difference. */
  lemma OnlyStepsBetweenCount<V>(ups: Upcasters<V>, others: Upcasters<V>, target: int, values: Values<V>, v: int)
    requires IsAt(values, v)
    requires forall k | v <= k < target :: (k in ups <==> k in others) && (k in ups ==> ups[k] == others[k])
    ensures Upcasted(ups, target, values) == Upcasted(others, target, values)
  {
    if v <= target {
      SameSteps(ups, others, v, target, values);
    }
  }

  lemma {:induction false} SameSteps<V>(ups: Upcasters<V>, others: Upcasters<V>, lo: int, hi: int, values: Values<V>)
    requires lo <= hi
    requires forall k | lo <= k < hi :: (k in ups <==> k in others) && (k in ups ==> ups[k] == others[k])
    ensures Compose(ups, lo, hi, values) == Compose(others, lo, hi, values)
    decreases hi - lo
  {
    if lo < hi {
      SameSteps(ups, others, lo, hi - 1, values);
    }
  }

  lemma {:induction false} ComposeSplits<V>(ups: Upcasters<V>, lo: int, mid: int, hi: int, values: Values<V>)
    requires lo <= mid <= hi
    ensures Compose(ups, lo, hi, values)
         == match Compose(ups, lo, mid, values) case None => None case Some(x) => Compose(ups, mid, hi, x)
    decreases hi - mid
  {
    if mid < hi {
      ComposeSplits(ups, lo, mid, hi - 1, values);
    }
  }

  ghost predicate NeverRaise<V(!new)>(ups: Upcasters<V>) {
    forall k, x | k in ups :: ups[k](x).Some?
  }

  /**
    With upcasters that do not raise, a message loads exactly when it is not from the future and no step is
    missing.
   */
  lemma UpcastSucceedsIff<V(!new)>(ups: Upcasters<V>, target: int, values: Values<V>, v: int)
    requires NeverRaise(ups) && IsAt(values, v)
    ensures Upcasted(ups, target, values).Some? <==> v <= target && forall k | v <= k < target :: k in ups
  {
    if v <= target {
      ComposeDefinedIff(ups, v, target, values);
    }
  }

  lemma {:induction false} ComposeDefinedIff<V(!new)>(ups: Upcasters<V>, lo: int, hi: int, values: Values<V>)
    requires NeverRaise(ups) && lo <= hi
    ensures Compose(ups, lo, hi, values).Some? <==> forall k | lo <= k < hi :: k in ups
    decreases hi - lo
  {
    if lo < hi {
      ComposeDefinedIff(ups, lo, hi - 1, values);
    }
  }

  /** The steps from a version on. */
  function Later<V>(ups: Upcasters<V>, version: int): set<int> {
    set k | k in ups.Keys && version <= k
  }

  /**
    The loop. It looks for the exact target, so from a version past it only a missing step stops it; that
    always happens, since there are finitely many.
   */
  method Upcast<V>(ups: Upcasters<V>, target: int, values: Values<V>) returns (result: Option<Values<V>>)
    ensures result == Upcasted(ups, target, values)
  {
    var version := StartVersion(values);
    var current := values;
    while version != target
      invariant StartVersion(values) <= version
      invariant StartVersion(values) <= target ==>
                  version <= target && Compose(ups, StartVersion(values), version, values) == Some(current)
      invariant target < StartVersion(values) ==> target < version
      decreases Later(ups, version)
    {
      if version !in ups {
        MissingStep(ups, version, target, current);
        if version < target {
          ComposeSplits(ups, StartVersion(values), version, target, values);
        }
        return None;
      }
      var next := ups[version](current);
      if next.None? {
        MissingStep(ups, version, target, current);
        if version < target {
          ComposeSplits(ups, StartVersion(values), version, target, values);
        }
        return None;
      }
      assert version in Later(ups, version) && version !in Later(ups, version + 1);
      current := next.value;
      version := version + 1;
    }
    return if StartVersion(values) <= target then Some(current) else None;
  }

  /** Nothing comes of a composition whose first step is missing or raises. */
  lemma {:induction false} MissingStep<V>(ups: Upcasters<V>, lo: int, hi: int, values: Values<V>)
    requires lo !in ups || ups[lo](values).None?
    ensures lo < hi ==> Compose(ups, lo, hi, values).None?
    decreases hi - lo
  {
    if lo < hi - 1 {
      MissingStep(ups, lo, hi - 1, values);
    }
  }

  // ---- the registry ------------------------------------------------------------------------------------------

  datatype Registration<K> = Registration(topic: Topic, cls: K)

  /** The class first registered under a topic. */
  function First<K>(log: seq<Registration<K>>, topic: Topic): Option<K> {
    if log == [] then None
    else if log[0].topic == topic then Some(log[0].cls)
    else First(log[1..], topic)
  }

  /** Later registrations never change what a topic means. */
  lemma {:induction false} FirstStays<K>(log: seq<Registration<K>>, more: seq<Registration<K>>, topic: Topic)
    ensures First(log + more, topic) == if First(log, topic).Some? then First(log, topic) else First(more, topic)
  {
    if log == [] {
      assert log + more == more;
    } else {
      assert (log + more)[1..] == log[1..] + more;
      FirstStays(log[1..], more, topic);
    }
  }

  class DomainMessagesCollection<K(==)> {
    var collection: map<Topic, K>
    ghost var attempts: seq<Registration<K>>  // every registration tried, refused ones too

    ghost predicate Valid()
      reads this
    {
      forall t: Topic :: First(attempts, t) == if t in collection then Some(collection[t]) else None
    }

    constructor ()
      ensures Valid() && attempts == []
    {
      collection, attempts := map[], [];
    }

    method Register(topic: Topic, cls: K) returns (ok: bool)
      requires Valid()
      modifies this
      ensures Valid() && attempts == old(attempts) + [Registration(topic, cls)]
      ensures ok <==> First(old(attempts), topic) in {None, Some(cls)}
      ensures forall t: Topic | First(old(attempts), t).Some? :: First(attempts, t) == First(old(attempts), t)
    {
      ghost var r := [Registration(topic, cls)];
      forall t: Topic
        ensures First(attempts + r, t) == if First(attempts, t).Some? then First(attempts, t) else First(r, t)
      {
        FirstStays(attempts, r, t);
      }
      assert r[1..] == [];
      assert forall t: Topic :: First(r, t) == if t == topic then Some(cls) else None;
      attempts := attempts + r;
      if topic in collection && collection[topic] != cls {
        return false;
      }
      collection := collection[topic := cls];
      return true;
    }

    method GetClass(topic: Topic) returns (cls: Option<K>)
      requires Valid()
      ensures cls == First(attempts, topic)
    {
      return if topic in collection then Some(collection[topic]) else None;
    }
  }

  // ---- rows ----------------------------------------------------------------------------------------------------

  datatype MessageClass<!V> = MessageClass(domain: string, name: string, version: int, upcasters: Upcasters<V>)

  function TopicOf<V>(cls: MessageClass<V>): Topic {
    cls.domain + "." + cls.name
  }

  /** An event object: which class, and what it carries. */
  datatype Event<!V> = Event(
    cls: MessageClass<V>, values: Values<V>, reference: string, entityVersion: int, messageId: string, timestamp: int)

  datatype Row = Row(
    streamId: string, version: int, correlationId: string, domain: string, name: string, state: string, createdAt: int)

  /** to_json and json.loads. */
  datatype Codec<!V> = Codec(dumps: Values<V> -> string, loads: string -> Values<V>)

  function EventToRow<V>(codec: Codec<V>, stream: string, e: Event<V>): Row {
    Row(stream, e.entityVersion, e.messageId, e.cls.domain, e.cls.name, codec.dumps(e.values), e.timestamp)
  }

  /** None is an unknown topic or a failed upcast. */
  function EventFromRow<V>(codec: Codec<V>, classes: Topic -> Option<MessageClass<V>>, row: Row): Option<Event<V>> {
    match classes(row.domain + "." + row.name)
    case None => None
    case Some(cls) =>
      match Upcasted(cls.upcasters, cls.version, codec.loads(row.state))
      case None => None
      case Some(values) => Some(Event(cls, values, row.streamId, row.version, row.correlationId, row.createdAt))
  }

  /**
    A row written by any class of a topic and read under the class the topic has now: identity, position
    and time are kept, the stream's name becomes the reference, and the payload is upcast from its own
    version (1 when it does not say) to the class's.
   */
  lemma RowReadsBack<V>(codec: Codec<V>, classes: Topic -> Option<MessageClass<V>>, stream: string, e: Event<V>,
      now: MessageClass<V>)
    requires codec.loads(codec.dumps(e.values)) == e.values
    requires classes(TopicOf(e.cls)) == Some(now)
    ensures EventFromRow(codec, classes, EventToRow(codec, stream, e))
         == match Upcasted(now.upcasters, now.version, e.values)
            case None => None
            case Some(values) => Some(e.(cls := now, values := values, reference := stream))
  {
  }

  /**
    The row gives the very event back exactly when its stream is named after its reference and its payload is
    at its class's version, or older but left alone by every upcast from there on.
   */
  lemma RowRoundTripsIff<V>(codec: Codec<V>, classes: Topic -> Option<MessageClass<V>>, stream: string, e: Event<V>,
      v: int)
    requires codec.loads(codec.dumps(e.values)) == e.values && IsAt(e.values, v)
    requires classes(TopicOf(e.cls)) == Some(e.cls)
    ensures EventFromRow(codec, classes, EventToRow(codec, stream, e)) == Some(e) <==>
              && stream == e.reference
              && v <= e.cls.version
              && (v < e.cls.version ==> Compose(e.cls.upcasters, v, e.cls.version, e.values) == Some(e.values))
  {
    RowReadsBack(codec, classes, stream, e, e.cls);
  }

  /** So a row of the class's own version 1, in the stream of its reference, gives the very event. */
  lemma VersionOneRoundTrips<V>(codec: Codec<V>, classes: Topic -> Option<MessageClass<V>>, e: Event<V>)
    requires codec.loads(codec.dumps(e.values)) == e.values
    requires classes(TopicOf(e.cls)) == Some(e.cls) && IsAt(e.values, e.cls.version)
    ensures EventFromRow(codec, classes, EventToRow(codec, e.reference, e)) == Some(e)
  {
    RowReadsBack(codec, classes, e.reference, e, e.cls);
  }

  /** An event read under an earlier version of its class, taken to the class's present version. */
  function Brought<V>(e: Option<Event<V>>, now: MessageClass<V>): Option<Event<V>>
    requires e.Some? ==> e.value.cls.version <= now.version
  {
    match e
    case None => None
    case Some(h) =>
      match Compose(now.upcasters, h.cls.version, now.version, h.values)
      case None => None
      case Some(values) => Some(h.(cls := now, values := values))
  }

  /** Reading a version-1 row at version n is reading it at any version between and going on from there. */
  lemma RowReadsInSteps<V>(codec: Codec<V>, past: MessageClass<V>, now: MessageClass<V>, e: Event<V>, v: int,
      between: int)
    requires codec.loads(codec.dumps(e.values)) == e.values && IsAt(e.values, v)
    requires e.cls.domain == now.domain && e.cls.name == now.name && TopicOf(past) == TopicOf(now)
    requires v <= between <= now.version
    requires past.version == between && past.upcasters == now.upcasters
    ensures var row := EventToRow(codec, e.reference, e);
            EventFromRow(codec, t => Some(now), row) == Brought(EventFromRow(codec, t => Some(past), row), now)
  {
    ComposeSplits(now.upcasters, v, between, now.version, e.values);
  }

  /** A row does not record its class's version: an event of version 2 is upcast once more on reading. */
  lemma VersionTwoIsUpcastAgain(codec: Codec<int>, domain: string, name: string)
    requires codec.loads(codec.dumps(Values(None, 10))) == Values(None, 10)
    ensures var step := (x: Values<int>) => Some(Values(x.classVersion, x.body + 1));
            var cls := MessageClass(domain, name, 2, map[1 := step]);
            var e := Event(cls, Values(None, 10), "r", 1, "id", 0);
            EventFromRow(codec, t => Some(cls), EventToRow(codec, "r", e)) == Some(e.(values := Values(None, 11)))
  {
    var step := (x: Values<int>) => Some(Values(x.classVersion, x.body + 1));
    var cls := MessageClass(domain, name, 2, map[1 := step]);
    assert Compose(cls.upcasters, 1, 1, Values(None, 10)) == Some(Values(None, 10));
  }

  // ---- rows read through the registry --------------------------------------------------------------------------

  // Which class, as the registry compares them.
  type ClassId = nat

  /** The class a topic stands for after these registrations. */
  function Registered<V>(log: seq<Registration<ClassId>>, definitions: ClassId -> MessageClass<V>, topic: Topic)
    : Option<MessageClass<V>>
  {
    match First(log, topic) case None => None case Some(id) => Some(definitions(id))
  }

  /** A row that can be read now reads the same whatever is registered later; only an unknown topic can become known. */
  lemma RegistrationsKeepRows<V>(
      codec: Codec<V>, definitions: ClassId -> MessageClass<V>,
      log: seq<Registration<ClassId>>, more: seq<Registration<ClassId>>, row: Row)
    ensures var before := EventFromRow(codec, t => Registered(log, definitions, t), row);
            var after := EventFromRow(codec, t => Registered(log + more, definitions, t), row);
            && (before.Some? ==> after == before)
            && (after != before ==> First(log, row.domain + "." + row.name).None?)
  {
    FirstStays(log, more, row.domain + "." + row.name);
  }

  /** event_from_dict: the lookup, the upcast loop, and what the row itself records. */
  method ReadRow<V>(
      registry: DomainMessagesCollection<ClassId>, codec: Codec<V>, definitions: ClassId -> MessageClass<V>, row: Row)
      returns (e: Option<Event<V>>)
    requires registry.Valid()
    ensures var log := registry.attempts;
            e == EventFromRow(codec, t => Registered(log, definitions, t), row)
  {
    var id := registry.GetClass(row.domain + "." + row.name);
    if id.None? {
      return None;
    }
    var cls := definitions(id.value);
    var values := Upcast(cls.upcasters, cls.version, codec.loads(row.state));
    return match values
      case None => None
      case Some(v) => Some(Event(cls, v, row.streamId, row.version, row.correlationId, row.createdAt));
  }
}
