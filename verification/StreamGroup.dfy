/**
  One stream with one consumer group, as the server keeps it, and the cursor a consumer walks over it.
  Entries are never deleted or trimmed, and consumer names are unique within the group.
 */
module StreamGroup {
  import opened Wrappers

  // Entry ids in their order; 0 is the id "0", below every entry.
  type Id = nat
  type Name = string

  /** The id a consumer asks for: everything of its own pending after an id ("0" at first), or ">". */
  datatype Cursor = After(id: Id) | New

  // The client library refuses a count below 1; None reads everything.
  type Limit = l: Option<nat> | l.Some? ==> l.value >= 1 witness None

  /** `acked` records what was acknowledged and whose it was; the server itself just drops it from `pending`. */
  datatype Server = Server(entries: seq<Id>, lastDelivered: Id, pending: map<Id, Name>, acked: map<Id, Name>)

  predicate Increasing(xs: seq<Id>) {
    forall i, j | 0 <= i < j < |xs| :: xs[i] < xs[j]
  }

  /** The cursor strategy: after an empty reply ask for new entries, else for own pending past the last id. */
  function Track(reply: seq<Id>): Cursor {
    if reply == [] then New else After(reply[|reply| - 1])
  }

  function Limited(xs: seq<Id>, limit: Limit): seq<Id> {
    match limit
    case None => xs
    case Some(n) => if |xs| <= n then xs else xs[..n]
  }

  /** Entries past `x` that are pending for `c`, oldest first. */
  function History(entries: seq<Id>, pending: map<Id, Name>, c: Name, x: Id): seq<Id> {
    if entries == [] then []
    else
      var last := entries[|entries| - 1];
      History(entries[..|entries| - 1], pending, c, x)
      + (if x < last && last in pending && pending[last] == c then [last] else [])
  }

  function Newer(entries: seq<Id>, x: Id): seq<Id> {
    if entries == [] then []
    else
      var last := entries[|entries| - 1];
      Newer(entries[..|entries| - 1], x) + (if x < last then [last] else [])
  }

  function Assign(pending: map<Id, Name>, ids: seq<Id>, c: Name): map<Id, Name> {
    pending + map id | id in ids :: c
  }

  function Reply(s: Server, c: Name, cursor: Cursor, limit: Limit): seq<Id> {
    match cursor
    case After(x) => Limited(History(s.entries, s.pending, c, x), limit)
    case New => Limited(Newer(s.entries, s.lastDelivered), limit)
  }

  /** XREADGROUP: own history is only read; new entries become pending and move the group forward. */
  function ReadGroup(s: Server, c: Name, cursor: Cursor, limit: Limit): Server {
    var reply := Reply(s, c, cursor, limit);
    if cursor.New? && reply != [] then
      s.(lastDelivered := reply[|reply| - 1], pending := Assign(s.pending, reply, c))
    else s
  }

  /** XACK. */
  function Ack(s: Server, id: Id): Server {
    if id in s.pending then s.(pending := s.pending - {id}, acked := s.acked[id := s.pending[id]]) else s
  }

  function Publish(s: Server, id: Id): Server {
    if 0 < id && (s.entries == [] || s.entries[|s.entries| - 1] < id) then s.(entries := s.entries + [id]) else s
  }

  // ---- facts about replies ---------------------------------------------------------------------------

  predicate Owns(s: Server, c: Name, id: Id) {
    id in s.pending && s.pending[id] == c
  }

  /** Pending for c, or acknowledged while it was. */
  predicate Holds(s: Server, c: Name, id: Id) {
    Owns(s, c, id) || (id in s.acked && s.acked[id] == c)
  }

  /** The server's own consistency: what was handed out is exactly acked or pending, never both. */
  ghost predicate Consistent(s: Server, start: Id) {
    && Increasing(s.entries) && start <= s.lastDelivered
    && (s.lastDelivered == start || s.lastDelivered in s.entries)
    && (forall id: Id :: (id in s.acked || id in s.pending) <==> (id in s.entries && start < id <= s.lastDelivered))
    && s.acked.Keys !! s.pending.Keys
  }

  lemma {:induction false} HistorySelects(entries: seq<Id>, pending: map<Id, Name>, c: Name, x: Id)
    requires Increasing(entries)
    ensures var h := History(entries, pending, c, x);
            && Increasing(h)
            && (forall id: Id :: id in h <==> id in entries && x < id && id in pending && pending[id] == c)
  {
    if entries != [] {
      var n := |entries| - 1;
      HistorySelects(entries[..n], pending, c, x);
      assert entries == entries[..n] + [entries[n]];
      var h := History(entries[..n], pending, c, x);
      forall i | 0 <= i < |h| ensures h[i] < entries[n] {
        assert h[i] in h;
        assert h[i] in entries[..n];
      }
    }
  }

  lemma {:induction false} NewerSelects(entries: seq<Id>, x: Id)
    requires Increasing(entries)
    ensures var h := Newer(entries, x);
            && Increasing(h)
            && (forall id: Id :: id in h <==> id in entries && x < id)
  {
    if entries != [] {
      var n := |entries| - 1;
      NewerSelects(entries[..n], x);
      assert entries == entries[..n] + [entries[n]];
      var h := Newer(entries[..n], x);
      forall i | 0 <= i < |h| ensures h[i] < entries[n] {
        assert h[i] in h;
        assert h[i] in entries[..n];
      }
    }
  }

  lemma HasMember(xs: seq<Id>)
    ensures xs == [] || exists id :: id in xs
  {
    if xs != [] {
      assert xs[0] in xs;
    }
  }

  /** Two increasing sequences with the same members are the same. */
  lemma {:induction false} IncreasingUnique(xs: seq<Id>, ys: seq<Id>)
    requires Increasing(xs) && Increasing(ys)
    requires forall id: Id :: id in xs <==> id in ys
    ensures xs == ys
    decreases |xs|
  {
    HasMember(ys);
    if xs == [] {
    } else {
      var n, m := |xs| - 1, |ys| - 1;
      assert xs[n] in ys;
      assert ys[m] in xs;
      assert xs[n] == ys[m];
      forall id: Id ensures id in xs[..n] <==> id in ys[..m] {
        if id in xs[..n] { assert id in xs && id != xs[n]; assert id in ys; }
        if id in ys[..m] { assert id in ys && id != ys[m]; assert id in xs; }
      }
      IncreasingUnique(xs[..n], ys[..m]);
    }
  }

  /** What a reply is: the oldest of what was asked for, in order, as many as the limit allows. */
  lemma ReplySelects(s: Server, c: Name, cursor: Cursor, limit: Limit)
    requires Increasing(s.entries)
    ensures var reply := Reply(s, c, cursor, limit);
            && Increasing(reply)
            && (limit.Some? ==> |reply| <= limit.value)
            && (forall id: Id | id in reply :: id in s.entries)
            && (cursor.New? ==> forall id: Id | id in reply :: s.lastDelivered < id)
            && (cursor.After? ==> forall id: Id | id in reply :: cursor.id < id && Owns(s, c, id))
  {
    match cursor
    case After(x) => HistorySelects(s.entries, s.pending, c, x);
    case New => NewerSelects(s.entries, s.lastDelivered);
  }

  /** A reply skips nothing: whatever was asked for and lies below its last id is in it. */
  lemma ReplySkipsNothing(s: Server, c: Name, cursor: Cursor, limit: Limit, id: Id)
    requires Increasing(s.entries) && id in s.entries
    requires match cursor case After(x) => x < id && Owns(s, c, id) case New => s.lastDelivered < id
    ensures var reply := Reply(s, c, cursor, limit);
            reply != [] && (id <= reply[|reply| - 1] ==> id in reply)
  {
    HistorySelects(s.entries, s.pending, c, if cursor.After? then cursor.id else 0);
    NewerSelects(s.entries, s.lastDelivered);
    var all := if cursor.After? then History(s.entries, s.pending, c, cursor.id) else Newer(s.entries, s.lastDelivered);
    assert id in all;
    var i :| 0 <= i < |all| && all[i] == id;
    var reply := Reply(s, c, cursor, limit);
    if i < |reply| { assert reply[i] == id; }
  }

  /** What follows position n - 1 of an increasing sequence is what lies past its value. */
  lemma TailIsPast(xs: seq<Id>, n: nat)
    requires Increasing(xs) && 0 < n <= |xs|
    ensures Increasing(xs[n..])
    ensures forall id: Id :: id in xs[n..] <==> id in xs && xs[n - 1] < id
  {
    forall id: Id ensures id in xs[n..] <==> id in xs && xs[n - 1] < id {
      if id in xs[n..] {
        var i :| 0 <= i < |xs[n..]| && xs[n..][i] == id;
        assert xs[n + i] == id;
      }
      if id in xs && xs[n - 1] < id {
        var i :| 0 <= i < |xs| && xs[i] == id;
        assert xs[n..][i - n] == id;
      }
    }
  }

  /** Own history past the id at position k - 1 of it is what follows there. */
  lemma HistoryPast(entries: seq<Id>, pending: map<Id, Name>, c: Name, x: Id, k: nat)
    requires Increasing(entries) && 0 < k <= |History(entries, pending, c, x)|
    ensures var all := History(entries, pending, c, x);
            History(entries, pending, c, all[k - 1]) == all[k..]
  {
    var all := History(entries, pending, c, x);
    var y := all[k - 1];
    HistorySelects(entries, pending, c, x);
    HistorySelects(entries, pending, c, y);
    TailIsPast(all, k);
    assert y in all;
    forall id: Id ensures id in History(entries, pending, c, y) <==> id in all[k..] {
      assert id in all[k..] <==> id in all && y < id;
    }
    IncreasingUnique(History(entries, pending, c, y), all[k..]);
  }

  /** Reading own history from the last id replied gives exactly what that reply left out. */
  lemma HistoryContinues(s: Server, c: Name, x: Id, limit: Limit)
    requires Increasing(s.entries)
    requires Reply(s, c, After(x), limit) != []
    ensures var reply := Reply(s, c, After(x), limit);
            var all := History(s.entries, s.pending, c, x);
            History(s.entries, s.pending, c, reply[|reply| - 1]) == all[|reply|..]
  {
    HistoryPast(s.entries, s.pending, c, x, |Reply(s, c, After(x), limit)|);
  }

  /** Fewer pending entries, or later entries of others, never lengthen a consumer's history. */
  lemma {:induction false} HistoryShrinks(entries: seq<Id>, pending: map<Id, Name>,
      more: seq<Id>, pending': map<Id, Name>, c: Name, x: Id)
    requires forall id: Id | id in pending' && pending'[id] == c :: id in pending && pending[id] == c && id in entries
    requires Increasing(entries + more)
    ensures |History(entries + more, pending', c, x)| <= |History(entries, pending, c, x)|
    decreases |entries| + |more|
  {
    if more != [] {
      var n := |more| - 1;
      assert (entries + more)[..|entries| + n] == entries + more[..n];
      assert (entries + more)[|entries| + n] == more[n];
      assert forall id: Id | id in entries :: id < more[n] by {
        forall id: Id | id in entries ensures id < more[n] {
          var i :| 0 <= i < |entries| && entries[i] == id;
          assert (entries + more)[i] < (entries + more)[|entries| + n];
        }
      }
      HistoryShrinks(entries, pending, more[..n], pending', c, x);
    } else {
      assert entries + more == entries;
      HistoryShrinksInPlace(entries, pending, pending', c, x);
    }
  }

  lemma {:induction false} HistoryShrinksInPlace(entries: seq<Id>, pending: map<Id, Name>, pending': map<Id, Name>,
      c: Name, x: Id)
    requires forall id: Id | id in entries && id in pending' && pending'[id] == c :: id in pending && pending[id] == c
    ensures |History(entries, pending', c, x)| <= |History(entries, pending, c, x)|
  {
    if entries != [] {
      HistoryShrinksInPlace(entries[..|entries| - 1], pending, pending', c, x);
    }
  }

  // ---- how many reads a backlog takes -------------------------------------------------------------------

  /** Reads of at most n that a backlog of p takes; one for any backlog without a limit. */
  function Rounds(p: nat, limit: Limit): nat {
    if p == 0 then 0
    else match limit
      case None => 1
      case Some(n) => 1 + Rounds(if p <= n then 0 else p - n, limit)
  }

  /** That is p / n rounded up: so many reads of n suffice, and one fewer would not. */
  lemma {:induction false} RoundsIsCeiling(p: nat, n: nat)
    requires n >= 1
    ensures var r := Rounds(p, Some(n));
            p <= r * n && (p > 0 ==> (r - 1) * n < p)
  {
    if p > n {
      RoundsIsCeiling(p - n, n);
      var r := Rounds(p - n, Some(n));
      assert (r + 1) * n == r * n + n;
      assert (r - 1) * n + n == r * n;
    }
  }

  lemma {:induction false} RoundsMonotone(p: nat, q: nat, limit: Limit)
    requires p <= q
    ensures Rounds(p, limit) <= Rounds(q, limit)
    decreases p
  {
    if limit.Some? && p > limit.value {
      RoundsMonotone(p - limit.value, q - limit.value, limit);
    }
  }
}
