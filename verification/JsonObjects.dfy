/** The same operations as the source performs them: in place, with loops over the containers' members. */
module JsonObjects {
  import opened Wrappers
  import opened JsonGraph
  import opened JsonStores
  import opened JsonRuns

  lemma {:induction false} PrefixFails(h: Heap, cls: Class, vs: seq<Value>, k: nat, markers: set<Addr>, next: Addr)
    requires Closed(h) && AllInHeap(h, vs) && k <= |vs| && ParseAll(h, cls, vs[..k], markers, next).None?
    ensures ParseAll(h, cls, vs, markers, next).None?
    decreases |vs|
  {
    if k == |vs| {
      assert vs[..k] == vs;
    } else {
      assert vs[..|vs| - 1][..k] == vs[..k];
      PrefixFails(h, cls, vs[..|vs| - 1], k, markers, next);
    }
  }

  function Extended(p: Parsed<seq<Value>>, last: Option<Parsed<Value>>): Option<Parsed<seq<Value>>> {
    match last
    case None => None
    case Some(q) => Some(Parsed(p.out + [q.out], q.markers, p.cells + q.cells, q.next))
  }

  /** A mapping under construction: the first keys with their parsed values. */
  function Partial(items: seq<Item>, outs: seq<Value>): seq<Item>
    requires |outs| <= |items|
  {
    seq(|outs|, k requires 0 <= k < |outs| => Item(items[k].key, outs[k]))
  }

  lemma ParseAllStep(h: Heap, cls: Class, vs: seq<Value>, k: nat, markers: set<Addr>, next: Addr)
    requires Closed(h) && AllInHeap(h, vs) && k < |vs| && ParseAll(h, cls, vs[..k], markers, next).Some?
    ensures var p := ParseAll(h, cls, vs[..k], markers, next).value;
            ParseAll(h, cls, vs[..k + 1], markers, next) == Extended(p, ParseValue(h, cls, vs[k], p.markers, p.next))
  {
    assert vs[..k + 1][..k] == vs[..k];
  }

  lemma PartialGrows(items: seq<Item>, outs: seq<Value>, v: Value)
    requires |outs| < |items|
    ensures Partial(items, outs + [v]) == Partial(items, outs) + [Item(items[|outs|].key, v)]
  {
  }

  lemma FilledStep(cells0: Heap, built: Heap, r: Addr, c: Cell, more: Heap, c': Cell)
    ensures (cells0 + built[r := c] + more)[r := c'] == cells0 + (built + more)[r := c']
  {
  }

  /** A container entered and rebuilt, in the function's terms and in those of the containers at hand. */
  lemma RefIsBuilt(h: Heap, cls: Class, a: Addr, markers: set<Addr>, next: Addr, cells0: Heap, cell: Cell)
    requires Closed(h) && a in h && a !in markers
    requires var p := ParseAll(h, cls, Children(h[a]), markers + {a}, next + 1);
             p.Some? && cell == Rebuild(cls, h[a], p.value.out)
    ensures var p := ParseAll(h, cls, Children(h[a]), markers + {a}, next + 1).value;
            && ParseValue(h, cls, Ref(a), markers, next)
            == Some(Parsed(Ref(next), p.markers, p.cells[next := cell], p.next))
            && (cells0 + p.cells)[next := cell] == cells0 + p.cells[next := cell]
  {
  }

  /** One parse: the markers shared by the whole recursion, and the containers under construction. */
  class Parser {
    const heap: Heap
    const cls: Class
    var markers: set<Addr>
    var cells: Heap
    var next: Addr

    constructor (heap: Heap, cls: Class, markers: set<Addr>, next: Addr)
      ensures this.heap == heap && this.cls == cls
      ensures this.markers == markers && this.cells == map[] && this.next == next
    {
      this.heap, this.cls, this.markers, this.cells, this.next := heap, cls, markers, map[], next;
    }

    /** None is the circular-reference error; on success the fields have moved as the function says. */
    method ParseValue(v: Value) returns (out: Option<Value>)
      requires Closed(heap) && InHeap(heap, v)
      modifies this
      ensures match JsonGraph.ParseValue(heap, cls, v, old(markers), old(next))
              case None => out.None?
              case Some(r) =>
                out == Some(r.out) && markers == r.markers && cells == old(cells) + r.cells && next == r.next
      decreases heap.Keys - markers, 1
    {
      if !v.Ref? {
        return Some(Convert(v));
      }
      match heap[v.addr] {
        case Mapping(_, items) => out := ParseMapping(v.addr);
        case Sequence(_, elems) => out := ParseIterable(v.addr);
      }
    }

    method ParseMapping(a: Addr) returns (out: Option<Value>)
      requires Closed(heap) && a in heap && heap[a].Mapping?
      modifies this
      ensures match JsonGraph.ParseValue(heap, cls, Ref(a), old(markers), old(next))
              case None => out.None?
              case Some(r) =>
                out == Some(r.out) && markers == r.markers && cells == old(cells) + r.cells && next == r.next
      decreases heap.Keys - markers, 0
    {
      if a in markers {
        return None;
      }
      var result := next;
      markers, next := markers + {a}, next + 1;
      var filled := FillMapping(result, heap[a].items);
      if !filled {
        return None;
      }
      assert Children(heap[a]) == ItemValues(heap[a].items);
      return Some(Ref(result));
    }

    /** The result starts empty and receives one key after the other, also while its values are being parsed. */
    method FillMapping(result: Addr, items: seq<Item>) returns (ok: bool)
      requires Closed(heap) && AllInHeap(heap, ItemValues(items)) && result < next
      modifies this
      ensures match ParseAll(heap, cls, ItemValues(items), old(markers), old(next))
              case None => !ok
              case Some(r) =>
                && ok && markers == r.markers && next == r.next
                && cells == old(cells) + r.cells[result := Mapping(cls, Partial(items, r.out))]
      decreases heap.Keys - markers, 3
    {
      ghost var m0, next0, cells0 := markers, next, cells;
      ghost var kids := ItemValues(items);
      var partial: seq<Item> := [];
      cells := cells[result := Mapping(cls, partial)];
      ghost var p: Parsed<seq<Value>> := Parsed([], markers, map[], next);
      assert Partial(items, p.out) == [] && kids[..0] == [];
      for i := 0 to |items|
        invariant m0 <= markers
        invariant ParsedUpTo(kids, i, m0, next0, p) && p.markers == markers && p.next == next && result < next
        invariant partial == Partial(items, p.out)
        invariant cells == cells0 + p.cells[result := Mapping(cls, partial)]
      {
        ghost var cells1, before, partial1 := cells, p, partial;
        var value;
        value, p := ParseNext(items[i].value, kids, i, m0, next0, p);
        if value.None? {
          return false;
        }
        ghost var more: Heap :| cells == cells1 + more && p.cells == before.cells + more;
        PartialGrows(items, before.out, value.value);
        partial := partial + [Item(items[i].key, value.value)];
        cells := cells[result := Mapping(cls, partial)];
        FilledStep(cells0, before.cells, result, Mapping(cls, partial1), more, Mapping(cls, partial));
      }
      assert kids[..|items|] == kids;
      return true;
    }

    /** The first k values have been parsed, with this result. */
    ghost predicate ParsedUpTo(vs: seq<Value>, k: nat, m0: set<Addr>, n0: Addr, p: Parsed<seq<Value>>) {
      && Closed(heap) && AllInHeap(heap, vs) && k <= |vs|
      && ParseAll(heap, cls, vs[..k], m0, n0) == Some(p) && |p.out| == k && n0 <= p.next
    }

    /** Parse the next of a row of values; `p` is what the row has come to so far. */
    method ParseNext(v: Value, ghost vs: seq<Value>, ghost k: nat, ghost m0: set<Addr>, ghost n0: Addr,
        ghost p: Parsed<seq<Value>>)
      returns (value: Option<Value>, ghost p': Parsed<seq<Value>>)
      requires k < |vs| && v == vs[k] && ParsedUpTo(vs, k, m0, n0, p) && p.markers == markers && p.next == next
      modifies this
      ensures value.None? ==> ParseAll(heap, cls, vs, m0, n0).None?
      ensures value.Some? ==>
                && ParsedUpTo(vs, k + 1, m0, n0, p') && p'.markers == markers && p'.next == next
                && old(markers) <= markers && old(next) <= next
                && p'.out == p.out + [value.value]
                && exists more: Heap {:trigger old(cells) + more} ::
                     cells == old(cells) + more && p'.cells == p.cells + more
      decreases heap.Keys - markers, 2
    {
      ParseAllStep(heap, cls, vs, k, m0, n0);
      assert InHeap(heap, vs[k]);
      ghost var q := JsonGraph.ParseValue(heap, cls, v, markers, next);
      value := ParseValue(v);
      if value.None? {
        PrefixFails(heap, cls, vs, k + 1, m0, n0);
        p' := p;
      } else {
        p' := Parsed(p.out + [value.value], markers, p.cells + q.value.cells, next);
      }
    }

    method ParseIterable(a: Addr) returns (out: Option<Value>)
      requires Closed(heap) && a in heap && heap[a].Sequence?
      modifies this
      ensures match JsonGraph.ParseValue(heap, cls, Ref(a), old(markers), old(next))
              case None => out.None?
              case Some(r) =>
                out == Some(r.out) && markers == r.markers && cells == old(cells) + r.cells && next == r.next
      decreases heap.Keys - markers, 0
    {
      if a in markers {
        return None;
      }
      var result := next;
      markers, next := markers + {a}, next + 1;
      var outs := ParseElements(heap[a].elems);
      if outs.None? {
        return None;
      }
      ghost var cells0 := old(cells);
      RefIsBuilt(heap, cls, a, old(markers), old(next), cells0, Sequence(SeqKindFor(cls, heap[a].kind), outs.value));
      cells := cells[result := Sequence(SeqKindFor(cls, heap[a].kind), outs.value)];
      return Some(Ref(result));
    }

    /** The list comprehension over an iterable's elements. */
    method ParseElements(elems: seq<Value>) returns (outs: Option<seq<Value>>)
      requires Closed(heap) && AllInHeap(heap, elems)
      modifies this
      ensures match ParseAll(heap, cls, elems, old(markers), old(next))
              case None => outs.None?
              case Some(r) =>
                outs == Some(r.out) && markers == r.markers && cells == old(cells) + r.cells && next == r.next
      decreases heap.Keys - markers, 3
    {
      ghost var m0, next0, cells0 := markers, next, cells;
      ghost var p: Parsed<seq<Value>> := Parsed([], markers, map[], next);
      var done := [];
      assert elems[..0] == [] && cells0 + p.cells == cells0;
      for i := 0 to |elems|
        invariant m0 <= markers
        invariant ParsedUpTo(elems, i, m0, next0, p) && p.markers == markers && p.next == next && p.out == done
        invariant cells == cells0 + p.cells
      {
        var value;
        value, p := ParseNext(elems[i], elems, i, m0, next0, p);
        if value.None? {
          return None;
        }
        done := done + [value.value];
      }
      assert elems[..|elems|] == elems;
      return Some(done);
    }
  }

  /** A whole parse, with a parser of its own. */
  method ParseWhole(heap: Heap, cls: Class, v: Value, markers: set<Addr>, next: Addr) returns (r: Option<Parsed<Value>>)
    requires Closed(heap) && InHeap(heap, v)
    ensures r == ParseValue(heap, cls, v, markers, next)
  {
    var parser := new Parser(heap, cls, markers, next);
    var out := parser.ParseValue(v);
    if out.None? {
      return None;
    }
    ghost var built := ParseValue(heap, cls, v, markers, next).value.cells;
    assert map[] + built == built;
    return Some(Parsed(out.value, parser.markers, parser.cells, parser.next));
  }

  lemma StoreApplies(m: Memory, self: Addr, key: Key, v: Value)
    requires Sound(m) && Enabled(m, Store(self, key, v))
    ensures Apply(m, Store(self, key, v)) == match SetItem(m, self, key, v) case None => m case Some(m') => m'
    ensures Sound(Apply(m, Store(self, key, v)))
    ensures SetItem(m, self, key, v).Some? <==> ReachedOnce(m.heap, v, {self})
    ensures SetItem(m, self, key, v).None? <==> ParseValue(m.heap, Json, v, {self}, m.next).None?
  {
    ApplyIsSound(m, Store(self, key, v));
    ParseSucceedsIff(m.heap, Json, v, {self}, m.next);
  }

  /** The memory JsonDict objects live in; the garbage of a refused parse is collected at once. */
  class JsonMemory {
    var heap: Heap
    var next: Addr
    ghost var owned: set<Addr>

    ghost function State(): Memory
      reads this
    {
      Memory(heap, owned, next)
    }

    constructor ()
      ensures State() == Start()
    {
      heap, next, owned := map[], 0, {};
    }

    /** JsonDict(obj) or FrozenJsonDict(obj). */
    method New(cls: Class, obj: Addr) returns (self: Option<Addr>)
      requires Sound(State()) && Enabled(State(), Op.New(cls, obj))
      modifies this
      ensures State() == Apply(old(State()), Op.New(cls, obj)) && Sound(State())
      ensures self.Some? <==> ReachedOnce(old(heap), Ref(obj), {})
      ensures self.Some? ==>
                && self.value in owned && self.value !in old(heap)
                && Mirrors(old(heap), cls, Ref(obj), Added(old(State()), State()), Ref(self.value))
    {
      ghost var m := State();
      ParseSucceedsIff(heap, cls, Ref(obj), {}, next);
      var r := ParseWhole(heap, cls, Ref(obj), {}, next);
      if r.None? {
        return None;
      }
      ParsedInMemory(m, cls, Ref(obj), {});
      assert Added(m, Grown(m, r.value)) == r.value.cells;
      heap, next, owned := heap + r.value.cells, r.value.next, owned + r.value.cells.Keys;
      return Some(r.value.out.addr);
    }

    method SetItem(self: Addr, key: Key, v: Value) returns (ok: bool)
      requires Sound(State()) && Enabled(State(), Store(self, key, v))
      modifies this
      ensures State() == Apply(old(State()), Store(self, key, v)) && Sound(State())
      ensures ok == JsonStores.SetItem(old(State()), self, key, v).Some?
      ensures ok <==> ReachedOnce(old(heap), v, {self})
      ensures !ok ==> State() == old(State())
    {
      ghost var m := State();
      StoreApplies(m, self, key, v);
      var r := ParseWhole(heap, Json, v, {self}, next);
      if r.None? {
        return false;
      }
      var items := Put(heap[self].items, key, r.value.out);
      heap, next := (heap + r.value.cells)[self := Mapping(Json, items)], r.value.next;
      owned := owned + r.value.cells.Keys;
      return true;
    }

    /** The value under the key afterwards; None is a refused default. */
    method SetDefault(self: Addr, key: Key, v: Value) returns (found: Option<Value>)
      requires Sound(State()) && Enabled(State(), Op.SetDefault(self, key, v))
      modifies this
      ensures State() == Apply(old(State()), Op.SetDefault(self, key, v)) && Sound(State())
      ensures Get(ItemsOf(old(State()), self), key).Some? ==> found == Get(ItemsOf(old(State()), self), key)
      ensures Get(ItemsOf(old(State()), self), key).None? ==>
                (found.Some? <==> ReachedOnce(old(heap), v, {self}))
      ensures found.Some? ==> found == Get(ItemsOf(State(), self), key)
    {
      found := Get(heap[self].items, key);
      if found.None? {
        ghost var m := State();
        var ok := SetItem(self, key, v);
        if !ok {
          return None;
        }
        StoreCopies(m, self, key, v);
        found := Get(heap[self].items, key);
      }
    }

    /** update with pairs; not ok when a value is refused, and then the pairs before it are stored. */
    method Update(self: Addr, pairs: seq<Item>) returns (ok: bool)
      requires Sound(State()) && Enabled(State(), Op.Update(self, pairs))
      modifies this
      ensures Updated(State(), ok) == StoreAll(old(State()), self, pairs) && Sound(State())
    {
      for i := 0 to |pairs|
        invariant Sound(State()) && Enabled(State(), Op.Update(self, pairs[i..]))
        invariant StoreAll(old(State()), self, pairs) == StoreAll(State(), self, pairs[i..])
      {
        var rest := pairs[i..];
        assert rest[1..] == pairs[i + 1..];
        if JsonStores.SetItem(State(), self, rest[0].key, rest[0].value).Some? {
          StoreLeavesRestEnabled(State(), self, rest);
        }
        assert Usable(State(), rest[0].value);
        var stored := SetItem(self, pairs[i].key, pairs[i].value);
        if !stored {
          return false;
        }
      }
      return true;
    }

    /**
      update with a dict: its items are read while self is written, even when it is self; the outcome is that
      of the pairs it had at the start.
     */
    method UpdateFrom(self: Addr, other: Addr) returns (ok: bool)
      requires Sound(State()) && IsJsonDict(State(), self) && other in heap && heap[other].Mapping?
      modifies this
      ensures Enabled(old(State()), Op.Update(self, old(heap[other].items)))
      ensures Updated(State(), ok) == StoreAll(old(State()), self, old(heap[other].items)) && Sound(State())
    {
      ghost var pairs := heap[other].items;
      ItemsAreUsable(State(), other);
      assert pairs[0..] == pairs;
      var i := 0;
      while i < |heap[other].items|
        invariant Sound(State()) && other in heap && heap[other].Mapping?
        invariant i <= |heap[other].items| == |pairs| && heap[other].items[i..] == pairs[i..]
        invariant Enabled(State(), Op.Update(self, pairs[i..]))
        invariant StoreAll(old(State()), self, pairs) == StoreAll(State(), self, pairs[i..])
      {
        ghost var rest, m := pairs[i..], State();
        var item := heap[other].items[i];
        assert item == heap[other].items[i..][0] == rest[0] && rest[1..] == pairs[i + 1..];
        if JsonStores.SetItem(m, self, item.key, item.value).Some? {
          StoreLeavesRestEnabled(m, self, rest);
          StoreKeepsLaterItems(m, self, item.value, other, i);
          assert heap[other].items[i..][1..] == heap[other].items[i + 1..];
        }
        assert Usable(m, rest[0].value);
        var stored := SetItem(self, item.key, item.value);
        if !stored {
          return false;
        }
        i := i + 1;
      }
      return true;
    }
  }

  lemma {:induction false} PutKeepsLater(items: seq<Item>, i: nat, v: Value)
    requires i < |items|
    ensures var put := Put(items, items[i].key, v); |put| == |items| && put[i + 1..] == items[i + 1..]
  {
    if items[0].key != items[i].key {
      PutKeepsLater(items[1..], i - 1, v);
    }
  }

  /** Storing under a key met at position i of a mapping leaves that mapping's later items alone, be it self or not. */
  lemma StoreKeepsLaterItems(m: Memory, self: Addr, v: Value, other: Addr, i: nat)
    requires Sound(m) && IsJsonDict(m, self) && InHeap(m.heap, v)
    requires other in m.heap && m.heap[other].Mapping? && i < |m.heap[other].items|
    requires SetItem(m, self, m.heap[other].items[i].key, v).Some?
    ensures var m' := SetItem(m, self, m.heap[other].items[i].key, v).value;
            && other in m'.heap && m'.heap[other].Mapping?
            && |m'.heap[other].items| == |m.heap[other].items|
            && m'.heap[other].items[i + 1..] == m.heap[other].items[i + 1..]
  {
    var r := ParseValue(m.heap, Json, v, {self}, m.next).value;
    PutKeepsLater(m.heap[other].items, i, r.out);
  }
}
