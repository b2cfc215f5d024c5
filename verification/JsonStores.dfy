/**
  JsonDict objects in memory, beside the program's own containers: building them from mappings and storing
  into them.
 */
module JsonStores {
  import opened Wrappers
  import opened JsonGraph
  import opened JsonNormal

  /** All containers, which of them JsonDict built, and the next identity. */
  datatype Memory = Memory(heap: Heap, owned: set<Addr>, next: Addr)

  /** dict.__setitem__: replace in place, or append. */
  function Put(items: seq<Item>, key: Key, v: Value): seq<Item> {
    if items == [] then [Item(key, v)]
    else if items[0].key == key then [Item(key, v)] + items[1..]
    else [items[0]] + Put(items[1..], key, v)
  }

  function Get(items: seq<Item>, key: Key): Option<Value> {
    if items == [] then None
    else if items[0].key == key then Some(items[0].value)
    else Get(items[1..], key)
  }

  predicate IsJsonDict(m: Memory, self: Addr) {
    self in m.owned && self in m.heap && m.heap[self].Mapping? && m.heap[self].cls.Json?
  }

  function ItemsOf(m: Memory, a: Addr): seq<Item> {
    if a in m.heap && m.heap[a].Mapping? then m.heap[a].items else []
  }

  /** JsonDict(obj) or FrozenJsonDict(obj); None is the circular-reference error. */
  function Construct(m: Memory, cls: Class, obj: Addr): Option<Memory>
    requires Closed(m.heap) && obj in m.heap
  {
    match ParseValue(m.heap, cls, Ref(obj), {}, m.next)
    case None => None
    case Some(r) => Some(Grown(m, r))
  }

  /** The memory with what a parse has built. */
  function Grown<T>(m: Memory, r: Parsed<T>): Memory {
    Memory(m.heap + r.cells, m.owned + r.cells.Keys, r.next)
  }

  function Stored(m: Memory, self: Addr, key: Key, out: Value): Memory {
    m.(heap := m.heap[self := Mapping(Json, Put(ItemsOf(m, self), key, out))])
  }

  /** self[key] = v; the markers start with self, so a value that leads back to it is refused. */
  function SetItem(m: Memory, self: Addr, key: Key, v: Value): Option<Memory>
    requires Closed(m.heap) && InHeap(m.heap, v)
  {
    match ParseValue(m.heap, Json, v, {self}, m.next)
    case None => None
    case Some(r) => Some(Stored(Grown(m, r), self, key, r.out))
  }

  // ---- nothing dangles ----------------------------------------------------------------------------------

  /** Every container mentioned is known, also inside enum members. */
  predicate Present(known: set<Addr>, v: Value) {
    match v
    case Ref(a) => a in known
    case EnumMember(w) => Present(known, w)
    case _ => true
  }

  predicate RowPresent(known: set<Addr>, vs: seq<Value>) {
    forall i | 0 <= i < |vs| :: Present(known, vs[i])
  }

  predicate HeapPresent(known: set<Addr>, h: Heap) {
    forall a | a in h :: RowPresent(known, Children(h[a]))
  }

  /** What holds of the memory of any program, whatever it stored where. */
  predicate Sound(m: Memory) {
    && Closed(m.heap) && HeapBelow(m.heap, m.next) && HeapPresent(m.heap.Keys, m.heap)
    && (forall a | a in m.owned :: a in m.heap)
  }

  lemma PresentGrows(known: set<Addr>, more: set<Addr>, v: Value)
    requires Present(known, v) && known <= more
    ensures Present(more, v)
  {
  }

  lemma HeapPresentGrows(known: set<Addr>, more: set<Addr>, h: Heap)
    requires HeapPresent(known, h) && known <= more
    ensures HeapPresent(more, h)
  {
    forall a, i | a in h && 0 <= i < |Children(h[a])| ensures Present(more, Children(h[a])[i]) {
      assert RowPresent(known, Children(h[a]));
      PresentGrows(known, more, Children(h[a])[i]);
    }
  }

  lemma PresentIsBelow(m: Memory, v: Value)
    requires Sound(m) && Present(m.heap.Keys, v)
    ensures InHeap(m.heap, v) && ValueBelow(v, m.next)
  {
  }

  lemma PresentRowIsBelow(m: Memory, vs: seq<Value>)
    requires Sound(m) && RowPresent(m.heap.Keys, vs)
    ensures AllInHeap(m.heap, vs) && RowBelow(vs, m.next)
  {
    forall i | 0 <= i < |vs| ensures InHeap(m.heap, vs[i]) && ValueBelow(vs[i], m.next) {
      PresentIsBelow(m, vs[i]);
    }
  }

  /** What parsing builds mentions only what it built and what there was. */
  lemma {:induction false} ParsedIsPresent(h: Heap, cls: Class, v: Value, markers: set<Addr>, next: Addr)
    requires Closed(h) && HeapPresent(h.Keys, h) && InHeap(h, v) && Present(h.Keys, v)
    requires ParseValue(h, cls, v, markers, next).Some?
    ensures var r := ParseValue(h, cls, v, markers, next).value;
            var known := h.Keys + r.cells.Keys;
            HeapPresent(known, r.cells) && Present(known, r.out)
    decreases h.Keys - markers, 0
  {
    var r := ParseValue(h, cls, v, markers, next).value;
    var known := h.Keys + r.cells.Keys;
    if v.Ref? {
      var p := ParseAll(h, cls, Children(h[v.addr]), markers + {v.addr}, next + 1).value;
      ParsedRowIsPresent(h, cls, Children(h[v.addr]), markers + {v.addr}, next + 1);
      HeapPresentGrows(h.Keys + p.cells.Keys, known, p.cells);
      RowPresentGrows(h.Keys + p.cells.Keys, known, p.out);
    } else {
      PresentGrows(h.Keys, known, Convert(v));
    }
  }

  lemma RowPresentGrows(known: set<Addr>, more: set<Addr>, vs: seq<Value>)
    requires RowPresent(known, vs) && known <= more
    ensures RowPresent(more, vs)
  {
    forall i | 0 <= i < |vs| ensures Present(more, vs[i]) {
      PresentGrows(known, more, vs[i]);
    }
  }

  lemma {:induction false} ParsedRowIsPresent(h: Heap, cls: Class, vs: seq<Value>, markers: set<Addr>, next: Addr)
    requires Closed(h) && HeapPresent(h.Keys, h) && AllInHeap(h, vs) && RowPresent(h.Keys, vs)
    requires ParseAll(h, cls, vs, markers, next).Some?
    ensures var r := ParseAll(h, cls, vs, markers, next).value;
            var known := h.Keys + r.cells.Keys;
            HeapPresent(known, r.cells) && RowPresent(known, r.out)
    decreases h.Keys - markers, 1 + |vs|
  {
    if vs != [] {
      var n := |vs| - 1;
      var p := ParseAll(h, cls, vs[..n], markers, next).value;
      var q := ParseValue(h, cls, vs[n], p.markers, p.next).value;
      ParsedRowIsPresent(h, cls, vs[..n], markers, next);
      ParsedIsPresent(h, cls, vs[n], p.markers, p.next);
      var known := h.Keys + (p.cells + q.cells).Keys;
      HeapPresentGrows(h.Keys + p.cells.Keys, known, p.cells);
      HeapPresentGrows(h.Keys + q.cells.Keys, known, q.cells);
      RowPresentGrows(h.Keys + p.cells.Keys, known, p.out);
      PresentGrows(h.Keys + q.cells.Keys, known, q.out);
    }
  }

  /** What a parse in a sound memory gives. */
  lemma ParsedInMemory(m: Memory, cls: Class, v: Value, markers: set<Addr>)
    requires Sound(m) && Present(m.heap.Keys, v) && InHeap(m.heap, v)
    requires ParseValue(m.heap, cls, v, markers, m.next).Some?
    ensures var r := ParseValue(m.heap, cls, v, markers, m.next).value;
            && BuiltRow(m.next, r.cells, [r.out], m.next, r.next)
            && (v.Ref? ==> r.out == Ref(m.next)) && (r.out.Ref? ==> r.out.addr in r.cells || r.out.addr < m.next)
            && (EnumsHoldNoContainer(m.heap, v) ==> OwnsAll(r.cells, [r.out]))
            && Mirrors(m.heap, cls, v, r.cells, r.out)
            && Present(Grown(m, r).heap.Keys, r.out) && Sound(Grown(m, r))
  {
    var r := ParseValue(m.heap, cls, v, markers, m.next).value;
    PresentIsBelow(m, v);
    ValueIsBuilt(m.next, m.heap, cls, v, markers, m.next);
    ValueMirrors(m.next, m.heap, cls, v, markers, m.next);
    ParsedIsPresent(m.heap, cls, v, markers, m.next);
    assert [r.out][0] == r.out;
    GrownIsSound(m, r);
  }

  lemma GrownIsSound(m: Memory, r: Parsed<Value>)
    requires Sound(m) && BuiltRow(m.next, r.cells, [r.out], m.next, r.next)
    requires HeapPresent(m.heap.Keys + r.cells.Keys, r.cells)
    ensures Sound(Grown(m, r))
  {
    var m' := Grown(m, r);
    assert m'.heap.Keys == m.heap.Keys + r.cells.Keys;
    HeapPresentGrows(m.heap.Keys, m'.heap.Keys, m.heap);
    forall a | a in m'.heap
      ensures a < r.next && AllInHeap(m'.heap, Children(m'.heap[a])) && RowBelow(Children(m'.heap[a]), r.next)
      ensures RowPresent(m'.heap.Keys, Children(m'.heap[a]))
    {
      if a !in r.cells {
        RowBelowGrows(Children(m.heap[a]), m.next, r.next);
      }
      assert RowPresent(m'.heap.Keys, Children(m'.heap[a]));
    }
  }

  // ---- one store ------------------------------------------------------------------------------------------

  /** The position at which a value is put under the key: the key's own, or the end. */
  function Place(items: seq<Item>, key: Key): (k: nat)
    ensures k <= |items|
  {
    if items == [] || items[0].key == key then 0 else 1 + Place(items[1..], key)
  }

  /** Putting changes one position or adds one at the end. */
  lemma {:induction false} PutPlaces(items: seq<Item>, key: Key, v: Value)
    ensures var k := Place(items, key);
            ItemValues(Put(items, key, v)) == if k < |items| then ItemValues(items)[k := v] else ItemValues(items) + [v]
  {
    if items != [] && items[0].key != key {
      PutPlaces(items[1..], key, v);
      ItemValuesCons(items[0], items[1..]);
      ItemValuesCons(items[0], Put(items[1..], key, v));
      assert items == [items[0]] + items[1..];
    }
  }

  lemma ItemValuesCons(item: Item, items: seq<Item>)
    ensures ItemValues([item] + items) == [item.value] + ItemValues(items)
  {
  }

  /** The key then has the value, and every other key what it had. */
  lemma {:induction false} PutThenGet(items: seq<Item>, key: Key, v: Value)
    ensures Get(Put(items, key, v), key) == Some(v)
    ensures forall other: Key | other != key :: Get(Put(items, key, v), other) == Get(items, other)
  {
    if items != [] && items[0].key != key {
      PutThenGet(items[1..], key, v);
    }
  }

  /** After a store the dict holds the value at the key's place, and elsewhere what it held. */
  lemma StoredHolds(m: Memory, self: Addr, key: Key, out: Value)
    requires IsJsonDict(m, self)
    ensures var k := Place(ItemsOf(m, self), key);
            forall a: Addr, i: nat, x: Addr :: Holds(Stored(m, self, key, out).heap, a, i, x) <==>
              if a == self && i == k then out == Ref(x) else Holds(m.heap, a, i, x)
  {
    PutPlaces(ItemsOf(m, self), key, out);
    var kids, k := Children(m.heap[self]), Place(ItemsOf(m, self), key);
    assert Children(Stored(m, self, key, out).heap[self]) == if k < |kids| then kids[k := out] else kids + [out];
  }

  lemma StoredIsSound(m: Memory, self: Addr, key: Key, out: Value)
    requires Sound(m) && IsJsonDict(m, self) && Present(m.heap.Keys, out)
    ensures Sound(Stored(m, self, key, out))
  {
    var m' := Stored(m, self, key, out);
    assert m'.heap.Keys == m.heap.Keys;
    PutPlaces(ItemsOf(m, self), key, out);
    var kids, k := Children(m.heap[self]), Place(ItemsOf(m, self), key);
    var kids' := Children(m'.heap[self]);
    assert kids' == if k < |kids| then kids[k := out] else kids + [out];
    assert RowPresent(m.heap.Keys, kids);
    assert RowPresent(m.heap.Keys, kids');
    PresentRowIsBelow(m, kids');
    forall a | a in m'.heap
      ensures RowPresent(m'.heap.Keys, Children(m'.heap[a])) && AllInHeap(m'.heap, Children(m'.heap[a]))
    {
      assert a != self ==> RowPresent(m.heap.Keys, Children(m.heap[a]));
    }
  }

  lemma SetItemIsSound(m: Memory, self: Addr, key: Key, v: Value)
    requires Sound(m) && IsJsonDict(m, self) && InHeap(m.heap, v) && Present(m.heap.Keys, v)
    requires SetItem(m, self, key, v).Some?
    ensures var m' := SetItem(m, self, key, v).value;
            Sound(m') && IsJsonDict(m', self) && m.heap.Keys <= m'.heap.Keys
  {
    ParsedInMemory(m, Json, v, {self});
    var r := ParseValue(m.heap, Json, v, {self}, m.next).value;
    StoredIsSound(Grown(m, r), self, key, r.out);
  }

  /** The containers there are now and were not before. */
  function Added(m: Memory, m': Memory): Heap {
    m'.heap - m.heap.Keys
  }

  /** Nothing reached from the value existed before, and JsonDict built all of it. */
  ghost predicate SharesNothing(m: Memory, m': Memory, out: Value) {
    forall p: Path, a | Reaches(m'.heap, out, p, a) :: a !in m.heap && a in m'.owned
  }

  /**
    A store is refused exactly when the value leads to a container twice or back to the dict itself.
    Otherwise the dict's other keys and every container that existed are as before, and what lies under the
    key mirrors the value. It shares nothing with what existed exactly when no enum member reached holds a
    container, and is in normal form when they hold plain scalars.
   */
  lemma StoreCopies(m: Memory, self: Addr, key: Key, v: Value)
    requires Sound(m) && IsJsonDict(m, self) && InHeap(m.heap, v) && Present(m.heap.Keys, v)
    ensures SetItem(m, self, key, v).Some? <==> ReachedOnce(m.heap, v, {self})
    ensures SetItem(m, self, key, v).Some? ==>
              var m' := SetItem(m, self, key, v).value;
              && (forall a | a in m.heap && a != self :: a in m'.heap && m'.heap[a] == m.heap[a])
              && (forall k: Key | k != key :: Get(ItemsOf(m', self), k) == Get(ItemsOf(m, self), k))
              && Get(ItemsOf(m', self), key).Some?
              && CopiedIn(m, v, m', Get(ItemsOf(m', self), key).value)
  {
    ParseSucceedsIff(m.heap, Json, v, {self}, m.next);
    if SetItem(m, self, key, v).Some? {
      var r := ParseValue(m.heap, Json, v, {self}, m.next).value;
      PutThenGet(ItemsOf(m, self), key, r.out);
      StoredCopy(m, self, key, v);
    }
  }

  /** What lies under the key after a store, next to the value stored. */
  ghost predicate CopiedIn(m: Memory, v: Value, m': Memory, out: Value) {
    && Mirrors(m.heap, Json, v, Added(m, m'), out)
    && (SharesNothing(m, m', out) <==> EnumsHoldNoContainer(m.heap, v))
    && (EnumsHoldNoContainer(m.heap, v) ==> Mirrors(m.heap, Json, v, m'.heap, out))
    && (EnumsArePlain(m.heap, v) ==> Normal(Json, m'.heap, out))
  }

  lemma StoredCopy(m: Memory, self: Addr, key: Key, v: Value)
    requires Sound(m) && IsJsonDict(m, self) && InHeap(m.heap, v) && Present(m.heap.Keys, v)
    requires SetItem(m, self, key, v).Some?
    ensures var r := ParseValue(m.heap, Json, v, {self}, m.next).value;
            CopiedIn(m, v, SetItem(m, self, key, v).value, r.out)
  {
    ParsedInMemory(m, Json, v, {self});
    var r := ParseValue(m.heap, Json, v, {self}, m.next).value;
    var m' := SetItem(m, self, key, v).value;
    assert Added(m, m') == r.cells;
    CopyOrStray(m, v, r, m');
  }

  lemma CopyOrStray(m: Memory, v: Value, r: Parsed<Value>, m': Memory)
    requires Sound(m) && Present(m.heap.Keys, v) && Mirrors(m.heap, Json, v, r.cells, r.out)
    requires EnumsHoldNoContainer(m.heap, v) ==> OwnsAll(r.cells, [r.out])
    requires Added(m, m') == r.cells && r.cells.Keys <= m'.owned
    ensures CopiedIn(m, v, m', r.out)
  {
    if EnumsHoldNoContainer(m.heap, v) {
      CopySharesNothing(m, v, r, m');
    } else {
      StrayIsShared(m, v, r, m');
    }
  }

  lemma StrayIsShared(m: Memory, v: Value, r: Parsed<Value>, m': Memory)
    requires Sound(m) && Present(m.heap.Keys, v) && Mirrors(m.heap, Json, v, r.cells, r.out)
    requires Added(m, m') == r.cells && !EnumsHoldNoContainer(m.heap, v)
    ensures !SharesNothing(m, m', r.out) && !EnumsArePlain(m.heap, v)
  {
    var p, w := StrayIsReached(m.heap, Json, v, r.cells, r.out, m'.heap);
    PresentLeaf(m, v, p, w);
    assert Reaches(m'.heap, r.out, p, w.addr);
  }

  /** Where the enum members reached hold no container, the copy stands alone, in any memory with its containers. */
  lemma CopySharesNothing(m: Memory, v: Value, r: Parsed<Value>, m': Memory)
    requires OwnsAll(r.cells, [r.out]) && Mirrors(m.heap, Json, v, r.cells, r.out)
    requires forall a | a in r.cells :: a !in m.heap && a in m'.owned && a in m'.heap && m'.heap[a] == r.cells[a]
    ensures SharesNothing(m, m', r.out) && Mirrors(m.heap, Json, v, m'.heap, r.out)
    ensures EnumsArePlain(m.heap, v) ==> Normal(Json, m'.heap, r.out)
  {
    assert [r.out][0] == r.out;
    assert Extends(r.cells, m'.heap);
    MirrorsFrame(m.heap, Json, v, r.cells, m'.heap, r.out);
    forall p: Path, a | Reaches(m'.heap, r.out, p, a) ensures a !in m.heap && a in m'.owned {
      ResolveFrame(r.cells, m'.heap, r.out, p);
      StaysInside(r.cells, r.out, p, a);
    }
    forall p: Path | EnumsArePlain(m.heap, v) && Resolve(m'.heap, r.out, p).Some?
      ensures NormalValue(Json, m'.heap, Resolve(m'.heap, r.out, p).value)
    {
      assert ImageAt(m.heap, Json, v, m'.heap, r.out, p);
    }
  }

  /** An enum member that holds a container: the copy has that very container in its place. */
  lemma StrayIsReached(h: Heap, cls: Class, v: Value, cells: Heap, out: Value, big: Heap) returns (p: Path, w: Value)
    requires Mirrors(h, cls, v, cells, out) && !EnumsHoldNoContainer(h, v)
    requires forall a | a in cells :: a in big && big[a] == cells[a]
    ensures w.Ref? && Resolve(h, v, p) == Some(EnumMember(w))
    ensures Resolve(cells, out, p) == Some(w) && Resolve(big, out, p) == Some(w)
  {
    p, w :| Resolve(h, v, p) == Some(EnumMember(w)) && w.Ref?;
    assert ImageAt(h, cls, v, cells, out, p);
    ResolveGrows(cells, big, out, p);
  }

  lemma {:induction false} PresentLeaf(m: Memory, v: Value, p: Path, w: Value)
    requires Sound(m) && Present(m.heap.Keys, v) && Resolve(m.heap, v, p) == Some(EnumMember(w))
    ensures Present(m.heap.Keys, w)
    decreases |p|
  {
    if p != [] {
      assert RowPresent(m.heap.Keys, Children(m.heap[v.addr]));
      PresentLeaf(m, Children(m.heap[v.addr])[p[0]], p[1..], w);
    }
  }
}
