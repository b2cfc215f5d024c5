/**
  Normalising a Python object graph into JsonDict containers: a recursive copy that marks every container
  it enters and never unmarks one.
 */
module JsonGraph {
  import opened Wrappers

  // Object identities. New ones are handed out in the order in which containers are entered.
  type Addr = nat

  datatype Scalar = Null | Bool(b: bool) | Number(n: int) | Float(r: real) | Text(s: string)

  // Keys are only ever compared.
  type Key = Scalar

  /** `Opaque` is any other object, with what str() gives for it; an enum member carries its value as is. */
  datatype Value =
    | Plain(scalar: Scalar)
    | Date(iso: string)
    | EnumMember(value: Value)
    | Opaque(text: string)
    | Ref(addr: Addr)

  /** The class being built, or of a mapping; `Foreign` is any other mapping. */
  datatype Class = Json | Frozen | Foreign
  datatype SeqKind = List | Tuple | OtherIterable

  datatype Item = Item(key: Key, value: Value)
  datatype Cell = Mapping(cls: Class, items: seq<Item>) | Sequence(kind: SeqKind, elems: seq<Value>)
  type Heap = map<Addr, Cell>

  function ItemValues(items: seq<Item>): (r: seq<Value>)
    ensures |r| == |items| && forall i | 0 <= i < |r| :: r[i] == items[i].value
  {
    seq(|items|, i requires 0 <= i < |items| => items[i].value)
  }

  function Children(cell: Cell): seq<Value> {
    match cell case Mapping(_, items) => ItemValues(items) case Sequence(_, elems) => elems
  }

  /** Tuples stay tuples; every other iterable becomes the class's default. */
  function SeqKindFor(cls: Class, kind: SeqKind): SeqKind {
    if kind.Tuple? || cls.Frozen? then Tuple else List
  }

  /** The container built for `cell` from its parsed children. */
  function Rebuild(cls: Class, cell: Cell, values: seq<Value>): (r: Cell)
    requires |values| == |Children(cell)|
    ensures Children(r) == values
  {
    match cell
    case Mapping(_, items) =>
      var r := Mapping(cls, seq(|items|, i requires 0 <= i < |items| => Item(items[i].key, values[i])));
      assert Children(r) == values;
      r
    case Sequence(kind, _) => Sequence(SeqKindFor(cls, kind), values)
  }

  predicate InHeap(h: Heap, v: Value) {
    v.Ref? ==> v.addr in h
  }

  predicate AllInHeap(h: Heap, vs: seq<Value>) {
    forall i | 0 <= i < |vs| :: InHeap(h, vs[i])
  }

  /** No dangling reference: every container a container holds exists. */
  predicate Closed(h: Heap) {
    forall a | a in h :: AllInHeap(h, Children(h[a]))
  }

  /** What converting a value that is no container gives. */
  function Convert(v: Value): Value {
    match v
    case Date(iso) => Plain(Text(iso))
    case EnumMember(value) => value
    case Opaque(text) => Plain(Text(text))
    case _ => v
  }

  /** A parsed value or values, the markers after, the containers built, and the next identity. */
  datatype Parsed<+T> = Parsed(out: T, markers: set<Addr>, cells: Heap, next: Addr)

  /** None is the circular-reference error. */
  function ParseValue(h: Heap, cls: Class, v: Value, markers: set<Addr>, next: Addr): (r: Option<Parsed<Value>>)
    requires Closed(h) && InHeap(h, v)
    ensures r.Some? ==> markers <= r.value.markers
    ensures r.Some? ==> next <= r.value.next && forall a | a in r.value.cells :: next <= a < r.value.next
    decreases h.Keys - markers, 0
  {
    if !v.Ref? then Some(Parsed(Convert(v), markers, map[], next))
    else if v.addr in markers then None
    else
      match ParseAll(h, cls, Children(h[v.addr]), markers + {v.addr}, next + 1)
      case None => None
      case Some(p) => Some(Parsed(Ref(next), p.markers, p.cells[next := Rebuild(cls, h[v.addr], p.out)], p.next))
  }

  function ParseAll(h: Heap, cls: Class, vs: seq<Value>, markers: set<Addr>,
      next: Addr): (r: Option<Parsed<seq<Value>>>)
    requires Closed(h) && AllInHeap(h, vs)
    ensures r.Some? ==> markers <= r.value.markers && |r.value.out| == |vs|
    ensures r.Some? ==> next <= r.value.next && forall a | a in r.value.cells :: next <= a < r.value.next
    decreases h.Keys - markers, 1 + |vs|
  {
    if vs == [] then Some(Parsed([], markers, map[], next))
    else
      match ParseAll(h, cls, vs[..|vs| - 1], markers, next)
      case None => None
      case Some(p) =>
        match ParseValue(h, cls, vs[|vs| - 1], p.markers, p.next)
        case None => None
        case Some(q) => Some(Parsed(p.out + [q.out], q.markers, p.cells + q.cells, q.next))
  }

  // ---- paths ---------------------------------------------------------------------------------------

  type Path = seq<nat>

  /** What lies at the end of a path of child positions. The inside of an enum member is not on any path. */
  function Resolve(h: Heap, v: Value, path: Path): Option<Value>
    decreases |path|
  {
    if path == [] then Some(v)
    else if v.Ref? && v.addr in h && path[0] < |Children(h[v.addr])|
    then Resolve(h, Children(h[v.addr])[path[0]], path[1..])
    else None
  }

  predicate Reaches(h: Heap, v: Value, path: Path, a: Addr) {
    Resolve(h, v, path) == Some(Ref(a))
  }

  /** The same for a row of values: the path's first position picks the value. */
  predicate ReachesIn(h: Heap, vs: seq<Value>, path: Path, a: Addr) {
    path != [] && path[0] < |vs| && Reaches(h, vs[path[0]], path[1..], a)
  }

  /** No container is reached by two paths, and none of the forbidden ones at all. */
  ghost predicate ReachedOnce(h: Heap, v: Value, markers: set<Addr>) {
    && (forall p: Path, a | Reaches(h, v, p, a) :: a !in markers)
    && (forall p: Path, q: Path, a | Reaches(h, v, p, a) && Reaches(h, v, q, a) :: p == q)
  }

  ghost predicate AllReachedOnce(h: Heap, vs: seq<Value>, markers: set<Addr>) {
    && (forall p: Path, a | ReachesIn(h, vs, p, a) :: a !in markers)
    && (forall p: Path, q: Path, a | ReachesIn(h, vs, p, a) && ReachesIn(h, vs, q, a) :: p == q)
  }

  // ---- parsing succeeds exactly on trees ------------------------------------------------------------------

  lemma ReachesRef(h: Heap, a: Addr, path: Path, b: Addr)
    requires a in h
    ensures Reaches(h, Ref(a), path, b) <==> (path == [] && a == b) || ReachesIn(h, Children(h[a]), path, b)
  {
  }

  /** What success says: every container was reached once, none was marked, and exactly they are marked now. */
  lemma {:induction false} ParsedValueIsTree(h: Heap, cls: Class, v: Value, markers: set<Addr>, next: Addr)
    requires Closed(h) && InHeap(h, v) && ParseValue(h, cls, v, markers, next).Some?
    ensures ReachedOnce(h, v, markers)
    ensures forall a: Addr :: a in ParseValue(h, cls, v, markers, next).value.markers
                          <==> a in markers || exists p: Path :: Reaches(h, v, p, a)
    decreases h.Keys - markers, 0
  {
    if v.Ref? {
      var a := v.addr;
      var kids := Children(h[a]);
      ParsedAllIsTree(h, cls, kids, markers + {a}, next + 1);
      assert Reaches(h, v, [], a);
      forall p: Path, b: Addr ensures Reaches(h, v, p, b) <==> (p == [] && a == b) || ReachesIn(h, kids, p, b) {
        ReachesRef(h, a, p, b);
      }
    } else {
      forall p: Path, b: Addr ensures !Reaches(h, v, p, b) {}
    }
  }

  lemma ReachesInSnoc(h: Heap, vs: seq<Value>, path: Path, a: Addr)
    requires vs != []
    ensures ReachesIn(h, vs, path, a) <==>
              || ReachesIn(h, vs[..|vs| - 1], path, a)
              || (path != [] && path[0] == |vs| - 1 && Reaches(h, vs[|vs| - 1], path[1..], a))
  {
  }

  ghost predicate Reachable(h: Heap, vs: seq<Value>, a: Addr) {
    exists p: Path :: ReachesIn(h, vs, p, a)
  }

  lemma ReachableSnoc(h: Heap, init: seq<Value>, last: Value, a: Addr)
    ensures Reachable(h, init + [last], a) <==> Reachable(h, init, a) || exists q: Path :: Reaches(h, last, q, a)
  {
    var n, vs := |init|, init + [last];
    assert vs[..n] == init;
    if q: Path :| Reaches(h, last, q, a) {
      assert ([n] + q)[1..] == q;
      assert ReachesIn(h, vs, [n] + q, a);
    }
    if q: Path :| ReachesIn(h, init, q, a) {
      assert ReachesIn(h, vs, q, a);
    }
    if q: Path :| ReachesIn(h, vs, q, a) {
      ReachesInSnoc(h, vs, q, a);
    }
  }

  lemma {:induction false} ParsedAllIsTree(h: Heap, cls: Class, vs: seq<Value>, markers: set<Addr>, next: Addr)
    requires Closed(h) && AllInHeap(h, vs) && ParseAll(h, cls, vs, markers, next).Some?
    ensures AllReachedOnce(h, vs, markers)
    ensures forall a: Addr :: a in ParseAll(h, cls, vs, markers, next).value.markers
                          <==> a in markers || exists p: Path :: ReachesIn(h, vs, p, a)
    decreases h.Keys - markers, 1 + |vs|
  {
    if vs != [] {
      var n := |vs| - 1;
      var p := ParseAll(h, cls, vs[..n], markers, next).value;
      ParsedAllIsTree(h, cls, vs[..n], markers, next);
      ParsedValueIsTree(h, cls, vs[n], p.markers, p.next);
      assert vs == vs[..n] + [vs[n]];
      JoinReachedOnce(h, vs[..n], vs[n], markers, p.markers);
      var r := ParseValue(h, cls, vs[n], p.markers, p.next).value;
      forall a: Addr ensures a in r.markers <==> a in markers || exists p: Path :: ReachesIn(h, vs, p, a) {
        ReachableSnoc(h, vs[..n], vs[n], a);
      }
    }
  }

  /** Rows of values: once in the first ones, once in the last, and nothing shared between them. */
  lemma JoinReachedOnce(h: Heap, init: seq<Value>, last: Value, markers: set<Addr>, between: set<Addr>)
    requires AllReachedOnce(h, init, markers) && ReachedOnce(h, last, between)
    requires forall a: Addr :: a in between <==> a in markers || Reachable(h, init, a)
    ensures AllReachedOnce(h, init + [last], markers)
  {
    var n := |init|;
    var vs := init + [last];
    assert vs[..n] == init;
    forall p: Path, a | ReachesIn(h, vs, p, a) ensures a !in markers {
      ReachesInSnoc(h, vs, p, a);
    }
    forall p: Path, q: Path, a | ReachesIn(h, vs, p, a) && ReachesIn(h, vs, q, a) ensures p == q {
      ReachesInSnoc(h, vs, p, a);
      ReachesInSnoc(h, vs, q, a);
      if p[0] == n && q[0] == n {
        assert p[1..] == q[1..];
        assert p == [n] + p[1..] && q == [n] + q[1..];
      }
    }
  }

  /** What failure says, by example: a path to a marked container, or two paths to one. */
  lemma {:induction false} RejectedValueWitness(h: Heap, cls: Class, v: Value, markers: set<Addr>, next: Addr)
    returns (p: Path, q: Path, a: Addr)
    requires Closed(h) && InHeap(h, v) && ParseValue(h, cls, v, markers, next).None?
    ensures Reaches(h, v, p, a)
    ensures a in markers || (Reaches(h, v, q, a) && p != q)
    decreases h.Keys - markers, 0
  {
    if v.addr in markers {
      p, q, a := [], [], v.addr;
    } else {
      p, q, a := RejectedAllWitness(h, cls, Children(h[v.addr]), markers + {v.addr}, next + 1);
      ReachesRef(h, v.addr, p, a);
      if a == v.addr {
        q := [];
      } else if a !in markers {
        ReachesRef(h, v.addr, q, a);
      }
    }
  }

  lemma {:induction false} RejectedAllWitness(h: Heap, cls: Class, vs: seq<Value>, markers: set<Addr>, next: Addr)
    returns (p: Path, q: Path, a: Addr)
    requires Closed(h) && AllInHeap(h, vs) && ParseAll(h, cls, vs, markers, next).None?
    ensures ReachesIn(h, vs, p, a)
    ensures a in markers || (ReachesIn(h, vs, q, a) && p != q)
    decreases h.Keys - markers, 1 + |vs|
  {
    var n := |vs| - 1;
    var init := ParseAll(h, cls, vs[..n], markers, next);
    if init.None? {
      p, q, a := RejectedAllWitness(h, cls, vs[..n], markers, next);
    } else {
      p, q, a := RejectedValueWitness(h, cls, vs[n], init.value.markers, init.value.next);
      ParsedAllIsTree(h, cls, vs[..n], markers, next);
      p := [n] + p;
      assert p[1..] == p[1..];
      if a in init.value.markers {
        if a !in markers {
          q :| ReachesIn(h, vs[..n], q, a);
        }
      } else {
        q := [n] + q;
      }
    }
  }

  /**
    Parsing ends on every finite graph, cyclic or not (each call enters a container not yet marked), and
    succeeds if and only if no container is reached from the value by two different paths and none of the
    containers marked beforehand is reached at all.
   */
  lemma ParseSucceedsIff(h: Heap, cls: Class, v: Value, markers: set<Addr>, next: Addr)
    requires Closed(h) && InHeap(h, v)
    ensures ParseValue(h, cls, v, markers, next).Some? <==> ReachedOnce(h, v, markers)
  {
    if ParseValue(h, cls, v, markers, next).Some? {
      ParsedValueIsTree(h, cls, v, markers, next);
    } else {
      var p, q, a := RejectedValueWitness(h, cls, v, markers, next);
    }
  }

  lemma {:induction false} ResolveAppend(h: Heap, v: Value, p: Path, q: Path)
    ensures Resolve(h, v, p + q) == match Resolve(h, v, p) case None => None case Some(w) => Resolve(h, w, q)
    decreases |p|
  {
    if p == [] {
      assert p + q == q;
    } else {
      assert (p + q)[1..] == p[1..] + q;
      if v.Ref? && v.addr in h && p[0] < |Children(h[v.addr])| {
        ResolveAppend(h, Children(h[v.addr])[p[0]], p[1..], q);
      }
    }
  }

  /** Every cycle is rejected, wherever it lies. */
  lemma CyclesAreRejected(h: Heap, cls: Class, v: Value, markers: set<Addr>, next: Addr, p: Path, a: Addr, cycle: Path)
    requires Closed(h) && InHeap(h, v)
    requires Reaches(h, v, p, a) && cycle != [] && Reaches(h, Ref(a), cycle, a)
    ensures ParseValue(h, cls, v, markers, next).None?
  {
    ResolveAppend(h, v, p, cycle);
    assert Reaches(h, v, p + cycle, a);
    assert p + cycle != p by { assert |p + cycle| > |p|; }
    ParseSucceedsIff(h, cls, v, markers, next);
  }

  /** Two references to one list. */
  function SharedList(): (h: Heap)
    ensures Closed(h) && 1 in h
  {
    map[0 := Sequence(List, []), 1 := Sequence(List, [Ref(0), Ref(0)])]
  }

  lemma {:induction false} SharedListDescends(a: Addr, p: Path, b: Addr)
    requires Reaches(SharedList(), Ref(a), p, b)
    ensures b <= a && (p != [] ==> b < a)
    decreases |p|
  {
    if p != [] {
      SharedListDescends(0, p[1..], b);
    }
  }

  /** The circular-reference error without a cycle anywhere: sharing is refused too. */
  lemma SharingIsRejected(cls: Class, next: Addr)
    ensures forall a, p: Path :: p != [] ==> !Reaches(SharedList(), Ref(a), p, a)
    ensures ParseValue(SharedList(), cls, Ref(1), {}, next).None?
  {
    var h := SharedList();
    forall a, p: Path | Reaches(h, Ref(a), p, a) ensures p == [] {
      SharedListDescends(a, p, a);
    }
    assert [0][1..] == [] && [1][1..] == [];
    assert Reaches(h, Ref(1), [0], 0) && Reaches(h, Ref(1), [1], 0) && [0] != [1];
    ParseSucceedsIff(h, cls, Ref(1), {}, next);
  }

  // ---- what is built ------------------------------------------------------------------------------------------

  /** No enum member on any path has a container for its value. */
  ghost predicate EnumsHoldNoContainer(h: Heap, v: Value) {
    forall p: Path, w | Resolve(h, v, p) == Some(EnumMember(w)) :: !w.Ref?
  }

  /** Position i of container a holds container x. */
  predicate Holds(cells: Heap, a: Addr, i: nat, x: Addr) {
    a in cells && i < |Children(cells[a])| && Children(cells[a])[i] == Ref(x)
  }

  /** Every container mentioned, also inside enum members, has an identity below `base`. */
  predicate ValueBelow(v: Value, base: Addr) {
    match v
    case Ref(a) => a < base
    case EnumMember(w) => ValueBelow(w, base)
    case _ => true
  }

  predicate RowBelow(vs: seq<Value>, base: Addr) {
    forall i | 0 <= i < |vs| :: ValueBelow(vs[i], base)
  }

  predicate HeapBelow(h: Heap, base: Addr) {
    forall a | a in h :: a < base && RowBelow(Children(h[a]), base)
  }

  lemma BelowGrows(v: Value, base: Addr, more: Addr)
    requires ValueBelow(v, base) && base <= more
    ensures ValueBelow(v, more)
  {
  }

  lemma RowBelowGrows(vs: seq<Value>, base: Addr, more: Addr)
    requires RowBelow(vs, base) && base <= more
    ensures RowBelow(vs, more)
  {
    forall i | 0 <= i < |vs| ensures ValueBelow(vs[i], more) {
      BelowGrows(vs[i], base, more);
    }
  }

  /**
    Containers built with identities from lo up to hi: what one holds is a younger one, held nowhere else,
    or a container from before `base` that came out of an enum member.
   */
  ghost predicate BuiltCells(base: Addr, cells: Heap, lo: Addr, hi: Addr) {
    && (forall a | a in cells :: base <= lo <= a < hi)
    && HeapBelow(cells, hi)
    && (forall a: Addr, i: nat, x: Addr | Holds(cells, a, i, x) :: (x in cells && a < x) || x < base)
    && (forall a: Addr, i: nat, b: Addr, j: nat, x: Addr |
          Holds(cells, a, i, x) && Holds(cells, b, j, x) && x in cells :: a == b && i == j)
  }

  /** Values over such containers; those among them that are containers are held by no other and appear once. */
  ghost predicate BuiltRow(base: Addr, cells: Heap, outs: seq<Value>, lo: Addr, hi: Addr) {
    && base <= lo <= hi && BuiltCells(base, cells, lo, hi) && RowBelow(outs, hi)
    && (forall i | 0 <= i < |outs| && outs[i].Ref? :: outs[i].addr in cells || outs[i].addr < base)
    && (forall i, j | 0 <= i < j < |outs| && outs[i].Ref? && outs[i].addr in cells :: outs[i] != outs[j])
    && (forall i, a: Addr, k: nat, x: Addr |
          0 <= i < |outs| && Holds(cells, a, k, x) && x in cells :: outs[i] != Ref(x))
  }

  /** Nothing held from outside the containers built. */
  ghost predicate OwnsAll(cells: Heap, outs: seq<Value>) {
    && (forall a: Addr, i: nat, x: Addr | Holds(cells, a, i, x) :: x in cells)
    && (forall i | 0 <= i < |outs| && outs[i].Ref? :: outs[i].addr in cells)
  }

  lemma {:induction false} ValueIsBuilt(base: Addr, h: Heap, cls: Class, v: Value, markers: set<Addr>, next: Addr)
    requires Closed(h) && InHeap(h, v) && HeapBelow(h, base) && ValueBelow(v, base) && base <= next
    requires ParseValue(h, cls, v, markers, next).Some?
    ensures var r := ParseValue(h, cls, v, markers, next).value;
            BuiltRow(base, r.cells, [r.out], next, r.next) && (v.Ref? ==> r.out == Ref(next))
    ensures var r := ParseValue(h, cls, v, markers, next).value;
            EnumsHoldNoContainer(h, v) ==> OwnsAll(r.cells, [r.out])
    decreases h.Keys - markers, 0
  {
    if v.Ref? {
      var kids := Children(h[v.addr]);
      var p := ParseAll(h, cls, kids, markers + {v.addr}, next + 1).value;
      RowIsBuilt(base, h, cls, kids, markers + {v.addr}, next + 1);
      WrapIsBuilt(base, p.cells, p.out, next, p.next, Rebuild(cls, h[v.addr], p.out));
      if EnumsHoldNoContainer(h, v) {
        forall q: Path, w, i | 0 <= i < |kids| && Resolve(h, kids[i], q) == Some(EnumMember(w)) ensures !w.Ref? {
          assert ([i] + q)[1..] == q;
          assert Resolve(h, v, [i] + q) == Some(EnumMember(w));
        }
        assert OwnsAll(p.cells, p.out);
      }
    } else {
      BelowGrows(Convert(v), base, next);
      if v.EnumMember? {
        assert Resolve(h, v, []) == Some(v);
      }
    }
  }

  /** Putting one container around a built row. */
  lemma WrapIsBuilt(base: Addr, cells: Heap, outs: seq<Value>, next: Addr, hi: Addr, cell: Cell)
    requires BuiltRow(base, cells, outs, next + 1, hi) && Children(cell) == outs && base <= next
    ensures BuiltRow(base, cells[next := cell], [Ref(next)], next, hi)
    ensures OwnsAll(cells, outs) ==> OwnsAll(cells[next := cell], [Ref(next)])
  {
    var cells' := cells[next := cell];
    forall a: Addr, i: nat, x: Addr | Holds(cells', a, i, x)
      ensures if a == next then outs[i] == Ref(x) else Holds(cells, a, i, x)
    {}
    forall a: Addr, i: nat, x: Addr | Holds(cells', a, i, x) ensures (x in cells' && a < x) || x < base {}
    forall a: Addr, i: nat, b: Addr, j: nat, x: Addr | Holds(cells', a, i, x) && Holds(cells', b, j, x) && x in cells'
      ensures a == b && i == j
    {
      assert x in cells;
    }
  }

  lemma JoinIsBuilt(base: Addr, cells: Heap, outs: seq<Value>, lo: Addr, mid: Addr, more: Heap, out: Value, hi: Addr)
    requires BuiltRow(base, cells, outs, lo, mid) && BuiltRow(base, more, [out], mid, hi)
    ensures BuiltRow(base, cells + more, outs + [out], lo, hi)
    ensures OwnsAll(cells, outs) && OwnsAll(more, [out]) ==> OwnsAll(cells + more, outs + [out])
  {
    var all := cells + more;
    forall a: Addr, i: nat, x: Addr | Holds(all, a, i, x)
      ensures if a in more then Holds(more, a, i, x) && x !in cells else Holds(cells, a, i, x) && x !in more
    {
      assert if a in more then Holds(more, a, i, x) else Holds(cells, a, i, x);
    }
    var outs' := outs + [out];
    assert [out][0] == out;
    RowBelowGrows(outs, mid, hi);
    forall a | a in all ensures a < hi && RowBelow(Children(all[a]), hi) {
      if a !in more {
        RowBelowGrows(Children(cells[a]), mid, hi);
      }
    }
    forall i, j | 0 <= i < j < |outs'| && outs'[i].Ref? && outs'[i].addr in all ensures outs'[i] != outs'[j] {
      if j == |outs| {
        assert outs[i].addr in cells;
      }
    }
    forall i, a: Addr, k: nat, x: Addr | 0 <= i < |outs'| && Holds(all, a, k, x) && x in all
      ensures outs'[i] != Ref(x)
    {
    }
  }

  lemma {:induction false} RowIsBuilt(base: Addr, h: Heap, cls: Class, vs: seq<Value>, markers: set<Addr>, next: Addr)
    requires Closed(h) && AllInHeap(h, vs) && HeapBelow(h, base) && RowBelow(vs, base) && base <= next
    requires ParseAll(h, cls, vs, markers, next).Some?
    ensures var r := ParseAll(h, cls, vs, markers, next).value;
            BuiltRow(base, r.cells, r.out, next, r.next)
    ensures var r := ParseAll(h, cls, vs, markers, next).value;
            (forall i | 0 <= i < |vs| :: EnumsHoldNoContainer(h, vs[i])) ==> OwnsAll(r.cells, r.out)
    decreases h.Keys - markers, 1 + |vs|
  {
    if vs != [] {
      var n := |vs| - 1;
      var p := ParseAll(h, cls, vs[..n], markers, next).value;
      var q := ParseValue(h, cls, vs[n], p.markers, p.next).value;
      RowIsBuilt(base, h, cls, vs[..n], markers, next);
      ValueIsBuilt(base, h, cls, vs[n], p.markers, p.next);
      JoinIsBuilt(base, p.cells, p.out, next, p.next, q.cells, q.out, q.next);
    }
  }

  // ---- the copy has the shape of the original ----------------------------------------------------------------

  /**
    o is what w becomes: a scalar itself, a date its ISO text, any other object its text, an enum member its
    value; a mapping one of the class built, with the same keys in the same order; a sequence one as long, a
    tuple if it was a tuple or is frozen and else a list.
   */
  predicate Image(h: Heap, cls: Class, w: Value, cells: Heap, o: Value) {
    match w
    case Plain(scalar) => o == Plain(scalar)
    case Date(iso) => o == Plain(Text(iso))
    case EnumMember(value) => o == value
    case Opaque(text) => o == Plain(Text(text))
    case Ref(a) =>
      && a in h && o.Ref? && o.addr in cells
      && match (h[a], cells[o.addr])
         case (Mapping(_, xs), Mapping(c, ys)) =>
           c == cls && |xs| == |ys| && forall i | 0 <= i < |xs| :: xs[i].key == ys[i].key
         case (Sequence(k, xs), Sequence(l, ys)) =>
           |xs| == |ys| && l == if k.Tuple? || cls.Frozen? then Tuple else List
         case _ => false
  }

  predicate ImageAt(h: Heap, cls: Class, v: Value, cells: Heap, out: Value, p: Path) {
    match Resolve(h, v, p)
    case None => Resolve(cells, out, p).None?
    case Some(w) => Resolve(cells, out, p).Some? && Image(h, cls, w, cells, Resolve(cells, out, p).value)
  }

  /** Along every path the copy has the image of what the original has there, and nothing where it has nothing. */
  ghost predicate Mirrors(h: Heap, cls: Class, v: Value, cells: Heap, out: Value) {
    forall p: Path :: ImageAt(h, cls, v, cells, out, p)
  }

  ghost predicate RowMirrors(h: Heap, cls: Class, vs: seq<Value>, cells: Heap, outs: seq<Value>) {
    |vs| == |outs| && forall i | 0 <= i < |vs| :: Mirrors(h, cls, vs[i], cells, outs[i])
  }

  /** The larger heap has the smaller one's containers and nothing else that they could lead to. */
  ghost predicate Extends(small: Heap, big: Heap) {
    && (forall a | a in small :: a in big && big[a] == small[a])
    && (forall a: Addr, i: nat, x: Addr | Holds(small, a, i, x) :: x in small || x !in big)
  }

  lemma {:induction false} ResolveFrame(small: Heap, big: Heap, v: Value, p: Path)
    requires Extends(small, big) && (v.Ref? ==> v.addr in small || v.addr !in big)
    ensures Resolve(big, v, p) == Resolve(small, v, p)
    decreases |p|
  {
    if p != [] && v.Ref? && v.addr in small && p[0] < |Children(small[v.addr])| {
      var child := Children(small[v.addr])[p[0]];
      if child.Ref? {
        assert Holds(small, v.addr, p[0], child.addr);
      }
      ResolveFrame(small, big, child, p[1..]);
    }
  }

  lemma MirrorsFrame(h: Heap, cls: Class, v: Value, small: Heap, big: Heap, out: Value)
    requires Mirrors(h, cls, v, small, out)
    requires Extends(small, big) && (out.Ref? ==> out.addr in small || out.addr !in big)
    ensures Mirrors(h, cls, v, big, out)
  {
    forall p: Path ensures ImageAt(h, cls, v, big, out, p) {
      assert ImageAt(h, cls, v, small, out, p);
      ResolveFrame(small, big, out, p);
    }
  }

  lemma RowMirrorsFrame(h: Heap, cls: Class, vs: seq<Value>, small: Heap, big: Heap, outs: seq<Value>)
    requires RowMirrors(h, cls, vs, small, outs)
    requires Extends(small, big)
    requires forall i | 0 <= i < |outs| && outs[i].Ref? :: outs[i].addr in small || outs[i].addr !in big
    ensures RowMirrors(h, cls, vs, big, outs)
  {
    forall i | 0 <= i < |vs| ensures Mirrors(h, cls, vs[i], big, outs[i]) {
      MirrorsFrame(h, cls, vs[i], small, big, outs[i]);
    }
  }

  lemma RefMirrors(h: Heap, cls: Class, a: Addr, cells: Heap, root: Addr)
    requires a in h && root in cells && RowMirrors(h, cls, Children(h[a]), cells, Children(cells[root]))
    requires cells[root] == Rebuild(cls, h[a], Children(cells[root]))
    ensures Mirrors(h, cls, Ref(a), cells, Ref(root))
  {
    forall p: Path ensures ImageAt(h, cls, Ref(a), cells, Ref(root), p) {
      if p != [] && p[0] < |Children(h[a])| {
        assert ImageAt(h, cls, Children(h[a])[p[0]], cells, Children(cells[root])[p[0]], p[1..]);
      }
    }
  }

  lemma LeafMirrors(h: Heap, cls: Class, v: Value, cells: Heap)
    requires !v.Ref? && (v.EnumMember? && v.value.Ref? ==> v.value.addr !in cells)
    ensures Mirrors(h, cls, v, cells, Convert(v))
  {
    forall p: Path ensures ImageAt(h, cls, v, cells, Convert(v), p) {}
  }

  lemma {:induction false} ValueMirrors(base: Addr, h: Heap, cls: Class, v: Value, markers: set<Addr>, next: Addr)
    requires Closed(h) && InHeap(h, v) && HeapBelow(h, base) && ValueBelow(v, base) && base <= next
    requires ParseValue(h, cls, v, markers, next).Some?
    ensures var r := ParseValue(h, cls, v, markers, next).value; Mirrors(h, cls, v, r.cells, r.out)
    decreases h.Keys - markers, 0
  {
    if v.Ref? {
      var kids := Children(h[v.addr]);
      var p := ParseAll(h, cls, kids, markers + {v.addr}, next + 1).value;
      RowIsBuilt(base, h, cls, kids, markers + {v.addr}, next + 1);
      RowIsMirrored(base, h, cls, kids, markers + {v.addr}, next + 1);
      var cells' := p.cells[next := Rebuild(cls, h[v.addr], p.out)];
      RowMirrorsFrame(h, cls, kids, p.cells, cells', p.out);
      RefMirrors(h, cls, v.addr, cells', next);
    } else {
      LeafMirrors(h, cls, v, map[]);
    }
  }

  lemma BuiltPartsExtend(base: Addr, cells: Heap, outs: seq<Value>, lo: Addr, mid: Addr, more: Heap, out: Value,
      hi: Addr)
    requires BuiltRow(base, cells, outs, lo, mid) && BuiltRow(base, more, [out], mid, hi)
    ensures Extends(cells, cells + more) && Extends(more, cells + more)
    ensures forall i | 0 <= i < |outs| && outs[i].Ref? :: outs[i].addr in cells || outs[i].addr !in cells + more
    ensures out.Ref? ==> out.addr in more || out.addr !in cells + more
  {
    assert [out][0] == out;
  }

  lemma JoinMirrors(base: Addr, h: Heap, cls: Class, init: seq<Value>, last: Value, cells: Heap, outs: seq<Value>,
                    lo: Addr, mid: Addr, more: Heap, out: Value, hi: Addr)
    requires BuiltRow(base, cells, outs, lo, mid) && BuiltRow(base, more, [out], mid, hi)
    requires RowMirrors(h, cls, init, cells, outs) && Mirrors(h, cls, last, more, out)
    ensures RowMirrors(h, cls, init + [last], cells + more, outs + [out])
  {
    BuiltPartsExtend(base, cells, outs, lo, mid, more, out, hi);
    RowMirrorsFrame(h, cls, init, cells, cells + more, outs);
    MirrorsFrame(h, cls, last, more, cells + more, out);
  }

  lemma {:induction false} RowIsMirrored(base: Addr, h: Heap, cls: Class, vs: seq<Value>, markers: set<Addr>,
      next: Addr)
    requires Closed(h) && AllInHeap(h, vs) && HeapBelow(h, base) && RowBelow(vs, base) && base <= next
    requires ParseAll(h, cls, vs, markers, next).Some?
    ensures var r := ParseAll(h, cls, vs, markers, next).value;
            RowMirrors(h, cls, vs, r.cells, r.out)
    decreases h.Keys - markers, 1 + |vs|
  {
    if vs != [] {
      var n := |vs| - 1;
      var p := ParseAll(h, cls, vs[..n], markers, next).value;
      var q := ParseValue(h, cls, vs[n], p.markers, p.next).value;
      RowIsBuilt(base, h, cls, vs[..n], markers, next);
      ValueIsBuilt(base, h, cls, vs[n], p.markers, p.next);
      RowIsMirrored(base, h, cls, vs[..n], markers, next);
      ValueMirrors(base, h, cls, vs[n], p.markers, p.next);
      JoinMirrors(base, h, cls, vs[..n], vs[n], p.cells, p.out, next, p.next, q.cells, q.out, q.next);
      assert vs == vs[..n] + [vs[n]];
    }
  }
}
