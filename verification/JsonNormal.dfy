/** What parsing produces: owned, normal, and stable under parsing again. */
module JsonNormal {
  import opened Wrappers
  import opened JsonGraph

  /** A graph and a value to parse, all identities below `base`. */
  ghost predicate Input(h: Heap, v: Value, base: Addr) {
    Closed(h) && InHeap(h, v) && HeapBelow(h, base) && ValueBelow(v, base)
  }

  function Parse(h: Heap, cls: Class, v: Value, base: Addr): Option<Parsed<Value>>
    requires Closed(h) && InHeap(h, v)
  {
    ParseValue(h, cls, v, {}, base)
  }

  // ---- ownership -----------------------------------------------------------------------------------

  lemma {:induction false} LastStep(h: Heap, v: Value, p: Path, w: Value) returns (a: Addr, i: nat)
    requires p != [] && Resolve(h, v, p) == Some(w)
    ensures a in h && i < |Children(h[a])| && Children(h[a])[i] == w
    ensures i == p[|p| - 1] && Resolve(h, v, p[..|p| - 1]) == Some(Ref(a))
  {
    var n := |p| - 1;
    assert p == p[..n] + [p[n]];
    ResolveAppend(h, v, p[..n], [p[n]]);
    a, i := Resolve(h, v, p[..n]).value.addr, p[n];
  }

  /** The copy holds nothing but containers built for it if and only if no enum member reached holds a container. */
  lemma OwnsAllIff(h: Heap, cls: Class, v: Value, base: Addr)
    requires Input(h, v, base) && Parse(h, cls, v, base).Some?
    ensures var r := Parse(h, cls, v, base).value;
            OwnsAll(r.cells, [r.out]) <==> EnumsHoldNoContainer(h, v)
  {
    var r := Parse(h, cls, v, base).value;
    ValueIsBuilt(base, h, cls, v, {}, base);
    ValueMirrors(base, h, cls, v, {}, base);
    if OwnsAll(r.cells, [r.out]) {
      forall p: Path, w | Resolve(h, v, p) == Some(EnumMember(w)) ensures !w.Ref? {
        assert ImageAt(h, cls, v, r.cells, r.out, p);
        EnumLeafBelow(h, v, p, w, base);
        if w.Ref? && p != [] {
          var a, i := LastStep(r.cells, r.out, p, w);
          assert Holds(r.cells, a, i, w.addr);
        }
        assert [r.out][0] == r.out;
      }
    }
  }

  lemma {:induction false} EnumLeafBelow(h: Heap, v: Value, p: Path, w: Value, base: Addr)
    requires HeapBelow(h, base) && ValueBelow(v, base) && Resolve(h, v, p) == Some(EnumMember(w))
    ensures ValueBelow(w, base)
    decreases |p|
  {
    if p != [] {
      EnumLeafBelow(h, Children(h[v.addr])[p[0]], p[1..], w, base);
    }
  }

  /** A mapping at 1 whose only value is an enum member over the list at 0. */
  function EnumOverList(): (h: Heap)
    ensures Closed(h) && 1 in h
  {
    map[0 := Sequence(List, [Plain(Number(1))]), 1 := Mapping(Foreign, [Item(Text("k"), EnumMember(Ref(0)))])]
  }

  /** Such a member hands out the very list: the copy at 2 holds what lies at 0. */
  lemma EnumValueAliases()
    ensures var r := Parse(EnumOverList(), Json, Ref(1), 2);
            r.Some? && r.value.out == Ref(2) && 2 in r.value.cells && Children(r.value.cells[2]) == [Ref(0)]
  {
    var h := EnumOverList();
    var kids := Children(h[1]);
    assert kids == [EnumMember(Ref(0))];
    OneChild(h, {} + {1}, 3);
  }

  lemma OneChild(h: Heap, markers: set<Addr>, next: Addr)
    requires Closed(h)
    ensures ParseAll(h, Json, [EnumMember(Ref(0))], markers, next) == Some(Parsed([Ref(0)], markers, map[], next))
  {
    var vs := [EnumMember(Ref(0))];
    assert vs[..0] == [];
    assert ParseAll(h, Json, vs[..0], markers, next) == Some(Parsed([], markers, map[], next));
    assert [] + [Ref(0)] == [Ref(0)];
  }

  // ---- normal form ------------------------------------------------------------------------------------

  /** A plain scalar, or a container the class itself builds. */
  predicate NormalValue(cls: Class, cells: Heap, v: Value) {
    || v.Plain?
    || (v.Ref? && v.addr in cells &&
        match cells[v.addr]
        case Mapping(c, _) => c == cls
        case Sequence(kind, _) => kind.Tuple? || (kind.List? && !cls.Frozen?))
  }

  ghost predicate Normal(cls: Class, cells: Heap, v: Value) {
    forall p: Path | Resolve(cells, v, p).Some? :: NormalValue(cls, cells, Resolve(cells, v, p).value)
  }

  ghost predicate EnumsArePlain(h: Heap, v: Value) {
    forall p: Path, w | Resolve(h, v, p) == Some(EnumMember(w)) :: w.Plain?
  }

  /** The copy is in normal form if and only if every enum member reached has a plain scalar for its value. */
  lemma NormalIff(h: Heap, cls: Class, v: Value, base: Addr)
    requires Input(h, v, base) && Parse(h, cls, v, base).Some?
    ensures var r := Parse(h, cls, v, base).value;
            Normal(cls, r.cells, r.out) <==> EnumsArePlain(h, v)
  {
    var r := Parse(h, cls, v, base).value;
    ValueIsBuilt(base, h, cls, v, {}, base);
    ValueMirrors(base, h, cls, v, {}, base);
    if EnumsArePlain(h, v) {
      forall p: Path | Resolve(r.cells, r.out, p).Some?
        ensures NormalValue(cls, r.cells, Resolve(r.cells, r.out, p).value)
      {
        assert ImageAt(h, cls, v, r.cells, r.out, p);
      }
    } else {
      var p: Path, w :| Resolve(h, v, p) == Some(EnumMember(w)) && !w.Plain?;
      assert ImageAt(h, cls, v, r.cells, r.out, p);
      EnumLeafBelow(h, v, p, w, base);
      assert !NormalValue(cls, r.cells, w);
    }
  }

  // ---- parsing again -------------------------------------------------------------------------------------

  /** In built containers a path is determined by where it leads. */
  lemma {:induction false} PathsDiffer(base: Addr, cells: Heap, out: Value, hi: Addr, p: Path, q: Path, x: Addr)
    requires BuiltRow(base, cells, [out], base, hi) && x in cells
    requires Reaches(cells, out, p, x) && Reaches(cells, out, q, x)
    ensures p == q
    decreases |p|
  {
    assert [out][0] == out;
    if p == [] && q == [] {
    } else if p == [] {
      var b, j := LastStep(cells, out, q, Ref(x));
      assert Holds(cells, b, j, x);
    } else if q == [] {
      var a, i := LastStep(cells, out, p, Ref(x));
      assert Holds(cells, a, i, x);
    } else {
      var a, i := LastStep(cells, out, p, Ref(x));
      var b, j := LastStep(cells, out, q, Ref(x));
      assert Holds(cells, a, i, x) && Holds(cells, b, j, x);
      PathsDiffer(base, cells, out, hi, p[..|p| - 1], q[..|q| - 1], a);
      assert p == p[..|p| - 1] + [i] && q == q[..|q| - 1] + [j];
    }
  }

  lemma {:induction false} StaysInside(cells: Heap, out: Value, p: Path, a: Addr)
    requires OwnsAll(cells, [out]) && Reaches(cells, out, p, a)
    ensures a in cells
  {
    assert [out][0] == out;
    if p != [] {
      var b, i := LastStep(cells, out, p, Ref(a));
      assert Holds(cells, b, i, a);
    }
  }

  lemma {:induction false} ResolveGrows(cells: Heap, big: Heap, v: Value, p: Path)
    requires forall a | a in cells :: a in big && big[a] == cells[a]
    requires Resolve(cells, v, p).Some?
    ensures Resolve(big, v, p) == Resolve(cells, v, p)
    decreases |p|
  {
    if p != [] {
      ResolveGrows(cells, big, Children(cells[v.addr])[p[0]], p[1..]);
    }
  }

  /** Everything built is reached from what was built for the value. */
  lemma {:induction false} BuiltIsReached(
      base: Addr, h: Heap, cls: Class, v: Value, markers: set<Addr>, next: Addr, a: Addr) returns (p: Path)
    requires Closed(h) && InHeap(h, v) && HeapBelow(h, base) && ValueBelow(v, base) && base <= next
    requires ParseValue(h, cls, v, markers, next).Some?
    requires a in ParseValue(h, cls, v, markers, next).value.cells
    ensures var r := ParseValue(h, cls, v, markers, next).value; Reaches(r.cells, r.out, p, a)
    decreases h.Keys - markers, 0
  {
    var r := ParseValue(h, cls, v, markers, next).value;
    if a == next {
      p := [];
    } else {
      var kids := Children(h[v.addr]);
      var row := ParseAll(h, cls, kids, markers + {v.addr}, next + 1).value;
      var q := RowIsReached(base, h, cls, kids, markers + {v.addr}, next + 1, a);
      ResolveGrows(row.cells, r.cells, row.out[q[0]], q[1..]);
      p := q;
    }
  }

  lemma {:induction false} RowIsReached(
      base: Addr, h: Heap, cls: Class, vs: seq<Value>, markers: set<Addr>, next: Addr, a: Addr) returns (p: Path)
    requires Closed(h) && AllInHeap(h, vs) && HeapBelow(h, base) && RowBelow(vs, base) && base <= next
    requires ParseAll(h, cls, vs, markers, next).Some?
    requires a in ParseAll(h, cls, vs, markers, next).value.cells
    ensures var r := ParseAll(h, cls, vs, markers, next).value; ReachesIn(r.cells, r.out, p, a)
    decreases h.Keys - markers, 1 + |vs|
  {
    var n := |vs| - 1;
    var r := ParseAll(h, cls, vs, markers, next).value;
    var row := ParseAll(h, cls, vs[..n], markers, next).value;
    var last := ParseValue(h, cls, vs[n], row.markers, row.next).value;
    RowIsBuilt(base, h, cls, vs[..n], markers, next);
    ValueIsBuilt(base, h, cls, vs[n], row.markers, row.next);
    if a in last.cells {
      var q := BuiltIsReached(base, h, cls, vs[n], row.markers, row.next, a);
      p := [n] + q;
      assert p[1..] == q;
      ResolveGrows(last.cells, r.cells, last.out, q);
    } else {
      p := RowIsReached(base, h, cls, vs[..n], markers, next, a);
      ResolveGrows(row.cells, r.cells, row.out[p[0]], p[1..]);
    }
  }

  lemma CopyIsInput(h: Heap, cls: Class, v: Value, base: Addr)
    requires Input(h, v, base) && EnumsHoldNoContainer(h, v) && Parse(h, cls, v, base).Some?
    ensures var r := Parse(h, cls, v, base).value;
            Input(r.cells, r.out, r.next) && ReachedOnce(r.cells, r.out, {})
  {
    var r := Parse(h, cls, v, base).value;
    ValueIsBuilt(base, h, cls, v, {}, base);
    assert [r.out][0] == r.out;
    forall a, i | a in r.cells && 0 <= i < |Children(r.cells[a])| ensures InHeap(r.cells, Children(r.cells[a])[i]) {
      var x := Children(r.cells[a])[i];
      if x.Ref? {
        assert Holds(r.cells, a, i, x.addr);
      }
    }
    forall p: Path, q: Path, x | Reaches(r.cells, r.out, p, x) && Reaches(r.cells, r.out, q, x) ensures p == q {
      StaysInside(r.cells, r.out, p, x);
      PathsDiffer(base, r.cells, r.out, r.next, p, q, x);
    }
  }

  /** The same plain scalars and the same containers, by class, kind, keys and length. */
  predicate SameValue(c1: Heap, v1: Value, c2: Heap, v2: Value) {
    if v1.Ref? then
      && v1.addr in c1 && v2.Ref? && v2.addr in c2
      && match (c1[v1.addr], c2[v2.addr])
         case (Mapping(k1, xs), Mapping(k2, ys)) =>
           k1 == k2 && |xs| == |ys| && (forall i | 0 <= i < |xs| :: xs[i].key == ys[i].key)
         case (Sequence(k1, xs), Sequence(k2, ys)) => k1 == k2 && |xs| == |ys|
         case _ => false
    else v1.Plain? && v1 == v2
  }

  predicate SameAt(c1: Heap, v1: Value, c2: Heap, v2: Value, p: Path) {
    match (Resolve(c1, v1, p), Resolve(c2, v2, p))
    case (None, None) => true
    case (Some(w1), Some(w2)) => SameValue(c1, w1, c2, w2)
    case _ => false
  }

  /** Equal as nested data: the same thing at the end of every path. */
  ghost predicate SameData(c1: Heap, v1: Value, c2: Heap, v2: Value) {
    forall p: Path :: SameAt(c1, v1, c2, v2, p)
  }

  /** Building the value frozen and then not makes a tuple where building it directly makes a list. */
  predicate Hardens(h: Heap, first: Class, second: Class, v: Value) {
    && first.Frozen? && !second.Frozen?
    && v.Ref? && v.addr in h && h[v.addr].Sequence? && !h[v.addr].kind.Tuple?
  }

  ghost predicate TuplesOnly(h: Heap, v: Value) {
    forall p: Path, a | Reaches(h, v, p, a) && a in h && h[a].Sequence? :: h[a].kind.Tuple?
  }

  /**
    Parsing what was parsed before always succeeds. It gives what parsing the original would have, except
    that a frozen value does not thaw, its lists having become tuples: so parsing is idempotent, freezing a
    parsed value is freezing the original, and a frozen value parsed again agrees with the original parsed if
    and only if every sequence reached from the original is a tuple.
   */
  lemma ReparseAgrees(h: Heap, first: Class, second: Class, v: Value, base: Addr)
    requires Input(h, v, base) && EnumsArePlain(h, v)
    requires Parse(h, first, v, base).Some?
    ensures var r := Parse(h, first, v, base).value;
            && Input(r.cells, r.out, r.next)
            && Parse(r.cells, second, r.out, r.next).Some? && Parse(h, second, v, base).Some?
            && var again, direct := Parse(r.cells, second, r.out, r.next).value, Parse(h, second, v, base).value;
               SameData(again.cells, again.out, direct.cells, direct.out) <==>
               (first.Frozen? && !second.Frozen? ==> TuplesOnly(h, v))
  {
    var r := Parse(h, first, v, base).value;
    forall p: Path, w | Resolve(h, v, p) == Some(EnumMember(w)) ensures !w.Ref? {}
    CopyIsInput(h, first, v, base);
    ParseSucceedsIff(h, first, v, {}, base);
    ParseSucceedsIff(h, second, v, {}, base);
    ParseSucceedsIff(r.cells, second, r.out, {}, r.next);
    var again, direct := Parse(r.cells, second, r.out, r.next).value, Parse(h, second, v, base).value;
    ValueMirrors(base, h, first, v, {}, base);
    ValueMirrors(base, h, second, v, {}, base);
    ValueMirrors(r.next, r.cells, second, r.out, {}, r.next);
    MirrorsAgreeIff(h, first, second, v, r.cells, r.out, again.cells, again.out, direct.cells, direct.out);
    HardensIff(h, first, second, v);
  }

  ghost predicate NowhereHardens(h: Heap, first: Class, second: Class, v: Value) {
    forall p: Path | Resolve(h, v, p).Some? :: !Hardens(h, first, second, Resolve(h, v, p).value)
  }

  lemma HardensIff(h: Heap, first: Class, second: Class, v: Value)
    ensures NowhereHardens(h, first, second, v) <==> (first.Frozen? && !second.Frozen? ==> TuplesOnly(h, v))
  {
    if first.Frozen? && !second.Frozen? && NowhereHardens(h, first, second, v) {
      forall p: Path, a | Reaches(h, v, p, a) && a in h && h[a].Sequence? ensures h[a].kind.Tuple? {
        assert !Hardens(h, first, second, Resolve(h, v, p).value);
      }
    }
    if TuplesOnly(h, v) {
      forall p: Path | Resolve(h, v, p).Some? ensures !Hardens(h, first, second, Resolve(h, v, p).value) {
        var w := Resolve(h, v, p).value;
        assert w.Ref? ==> Reaches(h, v, p, w.addr);
      }
    }
  }

  lemma MirrorsAgreeIff(h: Heap, first: Class, second: Class, v: Value,
                        c1: Heap, o1: Value, c2: Heap, o2: Value, c3: Heap, o3: Value)
    requires EnumsArePlain(h, v)
    requires Mirrors(h, first, v, c1, o1) && Mirrors(c1, second, o1, c2, o2) && Mirrors(h, second, v, c3, o3)
    ensures SameData(c2, o2, c3, o3) <==> NowhereHardens(h, first, second, v)
  {
    forall p: Path
      ensures SameAt(c2, o2, c3, o3, p) <==>
                (Resolve(h, v, p).Some? ==> !Hardens(h, first, second, Resolve(h, v, p).value))
    {
      assert ImageAt(h, first, v, c1, o1, p);
      assert ImageAt(c1, second, o1, c2, o2, p);
      assert ImageAt(h, second, v, c3, o3, p);
      SameAtIff(h, first, second, v, c1, o1, c2, o2, c3, o3, p);
    }
  }

  lemma SameAtIff(h: Heap, first: Class, second: Class, v: Value,
                  c1: Heap, o1: Value, c2: Heap, o2: Value, c3: Heap, o3: Value, p: Path)
    requires ImageAt(h, first, v, c1, o1, p) && ImageAt(c1, second, o1, c2, o2, p) && ImageAt(h, second, v, c3, o3, p)
    requires forall w | Resolve(h, v, p) == Some(EnumMember(w)) :: w.Plain?
    ensures SameAt(c2, o2, c3, o3, p) <==>
              (Resolve(h, v, p).Some? ==> !Hardens(h, first, second, Resolve(h, v, p).value))
  {
    if Resolve(h, v, p).Some? {
      ImagesCompose(h, first, second, Resolve(h, v, p).value, c1, Resolve(c1, o1, p).value,
                    c2, Resolve(c2, o2, p).value, c3, Resolve(c3, o3, p).value);
    }
  }

  lemma ImagesCompose(h: Heap, first: Class, second: Class, w: Value,
                      c1: Heap, o1: Value, c2: Heap, o2: Value, c3: Heap, o3: Value)
    requires w.EnumMember? ==> w.value.Plain?
    requires Image(h, first, w, c1, o1) && Image(c1, second, o1, c2, o2) && Image(h, second, w, c3, o3)
    ensures SameValue(c2, o2, c3, o3) <==> !Hardens(h, first, second, w)
  {
  }
}
