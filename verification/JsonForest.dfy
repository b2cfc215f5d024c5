/** When what JsonDict built stays a forest: the exact conditions on changing a container, storing and building. */
module JsonForest {
  import opened Wrappers
  import opened JsonGraph
  import opened JsonNormal
  import opened JsonStores

  ghost predicate HoldsOwn(m: Memory) {
    forall a: Addr, i: nat, x: Addr | a in m.owned && Holds(m.heap, a, i, x) :: x in m.owned
  }

  ghost predicate HeldOnce(m: Memory) {
    forall a: Addr, i: nat, b: Addr, j: nat, x: Addr |
      a in m.owned && b in m.owned && Holds(m.heap, a, i, x) && Holds(m.heap, b, j, x) :: a == b && i == j
  }

  ghost predicate Acyclic(m: Memory) {
    forall a: Addr, p: Path | a in m.owned && p != [] :: !Reaches(m.heap, Ref(a), p, a)
  }

  /**
    What JsonDict built holds only what JsonDict built, each container in one place of one container, and none
    lies inside itself: a forest, apart from everything the program owns itself.
   */
  ghost predicate Forest(m: Memory) {
    Sound(m) && HoldsOwn(m) && HeldOnce(m) && Acyclic(m)
  }

  // ---- paths ----------------------------------------------------------------------------------------------

  /** Container x is self, or self lies somewhere inside it. */
  ghost predicate Leads(h: Heap, x: Addr, self: Addr) {
    exists q: Path :: Reaches(h, Ref(x), q, self)
  }

  /** Where only one container differs, a path ends alike unless it meets that one on the way. */
  lemma {:induction false} AlikeUnlessMet(h: Heap, h': Heap, self: Addr, v: Value, p: Path) returns (q: Path)
    requires Closed(h) && InHeap(h, v) && forall a | a in h && a != self :: a in h' && h'[a] == h[a]
    ensures Resolve(h', v, p) == Resolve(h, v, p) || (Reaches(h, v, q, self) && Reaches(h', v, q, self))
    ensures q <= p
    decreases |p|
  {
    q := [];
    if p != [] && v.Ref? && v.addr != self && p[0] < |Children(h[v.addr])| {
      assert AllInHeap(h, Children(h[v.addr]));
      var rest := AlikeUnlessMet(h, h', self, Children(h[v.addr])[p[0]], p[1..]);
      q := [p[0]] + rest;
      assert q[1..] == rest && p == [p[0]] + p[1..];
    }
  }

  /** So whether something leads to that container does not depend on what it holds. */
  lemma LeadsAlike(h: Heap, h': Heap, self: Addr, x: Addr)
    requires Closed(h) && x in h && h'.Keys == h.Keys && forall a | a in h && a != self :: h'[a] == h[a]
    requires Closed(h')
    ensures Leads(h', x, self) <==> Leads(h, x, self)
  {
    if q: Path :| Reaches(h, Ref(x), q, self) {
      var met := AlikeUnlessMet(h, h', self, Ref(x), q);
      assert Reaches(h', Ref(x), q, self) || Reaches(h', Ref(x), met, self);
    }
    if q: Path :| Reaches(h', Ref(x), q, self) {
      var met := AlikeUnlessMet(h', h, self, Ref(x), q);
      assert Reaches(h, Ref(x), q, self) || Reaches(h, Ref(x), met, self);
    }
  }

  lemma {:induction false} OwnedPathsStay(m: Memory, v: Value, p: Path, x: Addr)
    requires HoldsOwn(m) && (v.Ref? ==> v.addr in m.owned && v.addr in m.heap)
    requires Closed(m.heap) && Reaches(m.heap, v, p, x)
    ensures x in m.owned
    decreases |p|
  {
    if p != [] {
      var child := Children(m.heap[v.addr])[p[0]];
      assert AllInHeap(m.heap, Children(m.heap[v.addr]));
      if child.Ref? {
        assert Holds(m.heap, v.addr, p[0], child.addr);
      }
      OwnedPathsStay(m, child, p[1..], x);
    }
  }

  lemma {:induction false} OwnedResolvesAlike(m: Memory, h': Heap, v: Value, p: Path)
    requires HoldsOwn(m) && Closed(m.heap) && (v.Ref? ==> v.addr in m.owned && v.addr in m.heap)
    requires forall a | a in m.owned && a in m.heap :: a in h' && h'[a] == m.heap[a]
    ensures Resolve(h', v, p) == Resolve(m.heap, v, p)
    decreases |p|
  {
    if p != [] && v.Ref? && p[0] < |Children(m.heap[v.addr])| {
      var child := Children(m.heap[v.addr])[p[0]];
      assert AllInHeap(m.heap, Children(m.heap[v.addr]));
      if child.Ref? {
        assert Holds(m.heap, v.addr, p[0], child.addr);
      }
      OwnedResolvesAlike(m, h', child, p[1..]);
    }
  }

  // ---- changing one built container ------------------------------------------------------------------------

  /** The memory with this container's content replaced. */
  function Changed(m: Memory, self: Addr, cell: Cell): Memory {
    m.(heap := m.heap[self := cell])
  }

  /** Container x is built, does not lead to `self`, and is held by no other built container. */
  ghost predicate FreeFor(m: Memory, self: Addr, x: Addr) {
    && x in m.owned && !Leads(m.heap, x, self)
    && forall a: Addr, k: nat | a in m.owned && Holds(m.heap, a, k, x) :: a == self
  }

  /** The values hold no container twice, and none that is not free. */
  ghost predicate FitsIn(m: Memory, self: Addr, kids: seq<Value>) {
    && (forall i | 0 <= i < |kids| && kids[i].Ref? :: FreeFor(m, self, kids[i].addr))
    && (forall i, j | 0 <= i < j < |kids| && kids[i].Ref? :: kids[i] != kids[j])
  }

  lemma ChangedHolds(m: Memory, self: Addr, cell: Cell)
    ensures forall a: Addr, i: nat, x: Addr :: Holds(Changed(m, self, cell).heap, a, i, x) <==>
              if a == self then i < |Children(cell)| && Children(cell)[i] == Ref(x) else Holds(m.heap, a, i, x)
  {
  }

  /** A way from self back to itself would enter one of its children, which does not lead there. */
  lemma NoWayBack(m: Memory, self: Addr, cell: Cell, p: Path)
    requires Forest(m) && self in m.owned && self in m.heap && Sound(Changed(m, self, cell))
    requires FitsIn(m, self, Children(cell)) && p != []
    ensures !Reaches(Changed(m, self, cell).heap, Ref(self), p, self)
  {
    var h' := Changed(m, self, cell).heap;
    if p[0] < |Children(cell)| {
      assert Resolve(h', Ref(self), p) == Resolve(h', Children(cell)[p[0]], p[1..]);
    }
    if p[0] < |Children(cell)| && Children(cell)[p[0]].Ref? {
      var x := Children(cell)[p[0]].addr;
      assert FreeFor(m, self, x) && AllInHeap(h', Children(h'[self]));
      var met := AlikeUnlessMet(m.heap, h', self, Ref(x), p[1..]);
      assert !Reaches(m.heap, Ref(x), p[1..], self) && !Reaches(m.heap, Ref(x), met, self);
    }
  }

  lemma ChangedIsAcyclic(m: Memory, self: Addr, cell: Cell)
    requires Forest(m) && self in m.owned && self in m.heap && Sound(Changed(m, self, cell))
    requires FitsIn(m, self, Children(cell))
    ensures Acyclic(Changed(m, self, cell))
  {
    var h' := Changed(m, self, cell).heap;
    forall a: Addr, p: Path | a in m.owned && p != [] ensures !Reaches(h', Ref(a), p, a) {
      if Reaches(h', Ref(a), p, a) {
        var q := AlikeUnlessMet(m.heap, h', self, Ref(a), p);
        assert !Reaches(m.heap, Ref(a), p, a);
        assert Reaches(h', Ref(a), q, self);
        assert p == q + p[|q|..];
        ResolveAppend(h', Ref(a), q, p[|q|..]);
        ResolveAppend(h', Ref(self), p[|q|..], q);
        assert p[|q|..] + q != [] by { assert |p[|q|..] + q| == |p|; }
        NoWayBack(m, self, cell, p[|q|..] + q);
      }
    }
  }

  lemma ChangedIsForest(m: Memory, self: Addr, cell: Cell)
    requires Forest(m) && self in m.owned && self in m.heap && Sound(Changed(m, self, cell))
    requires FitsIn(m, self, Children(cell))
    ensures Forest(Changed(m, self, cell))
  {
    var m' := Changed(m, self, cell);
    ChangedHolds(m, self, cell);
    ChangedIsAcyclic(m, self, cell);
    forall a: Addr, i: nat, x: Addr | a in m'.owned && Holds(m'.heap, a, i, x) ensures x in m'.owned {
      assert a == self ==> FreeFor(m, self, x);
    }
    forall a: Addr, i: nat, b: Addr, j: nat, x: Addr |
      a in m'.owned && b in m'.owned && Holds(m'.heap, a, i, x) && Holds(m'.heap, b, j, x)
      ensures a == b && i == j
    {
      assert a == self || b == self ==> FreeFor(m, self, x);
    }
  }

  lemma HeldIsFree(m: Memory, self: Addr, cell: Cell, i: nat)
    requires Forest(m) && self in m.owned && self in m.heap && Forest(Changed(m, self, cell))
    requires i < |Children(cell)| && Children(cell)[i].Ref?
    ensures FreeFor(m, self, Children(cell)[i].addr)
  {
    var m', x := Changed(m, self, cell), Children(cell)[i].addr;
    ChangedHolds(m, self, cell);
    assert Holds(m'.heap, self, i, x);
    assert AllInHeap(m'.heap, Children(m'.heap[self]));
    LeadsAlike(m.heap, m'.heap, self, x);
    if q: Path :| Reaches(m'.heap, Ref(x), q, self) {
      assert ([i] + q)[1..] == q;
      assert Reaches(m'.heap, Ref(self), [i] + q, self);
    }
    forall a: Addr, k: nat | a in m.owned && Holds(m.heap, a, k, x) ensures a == self {
      assert a != self ==> Holds(m'.heap, a, k, x);
    }
  }

  /** Changing a built container keeps the forest if and only if what it then holds was free for it. */
  lemma ChangeKeepsForestIff(m: Memory, self: Addr, cell: Cell)
    requires Forest(m) && self in m.owned && self in m.heap && Sound(Changed(m, self, cell))
    ensures Forest(Changed(m, self, cell)) <==> FitsIn(m, self, Children(cell))
  {
    if FitsIn(m, self, Children(cell)) {
      ChangedIsForest(m, self, cell);
    }
    if Forest(Changed(m, self, cell)) {
      var kids, m' := Children(cell), Changed(m, self, cell);
      forall i | 0 <= i < |kids| && kids[i].Ref? ensures FreeFor(m, self, kids[i].addr) {
        HeldIsFree(m, self, cell, i);
      }
      ChangedHolds(m, self, cell);
      forall i, j | 0 <= i < j < |kids| && kids[i].Ref? ensures kids[i] != kids[j] {
        assert Holds(m'.heap, self, i, kids[i].addr);
        assert kids[i] == kids[j] ==> Holds(m'.heap, self, j, kids[i].addr);
      }
    }
  }

  // ---- storing one value --------------------------------------------------------------------------------------

  /** Container x may come to lie under the key: free for the dict, and held nowhere else than at most there. */
  ghost predicate Adoptable(m: Memory, self: Addr, key: Key, x: Addr) {
    && x in m.owned && !Leads(m.heap, x, self)
    && forall a: Addr, i: nat | a in m.owned && Holds(m.heap, a, i, x) :: a == self && i == Place(ItemsOf(m, self), key)
  }

  /** What a dict already holds fits in it. */
  lemma OwnKidsFit(m: Memory, self: Addr)
    requires Forest(m) && self in m.owned && self in m.heap
    ensures FitsIn(m, self, Children(m.heap[self]))
  {
    var kids := Children(m.heap[self]);
    forall i | 0 <= i < |kids| && kids[i].Ref? ensures FreeFor(m, self, kids[i].addr) {
      var x := kids[i].addr;
      assert Holds(m.heap, self, i, x);
      if q: Path :| Reaches(m.heap, Ref(x), q, self) {
        assert ([i] + q)[1..] == q;
        assert Reaches(m.heap, Ref(self), [i] + q, self);
      }
    }
    forall i, j | 0 <= i < j < |kids| && kids[i].Ref? ensures kids[i] != kids[j] {
      assert Holds(m.heap, self, i, kids[i].addr);
      assert kids[i] == kids[j] ==> Holds(m.heap, self, j, kids[i].addr);
    }
  }

  lemma StoredForestIff(m: Memory, self: Addr, key: Key, out: Value)
    requires Forest(m) && IsJsonDict(m, self) && Present(m.heap.Keys, out)
    ensures Forest(Stored(m, self, key, out)) <==> (out.Ref? ==> Adoptable(m, self, key, out.addr))
  {
    var k, kids := Place(ItemsOf(m, self), key), Children(m.heap[self]);
    var cell := Mapping(Json, Put(ItemsOf(m, self), key, out));
    StoredIsSound(m, self, key, out);
    ChangeKeepsForestIff(m, self, cell);
    PutPlaces(ItemsOf(m, self), key, out);
    OwnKidsFit(m, self);
    OneKidFitsIff(m, self, kids, k, out, Children(cell));
  }

  /** Of a dict's values with one replaced or added, only that one can fail to fit. */
  lemma OneKidFitsIff(m: Memory, self: Addr, kids: seq<Value>, k: nat, out: Value, kids': seq<Value>)
    requires Forest(m) && self in m.owned && self in m.heap && Children(m.heap[self]) == kids
    requires FitsIn(m, self, kids) && k <= |kids|
    requires kids' == if k < |kids| then kids[k := out] else kids + [out]
    ensures FitsIn(m, self, kids') <==>
              (out.Ref? ==> FreeFor(m, self, out.addr) && forall i: nat | Holds(m.heap, self, i, out.addr) :: i == k)
  {
    assert kids'[k] == out;
    forall i | 0 <= i < |kids| && i != k ensures kids'[i] == kids[i] {}
    if FitsIn(m, self, kids') && out.Ref? {
      forall i | 0 <= i < |kids| && i != k ensures kids[i] != out {
        assert kids'[i] != kids'[k];
      }
    }
    if out.Ref? ==> FreeFor(m, self, out.addr) && forall i: nat | Holds(m.heap, self, i, out.addr) :: i == k {
      forall i, j | 0 <= i < j < |kids'| && kids'[i].Ref? ensures kids'[i] != kids'[j] {
        assert i != k && out.Ref? ==> (kids[i] == out ==> Holds(m.heap, self, i, out.addr));
        assert j != k && out.Ref? ==> (kids[j] == out ==> Holds(m.heap, self, j, out.addr));
      }
    }
  }

  // ---- adding what a parse has built -----------------------------------------------------------------------

  lemma GrownHolds(m: Memory, r: Parsed<Value>)
    ensures forall a: Addr, i: nat, x: Addr ::
              Holds(Grown(m, r).heap, a, i, x) <==>
              if a in r.cells then Holds(r.cells, a, i, x) else Holds(m.heap, a, i, x)
  {
  }

  /** A built container held by no other. */
  ghost predicate Free(m: Memory, x: Addr) {
    x in m.owned && forall b: Addr, j: nat | b in m.owned :: !Holds(m.heap, b, j, x)
  }

  /** What the new containers hold besides each other was free, and is held by them once. */
  ghost predicate StraysFit(m: Memory, cells: Heap) {
    forall a: Addr, i: nat, x: Addr | Holds(cells, a, i, x) && x !in cells ::
      && Free(m, x)
      && forall b: Addr, j: nat | Holds(cells, b, j, x) :: b == a && j == i
  }

  /** The result of a parse in this memory, as far as the containers are concerned. */
  ghost predicate BuiltOn(m: Memory, r: Parsed<Value>) {
    BuiltRow(m.next, r.cells, [r.out], m.next, r.next) && Sound(Grown(m, r))
  }

  /** From a new container only younger new ones are reached, and built ones there were. */
  lemma {:induction false} NewPaths(m: Memory, r: Parsed<Value>, a: Addr, p: Path, x: Addr)
    requires Forest(m) && BuiltOn(m, r) && StraysFit(m, r.cells)
    requires a in r.cells && Reaches(Grown(m, r).heap, Ref(a), p, x)
    ensures if x in r.cells then (p == [] && x == a) || a < x else x in m.owned
    decreases |p|
  {
    if p != [] {
      var h, child := Grown(m, r).heap, Children(r.cells[a])[p[0]];
      assert Resolve(h, Ref(a), p) == Resolve(h, child, p[1..]);
      if child.Ref? {
        assert Holds(r.cells, a, p[0], child.addr);
        if child.addr in r.cells {
          NewPaths(m, r, child.addr, p[1..], x);
        } else {
          assert Free(m, child.addr);
          OldPaths(m, r, child.addr, p[1..], x);
        }
      }
    }
  }

  /** From a built container that was there before only such are reached, and as before. */
  lemma OldPaths(m: Memory, r: Parsed<Value>, a: Addr, p: Path, x: Addr)
    requires Forest(m) && BuiltOn(m, r) && a in m.owned
    ensures Reaches(Grown(m, r).heap, Ref(a), p, x) <==> Reaches(m.heap, Ref(a), p, x)
    ensures Reaches(m.heap, Ref(a), p, x) ==> x in m.owned && x !in r.cells
  {
    OwnedResolvesAlike(m, Grown(m, r).heap, Ref(a), p);
    if Reaches(m.heap, Ref(a), p, x) {
      OwnedPathsStay(m, Ref(a), p, x);
    }
  }

  lemma GrownIsForest(m: Memory, r: Parsed<Value>)
    requires Forest(m) && BuiltOn(m, r) && StraysFit(m, r.cells)
    ensures Forest(Grown(m, r))
  {
    var m' := Grown(m, r);
    GrownHolds(m, r);
    forall a: Addr, i: nat, x: Addr | a in m'.owned && Holds(m'.heap, a, i, x) ensures x in m'.owned {
      assert a in r.cells && x !in r.cells ==> Free(m, x);
    }
    GrownHeldOnce(m, r);
    forall a: Addr, p: Path | a in m'.owned && p != [] ensures !Reaches(m'.heap, Ref(a), p, a) {
      if a in r.cells {
        if Reaches(m'.heap, Ref(a), p, a) {
          NewPaths(m, r, a, p, a);
        }
      } else {
        OldPaths(m, r, a, p, a);
      }
    }
  }

  lemma GrownHeldOnce(m: Memory, r: Parsed<Value>)
    requires Forest(m) && BuiltOn(m, r) && StraysFit(m, r.cells)
    ensures HeldOnce(Grown(m, r))
  {
    var m' := Grown(m, r);
    GrownHolds(m, r);
    forall a: Addr, i: nat, b: Addr, j: nat, x: Addr |
      a in m'.owned && b in m'.owned && Holds(m'.heap, a, i, x) && Holds(m'.heap, b, j, x)
      ensures a == b && i == j
    {
      if x !in r.cells && (a in r.cells || b in r.cells) {
        assert Free(m, x);
      }
    }
  }

  /** What a parse has built keeps the forest if and only if what it holds besides itself fits. */
  lemma GrownForestIff(m: Memory, r: Parsed<Value>)
    requires Forest(m) && BuiltOn(m, r)
    ensures Forest(Grown(m, r)) <==> StraysFit(m, r.cells)
  {
    if StraysFit(m, r.cells) {
      GrownIsForest(m, r);
    }
    if Forest(Grown(m, r)) {
      var m' := Grown(m, r);
      GrownHolds(m, r);
      forall a: Addr, i: nat, x: Addr | Holds(r.cells, a, i, x) && x !in r.cells
        ensures Free(m, x) && forall b: Addr, j: nat | Holds(r.cells, b, j, x) :: b == a && j == i
      {
        assert Holds(m'.heap, a, i, x);
        forall b: Addr, j: nat | b in m.owned ensures !Holds(m.heap, b, j, x) {
          assert b !in r.cells;
          assert Holds(m.heap, b, j, x) ==> Holds(m'.heap, b, j, x);
        }
        forall b: Addr, j: nat | Holds(r.cells, b, j, x) ensures b == a && j == i {
          assert Holds(m'.heap, b, j, x);
        }
      }
    }
  }

  // ---- what enum members hand over -----------------------------------------------------------------------------

  /** Along this path the value has an enum member over container x. */
  predicate HandsOver(h: Heap, v: Value, p: Path, x: Addr) {
    Resolve(h, v, p) == Some(EnumMember(Ref(x)))
  }

  ghost predicate HandsOverOnce(h: Heap, v: Value) {
    forall p: Path, q: Path, x: Addr | HandsOver(h, v, p, x) && HandsOver(h, v, q, x) :: p == q
  }

  /** A stray lies where the value has the enum member that handed it over. */
  lemma StrayWasHandedOver(m: Memory, cls: Class, v: Value, markers: set<Addr>, a: Addr, i: nat, x: Addr)
    returns (p: Path)
    requires Sound(m) && Present(m.heap.Keys, v) && InHeap(m.heap, v)
    requires ParseValue(m.heap, cls, v, markers, m.next).Some?
    requires var r := ParseValue(m.heap, cls, v, markers, m.next).value; Holds(r.cells, a, i, x) && x !in r.cells
    ensures var r := ParseValue(m.heap, cls, v, markers, m.next).value;
            && HandsOver(m.heap, v, p, x) && p != [] && p[|p| - 1] == i
            && Reaches(r.cells, r.out, p[..|p| - 1], a)
  {
    var r := ParseValue(m.heap, cls, v, markers, m.next).value;
    PresentIsBelow(m, v);
    ParsedInMemory(m, cls, v, markers);
    var q := BuiltIsReached(m.next, m.heap, cls, v, markers, m.next, a);
    p := q + [i];
    assert p[..|p| - 1] == q;
    HeldIsReached(r.cells, r.out, q, a, i, x);
    StrayIsImage(m.heap, cls, v, r.cells, r.out, p, x);
  }

  lemma HeldIsReached(h: Heap, v: Value, q: Path, a: Addr, i: nat, x: Addr)
    requires Reaches(h, v, q, a) && Holds(h, a, i, x)
    ensures Reaches(h, v, q + [i], x)
  {
    ResolveAppend(h, v, q, [i]);
  }

  lemma StrayIsImage(h: Heap, cls: Class, v: Value, cells: Heap, out: Value, p: Path, x: Addr)
    requires Mirrors(h, cls, v, cells, out) && Reaches(cells, out, p, x) && x !in cells
    ensures HandsOver(h, v, p, x)
  {
    assert ImageAt(h, cls, v, cells, out, p);
  }

  /** And where a value below the top has such a member, the copy has the stray. */
  lemma HandedOverIsStray(m: Memory, cls: Class, v: Value, markers: set<Addr>, p: Path, x: Addr)
    returns (a: Addr, i: nat)
    requires Sound(m) && Present(m.heap.Keys, v) && InHeap(m.heap, v)
    requires ParseValue(m.heap, cls, v, markers, m.next).Some?
    requires HandsOver(m.heap, v, p, x) && p != []
    ensures var r := ParseValue(m.heap, cls, v, markers, m.next).value;
            && Holds(r.cells, a, i, x) && x !in r.cells && x in m.heap
            && p[|p| - 1] == i && Reaches(r.cells, r.out, p[..|p| - 1], a)
  {
    var r := ParseValue(m.heap, cls, v, markers, m.next).value;
    ParsedInMemory(m, cls, v, markers);
    assert ImageAt(m.heap, cls, v, r.cells, r.out, p);
    a, i := LastStep(r.cells, r.out, p, Ref(x));
    PresentLeaf(m, v, p, Ref(x));
  }

  /** What is built for a container fits if and only if every container handed over is free, and handed over once. */
  lemma StraysFitIff(m: Memory, m0: Memory, cls: Class, v: Value, markers: set<Addr>)
    requires Sound(m) && Present(m.heap.Keys, v) && InHeap(m.heap, v) && v.Ref?
    requires ParseValue(m.heap, cls, v, markers, m.next).Some?
    ensures var r := ParseValue(m.heap, cls, v, markers, m.next).value;
            StraysFit(m0, r.cells) <==>
            (forall p: Path, x: Addr | HandsOver(m.heap, v, p, x) :: Free(m0, x)) && HandsOverOnce(m.heap, v)
  {
    var r := ParseValue(m.heap, cls, v, markers, m.next).value;
    if StraysFit(m0, r.cells) {
      forall p: Path, x: Addr | HandsOver(m.heap, v, p, x) ensures Free(m0, x) {
        var a, i := HandedOverIsStray(m, cls, v, markers, p, x);
      }
      forall p: Path, q: Path, x: Addr | HandsOver(m.heap, v, p, x) && HandsOver(m.heap, v, q, x) ensures p == q {
        SamePlaceSamePath(m, m0, cls, v, markers, p, q, x);
      }
    }
    if (forall p: Path, x: Addr | HandsOver(m.heap, v, p, x) :: Free(m0, x)) && HandsOverOnce(m.heap, v) {
      forall a: Addr, i: nat, x: Addr | Holds(r.cells, a, i, x) && x !in r.cells
        ensures Free(m0, x) && forall b: Addr, j: nat | Holds(r.cells, b, j, x) :: b == a && j == i
      {
        var p := StrayWasHandedOver(m, cls, v, markers, a, i, x);
        forall b: Addr, j: nat | Holds(r.cells, b, j, x) ensures b == a && j == i {
          var q := StrayWasHandedOver(m, cls, v, markers, b, j, x);
        }
      }
    }
  }

  lemma SamePlaceSamePath(
      m: Memory, m0: Memory, cls: Class, v: Value, markers: set<Addr>, p: Path, q: Path, x: Addr)
    requires Sound(m) && Present(m.heap.Keys, v) && InHeap(m.heap, v) && v.Ref?
    requires ParseValue(m.heap, cls, v, markers, m.next).Some?
    requires StraysFit(m0, ParseValue(m.heap, cls, v, markers, m.next).value.cells)
    requires HandsOver(m.heap, v, p, x) && HandsOver(m.heap, v, q, x)
    ensures p == q
  {
    var r := ParseValue(m.heap, cls, v, markers, m.next).value;
    var a, i := HandedOverIsStray(m, cls, v, markers, p, x);
    var b, j := HandedOverIsStray(m, cls, v, markers, q, x);
    ParsedInMemory(m, cls, v, markers);
    assert a == b && i == j;
    StepsAlike(m.next, r.cells, r.out, r.next, p, q, a);
  }

  /** Paths that take the same step from the same container are the same. */
  lemma StepsAlike(base: Addr, cells: Heap, out: Value, hi: Addr, p: Path, q: Path, a: Addr)
    requires BuiltRow(base, cells, [out], base, hi) && a in cells && p != [] && q != []
    requires Reaches(cells, out, p[..|p| - 1], a) && Reaches(cells, out, q[..|q| - 1], a)
    requires p[|p| - 1] == q[|q| - 1]
    ensures p == q
  {
    PathsDiffer(base, cells, out, hi, p[..|p| - 1], q[..|q| - 1], a);
    assert p == p[..|p| - 1] + [p[|p| - 1]] && q == q[..|q| - 1] + [q[|q| - 1]];
  }

  // ---- constructions and stores ----------------------------------------------------------------------------------

  /** Every container that an enum member reached hands over is a built one held by no other, and none comes twice. */
  ghost predicate Joins(m: Memory, v: Value) {
    && (forall p: Path, x: Addr | HandsOver(m.heap, v, p, x) :: Free(m, x))
    && HandsOverOnce(m.heap, v)
  }

  /**
    A successful construction keeps the forest if and only if every container that an enum member reached
    hands over is a built one held by no other, and none is handed over twice.
   */
  lemma ConstructKeepsForestIff(m: Memory, cls: Class, obj: Addr)
    requires Forest(m) && obj in m.heap && Construct(m, cls, obj).Some?
    ensures Forest(Construct(m, cls, obj).value) <==> Joins(m, Ref(obj))
  {
    var r := ParseValue(m.heap, cls, Ref(obj), {}, m.next).value;
    ParsedInMemory(m, cls, Ref(obj), {});
    GrownForestIff(m, r);
    StraysFitIff(m, m, cls, Ref(obj), {});
  }

  /** Every container that an enum member reached hands over may come to lie under the key, and none comes twice. */
  ghost predicate Adopts(m: Memory, self: Addr, key: Key, v: Value) {
    && (forall p: Path, x: Addr | HandsOver(m.heap, v, p, x) :: Adoptable(m, self, key, x))
    && HandsOverOnce(m.heap, v)
  }

  /** Putting twice under one key is putting once. */
  lemma {:induction false} PutTwice(items: seq<Item>, key: Key, v: Value, w: Value)
    ensures Put(Put(items, key, v), key, w) == Put(items, key, w)
    ensures Place(Put(items, key, v), key) == Place(items, key)
  {
    if items != [] && items[0].key != key {
      PutTwice(items[1..], key, v, w);
      assert Put(items, key, v)[1..] == Put(items[1..], key, v);
    }
  }

  /** The memory with nothing but a null under the key, from where a store can be looked at in two steps. */
  function Cleared(m: Memory, self: Addr, key: Key): Memory {
    Stored(m, self, key, Plain(Null))
  }

  lemma ClearedIsForest(m: Memory, self: Addr, key: Key)
    requires Forest(m) && IsJsonDict(m, self)
    ensures Forest(Cleared(m, self, key)) && IsJsonDict(Cleared(m, self, key), self)
  {
    StoredForestIff(m, self, key, Plain(Null));
  }

  lemma ClearedHolds(m: Memory, self: Addr, key: Key, x: Addr)
    requires Forest(m) && IsJsonDict(m, self) && x in m.heap
    ensures var m0 := Cleared(m, self, key);
            Adoptable(m, self, key, x) <==> Free(m0, x) && !Leads(m0.heap, x, self)
  {
    var m0 := Cleared(m, self, key);
    StoredHolds(m, self, key, Plain(Null));
    ClearedIsForest(m, self, key);
    LeadsAlike(m.heap, m0.heap, self, x);
    var k := Place(ItemsOf(m, self), key);
    if Adoptable(m, self, key, x) {
      forall b: Addr, j: nat | b in m0.owned ensures !Holds(m0.heap, b, j, x) {}
    }
    if Free(m0, x) && !Leads(m0.heap, x, self) {
      forall a: Addr, i: nat | a in m.owned && Holds(m.heap, a, i, x) ensures a == self && i == k {
        assert !Holds(m0.heap, a, i, x);
      }
    }
  }

  /** A store is clearing the place, adding what was built, and putting it there. */
  lemma StoreInSteps(m: Memory, self: Addr, key: Key, r: Parsed<Value>)
    requires Sound(m) && IsJsonDict(m, self) && BuiltRow(m.next, r.cells, [r.out], m.next, r.next)
    ensures var m1 := Grown(Cleared(m, self, key), r);
            && Stored(m1, self, key, r.out) == Stored(Grown(m, r), self, key, r.out)
            && Cleared(Stored(m1, self, key, r.out), self, key) == m1
            && m1.heap == Cleared(Grown(m, r), self, key).heap
  {
    var m0 := Cleared(m, self, key);
    var m1 := Grown(m0, r);
    assert self !in r.cells;
    var items := ItemsOf(m, self);
    PutTwice(items, key, Plain(Null), r.out);
    PutTwice(items, key, r.out, Plain(Null));
    assert ItemsOf(m1, self) == Put(items, key, Plain(Null));
    assert Stored(m1, self, key, r.out).heap == Stored(Grown(m, r), self, key, r.out).heap;
    assert Cleared(Stored(m1, self, key, r.out), self, key).heap == m1.heap;
  }

  /** In the memory with the place cleared, the new root leads back to the dict iff a stray does. */
  lemma RootLeadsIff(m: Memory, m0: Memory, self: Addr, v: Value)
    requires Sound(m) && Present(m.heap.Keys, v) && InHeap(m.heap, v) && v.Ref?
    requires ParseValue(m.heap, Json, v, {self}, m.next).Some?
    requires Forest(m0) && m0.next == m.next && self in m0.owned
    requires var r := ParseValue(m.heap, Json, v, {self}, m.next).value; BuiltOn(m0, r) && StraysFit(m0, r.cells)
    ensures var r := ParseValue(m.heap, Json, v, {self}, m.next).value;
            Leads(Grown(m0, r).heap, m.next, self) <==>
            exists p: Path, x: Addr :: HandsOver(m.heap, v, p, x) && Leads(m0.heap, x, self)
  {
    var r := ParseValue(m.heap, Json, v, {self}, m.next).value;
    var h1 := Grown(m0, r).heap;
    ParsedInMemory(m, Json, v, {self});
    if q: Path :| Reaches(h1, Ref(m.next), q, self) {
      var a, i, x := ExitsThroughStray(m0, r, m.next, q, self);
      var p := StrayWasHandedOver(m, Json, v, {self}, a, i, x);
      assert HandsOver(m.heap, v, p, x) && Leads(m0.heap, x, self);
    }
    if p: Path, x: Addr :| HandsOver(m.heap, v, p, x) && Leads(m0.heap, x, self) {
      var a, i := HandedOverIsStray(m, Json, v, {self}, p, x);
      StrayLeadsOn(m0, r, p[..|p| - 1], a, i, x, self);
    }
  }

  /** The way out of the new containers to an old one goes through a stray. */
  lemma {:induction false} ExitsThroughStray(m0: Memory, r: Parsed<Value>, a: Addr, q: Path, self: Addr)
    returns (b: Addr, i: nat, x: Addr)
    requires Forest(m0) && BuiltOn(m0, r) && StraysFit(m0, r.cells) && a in r.cells && self !in r.cells
    requires Reaches(Grown(m0, r).heap, Ref(a), q, self)
    ensures Holds(r.cells, b, i, x) && x !in r.cells && Leads(m0.heap, x, self)
    decreases |q|
  {
    var h, child := Grown(m0, r).heap, Children(r.cells[a])[q[0]];
    assert Resolve(h, Ref(a), q) == Resolve(h, child, q[1..]);
    assert Holds(r.cells, a, q[0], child.addr);
    if child.addr in r.cells {
      b, i, x := ExitsThroughStray(m0, r, child.addr, q[1..], self);
    } else {
      b, i, x := a, q[0], child.addr;
      assert Free(m0, x);
      OldPaths(m0, r, x, q[1..], self);
    }
  }

  lemma StrayLeadsOn(m0: Memory, r: Parsed<Value>, p: Path, a: Addr, i: nat, x: Addr, self: Addr)
    requires Forest(m0) && BuiltOn(m0, r) && StraysFit(m0, r.cells)
    requires Reaches(r.cells, r.out, p, a) && Holds(r.cells, a, i, x) && x !in r.cells && Leads(m0.heap, x, self)
    ensures r.out.Ref? && Leads(Grown(m0, r).heap, r.out.addr, self)
  {
    var h1 := Grown(m0, r).heap;
    var q: Path :| Reaches(m0.heap, Ref(x), q, self);
    assert Free(m0, x);
    OldPaths(m0, r, x, q, self);
    ResolveGrows(r.cells, h1, r.out, p);
    assert ([i] + q)[1..] == q;
    assert Reaches(h1, Ref(a), [i] + q, self);
    ResolveAppend(h1, r.out, p, [i] + q);
    assert Reaches(h1, r.out, p + ([i] + q), self);
  }

  /**
    A successful store keeps the forest if and only if every container that an enum member reached hands over
    is a built one that does not lead to the dict and is held nowhere else than at most in the place stored to,
    and none is handed over twice.
   */
  lemma SetItemKeepsForestIff(m: Memory, self: Addr, key: Key, v: Value)
    requires Forest(m) && IsJsonDict(m, self) && InHeap(m.heap, v) && Present(m.heap.Keys, v)
    requires SetItem(m, self, key, v).Some?
    ensures Forest(SetItem(m, self, key, v).value) <==> Adopts(m, self, key, v)
  {
    if v.Ref? {
      ContainerStoreIff(m, self, key, v);
    } else {
      LeafStoreIff(m, self, key, v);
    }
  }

  lemma LeafStoreIff(m: Memory, self: Addr, key: Key, v: Value)
    requires Forest(m) && IsJsonDict(m, self) && Present(m.heap.Keys, v) && !v.Ref?
    ensures Forest(SetItem(m, self, key, v).value) <==> Adopts(m, self, key, v)
  {
    LeafIsStored(m, self, key, v);
    StoredForestIff(m, self, key, Convert(v));
    LeafAdoptsIff(m, self, key, v);
  }

  lemma LeafIsStored(m: Memory, self: Addr, key: Key, v: Value)
    requires Sound(m) && Present(m.heap.Keys, v) && !v.Ref?
    ensures SetItem(m, self, key, v) == Some(Stored(m, self, key, Convert(v)))
    ensures Present(m.heap.Keys, Convert(v))
  {
    assert Grown(m, ParseValue(m.heap, Json, v, {self}, m.next).value) == m;
    PresentGrows(m.heap.Keys, m.heap.Keys, Convert(v));
  }

  lemma LeafAdoptsIff(m: Memory, self: Addr, key: Key, v: Value)
    requires Sound(m) && IsJsonDict(m, self) && !v.Ref?
    ensures Adopts(m, self, key, v) <==> (Convert(v).Ref? ==> Adoptable(m, self, key, Convert(v).addr))
  {
    LeafHandsOver(m.heap, v);
    if v.EnumMember? && v.value.Ref? {
      assert HandsOver(m.heap, v, [], v.value.addr);
    }
  }

  lemma LeafHandsOver(h: Heap, v: Value)
    requires !v.Ref?
    ensures forall p: Path, x: Addr :: HandsOver(h, v, p, x) <==> p == [] && v == EnumMember(Ref(x))
  {
  }

  lemma ContainerStoreIff(m: Memory, self: Addr, key: Key, v: Value)
    requires Forest(m) && IsJsonDict(m, self) && InHeap(m.heap, v) && Present(m.heap.Keys, v) && v.Ref?
    requires SetItem(m, self, key, v).Some?
    ensures Forest(SetItem(m, self, key, v).value) <==> Adopts(m, self, key, v)
  {
    var r := ParseValue(m.heap, Json, v, {self}, m.next).value;
    var m0 := Cleared(m, self, key);
    ParsedInMemory(m, Json, v, {self});
    ClearedIsForest(m, self, key);
    StoreInSteps(m, self, key, r);
    StepsAreSound(m, self, key, r);
    GrownForestIff(m0, r);
    StraysFitIff(m, m0, Json, v, {self});
    GrownStoreIff(m0, self, key, r);
    if StraysFit(m0, r.cells) {
      RootLeadsIff(m, m0, self, v);
    }
    forall p: Path, x: Addr | HandsOver(m.heap, v, p, x)
      ensures Adoptable(m, self, key, x) <==> Free(m0, x) && !Leads(m0.heap, x, self)
    {
      PresentLeaf(m, v, p, Ref(x));
      ClearedHolds(m, self, key, x);
    }
  }

  lemma StepsAreSound(m: Memory, self: Addr, key: Key, r: Parsed<Value>)
    requires Sound(m) && IsJsonDict(m, self) && BuiltRow(m.next, r.cells, [r.out], m.next, r.next)
    requires Sound(Grown(m, r)) && Present(Grown(m, r).heap.Keys, r.out)
    ensures var m1 := Grown(Cleared(m, self, key), r);
            Sound(m1) && Present(m1.heap.Keys, r.out) && IsJsonDict(m1, self)
            && Sound(Stored(m1, self, key, r.out)) && IsJsonDict(Stored(m1, self, key, r.out), self)
  {
    var m1 := Grown(Cleared(m, self, key), r);
    StoredIsSound(Grown(m, r), self, key, Plain(Null));
    assert self !in r.cells;
    assert m1.heap == Cleared(Grown(m, r), self, key).heap;
    assert m1 == Cleared(Grown(m, r), self, key);
    assert m1.heap.Keys == Grown(m, r).heap.Keys;
    StoredIsSound(m1, self, key, r.out);
  }

  /** Putting the new root under the cleared key: a forest before, and the root does not lead back. */
  lemma GrownStoreIff(m0: Memory, self: Addr, key: Key, r: Parsed<Value>)
    requires Forest(m0) && IsJsonDict(m0, self) && BuiltOn(m0, r) && r.out == Ref(m0.next) && m0.next in r.cells
    requires var m1 := Grown(m0, r);
             && IsJsonDict(m1, self) && Present(m1.heap.Keys, r.out)
             && Sound(Stored(m1, self, key, r.out)) && IsJsonDict(Stored(m1, self, key, r.out), self)
             && Cleared(Stored(m1, self, key, r.out), self, key) == m1
    ensures var m1 := Grown(m0, r);
            Forest(Stored(m1, self, key, r.out)) <==> Forest(m1) && !Leads(m1.heap, m0.next, self)
  {
    var m1 := Grown(m0, r);
    var m2 := Stored(m1, self, key, r.out);
    if Forest(m2) {
      ClearedIsForest(m2, self, key);
    }
    if Forest(m1) {
      StoredForestIff(m1, self, key, r.out);
      RootIsUnheld(m0, r);
    }
  }

  lemma RootIsUnheld(m: Memory, r: Parsed<Value>)
    requires Sound(m) && BuiltRow(m.next, r.cells, [r.out], m.next, r.next) && r.out == Ref(m.next) && m.next in r.cells
    ensures forall a: Addr, i: nat :: !Holds(Grown(m, r).heap, a, i, m.next)
  {
    GrownHolds(m, r);
    assert [r.out][0] == Ref(m.next);
    forall a: Addr, i: nat ensures !Holds(m.heap, a, i, m.next) {
      assert a in m.heap ==> RowBelow(Children(m.heap[a]), m.next);
    }
  }
}
