/** Every run of a program over its own containers and the ones that JsonDict built. */
module JsonRuns {
  import opened Wrappers
  import opened JsonGraph
  import opened JsonStores
  import opened JsonForest

  /**
    `Rebind` is the program changing or making a container of its own, in any way. `Amend` is it changing in
    place, in any way, one that JsonDict built: a list, or a dict by what JsonDict inherits and does not override.
   */
  datatype Op =
    | Rebind(addr: Addr, cell: Cell)
    | Amend(addr: Addr, cell: Cell)
    | New(cls: Class, obj: Addr)
    | Store(self: Addr, key: Key, value: Value)
    | SetDefault(self: Addr, key: Key, value: Value)
    | Update(self: Addr, pairs: seq<Item>)

  /** A value the program can have: everything it mentions exists. */
  predicate Usable(m: Memory, v: Value) {
    InHeap(m.heap, v) && Present(m.heap.Keys, v)
  }

  /** One and the same dict or list, with other contents. */
  predicate SameObject(before: Cell, after: Cell) {
    match (before, after)
    case (Mapping(c, _), Mapping(d, _)) => c == d
    case (Sequence(k, _), Sequence(l, _)) => k.List? && l.List?
    case _ => false
  }

  /** The step is one a program can take: what it names exists and can be changed that way. */
  predicate Enabled(m: Memory, op: Op) {
    match op
    case Rebind(a, cell) => a !in m.owned && a <= m.next && RowPresent(m.heap.Keys, Children(cell))
    case Amend(a, cell) =>
      && a in m.owned && a in m.heap && SameObject(m.heap[a], cell) && RowPresent(m.heap.Keys, Children(cell))
    case New(cls, obj) => obj in m.heap && m.heap[obj].Mapping? && !cls.Foreign?
    case Store(self, _, v) => IsJsonDict(m, self) && Usable(m, v)
    case SetDefault(self, _, v) => IsJsonDict(m, self) && Usable(m, v)
    case Update(self, pairs) => IsJsonDict(m, self) && forall i | 0 <= i < |pairs| :: Usable(m, pairs[i].value)
  }

  lemma StoreLeavesRestEnabled(m: Memory, self: Addr, pairs: seq<Item>)
    requires Sound(m) && Enabled(m, Update(self, pairs)) && pairs != []
    requires SetItem(m, self, pairs[0].key, pairs[0].value).Some?
    ensures var m' := SetItem(m, self, pairs[0].key, pairs[0].value).value;
            Sound(m') && Enabled(m', Update(self, pairs[1..]))
  {
    var m' := SetItem(m, self, pairs[0].key, pairs[0].value).value;
    SetItemIsSound(m, self, pairs[0].key, pairs[0].value);
    forall i | 0 <= i < |pairs[1..]| ensures Usable(m', pairs[1..][i].value) {
      assert Usable(m, pairs[i + 1].value);
      PresentGrows(m.heap.Keys, m'.heap.Keys, pairs[i + 1].value);
    }
  }

  /** Whatever a mapping holds can be stored. */
  lemma ItemsAreUsable(m: Memory, other: Addr)
    requires Sound(m) && other in m.heap && m.heap[other].Mapping?
    ensures forall i | 0 <= i < |m.heap[other].items| :: Usable(m, m.heap[other].items[i].value)
  {
    var kids := Children(m.heap[other]);
    forall i | 0 <= i < |kids| ensures Usable(m, kids[i]) {
      assert RowPresent(m.heap.Keys, kids) && AllInHeap(m.heap, kids);
    }
  }

  datatype Updated = Updated(memory: Memory, ok: bool)

  /** One store after the other; a refused one raises, and the ones before it stay. */
  ghost function StoreAll(m: Memory, self: Addr, pairs: seq<Item>): (u: Updated)
    requires Sound(m) && Enabled(m, Update(self, pairs))
    ensures Sound(u.memory)
    decreases |pairs|
  {
    if pairs == [] then Updated(m, true)
    else
      match SetItem(m, self, pairs[0].key, pairs[0].value)
      case None => Updated(m, false)
      case Some(m') =>
        StoreLeavesRestEnabled(m, self, pairs);
        StoreAll(m', self, pairs[1..])
  }

  lemma StoreAllStep(m: Memory, self: Addr, pairs: seq<Item>)
    requires Sound(m) && Enabled(m, Update(self, pairs)) && pairs != []
    requires SetItem(m, self, pairs[0].key, pairs[0].value).Some?
    ensures var m' := SetItem(m, self, pairs[0].key, pairs[0].value).value;
            && Sound(m') && Enabled(m', Update(self, pairs[1..]))
            && StoreAll(m, self, pairs) == StoreAll(m', self, pairs[1..])
  {
    StoreLeavesRestEnabled(m, self, pairs);
  }

  /** Exactly the first k pairs are stored, plainly; the pair after them, if there is one, is refused. */
  ghost predicate StopsAt(m: Memory, self: Addr, pairs: seq<Item>, k: nat)
    requires Sound(m) && Enabled(m, Update(self, pairs)) && k <= |pairs|
  {
    var m' := StoreAll(m, self, pairs).memory;
    && StoreAll(m, self, pairs[..k]) == Updated(m', true)
    && (StoreAll(m, self, pairs).ok <==> k == |pairs|)
    && (k < |pairs| ==> Usable(m', pairs[k].value) && SetItem(m', self, pairs[k].key, pairs[k].value).None?)
  }

  lemma StopsOneLater(m: Memory, self: Addr, pairs: seq<Item>, m': Memory, k: nat)
    requires Sound(m) && Enabled(m, Update(self, pairs)) && pairs != []
    requires SetItem(m, self, pairs[0].key, pairs[0].value) == Some(m') && Sound(m')
    requires k <= |pairs[1..]| && Enabled(m', Update(self, pairs[1..])) && StopsAt(m', self, pairs[1..], k)
    ensures StopsAt(m, self, pairs, k + 1)
  {
    StoreAllStep(m, self, pairs);
    assert pairs[..k + 1][0] == pairs[0] && pairs[..k + 1][1..] == pairs[1..][..k];
    StoreAllStep(m, self, pairs[..k + 1]);
  }

  /** An update is the plain stores of the longest run of pairs none of which is refused. */
  lemma {:induction false} UpdateStopsAtFirstRefused(m: Memory, self: Addr, pairs: seq<Item>) returns (k: nat)
    requires Sound(m) && Enabled(m, Update(self, pairs))
    ensures k <= |pairs| && StopsAt(m, self, pairs, k)
    decreases |pairs|
  {
    if pairs == [] || SetItem(m, self, pairs[0].key, pairs[0].value).None? {
      k := 0;
    } else {
      StoreAllStep(m, self, pairs);
      var m' := SetItem(m, self, pairs[0].key, pairs[0].value).value;
      var rest := UpdateStopsAtFirstRefused(m', self, pairs[1..]);
      StopsOneLater(m, self, pairs, m', rest);
      k := rest + 1;
    }
  }

  ghost function Apply(m: Memory, op: Op): Memory
    requires Sound(m)
  {
    if !Enabled(m, op) then m
    else
      match op
      case Rebind(a, cell) => Changed(m, a, cell).(next := if a == m.next then a + 1 else m.next)
      case Amend(a, cell) => Changed(m, a, cell)
      case New(cls, obj) => (match Construct(m, cls, obj) case None => m case Some(m') => m')
      case Store(self, key, v) => (match SetItem(m, self, key, v) case None => m case Some(m') => m')
      case SetDefault(self, key, v) =>
        if Get(ItemsOf(m, self), key).Some? then m
        else (match SetItem(m, self, key, v) case None => m case Some(m') => m')
      case Update(self, pairs) => StoreAll(m, self, pairs).memory
  }

  lemma ChangedIsSound(m: Memory, a: Addr, cell: Cell)
    requires Sound(m) && a <= m.next && RowPresent(m.heap.Keys, Children(cell))
    ensures Sound(Changed(m, a, cell).(next := if a == m.next then a + 1 else m.next))
  {
    var m' := Changed(m, a, cell).(next := if a == m.next then a + 1 else m.next);
    HeapPresentGrows(m.heap.Keys, m'.heap.Keys, m.heap);
    RowPresentGrows(m.heap.Keys, m'.heap.Keys, Children(cell));
    PresentRowIsBelow(m, Children(cell));
    forall b | b in m'.heap
      ensures b < m'.next && RowBelow(Children(m'.heap[b]), m'.next) && AllInHeap(m'.heap, Children(m'.heap[b]))
      ensures RowPresent(m'.heap.Keys, Children(m'.heap[b]))
    {
      RowBelowGrows(if b == a then Children(cell) else Children(m.heap[b]), m.next, m'.next);
      assert RowPresent(m'.heap.Keys, Children(m'.heap[b]));
    }
  }

  lemma AmendedIsSound(m: Memory, a: Addr, cell: Cell)
    requires Sound(m) && Enabled(m, Amend(a, cell))
    ensures Sound(Changed(m, a, cell))
  {
    ChangedIsSound(m, a, cell);
    assert a < m.next;
  }

  lemma ApplyIsSound(m: Memory, op: Op)
    requires Sound(m)
    ensures Sound(Apply(m, op))
  {
    if Enabled(m, op) {
      match op
      case Rebind(a, cell) => ChangedIsSound(m, a, cell);
      case Amend(a, cell) => AmendedIsSound(m, a, cell);
      case New(cls, obj) =>
        if Construct(m, cls, obj).Some? {
          ParsedInMemory(m, cls, Ref(obj), {});
        }
      case Store(self, key, v) =>
        if SetItem(m, self, key, v).Some? {
          SetItemIsSound(m, self, key, v);
        }
      case SetDefault(self, key, v) =>
        if SetItem(m, self, key, v).Some? {
          SetItemIsSound(m, self, key, v);
        }
      case Update(self, pairs) =>
    }
  }

  ghost function Start(): (m: Memory)
    ensures Forest(m)
  {
    Memory(map[], {}, 0)
  }

  /** A run of the program, from any steps whatever; a step no program can take does nothing. */
  ghost function Run(ops: seq<Op>): (m: Memory)
    ensures Sound(m)
  {
    if ops == [] then Start()
    else
      ApplyIsSound(Run(ops[..|ops| - 1]), ops[|ops| - 1]);
      Apply(Run(ops[..|ops| - 1]), ops[|ops| - 1])
  }

  lemma RunSnoc(ops: seq<Op>, op: Op)
    ensures Run(ops + [op]) == Apply(Run(ops), op)
  {
    assert (ops + [op])[..|ops|] == ops;
  }

  // ---- when a run stays a forest ------------------------------------------------------------------------------

  ghost predicate KeepsStore(m: Memory, self: Addr, key: Key, v: Value)
    requires Sound(m) && InHeap(m.heap, v)
  {
    SetItem(m, self, key, v).None? || Adopts(m, self, key, v)
  }

  /** Every store that the update comes to do keeps the forest. */
  ghost predicate KeepsStores(m: Memory, self: Addr, pairs: seq<Item>)
    requires Sound(m) && Enabled(m, Update(self, pairs))
    decreases |pairs|
  {
    pairs != [] && SetItem(m, self, pairs[0].key, pairs[0].value).Some? ==>
      && Adopts(m, self, pairs[0].key, pairs[0].value)
      && (StoreLeavesRestEnabled(m, self, pairs);
          KeepsStores(SetItem(m, self, pairs[0].key, pairs[0].value).value, self, pairs[1..]))
  }

  /** The memory is a forest after every store that the update comes to do. */
  ghost predicate ForestsThroughout(m: Memory, self: Addr, pairs: seq<Item>)
    requires Sound(m) && Enabled(m, Update(self, pairs))
    decreases |pairs|
  {
    pairs != [] && SetItem(m, self, pairs[0].key, pairs[0].value).Some? ==>
      && Forest(SetItem(m, self, pairs[0].key, pairs[0].value).value)
      && (StoreLeavesRestEnabled(m, self, pairs);
          ForestsThroughout(SetItem(m, self, pairs[0].key, pairs[0].value).value, self, pairs[1..]))
  }

  lemma {:induction false} UpdateKeepsForestIff(m: Memory, self: Addr, pairs: seq<Item>)
    requires Forest(m) && Enabled(m, Update(self, pairs))
    ensures ForestsThroughout(m, self, pairs) <==> KeepsStores(m, self, pairs)
    ensures KeepsStores(m, self, pairs) ==> Forest(StoreAll(m, self, pairs).memory)
    decreases |pairs|
  {
    if pairs != [] && SetItem(m, self, pairs[0].key, pairs[0].value).Some? {
      var m' := SetItem(m, self, pairs[0].key, pairs[0].value).value;
      assert Usable(m, pairs[0].value);
      SetItemKeepsForestIff(m, self, pairs[0].key, pairs[0].value);
      StoreAllStep(m, self, pairs);
      if Forest(m') {
        UpdateKeepsForestIff(m', self, pairs[1..]);
      }
    }
  }

  /** What a step must meet, if it does anything, for the memory to stay a forest. */
  ghost predicate Keeps(m: Memory, op: Op)
    requires Sound(m)
  {
    Enabled(m, op) ==>
      match op
      case Rebind(_, _) => true
      case Amend(a, cell) => FitsIn(m, a, Children(cell))
      case New(cls, obj) => Construct(m, cls, obj).None? || Joins(m, Ref(obj))
      case Store(self, key, v) => KeepsStore(m, self, key, v)
      case SetDefault(self, key, v) => Get(ItemsOf(m, self), key).Some? || KeepsStore(m, self, key, v)
      case Update(self, pairs) => KeepsStores(m, self, pairs)
  }

  /** The memory is a forest after the step, and after every store that the step does. */
  ghost predicate StaysForest(m: Memory, op: Op)
    requires Sound(m)
  {
    Forest(Apply(m, op)) && (op.Update? && Enabled(m, op) ==> ForestsThroughout(m, op.self, op.pairs))
  }

  lemma RebindKeepsForest(m: Memory, a: Addr, cell: Cell)
    requires Forest(m) && Enabled(m, Rebind(a, cell))
    ensures Forest(Apply(m, Rebind(a, cell)))
  {
    var m' := Apply(m, Rebind(a, cell));
    ApplyIsSound(m, Rebind(a, cell));
    ChangedHolds(m, a, cell);
    forall b: Addr, p: Path | b in m'.owned && p != [] ensures !Reaches(m'.heap, Ref(b), p, b) {
      OwnedResolvesAlike(m, m'.heap, Ref(b), p);
      assert !Reaches(m.heap, Ref(b), p, b);
    }
  }

  lemma StepKeepsForestIff(m: Memory, op: Op)
    requires Forest(m)
    ensures StaysForest(m, op) <==> Keeps(m, op)
  {
    if Enabled(m, op) {
      match op
      case Rebind(a, cell) => RebindKeepsForest(m, a, cell);
      case Amend(a, cell) =>
        AmendedIsSound(m, a, cell);
        ChangeKeepsForestIff(m, a, cell);
      case New(cls, obj) =>
        if Construct(m, cls, obj).Some? {
          ConstructKeepsForestIff(m, cls, obj);
        }
      case Store(self, key, v) =>
        if SetItem(m, self, key, v).Some? {
          SetItemKeepsForestIff(m, self, key, v);
        }
      case SetDefault(self, key, v) =>
        if SetItem(m, self, key, v).Some? {
          SetItemKeepsForestIff(m, self, key, v);
        }
      case Update(self, pairs) => UpdateKeepsForestIff(m, self, pairs);
    }
  }

  ghost predicate KeepsRun(ops: seq<Op>) {
    forall k | 0 <= k < |ops| :: Keeps(Run(ops[..k]), ops[k])
  }

  ghost predicate StaysForestRun(ops: seq<Op>) {
    forall k | 0 <= k < |ops| :: StaysForest(Run(ops[..k]), ops[k])
  }

  /** So far the memory is a forest after every step exactly if every step meets its condition. */
  ghost predicate AgreesSoFar(ops: seq<Op>) {
    (StaysForestRun(ops) <==> KeepsRun(ops)) && (KeepsRun(ops) ==> Forest(Run(ops)))
  }

  /**
    Over every run the memory is a forest after every step, and after every single store of an update, if and
    only if each step meets its condition in the memory it finds.
   */
  lemma {:induction false} RunKeepsForestIff(ops: seq<Op>)
    ensures StaysForestRun(ops) <==> KeepsRun(ops)
    ensures KeepsRun(ops) ==> Forest(Run(ops))
  {
    AgreesThroughout(ops);
  }

  lemma {:induction false} AgreesThroughout(ops: seq<Op>)
    ensures AgreesSoFar(ops)
    decreases |ops|
  {
    if ops == [] {
      EmptyRunAgrees();
    } else {
      var n := |ops| - 1;
      AgreesThroughout(ops[..n]);
      OneMoreStep(ops[..n], ops[n]);
      assert ops[..n] + [ops[n]] == ops;
    }
  }

  lemma EmptyRunAgrees()
    ensures AgreesSoFar([])
  {
  }

  lemma OneMoreStep(ops: seq<Op>, last: Op)
    requires AgreesSoFar(ops)
    ensures AgreesSoFar(ops + [last])
  {
    KeepsRunSnoc(ops, last);
    StaysForestRunSnoc(ops, last);
    if KeepsRun(ops) {
      StepKeepsForestIff(Run(ops), last);
      RunSnoc(ops, last);
    }
  }

  lemma KeepsRunSnoc(ops: seq<Op>, last: Op)
    ensures KeepsRun(ops + [last]) <==> KeepsRun(ops) && Keeps(Run(ops), last)
  {
    PrefixesOfSnoc(ops, last);
  }

  lemma StaysForestRunSnoc(ops: seq<Op>, last: Op)
    ensures StaysForestRun(ops + [last]) <==> StaysForestRun(ops) && StaysForest(Run(ops), last)
  {
    PrefixesOfSnoc(ops, last);
  }

  lemma PrefixesOfSnoc(ops: seq<Op>, last: Op)
    ensures forall k | 0 <= k < |ops| :: (ops + [last])[..k] == ops[..k] && (ops + [last])[k] == ops[k]
    ensures (ops + [last])[..|ops|] == ops && (ops + [last])[|ops|] == last
  {
  }

  // ---- a condition on the values alone --------------------------------------------------------------------------

  /** No enum member reached from what the step gives JsonDict holds a container; what the program amends fits. */
  ghost predicate Clean(m: Memory, op: Op) {
    match op
    case Rebind(_, _) => true
    case Amend(a, cell) => FitsIn(m, a, Children(cell))
    case New(_, obj) => EnumsHoldNoContainer(m.heap, Ref(obj))
    case Store(_, _, v) => EnumsHoldNoContainer(m.heap, v)
    case SetDefault(_, _, v) => EnumsHoldNoContainer(m.heap, v)
    case Update(_, pairs) => forall i | 0 <= i < |pairs| :: EnumsHoldNoContainer(m.heap, pairs[i].value)
  }

  lemma CleanHandsOverNothing(h: Heap, v: Value)
    requires EnumsHoldNoContainer(h, v)
    ensures forall p: Path, x: Addr :: !HandsOver(h, v, p, x)
  {
  }

  /** A value to be stored is clean, or will be refused because it leads back to the dict. */
  ghost predicate CleanFor(h: Heap, self: Addr, v: Value) {
    EnumsHoldNoContainer(h, v) || exists q: Path :: Reaches(h, v, q, self)
  }

  lemma CleanForStays(h: Heap, h': Heap, self: Addr, v: Value)
    requires Closed(h) && InHeap(h, v) && forall a | a in h && a != self :: a in h' && h'[a] == h[a]
    requires CleanFor(h, self, v)
    ensures CleanFor(h', self, v)
  {
    if q: Path :| Reaches(h, v, q, self) {
      var met := AlikeUnlessMet(h, h', self, v, q);
      assert Reaches(h', v, q, self) || Reaches(h', v, met, self);
    } else if p: Path, w :| Resolve(h', v, p) == Some(EnumMember(w)) && w.Ref? {
      var met := AlikeUnlessMet(h, h', self, v, p);
    }
  }

  lemma {:induction false} CleanStoresKeep(m: Memory, self: Addr, pairs: seq<Item>)
    requires Sound(m) && Enabled(m, Update(self, pairs))
    requires forall i | 0 <= i < |pairs| :: CleanFor(m.heap, self, pairs[i].value)
    ensures KeepsStores(m, self, pairs)
    decreases |pairs|
  {
    if pairs != [] && SetItem(m, self, pairs[0].key, pairs[0].value).Some? {
      var v := pairs[0].value;
      var m' := SetItem(m, self, pairs[0].key, v).value;
      ParseSucceedsIff(m.heap, Json, v, {self}, m.next);
      assert CleanFor(m.heap, self, v);
      CleanHandsOverNothing(m.heap, v);
      StoreLeavesRestEnabled(m, self, pairs);
      forall i | 0 <= i < |pairs[1..]| ensures CleanFor(m'.heap, self, pairs[1..][i].value) {
        assert Usable(m, pairs[i + 1].value) && CleanFor(m.heap, self, pairs[i + 1].value);
        CleanForStays(m.heap, m'.heap, self, pairs[i + 1].value);
      }
      CleanStoresKeep(m', self, pairs[1..]);
    }
  }

  /** Steps whose enum members hold no containers keep the forest, an update judged by its values at the start. */
  lemma CleanKeeps(m: Memory, op: Op)
    requires Sound(m) && Clean(m, op)
    ensures Keeps(m, op)
  {
    if Enabled(m, op) {
      match op
      case New(cls, obj) => CleanHandsOverNothing(m.heap, Ref(obj));
      case Store(self, key, v) => CleanHandsOverNothing(m.heap, v);
      case SetDefault(self, key, v) => CleanHandsOverNothing(m.heap, v);
      case Update(self, pairs) => CleanStoresKeep(m, self, pairs);
      case _ =>
    }
  }

  // ---- what a forest means ------------------------------------------------------------------------------------------

  /**
    After any sequence of constructions, stores, setdefaults, updates and changes in place that meet their
    conditions, on anything built, with the program rebinding its own containers in between: from a built
    container only built ones are reached, never itself again, and each is held in one place of one built
    container.
   */
  lemma RunsKeepAForest(ops: seq<Op>, a: Addr, p: Path, x: Addr)
    requires KeepsRun(ops)
    requires a in Run(ops).owned && Reaches(Run(ops).heap, Ref(a), p, x)
    ensures x in Run(ops).owned && (p != [] ==> x != a)
    ensures forall b: Addr, i: nat, c: Addr, j: nat |
              && b in Run(ops).owned && c in Run(ops).owned
              && Holds(Run(ops).heap, b, i, x) && Holds(Run(ops).heap, c, j, x) ::
              b == c && i == j
  {
    RunKeepsForestIff(ops);
    OwnedPathsStay(Run(ops), Ref(a), p, x);
  }

  lemma {:induction false} RebindsLeaveOwned(ops: seq<Op>, later: seq<Op>)
    requires forall i | 0 <= i < |later| :: later[i].Rebind?
    ensures Run(ops + later).owned == Run(ops).owned
    ensures forall a | a in Run(ops).owned :: a in Run(ops + later).heap && Run(ops + later).heap[a] == Run(ops).heap[a]
  {
    if later == [] {
      assert ops + later == ops;
    } else {
      var n := |later| - 1;
      assert (ops + later)[..|ops| + n] == ops + later[..n];
      RebindsLeaveOwned(ops, later[..n]);
    }
  }

  /** Whatever the program does to its own containers from then on is invisible inside everything JsonDict built. */
  lemma InputsCannotReachIn(ops: seq<Op>, later: seq<Op>, a: Addr, p: Path)
    requires KeepsRun(ops) && a in Run(ops).owned
    requires forall i | 0 <= i < |later| :: later[i].Rebind?
    ensures Resolve(Run(ops + later).heap, Ref(a), p) == Resolve(Run(ops).heap, Ref(a), p)
  {
    RunKeepsForestIff(ops);
    RebindsLeaveOwned(ops, later);
    OwnedResolvesAlike(Run(ops), Run(ops + later).heap, Ref(a), p);
  }

  /** A step writes to the one dict it is called on and to nothing else that existed. */
  lemma {:induction false} StoreAllWritesSelf(m: Memory, self: Addr, pairs: seq<Item>)
    requires Sound(m) && Enabled(m, Update(self, pairs))
    ensures var m' := StoreAll(m, self, pairs).memory;
            forall a | a in m.heap && a != self :: a in m'.heap && m'.heap[a] == m.heap[a]
    decreases |pairs|
  {
    if pairs != [] && SetItem(m, self, pairs[0].key, pairs[0].value).Some? {
      StoreLeavesRestEnabled(m, self, pairs);
      StoreAllWritesSelf(SetItem(m, self, pairs[0].key, pairs[0].value).value, self, pairs[1..]);
    }
  }

  /** A store, setdefault or update on one dict changes nothing in any value that does not lead to that dict. */
  lemma StoresStayInTheirTree(m: Memory, op: Op, v: Value, p: Path)
    requires Sound(m) && InHeap(m.heap, v) && (op.Store? || op.SetDefault? || op.Update?)
    requires forall q: Path :: !Reaches(m.heap, v, q, op.self)
    ensures Resolve(Apply(m, op).heap, v, p) == Resolve(m.heap, v, p)
  {
    if Enabled(m, op) && op.Update? {
      StoreAllWritesSelf(m, op.self, op.pairs);
    }
    var met := AlikeUnlessMet(m.heap, Apply(m, op).heap, op.self, v, p);
  }

  /** A dict at 1 and the program's list of it at 2. */
  ghost function DictInList(): (m: Memory)
    ensures Sound(m)
  {
    Memory(map[0 := Mapping(Foreign, []), 1 := Mapping(Json, []), 2 := Sequence(List, [Ref(1)])], {1}, 3)
  }

  lemma EmptyMappingParses(h: Heap, a: Addr, next: Addr)
    requires Closed(h) && a in h && h[a] == Mapping(Foreign, [])
    ensures ParseValue(h, Json, Ref(a), {}, next) ==
              Some(Parsed(Ref(next), {a}, map[next := Mapping(Json, [])], next + 1))
  {
    assert Children(h[a]) == [] && {} + {a} == {a};
    assert Rebuild(Json, h[a], []) == Mapping(Json, []);
  }

  lemma EmptyMappingIsReached() returns (ops: seq<Op>)
    ensures Run(ops) == Memory(map[0 := Mapping(Foreign, [])], {}, 1)
  {
    var make := Rebind(0, Mapping(Foreign, []));
    ops := [] + [make];
    RunSnoc([], make);
    FirstMappingIsMade();
  }

  lemma FirstMappingIsMade()
    ensures Apply(Start(), Rebind(0, Mapping(Foreign, []))) == Memory(map[0 := Mapping(Foreign, [])], {}, 1)
  {
    assert Children(Mapping(Foreign, [])) == [];
  }

  /** A dict at 1, built from an empty one of the program's at 0. */
  lemma DictIsReached() returns (ops: seq<Op>)
    ensures Run(ops) == Memory(map[0 := Mapping(Foreign, []), 1 := Mapping(Json, [])], {1}, 2)
  {
    var before := EmptyMappingIsReached();
    ops := before + [New(Json, 0)];
    RunSnoc(before, New(Json, 0));
    EmptyMappingParses(Run(before).heap, 0, 1);
    assert Run(ops).heap == Run(before).heap[1 := Mapping(Json, [])];
  }

  lemma DictInListIsReached() returns (ops: seq<Op>)
    ensures Run(ops) == DictInList()
  {
    var before := DictIsReached();
    var wrap := Rebind(2, Sequence(List, [Ref(1)]));
    ops := before + [wrap];
    RunSnoc(before, wrap);
    assert Enabled(Run(before), wrap);
  }

  /** An enum member's value is stored as it is. */
  lemma EnumIsStoredAsIs(m: Memory, self: Addr, key: Key, w: Value)
    requires Closed(m.heap)
    ensures SetItem(m, self, key, EnumMember(w)) == Some(Stored(m, self, key, w))
  {
    var r := ParseValue(m.heap, Json, EnumMember(w), {self}, m.next).value;
    assert Grown(m, r) == m;
  }

  /** A run in which an enum member holds a list: the dict at 1 ends up inside itself. */
  lemma UncleanStoreClosesACycle() returns (ops: seq<Op>)
    ensures 1 in Run(ops).owned && Reaches(Run(ops).heap, Ref(1), [0, 0], 1)
  {
    var before := DictInListIsReached();
    var store := Store(1, Text("k"), EnumMember(Ref(2)));
    ops := before + [store];
    RunSnoc(before, store);
    assert Enabled(DictInList(), store);
    EnumIsStoredAsIs(DictInList(), 1, Text("k"), Ref(2));
    var h := Run(ops).heap;
    assert h[1] == Mapping(Json, [Item(Text("k"), Ref(2))]) && h[2] == Sequence(List, [Ref(1)]);
    assert Children(h[1]) == [Ref(2)] && Children(h[2]) == [Ref(1)] && [0, 0][1..] == [0];
  }
}
