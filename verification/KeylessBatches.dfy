/** A replace batch that holds vertices without an id beside keyed ones (src/bulk.ts `dedupeByKey`,
    `resolveReplace`): the keyed ones land as upserts in order, and each keyless one as a vertex of its own. */
module KeylessBatches {
  import opened Utf16
  import opened Graph
  import opened Dedupe
  import opened Loader
  import opened Consistency
  import opened BatchingProof
  import opened BatchingTheorem
  import opened ReplaceBatch
  import opened Upserts

  /** The vertices of a batch that have an id, in order. */
  function KeyedOf(vs: seq<Vertex>): seq<Vertex> {
    if vs == [] then []
    else
      var front, v := KeyedOf(vs[..|vs| - 1]), vs[|vs| - 1];
      if v.id.Some? then front + [v] else front
  }

  lemma {:induction false} KeyedFillsAlike(vs: seq<Vertex>)
    ensures Fill(KeyedOf(vs), VertexKey).keys == Fill(vs, VertexKey).keys
    ensures Fill(KeyedOf(vs), VertexKey).last == Fill(vs, VertexKey).last
    ensures Fill(KeyedOf(vs), VertexKey).anonymous == []
  {
    if vs != [] {
      var front, v := vs[..|vs| - 1], vs[|vs| - 1];
      KeyedFillsAlike(front);
      assert vs == front + [v];
      FillAppend(front, v, VertexKey);
      FillAppend(KeyedOf(front), v, VertexKey);
      hide Fill;
    }
  }

  /** A deduplicated batch is its deduplicated keyed part, then the keyless ones. */
  lemma DedupedInTwo(vs: seq<Vertex>)
    ensures Deduped(vs, VertexKey) == Deduped(KeyedOf(vs), VertexKey) + Keyless(vs, VertexKey)
  {
    KeyedFillsAlike(vs);
    AnonymousIsKeyless(vs, VertexKey);
    FillIsFilled(vs, VertexKey);
    FillIsFilled(KeyedOf(vs), VertexKey);
  }

  lemma {:induction false} KeylessHaveNoId(vs: seq<Vertex>)
    ensures forall v | v in Keyless(vs, VertexKey) :: v.id.None?
  {
    if vs != [] { KeylessHaveNoId(vs[..|vs| - 1]); }
  }

  lemma {:induction false} RunInTwo(nodes: multiset<NodeRow>, l: Loader, a: seq<Vertex>, b: seq<Vertex>)
    ensures var (l1, m1) := ReplaceVertices(nodes, l, a); var (l2, m2) := ReplaceVertices(nodes, l1, b);
      ReplaceVertices(nodes, l, a + b) == (l2, m1 + m2)
  {
    hide ReplaceVertex;
    if b == [] {
      assert a + b == a;
      var (l1, m1) := ReplaceVertices(nodes, l, a);
      assert ReplaceVertices(nodes, l1, b) == (l1, {}) && m1 + {} == m1;
    } else {
      var front, v := b[..|b| - 1], b[|b| - 1];
      RunInTwo(nodes, l, a, front);
      assert (a + b)[..|a + b| - 1] == a + front && (a + b)[|a + b| - 1] == v;
      var (l1, m1) := ReplaceVertices(nodes, l, a);
      var (l2, m2) := ReplaceVertices(nodes, l1, front);
      assert ReplaceVertices(nodes, l, a + front) == (l2, m1 + m2);
      var (l3, m3) := ReplaceVertex(nodes, l2, v);
      assert m1 + m2 + m3 == m1 + (m2 + m3);
      assert ReplaceVertices(nodes, l, a + b) == (l3, m1 + m2 + m3);
      assert ReplaceVertices(nodes, l1, b) == (l3, m2 + m3);
    }
  }

  function NewNodes(first: int, n: nat): seq<NodeRow> { seq(n, i => NodeRow(first + i, None)) }

  /** Rows `x` and `y` give the vertices from rowid `first` on the definitions `vs`, and nothing to any other. */
  ghost predicate Given(first: int, vs: seq<Vertex>, x: multiset<LabelRow>, y: multiset<PropRow>) {
    && (forall r | r in x :: first <= r.node < first + |vs|)
    && (forall r | r in y :: first <= r.owner < first + |vs|)
    && forall i | 0 <= i < |vs| :: HoldsLabels(x, first + i, vs[i].labels) && Carries(y, first + i, vs[i].props)
  }

  /** What the pass buffers for keyless vertices: one new node each, under consecutive minted rowids. */
  ghost predicate Adds(l: Loader, l': Loader, vs: seq<Vertex>, x: seq<LabelRow>, y: seq<PropRow>) {
    && l'.nodeRows == l.nodeRows + NewNodes(l.nextNode, |vs|) && l'.nextNode == l.nextNode + |vs|
    && l'.labelRows == l.labelRows + x && l'.vprops == l.vprops + y
    && Given(l.nextNode, vs, multiset(x), multiset(y))
  }

  lemma BufferedKeyless(nodes: multiset<NodeRow>, l: Loader, v: Vertex)
    requires v.id.None?
    ensures var (l', m) := ReplaceVertex(nodes, l, v);
      && m == {} && l'.nodeRows == l.nodeRows + [NodeRow(l.nextNode, None)] && l'.nextNode == l.nextNode + 1
      && l'.labelRows == l.labelRows + LabelRows(l.nextNode, v.labels)
      && l'.vprops == l.vprops + PropRows(l.nextNode, v.props, l.nextVProp)
  {
  }

  lemma GivenOneMore(first: int, vs: seq<Vertex>, v: Vertex, x: multiset<LabelRow>, y: multiset<PropRow>, c: int)
    requires Given(first, vs, x, y)
    ensures Given(first, vs + [v], x + multiset(LabelRows(first + |vs|, v.labels)),
      y + multiset(PropRows(first + |vs|, v.props, c)))
  {
    var id := first + |vs|;
    var lr, pr := multiset(LabelRows(id, v.labels)), multiset(PropRows(id, v.props, c));
    LabelRowsShape(id, v.labels);
    PropRowsShape(id, v.props, c);
    hide LabelRows, PropRows, HoldsLabels, Carries;
    LabelsAdded(x, id, v.labels);
    PropsAdded(y, id, v.props, c);
    forall i | 0 <= i < |vs|
      ensures HoldsLabels(x + lr, first + i, vs[i].labels) && Carries(y + pr, first + i, vs[i].props) {
      LabelsKept(x, lr, first + i, vs[i].labels);
      PropsKept(y, pr, first + i, vs[i].props);
    }
  }

  lemma AddsOneMore(l: Loader, l1: Loader, l2: Loader, vs: seq<Vertex>, v: Vertex, x: seq<LabelRow>, y: seq<PropRow>)
    requires Adds(l, l1, vs, x, y)
    requires l2.nodeRows == l1.nodeRows + [NodeRow(l1.nextNode, None)] && l2.nextNode == l1.nextNode + 1
    requires l2.labelRows == l1.labelRows + LabelRows(l1.nextNode, v.labels)
    requires l2.vprops == l1.vprops + PropRows(l1.nextNode, v.props, l1.nextVProp)
    ensures Adds(l, l2, vs + [v], x + LabelRows(l1.nextNode, v.labels),
      y + PropRows(l1.nextNode, v.props, l1.nextVProp))
  {
    hide LabelRows, PropRows, Given;
    var lr, pr := LabelRows(l1.nextNode, v.labels), PropRows(l1.nextNode, v.props, l1.nextVProp);
    GivenOneMore(l.nextNode, vs, v, multiset(x), multiset(y), l1.nextVProp);
    assert multiset(x + lr) == multiset(x) + multiset(lr) && multiset(y + pr) == multiset(y) + multiset(pr);
    assert NewNodes(l.nextNode, |vs| + 1) == NewNodes(l.nextNode, |vs|) + [NodeRow(l1.nextNode, None)];
  }

  lemma {:induction false} KeylessRun(nodes: multiset<NodeRow>, l: Loader, vs: seq<Vertex>)
      returns (x: seq<LabelRow>, y: seq<PropRow>)
    requires forall v | v in vs :: v.id.None?
    ensures var (l', m) := ReplaceVertices(nodes, l, vs); m == {} && Adds(l, l', vs, x, y)
  {
    hide ReplaceVertex, Adds;
    if vs == [] {
      x, y := [], [];
      AddsNothing(l);
    } else {
      var front, v := vs[..|vs| - 1], vs[|vs| - 1];
      assert (forall u | u in front :: u in vs) && v in vs && front + [v] == vs;
      x, y := KeylessRun(nodes, l, front);
      var l1 := ReplaceVertices(nodes, l, front).0;
      BufferedKeyless(nodes, l1, v);
      AddsOneMore(l, l1, ReplaceVertices(nodes, l, vs).0, front, v, x, y);
      x, y := x + LabelRows(l1.nextNode, v.labels), y + PropRows(l1.nextNode, v.props, l1.nextVProp);
    }
  }

  lemma AddsNothing(l: Loader)
    ensures Adds(l, l, [], [], [])
  {
  }

  // ---------- the batch lands as the keyed part, then the rest ----------

  /** `d` is `k` with one vertex more for each definition of `vs`, under rowids from `first` on that `k` does
      not use, and with every other vertex as it was. */
  ghost predicate WithNew(k: Tables, d: Tables, vs: seq<Vertex>, first: int) {
    && d.nodes == k.nodes + multiset(NewNodes(first, |vs|)) && Apart(k.nodes, NewNodes(first, |vs|))
    && (forall i | 0 <= i < |vs| :: Shows(d, first + i, vs[i]))
    && forall id | id < first || id >= first + |vs| :: Untouched(k, d, id)
  }

  /** Every row of the vertex tables belongs to a stored vertex. */
  ghost predicate Owned(k: Tables) {
    && (forall r | r in k.labels :: HasNode(k.nodes, r.node))
    && (forall r | r in k.vprops :: HasNode(k.nodes, r.owner))
    && (forall r | r in k.cards :: HasNode(k.nodes, r.node))
  }

  lemma TargetsAreStored(db: Tables, l: Loader, raw: seq<Vertex>, k: Tables)
    requires Raw(db, l) && Replaceable(db, raw)
    requires var run := ReplaceVertices(db.nodes, l, Deduped(raw, VertexKey)); VertexTables(db, k, run.0, run.1)
    ensures BuffersOnly(ReplaceVertices(db.nodes, l, Deduped(raw, VertexKey)).0,
      Targets(db.nodes, Fill(raw, VertexKey).keys, Start(db)))
    ensures forall t | t in Targets(db.nodes, Fill(raw, VertexKey).keys, Start(db)) :: HasNode(k.nodes, t)
  {
    hide ReplaceVertices, Targets, NewRows, Fill, Deduped, WipeVertices, UniqueNodes, Injective, Replaceable,
         Described, BuffersOnly, BufferShows, Lookup, Shows, Untouched, Names;
    var vs, keys, next := Deduped(raw, VertexKey), Fill(raw, VertexKey).keys, Start(db);
    ReplaceableIs(db, raw);
    KeyedFill(raw);
    TablesAreDescribed(db, l, k, raw);
    SetBasedBuffers(db.nodes, l, vs);
    ReplaceNodes(db.nodes, l, vs);
    assert [] + NewRows(db.nodes, keys, next) == NewRows(db.nodes, keys, next);
    UniqueRowsAreApart(db.nodes, NewRows(db.nodes, keys, next));
    var ts := Targets(db.nodes, keys, next);
    forall t | t in ts ensures HasNode(k.nodes, t) {
      var i :| 0 <= i < |ts| && ts[i] == t;
      TargetIsStored(db.nodes, keys, next, i);
      if Lookup(db.nodes, keys[i]).Some? {
        var r :| r in db.nodes && r.id == t;
        assert r in k.nodes;
      } else {
        var r :| r in NewRows(db.nodes, keys, next) && Names(r, keys[i]) && r.id == t;
        assert r in multiset(NewRows(db.nodes, keys, next)) && r in k.nodes;
      }
    }
  }

  lemma KeyedTablesAreOwned(db: Tables, l: Loader, raw: seq<Vertex>, k: Tables)
    requires Raw(db, l) && Replaceable(db, raw)
    requires var run := ReplaceVertices(db.nodes, l, Deduped(raw, VertexKey)); VertexTables(db, k, run.0, run.1)
    ensures Owned(k)
  {
    TargetsAreStored(db, l, raw, k);
    ReplaceableIs(db, raw);
    hide ReplaceVertices, Targets, Fill, Deduped, VertexTables, Raw, BuffersOnly, UniqueNodes, Replaceable, HasNode,
         References;
    var (l1, matched) := ReplaceVertices(db.nodes, l, Deduped(raw, VertexKey));
    LandedOnStored(db, k, l1, matched, Targets(db.nodes, Fill(raw, VertexKey).keys, Start(db)));
  }

  lemma LandedOnStored(db: Tables, k: Tables, l: Loader, matched: set<int>, ts: seq<int>)
    requires References(db) && VertexTables(db, k, l, matched) && BuffersOnly(l, ts)
    requires forall t | t in ts :: HasNode(k.nodes, t)
    ensures Owned(k)
  {
    hide UniqueNodes, HasNode;
    WipedRows(db, matched);
    hide WipeVertices;
    StoredStays(db.nodes, multiset(l.nodeRows));
    assert forall r | r in multiset(l.labelRows) :: r in l.labelRows;
    assert forall r | r in multiset(l.vprops) :: r in l.vprops;
  }

  lemma StoredStays(nodes: multiset<NodeRow>, more: multiset<NodeRow>)
    ensures forall id | HasNode(nodes, id) :: HasNode(nodes + more, id)
  {
    forall id | HasNode(nodes, id) ensures HasNode(nodes + more, id) {
      var r :| r in nodes && r.id == id;
      assert r in nodes + more;
    }
  }

  lemma NewAreAbsent(k: Tables, first: int, n: nat)
    requires Apart(k.nodes, NewNodes(first, n))
    ensures forall id | first <= id < first + n :: !HasNode(k.nodes, id)
  {
    forall id | first <= id < first + n ensures !HasNode(k.nodes, id) {
      assert NewNodes(first, n)[id - first] == NodeRow(id, None);
    }
  }

  /** Landing rows for new vertices beside owned ones shows each definition and touches nothing else. */
  lemma GivenAreNew(k: Tables, d: Tables, vs: seq<Vertex>, first: int, x: seq<LabelRow>, y: seq<PropRow>)
    requires Owned(k) && UniqueNodes(d.nodes) && d.nodes == k.nodes + multiset(NewNodes(first, |vs|))
      && d.cards == k.cards
    requires d.labels == k.labels + multiset(x) && d.vprops == k.vprops + multiset(y)
    requires Given(first, vs, multiset(x), multiset(y))
    ensures WithNew(k, d, vs, first)
  {
    hide UniqueNodes, HasNode, HoldsLabels, Carries, Apart;
    UniqueRowsAreApart(k.nodes, NewNodes(first, |vs|));
    NewAreAbsent(k, first, |vs|);
    forall i | 0 <= i < |vs| ensures Shows(d, first + i, vs[i]) {
      LabelsKept(multiset(x), k.labels, first + i, vs[i].labels);
      PropsKept(multiset(y), k.vprops, first + i, vs[i].props);
    }
  }

  /** The vertex tables after the keyed part of a batch. */
  ghost function KeyedTables(db: Tables, d: Tables, l1: Loader, matched: set<int>): Tables {
    var wiped := WipeVertices(db, matched);
    d.(nodes := db.nodes + multiset(l1.nodeRows), labels := wiped.labels + multiset(l1.labelRows),
       vprops := wiped.vprops + multiset(l1.vprops))
  }

  lemma LessIsUnique(d: Tables, k: Tables)
    requires Unique(d) && k == d.(nodes := k.nodes, labels := k.labels, vprops := k.vprops)
    requires k.nodes <= d.nodes && k.labels <= d.labels && k.vprops <= d.vprops
    ensures Unique(k)
  {
    UniqueNodesInherited(k.nodes, d.nodes);
    NoRepeatsInherited(k.labels, d.labels);
    UniqueVPropsInherited(k.vprops, d.vprops);
    hide UniqueNodes, UniqueEdges, UniqueVProps, UniqueEProps, UniqueFts, UniqueCards, NoRepeats;
  }

  /** The tables a loader's rows land in, read as those of an earlier loader and what was added since. */
  lemma TablesInTwo(db: Tables, d: Tables, l1: Loader, l2: Loader, matched: set<int>, vs: seq<Vertex>,
      x: seq<LabelRow>, y: seq<PropRow>)
    requires VertexTables(db, d, l2, matched) && Adds(l1, l2, vs, x, y)
    ensures var k := KeyedTables(db, d, l1, matched);
      && VertexTables(db, k, l1, matched)
      && d.nodes == k.nodes + multiset(NewNodes(l1.nextNode, |vs|)) && d.cards == k.cards
      && d.labels == k.labels + multiset(x) && d.vprops == k.vprops + multiset(y)
  {
    hide WipeVertices, UniqueNodes, Given, NewNodes;
    var k, added := KeyedTables(db, d, l1, matched), NewNodes(l1.nextNode, |vs|);
    assert multiset(l1.nodeRows + added) == multiset(l1.nodeRows) + multiset(added);
    assert multiset(l1.labelRows + x) == multiset(l1.labelRows) + multiset(x);
    assert multiset(l1.vprops + y) == multiset(l1.vprops) + multiset(y);
    UniqueNodesInherited(k.nodes, d.nodes);
  }

  /** A batch is buffered as its keyed part, then its keyless vertices. */
  lemma BuffersInTwo(nodes: multiset<NodeRow>, l: Loader, vs: seq<Vertex>) returns (x: seq<LabelRow>, y: seq<PropRow>)
    ensures var (l1, matched) := ReplaceVertices(nodes, l, Deduped(KeyedOf(vs), VertexKey));
      var (l2, all) := ReplaceVertices(nodes, l, Deduped(vs, VertexKey));
      all == matched && Adds(l1, l2, Keyless(vs, VertexKey), x, y)
  {
    hide ReplaceVertices, Deduped, Adds, Keyless;
    var l1 := ReplaceVertices(nodes, l, Deduped(KeyedOf(vs), VertexKey)).0;
    DedupedInTwo(vs);
    KeylessHaveNoId(vs);
    RunInTwo(nodes, l, Deduped(KeyedOf(vs), VertexKey), Keyless(vs, VertexKey));
    x, y := KeylessRun(nodes, l1, Keyless(vs, VertexKey));
  }

  lemma LandedIsVertexTables(db: Tables, l: Loader)
    requires Raw(db, l) && LandBatch(db, l).Ok?
    ensures var run := ReplaceVertices(db.nodes, l, Deduped(l.rawVertices, VertexKey));
      VertexTables(db, LandBatch(db, l).value.0, run.0, run.1)
  {
    LandedVertexTables(db, l);
    hide LandBatch, ReplaceVertices, Deduped, WipeVertices, UniqueNodes;
  }

  /** A successful replace flush, whatever edges came with it, leaves its keyed vertices as their last
      definitions describe them, and beside them one new vertex, showing its definition, for each vertex
      without an id. */
  lemma MixedIsDescribed(db: Tables, l: Loader) returns (k: Tables, first: int)
    requires Raw(db, l) && Replaceable(db, KeyedOf(l.rawVertices)) && LandBatch(db, l).Ok?
    ensures Filled(Fill(KeyedOf(l.rawVertices), VertexKey))
      && Described(db, k, Fill(KeyedOf(l.rawVertices), VertexKey)) && Unique(k)
    ensures Injective(Targets(db.nodes, Fill(KeyedOf(l.rawVertices), VertexKey).keys, Start(db)))
    ensures WithNew(k, LandBatch(db, l).value.0, Keyless(l.rawVertices, VertexKey), first)
  {
    var vs, rest, d := KeyedOf(l.rawVertices), Keyless(l.rawVertices, VertexKey), LandBatch(db, l).value.0;
    LandedIsVertexTables(db, l);
    RawIsReplace(db, l);
    ReplaceableIsUnique(db, vs);
    hide Raw, Replaceable, LandBatch, Described, Fill, Filled, Targets, WithNew, Injective, ReplaceVertices, Deduped,
         VertexTables, KeyedOf, Keyless, Given, Owned, WipeVertices, Unique, UniqueNodes;
    var x, y := BuffersInTwo(db.nodes, l, l.rawVertices);
    var (l1, matched) := ReplaceVertices(db.nodes, l, Deduped(vs, VertexKey));
    k, first := KeyedTables(db, d, l1, matched), l1.nextNode;
    TablesInTwo(db, d, l1, ReplaceVertices(db.nodes, l, Deduped(l.rawVertices, VertexKey)).0, matched, rest, x, y);
    TablesAreDescribed(db, l, k, vs);
    KeyedTablesAreOwned(db, l, vs, k);
    FlushIsUnique(db, l);
    UniqueHasNodes(d);
    GivenAreNew(k, d, rest, first, x, y);
    LessIsUnique(d, k);
  }

  lemma ReplaceableIsUnique(db: Tables, vs: seq<Vertex>)
    requires Replaceable(db, vs)
    ensures Unique(db) && Keyed(vs)
  {
  }

  /** SET-BASED = SEQUENTIAL. For any batch whose distinct keys name distinct stored vertices, a successful
      replace flush leaves what upserting its keyed vertices one by one in order leaves (up to the row ids of
      properties), and beside that one new vertex for each vertex without an id. */
  lemma ReplaceRefinesUpserts(db: Tables, l: Loader) returns (k: Tables, first: int)
    requires Raw(db, l) && Replaceable(db, KeyedOf(l.rawVertices)) && LandBatch(db, l).Ok?
    requires Keyed(KeyedOf(l.rawVertices)) && UpsertAll(db, KeyedOf(l.rawVertices)).Ok?
    ensures SameVertices(k, UpsertAll(db, KeyedOf(l.rawVertices)).value)
    ensures WithNew(k, LandBatch(db, l).value.0, Keyless(l.rawVertices, VertexKey), first)
  {
    hide Raw, Replaceable, LandBatch, UpsertAll, Described, Fill, Filled, Targets, Batch, SameVertices, Unique,
         Injective, KeyedOf, Keyless, WithNew, Keyed;
    var vs := KeyedOf(l.rawVertices);
    k, first := MixedIsDescribed(db, l);
    ReplaceableBatch(db, vs);
    assert vs[..|vs|] == vs;
    UpsertsAreDescribed(db, vs, |vs|);
    DescriptionDetermines(db, k, UpsertAll(db, vs).value, Fill(vs, VertexKey));
  }

  /** The same with nothing assumed of the sequential run, when the property ids are minted. */
  lemma MintedReplaceRefinesUpserts(db: Tables, l: Loader) returns (k: Tables, first: int)
    requires Consistent(db) && Raw(db, l) && Replaceable(db, KeyedOf(l.rawVertices)) && LandBatch(db, l).Ok?
    requires forall v | v in KeyedOf(l.rawVertices) :: Minted(v.props)
    ensures Keyed(KeyedOf(l.rawVertices)) && UpsertAll(db, KeyedOf(l.rawVertices)).Ok?
    ensures SameVertices(k, UpsertAll(db, KeyedOf(l.rawVertices)).value)
    ensures WithNew(k, LandBatch(db, l).value.0, Keyless(l.rawVertices, VertexKey), first)
  {
    hide Raw, Consistent, LandBatch, UpsertAll, SameVertices, KeyedOf, Keyless, WithNew;
    UpsertsSucceed(db, KeyedOf(l.rawVertices));
    k, first := ReplaceRefinesUpserts(db, l);
  }
}
