/** Where the edges of a `replace` import land (src/bulk.ts `resolveReplace`, `bufferEdge`, `resolveEndpoint`):
    between the vertices their ends name in the graph the import leaves. Edges and vertices may come with an id
    or without. */
module Connections {
  import opened Utf16
  import opened Graph
  import opened Dedupe
  import opened Loader
  import opened Consistency
  import opened Batching
  import opened BatchingProof
  import opened ReplaceBatch
  import opened KeylessBatches
  import opened Reimport

  /** A consistent graph and a document whose keys name distinct stored vertices, property ids positive where given. */
  ghost predicate Loadable(db: Tables, vs: seq<Vertex>, es: seq<Edge>) {
    Consistent(db) && Replaceable(db, KeyedOf(vs)) && PositiveDocument(vs, es)
  }

  lemma LoadableIs(db: Tables, vs: seq<Vertex>, es: seq<Edge>)
    requires Loadable(db, vs, es)
    ensures Replaceable(db, KeyedOf(vs)) && Keyed(KeyedOf(vs)) && PositiveNodes(db) && PositiveDocument(vs, es)
    ensures Consistent(db) && Unique(db) && UniqueNodes(db.nodes) && References(db)
  {
  }

  /** A keyed document is one of these. */
  lemma ImportableIsLoadable(db: Tables, vs: seq<Vertex>, es: seq<Edge>)
    requires Importable(db, vs, es)
    ensures Loadable(db, vs, es)
  {
    AllAreKeyed(vs);
  }

  lemma {:induction false} AllAreKeyed(vs: seq<Vertex>)
    requires Keyed(vs)
    ensures KeyedOf(vs) == vs
  {
    if vs != [] {
      assert vs[|vs| - 1] in vs && forall v | v in vs[..|vs| - 1] :: v in vs;
      AllAreKeyed(vs[..|vs| - 1]);
    }
  }

  lemma {:induction false} KeyedAreGiven(vs: seq<Vertex>)
    ensures forall v | v in KeyedOf(vs) :: v in vs
  {
    if vs != [] { KeyedAreGiven(vs[..|vs| - 1]); }
  }

  /** The calls that give a document to a loader. */
  function Calls(vs: seq<Vertex>, es: seq<Edge>): seq<Op> {
    seq(|vs|, i requires 0 <= i < |vs| => AddV(vs[i])) + seq(|es|, i requires 0 <= i < |es| => AddE(es[i]))
  }

  lemma NamedByVertex(vs: seq<Vertex>, es: seq<Edge>, v: Vertex)
    requires v in vs && v.id.Some?
    ensures Named(v.id.value, Calls(vs, es))
  {
    var i :| 0 <= i < |vs| && vs[i] == v;
    assert NamedIn(v.id.value, Calls(vs, es)[i]);
  }

  lemma NamedByEnds(vs: seq<Vertex>, es: seq<Edge>, e: Edge)
    requires e in es
    ensures Named(e.src, Calls(vs, es)) && Named(e.tgt, Calls(vs, es))
  {
    var i :| 0 <= i < |es| && es[i] == e;
    var op := Calls(vs, es)[|vs| + i];
    assert op == AddE(e) && NamedIn(e.src, op) && NamedIn(e.tgt, op);
  }

  // ---------- what the edge pass buffers ----------

  /** The row of edge number `j`, between the rowids its ends are remembered under. */
  ghost predicate EagerRow(es: seq<Edge>, ids: seq<int>, m: map<Text, int>, j: int, r: EdgeRow) {
    && 0 <= j < |es| == |ids| && Spelling(es[j].src) in m && Spelling(es[j].tgt) in m
    && r == EdgeRow(ids[j], EdgeUid(es[j]), m[Spelling(es[j].src)], es[j].name, m[Spelling(es[j].tgt)])
  }

  ghost predicate DeferredRow(es: seq<Edge>, ids: seq<int>, j: int, p: Pending) {
    0 <= j < |es| == |ids| && p == Pending(es[j], ids[j], EdgeUid(es[j]))
  }

  ghost predicate HoldsEdges(l: Loader, es: seq<Edge>, ids: seq<int>, m: map<Text, int>) {
    && l.vertexIds == m
    && (forall r | r in l.edgeRows :: exists j :: EagerRow(es, ids, m, j, r))
    && (forall p | p in l.pending :: exists j :: DeferredRow(es, ids, j, p))
  }

  lemma BufferedEdge(l: Loader, id: int, uid: Option<Text>, e: Edge)
    requires BufferEdge(l, id, uid, e).Ok?
    ensures var l' := BufferEdge(l, id, uid, e).value; var s, t := Spelling(e.src), Spelling(e.tgt);
      && l'.vertexIds == l.vertexIds
      && if s in l.vertexIds && t in l.vertexIds then
           l'.edgeRows == l.edgeRows + [EdgeRow(id, uid, l.vertexIds[s], e.name, l.vertexIds[t])]
             && l'.pending == l.pending
         else
           l'.edgeRows == l.edgeRows && l'.pending == l.pending + [Pending(e, id, uid)]
  {
    hide PropRows, NextProp, FtsRows;
  }

  lemma HoldsOneMore(l1: Loader, l2: Loader, es: seq<Edge>, ids: seq<int>, m: map<Text, int>, next: int, id: int,
      e: Edge)
    requires HoldsEdges(l1, es, ids, m) && |ids| == |es|
    requires BufferEdge(l1.(nextEdge := next), id, EdgeUid(e), e) == Ok(l2)
    ensures HoldsEdges(l2, es + [e], ids + [id], m)
  {
    BufferedEdge(l1.(nextEdge := next), id, EdgeUid(e), e);
    hide BufferEdge;
    var es', ids' := es + [e], ids + [id];
    forall r | r in l2.edgeRows ensures exists j :: EagerRow(es', ids', m, j, r) {
      if r in l1.edgeRows {
        var j :| EagerRow(es, ids, m, j, r);
        assert EagerRow(es', ids', m, j, r);
      } else {
        assert EagerRow(es', ids', m, |es|, r);
      }
    }
    forall p | p in l2.pending ensures exists j :: DeferredRow(es', ids', j, p) {
      if p in l1.pending {
        var j :| DeferredRow(es, ids, j, p);
        assert DeferredRow(es', ids', j, p);
      } else {
        assert DeferredRow(es', ids', |es|, p);
      }
    }
  }

  lemma {:induction false} RunHolds(edges: multiset<EdgeRow>, l: Loader, es: seq<Edge>)
    requires ReplaceEdges(edges, l, es).Ok? && l.edgeRows == [] && l.pending == []
    ensures HoldsEdges(ReplaceEdges(edges, l, es).value.0, es, EdgeRowids(es, l.nextEdge), l.vertexIds)
  {
    hide BufferEdge, ReplaceEdge, EagerRow, DeferredRow;
    EdgeRowidsAreAsMany(es, l.nextEdge);
    if es != [] {
      var front, e := es[..|es| - 1], es[|es| - 1];
      assert (forall x | x in front :: x in es) && e in es && es == front + [e];
      EdgeRowidsAreAsMany(front, l.nextEdge);
      RunHolds(edges, l, front);
      RunCursor(edges, l, front);
      var l1 := ReplaceEdges(edges, l, front).value.0;
      ReplaceEdgeIs(edges, l1, e);
      var id := EdgeRowid(e, l1.nextEdge);
      hide HoldsEdges;
      HoldsOneMore(l1, ReplaceEdges(edges, l, es).value.0, front, EdgeRowids(front, l.nextEdge), l.vertexIds,
        Bump(l1.nextEdge, id), id, e);
    }
  }

  // ---------- what the vertex pass remembers ----------

  /** Each remembered spelling is that of a vertex of the batch, with its rowid. */
  ghost predicate Remembered(m: map<Text, int>, vs: seq<Vertex>, ts: seq<int>) {
    |ts| == |vs| && forall s | s in m :: exists i :: RememberedAt(m, vs, ts, s, i)
  }

  ghost predicate RememberedAt(m: map<Text, int>, vs: seq<Vertex>, ts: seq<int>, s: Text, i: int) {
    0 <= i < |vs| == |ts| && vs[i].id.Some? && Spelling(vs[i].id.value) == s && s in m && m[s] == ts[i]
  }

  lemma {:induction false} RunRemembers(nodes: multiset<NodeRow>, l: Loader, vs: seq<Vertex>)
    requires UniqueNodes(nodes) && Keyed(vs) && l.vertexIds == map[]
    ensures Remembered(ReplaceVertices(nodes, l, vs).0.vertexIds, vs, Targets(nodes, KeysOf(vs), l.nextNode))
  {
    hide UniqueNodes, ReplaceVertex, TargetOf;
    var keys := KeysOf(vs);
    TargetsAreAsMany(nodes, keys, l.nextNode);
    if vs != [] {
      var n := |vs| - 1;
      var front, v := vs[..n], vs[n];
      assert KeysOf(front) == keys[..n];
      TargetsAreAsMany(nodes, keys[..n], l.nextNode);
      var ts, ts1 := Targets(nodes, keys, l.nextNode), Targets(nodes, keys[..n], l.nextNode);
      assert ts == ts1 + [ts[n]] && vs == front + [v];
      RunRemembers(nodes, l, front);
      ReplaceNodes(nodes, l, front);
      var l1 := ReplaceVertices(nodes, l, front).0;
      ReplaceVertexIs(nodes, l1, v);
      Remembers(Advanced(nodes, l1, keys[n]), ts[n], UidOf(keys[n]), v, Lookup(nodes, keys[n]).None?);
      RemembersOneMore(l1.vertexIds, front, ts1, v, ts[n]);
    }
  }

  lemma RemembersOneMore(m: map<Text, int>, vs: seq<Vertex>, ts: seq<int>, v: Vertex, t: int)
    requires Remembered(m, vs, ts) && v.id.Some?
    ensures Remembered(m[Spelling(v.id.value) := t], vs + [v], ts + [t])
  {
    var m', vs', ts' := m[Spelling(v.id.value) := t], vs + [v], ts + [t];
    forall s | s in m' ensures exists i :: RememberedAt(m', vs', ts', s, i) {
      if s == Spelling(v.id.value) {
        assert RememberedAt(m', vs', ts', s, |vs|);
      } else {
        var i :| RememberedAt(m, vs, ts, s, i);
        assert RememberedAt(m', vs', ts', s, i);
      }
    }
  }

  lemma {:induction false} KeylessAreForgotten(nodes: multiset<NodeRow>, l: Loader, vs: seq<Vertex>)
    requires forall v | v in vs :: v.id.None?
    ensures ReplaceVertices(nodes, l, vs).0.vertexIds == l.vertexIds
  {
    if vs != [] {
      assert vs[|vs| - 1] in vs && forall v | v in vs[..|vs| - 1] :: v in vs;
      KeylessAreForgotten(nodes, l, vs[..|vs| - 1]);
      Forgets(nodes, ReplaceVertices(nodes, l, vs[..|vs| - 1]).0, vs[|vs| - 1]);
    }
  }

  lemma Forgets(nodes: multiset<NodeRow>, l: Loader, v: Vertex)
    requires v.id.None?
    ensures ReplaceVertex(nodes, l, v).0.vertexIds == l.vertexIds
  {
    hide PropRows, NextProp, FtsRows, LabelRows;
  }

  /** The vertex pass remembers what it would for the keyed vertices alone. */
  lemma PlacedRemembers(db: Tables, vs: seq<Vertex>, es: seq<Edge>)
    ensures Placed(db, vs, es).vertexIds
      == ReplaceVertices(db.nodes, Document(db, vs, es), Deduped(KeyedOf(vs), VertexKey)).0.vertexIds
  {
    hide ReplaceVertices, Deduped;
    var l, kept, rest := Document(db, vs, es), Deduped(KeyedOf(vs), VertexKey), Keyless(vs, VertexKey);
    DedupedInTwo(vs);
    KeylessHaveNoId(vs);
    RunInTwo(db.nodes, l, kept, rest);
    KeylessAreForgotten(db.nodes, ReplaceVertices(db.nodes, l, kept).0, rest);
  }

  /** In the imported graph every remembered id is the rowid of the vertex it names there. */
  lemma MemoAgreesAfter(db: Tables, vs: seq<Vertex>, es: seq<Edge>)
    requires Loadable(db, vs, es) && Import(db, vs, es).Ok? && DistinctSpellings(Calls(vs, es))
    ensures Agrees(Import(db, vs, es).value.nodes, Placed(db, vs, es).vertexIds, Calls(vs, es))
  {
    hide Import, Placed, Fill, Deduped, Targets, Loadable, Replaceable, Consistent, Lookup, UniqueNodes,
         DistinctSpellings, KeyedOf, ReplaceVertices, Start, Unique, References, PositiveNodes, Filled, MaxOr0;
    var keyed := KeyedOf(vs);
    var kept, b := Deduped(keyed, VertexKey), Fill(keyed, VertexKey);
    var d, m := Import(db, vs, es).value, Placed(db, vs, es).vertexIds;
    var ts := Targets(db.nodes, b.keys, Document(db, vs, es).nextNode);
    LoadableIs(db, vs, es);
    KeyedFill(keyed);
    DedupedFrom(keyed, VertexKey);
    KeyedAreGiven(vs);
    PlacedRemembers(db, vs, es);
    DocumentIsRaw(db, vs, es);
    RunRemembers(db.nodes, Document(db, vs, es), kept);
    KeysAreNamed(db, vs, es);
    forall v | v in kept ensures Named(v.id.value, Calls(vs, es)) { NamedByVertex(vs, es, v); }
    MemoFrom(d.nodes, m, kept, ts, Calls(vs, es));
  }

  lemma MemoFrom(nodes: multiset<NodeRow>, m: map<Text, int>, vs: seq<Vertex>, ts: seq<int>, ops: seq<Op>)
    requires Remembered(m, vs, ts) && DistinctSpellings(ops)
    requires forall i | 0 <= i < |vs| :: vs[i].id.Some? && Lookup(nodes, vs[i].id.value) == Some(ts[i])
    requires forall v | v in vs :: v.id.Some? && Named(v.id.value, ops)
    ensures Agrees(nodes, m, ops)
  {
    hide Lookup, DistinctSpellings, Named;
    forall k | Named(k, ops) && Spelling(k) in m ensures Lookup(nodes, k) == Some(m[Spelling(k)]) {
      var i :| RememberedAt(m, vs, ts, Spelling(k), i);
      assert vs[i] in vs;
      SpellingTells(ops, k, vs[i].id.value);
    }
  }

  lemma SpellingTells(ops: seq<Op>, k: Key, k': Key)
    requires DistinctSpellings(ops) && Named(k, ops) && Named(k', ops) && Spelling(k) == Spelling(k')
    ensures k == k'
  {
  }

  /** Each keyed vertex of the batch is where its key lands, in the imported graph. */
  lemma KeysAreNamed(db: Tables, vs: seq<Vertex>, es: seq<Edge>)
    requires Loadable(db, vs, es) && Import(db, vs, es).Ok?
    ensures var d, kept := Import(db, vs, es).value, Deduped(KeyedOf(vs), VertexKey);
      var ts := Targets(db.nodes, Fill(KeyedOf(vs), VertexKey).keys, Start(db));
      |ts| == |kept| && forall i | 0 <= i < |kept| ::
        kept[i].id.Some? && Lookup(d.nodes, kept[i].id.value) == Some(ts[i])
  {
    hide Loadable, Replaceable, Consistent, Described, Filled, LandBatch, Targets, Unique, PositiveNodes, Lookup,
         Start, KeyedOf, WithNew, Keyed;
    var keyed := KeyedOf(vs);
    var d, b, kept := Import(db, vs, es).value, Fill(keyed, VertexKey), Deduped(keyed, VertexKey);
    LoadableIs(db, vs, es);
    ImportKeepsConsistent(db, vs, es);
    ConsistentIs(d);
    DocumentIsRaw(db, vs, es);
    var k, first := MixedIsDescribed(db, Document(db, vs, es));
    NewBesides(k, d, Keyless(vs, VertexKey), first);
    UniqueHasNodes(k);
    KeyedFill(keyed);
    ImportedNodes(db, k, b);
    TargetsAreAsMany(db.nodes, b.keys, Start(db));
    hide Import, Deduped, Fill, UniqueNodes;
    forall i | 0 <= i < |kept|
      ensures kept[i].id.Some? && Lookup(d.nodes, kept[i].id.value) == Some(Targets(db.nodes, b.keys, Start(db))[i]) {
      KeyIsNamed(db, k, d, b.keys, kept, i);
    }
  }

  lemma NewBesides(k: Tables, d: Tables, vs: seq<Vertex>, first: int)
    requires WithNew(k, d, vs, first)
    ensures k.nodes <= d.nodes
  {
  }

  lemma KeyIsNamed(db: Tables, k: Tables, d: Tables, keys: seq<Key>, kept: seq<Vertex>, i: nat)
    requires k.nodes == db.nodes + multiset(NewRows(db.nodes, keys, Start(db))) && k.nodes <= d.nodes
    requires UniqueNodes(k.nodes) && UniqueNodes(db.nodes) && UniqueNodes(d.nodes)
    requires Keyed(kept) && KeysOf(kept) == keys && i < |kept|
    ensures kept[i].id.Some? && |Targets(db.nodes, keys, Start(db))| == |keys|
    ensures Lookup(d.nodes, kept[i].id.value) == Some(Targets(db.nodes, keys, Start(db))[i])
  {
    hide Lookup, Targets, Start, UniqueNodes, NewRows;
    assert kept[i] in kept && KeysOf(kept)[i] == keys[i];
    SeenKeyNames(db, k, keys, i);
    LandedLooksUpTheSame(k.nodes, kept[i].id.value);
    LookupStable(k.nodes, d.nodes, kept[i].id.value);
  }

  // ---------- the landed edges ----------

  /** The row of an edge under this rowid, between the vertices its ends name in `nodes`. */
  ghost predicate Connects(nodes: multiset<NodeRow>, r: EdgeRow, id: int, e: Edge) {
    && r.id == id && r.uid == EdgeUid(e) && r.name == e.name
    && Lookup(nodes, e.src) == Some(r.src) && Lookup(nodes, e.tgt) == Some(r.tgt)
  }

  /** A row that landed is that of some edge of the batch, under its rowid. */
  ghost predicate ConnectsSome(nodes: multiset<NodeRow>, r: EdgeRow, es: seq<Edge>, ids: seq<int>) {
    exists j :: 0 <= j < |es| == |ids| && Connects(nodes, r, ids[j], es[j])
  }

  /** One of these rows is that of the edge. */
  ghost predicate ConnectedBy(nodes: multiset<NodeRow>, rows: seq<EdgeRow>, id: int, e: Edge) {
    exists r :: r in rows && Connects(nodes, r, id, e)
  }

  lemma EagerConnects(nodes: multiset<NodeRow>, m: map<Text, int>, ops: seq<Op>, es: seq<Edge>, ids: seq<int>, j: int,
      r: EdgeRow)
    requires Agrees(nodes, m, ops) && EagerRow(es, ids, m, j, r) && Named(es[j].src, ops) && Named(es[j].tgt, ops)
    ensures ConnectsSome(nodes, r, es, ids)
  {
    hide Lookup;
    assert Connects(nodes, r, ids[j], es[j]);
  }

  lemma DeferredConnects(nodes: multiset<NodeRow>, es: seq<Edge>, ids: seq<int>, j: int, p: Pending)
    requires DeferredRow(es, ids, j, p) && Found(nodes, p.edge)
    ensures ConnectsSome(nodes, RowOf(nodes, p), es, ids)
  {
    hide Lookup;
    assert Connects(nodes, RowOf(nodes, p), ids[j], es[j]);
  }

  /** Every row of the edge pass, eager or deferred, connects the vertices its ends name. */
  lemma NewEdgesConnect(nodes: multiset<NodeRow>, l: Loader, ops: seq<Op>, es: seq<Edge>, ids: seq<int>)
    requires HoldsEdges(l, es, ids, l.vertexIds) && Agrees(nodes, l.vertexIds, ops) && DistinctSpellings(ops)
    requires forall j | 0 <= j < |es| :: Named(es[j].src, ops) && Named(es[j].tgt, ops)
    requires ResolvePending(nodes, l.vertexIds, l.pending).Ok?
    ensures forall r | r in NewEdges(nodes, l) :: ConnectsSome(nodes, r, es, ids)
  {
    assert NamedEnds(l.pending, ops) by {
      forall p | p in l.pending ensures Named(p.edge.src, ops) && Named(p.edge.tgt, ops) {
        var j :| DeferredRow(es, ids, j, p);
      }
    }
    ResolveIsLookup(nodes, l.vertexIds, l.pending, ops);
    hide Agrees, DistinctSpellings, Named, ResolvePending, ConnectsSome, EagerRow, DeferredRow, Found;
    forall r | r in NewEdges(nodes, l) ensures ConnectsSome(nodes, r, es, ids) {
      if r in l.edgeRows {
        var j :| EagerRow(es, ids, l.vertexIds, j, r);
        EagerIsEdge(es, ids, l.vertexIds, j, r);
        EagerConnects(nodes, l.vertexIds, ops, es, ids, j, r);
      } else {
        var i :| 0 <= i < |l.pending| && PendRows(nodes, l.pending)[i] == r;
        assert l.pending[i] in l.pending;
        var j :| DeferredRow(es, ids, j, l.pending[i]);
        DeferredConnects(nodes, es, ids, j, l.pending[i]);
      }
    }
  }

  lemma EagerIsEdge(es: seq<Edge>, ids: seq<int>, m: map<Text, int>, j: int, r: EdgeRow)
    requires EagerRow(es, ids, m, j, r)
    ensures 0 <= j < |es| == |ids|
  {
  }

  /** WHERE IMPORTED EDGES LAND. For a document whose ids are distinct as strings, an import leaves exactly one row
      for each of its (deduplicated) edges, keyed or not, with its label, between the vertices its ends name in the
      graph the import leaves: the batch's own, matched or minted, or stored ones. */
  lemma ImportConnectsEdges(db: Tables, vs: seq<Vertex>, es: seq<Edge>)
    requires Loadable(db, vs, es) && Import(db, vs, es).Ok? && DistinctSpellings(Calls(vs, es))
    ensures EdgePass(db, vs, es).Ok?
    ensures var d, kept, ids := Import(db, vs, es).value, Deduped(es, EdgeKey), RowidsOf(db, vs, es);
      var rows := NewEdges(d.nodes, EdgePass(db, vs, es).value.0);
      && EdgesDescribed(db, d, kept, rows, ids) && Injective(ids)
      && (forall r | r in rows :: ConnectsSome(d.nodes, r, kept, ids))
      && |ids| == |kept| && forall j | 0 <= j < |kept| :: ConnectedBy(d.nodes, rows, ids[j], kept[j])
  {
    hide Import, Loadable, Replaceable, Consistent, Deduped, Placed, NewEdges, Agrees, DistinctSpellings, Lookup,
         Named, ResolvePending, ReplaceEdges, EdgeRowids, References, UniqueNodes, Unique, Injective;
    var d, kept, ids, ops := Import(db, vs, es).value, Deduped(es, EdgeKey), RowidsOf(db, vs, es), Calls(vs, es);
    LoadableIs(db, vs, es);
    DedupedFrom(es, EdgeKey);
    ImportedEdgeTables(db, vs, es);
    ImportDescribesEdges(db, vs, es);
    PlacedHasNoEdges(db, vs, es);
    RunHolds(db.edges, Placed(db, vs, es), kept);
    MemoAgreesAfter(db, vs, es);
    forall j | 0 <= j < |kept| ensures Named(kept[j].src, ops) && Named(kept[j].tgt, ops) {
      assert kept[j] in kept;
      NamedByEnds(vs, es, kept[j]);
    }
    var l := EdgePass(db, vs, es).value.0;
    HoldsRemembers(l, kept, ids, Placed(db, vs, es).vertexIds);
    NewEdgesConnect(d.nodes, l, ops, kept, ids);
    OneRowEach(db, d, kept, NewEdges(d.nodes, l), ids);
  }

  lemma HoldsRemembers(l: Loader, es: seq<Edge>, ids: seq<int>, m: map<Text, int>)
    requires HoldsEdges(l, es, ids, m)
    ensures l.vertexIds == m
  {
  }

  /** The rowid tells which edge a landed row is. */
  lemma OneRowEach(db: Tables, d: Tables, es: seq<Edge>, rows: seq<EdgeRow>, ids: seq<int>)
    requires EdgesDescribed(db, d, es, rows, ids) && Injective(ids)
    requires forall r | r in rows :: ConnectsSome(d.nodes, r, es, ids)
    ensures |ids| == |es| && forall j | 0 <= j < |es| :: ConnectedBy(d.nodes, rows, ids[j], es[j])
  {
    hide EdgeShows, NamedByBatch, FromBatch;
    forall j | 0 <= j < |es| ensures ConnectedBy(d.nodes, rows, ids[j], es[j]) {
      var r :| r in rows && r.id == ids[j] && r.uid == EdgeUid(es[j]);
      var i :| 0 <= i < |es| == |ids| && Connects(d.nodes, r, ids[i], es[i]);
      assert i == j;
    }
  }

  // ---------- edges without an id ----------

  /** Edge `e` is a row of its own under a rowid that was not stored: without a uid, under its name, between the
      vertices its ends name, and with exactly its properties. */
  ghost predicate LandsAsNew(db: Tables, d: Tables, id: int, e: Edge) {
    && !HasEdge(db.edges, id)
    && (exists r :: r in d.edges && r.id == id && r.uid == None && r.name == e.name
                    && Lookup(d.nodes, e.src) == Some(r.src) && Lookup(d.nodes, e.tgt) == Some(r.tgt))
    && Carries(d.eprops, id, e.props)
  }

  /** AN EDGE WITHOUT AN ID IS ALWAYS NEW. Beside its keyed edges an import leaves, for each edge of the document
      without an id, one row under a rowid of its own: not stored before, and taken by no other edge. */
  lemma KeylessEdgesLand(db: Tables, vs: seq<Vertex>, es: seq<Edge>)
    requires Loadable(db, vs, es) && Import(db, vs, es).Ok? && DistinctSpellings(Calls(vs, es))
    ensures var d, kept, ids := Import(db, vs, es).value, Deduped(es, EdgeKey), RowidsOf(db, vs, es);
      var rest := Keyless(es, EdgeKey); var n := |kept| - |rest|;
      && |ids| == |kept| && n >= 0 && kept[n..] == rest && Injective(ids)
      && (forall j | 0 <= j < n :: kept[j].id.Some?)
      && forall j | 0 <= j < |rest| :: LandsAsNew(db, d, ids[n + j], rest[j])
  {
    hide Import, Loadable, Replaceable, Consistent, Deduped, Placed, NewEdges, DistinctSpellings, Lookup, Injective,
         EdgeRowids, EdgesDescribed, ConnectedBy, ConnectsSome, LandsAsNew, EdgePass, Calls, Keyless;
    var d, kept, ids := Import(db, vs, es).value, Deduped(es, EdgeKey), RowidsOf(db, vs, es);
    var rest := Keyless(es, EdgeKey);
    var keys := DedupedMeaning(es, EdgeKey);
    assert forall i | 0 <= i < |keys| :: kept[i].id.Some?;
    hide SeenBefore, LastAt, HasKey;
    KeylessEdgesHaveNoId(es);
    ImportConnectsEdges(db, vs, es);
    PlacedStartsPast(db, vs, es);
    forall j | 0 <= j < |rest| ensures LandsAsNew(db, d, ids[|keys| + j], rest[j]) {
      assert kept[|keys| + j] == kept[|keys|..][j] && rest[j] in rest;
      KeylessRowidIsNew(kept, Placed(db, vs, es).nextEdge, |keys| + j);
      OneLandsAsNew(db, d, kept, NewEdges(d.nodes, EdgePass(db, vs, es).value.0), ids, |keys| + j);
    }
  }

  /** The edge pass of an import mints past every stored edge. */
  lemma PlacedStartsPast(db: Tables, vs: seq<Vertex>, es: seq<Edge>)
    ensures forall r | r in db.edges :: r.id < Placed(db, vs, es).nextEdge
  {
    VerticesLeaveEdgeCursor(db.nodes, Document(db, vs, es), Deduped(vs, VertexKey));
    hide ReplaceVertices, Deduped;
    forall r | r in db.edges ensures r.id <= MaxOr0(EdgeIds(db.edges)) { assert r.id in EdgeIds(db.edges); }
  }

  lemma {:induction false} VerticesLeaveEdgeCursor(nodes: multiset<NodeRow>, l: Loader, vs: seq<Vertex>)
    ensures ReplaceVertices(nodes, l, vs).0.nextEdge == l.nextEdge
  {
    hide PropRows, NextProp, FtsRows, LabelRows;
    if vs != [] { VerticesLeaveEdgeCursor(nodes, l, vs[..|vs| - 1]); }
  }

  lemma OneLandsAsNew(db: Tables, d: Tables, es: seq<Edge>, rows: seq<EdgeRow>, ids: seq<int>, j: nat)
    requires EdgesDescribed(db, d, es, rows, ids) && j < |es| == |ids| && es[j].id.None?
    requires ConnectedBy(d.nodes, rows, ids[j], es[j]) && forall r | r in db.edges :: r.id < ids[j]
    ensures LandsAsNew(db, d, ids[j], es[j])
  {
    hide NamedByBatch, FromBatch, Carries, Lookup;
    var r :| r in rows && Connects(d.nodes, r, ids[j], es[j]);
    assert r in d.edges;
  }
}
