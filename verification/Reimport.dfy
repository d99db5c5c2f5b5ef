/** Importing the same keyed batch twice under `replace` changes nothing the second time, up to property
    rowids and the re-minted rowids of string-keyed edges (src/bulk.ts). */
module Reimport {
  import opened Utf16
  import opened Graph
  import opened Dedupe
  import opened Loader
  import opened Cursors
  import opened FullText
  import opened Consistency
  import opened Batching
  import opened BatchingProof
  import opened BatchingTheorem
  import opened ReplaceBatch

  const REPLACE := Options(Preserve, Replace)

  /** A replace loader holding a document. */
  ghost function Document(db: Tables, vs: seq<Vertex>, es: seq<Edge>): Loader {
    Fresh(db, REPLACE, None).(rawVertices := vs, rawEdges := es)
  }

  /** Import a document: one loader, one flush. */
  ghost function Import(db: Tables, vs: seq<Vertex>, es: seq<Edge>): Result<Tables> {
    var (db', _) :- LandBatch(db, Document(db, vs, es));
    Ok(db')
  }

  /** The document is what feeding its elements to a replace loader leaves. */
  lemma {:induction false} FeedingIsTheDocument(db: Tables, ops: seq<Op>)
    ensures Feed(Fresh(db, REPLACE, None), ops) == Ok(Document(db, VerticesOf(ops), EdgesOf(ops)))
  {
    if ops != [] { FeedingIsTheDocument(db, ops[..|ops| - 1]); }
  }

  function VerticesOf(ops: seq<Op>): seq<Vertex> {
    if ops == [] then []
    else
      var rest, op := VerticesOf(ops[..|ops| - 1]), ops[|ops| - 1];
      if op.AddV? then rest + [op.v] else rest
  }

  function EdgesOf(ops: seq<Op>): seq<Edge> {
    if ops == [] then []
    else
      var rest, op := EdgesOf(ops[..|ops| - 1]), ops[|ops| - 1];
      if op.AddE? then rest + [op.e] else rest
  }

  ghost predicate KeyedEdges(es: seq<Edge>) {
    forall e | e in es :: e.id.Some?
  }

  /** A consistent graph and a keyed document, property ids positive where given. */
  ghost predicate Importable(db: Tables, vs: seq<Vertex>, es: seq<Edge>) {
    Consistent(db) && Replaceable(db, vs) && KeyedEdges(es) && PositiveDocument(vs, es)
  }

  ghost predicate PositiveDocument(vs: seq<Vertex>, es: seq<Edge>) {
    (forall v | v in vs :: PositiveIn(v.props)) && forall e | e in es :: PositiveIn(e.props)
  }

  lemma ImportIsConsistent(db: Tables, vs: seq<Vertex>, es: seq<Edge>)
    requires Importable(db, vs, es) && Import(db, vs, es).Ok?
    ensures Consistent(Import(db, vs, es).value)
  {
    hide Consistent, Replaceable, PositiveDocument, Import;
    ImportKeepsConsistent(db, vs, es);
  }

  lemma ImportKeepsConsistent(db: Tables, vs: seq<Vertex>, es: seq<Edge>)
    requires Consistent(db) && PositiveDocument(vs, es) && Import(db, vs, es).Ok?
    ensures Consistent(Import(db, vs, es).value)
  {
    hide PropRows, NextProp, FtsRows, LabelRows, ReplaceVertices, ReplaceEdges, Deduped, Consistent, LandRows,
         Replaceable;
    var l := Document(db, vs, es);
    DocumentIsSound(db, vs, es);
    var (db', l') := ResolveReplace(db, l).value;
    ResolveReplaceIsSound(db, l);
    LandRowsKeepsConsistent(db', l');
  }

  lemma DocumentIsSound(db: Tables, vs: seq<Vertex>, es: seq<Edge>)
    requires Consistent(db)
    ensures var l := Document(db, vs, es); InStep(l) && Sound(db.nodes, l) && PositiveBuffers(l) && Consistent(db)
  {
    PositiveCursors(db);
  }

  // ---------- vertices ----------

  lemma DocumentIsRaw(db: Tables, vs: seq<Vertex>, es: seq<Edge>)
    ensures Raw(db, Document(db, vs, es))
  {
  }

  /** After an import each key of the document names its vertex, and nothing is new. */
  lemma ImportedTargets(db: Tables, s: Tables, keys: seq<Key>)
    requires s.nodes == db.nodes + multiset(NewRows(db.nodes, keys, Start(db))) && UniqueNodes(s.nodes)
      && UniqueNodes(db.nodes)
    ensures Targets(s.nodes, keys, Start(s)) == Targets(db.nodes, keys, Start(db))
    ensures NewRows(s.nodes, keys, Start(s)) == []
    ensures forall k | k in keys :: Lookup(s.nodes, k).Some?
  {
    TargetsAreAsMany(db.nodes, keys, Start(db));
    forall i | 0 <= i < |keys| ensures Lookup(s.nodes, keys[i]) == Some(Targets(db.nodes, keys, Start(db))[i]) {
      SeenKeyNames(db, s, keys, i);
    }
    KnownTargets(s.nodes, keys, Start(s), Targets(db.nodes, keys, Start(db)));
  }

  lemma {:induction false} KnownTargets(nodes: multiset<NodeRow>, keys: seq<Key>, next: int, ts: seq<int>)
    requires |ts| == |keys| && forall i | 0 <= i < |keys| :: Lookup(nodes, keys[i]) == Some(ts[i])
    ensures Targets(nodes, keys, next) == ts && NewRows(nodes, keys, next) == []
  {
    if keys != [] {
      var n := |keys| - 1;
      KnownTargets(nodes, keys[..n], next, ts[..n]);
      assert Lookup(nodes, keys[n]) == Some(ts[n]);
      TargetIsLookup(nodes, keys[n], CursorAfter(nodes, keys[..n], next));
    }
  }

  lemma TargetsStayDistinct(s: Tables, keys: seq<Key>)
    requires Injective(Targets(s.nodes, keys, Start(s))) && forall k | k in keys :: Lookup(s.nodes, k).Some?
    ensures DistinctTargets(s.nodes, keys)
  {
    TargetsAreAsMany(s.nodes, keys, Start(s));
    forall k, k' | k in keys && k' in keys && k != k' ensures Lookup(s.nodes, k) != Lookup(s.nodes, k') {
      var i :| 0 <= i < |keys| && keys[i] == k;
      var j :| 0 <= j < |keys| && keys[j] == k';
      TargetAt(s.nodes, keys, Start(s), i);
      TargetAt(s.nodes, keys, Start(s), j);
    }
  }

  lemma TargetAt(nodes: multiset<NodeRow>, keys: seq<Key>, next: int, i: nat)
    requires i < |keys| && Lookup(nodes, keys[i]).Some?
    ensures |Targets(nodes, keys, next)| == |keys| && Lookup(nodes, keys[i]) == Some(Targets(nodes, keys, next)[i])
  {
    TargetsAreNamed(nodes, keys, next, i);
    if keys[i].Num? { var r :| r in nodes && Names(r, keys[i]) && r.id == Lookup(nodes, keys[i]).value; }
  }

  /** What a first import leaves is ready for a second one. */
  lemma ImportIsImportable(db: Tables, vs: seq<Vertex>, es: seq<Edge>)
    requires Importable(db, vs, es) && Import(db, vs, es).Ok?
    ensures Importable(Import(db, vs, es).value, vs, es)
    ensures Filled(Fill(vs, VertexKey))
    ensures Described(Import(db, vs, es).value, Import(db, vs, es).value, Fill(vs, VertexKey))
  {
    hide Consistent, LandBatch, Fill, Targets, NewRows, Shows, Untouched, UniqueNodes, Injective, DistinctTargets,
         References, Replaceable, Start, Described, Filled, PositiveNodes;
    var d, b := Import(db, vs, es).value, Fill(vs, VertexKey);
    ImportIsConsistent(db, vs, es);
    DocumentIsRaw(db, vs, es);
    SetBasedIsDescribed(db, Document(db, vs, es));
    ConsistentIs(d);
    ReplaceableIs(db, vs);
    KeyedFill(vs);
    ImportedNodes(db, d, b);
    ImportedTargets(db, d, b.keys);
    TargetsStayDistinct(d, b.keys);
    ReplaceableAfter(db, d, vs);
    StaysDescribed(db, d, b);
  }

  lemma ImportedNodes(db: Tables, d: Tables, b: Buckets<Vertex>)
    requires Filled(b) && Described(db, d, b) && PositiveNodes(db)
    requires forall i | 0 <= i < |b.keys| :: b.keys[i].Num? ==> b.keys[i].n > 0
    ensures d.nodes == db.nodes + multiset(NewRows(db.nodes, b.keys, Start(db))) && PositiveNodes(d)
  {
    hide Shows, Untouched, Targets, NewRows, MaxOr0, NodeIds;
    CursorIsMax(db.nodes, b.keys);
  }

  /** A graph that shows a document's definitions is described by the document from itself. */
  lemma StaysDescribed(db: Tables, d: Tables, b: Buckets<Vertex>)
    requires Filled(b) && Described(db, d, b)
    requires Targets(d.nodes, b.keys, Start(d)) == Targets(db.nodes, b.keys, Start(db))
      && NewRows(d.nodes, b.keys, Start(d)) == []
    ensures Described(d, d, b)
  {
    hide Shows, Untouched, Targets, NewRows, Start;
    forall id ensures Untouched(d, d, id) { SelfUntouched(d, id); }
    assert d.nodes + multiset([]) == d.nodes;
  }

  lemma SelfUntouched(d: Tables, id: int)
    ensures Untouched(d, d, id)
  {
  }

  lemma ConsistentIs(d: Tables)
    requires Consistent(d)
    ensures UniqueNodes(d.nodes) && Unique(d) && References(d) && PositiveProps(d) && Indexed(d)
  {
  }

  lemma ReplaceableAfter(db: Tables, d: Tables, vs: seq<Vertex>)
    requires Replaceable(db, vs) && Unique(d) && References(d) && DistinctTargets(d.nodes, Fill(vs, VertexKey).keys)
    requires PositiveNodes(d)
    ensures Replaceable(d, vs)
  {
  }

  // ---------- edges: two runs of the pass in step ----------

  /** The same edge buffered by two runs: alike but for a minted rowid. */
  ghost predicate Twin(r: EdgeRow, r': EdgeRow) {
    r.uid == r'.uid && r.src == r'.src && r.tgt == r'.tgt && r.name == r'.name && (r.uid.None? ==> r.id == r'.id)
  }

  ghost predicate TwinPending(p: Pending, p': Pending) {
    p.edge == p'.edge && p.uid == p'.uid && (p.uid.None? ==> p.id == p'.id)
  }

  ghost predicate Twins(a: seq<EdgeRow>, b: seq<EdgeRow>) {
    |a| == |b| && forall i | 0 <= i < |a| :: Twin(a[i], b[i])
  }

  ghost predicate TwinLoaders(l: Loader, l': Loader) {
    && l.vertexIds == l'.vertexIds && Twins(l.edgeRows, l'.edgeRows)
    && |l.pending| == |l'.pending| && forall i | 0 <= i < |l.pending| :: TwinPending(l.pending[i], l'.pending[i])
  }

  lemma TwinEdge(l: Loader, l': Loader, id: int, id': int, uid: Option<Text>, e: Edge)
    requires TwinLoaders(l, l') && (uid.None? ==> id == id') && BufferEdge(l, id, uid, e).Ok?
    ensures BufferEdge(l', id', uid, e).Ok? && TwinLoaders(BufferEdge(l, id, uid, e).value,
      BufferEdge(l', id', uid, e).value)
  {
    hide PropRows, NextProp, FtsRows;
  }

  lemma {:induction false} TwinRuns(edges: multiset<EdgeRow>, edges': multiset<EdgeRow>, l: Loader, l': Loader,
      es: seq<Edge>)
    requires TwinLoaders(l, l') && KeyedEdges(es) && ReplaceEdges(edges, l, es).Ok?
    ensures ReplaceEdges(edges', l', es).Ok?
    ensures TwinLoaders(ReplaceEdges(edges, l, es).value.0, ReplaceEdges(edges', l', es).value.0)
  {
    hide BufferEdge, TwinLoaders;
    if es != [] {
      var front, e := es[..|es| - 1], es[|es| - 1];
      assert forall x | x in front :: x in es;
      assert e in es;
      TwinRuns(edges, edges', l, l', front);
      TwinStep(edges, edges', ReplaceEdges(edges, l, front).value.0, ReplaceEdges(edges', l', front).value.0, e);
    }
  }

  lemma TwinStep(edges: multiset<EdgeRow>, edges': multiset<EdgeRow>, l: Loader, l': Loader, e: Edge)
    requires TwinLoaders(l, l') && e.id.Some? && ReplaceEdge(edges, l, e).Ok?
    ensures ReplaceEdge(edges', l', e).Ok?
    ensures TwinLoaders(ReplaceEdge(edges, l, e).value.0, ReplaceEdge(edges', l', e).value.0)
  {
    hide BufferEdge;
    match e.id.value
    case Num(n) => TwinEdge(l.(nextEdge := Bump(l.nextEdge, n)), l'.(nextEdge := Bump(l'.nextEdge, n)), n, n, None, e);
    case Str(s) =>
      TwinEdge(l.(nextEdge := l.nextEdge + 1), l'.(nextEdge := l'.nextEdge + 1), l.nextEdge, l'.nextEdge,
        Some(WellFormed(s)), e);
  }

  lemma {:induction false} TwinResolution(nodes: multiset<NodeRow>, ids: map<Text, int>, a: seq<Pending>,
      b: seq<Pending>)
    requires |a| == |b| && forall i | 0 <= i < |a| :: TwinPending(a[i], b[i])
    ensures ResolvePending(nodes, ids, a).Ok? <==> ResolvePending(nodes, ids, b).Ok?
    ensures ResolvePending(nodes, ids, a).Ok? ==>
      && ResolvePending(nodes, ids, a).value.1 == ResolvePending(nodes, ids, b).value.1
      && Twins(ResolvePending(nodes, ids, a).value.0, ResolvePending(nodes, ids, b).value.0)
  {
    if a != [] {
      TwinResolution(nodes, ids, a[..|a| - 1], b[..|b| - 1]);
      assert TwinPending(a[|a| - 1], b[|b| - 1]);
    }
  }

  // ---------- edges: what one run buffers ----------

  /** The rows an import adds to `edges`: eager ones, then the deferred ones as resolved. */
  ghost function NewEdges(nodes: multiset<NodeRow>, l: Loader): seq<EdgeRow> {
    match ResolvePending(nodes, l.vertexIds, l.pending)
    case Ok((rows, _)) => l.edgeRows + rows
    case Err(_) => l.edgeRows
  }

  function EdgeRowid(e: Edge, next: int): int {
    if e.id.Some? && e.id.value.Num? then e.id.value.n else next
  }

  function EdgeUid(e: Edge): Option<Text> {
    if e.id.Some? && e.id.value.Str? then Some(WellFormed(e.id.value.s)) else None
  }

  /** The rowids the pass gives the edges, in order, and the cursor after it. */
  function EdgeRowids(es: seq<Edge>, next: int): seq<int> {
    if es == [] then []
    else
      var front := es[..|es| - 1];
      EdgeRowids(front, next) + [EdgeRowid(es[|es| - 1], EdgeCursorAfter(front, next))]
  }

  function EdgeCursorAfter(es: seq<Edge>, next: int): int {
    if es == [] then next
    else
      var e, c := es[|es| - 1], EdgeCursorAfter(es[..|es| - 1], next);
      Bump(c, EdgeRowid(e, c))
  }

  lemma {:induction false} EdgeRowidsAreAsMany(es: seq<Edge>, next: int)
    ensures |EdgeRowids(es, next)| == |es|
  {
    if es != [] { EdgeRowidsAreAsMany(es[..|es| - 1], next); }
  }

  /** An edge is buffered, eager or deferred, under this rowid and uid. */
  ghost predicate HasEntry(l: Loader, id: int, uid: Option<Text>) {
    || (exists r :: r in l.edgeRows && r.id == id && r.uid == uid)
    || (exists p :: p in l.pending && p.id == id && p.uid == uid)
  }

  /** Rowid and uid are those of edge number `j`. */
  ghost predicate EntryOf(es: seq<Edge>, ids: seq<int>, j: int, id: int, uid: Option<Text>) {
    0 <= j < |es| == |ids| && id == ids[j] && uid == EdgeUid(es[j])
  }

  ghost predicate FromBatch(es: seq<Edge>, ids: seq<int>, id: int, uid: Option<Text>) {
    exists j :: EntryOf(es, ids, j, id, uid)
  }

  lemma BufferedEntry(l: Loader, id: int, uid: Option<Text>, e: Edge)
    requires BufferEdge(l, id, uid, e).Ok?
    ensures var l' := BufferEdge(l, id, uid, e).value;
      && (l'.edgeRows == l.edgeRows || (l'.pending == l.pending && exists r ::
         l'.edgeRows == l.edgeRows + [r] && r.id == id && r.uid == uid))
      && (l'.pending == l.pending || (l'.edgeRows == l.edgeRows && l'.pending == l.pending + [Pending(e, id, uid)]))
      && HasEntry(l', id, uid) && l'.nextEdge == l.nextEdge
  {
    hide PropRows, NextProp, FtsRows;
    var l' := BufferEdge(l, id, uid, e).value;
    if l'.pending == l.pending {
      assert l'.edgeRows == l.edgeRows + [l'.edgeRows[|l.edgeRows|]];
      assert l'.edgeRows[|l.edgeRows|] in l'.edgeRows;
    } else {
      assert Pending(e, id, uid) in l'.pending;
    }
  }

  lemma ReplaceEdgeIs(edges: multiset<EdgeRow>, l: Loader, e: Edge)
    requires ReplaceEdge(edges, l, e).Ok?
    ensures var l0 := l.(nextEdge := Bump(l.nextEdge, EdgeRowid(e, l.nextEdge)));
      BufferEdge(l0, EdgeRowid(e, l.nextEdge), EdgeUid(e), e) == Ok(ReplaceEdge(edges, l, e).value.0)
  {
    hide BufferEdge;
  }

  lemma {:induction false} RunCursor(edges: multiset<EdgeRow>, l: Loader, es: seq<Edge>)
    requires ReplaceEdges(edges, l, es).Ok?
    ensures ReplaceEdges(edges, l, es).value.0.nextEdge == EdgeCursorAfter(es, l.nextEdge)
  {
    hide BufferEdge, ReplaceEdge;
    if es != [] {
      var front, e := es[..|es| - 1], es[|es| - 1];
      assert (forall x | x in front :: x in es) && e in es;
      RunCursor(edges, l, front);
      var l1 := ReplaceEdges(edges, l, front).value.0;
      ReplaceEdgeIs(edges, l1, e);
      BufferedEntry(l1.(nextEdge := Bump(l1.nextEdge, EdgeRowid(e, l1.nextEdge))), EdgeRowid(e, l1.nextEdge),
        EdgeUid(e), e);
    }
  }

  /** Each edge has its entry, and each entry its edge. */
  ghost predicate Covers(l: Loader, es: seq<Edge>, ids: seq<int>) {
    && |ids| == |es|
    && (forall j | 0 <= j < |es| :: HasEntry(l, ids[j], EdgeUid(es[j])))
    && (forall r | r in l.edgeRows :: FromBatch(es, ids, r.id, r.uid))
    && (forall p | p in l.pending :: FromBatch(es, ids, p.id, p.uid))
  }

  lemma {:induction false} RunCovers(edges: multiset<EdgeRow>, l: Loader, es: seq<Edge>)
    requires ReplaceEdges(edges, l, es).Ok? && l.edgeRows == [] && l.pending == []
    ensures Covers(ReplaceEdges(edges, l, es).value.0, es, EdgeRowids(es, l.nextEdge))
  {
    hide BufferEdge, ReplaceEdge, Covers;
    EdgeRowidsAreAsMany(es, l.nextEdge);
    if es == [] {
      CoversNothing(l);
    } else {
      var n := |es| - 1;
      var front, e := es[..n], es[n];
      assert (forall x | x in front :: x in es) && e in es && es == front + [e];
      EdgeRowidsAreAsMany(front, l.nextEdge);
      RunCovers(edges, l, front);
      RunCursor(edges, l, front);
      var l1, l2 := ReplaceEdges(edges, l, front).value.0, ReplaceEdges(edges, l, es).value.0;
      ReplaceEdgeIs(edges, l1, e);
      var l0, id := l1.(nextEdge := Bump(l1.nextEdge, EdgeRowid(e, l1.nextEdge))), EdgeRowid(e, l1.nextEdge);
      BufferedEntry(l0, id, EdgeUid(e), e);
      CoversOneMore(l1, l0, l2, front, EdgeRowids(front, l.nextEdge), e, id);
    }
  }

  lemma CoversNothing(l: Loader)
    requires l.edgeRows == [] && l.pending == []
    ensures Covers(l, [], [])
  {
  }

  lemma CoversOneMore(l1: Loader, l0: Loader, l2: Loader, es: seq<Edge>, ids: seq<int>, e: Edge, id: int)
    requires Covers(l1, es, ids) && l0.edgeRows == l1.edgeRows && l0.pending == l1.pending
    requires BufferEdge(l0, id, EdgeUid(e), e) == Ok(l2)
    ensures Covers(l2, es + [e], ids + [id])
  {
    var es', ids' := es + [e], ids + [id];
    BufferedEntry(l0, id, EdgeUid(e), e);
    hide BufferEdge;
    assert EntryOf(es', ids', |es|, id, EdgeUid(e));
    forall i, u | FromBatch(es, ids, i, u) ensures FromBatch(es', ids', i, u) {
      var j :| EntryOf(es, ids, j, i, u);
      assert EntryOf(es', ids', j, i, u);
    }
    assert l1.edgeRows <= l2.edgeRows && l1.pending <= l2.pending;
    forall i, u | HasEntry(l1, i, u) ensures HasEntry(l2, i, u) {
      if r :| r in l1.edgeRows && r.id == i && r.uid == u { assert r in l2.edgeRows; }
      else { var p :| p in l1.pending && p.id == i && p.uid == u; assert p in l2.pending; }
    }
    forall j | 0 <= j < |es'| ensures HasEntry(l2, ids'[j], EdgeUid(es'[j])) {
      if j < |es| { assert HasEntry(l1, ids[j], EdgeUid(es[j])); }
    }
    forall p | p in l2.pending ensures FromBatch(es', ids', p.id, p.uid) {}
    forall r | r in l2.edgeRows ensures FromBatch(es', ids', r.id, r.uid) {}
  }

  /** The matched edges are those some key of the batch names. */
  lemma {:induction false} RunMatches(edges: multiset<EdgeRow>, l: Loader, es: seq<Edge>, id: int)
    requires ReplaceEdges(edges, l, es).Ok?
    ensures id in ReplaceEdges(edges, l, es).value.1 <==> NamedByBatch(edges, es, id)
  {
    hide BufferEdge, ReplaceEdge, LookupEdge;
    if es != [] {
      var n := |es| - 1;
      var front, e := es[..n], es[n];
      assert (forall x | x in front :: x in es) && e in es;
      RunMatches(edges, l, front, id);
      if j :| 0 <= j < |front| && front[j].id.Some? && LookupEdge(edges, front[j].id.value) == Some(id) {
        assert es[j] == front[j];
      }
      EdgeMatch(edges, ReplaceEdges(edges, l, front).value.0, e);
    }
  }

  lemma EdgeMatch(edges: multiset<EdgeRow>, l: Loader, e: Edge)
    requires ReplaceEdge(edges, l, e).Ok?
    ensures ReplaceEdge(edges, l, e).value.1 ==
      if e.id.Some? && LookupEdge(edges, e.id.value).Some? then {LookupEdge(edges, e.id.value).value} else {}
  {
    hide BufferEdge;
  }

  ghost predicate EdgeShows(eprops: multiset<PropRow>, es: seq<Edge>, ids: seq<int>) {
    |ids| == |es| && forall j | 0 <= j < |es| :: Carries(eprops, ids[j], es[j].props)
  }

  /** With rowids apart, each edge's properties are buffered under its rowid and no others. */
  lemma {:induction false} RunCarries(edges: multiset<EdgeRow>, l: Loader, es: seq<Edge>)
    requires ReplaceEdges(edges, l, es).Ok? && l.eprops == []
    requires Injective(EdgeRowids(es, l.nextEdge))
    ensures var l' := ReplaceEdges(edges, l, es).value.0; var ids := EdgeRowids(es, l.nextEdge);
      EdgeShows(multiset(l'.eprops), es, ids) && forall r | r in l'.eprops :: r.owner in ids
  {
    hide BufferEdge, ReplaceEdge, Carries;
    EdgeRowidsAreAsMany(es, l.nextEdge);
    if es != [] {
      var n := |es| - 1;
      var front, e := es[..n], es[n];
      assert (forall x | x in front :: x in es) && e in es && es == front + [e];
      EdgeRowidsAreAsMany(front, l.nextEdge);
      var ids, ids1 := EdgeRowids(es, l.nextEdge), EdgeRowids(front, l.nextEdge);
      assert ids == ids1 + [ids[n]];
      assert forall j | 0 <= j < n :: ids1[j] == ids[j];
      RunCarries(edges, l, front);
      RunCursor(edges, l, front);
      var l1 := ReplaceEdges(edges, l, front).value.0;
      ReplaceEdgeIs(edges, l1, e);
      EdgePropsAdded(l1, e, ids[n], ids1, front, ReplaceEdges(edges, l, es).value.0);
    }
  }

  lemma BufferedEdgeProps(l: Loader, next: int, id: int, uid: Option<Text>, e: Edge)
    requires BufferEdge(l.(nextEdge := next), id, uid, e).Ok?
    ensures BufferEdge(l.(nextEdge := next), id, uid, e).value.eprops == l.eprops + PropRows(id, e.props, l.nextEProp)
  {
    hide PropRows, NextProp, FtsRows;
  }

  lemma EdgePropsAdded(l1: Loader, e: Edge, id: int, ids: seq<int>, es: seq<Edge>, l2: Loader)
    requires EdgeShows(multiset(l1.eprops), es, ids) && (forall r | r in l1.eprops :: r.owner in ids) && id !in ids
    requires exists next, uid :: BufferEdge(l1.(nextEdge := next), id, uid, e) == Ok(l2)
    ensures EdgeShows(multiset(l2.eprops), es + [e], ids + [id]) && forall r | r in l2.eprops :: r.owner in ids + [id]
  {
    hide BufferEdge, Carries, PropRows, NextProp, FtsRows;
    var next, uid :| BufferEdge(l1.(nextEdge := next), id, uid, e) == Ok(l2);
    BufferedEdgeProps(l1, next, id, uid, e);
    var rows := PropRows(id, e.props, l1.nextEProp);
    PropRowsShape(id, e.props, l1.nextEProp);
    assert multiset(l2.eprops) == multiset(l1.eprops) + multiset(rows);
    PropsAdded(multiset(l1.eprops), id, e.props, l1.nextEProp);
    forall j | 0 <= j < |es| ensures Carries(multiset(l2.eprops), ids[j], es[j].props) {
      PropsKept(multiset(l1.eprops), multiset(rows), ids[j], es[j].props);
    }
  }

  // ---------- edges: after one import ----------

  /** An import's edge tables: the matched rows gone, one new row for each edge of the batch under its rowid and uid
      and with its properties, everything else as it was. (`Connections` says what the rows connect.) */
  ghost predicate EdgesDescribed(db: Tables, d: Tables, es: seq<Edge>, rows: seq<EdgeRow>, ids: seq<int>) {
    && UniqueEdges(d.edges) && |ids| == |es|
    && (forall r :: r in d.edges <==> r in rows || (r in db.edges && !NamedByBatch(db.edges, es, r.id)))
    && (forall r | r in rows :: FromBatch(es, ids, r.id, r.uid) && (r !in db.edges || NamedByBatch(db.edges, es, r.id)))
    && (forall j | 0 <= j < |es| :: exists r :: r in rows && r.id == ids[j] && r.uid == EdgeUid(es[j]))
    && EdgeShows(d.eprops, es, ids)
    && (forall p: PropRow | p.owner !in ids :: p in d.eprops <==>
       p in db.eprops && !NamedByBatch(db.edges, es, p.owner))
  }

  ghost predicate NamedByBatch(edges: multiset<EdgeRow>, es: seq<Edge>, id: int) {
    exists j :: 0 <= j < |es| && es[j].id.Some? && LookupEdge(edges, es[j].id.value) == Some(id)
  }

  /** The edge tables after the flush, in terms of the pass over the batch's edges. */
  lemma LandedEdgeTables(db: Tables, l: Loader)
    requires l.opts.onCollision.Replace? && LandBatch(db, l).Ok?
    ensures var l1 := ReplaceVertices(db.nodes, l, Deduped(l.rawVertices, VertexKey)).0;
      var d := LandBatch(db, l).value.0; var run := ReplaceEdges(db.edges, l1, Deduped(l.rawEdges, EdgeKey));
      && run.Ok? && ResolvePending(d.nodes, run.value.0.vertexIds, run.value.0.pending).Ok?
      && d.edges == Keep(db.edges, (r: EdgeRow) => r.id !in run.value.1) + multiset(NewEdges(d.nodes, run.value.0))
      && d.eprops == Keep(db.eprops, (p: PropRow) => p.owner !in run.value.1) + multiset(run.value.0.eprops)
      && UniqueEdges(d.edges)
  {
    hide ReplaceVertices, ReplaceEdges, Deduped, ResolvePending;
  }

  lemma KeyedEdgesFill(es: seq<Edge>)
    requires KeyedEdges(es)
    ensures KeyedEdges(Deduped(es, EdgeKey)) && DistinctEdgeKeys(Deduped(es, EdgeKey))
  {
    var b, kept := Fill(es, EdgeKey), Deduped(es, EdgeKey);
    FillIsFilled(es, EdgeKey);
    DedupedFrom(es, EdgeKey);
    assert forall i | 0 <= i < |es| :: EdgeKey(es[i]).Some? by {
      forall i | 0 <= i < |es| ensures EdgeKey(es[i]).Some? { assert es[i] in es; }
    }
    KeyedHaveNoAnonymous(es, EdgeKey);
    assert kept == Values(b.keys, b.last);
    forall i | 0 <= i < |kept| ensures kept[i].id.Some? && Landed(kept[i].id.value) == b.keys[i] {
      LastWriteWins(es, EdgeKey, b.keys[i]);
      assert kept[i] in kept;
    }
  }

  ghost predicate DistinctEdgeKeys(es: seq<Edge>) {
    forall i, j | 0 <= i < j < |es| && es[i].id.Some? && es[j].id.Some? ::
      Landed(es[i].id.value) != Landed(es[j].id.value)
  }

  /** Each edge of the batch has its row among those that land, and each of those its edge. */
  lemma NewEdgesCover(nodes: multiset<NodeRow>, l: Loader, es: seq<Edge>, ids: seq<int>)
    requires Covers(l, es, ids) && ResolvePending(nodes, l.vertexIds, l.pending).Ok?
    ensures forall r | r in NewEdges(nodes, l) :: FromBatch(es, ids, r.id, r.uid)
    ensures forall j | 0 <= j < |es| :: exists r :: r in NewEdges(nodes, l) && r.id == ids[j] && r.uid == EdgeUid(es[j])
  {
    var rows := ResolvePending(nodes, l.vertexIds, l.pending).value.0;
    var all := NewEdges(nodes, l);
    ResolvedEntries(nodes, l.vertexIds, l.pending);
    forall r | r in all ensures FromBatch(es, ids, r.id, r.uid) {
      if r !in l.edgeRows {
        var i :| 0 <= i < |rows| && rows[i] == r;
        assert l.pending[i] in l.pending;
      }
    }
    forall j | 0 <= j < |es| ensures exists r :: r in all && r.id == ids[j] && r.uid == EdgeUid(es[j]) {
      assert HasEntry(l, ids[j], EdgeUid(es[j]));
      if r :| r in l.edgeRows && r.id == ids[j] && r.uid == EdgeUid(es[j]) {
        assert r in all;
      } else {
        var p :| p in l.pending && p.id == ids[j] && p.uid == EdgeUid(es[j]);
        var i :| 0 <= i < |l.pending| && l.pending[i] == p;
        assert rows[i] in all;
      }
    }
  }

  lemma {:induction false} ResolvedEntries(nodes: multiset<NodeRow>, ids: map<Text, int>, pending: seq<Pending>)
    requires ResolvePending(nodes, ids, pending).Ok?
    ensures var rows := ResolvePending(nodes, ids, pending).value.0;
      |rows| == |pending| && forall i | 0 <= i < |rows| ::
        rows[i].id == pending[i].id && rows[i].uid == pending[i].uid && rows[i].name == pending[i].edge.name
  {
    if pending != [] { ResolvedEntries(nodes, ids, pending[..|pending| - 1]); }
  }

  /** The edges without an id come last. */
  ghost predicate KeylessLast(es: seq<Edge>) {
    forall i, j | 0 <= i < j < |es| && es[i].id.None? :: es[j].id.None?
  }

  /** A deduplicated batch carries each key once, and its keyless edges last. */
  lemma DedupedEdges(es: seq<Edge>)
    ensures DistinctEdgeKeys(Deduped(es, EdgeKey)) && KeylessLast(Deduped(es, EdgeKey))
  {
    var b, kept := Fill(es, EdgeKey), Deduped(es, EdgeKey);
    FillIsFilled(es, EdgeKey);
    AnonymousIsKeyless(es, EdgeKey);
    KeylessEdgesHaveNoId(es);
    forall i | 0 <= i < |kept|
      ensures if i < |b.keys| then kept[i].id.Some? && Landed(kept[i].id.value) == b.keys[i] else kept[i].id.None? {
      if i < |b.keys| {
        LastWriteWins(es, EdgeKey, b.keys[i]);
      } else {
        assert kept[i] == b.anonymous[i - |b.keys|];
      }
    }
  }

  lemma {:induction false} KeylessEdgesHaveNoId(es: seq<Edge>)
    ensures forall e | e in Keyless(es, EdgeKey) :: e.id.None?
  {
    if es != [] { KeylessEdgesHaveNoId(es[..|es| - 1]); }
  }

  /** The cursor passes every rowid the pass gives out, and starts past every stored one. */
  lemma {:induction false} CursorPassesRowids(es: seq<Edge>, next: int)
    ensures |EdgeRowids(es, next)| == |es| && next <= EdgeCursorAfter(es, next)
    ensures forall j | 0 <= j < |es| :: EdgeRowids(es, next)[j] < EdgeCursorAfter(es, next)
  {
    if es != [] { CursorPassesRowids(es[..|es| - 1], next); }
  }

  /** An edge without an id takes a rowid past the start and past every edge before it. */
  lemma {:induction false} KeylessRowidIsNew(es: seq<Edge>, next: int, j: nat)
    requires j < |es| && es[j].id.None?
    ensures |EdgeRowids(es, next)| == |es| && next <= EdgeRowids(es, next)[j]
    ensures forall i | 0 <= i < j :: EdgeRowids(es, next)[i] < EdgeRowids(es, next)[j]
  {
    var n := |es| - 1;
    var front := es[..n];
    EdgeRowidsAreAsMany(es, next);
    EdgeRowidsAreAsMany(front, next);
    var ids, ids1 := EdgeRowids(es, next), EdgeRowids(front, next);
    assert forall i | 0 <= i < n :: ids[i] == ids1[i];
    if j < n {
      KeylessRowidIsNew(front, next, j);
    } else {
      CursorPassesRowids(front, next);
    }
  }

  /** Edges that land together under unique keys got different rowids. */
  lemma LandedRowidsDiffer(t: multiset<EdgeRow>, rows: seq<EdgeRow>, es: seq<Edge>, ids: seq<int>, next: int)
    requires UniqueEdges(t) && (forall r | r in rows :: r in t) && DistinctEdgeKeys(es) && KeylessLast(es)
    requires ids == EdgeRowids(es, next) && |ids| == |es|
    requires forall j | 0 <= j < |es| :: exists r :: r in rows && r.id == ids[j] && r.uid == EdgeUid(es[j])
    requires forall j | 0 <= j < |es| :: es[j].id.Some? && es[j].id.value.Num? ==> ids[j] == es[j].id.value.n
    ensures Injective(ids)
  {
    forall i, j | 0 <= i < j < |ids| ensures ids[i] != ids[j] {
      if es[j].id.None? {
        KeylessRowidIsNew(es, next, j);
      } else {
        hide EdgeRowids;
        var r :| r in rows && r.id == ids[i] && r.uid == EdgeUid(es[i]);
        var r' :| r' in rows && r'.id == ids[j] && r'.uid == EdgeUid(es[j]);
        assert r in t && r' in t;
        assert Landed(es[i].id.value) != Landed(es[j].id.value);
      }
    }
  }

  lemma {:induction false} NumericRowids(es: seq<Edge>, next: int, j: nat)
    requires j < |es|
    ensures |EdgeRowids(es, next)| == |es|
    ensures es[j].id.Some? && es[j].id.value.Num? ==> EdgeRowids(es, next)[j] == es[j].id.value.n
  {
    EdgeRowidsAreAsMany(es, next);
    EdgeRowidsAreAsMany(es[..|es| - 1], next);
    if j < |es| - 1 { NumericRowids(es[..|es| - 1], next, j); }
  }

  /** No stored property that stays belongs to a rowid a new edge takes. */
  lemma NewOwnersAreFree(db: Tables, gone: set<int>, rows: seq<EdgeRow>, id: int)
    requires References(db) && UniqueEdges(Keep(db.edges, (r: EdgeRow) => r.id !in gone) + multiset(rows))
    requires exists r :: r in rows && r.id == id
    ensures forall p | p in Keep(db.eprops, (p: PropRow) => p.owner !in gone) :: p.owner != id
  {
    var kept := Keep(db.edges, (r: EdgeRow) => r.id !in gone);
    var r :| r in rows && r.id == id;
    RowsAreDistinct(kept, rows);
    forall p | p in Keep(db.eprops, (p: PropRow) => p.owner !in gone) ensures p.owner != id {
      var e :| e in db.edges && e.id == p.owner;
      assert e in kept && e in kept + multiset(rows) && r in kept + multiset(rows);
    }
  }

  /** The loader an import's edge pass starts from. */
  ghost function Placed(db: Tables, vs: seq<Vertex>, es: seq<Edge>): Loader {
    ReplaceVertices(db.nodes, Document(db, vs, es), Deduped(vs, VertexKey)).0
  }

  ghost function EdgePass(db: Tables, vs: seq<Vertex>, es: seq<Edge>): Result<(Loader, set<int>)> {
    ReplaceEdges(db.edges, Placed(db, vs, es), Deduped(es, EdgeKey))
  }

  lemma PlacedHasNoEdges(db: Tables, vs: seq<Vertex>, es: seq<Edge>)
    ensures var l := Placed(db, vs, es); l.edgeRows == [] && l.pending == [] && l.eprops == []
  {
    VerticesLeaveEdgeBuffers(db.nodes, Document(db, vs, es), Deduped(vs, VertexKey));
  }

  lemma ImportedEdgeTables(db: Tables, vs: seq<Vertex>, es: seq<Edge>)
    requires Import(db, vs, es).Ok?
    ensures var d := Import(db, vs, es).value; var run := EdgePass(db, vs, es);
      && run.Ok? && ResolvePending(d.nodes, run.value.0.vertexIds, run.value.0.pending).Ok?
      && d.edges == Keep(db.edges, (r: EdgeRow) => r.id !in run.value.1) + multiset(NewEdges(d.nodes, run.value.0))
      && d.eprops == Keep(db.eprops, (p: PropRow) => p.owner !in run.value.1) + multiset(run.value.0.eprops)
      && UniqueEdges(d.edges)
  {
    hide LandBatch, ReplaceVertices, ReplaceEdges, Deduped, ResolvePending, NewEdges;
    LandedEdgeTables(db, Document(db, vs, es));
  }

  lemma ShownAfterLanding(kept: multiset<PropRow>, buffered: seq<PropRow>, es: seq<Edge>, ids: seq<int>)
    requires EdgeShows(multiset(buffered), es, ids)
    requires forall p | p in kept :: p.owner !in ids
    ensures EdgeShows(kept + multiset(buffered), es, ids)
  {
    hide Carries;
    forall j | 0 <= j < |es| ensures Carries(kept + multiset(buffered), ids[j], es[j].props) {
      PropsKept(multiset(buffered), kept, ids[j], es[j].props);
    }
  }

  /** Assembling the description of the edge tables. */
  lemma DescribeEdges(db: Tables, d: Tables, es: seq<Edge>, rows: seq<EdgeRow>, ids: seq<int>, gone: set<int>,
      buffered: seq<PropRow>)
    requires UniqueEdges(d.edges) && References(db) && |ids| == |es|
    requires d.edges == Keep(db.edges, (r: EdgeRow) => r.id !in gone) + multiset(rows)
    requires d.eprops == Keep(db.eprops, (p: PropRow) => p.owner !in gone) + multiset(buffered)
    requires forall id :: id in gone <==> NamedByBatch(db.edges, es, id)
    requires forall r | r in rows :: FromBatch(es, ids, r.id, r.uid)
    requires forall j | 0 <= j < |es| :: exists r :: r in rows && r.id == ids[j] && r.uid == EdgeUid(es[j])
    requires EdgeShows(multiset(buffered), es, ids) && forall p | p in buffered :: p.owner in ids
    ensures EdgesDescribed(db, d, es, rows, ids)
  {
    hide EdgeShows, NamedByBatch, FromBatch, References, UniqueEdges;
    var kept, kept' := Keep(db.eprops, (p: PropRow) => p.owner !in gone), Keep(db.edges, (r: EdgeRow) => r.id !in gone);
    forall p | p in kept ensures p.owner !in ids {
      forall j | 0 <= j < |ids| ensures p.owner != ids[j] { NewOwnersAreFree(db, gone, rows, ids[j]); }
    }
    ShownAfterLanding(kept, buffered, es, ids);
    NewRowsReplace(d.edges, kept', rows);
    assert forall r :: r in kept' <==> r in db.edges && r.id !in gone;
    assert forall p :: p in kept <==> p in db.eprops && p.owner !in gone;
    hide Keep;
  }

  lemma NewRowsReplace(all: multiset<EdgeRow>, kept: multiset<EdgeRow>, rows: seq<EdgeRow>)
    requires all == kept + multiset(rows) && UniqueEdges(all)
    ensures forall r | r in rows :: r !in kept
  {
    RowsAreDistinct(kept, rows);
  }

  lemma RunMatchesBatch(edges: multiset<EdgeRow>, l: Loader, es: seq<Edge>)
    requires ReplaceEdges(edges, l, es).Ok?
    ensures forall id :: id in ReplaceEdges(edges, l, es).value.1 <==> NamedByBatch(edges, es, id)
  {
    forall id ensures id in ReplaceEdges(edges, l, es).value.1 <==> NamedByBatch(edges, es, id) {
      RunMatches(edges, l, es, id);
    }
  }

  ghost function RowidsOf(db: Tables, vs: seq<Vertex>, es: seq<Edge>): seq<int> {
    EdgeRowids(Deduped(es, EdgeKey), Placed(db, vs, es).nextEdge)
  }

  lemma ImportDescribesEdges(db: Tables, vs: seq<Vertex>, es: seq<Edge>)
    requires References(db) && Import(db, vs, es).Ok? && EdgePass(db, vs, es).Ok?
    ensures EdgesDescribed(db, Import(db, vs, es).value, Deduped(es, EdgeKey),
      NewEdges(Import(db, vs, es).value.nodes, EdgePass(db, vs, es).value.0), RowidsOf(db, vs, es))
    ensures Injective(RowidsOf(db, vs, es))
  {
    hide Import, ReplaceEdges, Placed, Deduped, ResolvePending, NewEdges, EdgeRowids, Covers, Injective,
         EdgesDescribed, EdgeShows, NamedByBatch, FromBatch, References, UniqueEdges, Keep, DistinctEdgeKeys,
         KeylessLast;
    var kept, l1 := Deduped(es, EdgeKey), Placed(db, vs, es);
    var d, ids := Import(db, vs, es).value, RowidsOf(db, vs, es);
    DedupedEdges(es);
    ImportedEdgeTables(db, vs, es);
    PlacedHasNoEdges(db, vs, es);
    var (l2, gone) := EdgePass(db, vs, es).value;
    EdgeRowidsAreAsMany(kept, l1.nextEdge);
    RunCovers(db.edges, l1, kept);
    RunMatchesBatch(db.edges, l1, kept);
    NewEdgesCover(d.nodes, l2, kept, ids);
    var rows := NewEdges(d.nodes, l2);
    forall j | 0 <= j < |kept| ensures kept[j].id.Some? && kept[j].id.value.Num? ==> ids[j] == kept[j].id.value.n {
      NumericRowids(kept, l1.nextEdge, j);
    }
    LandedRowidsDiffer(d.edges, rows, kept, ids, l1.nextEdge);
    RunCarries(db.edges, l1, kept);
    DescribeEdges(db, d, kept, rows, ids, gone, l2.eprops);
  }

  // ---------- edges: the second import ----------

  /** The edge a row stands for, as a reader sees it: its id (or uid), label and endpoints; and it carries
      the same properties, up to their row ids. */
  ghost predicate SameEdge(d1: Tables, r1: EdgeRow, d2: Tables, r2: EdgeRow) {
    Twin(r1, r2) && SamePropsOf(d1.eprops, r1.id, d2.eprops, r2.id)
  }

  ghost predicate SamePropsOf(s: multiset<PropRow>, o: int, t: multiset<PropRow>, o': int) {
    exists a, b :: Lists(s, o, a) && Lists(t, o', b) && SameContents(a, b)
  }

  /** The same edges in both graphs, one for one. */
  ghost predicate SameEdges(d1: Tables, d2: Tables) {
    && (forall r1 | r1 in d1.edges :: exists r2 :: r2 in d2.edges && SameEdge(d1, r1, d2, r2))
    && (forall r2 | r2 in d2.edges :: exists r1 :: r1 in d1.edges && SameEdge(d1, r1, d2, r2))
  }

  lemma CarriedAlikeAcross(s: multiset<PropRow>, o: int, t: multiset<PropRow>, o': int, props: seq<Property>)
    requires Carries(s, o, props) && Carries(t, o', props) && NoRepeats(s) && NoRepeats(t)
    ensures SamePropsOf(s, o, t, o')
  {
    var a :| CarriesRows(s, o, props, a);
    var b :| CarriesRows(t, o', props, b);
    CarriedIsListed(s, o, props, a);
    CarriedIsListed(t, o', props, b);
    assert SameContents(a, b);
  }

  lemma EntryNames(edges: multiset<EdgeRow>, r: EdgeRow, es: seq<Edge>, ids: seq<int>, j: int)
    requires UniqueEdges(edges) && r in edges && EntryOf(es, ids, j, r.id, r.uid) && es[j].id.Some?
    requires es[j].id.value.Num? ==> ids[j] == es[j].id.value.n
    ensures LookupEdge(edges, es[j].id.value) == Some(r.id)
  {
    assert NamesEdge(r, es[j].id.value);
    var r' :| r' in edges && NamesEdge(r', es[j].id.value) && r'.id == LookupEdge(edges, es[j].id.value).value;
    if r != r' { assert r.id != r'.id && (r.uid.None? || r.uid != r'.uid); }
  }

  ghost predicate NumericIds(es: seq<Edge>, ids: seq<int>) {
    |ids| == |es| && forall j | 0 <= j < |es| && es[j].id.Some? && es[j].id.value.Num? :: ids[j] == es[j].id.value.n
  }

  /** After an import, the edges the batch names are exactly the rows it landed. */
  lemma ImportedAreNamed(db: Tables, d: Tables, es: seq<Edge>, rows: seq<EdgeRow>, ids: seq<int>, id: int)
    requires EdgesDescribed(db, d, es, rows, ids) && KeyedEdges(es) && NumericIds(es, ids)
    ensures NamedByBatch(d.edges, es, id) <==> exists r :: r in rows && r.id == id
  {
    hide EdgeShows;
    if r :| r in rows && r.id == id {
      var j :| EntryOf(es, ids, j, r.id, r.uid);
      assert es[j] in es && r in d.edges;
      EntryNames(d.edges, r, es, ids, j);
    }
    if j :| 0 <= j < |es| && es[j].id.Some? && LookupEdge(d.edges, es[j].id.value) == Some(id) {
      var r :| r in rows && r.id == ids[j] && r.uid == EdgeUid(es[j]);
      assert r in d.edges && EntryOf(es, ids, j, r.id, r.uid);
      EntryNames(d.edges, r, es, ids, j);
    }
  }

  /** The two rows an edge got in two imports of one document belong to the same definition. */
  lemma TwinsShareDefinition(es: seq<Edge>, ids: seq<int>, ids': seq<int>, r: EdgeRow, r': EdgeRow, j: int, j': int)
    requires KeyedEdges(es) && DistinctEdgeKeys(es) && NumericIds(es, ids) && NumericIds(es, ids') && Twin(r, r')
    requires EntryOf(es, ids, j, r.id, r.uid) && EntryOf(es, ids', j', r'.id, r'.uid)
    ensures j == j'
  {
    assert es[j] in es && es[j'] in es;
    assert Landed(es[j].id.value) == Landed(es[j'].id.value);
  }

  lemma LandedRow(db: Tables, d: Tables, es: seq<Edge>, rows: seq<EdgeRow>, ids: seq<int>, i: nat) returns (j: nat)
    requires EdgesDescribed(db, d, es, rows, ids) && i < |rows|
    ensures rows[i] in d.edges && EntryOf(es, ids, j, rows[i].id, rows[i].uid)
      && Carries(d.eprops, rows[i].id, es[j].props)
  {
    hide Carries, NamedByBatch;
    assert rows[i] in rows;
    j :| EntryOf(es, ids, j, rows[i].id, rows[i].uid);
  }

  lemma LandedTwin(db: Tables, d1: Tables, d2: Tables, es: seq<Edge>, rows1: seq<EdgeRow>, ids1: seq<int>,
      rows2: seq<EdgeRow>, ids2: seq<int>, i: nat)
    requires EdgesDescribed(db, d1, es, rows1, ids1) && EdgesDescribed(d1, d2, es, rows2, ids2) && Twins(rows1, rows2)
      && i < |rows1|
    requires KeyedEdges(es) && DistinctEdgeKeys(es) && NumericIds(es, ids1) && NumericIds(es, ids2)
    requires NoRepeats(d1.eprops) && NoRepeats(d2.eprops)
    ensures SameEdge(d1, rows1[i], d2, rows2[i]) && rows1[i] in d1.edges && rows2[i] in d2.edges
  {
    hide Carries, EdgesDescribed, KeyedEdges, DistinctEdgeKeys, NumericIds, SamePropsOf, NoRepeats;
    var j := LandedRow(db, d1, es, rows1, ids1, i);
    var j' := LandedRow(d1, d2, es, rows2, ids2, i);
    TwinsShareDefinition(es, ids1, ids2, rows1[i], rows2[i], j, j');
    CarriedAlikeAcross(d1.eprops, rows1[i].id, d2.eprops, rows2[i].id, es[j].props);
  }

  /** An edge the document does not name is the very same row, with the very same properties. */
  lemma SparedEdge(db: Tables, d1: Tables, d2: Tables, es: seq<Edge>, rows1: seq<EdgeRow>, ids1: seq<int>,
      rows2: seq<EdgeRow>, ids2: seq<int>, r: EdgeRow)
    requires EdgesDescribed(db, d1, es, rows1, ids1) && EdgesDescribed(d1, d2, es, rows2, ids2)
    requires KeyedEdges(es) && NumericIds(es, ids1) && r in d1.edges && r !in rows1
    ensures r in d2.edges && r !in rows2 && SameEdge(d1, r, d2, r)
  {
    hide EdgeShows, FromBatch, NamedByBatch;
    ImportedAreNamed(db, d1, es, rows1, ids1, r.id);
    assert forall x | x in rows1 :: x in d1.edges;
    assert !NamedByBatch(d1.edges, es, r.id);
    assert r in d2.edges && r !in rows2;
    forall j | 0 <= j < |ids2| ensures ids2[j] != r.id {
      var x :| x in rows2 && x.id == ids2[j] && x.uid == EdgeUid(es[j]);
      assert x in d2.edges;
    }
    SameRowsAlikeOf(d1.eprops, d2.eprops, r.id);
  }

  lemma SameRowsAlikeOf(s: multiset<PropRow>, t: multiset<PropRow>, owner: int)
    requires forall r: PropRow | r.owner == owner :: r in s <==> r in t
    ensures SamePropsOf(s, owner, t, owner)
  {
    SameRowsAlike(s, t, owner);
  }

  /** An edge of the second import that it did not land was there before, and not landed then either. */
  lemma SparedBefore(db: Tables, d1: Tables, d2: Tables, es: seq<Edge>, rows1: seq<EdgeRow>, ids1: seq<int>,
      rows2: seq<EdgeRow>, ids2: seq<int>, r: EdgeRow)
    requires EdgesDescribed(db, d1, es, rows1, ids1) && EdgesDescribed(d1, d2, es, rows2, ids2)
    requires KeyedEdges(es) && NumericIds(es, ids1) && r in d2.edges && r !in rows2
    ensures r in d1.edges && r !in rows1
  {
    hide EdgeShows, FromBatch, NamedByBatch, KeyedEdges, NumericIds;
    ImportedAreNamed(db, d1, es, rows1, ids1, r.id);
  }

  /** Two imports of one document, as their edge tables are described. */
  ghost predicate TwoImports(db: Tables, d1: Tables, d2: Tables, es: seq<Edge>, rows1: seq<EdgeRow>, ids1: seq<int>,
      rows2: seq<EdgeRow>, ids2: seq<int>) {
    && EdgesDescribed(db, d1, es, rows1, ids1) && EdgesDescribed(d1, d2, es, rows2, ids2) && Twins(rows1, rows2)
    && KeyedEdges(es) && DistinctEdgeKeys(es) && NumericIds(es, ids1) && NumericIds(es, ids2)
    && NoRepeats(d1.eprops) && NoRepeats(d2.eprops)
  }

  lemma SecondOf(db: Tables, d1: Tables, d2: Tables, es: seq<Edge>, rows1: seq<EdgeRow>, ids1: seq<int>,
      rows2: seq<EdgeRow>, ids2: seq<int>, r1: EdgeRow)
    returns (r2: EdgeRow)
    requires TwoImports(db, d1, d2, es, rows1, ids1, rows2, ids2) && r1 in d1.edges
    ensures r2 in d2.edges && SameEdge(d1, r1, d2, r2)
  {
    hide EdgesDescribed, SameEdge, DistinctEdgeKeys, KeyedEdges, NumericIds, NoRepeats, Twin;
    if i :| 0 <= i < |rows1| && rows1[i] == r1 {
      LandedTwin(db, d1, d2, es, rows1, ids1, rows2, ids2, i);
      r2 := rows2[i];
    } else {
      SparedEdge(db, d1, d2, es, rows1, ids1, rows2, ids2, r1);
      r2 := r1;
    }
  }

  lemma FirstOf(db: Tables, d1: Tables, d2: Tables, es: seq<Edge>, rows1: seq<EdgeRow>, ids1: seq<int>,
      rows2: seq<EdgeRow>, ids2: seq<int>, r2: EdgeRow)
    returns (r1: EdgeRow)
    requires TwoImports(db, d1, d2, es, rows1, ids1, rows2, ids2) && r2 in d2.edges
    ensures r1 in d1.edges && SameEdge(d1, r1, d2, r2)
  {
    hide EdgesDescribed, SameEdge, DistinctEdgeKeys, KeyedEdges, NumericIds, NoRepeats, Twin;
    if i :| 0 <= i < |rows2| && rows2[i] == r2 {
      LandedTwin(db, d1, d2, es, rows1, ids1, rows2, ids2, i);
      r1 := rows1[i];
    } else {
      SparedBefore(db, d1, d2, es, rows1, ids1, rows2, ids2, r2);
      SparedEdge(db, d1, d2, es, rows1, ids1, rows2, ids2, r2);
      r1 := r2;
    }
  }

  lemma TwinImportsSameEdges(db: Tables, d1: Tables, d2: Tables, es: seq<Edge>, rows1: seq<EdgeRow>, ids1: seq<int>,
      rows2: seq<EdgeRow>, ids2: seq<int>)
    requires TwoImports(db, d1, d2, es, rows1, ids1, rows2, ids2)
    ensures SameEdges(d1, d2)
  {
    hide TwoImports, SameEdge;
    forall r1 | r1 in d1.edges ensures exists r2 :: r2 in d2.edges && SameEdge(d1, r1, d2, r2) {
      var r2 := SecondOf(db, d1, d2, es, rows1, ids1, rows2, ids2, r1);
    }
    forall r2 | r2 in d2.edges ensures exists r1 :: r1 in d1.edges && SameEdge(d1, r1, d2, r2) {
      var r1 := FirstOf(db, d1, d2, es, rows1, ids1, rows2, ids2, r2);
    }
  }

  // ---------- the two passes run in step ----------

  /** The ids the vertex pass remembers depend only on where its keys land. */
  lemma {:induction false} SameMemo(a: multiset<NodeRow>, l: Loader, b: multiset<NodeRow>, l': Loader, vs: seq<Vertex>)
    requires UniqueNodes(a) && UniqueNodes(b) && Keyed(vs) && l.vertexIds == l'.vertexIds
    requires Targets(a, KeysOf(vs), l.nextNode) == Targets(b, KeysOf(vs), l'.nextNode)
    ensures ReplaceVertices(a, l, vs).0.vertexIds == ReplaceVertices(b, l', vs).0.vertexIds
  {
    hide UniqueNodes, ReplaceVertex, TargetOf;
    if vs != [] {
      var n := |vs| - 1;
      var keys := KeysOf(vs);
      assert KeysOf(vs[..n]) == keys[..n];
      TargetsAreAsMany(a, keys[..n], l.nextNode);
      TargetsAreAsMany(b, keys[..n], l'.nextNode);
      var ts, ts' := Targets(a, keys, l.nextNode), Targets(b, keys, l'.nextNode);
      assert ts[..n] == Targets(a, keys[..n], l.nextNode) && ts'[..n] == Targets(b, keys[..n], l'.nextNode);
      SameMemo(a, l, b, l', vs[..n]);
      ReplaceNodes(a, l, vs[..n]);
      ReplaceNodes(b, l', vs[..n]);
      var l1, l1' := ReplaceVertices(a, l, vs[..n]).0, ReplaceVertices(b, l', vs[..n]).0;
      ReplaceVertexIs(a, l1, vs[n]);
      ReplaceVertexIs(b, l1', vs[n]);
      assert ts[n] == ts'[n];
      Remembers(Advanced(a, l1, keys[n]), ts[n], UidOf(keys[n]), vs[n], Lookup(a, keys[n]).None?);
      Remembers(Advanced(b, l1', keys[n]), ts[n], UidOf(keys[n]), vs[n], Lookup(b, keys[n]).None?);
    }
  }

  lemma Remembers(l: Loader, t: int, uid: Option<Text>, v: Vertex, push: bool)
    requires v.id.Some?
    ensures BufferVertex(l, t, uid, v, push).vertexIds == l.vertexIds[Spelling(v.id.value) := t]
  {
  }

  lemma PlacedAlike(db: Tables, d: Tables, vs: seq<Vertex>, es: seq<Edge>)
    requires Replaceable(db, vs) && UniqueNodes(d.nodes)
    requires Targets(d.nodes, Fill(vs, VertexKey).keys, Start(d)) ==
      Targets(db.nodes, Fill(vs, VertexKey).keys, Start(db))
    ensures TwinLoaders(Placed(db, vs, es), Placed(d, vs, es))
  {
    hide Fill, Targets, ReplaceVertices, Replaceable, UniqueNodes, DistinctTargets, References, PositiveNodes, MaxOr0;
    ReplaceableIs(db, vs);
    KeyedFill(vs);
    PlacedHasNoEdges(db, vs, es);
    PlacedHasNoEdges(d, vs, es);
    SameMemo(db.nodes, Document(db, vs, es), d.nodes, Document(d, vs, es), Deduped(vs, VertexKey));
  }

  lemma NewEdgesAreTwins(nodes: multiset<NodeRow>, l: Loader, l': Loader)
    requires TwinLoaders(l, l') && ResolvePending(nodes, l.vertexIds, l.pending).Ok?
    ensures Twins(NewEdges(nodes, l), NewEdges(nodes, l'))
  {
    TwinResolution(nodes, l.vertexIds, l.pending, l'.pending);
  }

  lemma RowidsAreNumeric(db: Tables, vs: seq<Vertex>, es: seq<Edge>)
    ensures NumericIds(Deduped(es, EdgeKey), RowidsOf(db, vs, es))
  {
    var kept, next := Deduped(es, EdgeKey), Placed(db, vs, es).nextEdge;
    EdgeRowidsAreAsMany(kept, next);
    forall j | 0 <= j < |kept| && kept[j].id.Some? && kept[j].id.value.Num?
      ensures EdgeRowids(kept, next)[j] == kept[j].id.value.n {
      NumericRowids(kept, next, j);
    }
  }

  /** A second import that succeeds leaves the same vertices and edges. */
  lemma SecondImportSame(db: Tables, vs: seq<Vertex>, es: seq<Edge>)
    requires Importable(db, vs, es) && Import(db, vs, es).Ok? && Import(Import(db, vs, es).value, vs, es).Ok?
    ensures var d1 := Import(db, vs, es).value; var d2 := Import(d1, vs, es).value;
      SameVertices(d1, d2) && SameEdges(d1, d2)
  {
    hide Import, Importable, Replaceable, Consistent, SameVertices, SameEdges, Described, EdgesDescribed, Fill, Filled,
         Deduped, Targets, NewEdges, EdgePass, Placed, RowidsOf;
    var d1 := Import(db, vs, es).value;
    var d2 := Import(d1, vs, es).value;
    ImportIsImportable(db, vs, es);
    ImportIsConsistent(d1, vs, es);
    ImportableIs(db, vs, es);
    ImportableIs(d1, vs, es);
    ConsistentIs(d2);
    ReimportSameVertices(d1, vs, es);
    ReimportTwinEdges(db, vs, es);
    ImportDescribesEdges(db, vs, es);
    ImportDescribesEdges(d1, vs, es);
    KeyedEdgesFill(es);
    RowidsAreNumeric(db, vs, es);
    RowidsAreNumeric(d1, vs, es);
    UniqueHasEProps(d1);
    UniqueHasEProps(d2);
    TwinImportsSameEdges(db, d1, d2, Deduped(es, EdgeKey),
      NewEdges(d1.nodes, EdgePass(db, vs, es).value.0), RowidsOf(db, vs, es),
      NewEdges(d2.nodes, EdgePass(d1, vs, es).value.0), RowidsOf(d1, vs, es));
  }

  lemma UniqueHasEProps(d: Tables)
    requires Unique(d)
    ensures NoRepeats(d.eprops)
  {
  }

  lemma ImportableIs(db: Tables, vs: seq<Vertex>, es: seq<Edge>)
    requires Importable(db, vs, es)
    ensures Consistent(db) && Replaceable(db, vs) && KeyedEdges(es) && References(db) && Unique(db)
      && UniqueNodes(db.nodes)
  {
  }

  lemma ReimportSameVertices(d1: Tables, vs: seq<Vertex>, es: seq<Edge>)
    requires Importable(d1, vs, es) && Import(d1, vs, es).Ok?
    requires Filled(Fill(vs, VertexKey)) && Described(d1, d1, Fill(vs, VertexKey))
    ensures SameVertices(d1, Import(d1, vs, es).value)
  {
    hide Importable, Replaceable, Consistent, SameVertices, Described, Fill, LandBatch, Unique;
    ImportableIs(d1, vs, es);
    ImportIsConsistent(d1, vs, es);
    ConsistentIs(Import(d1, vs, es).value);
    DocumentIsRaw(d1, vs, es);
    SetBasedIsDescribed(d1, Document(d1, vs, es));
    DescriptionDetermines(d1, d1, Import(d1, vs, es).value, Fill(vs, VertexKey));
  }

  lemma ReimportTwinEdges(db: Tables, vs: seq<Vertex>, es: seq<Edge>)
    requires Importable(db, vs, es) && Import(db, vs, es).Ok? && Import(Import(db, vs, es).value, vs, es).Ok?
    requires SameVertices(Import(db, vs, es).value, Import(Import(db, vs, es).value, vs, es).value)
    ensures var d1 := Import(db, vs, es).value; var d2 := Import(d1, vs, es).value;
      && EdgePass(db, vs, es).Ok? && EdgePass(d1, vs, es).Ok?
      && Twins(NewEdges(d1.nodes, EdgePass(db, vs, es).value.0), NewEdges(d2.nodes, EdgePass(d1, vs, es).value.0))
  {
    hide Import, Importable, Replaceable, Consistent, Described, Fill, Deduped, Targets, NewEdges, Placed, TwinLoaders,
         Twins, ReplaceEdges, SameProps, KeyedEdges;
    var d1 := Import(db, vs, es).value;
    var d2 := Import(d1, vs, es).value;
    ImportableIs(db, vs, es);
    ImportIsConsistent(db, vs, es);
    ConsistentIs(d1);
    ImportedTargetsAgain(db, vs, es);
    PlacedAlike(db, d1, vs, es);
    ImportedEdgeTables(db, vs, es);
    ImportedEdgeTables(d1, vs, es);
    KeyedEdgesFill(es);
    TwinRuns(db.edges, d1.edges, Placed(db, vs, es), Placed(d1, vs, es), Deduped(es, EdgeKey));
    assert d1.nodes == d2.nodes;
    NewEdgesAreTwins(d1.nodes, EdgePass(db, vs, es).value.0, EdgePass(d1, vs, es).value.0);
  }

  lemma ImportedTargetsAgain(db: Tables, vs: seq<Vertex>, es: seq<Edge>)
    requires Importable(db, vs, es) && Import(db, vs, es).Ok?
    ensures var d := Import(db, vs, es).value; var keys := Fill(vs, VertexKey).keys;
      Targets(d.nodes, keys, Start(d)) == Targets(db.nodes, keys, Start(db))
  {
    hide Importable, Replaceable, Consistent, Described, Fill, Filled, LandBatch, Targets, Unique, PositiveNodes;
    var d, b := Import(db, vs, es).value, Fill(vs, VertexKey);
    ImportableIs(db, vs, es);
    ImportIsConsistent(db, vs, es);
    ConsistentIs(d);
    DocumentIsRaw(db, vs, es);
    SetBasedIsDescribed(db, Document(db, vs, es));
    ReplaceableIs(db, vs);
    KeyedFill(vs);
    ImportedNodes(db, d, b);
    ImportedTargets(db, d, b.keys);
  }
}
