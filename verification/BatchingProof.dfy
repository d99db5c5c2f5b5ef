/** The simulation behind `Batching`: while the reference lands element after element, the loader's buffers
    hold exactly what the reference has added, each deferred edge already standing for its final row. */
module BatchingProof {
  import opened Utf16
  import opened Graph
  import opened Dedupe
  import opened Loader
  import opened Consistency
  import opened Cursors
  import opened Batching

  const PRESERVE := Options(Preserve, FailClosed)

  // ---------- endpoints ----------

  /** A key once found in a table with unique ids and uids stays found, as the same vertex. */
  lemma LookupStable(a: multiset<NodeRow>, b: multiset<NodeRow>, k: Key)
    requires UniqueNodes(b) && a <= b && Lookup(a, k).Some?
    ensures Lookup(b, k) == Lookup(a, k)
  {
    var r :| r in a && Names(r, k) && r.id == Lookup(a, k).value;
    assert r in b;
    OneVertexNamed(b, k, r);
  }

  /** Every remembered spelling of a named id stands for a vertex buffered under that id. */
  ghost predicate Backed(l: Loader, ops: seq<Op>) {
    forall k | Named(k, ops) && Spelling(k) in l.vertexIds :: BackedBy(l.nodeRows, k, l.vertexIds[Spelling(k)])
  }

  ghost predicate BackedBy(rows: seq<NodeRow>, k: Key, id: int) {
    exists r :: r in rows && Names(r, k) && r.id == id
  }

  lemma MoreBacking(rows: seq<NodeRow>, more: seq<NodeRow>, k: Key, id: int)
    requires BackedBy(rows, k, id)
    ensures BackedBy(rows + more, k, id)
  {
    var r :| r in rows && Names(r, k) && r.id == id;
    assert r in rows + more;
  }

  lemma AddStaysBacked(l: Loader, op: Op, ops: seq<Op>)
    requires l.opts == PRESERVE && Backed(l, ops) && DistinctSpellings(ops) && op in ops && Add(l, op).Ok?
    ensures Backed(Add(l, op).value, ops)
  {
    var l' := Add(l, op).value;
    if op.AddV? {
      var v := op.v;
      var (rowid, uid) := IdOf(Preserve, v.id, l.nextNode);
      var row := NodeRow(rowid, uid);
      assert l'.nodeRows == l.nodeRows + [row];
      assert row in l'.nodeRows;
      forall k | Named(k, ops) && Spelling(k) in l'.vertexIds
        ensures BackedBy(l'.nodeRows, k, l'.vertexIds[Spelling(k)]) {
        if v.id.Some? && Spelling(k) == Spelling(v.id.value) {
          assert NamedIn(v.id.value, op);
          assert Names(row, k);
        } else {
          MoreBacking(l.nodeRows, [row], k, l.vertexIds[Spelling(k)]);
        }
      }
    }
  }

  /** What the memo says of a named id is what the store says, once the buffered vertices are in it. */
  ghost predicate Agrees(all: multiset<NodeRow>, ids: map<Text, int>, ops: seq<Op>) {
    forall k | Named(k, ops) && Spelling(k) in ids :: Lookup(all, k) == Some(ids[Spelling(k)])
  }

  lemma BackedAgrees(l: Loader, all: multiset<NodeRow>, ops: seq<Op>)
    requires UniqueNodes(all) && multiset(l.nodeRows) <= all && Backed(l, ops)
    ensures Agrees(all, l.vertexIds, ops)
  {
    forall k | Named(k, ops) && Spelling(k) in l.vertexIds ensures Lookup(all, k) == Some(l.vertexIds[Spelling(k)]) {
      var r :| r in l.nodeRows && Names(r, k) && r.id == l.vertexIds[Spelling(k)];
      assert r in multiset(l.nodeRows) && r in all;
      OneVertexNamed(all, k, r);
    }
  }

  ghost function RowOf(all: multiset<NodeRow>, p: Pending): EdgeRow {
    EdgeRow(p.id, p.uid, EndpointId(all, p.edge.src), p.edge.name, EndpointId(all, p.edge.tgt))
  }

  /** The rows the deferred edges stand for, by store lookup alone. */
  ghost function PendRows(all: multiset<NodeRow>, ps: seq<Pending>): seq<EdgeRow> {
    seq(|ps|, i requires 0 <= i < |ps| => RowOf(all, ps[i]))
  }

  ghost predicate AllFound(all: multiset<NodeRow>, ps: seq<Pending>) {
    forall p | p in ps :: Found(all, p.edge)
  }

  ghost predicate NamedEnds(ps: seq<Pending>, ops: seq<Op>) {
    forall p | p in ps :: Named(p.edge.src, ops) && Named(p.edge.tgt, ops)
  }

  /** At flush, the memoized resolution and plain lookups agree, in success and in value. */
  lemma {:induction false} ResolveIsLookup(all: multiset<NodeRow>, ids: map<Text, int>, ps: seq<Pending>, ops: seq<Op>)
    requires Agrees(all, ids, ops) && NamedEnds(ps, ops) && DistinctSpellings(ops)
    ensures ResolvePending(all, ids, ps).Ok? <==> AllFound(all, ps)
    ensures ResolvePending(all, ids, ps).Ok? ==>
      ResolvePending(all, ids, ps).value.0 == PendRows(all, ps)
        && Agrees(all, ResolvePending(all, ids, ps).value.1, ops)
  {
    if ps != [] {
      var front, p := ps[..|ps| - 1], ps[|ps| - 1];
      assert ps == front + [p];
      ResolveIsLookup(all, ids, front, ops);
      assert PendRows(all, ps) == PendRows(all, front) + [RowOf(all, p)];
      assert AllFound(all, ps) <==> AllFound(all, front) && Found(all, p.edge);
      if ResolvePending(all, ids, front).Ok? {
        ResolveOneIsLookup(all, ResolvePending(all, ids, front).value.1, p, ops);
      }
    }
  }

  lemma ResolveOneIsLookup(all: multiset<NodeRow>, ids: map<Text, int>, p: Pending, ops: seq<Op>)
    requires Agrees(all, ids, ops) && Named(p.edge.src, ops) && Named(p.edge.tgt, ops) && DistinctSpellings(ops)
    ensures var src := ResolveEndpoint(all, ids, p.edge.src);
      && (src.Ok? <==> Lookup(all, p.edge.src).Some?)
      && (src.Ok? ==>
            var ids2 := ids[Spelling(p.edge.src) := src.value];
            var tgt := ResolveEndpoint(all, ids2, p.edge.tgt);
            && src.value == EndpointId(all, p.edge.src)
            && (tgt.Ok? <==> Lookup(all, p.edge.tgt).Some?)
            && (tgt.Ok? ==>
               tgt.value == EndpointId(all, p.edge.tgt) && Agrees(all, ids2[Spelling(p.edge.tgt) := tgt.value], ops)))
  {
    var src := ResolveEndpoint(all, ids, p.edge.src);
    if src.Ok? {
      MemoAgrees(all, ids, p.edge.src, ops);
      var ids2 := ids[Spelling(p.edge.src) := src.value];
      if ResolveEndpoint(all, ids2, p.edge.tgt).Ok? { MemoAgrees(all, ids2, p.edge.tgt, ops); }
    }
  }

  lemma MemoAgrees(all: multiset<NodeRow>, ids: map<Text, int>, k: Key, ops: seq<Op>)
    requires Agrees(all, ids, ops) && Named(k, ops) && DistinctSpellings(ops) && ResolveEndpoint(all, ids, k).Ok?
    ensures Lookup(all, k) == Some(ResolveEndpoint(all, ids, k).value)
    ensures Agrees(all, ids[Spelling(k) := ResolveEndpoint(all, ids, k).value], ops)
  {
  }

  // ---------- the simulation ----------

  /** The buffers over `db` are what the reference `d` has that `db` has not, cursors included. */
  ghost predicate Sim(db: Tables, d: Tables, l: Loader) {
    && l.opts == PRESERVE
    && Unique(d) && PositiveIds(d) && PositiveProps(d) && d.cards == db.cards && d.journal == db.journal
    && SimRows(db, d, l) && SimCursors(d, l) && SimEdges(db, d, l)
  }

  ghost predicate SimRows(db: Tables, d: Tables, l: Loader) {
    && d.nodes == db.nodes + multiset(l.nodeRows)
    && d.labels == db.labels + multiset(l.labelRows)
    && d.vprops == db.vprops + multiset(l.vprops)
    && d.eprops == db.eprops + multiset(l.eprops)
    && d.fts == db.fts + multiset(l.fts)
  }

  ghost predicate SimCursors(d: Tables, l: Loader) {
    && l.nextNode == MaxOr0(NodeIds(d.nodes)) + 1
    && l.nextEdge == MaxOr0(EdgeIds(d.edges)) + 1
    && l.nextVProp == MaxOr0(PropIds(d.vprops)) + 1
    && l.nextEProp == MaxOr0(PropIds(d.eprops)) + 1
  }

  ghost predicate SimEdges(db: Tables, d: Tables, l: Loader) {
    && AllFound(d.nodes, l.pending)
    && d.edges == db.edges + multiset(l.edgeRows) + multiset(PendRows(d.nodes, l.pending))
  }

  lemma SimStart(db: Tables, journal: Option<Text>)
    requires Ready(db, journal)
    ensures Sim(db, db, Fresh(db, PRESERVE, journal))
  {
  }

  lemma PendRowsStable(a: multiset<NodeRow>, b: multiset<NodeRow>, ps: seq<Pending>)
    requires UniqueNodes(b) && a <= b && AllFound(a, ps)
    ensures PendRows(b, ps) == PendRows(a, ps)
    ensures AllFound(b, ps)
  {
    forall p | p in ps ensures Found(b, p.edge) && RowOf(b, p) == RowOf(a, p) {
      LookupStable(a, b, p.edge.src);
      LookupStable(a, b, p.edge.tgt);
    }
  }

  predicate PositiveId(id: Option<Key>) {
    id.Some? && id.value.Num? ==> id.value.n > 0
  }

  lemma SimVertexRows(db: Tables, d: Tables, l: Loader, v: Vertex)
    requires l.opts == PRESERVE && SimRows(db, d, l) && SimCursors(d, l)
    ensures SimRows(db, WithVertex(d, v), AddVertex(l, v))
  {
    hide PropRows, NextProp, FtsRows, LabelRows, MaxOr0, NodeIds, EdgeIds, PropIds, IdOf;
    var (rowid, uid) := IdOf(Preserve, v.id, l.nextNode);
    var row, labels, props := NodeRow(rowid, uid), LabelRows(rowid, v.labels), PropRows(rowid, v.props, l.nextVProp);
    assert multiset(l.nodeRows + [row]) == multiset(l.nodeRows) + multiset{row};
    assert multiset(l.labelRows + labels) == multiset(l.labelRows) + multiset(labels);
    assert multiset(l.vprops + props) == multiset(l.vprops) + multiset(props);
    assert multiset(l.fts + FtsRows(NodeKind, props)) == multiset(l.fts) + multiset(FtsRows(NodeKind, props));
  }

  lemma NodeCursorFollows(d: Tables, l: Loader, v: Vertex)
    requires l.opts == PRESERVE && l.nextNode == MaxOr0(NodeIds(d.nodes)) + 1
    requires PositiveId(v.id) && forall r | r in d.nodes :: r.id > 0
    ensures AddVertex(l, v).nextNode == MaxOr0(NodeIds(WithVertex(d, v).nodes)) + 1
    ensures forall r | r in WithVertex(d, v).nodes :: r.id > 0
  {
    var (rowid, uid) := IdOf(Preserve, v.id, l.nextNode);
    NodeCursor(d.nodes, NodeRow(rowid, uid));
  }

  lemma AddedVertexProps(d: Tables, l: Loader, v: Vertex)
    requires l.opts == PRESERVE && l.nextNode == MaxOr0(NodeIds(d.nodes)) + 1
      && l.nextVProp == MaxOr0(PropIds(d.vprops)) + 1
    ensures AddVertex(l, v).nextVProp == NextProp(v.props, l.nextVProp)
    ensures WithVertex(d, v).vprops == d.vprops + multiset(PropRows(IdOf(Preserve, v.id, l.nextNode).0, v.props,
      l.nextVProp))
  {
    hide PropRows, NextProp, FtsRows, LabelRows;
  }

  lemma VPropCursorFollows(d: Tables, l: Loader, v: Vertex)
    requires l.opts == PRESERVE && l.nextNode == MaxOr0(NodeIds(d.nodes)) + 1
      && l.nextVProp == MaxOr0(PropIds(d.vprops)) + 1
    requires PositiveIn(v.props) && forall r | r in d.vprops :: r.id > 0
    ensures AddVertex(l, v).nextVProp == MaxOr0(PropIds(WithVertex(d, v).vprops)) + 1
    ensures forall r | r in WithVertex(d, v).vprops :: r.id > 0
  {
    hide PropRows, NextProp, FtsRows, LabelRows;
    var owner, next := IdOf(Preserve, v.id, l.nextNode).0, l.nextVProp;
    CarriedPropCursor(d.vprops, owner, v.props);
    AddedVertexProps(d, l, v);
  }

  lemma SimVertexCursors(d: Tables, l: Loader, v: Vertex)
    requires l.opts == PRESERVE && SimCursors(d, l) && PositiveIds(d) && PositiveProps(d)
    requires PositiveIn(v.props) && PositiveId(v.id)
    ensures SimCursors(WithVertex(d, v), AddVertex(l, v))
    ensures PositiveIds(WithVertex(d, v)) && PositiveProps(WithVertex(d, v))
  {
    NodeCursorFollows(d, l, v);
    VPropCursorFollows(d, l, v);
  }

  lemma SimVertex(db: Tables, d: Tables, l: Loader, v: Vertex)
    requires Sim(db, d, l) && PositiveIn(v.props) && PositiveId(v.id) && LandVertex(d, v).Ok?
    ensures Sim(db, LandVertex(d, v).value, AddVertex(l, v))
  {
    SimVertexRows(db, d, l, v);
    SimVertexCursors(d, l, v);
    PendRowsStable(d.nodes, WithVertex(d, v).nodes, l.pending);
  }

  lemma EdgeBuffers(l: Loader, e: Edge)
    requires l.opts == PRESERVE && AddEdge(l, e).Ok?
    ensures var props := PropRows(IdOf(Preserve, e.id, l.nextEdge).0, e.props, l.nextEProp);
      var l' := AddEdge(l, e).value;
      && l'.nodeRows == l.nodeRows && l'.labelRows == l.labelRows && l'.vprops == l.vprops
      && l'.eprops == l.eprops + props && l'.fts == l.fts + FtsRows(EdgeKind, props)
  {
    hide PropRows, NextProp, FtsRows, IdOf, HasMeta;
  }

  lemma SimEdgeRows(db: Tables, d: Tables, l: Loader, e: Edge)
    requires l.opts == PRESERVE && SimRows(db, d, l) && SimCursors(d, l) && AddEdge(l, e).Ok?
    ensures SimRows(db, WithEdge(d, e), AddEdge(l, e).value)
  {
    EdgeBuffers(l, e);
    EdgeLands(d, e);
    hide AddEdge, WithEdge, PropRows, NextProp, FtsRows, MaxOr0, NodeIds, EdgeIds, PropIds, IdOf;
    var props := PropRows(IdOf(Preserve, e.id, l.nextEdge).0, e.props, l.nextEProp);
    Appended(db.eprops, l.eprops, props);
    Appended(db.fts, l.fts, FtsRows(EdgeKind, props));
  }

  lemma EdgeLands(d: Tables, e: Edge)
    ensures var props := PropRows(IdOf(Preserve, e.id, MaxOr0(EdgeIds(d.edges)) + 1).0, e.props,
      MaxOr0(PropIds(d.eprops)) + 1);
      var d' := WithEdge(d, e);
      && d'.nodes == d.nodes && d'.labels == d.labels && d'.vprops == d.vprops
      && d'.eprops == d.eprops + multiset(props) && d'.fts == d.fts + multiset(FtsRows(EdgeKind, props))
  {
    hide PropRows, FtsRows, MaxOr0, NodeIds, EdgeIds, PropIds, IdOf;
  }

  lemma Appended<T>(t: multiset<T>, a: seq<T>, b: seq<T>)
    ensures t + multiset(a + b) == t + multiset(a) + multiset(b)
  {
    assert multiset(a + b) == multiset(a) + multiset(b);
  }

  lemma PendRowsAppend(all: multiset<NodeRow>, ps: seq<Pending>, p: Pending)
    ensures PendRows(all, ps + [p]) == PendRows(all, ps) + [RowOf(all, p)]
    ensures AllFound(all, ps + [p]) <==> AllFound(all, ps) && Found(all, p.edge)
  {
  }

  /** An edge added now, eager or deferred, stands for its reference row. */
  lemma SimEdgeLinks(db: Tables, d: Tables, l: Loader, e: Edge, ops: seq<Op>)
    requires l.opts == PRESERVE && SimEdges(db, d, l) && l.nextEdge == MaxOr0(EdgeIds(d.edges)) + 1
    requires Found(d.nodes, e) && AddEdge(l, e).Ok?
    requires Agrees(d.nodes, l.vertexIds, ops) && Named(e.src, ops) && Named(e.tgt, ops)
    ensures SimEdges(db, WithEdge(d, e), AddEdge(l, e).value)
  {
    var l' := AddEdge(l, e).value;
    var row := EdgeRowOf(d, e);
    var p := Pending(e, row.id, row.uid);
    EdgeJoinsBuffer(d, l, e, ops);
    hide AddEdge, WithEdge, EdgeRowOf, PendRows, AllFound, Agrees;
    if l'.pending == l.pending {
      assert multiset(l'.edgeRows) == multiset(l.edgeRows) + multiset{row};
    } else {
      PendRowsAppend(d.nodes, l.pending, p);
      assert multiset(PendRows(d.nodes, l'.pending)) == multiset(PendRows(d.nodes, l.pending)) + multiset{row};
    }
  }

  /** The edge is buffered resolved, as the row landing it gives, or pending, to become that row. */
  lemma EdgeJoinsBuffer(d: Tables, l: Loader, e: Edge, ops: seq<Op>)
    requires l.opts == PRESERVE && l.nextEdge == MaxOr0(EdgeIds(d.edges)) + 1 && AddEdge(l, e).Ok?
    requires Agrees(d.nodes, l.vertexIds, ops) && Named(e.src, ops) && Named(e.tgt, ops)
    ensures var row, l' := EdgeRowOf(d, e), AddEdge(l, e).value;
      var p := Pending(e, row.id, row.uid);
      && RowOf(d.nodes, p) == row
      && WithEdge(d, e).edges == d.edges + multiset{row} && WithEdge(d, e).nodes == d.nodes
      && ( || (l'.edgeRows == l.edgeRows + [row] && l'.pending == l.pending)
           || (l'.edgeRows == l.edgeRows && l'.pending == l.pending + [p]))
  {
    hide PropRows, NextProp, FtsRows, LabelRows;
  }

  lemma EdgeCursorFollows(d: Tables, l: Loader, e: Edge)
    requires l.opts == PRESERVE && l.nextEdge == MaxOr0(EdgeIds(d.edges)) + 1 && AddEdge(l, e).Ok?
    requires PositiveId(e.id) && forall r | r in d.edges :: r.id > 0
    ensures AddEdge(l, e).value.nextEdge == MaxOr0(EdgeIds(WithEdge(d, e).edges)) + 1
    ensures forall r | r in WithEdge(d, e).edges :: r.id > 0
  {
    EdgeCursor(d.edges, EdgeRowOf(d, e));
  }

  lemma AddedEdgeProps(d: Tables, l: Loader, e: Edge)
    requires l.opts == PRESERVE && l.nextEdge == MaxOr0(EdgeIds(d.edges)) + 1
      && l.nextEProp == MaxOr0(PropIds(d.eprops)) + 1
    requires AddEdge(l, e).Ok?
    ensures AddEdge(l, e).value.nextEProp == NextProp(e.props, l.nextEProp)
    ensures WithEdge(d, e).eprops == d.eprops + multiset(PropRows(EdgeRowOf(d, e).id, e.props, l.nextEProp))
  {
    hide PropRows, NextProp, FtsRows;
  }

  lemma EPropCursorFollows(d: Tables, l: Loader, e: Edge)
    requires l.opts == PRESERVE && l.nextEdge == MaxOr0(EdgeIds(d.edges)) + 1
      && l.nextEProp == MaxOr0(PropIds(d.eprops)) + 1
    requires AddEdge(l, e).Ok? && PositiveIn(e.props) && forall r | r in d.eprops :: r.id > 0
    ensures AddEdge(l, e).value.nextEProp == MaxOr0(PropIds(WithEdge(d, e).eprops)) + 1
    ensures forall r | r in WithEdge(d, e).eprops :: r.id > 0
  {
    hide PropRows, NextProp, FtsRows, LabelRows;
    var owner, next := EdgeRowOf(d, e).id, l.nextEProp;
    CarriedPropCursor(d.eprops, owner, e.props);
    AddedEdgeProps(d, l, e);
  }

  lemma SimEdgeCursors(d: Tables, l: Loader, e: Edge)
    requires l.opts == PRESERVE && SimCursors(d, l) && PositiveIds(d) && PositiveProps(d) && AddEdge(l, e).Ok?
    requires PositiveIn(e.props) && PositiveId(e.id)
    ensures SimCursors(WithEdge(d, e), AddEdge(l, e).value)
    ensures PositiveIds(WithEdge(d, e)) && PositiveProps(WithEdge(d, e))
  {
    EdgeIdsStayPositive(d, l, e);
    hide PositiveIds, PositiveProps;
    EdgeCursorsFollow(d, l, e);
  }

  lemma EdgeIdsStayPositive(d: Tables, l: Loader, e: Edge)
    requires l.opts == PRESERVE && SimCursors(d, l) && PositiveIds(d) && PositiveProps(d) && AddEdge(l, e).Ok?
    requires PositiveIn(e.props) && PositiveId(e.id)
    ensures PositiveIds(WithEdge(d, e)) && PositiveProps(WithEdge(d, e))
    ensures AddEdge(l, e).value.nextEdge == MaxOr0(EdgeIds(WithEdge(d, e).edges)) + 1
    ensures AddEdge(l, e).value.nextEProp == MaxOr0(PropIds(WithEdge(d, e).eprops)) + 1
  {
    EdgeCursorFollows(d, l, e);
    EPropCursorFollows(d, l, e);
    EdgeLands(d, e);
    hide WithEdge, AddEdge, MaxOr0, NodeIds, EdgeIds, PropIds;
  }

  lemma EdgeCursorsFollow(d: Tables, l: Loader, e: Edge)
    requires SimCursors(d, l) && AddEdge(l, e).Ok?
    requires AddEdge(l, e).value.nextEdge == MaxOr0(EdgeIds(WithEdge(d, e).edges)) + 1
    requires AddEdge(l, e).value.nextEProp == MaxOr0(PropIds(WithEdge(d, e).eprops)) + 1
    ensures SimCursors(WithEdge(d, e), AddEdge(l, e).value)
  {
    EdgeLands(d, e);
    EdgeKeepsVertexCursors(l, e);
    hide WithEdge, AddEdge, MaxOr0, NodeIds, EdgeIds, PropIds;
  }

  lemma EdgeKeepsVertexCursors(l: Loader, e: Edge)
    requires AddEdge(l, e).Ok?
    ensures var l' := AddEdge(l, e).value; l'.nextNode == l.nextNode && l'.nextVProp == l.nextVProp
  {
    hide PropRows, NextProp, FtsRows, IdOf;
  }

  lemma SimEdge(db: Tables, d: Tables, l: Loader, e: Edge, ops: seq<Op>)
    requires Sim(db, d, l) && PositiveIn(e.props) && PositiveId(e.id) && LandEdge(d, e).Ok?
    requires Backed(l, ops) && Named(e.src, ops) && Named(e.tgt, ops)
    ensures AddEdge(l, e).Ok? && Sim(db, LandEdge(d, e).value, AddEdge(l, e).value)
  {
    hide PropRows, NextProp, FtsRows, LabelRows;
    BackedAgrees(l, d.nodes, ops);
    SimEdgeRows(db, d, l, e);
    SimEdgeLinks(db, d, l, e, ops);
    SimEdgeCursors(d, l, e);
  }

  lemma SimOne(db: Tables, d: Tables, l: Loader, op: Op, ops: seq<Op>)
    requires Sim(db, d, l) && Backed(l, ops) && op in ops && DistinctSpellings(ops) && PositiveOps(ops)
      && LandOne(d, op).Ok?
    ensures Add(l, op).Ok? && Sim(db, LandOne(d, op).value, Add(l, op).value) && Backed(Add(l, op).value, ops)
  {
    assert PositiveOp(op);
    match op {
      case AddV(v) => SimVertex(db, d, l, v);
      case AddE(e) =>
        assert NamedIn(e.src, op) && NamedIn(e.tgt, op);
        SimEdge(db, d, l, e, ops);
    }
    AddStaysBacked(l, op, ops);
  }

  /** As far as the reference succeeds, the loader follows it. */
  lemma {:induction false} FeedSimulates(db: Tables, journal: Option<Text>, ops: seq<Op>, n: nat)
    requires Ready(db, journal) && PositiveOps(ops) && DistinctSpellings(ops) && n <= |ops|
    requires Fold(db, ops[..n]).Ok?
    ensures var l := Feed(Fresh(db, PRESERVE, journal), ops[..n]);
      l.Ok? && Sim(db, Fold(db, ops[..n]).value, l.value) && Backed(l.value, ops) && l.value.journal == journal
  {
    if n == 0 {
      SimStart(db, journal);
    } else {
      assert ops[..n][..n - 1] == ops[..n - 1];
      FeedSimulates(db, journal, ops, n - 1);
      SimOne(db, Fold(db, ops[..n - 1]).value, Feed(Fresh(db, PRESERVE, journal), ops[..n - 1]).value, ops[n - 1], ops);
      FeedKeepsOptions(Fresh(db, PRESERVE, journal), ops[..n]);
    }
  }

  // ---------- what the loader lands, the reference lands ----------

  /** Buffers only grow at their ends. */
  ghost predicate Grows(l: Loader, l': Loader) {
    && l.nodeRows <= l'.nodeRows && l.labelRows <= l'.labelRows && l.vprops <= l'.vprops
    && l.edgeRows <= l'.edgeRows && l.eprops <= l'.eprops && l.fts <= l'.fts && l.pending <= l'.pending
    && l.nextNode <= l'.nextNode
  }

  lemma {:induction false} FeedGrows(l: Loader, ops: seq<Op>, n: nat)
    requires l.opts == PRESERVE && Feed(l, ops).Ok? && n <= |ops|
    ensures Feed(l, ops[..n]).Ok? && Grows(Feed(l, ops[..n]).value, Feed(l, ops).value)
  {
    hide PropRows, NextProp, FtsRows, LabelRows;
    if n == |ops| {
      assert ops[..n] == ops;
    } else {
      var front := ops[..|ops| - 1];
      assert front[..n] == ops[..n];
      FeedGrows(l, front, n);
      FeedKeepsOptions(l, front);
    }
  }

  lemma {:induction false} FeedNamesEnds(l: Loader, ops: seq<Op>, n: nat)
    requires l.opts == PRESERVE && l.pending == [] && n <= |ops| && Feed(l, ops[..n]).Ok?
    ensures NamedEnds(Feed(l, ops[..n]).value.pending, ops)
  {
    hide PropRows, NextProp, FtsRows, LabelRows;
    if n > 0 {
      assert ops[..n][..n - 1] == ops[..n - 1];
      FeedNamesEnds(l, ops, n - 1);
      FeedKeepsOptions(l, ops[..n - 1]);
      var op := ops[n - 1];
      if op.AddE? { assert NamedIn(op.e.src, op) && NamedIn(op.e.tgt, op); }
    }
  }

  lemma {:induction false} FeedStaysBacked(l: Loader, ops: seq<Op>, n: nat)
    requires l.opts == PRESERVE && Backed(l, ops) && DistinctSpellings(ops) && n <= |ops| && Feed(l, ops[..n]).Ok?
    ensures Backed(Feed(l, ops[..n]).value, ops)
  {
    if n > 0 {
      assert ops[..n][..n - 1] == ops[..n - 1];
      FeedStaysBacked(l, ops, n - 1);
      FeedKeepsOptions(l, ops[..n - 1]);
      AddStaysBacked(Feed(l, ops[..n - 1]).value, ops[n - 1], ops);
    }
  }

  ghost predicate NamedByRow(rows: seq<NodeRow>, k: Key) {
    exists r :: r in rows && Names(r, k)
  }

  /** A vertex fed under an id leaves a row that id names. */
  lemma {:induction false} FedVertexIsNamed(l: Loader, ops: seq<Op>, j: nat)
    requires l.opts == PRESERVE && Feed(l, ops).Ok? && j < |ops| && ops[j].AddV? && ops[j].v.id.Some?
    ensures NamedByRow(Feed(l, ops).value.nodeRows, ops[j].v.id.value)
  {
    hide PropRows, NextProp, FtsRows, LabelRows;
    var n := |ops| - 1;
    var l1 := Feed(l, ops[..n]).value;
    FeedKeepsOptions(l, ops[..n]);
    if j < n {
      FedVertexIsNamed(l, ops[..n], j);
      var r :| r in l1.nodeRows && Names(r, ops[j].v.id.value);
      assert r in Feed(l, ops).value.nodeRows;
    } else {
      var (rowid, uid) := IdOf(Preserve, ops[n].v.id, l1.nextNode);
      assert NodeRow(rowid, uid) in Feed(l, ops).value.nodeRows;
    }
  }

  /** A row fed since position `i` that a key names was put there by a vertex that may create the key. */
  lemma NewRowIsCreated(db: Tables, l: Loader, op: Op, r: NodeRow, k: Key)
    requires l.opts == PRESERVE && Add(l, op).Ok? && l.nextNode >= MaxOr0(NodeIds(db.nodes)) + 1
    requires r !in l.nodeRows && r in Add(l, op).value.nodeRows && Names(r, k)
    ensures op.AddV? && MayCreate(db, op.v, k)
  {
    hide PropRows, NextProp, FtsRows, LabelRows;
    var (rowid, uid) := IdOf(Preserve, (if op.AddV? then op.v.id else None), l.nextNode);
    assert op.AddV? ==> r == NodeRow(rowid, uid);
  }

  lemma {:induction false} LaterRowsAreCreated(db: Tables, journal: Option<Text>, ops: seq<Op>, i: nat, m: nat,
      r: NodeRow, k: Key)
    requires i <= m <= |ops| && Feed(Fresh(db, PRESERVE, journal), ops[..m]).Ok?
    requires Feed(Fresh(db, PRESERVE, journal), ops[..i]).Ok?
    requires r in Feed(Fresh(db, PRESERVE, journal), ops[..m]).value.nodeRows && Names(r, k)
    requires r !in Feed(Fresh(db, PRESERVE, journal), ops[..i]).value.nodeRows
    ensures exists j :: i <= j < m && ops[j].AddV? && MayCreate(db, ops[j].v, k)
  {
    hide PropRows, NextProp, FtsRows, LabelRows, AddVertex, AddEdge, MayCreate, Names;
    var l0 := Fresh(db, PRESERVE, journal);
    if i < m {
      assert ops[..m][..m - 1] == ops[..m - 1];
      var l1 := Feed(l0, ops[..m - 1]).value;
      FeedKeepsOptions(l0, ops[..m - 1]);
      FeedGrows(l0, ops[..m - 1], 0);
      if r in l1.nodeRows {
        LaterRowsAreCreated(db, journal, ops, i, m - 1, r, k);
      } else {
        assert l1.nextNode >= l0.nextNode == MaxOr0(NodeIds(db.nodes)) + 1;
        NewRowIsCreated(db, l1, ops[m - 1], r, k);
      }
    }
  }
}
