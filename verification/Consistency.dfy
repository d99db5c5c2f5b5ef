/** Every successful flush takes a consistent graph to a consistent graph (src/bulk.ts): keys unique,
    references resolved, property ids positive, index in step. */
module Consistency {
  import opened Utf16
  import opened Graph
  import opened Dedupe
  import opened Loader
  import opened FullText

  // ---------- what buffering keeps ----------

  lemma MoreNodes(a: multiset<NodeRow>, b: multiset<NodeRow>, id: int)
    requires HasNode(a, id)
    ensures HasNode(a + b, id)
  {
    var r :| r in a && r.id == id;
    assert r in a + b;
  }

  lemma MoreEdges(a: multiset<EdgeRow>, b: multiset<EdgeRow>, id: int)
    requires HasEdge(a, id)
    ensures HasEdge(a + b, id)
  {
    var r :| r in a && r.id == id;
    assert r in a + b;
  }

  ghost predicate NodesReferred(all: multiset<NodeRow>, l: Loader) {
    && (forall r | r in l.labelRows :: HasNode(all, r.node))
    && (forall r | r in l.vprops :: HasNode(all, r.owner))
    && (forall s | s in l.vertexIds :: HasNode(all, l.vertexIds[s]))
    && (forall r | r in l.edgeRows :: HasNode(all, r.src) && HasNode(all, r.tgt))
  }

  ghost predicate BuffersEdge(l: Loader, id: int) {
    HasEdge(multiset(l.edgeRows), id) || exists p :: p in l.pending && p.id == id
  }

  ghost predicate EdgesReferred(l: Loader) {
    forall r | r in l.eprops :: BuffersEdge(l, r.owner)
  }

  /** The buffers refer only to stored rows and to each other. */
  ghost predicate Sound(nodes: multiset<NodeRow>, l: Loader) {
    NodesReferred(nodes + multiset(l.nodeRows), l) && EdgesReferred(l)
  }

  ghost predicate PositiveBuffers(l: Loader) {
    && l.nextVProp > 0 && l.nextEProp > 0
    && (forall r | r in l.vprops :: r.id > 0)
    && (forall r | r in l.eprops :: r.id > 0)
  }

  /** Property ids a source supplies are positive. */
  predicate PositiveIn(props: seq<Property>) {
    forall i | 0 <= i < |props| :: props[i].id.Some? ==> props[i].id.value > 0
  }

  predicate PositiveOp(op: Op) {
    PositiveIn(if op.AddV? then op.v.props else op.e.props)
  }

  lemma {:induction false} PropRowsShape(owner: int, props: seq<Property>, next: int)
    ensures next <= NextProp(props, next)
    ensures forall r | r in PropRows(owner, props, next) :: r.owner == owner
    ensures next > 0 && PositiveIn(props) ==> forall r | r in PropRows(owner, props, next) :: r.id > 0
  {
    if props != [] { PropRowsShape(owner, props[..|props| - 1], next); }
  }

  lemma MoreNodesReferred(all: multiset<NodeRow>, more: multiset<NodeRow>, l: Loader)
    requires NodesReferred(all, l)
    ensures NodesReferred(all + more, l)
  {
    forall id | HasNode(all, id) ensures HasNode(all + more, id) { MoreNodes(all, more, id); }
  }

  lemma BufferVertexIsSound(nodes: multiset<NodeRow>, l: Loader, rowid: int, uid: Option<Text>, v: Vertex, push: bool)
    requires Sound(nodes, l) && (push || HasNode(nodes, rowid))
    ensures Sound(nodes, BufferVertex(l, rowid, uid, v, push))
    ensures PositiveBuffers(l) && PositiveIn(v.props) ==> PositiveBuffers(BufferVertex(l, rowid, uid, v, push))
  {
    PropRowsShape(rowid, v.props, l.nextVProp);
    var l' := BufferVertex(l, rowid, uid, v, push);
    var row := NodeRow(rowid, uid);
    var more := if push then multiset{row} else multiset{};
    assert multiset(l'.nodeRows) == multiset(l.nodeRows) + more;
    var all, all' := nodes + multiset(l.nodeRows), nodes + multiset(l'.nodeRows);
    assert all' == all + more;
    MoreNodesReferred(all, more, l);
    assert HasNode(all', rowid) by {
      if push { assert row in all'; } else { MoreNodes(nodes, multiset(l'.nodeRows), rowid); }
    }
    assert NodesReferred(all', l');
    forall id | BuffersEdge(l, id) ensures BuffersEdge(l', id) {}
  }

  lemma BufferEdgeIsSound(nodes: multiset<NodeRow>, l: Loader, rowid: int, uid: Option<Text>, e: Edge)
    requires Sound(nodes, l) && BufferEdge(l, rowid, uid, e).Ok?
    ensures Sound(nodes, BufferEdge(l, rowid, uid, e).value)
    ensures PositiveBuffers(l) && PositiveIn(e.props) ==> PositiveBuffers(BufferEdge(l, rowid, uid, e).value)
  {
    PropRowsShape(rowid, e.props, l.nextEProp);
    var l' := BufferEdge(l, rowid, uid, e).value;
    var more := l'.edgeRows[|l.edgeRows|..];
    assert l'.edgeRows == l.edgeRows + more;
    assert multiset(l'.edgeRows) == multiset(l.edgeRows) + multiset(more);
    forall id | BuffersEdge(l, id) ensures BuffersEdge(l', id) {
      if HasEdge(multiset(l.edgeRows), id) { MoreEdges(multiset(l.edgeRows), multiset(more), id); }
    }
    assert BuffersEdge(l', rowid) by {
      if more != [] { assert more[0] in multiset(l'.edgeRows); } else { assert Pending(e, rowid, uid) in l'.pending; }
    }
  }

  lemma SoundMoves(nodes: multiset<NodeRow>, l: Loader, node: int, edge: int)
    requires Sound(nodes, l)
    ensures var l' := l.(nextNode := node, nextEdge := edge);
      Sound(nodes, l') && (PositiveBuffers(l') <==> PositiveBuffers(l))
  {
    var l' := l.(nextNode := node, nextEdge := edge);
    forall id ensures BuffersEdge(l', id) <==> BuffersEdge(l, id) {}
  }

  lemma AddIsSound(nodes: multiset<NodeRow>, l: Loader, op: Op)
    requires Sound(nodes, l) && Add(l, op).Ok?
    ensures Sound(nodes, Add(l, op).value)
    ensures PositiveBuffers(l) && PositiveOp(op) ==> PositiveBuffers(Add(l, op).value)
  {
    forall node, edge { SoundMoves(nodes, l, node, edge); }
    hide BufferVertex, BufferEdge, Sound, PositiveBuffers;
    match op
    case AddV(v) =>
      if l.opts.onCollision.FailClosed? {
        var (rowid, uid) := IdOf(l.opts.idPolicy, v.id, l.nextNode);
        BufferVertexIsSound(nodes, l.(nextNode := Bump(l.nextNode, rowid)), rowid, uid, v, true);
      }
    case AddE(e) =>
      if l.opts.onCollision.FailClosed? {
        var (rowid, uid) := IdOf(l.opts.idPolicy, e.id, l.nextEdge);
        BufferEdgeIsSound(nodes, l.(nextEdge := Bump(l.nextEdge, rowid)), rowid, uid, e);
      }
  }

  lemma FoundIsNode(nodes: multiset<NodeRow>, k: Key)
    ensures Lookup(nodes, k).Some? ==>
      HasNode(nodes, Lookup(nodes, k).value) && (k.Num? ==> Lookup(nodes, k) == Some(k.n))
  {
  }

  lemma ReplaceVertexIsSound(nodes: multiset<NodeRow>, l: Loader, v: Vertex)
    requires Sound(nodes, l)
    ensures Sound(nodes, ReplaceVertex(nodes, l, v).0)
    ensures PositiveBuffers(l) && PositiveIn(v.props) ==> PositiveBuffers(ReplaceVertex(nodes, l, v).0)
  {
    var at := if v.id.Some? then Lookup(nodes, v.id.value) else None;
    var (rowid, uid, next) :=
      match v.id
      case Some(Num(n)) => (n, None, Bump(l.nextNode, n))
      case Some(Str(s)) =>
        if at.Some? then (at.value, Some(WellFormed(s)), l.nextNode)
          else (l.nextNode, Some(WellFormed(s)), l.nextNode + 1)
      case None => (l.nextNode, None, l.nextNode + 1);
    var l0 := l.(nextNode := next);
    SoundMoves(nodes, l, next, l.nextEdge);
    if v.id.Some? { FoundIsNode(nodes, v.id.value); }
    hide BufferVertex, Sound, PositiveBuffers, HasNode, Names, Lookup;
    BufferVertexIsSound(nodes, l0, rowid, uid, v, at.None?);
    assert ReplaceVertex(nodes, l, v).0 == BufferVertex(l0, rowid, uid, v, at.None?);
  }

  lemma {:induction false} ReplaceVerticesIsSound(nodes: multiset<NodeRow>, l: Loader, vs: seq<Vertex>)
    requires Sound(nodes, l)
    requires PositiveBuffers(l) && forall v | v in vs :: PositiveIn(v.props)
    ensures Sound(nodes, ReplaceVertices(nodes, l, vs).0) && PositiveBuffers(ReplaceVertices(nodes, l, vs).0)
  {
    if vs != [] {
      ReplaceVerticesIsSound(nodes, l, vs[..|vs| - 1]);
      ReplaceVertexIsSound(nodes, ReplaceVertices(nodes, l, vs[..|vs| - 1]).0, vs[|vs| - 1]);
    }
  }

  lemma ReplaceEdgeIsSound(nodes: multiset<NodeRow>, edges: multiset<EdgeRow>, l: Loader, e: Edge)
    requires Sound(nodes, l) && ReplaceEdge(edges, l, e).Ok?
    ensures Sound(nodes, ReplaceEdge(edges, l, e).value.0)
    ensures PositiveBuffers(l) && PositiveIn(e.props) ==> PositiveBuffers(ReplaceEdge(edges, l, e).value.0)
  {
    var (rowid, uid, next) :=
      match e.id
      case Some(Num(n)) => (n, None, Bump(l.nextEdge, n))
      case Some(Str(s)) => (l.nextEdge, Some(WellFormed(s)), l.nextEdge + 1)
      case None => (l.nextEdge, None, l.nextEdge + 1);
    SoundMoves(nodes, l, l.nextNode, next);
    hide BufferEdge, Sound, PositiveBuffers;
    var l0 := l.(nextEdge := next);
    BufferEdgeIsSound(nodes, l0, rowid, uid, e);
    assert ReplaceEdge(edges, l, e).value.0 == BufferEdge(l0, rowid, uid, e).value;
  }

  lemma {:induction false} ReplaceEdgesIsSound(nodes: multiset<NodeRow>, edges: multiset<EdgeRow>, l: Loader,
      es: seq<Edge>)
    requires Sound(nodes, l) && ReplaceEdges(edges, l, es).Ok?
    requires PositiveBuffers(l) && forall e | e in es :: PositiveIn(e.props)
    ensures Sound(nodes, ReplaceEdges(edges, l, es).value.0) && PositiveBuffers(ReplaceEdges(edges, l, es).value.0)
  {
    if es != [] {
      ReplaceEdgesIsSound(nodes, edges, l, es[..|es| - 1]);
      ReplaceEdgeIsSound(nodes, edges, ReplaceEdges(edges, l, es[..|es| - 1]).value.0, es[|es| - 1]);
    }
  }

  // ---------- wiping ----------

  lemma WipeVerticesKeepsConsistent(db: Tables, ids: set<int>)
    requires Consistent(db)
    ensures Consistent(WipeVertices(db, ids))
  {
    WipeVerticesKeepsIndex(db, ids);
  }

  lemma WipeEdgesKeepsReferences(db: Tables, ids: set<int>)
    requires References(db)
    ensures References(WipeEdges(db, ids))
  {
    var db' := WipeEdges(db, ids);
    forall r | r in db'.eprops ensures HasEdge(db'.edges, r.owner) {
      var e :| e in db.edges && e.id == r.owner;
      assert e in db'.edges;
    }
  }

  lemma WipeEdgesKeepsConsistent(db: Tables, ids: set<int>)
    requires Consistent(db)
    ensures Consistent(WipeEdges(db, ids))
  {
    WipeEdgesKeepsIndex(db, ids);
    WipeEdgesKeepsReferences(db, ids);
  }

  // ---------- landing ----------

  /** Pending edges land one row each, in order, with their own id and uid, between stored vertices. */
  lemma {:induction false} ResolvedRows(nodes: multiset<NodeRow>, ids: map<Text, int>, pending: seq<Pending>)
    requires forall s | s in ids :: HasNode(nodes, ids[s])
    requires ResolvePending(nodes, ids, pending).Ok?
    ensures var (rows, ids') := ResolvePending(nodes, ids, pending).value;
      && |rows| == |pending|
      && (forall i | 0 <= i < |rows| :: rows[i].id == pending[i].id && rows[i].uid == pending[i].uid
                                       && rows[i].name == pending[i].edge.name)
      && (forall i | 0 <= i < |rows| :: HasNode(nodes, rows[i].src) && HasNode(nodes, rows[i].tgt))
      && (forall s | s in ids' :: HasNode(nodes, ids'[s]))
  {
    if pending != [] { ResolvedRows(nodes, ids, pending[..|pending| - 1]); }
  }

  lemma LandedEdgesRefer(nodes: multiset<NodeRow>, l: Loader, edges: multiset<EdgeRow>, rows: seq<EdgeRow>)
    requires NodesReferred(nodes, l)
    requires forall r | r in edges :: HasNode(nodes, r.src) && HasNode(nodes, r.tgt)
    requires forall i | 0 <= i < |rows| :: HasNode(nodes, rows[i].src) && HasNode(nodes, rows[i].tgt)
    ensures forall r | r in edges + multiset(l.edgeRows + rows) :: HasNode(nodes, r.src) && HasNode(nodes, r.tgt)
  {
    forall r | r in edges + multiset(l.edgeRows + rows) ensures HasNode(nodes, r.src) && HasNode(nodes, r.tgt) {
      assert r in edges || r in l.edgeRows || r in rows;
    }
  }

  lemma LandedOwner(l: Loader, edges: multiset<EdgeRow>, rows: seq<EdgeRow>, id: int)
    requires |rows| == |l.pending| && forall i | 0 <= i < |rows| :: rows[i].id == l.pending[i].id
    requires HasEdge(edges, id) || BuffersEdge(l, id)
    ensures HasEdge(edges + multiset(l.edgeRows + rows), id)
  {
    var all := edges + multiset(l.edgeRows + rows);
    if r :| r in edges && r.id == id {
      assert r in all;
    } else if r :| r in multiset(l.edgeRows) && r.id == id {
      assert r in l.edgeRows + rows && r in all;
    } else {
      var i :| 0 <= i < |l.pending| && l.pending[i].id == id;
      assert rows[i] in l.edgeRows + rows && rows[i] in all;
    }
  }

  /** The rows a landing adds, as bags. */
  lemma LandedRows(db: Tables, l: Loader)
    requires LandRows(db, l).Ok?
    ensures ResolvePending(db.nodes + multiset(l.nodeRows), l.vertexIds, l.pending).Ok?
    ensures var d, all := LandRows(db, l).value.0, db.nodes + multiset(l.nodeRows);
      && d.nodes == all && d.labels == db.labels + multiset(l.labelRows) && d.vprops == db.vprops + multiset(l.vprops)
      && d.edges == db.edges + multiset(l.edgeRows + ResolvePending(all, l.vertexIds, l.pending).value.0)
      && d.eprops == db.eprops + multiset(l.eprops) && d.cards == db.cards
  {
    hide UniqueNodes, UniqueEdges, UniqueVProps, UniqueEProps, UniqueFts, NoRepeats, ResolvePending;
  }

  lemma LandRowsKeepsReferences(db: Tables, l: Loader)
    requires References(db) && Sound(db.nodes, l) && LandRows(db, l).Ok?
    ensures References(LandRows(db, l).value.0)
  {
    LandedRows(db, l);
    var db' := LandRows(db, l).value.0;
    var all := db.nodes + multiset(l.nodeRows);
    hide LandRows, ResolvePending, HasNode, HasEdge, BuffersEdge, References;
    ResolvedRows(all, l.vertexIds, l.pending);
    var rows := ResolvePending(all, l.vertexIds, l.pending).value.0;
    LandedNodesRefer(db, db', l, rows);
    LandedEPropsRefer(db, db', l, rows);
    AllRefer(db');
  }

  lemma AllRefer(db: Tables)
    requires forall r | r in db.labels :: HasNode(db.nodes, r.node)
    requires forall r | r in db.vprops :: HasNode(db.nodes, r.owner)
    requires forall r | r in db.cards :: HasNode(db.nodes, r.node)
    requires forall r | r in db.edges :: HasNode(db.nodes, r.src) && HasNode(db.nodes, r.tgt)
    requires forall r | r in db.eprops :: HasEdge(db.edges, r.owner)
    ensures References(db)
  {
  }

  lemma LandedNodesRefer(db: Tables, d: Tables, l: Loader, rows: seq<EdgeRow>)
    requires References(db) && Sound(db.nodes, l) && d.nodes == db.nodes + multiset(l.nodeRows) && d.cards == db.cards
    requires d.labels == db.labels + multiset(l.labelRows) && d.vprops == db.vprops + multiset(l.vprops)
    requires d.edges == db.edges + multiset(l.edgeRows + rows)
    requires forall i | 0 <= i < |rows| :: HasNode(d.nodes, rows[i].src) && HasNode(d.nodes, rows[i].tgt)
    ensures forall r | r in d.labels :: HasNode(d.nodes, r.node)
    ensures forall r | r in d.vprops :: HasNode(d.nodes, r.owner)
    ensures forall r | r in d.cards :: HasNode(d.nodes, r.node)
    ensures forall r | r in d.edges :: HasNode(d.nodes, r.src) && HasNode(d.nodes, r.tgt)
  {
    forall id | HasNode(db.nodes, id) ensures HasNode(d.nodes, id) { MoreNodes(db.nodes, multiset(l.nodeRows), id); }
    hide HasNode, HasEdge, EdgesReferred;
    LandedEdgesRefer(d.nodes, l, db.edges, rows);
    assert forall r | r in d.labels :: r in db.labels || r in l.labelRows;
    assert forall r | r in d.vprops :: r in db.vprops || r in l.vprops;
  }

  lemma LandedEPropsRefer(db: Tables, d: Tables, l: Loader, rows: seq<EdgeRow>)
    requires References(db) && Sound(db.nodes, l) && d.eprops == db.eprops + multiset(l.eprops)
    requires d.edges == db.edges + multiset(l.edgeRows + rows)
    requires |rows| == |l.pending| && forall i | 0 <= i < |rows| :: rows[i].id == l.pending[i].id
    ensures forall r | r in d.eprops :: HasEdge(d.edges, r.owner)
  {
    hide HasNode, HasEdge, NodesReferred, BuffersEdge;
    forall r | r in d.eprops ensures HasEdge(d.edges, r.owner) {
      assert r in db.eprops || r in l.eprops;
      LandedOwner(l, db.edges, rows, r.owner);
    }
  }

  lemma LandRowsKeepsIntact(db: Tables, l: Loader)
    requires Intact(db) && InStep(l) && Sound(db.nodes, l) && LandRows(db, l).Ok?
    ensures Intact(LandRows(db, l).value.0)
  {
    LandRowsKeepsIndex(db, l);
    LandRowsKeepsReferences(db, l);
  }

  lemma LandRowsKeepsPositive(db: Tables, l: Loader)
    requires PositiveProps(db) && PositiveBuffers(l) && LandRows(db, l).Ok?
    ensures PositiveProps(LandRows(db, l).value.0)
  {
    hide UniqueNodes, UniqueEdges, UniqueVProps, UniqueEProps, UniqueFts, NoRepeats, ResolvePending, Journal;
    var db' := LandRows(db, l).value.0;
    assert db'.vprops == db.vprops + multiset(l.vprops) && db'.eprops == db.eprops + multiset(l.eprops);
  }

  lemma LandRowsKeepsConsistent(db: Tables, l: Loader)
    requires Consistent(db) && InStep(l) && Sound(db.nodes, l) && PositiveBuffers(l) && LandRows(db, l).Ok?
    ensures Consistent(LandRows(db, l).value.0)
  {
    hide Intact, PositiveProps, LandRows, InStep, Sound, PositiveBuffers;
    LandRowsKeepsIntact(db, l);
    LandRowsKeepsPositive(db, l);
  }

  // ---------- the theorem ----------

  /** Whatever the store held, an append-mode batch refers only to the vertices it buffers itself. */
  lemma {:induction false} FeedIsSound(nodes: multiset<NodeRow>, db: Tables, opts: Options, journal: Option<Text>,
      ops: seq<Op>)
    requires Feed(Fresh(db, opts, journal), ops).Ok?
    ensures Sound(nodes, Feed(Fresh(db, opts, journal), ops).value)
  {
    if ops != [] {
      FeedIsSound(nodes, db, opts, journal, ops[..|ops| - 1]);
      AddIsSound(nodes, Feed(Fresh(db, opts, journal), ops[..|ops| - 1]).value, ops[|ops| - 1]);
    }
  }

  lemma {:induction false} FeedIsPositive(db: Tables, opts: Options, journal: Option<Text>, ops: seq<Op>)
    requires PositiveProps(db) && forall op | op in ops :: PositiveOp(op)
    requires Feed(Fresh(db, opts, journal), ops).Ok?
    ensures var l := Feed(Fresh(db, opts, journal), ops).value;
      PositiveBuffers(l) && PositiveRaw(l)
  {
    if ops == [] {
      PositiveCursors(db);
    } else {
      var front, op := ops[..|ops| - 1], ops[|ops| - 1];
      FeedIsPositive(db, opts, journal, front);
      FeedIsSound(db.nodes, db, opts, journal, front);
      hide Sound, PositiveBuffers, PositiveRaw, Fresh, Add, PositiveProps, PositiveOp;
      assert op in ops;
      AddIsSound(db.nodes, Feed(Fresh(db, opts, journal), front).value, op);
      AddKeepsPositiveRaw(Feed(Fresh(db, opts, journal), front).value, op);
    }
  }

  /** The elements a replace load holds back carry positive property ids. */
  ghost predicate PositiveRaw(l: Loader) {
    (forall v | v in l.rawVertices :: PositiveIn(v.props)) && forall e | e in l.rawEdges :: PositiveIn(e.props)
  }

  lemma AddKeepsPositiveRaw(l: Loader, op: Op)
    requires PositiveRaw(l) && PositiveOp(op) && Add(l, op).Ok?
    ensures PositiveRaw(Add(l, op).value)
  {
    hide PropRows, NextProp, FtsRows, LabelRows, IdOf;
  }

  lemma PositiveCursors(db: Tables)
    requires PositiveProps(db)
    ensures MaxOr0(PropIds(db.vprops)) >= 0 && MaxOr0(PropIds(db.eprops)) >= 0
  {
  }

  /** Deduplication only selects: every element it keeps came from the batch. */
  lemma DedupedFrom<T>(items: seq<T>, keyOf: T -> Option<Key>)
    ensures forall x | x in Deduped(items, keyOf) :: x in items
  {
    FillFrom(items, keyOf);
    FillIsFilled(items, keyOf);
  }

  lemma {:induction false} FillFrom<T>(items: seq<T>, keyOf: T -> Option<Key>)
    ensures forall k | k in Fill(items, keyOf).last :: Fill(items, keyOf).last[k] in items
    ensures forall x | x in Fill(items, keyOf).anonymous :: x in items
  {
    if items != [] { FillFrom(items[..|items| - 1], keyOf); }
  }

  /** A consistent graph stays consistent over every successful flush, append or replace, whatever the id
      policy, as long as the property ids the source supplies are positive. */
  lemma FlushKeepsConsistent(db: Tables, opts: Options, journal: Option<Text>, ops: seq<Op>)
    requires Consistent(db) && forall op | op in ops :: PositiveOp(op)
    requires Feed(Fresh(db, opts, journal), ops).Ok?
    requires LandBatch(db, Feed(Fresh(db, opts, journal), ops).value).Ok?
    ensures Consistent(LandBatch(db, Feed(Fresh(db, opts, journal), ops).value).value.0)
  {
    var l := Feed(Fresh(db, opts, journal), ops).value;
    FeedIsSound(db.nodes, db, opts, journal, ops);
    FeedIsPositive(db, opts, journal, ops);
    FeedInStep(Fresh(db, opts, journal), ops);
    if l.opts.onCollision.Replace? {
      var (db', l') := ResolveReplace(db, l).value;
      ResolveReplaceIsSound(db, l);
      LandRowsKeepsConsistent(db', l');
    } else {
      LandRowsKeepsConsistent(db, l);
    }
  }

  /** An append needs nothing of the property ids. */
  lemma AppendKeepsIntact(db: Tables, opts: Options, journal: Option<Text>, ops: seq<Op>)
    requires Intact(db) && opts.onCollision.FailClosed?
    requires Feed(Fresh(db, opts, journal), ops).Ok?
    requires LandBatch(db, Feed(Fresh(db, opts, journal), ops).value).Ok?
    ensures Intact(LandBatch(db, Feed(Fresh(db, opts, journal), ops).value).value.0)
  {
    FeedIsSound(db.nodes, db, opts, journal, ops);
    FeedInStep(Fresh(db, opts, journal), ops);
    FeedKeepsOptions(Fresh(db, opts, journal), ops);
    LandRowsKeepsIntact(db, Feed(Fresh(db, opts, journal), ops).value);
  }

  lemma ResolveReplaceIsSound(db: Tables, l: Loader)
    requires Consistent(db) && InStep(l) && Sound(db.nodes, l) && PositiveBuffers(l) && ResolveReplace(db, l).Ok?
    requires forall v | v in l.rawVertices :: PositiveIn(v.props)
    requires forall e | e in l.rawEdges :: PositiveIn(e.props)
    ensures var (db', l') := ResolveReplace(db, l).value;
      Consistent(db') && InStep(l') && Sound(db'.nodes, l') && PositiveBuffers(l')
  {
    var vs, es := Deduped(l.rawVertices, VertexKey), Deduped(l.rawEdges, EdgeKey);
    DedupedFrom(l.rawVertices, VertexKey);
    DedupedFrom(l.rawEdges, EdgeKey);
    var (l1, matched) := ReplaceVertices(db.nodes, l, vs);
    ReplaceVerticesIsSound(db.nodes, l, vs);
    var db1 := WipeVertices(db, matched);
    WipeVerticesKeepsConsistent(db, matched);
    var (l2, matchedEdges) := ReplaceEdges(db.edges, l1, es).value;
    ReplaceEdgesIsSound(db.nodes, db.edges, l1, es);
    WipeEdgesKeepsConsistent(db1, matchedEdges);
    ResolveReplaceKeepsIndex(db, l);
  }
}
