/** The full-text index always agrees with the properties (src/bulk.ts): buffering builds the image of what
    it buffers, wiping seeks through the properties before they go, and landing adds the two together. */
module FullText {
  import opened Utf16
  import opened Graph
  import opened Dedupe
  import opened Loader

  lemma IndexUnion(kind: Kind, a: multiset<PropRow>, b: multiset<PropRow>, r: FtsRow)
    ensures Indexes(kind, a + b, r) <==> Indexes(kind, a, r) || Indexes(kind, b, r)
  {
    if p :| p in a && p.value.text != "" && r == FtsOf(kind, p) { assert p in a + b; }
    if p :| p in b && p.value.text != "" && r == FtsOf(kind, p) { assert p in a + b; }
  }

  lemma {:induction false} FtsRowsAreIndex(kind: Kind, rows: seq<PropRow>, r: FtsRow)
    ensures r in FtsRows(kind, rows) <==> Indexes(kind, multiset(rows), r)
  {
    if rows != [] {
      var front, p := rows[..|rows| - 1], rows[|rows| - 1];
      FtsRowsAreIndex(kind, front, r);
      assert rows == front + [p];
      IndexUnion(kind, multiset(front), multiset{p}, r);
      assert p in multiset{p};
      assert Indexes(kind, multiset{p}, r) <==> p.value.text != "" && r == FtsOf(kind, p);
      assert multiset(rows) == multiset(front) + multiset{p};
    }
  }

  // ---------- buffering ----------

  ghost predicate InStepRow(fts: seq<FtsRow>, vprops: seq<PropRow>, eprops: seq<PropRow>, r: FtsRow) {
    r in fts <==> Indexes(NodeKind, multiset(vprops), r) || Indexes(EdgeKind, multiset(eprops), r)
  }

  /** The buffered index rows are the image of the buffered property rows. */
  ghost predicate InStep(l: Loader) {
    forall r :: InStepRow(l.fts, l.vprops, l.eprops, r)
  }

  lemma VertexRowsStayInStep(fts: seq<FtsRow>, vprops: seq<PropRow>, eprops: seq<PropRow>, rows: seq<PropRow>,
      r: FtsRow)
    requires InStepRow(fts, vprops, eprops, r)
    ensures InStepRow(fts + FtsRows(NodeKind, rows), vprops + rows, eprops, r)
  {
    FtsRowsAreIndex(NodeKind, rows, r);
    IndexUnion(NodeKind, multiset(vprops), multiset(rows), r);
    assert multiset(vprops + rows) == multiset(vprops) + multiset(rows);
  }

  lemma EdgeRowsStayInStep(fts: seq<FtsRow>, vprops: seq<PropRow>, eprops: seq<PropRow>, rows: seq<PropRow>, r: FtsRow)
    requires InStepRow(fts, vprops, eprops, r)
    ensures InStepRow(fts + FtsRows(EdgeKind, rows), vprops, eprops + rows, r)
  {
    FtsRowsAreIndex(EdgeKind, rows, r);
    IndexUnion(EdgeKind, multiset(eprops), multiset(rows), r);
    assert multiset(eprops + rows) == multiset(eprops) + multiset(rows);
  }

  lemma BufferVertexInStep(l: Loader, rowid: int, uid: Option<Text>, v: Vertex, push: bool)
    requires InStep(l)
    ensures InStep(BufferVertex(l, rowid, uid, v, push))
  {
    forall r { VertexRowsStayInStep(l.fts, l.vprops, l.eprops, PropRows(rowid, v.props, l.nextVProp), r); }
  }

  lemma BufferEdgeInStep(l: Loader, rowid: int, uid: Option<Text>, e: Edge)
    requires InStep(l) && BufferEdge(l, rowid, uid, e).Ok?
    ensures InStep(BufferEdge(l, rowid, uid, e).value)
  {
    forall r { EdgeRowsStayInStep(l.fts, l.vprops, l.eprops, PropRows(rowid, e.props, l.nextEProp), r); }
  }

  lemma {:induction false} FeedInStep(l: Loader, ops: seq<Op>)
    requires InStep(l) && Feed(l, ops).Ok?
    ensures InStep(Feed(l, ops).value)
  {
    if ops != [] {
      FeedInStep(l, ops[..|ops| - 1]);
      var l1 := Feed(l, ops[..|ops| - 1]).value;
      if l1.opts.onCollision.FailClosed? {
        match ops[|ops| - 1]
        case AddV(v) =>
          var (rowid, uid) := IdOf(l1.opts.idPolicy, v.id, l1.nextNode);
          BufferVertexInStep(l1.(nextNode := Bump(l1.nextNode, rowid)), rowid, uid, v, true);
        case AddE(e) =>
          var (rowid, uid) := IdOf(l1.opts.idPolicy, e.id, l1.nextEdge);
          BufferEdgeInStep(l1.(nextEdge := Bump(l1.nextEdge, rowid)), rowid, uid, e);
      }
    }
  }

  lemma ReplaceVertexInStep(nodes: multiset<NodeRow>, l: Loader, v: Vertex)
    requires InStep(l)
    ensures InStep(ReplaceVertex(nodes, l, v).0)
  {
    match v.id
    case Some(Num(n)) =>
      BufferVertexInStep(l.(nextNode := Bump(l.nextNode, n)), n, None, v, Lookup(nodes, Num(n)).None?);
    case Some(Str(s)) =>
      var at := Lookup(nodes, Str(s));
      if at.Some? { BufferVertexInStep(l, at.value, Some(WellFormed(s)), v, false); }
      else { BufferVertexInStep(l.(nextNode := l.nextNode + 1), l.nextNode, Some(WellFormed(s)), v, true); }
    case None => BufferVertexInStep(l.(nextNode := l.nextNode + 1), l.nextNode, None, v, true);
  }

  lemma {:induction false} ReplaceVerticesInStep(nodes: multiset<NodeRow>, l: Loader, vs: seq<Vertex>)
    requires InStep(l)
    ensures InStep(ReplaceVertices(nodes, l, vs).0)
  {
    if vs != [] {
      ReplaceVerticesInStep(nodes, l, vs[..|vs| - 1]);
      ReplaceVertexInStep(nodes, ReplaceVertices(nodes, l, vs[..|vs| - 1]).0, vs[|vs| - 1]);
    }
  }

  lemma ReplaceEdgeInStep(edges: multiset<EdgeRow>, l: Loader, e: Edge)
    requires InStep(l) && ReplaceEdge(edges, l, e).Ok?
    ensures InStep(ReplaceEdge(edges, l, e).value.0)
  {
    match e.id
    case Some(Num(n)) => BufferEdgeInStep(l.(nextEdge := Bump(l.nextEdge, n)), n, None, e);
    case Some(Str(s)) => BufferEdgeInStep(l.(nextEdge := l.nextEdge + 1), l.nextEdge, Some(WellFormed(s)), e);
    case None => BufferEdgeInStep(l.(nextEdge := l.nextEdge + 1), l.nextEdge, None, e);
  }

  lemma {:induction false} ReplaceEdgesInStep(edges: multiset<EdgeRow>, l: Loader, es: seq<Edge>)
    requires InStep(l) && ReplaceEdges(edges, l, es).Ok?
    ensures InStep(ReplaceEdges(edges, l, es).value.0)
  {
    if es != [] {
      ReplaceEdgesInStep(edges, l, es[..|es| - 1]);
      ReplaceEdgeInStep(edges, ReplaceEdges(edges, l, es[..|es| - 1]).value.0, es[|es| - 1]);
    }
  }

  // ---------- wiping ----------

  lemma KeptIndex(kind: Kind, t: multiset<PropRow>, ids: set<int>, r: FtsRow)
    requires forall p, p' | p in t && p' in t && p != p' :: p.id != p'.id
    ensures var kept := Keep(t, (p: PropRow) => p.owner !in ids);
      Indexes(kind, kept, r) <==>
      Indexes(kind, t, r) && !exists p :: p in t && FtsRowid(kind, p.id) == r.rowid && p.owner in ids
  {
    var kept := Keep(t, (p: PropRow) => p.owner !in ids);
    if p :| p in t && p.value.text != "" && r == FtsOf(kind, p) {
      assert p in kept <==> p.owner !in ids;
    }
    if p :| p in kept && p.value.text != "" && r == FtsOf(kind, p) {
      assert p in t;
    }
  }

  /** The signed rowid tells the kinds apart: positive ids never meet negated ones. */
  lemma OtherKindUntouched(kind: Kind, t: multiset<PropRow>, other: multiset<PropRow>, r: FtsRow)
    requires forall p | p in t :: p.id > 0
    requires forall p | p in other :: p.id > 0
    requires Indexes(if kind.NodeKind? then EdgeKind else NodeKind, other, r)
    ensures !exists p :: p in t && FtsRowid(kind, p.id) == r.rowid
  {
  }

  /** Wiping the index through the property table, before the properties go, leaves exactly the image of
      the properties that stay. */
  lemma WipeVerticesKeepsIndex(db: Tables, ids: set<int>)
    requires Indexed(db) && UniqueVProps(db.vprops) && PositiveProps(db)
    ensures Indexed(WipeVertices(db, ids))
  {
    var db' := WipeVertices(db, ids);
    forall r ensures r in db'.fts <==> Indexes(NodeKind, db'.vprops, r) || Indexes(EdgeKind, db'.eprops, r) {
      KeptIndex(NodeKind, db.vprops, ids, r);
      if Indexes(EdgeKind, db.eprops, r) { OtherKindUntouched(NodeKind, db.vprops, db.eprops, r); }
      assert r in db'.fts <==> r in db.fts && !exists p :: p in db.vprops && p.id == r.rowid && p.owner in ids;
      assert forall p :: FtsRowid(NodeKind, p) == p;
    }
  }

  lemma WipeEdgesKeepsIndex(db: Tables, ids: set<int>)
    requires Indexed(db) && UniqueEProps(db.eprops) && PositiveProps(db)
    ensures Indexed(WipeEdges(db, ids))
  {
    var db' := WipeEdges(db, ids);
    forall r ensures r in db'.fts <==> Indexes(NodeKind, db'.vprops, r) || Indexes(EdgeKind, db'.eprops, r) {
      KeptIndex(EdgeKind, db.eprops, ids, r);
      if Indexes(NodeKind, db.vprops, r) { OtherKindUntouched(EdgeKind, db.eprops, db.vprops, r); }
      assert r in db'.fts <==> r in db.fts && !exists p :: p in db.eprops && -p.id == r.rowid && p.owner in ids;
    }
  }

  // ---------- landing ----------

  lemma LandRowsKeepsIndex(db: Tables, l: Loader)
    requires Indexed(db) && InStep(l) && LandRows(db, l).Ok?
    ensures Indexed(LandRows(db, l).value.0)
  {
    var db' := LandRows(db, l).value.0;
    assert db'.vprops == db.vprops + multiset(l.vprops) && db'.eprops == db.eprops + multiset(l.eprops);
    assert db'.fts == db.fts + multiset(l.fts);
    forall r ensures r in db'.fts <==> Indexes(NodeKind, db'.vprops, r) || Indexes(EdgeKind, db'.eprops, r) {
      IndexUnion(NodeKind, db.vprops, multiset(l.vprops), r);
      IndexUnion(EdgeKind, db.eprops, multiset(l.eprops), r);
      assert InStepRow(l.fts, l.vprops, l.eprops, r);
    }
  }

  /** The index agrees with the properties after any successful flush, under either collision policy. Only
      a replace, which wipes through the signed rowids, needs the stored property ids to be positive. */
  lemma FlushKeepsIndex(db: Tables, opts: Options, journal: Option<Text>, ops: seq<Op>)
    requires Indexed(db)
    requires opts.onCollision.Replace? ==> UniqueVProps(db.vprops) && UniqueEProps(db.eprops) && PositiveProps(db)
    requires Feed(Fresh(db, opts, journal), ops).Ok?
    requires LandBatch(db, Feed(Fresh(db, opts, journal), ops).value).Ok?
    ensures Indexed(LandBatch(db, Feed(Fresh(db, opts, journal), ops).value).value.0)
  {
    var l := Feed(Fresh(db, opts, journal), ops).value;
    FeedInStep(Fresh(db, opts, journal), ops);
    FeedKeepsOptions(Fresh(db, opts, journal), ops);
    if opts.onCollision.Replace? {
      var (db', l') := ResolveReplace(db, l).value;
      ResolveReplaceKeepsIndex(db, l);
      LandRowsKeepsIndex(db', l');
    } else {
      LandRowsKeepsIndex(db, l);
    }
  }

  lemma ResolveReplaceKeepsIndex(db: Tables, l: Loader)
    requires Indexed(db) && UniqueVProps(db.vprops) && UniqueEProps(db.eprops) && PositiveProps(db)
    requires InStep(l) && ResolveReplace(db, l).Ok?
    ensures Indexed(ResolveReplace(db, l).value.0) && InStep(ResolveReplace(db, l).value.1)
  {
    var (l1, matched) := ReplaceVertices(db.nodes, l, Deduped(l.rawVertices, VertexKey));
    ReplaceVerticesInStep(db.nodes, l, Deduped(l.rawVertices, VertexKey));
    var db1 := WipeVertices(db, matched);
    WipeVerticesKeepsIndex(db, matched);
    var (l2, matchedEdges) := ReplaceEdges(db.edges, l1, Deduped(l.rawEdges, EdgeKey)).value;
    ReplaceEdgesInStep(db.edges, l1, Deduped(l.rawEdges, EdgeKey));
    assert PositiveProps(db1);
    WipeEdgesKeepsIndex(db1, matchedEdges);
  }

  // ---------- what a search finds ----------

  function PropsOfKind(db: Tables, kind: Kind): multiset<PropRow> {
    if kind.NodeKind? then db.vprops else db.eprops
  }

  /** A search of the index for `text`, among the elements of one kind, finds property `key` of `owner`. */
  ghost predicate Finds(db: Tables, kind: Kind, owner: int, key: string, text: string) {
    exists r :: r in db.fts && r.elem == kind && r.owner == owner && r.key == key && r.text == text
  }

  ghost predicate HasText(t: multiset<PropRow>, owner: int, key: string, text: string) {
    exists p :: p in t && p.owner == owner && p.key == key && p.value.text == text
  }

  /** A search finds exactly the properties whose text it looks for; the empty text is never found. */
  lemma SearchFinds(db: Tables, kind: Kind, owner: int, key: string, text: string)
    requires Indexed(db)
    ensures Finds(db, kind, owner, key, text) <==> text != "" && HasText(PropsOfKind(db, kind), owner, key, text)
  {
    if r :| r in db.fts && r.elem == kind && r.owner == owner && r.key == key && r.text == text {
      assert Indexes(NodeKind, db.vprops, r) || Indexes(EdgeKind, db.eprops, r);
    }
    if p :| p in PropsOfKind(db, kind) && p.owner == owner && p.key == key && p.value.text == text && text != "" {
      assert Indexes(kind, PropsOfKind(db, kind), FtsOf(kind, p)) && FtsOf(kind, p) in db.fts;
    }
  }

  /** The row a property's signed rowid leads to: one that holds the property's own id, owner, key and text. */
  lemma RowOfProperty(db: Tables, kind: Kind, p: PropRow)
    requires Indexed(db) && UniqueFts(db.fts) && p in PropsOfKind(db, kind) && p.value.text != ""
    ensures exists r :: r in db.fts && r.rowid == FtsRowid(kind, p.id)
    ensures forall r | r in db.fts && r.rowid == FtsRowid(kind, p.id) ::
      r.elem == kind && r.pid == p.id && r.owner == p.owner && r.key == p.key && r.text == p.value.text
  {
    assert Indexes(kind, PropsOfKind(db, kind), FtsOf(kind, p)) && FtsOf(kind, p) in db.fts;
  }
}
