/** Every id policy lands an isomorphic copy of the batch (src/bulk.ts): one new vertex per source vertex,
    one new edge per source edge between the images of its endpoints, whether it was resolved when added or
    at flush, and each carrying its own labels and properties. */
module Isomorphism {
  import opened Utf16
  import opened Graph
  import opened Dedupe
  import opened Loader
  import opened Cursors
  import opened Consistency
  import opened Batching
  import opened BatchingTheorem
  import opened ReplaceBatch
  import opened Reimport

  ghost predicate IsVertex(ops: seq<Op>, i: int, k: Key) {
    0 <= i < |ops| && ops[i].AddV? && ops[i].v.id == Some(k)
  }

  /** The batch gives each id to one vertex, ids differ as strings, and endpoints are ids of the batch. */
  ghost predicate Closed(ops: seq<Op>) {
    && DistinctSpellings(ops)
    && (forall i, j, k | IsVertex(ops, i, k) && IsVertex(ops, j, k) :: i == j)
    && (forall i, k | 0 <= i < |ops| && ops[i].AddE? && NamedIn(k, ops[i]) :: exists j :: IsVertex(ops, j, k))
  }

  /** `vertex()`'s answer for position `i`: the rowid it chose. */
  function RowidAt(l: Loader, ops: seq<Op>, i: nat): int
    requires i < |ops| && ops[i].AddV? && Feed(l, ops[..i]).Ok?
  {
    IdOf(l.opts.idPolicy, ops[i].v.id, Feed(l, ops[..i]).value.nextNode).0
  }

  // ---------- the map of ids ----------

  /** What the memo holds after a prefix: each named vertex so far, at the rowid it was given. */
  lemma {:induction false} MemoIsRowids(l: Loader, ops: seq<Op>, n: nat, s: Text)
    requires l.opts.onCollision.FailClosed? && l.vertexIds == map[] && Closed(ops) && n <= |ops| && Feed(l, ops).Ok?
    ensures Feed(l, ops[..n]).Ok?
    ensures var ids := Feed(l, ops[..n]).value.vertexIds;
      && (s in ids <==> exists i, k :: IsVertex(ops, i, k) && i < n && Spelling(k) == s)
      && forall i, k | IsVertex(ops, i, k) && i < n && Spelling(k) == s ::
         PrefixFed(l, ops, i) && ids[s] == RowidAt(l, ops, i)
  {
    hide Add, IdOf, Spelling, Closed;
    FeedPrefixOk(l, ops, n);
    if n > 0 {
      MemoIsRowids(l, ops, n - 1, s);
      FeedPrefixOk(l, ops, n - 1);
      FeedKeepsOptions(l, ops[..n - 1]);
      assert ops[..n][..n - 1] == ops[..n - 1] && ops[..n][n - 1] == ops[n - 1];
      MemoStep(Feed(l, ops[..n - 1]).value, ops[n - 1]);
      MemoOneMore(l, ops, n, s, Feed(l, ops[..n - 1]).value.vertexIds, Feed(l, ops[..n]).value.vertexIds);
    }
  }

  /** One more call adds its own vertex to what the memo holds, and no more. */
  lemma MemoOneMore(l: Loader, ops: seq<Op>, n: nat, s: Text, was: map<Text, int>, ids: map<Text, int>)
    requires Closed(ops) && 0 < n <= |ops| && Feed(l, ops[..n - 1]).Ok?
    requires s in was <==> exists i, k :: IsVertex(ops, i, k) && i < n - 1 && Spelling(k) == s
    requires forall i, k | IsVertex(ops, i, k) && i < n - 1 && Spelling(k) == s ::
      PrefixFed(l, ops, i) && s in was && was[s] == RowidAt(l, ops, i)
    requires var op := ops[n - 1];
      ids == if op.AddV? && op.v.id.Some? then was[Spelling(op.v.id.value) := RowidAt(l, ops, n - 1)] else was
    ensures s in ids <==> exists i, k :: IsVertex(ops, i, k) && i < n && Spelling(k) == s
    ensures forall i, k | IsVertex(ops, i, k) && i < n && Spelling(k) == s ::
      PrefixFed(l, ops, i) && s in ids && ids[s] == RowidAt(l, ops, i)
  {
    hide Spelling, Closed, RowidAt, Feed;
    var op := ops[n - 1];
    if op.AddV? && op.v.id.Some? && Spelling(op.v.id.value) == s {
      var k := op.v.id.value;
      assert IsVertex(ops, n - 1, k);
      forall i, k' | IsVertex(ops, i, k') && i < n && Spelling(k') == s ensures i == n - 1 {
        SameSpelling(ops, i, n - 1, k', k);
      }
    } else {
      assert forall i, k | IsVertex(ops, i, k) && i < n && Spelling(k) == s :: i < n - 1;
    }
  }

  lemma MemoStep(l: Loader, op: Op)
    requires l.opts.onCollision.FailClosed? && Add(l, op).Ok?
    ensures Add(l, op).value.vertexIds ==
      if op.AddV? && op.v.id.Some? then
        l.vertexIds[Spelling(op.v.id.value) := IdOf(l.opts.idPolicy, op.v.id, l.nextNode).0]
      else l.vertexIds
  {
    hide PropRows, NextProp, FtsRows, LabelRows;
  }

  lemma SameSpelling(ops: seq<Op>, i: int, j: int, k: Key, k': Key)
    requires Closed(ops) && IsVertex(ops, i, k) && IsVertex(ops, j, k') && Spelling(k) == Spelling(k')
    ensures i == j
  {
    assert NamedIn(k, ops[i]) && NamedIn(k', ops[j]);
    assert Named(k, ops) && Named(k', ops);
  }

  ghost predicate PrefixFed(l: Loader, ops: seq<Op>, i: int) {
    0 <= i < |ops| && ops[i].AddV? && Feed(l, ops[..i]).Ok?
  }

  lemma {:induction false} FeedPrefixOk(l: Loader, ops: seq<Op>, n: nat)
    requires Feed(l, ops).Ok? && n <= |ops|
    ensures Feed(l, ops[..n]).Ok?
  {
    if n == |ops| {
      assert ops[..n] == ops;
    } else {
      assert ops[..|ops| - 1][..n] == ops[..n];
      FeedPrefixOk(l, ops[..|ops| - 1], n);
    }
  }

  /** The memo only grows, and never changes an answer. */
  lemma MemoGrows(l: Loader, ops: seq<Op>, n: nat, s: Text)
    requires l.opts.onCollision.FailClosed? && l.vertexIds == map[] && Closed(ops) && n <= |ops| && Feed(l, ops).Ok?
    requires Feed(l, ops[..n]).Ok? && s in Feed(l, ops[..n]).value.vertexIds
    ensures s in Feed(l, ops).value.vertexIds && Feed(l, ops).value.vertexIds[s] == Feed(l, ops[..n]).value.vertexIds[s]
  {
    MemoIsRowids(l, ops, n, s);
    MemoIsRowids(l, ops, |ops|, s);
    assert ops[..|ops|] == ops;
    var i, k :| IsVertex(ops, i, k) && i < n && Spelling(k) == s;
  }

  // ---------- edges ----------

  /** An edge carried over by a map of ids. */
  function Image(m: map<Text, int>, e: Edge, id: int, uid: Option<Text>): EdgeRow {
    var s, t := Spelling(e.src), Spelling(e.tgt);
    EdgeRow(id, uid, if s in m then m[s] else 0, e.name, if t in m then m[t] else 0)
  }

  /** The images of the batch's edges, in the order they were added, under the ids `edge()` gave them. */
  function Images(l: Loader, ops: seq<Op>, m: map<Text, int>): seq<EdgeRow>
    requires Feed(l, ops).Ok?
  {
    if ops == [] then []
    else
      var front, op := ops[..|ops| - 1], ops[|ops| - 1];
      var rest := Images(l, front, m);
      match op
      case AddV(_) => rest
      case AddE(e) =>
        var (id, uid) := IdOf(l.opts.idPolicy, e.id, Feed(l, front).value.nextEdge);
        rest + [Image(m, e, id, uid)]
  }

  function PendingImages(m: map<Text, int>, ps: seq<Pending>): seq<EdgeRow> {
    seq(|ps|, i requires 0 <= i < |ps| => Image(m, ps[i].edge, ps[i].id, ps[i].uid))
  }

  ghost predicate EdgesAreImages(l: Loader, l': Loader, ops: seq<Op>, m: map<Text, int>)
    requires Feed(l, ops).Ok?
  {
    multiset(l'.edgeRows) + multiset(PendingImages(m, l'.pending)) == multiset(Images(l, ops, m))
  }

  lemma PendingImagesAppend(m: map<Text, int>, ps: seq<Pending>, p: Pending)
    ensures PendingImages(m, ps + [p]) == PendingImages(m, ps) + [Image(m, p.edge, p.id, p.uid)]
  {
  }

  lemma EdgeStep(l1: Loader, e: Edge, m: map<Text, int>, images: seq<EdgeRow>)
    requires l1.opts.onCollision.FailClosed? && AddEdge(l1, e).Ok?
    requires forall s | s in l1.vertexIds :: s in m && m[s] == l1.vertexIds[s]
    requires multiset(l1.edgeRows) + multiset(PendingImages(m, l1.pending)) == multiset(images)
    ensures var l2 := AddEdge(l1, e).value; var (id, uid) := IdOf(l1.opts.idPolicy, e.id, l1.nextEdge);
      multiset(l2.edgeRows) + multiset(PendingImages(m, l2.pending)) == multiset(images + [Image(m, e, id, uid)])
  {
    hide PropRows, NextProp, FtsRows;
    var l2 := AddEdge(l1, e).value;
    var (id, uid) := IdOf(l1.opts.idPolicy, e.id, l1.nextEdge);
    var row := Image(m, e, id, uid);
    assert multiset(images + [row]) == multiset(images) + multiset{row};
    if Spelling(e.src) in l1.vertexIds && Spelling(e.tgt) in l1.vertexIds {
      assert l2.edgeRows == l1.edgeRows + [row] && l2.pending == l1.pending;
    } else {
      assert l2.edgeRows == l1.edgeRows && l2.pending == l1.pending + [Pending(e, id, uid)];
      PendingImagesAppend(m, l1.pending, Pending(e, id, uid));
    }
  }

  lemma {:induction false} BufferedEdgesAreImages(l: Loader, ops: seq<Op>, n: nat)
    requires l.opts.onCollision.FailClosed? && l.vertexIds == map[] && l.edgeRows == [] && l.pending == []
    requires Closed(ops) && n <= |ops| && Feed(l, ops).Ok?
    ensures Feed(l, ops[..n]).Ok?
    ensures EdgesAreImages(l, Feed(l, ops[..n]).value, ops[..n], Feed(l, ops).value.vertexIds)
  {
    hide PropRows, NextProp, FtsRows, LabelRows, AddEdge, Closed;
    FeedPrefixOk(l, ops, n);
    if n > 0 {
      BufferedEdgesAreImages(l, ops, n - 1);
      assert ops[..n][..n - 1] == ops[..n - 1];
      FeedKeepsOptions(l, ops[..n - 1]);
      var l1, m := Feed(l, ops[..n - 1]).value, Feed(l, ops).value.vertexIds;
      if ops[n - 1].AddE? {
        forall s | s in l1.vertexIds ensures s in m && m[s] == l1.vertexIds[s] { MemoGrows(l, ops, n - 1, s); }
        EdgeStep(l1, ops[n - 1].e, m, Images(l, ops[..n - 1], m));
      }
    }
  }

  ghost predicate EndsIn(m: map<Text, int>, ps: seq<Pending>) {
    forall p | p in ps :: Spelling(p.edge.src) in m && Spelling(p.edge.tgt) in m
  }

  /** At flush the deferred edges resolve through the map alone. */
  lemma {:induction false} DeferredAreImages(nodes: multiset<NodeRow>, m: map<Text, int>, ps: seq<Pending>)
    requires EndsIn(m, ps)
    ensures ResolvePending(nodes, m, ps) == Ok((PendingImages(m, ps), m))
  {
    if ps == [] {
      assert PendingImages(m, ps) == [];
    } else {
      var front, p := ps[..|ps| - 1], ps[|ps| - 1];
      assert ps == front + [p];
      DeferredAreImages(nodes, m, front);
      PendingImagesAppend(m, front, p);
      assert m[Spelling(p.edge.src) := m[Spelling(p.edge.src)]] == m;
      assert m[Spelling(p.edge.tgt) := m[Spelling(p.edge.tgt)]] == m;
    }
  }

  lemma {:induction false} DeferredEndsAreKnown(l: Loader, ops: seq<Op>, n: nat)
    requires l.opts.onCollision.FailClosed? && l.vertexIds == map[] && l.pending == []
    requires Closed(ops) && n <= |ops| && Feed(l, ops).Ok?
    ensures Feed(l, ops[..n]).Ok? && EndsIn(Feed(l, ops).value.vertexIds, Feed(l, ops[..n]).value.pending)
  {
    hide PropRows, NextProp, FtsRows, LabelRows;
    FeedPrefixOk(l, ops, n);
    if n > 0 {
      DeferredEndsAreKnown(l, ops, n - 1);
      assert ops[..n][..n - 1] == ops[..n - 1];
      FeedKeepsOptions(l, ops[..n - 1]);
      if ops[n - 1].AddE? {
        EndIsKnown(l, ops, n - 1, ops[n - 1].e.src);
        EndIsKnown(l, ops, n - 1, ops[n - 1].e.tgt);
      }
    }
  }

  lemma EndIsKnown(l: Loader, ops: seq<Op>, i: nat, k: Key)
    requires l.opts.onCollision.FailClosed? && l.vertexIds == map[] && Closed(ops) && Feed(l, ops).Ok?
    requires i < |ops| && ops[i].AddE? && NamedIn(k, ops[i])
    ensures Spelling(k) in Feed(l, ops).value.vertexIds
  {
    var j :| IsVertex(ops, j, k);
    assert ops[..|ops|] == ops;
    MemoIsRowids(l, ops, |ops|, Spelling(k));
  }

  // ---------- vertices ----------

  function RowIds(rows: seq<NodeRow>): seq<int> {
    seq(|rows|, i requires 0 <= i < |rows| => rows[i].id)
  }

  /** Each buffered vertex's own labels and properties are buffered under its rowid. */
  ghost predicate VerticesShown(l: Loader, vs: seq<Vertex>) {
    && |l.nodeRows| == |vs|
    && BuffersOnly(l, RowIds(l.nodeRows))
    && forall i | 0 <= i < |vs| :: BufferShows(l, l.nodeRows[i].id, vs[i])
  }

  lemma VertexStep(l1: Loader, v: Vertex, vs: seq<Vertex>)
    requires l1.opts.onCollision.FailClosed? && VerticesShown(l1, vs)
    requires Injective(RowIds(AddVertex(l1, v).nodeRows))
    ensures VerticesShown(AddVertex(l1, v), vs + [v])
  {
    hide BufferShows, BuffersOnly, BufferVertex;
    var (rowid, uid) := IdOf(l1.opts.idPolicy, v.id, l1.nextNode);
    var l0, l2 := l1.(nextNode := Bump(l1.nextNode, rowid)), AddVertex(l1, v);
    PushedRow(l1, v);
    var ids, ids1 := RowIds(l2.nodeRows), RowIds(l1.nodeRows);
    assert ids == ids1 + [rowid];
    forall i | 0 <= i < |ids1| ensures ids1[i] != rowid { assert ids[i] == ids1[i] && ids[|ids1|] == rowid; }
    StepBuffers(l1, l0, ids1, vs, rowid, uid, v, true);
  }

  lemma PushedRow(l: Loader, v: Vertex)
    requires l.opts.onCollision.FailClosed?
    ensures var (rowid, uid) := IdOf(l.opts.idPolicy, v.id, l.nextNode);
      AddVertex(l, v).nodeRows == l.nodeRows + [NodeRow(rowid, uid)]
  {
  }

  lemma {:induction false} FedVerticesShow(l: Loader, ops: seq<Op>)
    requires l.opts.onCollision.FailClosed? && l.nodeRows == [] && l.labelRows == [] && l.vprops == []
      && Feed(l, ops).Ok?
    requires Injective(RowIds(Feed(l, ops).value.nodeRows))
    ensures VerticesShown(Feed(l, ops).value, VerticesOf(ops))
  {
    hide VerticesShown, AddVertex, BufferEdge;
    if ops == [] {
      NothingShown(l);
    } else {
      var front, op := ops[..|ops| - 1], ops[|ops| - 1];
      FeedKeepsOptions(l, front);
      var l1, l2 := Feed(l, front).value, Feed(l, ops).value;
      match op
      case AddV(v) =>
        PushedRow(l1, v);
        assert l1.nodeRows <= l2.nodeRows;
        FewerRowsInjective(l1.nodeRows, l2.nodeRows);
        FedVerticesShow(l, front);
        VertexStep(l1, v, VerticesOf(front));
      case AddE(e) =>
        EdgeLeavesVertices(l1, e);
        FedVerticesShow(l, front);
        ShownStays(l1, l2, VerticesOf(front));
    }
  }

  lemma NothingShown(l: Loader)
    requires l.nodeRows == [] && l.labelRows == [] && l.vprops == []
    ensures VerticesShown(l, [])
  {
  }

  lemma FewerRowsInjective(a: seq<NodeRow>, b: seq<NodeRow>)
    requires a <= b && Injective(RowIds(b))
    ensures Injective(RowIds(a))
  {
    assert forall i | 0 <= i < |a| :: RowIds(a)[i] == RowIds(b)[i];
  }

  lemma EdgeLeavesVertices(l: Loader, e: Edge)
    requires l.opts.onCollision.FailClosed? && AddEdge(l, e).Ok?
    ensures var l' := AddEdge(l, e).value;
      l'.nodeRows == l.nodeRows && l'.labelRows == l.labelRows && l'.vprops == l.vprops
  {
    hide PropRows, NextProp, FtsRows;
  }

  lemma ShownStays(l: Loader, l': Loader, vs: seq<Vertex>)
    requires VerticesShown(l, vs) && l'.nodeRows == l.nodeRows && l'.labelRows == l.labelRows && l'.vprops == l.vprops
    ensures VerticesShown(l', vs)
  {
  }

  lemma LandedIdsDiffer(t: multiset<NodeRow>, rows: seq<NodeRow>)
    requires UniqueNodes(t + multiset(rows))
    ensures Injective(RowIds(rows)) && Apart(t, rows)
  {
    RowsAreDistinct(t, rows);
    UniqueRowsAreApart(t, rows);
    forall i, j | 0 <= i < j < |rows| ensures rows[i].id != rows[j].id {
      assert rows[i] != rows[j] && rows[i] in t + multiset(rows) && rows[j] in t + multiset(rows);
    }
  }

  /** The position of a vertex among the vertices, and its row there. */
  lemma {:induction false} RowOfVertex(l: Loader, ops: seq<Op>, i: nat) returns (at: nat)
    requires l.opts.onCollision.FailClosed? && l.nodeRows == [] && Feed(l, ops).Ok? && i < |ops| && ops[i].AddV?
    ensures var rows := Feed(l, ops).value.nodeRows;
      && at < |rows| == |VerticesOf(ops)| && VerticesOf(ops)[at] == ops[i].v
      && PrefixFed(l, ops, i) && rows[at].id == RowidAt(l, ops, i)
  {
    hide PropRows, NextProp, FtsRows, LabelRows;
    var n := |ops| - 1;
    RowsCount(l, ops);
    RowsCount(l, ops[..n]);
    FeedKeepsOptions(l, ops[..n]);
    if i < n {
      assert ops[..n][..i] == ops[..i];
      at := RowOfVertex(l, ops[..n], i);
    } else {
      at := |VerticesOf(ops[..n])|;
    }
  }

  lemma {:induction false} RowsCount(l: Loader, ops: seq<Op>)
    requires l.opts.onCollision.FailClosed? && l.nodeRows == [] && Feed(l, ops).Ok?
    ensures |Feed(l, ops).value.nodeRows| == |VerticesOf(ops)|
  {
    hide PropRows, NextProp, FtsRows, LabelRows;
    if ops != [] {
      RowsCount(l, ops[..|ops| - 1]);
      FeedKeepsOptions(l, ops[..|ops| - 1]);
    }
  }

  // ---------- edges' properties ----------

  function EdgeRowIds(rows: seq<EdgeRow>): seq<int> {
    seq(|rows|, i requires 0 <= i < |rows| => rows[i].id)
  }

  ghost predicate EdgesShown(l: Loader, es: seq<Edge>, ids: seq<int>) {
    EdgeShows(multiset(l.eprops), es, ids) && forall r | r in l.eprops :: r.owner in ids
  }

  lemma AddedEdgeIsBuffered(l: Loader, e: Edge)
    requires l.opts.onCollision.FailClosed? && AddEdge(l, e).Ok?
    ensures var (id, uid) := IdOf(l.opts.idPolicy, e.id, l.nextEdge);
      BufferEdge(l.(nextEdge := Bump(l.nextEdge, id)), id, uid, e) == AddEdge(l, e)
  {
    hide BufferEdge;
  }

  lemma {:induction false} FedEdgesShow(l: Loader, ops: seq<Op>, m: map<Text, int>)
    requires l.opts.onCollision.FailClosed? && l.eprops == [] && Feed(l, ops).Ok?
    requires Injective(EdgeRowIds(Images(l, ops, m)))
    ensures EdgesShown(Feed(l, ops).value, EdgesOf(ops), EdgeRowIds(Images(l, ops, m)))
  {
    hide BufferEdge, BufferVertex, EdgeShows, Image;
    if ops == [] {
      NoEdgesShown(l);
    } else {
      var front, op := ops[..|ops| - 1], ops[|ops| - 1];
      FeedKeepsOptions(l, front);
      var l1, l2 := Feed(l, front).value, Feed(l, ops).value;
      var ids1, ids := EdgeRowIds(Images(l, front, m)), EdgeRowIds(Images(l, ops, m));
      match op
      case AddV(v) =>
        VertexLeavesEdges(l1, v);
        FedEdgesShow(l, front, m);
      case AddE(e) =>
        var (id, uid) := IdOf(l.opts.idPolicy, e.id, l1.nextEdge);
        ImageId(m, e, id, uid);
        assert ids == ids1 + [id];
        forall i | 0 <= i < |ids1| ensures ids1[i] != id { assert ids[i] == ids1[i] && ids[|ids1|] == id; }
        assert forall i | 0 <= i < |ids1| :: ids[i] == ids1[i];
        FedEdgesShow(l, front, m);
        AddedEdgeIsBuffered(l1, e);
        EdgePropsAdded(l1, e, id, ids1, EdgesOf(front), l2);
    }
  }

  lemma NoEdgesShown(l: Loader)
    requires l.eprops == []
    ensures EdgesShown(l, [], [])
  {
  }

  lemma ImageId(m: map<Text, int>, e: Edge, id: int, uid: Option<Text>)
    ensures Image(m, e, id, uid).id == id
  {
  }

  lemma VertexLeavesEdges(l: Loader, v: Vertex)
    requires l.opts.onCollision.FailClosed?
    ensures AddVertex(l, v).eprops == l.eprops
  {
  }

  lemma LandedEdgeIdsDiffer(t: multiset<EdgeRow>, rows: seq<EdgeRow>)
    requires UniqueEdges(t + multiset(rows))
    ensures Injective(EdgeRowIds(rows)) && forall r, r' | r in t && r' in rows :: r.id != r'.id
  {
    RowsAreDistinct(t, rows);
    NewEdgesDoNotClash(t, rows);
    forall i, j | 0 <= i < j < |rows| ensures rows[i].id != rows[j].id {
      assert rows[i] != rows[j] && rows[i] in t + multiset(rows) && rows[j] in t + multiset(rows);
    }
  }

  /** Each image carries exactly its edge's properties. */
  lemma EdgesAreCopied(db: Tables, db': Tables, l0: Loader, ops: seq<Op>, m: map<Text, int>)
    requires References(db) && l0.opts.onCollision.FailClosed? && l0.eprops == [] && Feed(l0, ops).Ok?
    requires db'.edges == db.edges + multiset(Images(l0, ops, m)) && UniqueEdges(db'.edges)
    requires db'.eprops == db.eprops + multiset(Feed(l0, ops).value.eprops)
    ensures EdgeShows(db'.eprops, EdgesOf(ops), EdgeRowIds(Images(l0, ops, m)))
  {
    hide Images, EdgeShows, Feed;
    var rows := Images(l0, ops, m);
    var ids := EdgeRowIds(rows);
    LandedEdgeIdsDiffer(db.edges, rows);
    FedEdgesShow(l0, ops, m);
    forall p | p in db.eprops ensures p.owner !in ids {
      var e :| e in db.edges && e.id == p.owner;
      forall i | 0 <= i < |ids| ensures ids[i] != p.owner { assert rows[i] in rows; }
    }
    ShownAfterLanding(db.eprops, Feed(l0, ops).value.eprops, EdgesOf(ops), ids);
  }

  // ---------- the theorem ----------

  /** What a policy makes of a source id: `preserve` keeps a number as the rowid and a string as the uid, `remap`
      keeps either as the uid, `renumber` keeps neither. */
  predicate TakesId(policy: IdPolicy, id: Option<Key>, rowid: int, uid: Option<Text>) {
    match policy
    case Renumber => uid == None
    case Remap =>
      (match id
       case None => uid == None
       case Some(Num(n)) => uid == Some(Decimal(n))
       case Some(Str(s)) => uid == Some(WellFormed(s)))
    case Preserve =>
      && (id.Some? && id.value.Num? ==> rowid == id.value.n)
      && uid == if id.Some? && id.value.Str? then Some(WellFormed(id.value.s)) else None
  }

  lemma IdOfTakes(policy: IdPolicy, id: Option<Key>, next: int)
    ensures TakesId(policy, id, IdOf(policy, id, next).0, IdOf(policy, id, next).1)
  {
    if id.Some? && id.value.Num? { DecimalIsWellFormed(id.value.n); }
  }

  /** The landed copy of vertex `v`: a new node under the rowid and uid its policy gives it, carrying exactly `v`'s
      labels and properties. */
  ghost predicate Copied(db: Tables, db': Tables, policy: IdPolicy, id: int, v: Vertex) {
    && (exists r :: r in db'.nodes && r.id == id && TakesId(policy, v.id, id, r.uid)) && !HasNode(db.nodes, id)
    && HoldsLabels(db'.labels, id, v.labels) && Carries(db'.vprops, id, v.props)
  }

  lemma NewVertexIsCopied(db: Tables, db': Tables, l: Loader, id: int, v: Vertex)
    requires References(db) && !HasNode(db.nodes, id) && BufferShows(l, id, v)
    requires db'.labels == db.labels + multiset(l.labelRows) && db'.vprops == db.vprops + multiset(l.vprops)
    ensures HoldsLabels(db'.labels, id, v.labels) && Carries(db'.vprops, id, v.props)
  {
    hide PropRows, LabelRows;
    LabelsKept(multiset(l.labelRows), db.labels, id, v.labels);
    PropsKept(multiset(l.vprops), db.vprops, id, v.props);
  }

  lemma LandedTables(db: Tables, l: Loader)
    requires l.opts.onCollision.FailClosed? && EndsIn(l.vertexIds, l.pending) && LandBatch(db, l).Ok?
    ensures var db' := LandBatch(db, l).value.0;
      && db'.nodes == db.nodes + multiset(l.nodeRows) && UniqueNodes(db'.nodes)
      && db'.labels == db.labels + multiset(l.labelRows) && db'.vprops == db.vprops + multiset(l.vprops)
      && db'.edges == db.edges + (multiset(l.edgeRows) + multiset(PendingImages(l.vertexIds, l.pending)))
         && UniqueEdges(db'.edges)
      && db'.eprops == db.eprops + multiset(l.eprops)
  {
    hide EndsIn, PendingImages, ResolvePending;
    DeferredAreImages(db.nodes + multiset(l.nodeRows), l.vertexIds, l.pending);
    var rows := PendingImages(l.vertexIds, l.pending);
    assert multiset(l.edgeRows + rows) == multiset(l.edgeRows) + multiset(rows);
  }

  /** Each buffered node row has the uid its vertex's id gives it, and the number if it keeps one. */
  lemma {:induction false} RowsAreTheirs(l: Loader, ops: seq<Op>)
    requires l.opts.onCollision.FailClosed? && l.nodeRows == [] && Feed(l, ops).Ok?
    ensures |Feed(l, ops).value.nodeRows| == |VerticesOf(ops)|
    ensures forall j | 0 <= j < |VerticesOf(ops)| ::
      IsRowOf(l.opts.idPolicy, Feed(l, ops).value.nodeRows[j], VerticesOf(ops)[j])
  {
    hide PropRows, NextProp, FtsRows, LabelRows, IdOf, TakesId;
    if ops != [] {
      var front, op := ops[..|ops| - 1], ops[|ops| - 1];
      RowsAreTheirs(l, front);
      FeedKeepsOptions(l, front);
      match op
      case AddV(v) =>
        PushedRow(Feed(l, front).value, v);
        IdOfTakes(l.opts.idPolicy, v.id, Feed(l, front).value.nextNode);
      case AddE(e) => EdgeLeavesVertices(Feed(l, front).value, e);
    }
  }

  predicate IsRowOf(policy: IdPolicy, r: NodeRow, v: Vertex) { TakesId(policy, v.id, r.id, r.uid) }

  /** The copy of edge `e`: between the copies of its ends, under its name and the rowid and uid its policy gives it. */
  predicate IsImageOf(policy: IdPolicy, m: map<Text, int>, r: EdgeRow, e: Edge) {
    && Spelling(e.src) in m && r.src == m[Spelling(e.src)]
    && Spelling(e.tgt) in m && r.tgt == m[Spelling(e.tgt)]
    && r.name == e.name && TakesId(policy, e.id, r.id, r.uid)
  }

  predicate AreImagesOf(policy: IdPolicy, m: map<Text, int>, rows: seq<EdgeRow>, es: seq<Edge>) {
    |rows| == |es| && forall j | 0 <= j < |es| :: IsImageOf(policy, m, rows[j], es[j])
  }

  lemma {:induction false} ImagesAreTheirs(l: Loader, ops: seq<Op>, m: map<Text, int>)
    requires l.opts.onCollision.FailClosed? && Feed(l, ops).Ok?
    requires forall i | 0 <= i < |ops| && ops[i].AddE? :: Spelling(ops[i].e.src) in m && Spelling(ops[i].e.tgt) in m
    ensures AreImagesOf(l.opts.idPolicy, m, Images(l, ops, m), EdgesOf(ops))
  {
    hide AddVertex, AddEdge, IdOf, TakesId;
    if ops != [] {
      var front, op := ops[..|ops| - 1], ops[|ops| - 1];
      assert forall i | 0 <= i < |front| :: front[i] == ops[i];
      ImagesAreTheirs(l, front, m);
      if op.AddE? { IdOfTakes(l.opts.idPolicy, op.e.id, Feed(l, front).value.nextEdge); }
    }
  }

  /** Every vertex call, with an id or without, is copied under its own row. */
  lemma VertexCallsCopied(db: Tables, l0: Loader, ops: seq<Op>)
    requires References(db) && l0.opts.onCollision.FailClosed? && l0.nodeRows == [] && Feed(l0, ops).Ok?
    requires var l := Feed(l0, ops).value;
      LandBatch(db, l).Ok? && EndsIn(l.vertexIds, l.pending) && VerticesShown(l, VerticesOf(ops))
        && Apart(db.nodes, l.nodeRows)
    ensures var l := Feed(l0, ops).value;
      CopiedEach(db, LandBatch(db, l).value.0, l0.opts.idPolicy, l.nodeRows, VerticesOf(ops))
  {
    hide PropRows, NextProp, FtsRows, LabelRows, LandBatch, PendingImages, EndsIn, References, BufferShows,
         BuffersOnly, UniqueNodes, UniqueEdges, HoldsLabels, Carries, Feed, VerticesOf;
    var l := Feed(l0, ops).value;
    FeedKeepsOptions(l0, ops);
    RowsAreTheirs(l0, ops);
    LandedTables(db, l);
    var db' := LandBatch(db, l).value.0;
    forall j | 0 <= j < |l.nodeRows| ensures Copied(db, db', l0.opts.idPolicy, l.nodeRows[j].id, VerticesOf(ops)[j]) {
      assert l.nodeRows[j] in l.nodeRows && l.nodeRows[j] in db'.nodes;
      NewVertexIsCopied(db, db', l, l.nodeRows[j].id, VerticesOf(ops)[j]);
    }
  }

  ghost predicate CopiedEach(db: Tables, db': Tables, policy: IdPolicy, rows: seq<NodeRow>, vs: seq<Vertex>) {
    |rows| == |vs| && forall j | 0 <= j < |vs| :: Copied(db, db', policy, rows[j].id, vs[j])
  }

  /** EVERY POLICY LANDS A COPY. For vertices and edges in any order, a successful flush lands each vertex once under
      a new rowid of its own with its labels and properties; it maps the batch's ids one to one to those rowids; the
      new edges are exactly the images of the batch's edges, once each, whether resolved eagerly or deferred, with
      their own properties. */
  lemma FlushLandsACopy(db: Tables, policy: IdPolicy, journal: Option<Text>, ops: seq<Op>)
    requires References(db) && Closed(ops)
    requires Feed(Fresh(db, Options(policy, FailClosed), journal), ops).Ok?
    requires LandBatch(db, Feed(Fresh(db, Options(policy, FailClosed), journal), ops).value).Ok?
    ensures var l0 := Fresh(db, Options(policy, FailClosed), journal); var l := Feed(l0, ops).value;
      var m := l.vertexIds; var db' := LandBatch(db, l).value.0;
      && (forall s, t | s in m && t in m && s != t :: m[s] != m[t])
      && (forall i, k | IsVertex(ops, i, k) :: Spelling(k) in m && Copied(db, db', policy, m[Spelling(k)], ops[i].v))
      && |db'.nodes| == |db.nodes| + |VerticesOf(ops)|
      && CopiedEach(db, db', policy, l.nodeRows, VerticesOf(ops)) && Injective(RowIds(l.nodeRows))
      && db'.edges == db.edges + multiset(Images(l0, ops, m))
      && AreImagesOf(policy, m, Images(l0, ops, m), EdgesOf(ops))
      && EdgeShows(db'.eprops, EdgesOf(ops), EdgeRowIds(Images(l0, ops, m)))
  {
    hide PropRows, NextProp, FtsRows, LabelRows, VerticesShown, Copied, LandBatch, Images, PendingImages,
         EdgesAreImages, EndsIn, References, EdgeShows, UniqueNodes, UniqueEdges, MaxOr0, Closed;
    var l0 := Fresh(db, Options(policy, FailClosed), journal);
    var l := Feed(l0, ops).value;
    var m, db' := l.vertexIds, LandBatch(db, l).value.0;
    assert ops[..|ops|] == ops;
    FeedKeepsOptions(l0, ops);
    DeferredEndsAreKnown(l0, ops, |ops|);
    LandedTables(db, l);
    BufferedEdgesAreImages(l0, ops, |ops|);
    ImagesAre(l0, ops, l, m);
    forall i | 0 <= i < |ops| && ops[i].AddE? ensures Spelling(ops[i].e.src) in m && Spelling(ops[i].e.tgt) in m {
      EndIsKnown(l0, ops, i, ops[i].e.src);
      EndIsKnown(l0, ops, i, ops[i].e.tgt);
    }
    ImagesAreTheirs(l0, ops, m);
    EdgesAreCopied(db, db', l0, ops, m);
    LandedIdsDiffer(db.nodes, l.nodeRows);
    FedVerticesShow(l0, ops);
    RowsCount(l0, ops);
    VertexCallsCopied(db, l0, ops);
    forall i, k | IsVertex(ops, i, k) ensures Spelling(k) in m && Copied(db, db', policy, m[Spelling(k)], ops[i].v) {
      VertexCopied(db, l0, ops, i, k);
    }
    forall s, t | s in m && t in m && s != t ensures m[s] != m[t] { ImagesDiffer(l0, ops, s, t); }
  }

  lemma ImagesAre(l0: Loader, ops: seq<Op>, l: Loader, m: map<Text, int>)
    requires Feed(l0, ops).Ok? && EdgesAreImages(l0, l, ops, m)
    ensures multiset(l.edgeRows) + multiset(PendingImages(m, l.pending)) == multiset(Images(l0, ops, m))
  {
  }

  lemma VertexCopied(db: Tables, l0: Loader, ops: seq<Op>, i: nat, k: Key)
    requires References(db) && Closed(ops) && Feed(l0, ops).Ok? && IsVertex(ops, i, k)
    requires l0.opts.onCollision.FailClosed? && l0.vertexIds == map[] && l0.nodeRows == []
    requires var l := Feed(l0, ops).value;
      LandBatch(db, l).Ok? && EndsIn(l.vertexIds, l.pending) && VerticesShown(l, VerticesOf(ops))
        && Apart(db.nodes, l.nodeRows)
    ensures var l := Feed(l0, ops).value; var db' := LandBatch(db, l).value.0;
      Spelling(k) in l.vertexIds && Copied(db, db', l0.opts.idPolicy, l.vertexIds[Spelling(k)], ops[i].v)
  {
    hide PropRows, NextProp, FtsRows, LabelRows, LandBatch, PendingImages, EndsIn, References, Closed, BufferShows,
         BuffersOnly, UniqueNodes, UniqueEdges, HoldsLabels, Carries;
    var l := Feed(l0, ops).value;
    assert ops[..|ops|] == ops;
    FeedKeepsOptions(l0, ops);
    MemoIsRowids(l0, ops, |ops|, Spelling(k));
    var at := RowOfVertex(l0, ops, i);
    RowsAreTheirs(l0, ops);
    LandedTables(db, l);
    assert l.nodeRows[at] in l.nodeRows && l.nodeRows[at] in LandBatch(db, l).value.0.nodes;
    assert IsRowOf(l0.opts.idPolicy, l.nodeRows[at], VerticesOf(ops)[at]);
    NewVertexIsCopied(db, LandBatch(db, l).value.0, l, l.nodeRows[at].id, ops[i].v);
  }

  lemma ImagesDiffer(l0: Loader, ops: seq<Op>, s: Text, t: Text)
    requires l0.opts.onCollision.FailClosed? && l0.vertexIds == map[] && l0.nodeRows == [] && Closed(ops)
      && Feed(l0, ops).Ok?
    requires Injective(RowIds(Feed(l0, ops).value.nodeRows))
    requires s in Feed(l0, ops).value.vertexIds && t in Feed(l0, ops).value.vertexIds && s != t
    ensures Feed(l0, ops).value.vertexIds[s] != Feed(l0, ops).value.vertexIds[t]
  {
    hide PropRows, NextProp, FtsRows, LabelRows, Closed, IdOf, Feed, VerticesOf;
    var l := Feed(l0, ops).value;
    assert ops[..|ops|] == ops;
    MemoIsRowids(l0, ops, |ops|, s);
    MemoIsRowids(l0, ops, |ops|, t);
    var i, k :| IsVertex(ops, i, k) && Spelling(k) == s;
    var j, k' :| IsVertex(ops, j, k') && Spelling(k') == t;
    var at := RowOfVertex(l0, ops, i);
    var at' := RowOfVertex(l0, ops, j);
    assert RowIds(l.nodeRows)[at] == l.nodeRows[at].id && RowIds(l.nodeRows)[at'] == l.nodeRows[at'].id;
    assert VerticesOf(ops)[at] != VerticesOf(ops)[at'];
  }
}
