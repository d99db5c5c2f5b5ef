/** Importing a document again never fails (src/bulk.ts `resolveReplace`, `landBatch`): every key the first import
    satisfied, the second one does too. */
module SecondImport {
  import opened Utf16
  import opened Graph
  import opened Dedupe
  import opened Loader
  import opened Cursors
  import opened FullText
  import opened Consistency
  import opened Batching
  import opened BatchingProof
  import opened BatchingTheorem
  import opened ReplaceBatch
  import opened Reimport

  // ---------- property rows of two runs ----------

  /** The rows of one definition buffered twice: an id the source gave comes out the same, one minted the second
      time lies at or past `next`, and the minted ones rise. */
  ghost predicate Refreshed(a: seq<PropRow>, b: seq<PropRow>, next: int) {
    && |a| == |b|
    && (forall i | 0 <= i < |a| :: b[i].key == a[i].key && (b[i].id >= next || b[i].id == a[i].id))
    && forall i, j | 0 <= i < j < |b| && b[i].id >= next && b[j].id >= next :: b[i].id < b[j].id
  }

  ghost predicate Below(rows: seq<PropRow>, next: int) { forall i | 0 <= i < |rows| :: rows[i].id < next }

  lemma {:induction false} RowsRefresh(owner: int, owner': int, props: seq<Property>, c: int, c': int, next: int)
    requires next <= c' && Below(PropRows(owner, props, c), next)
    ensures Refreshed(PropRows(owner, props, c), PropRows(owner', props, c'), next)
    ensures c' <= NextProp(props, c') && Below(PropRows(owner', props, c'), NextProp(props, c'))
    ensures forall i | 0 <= i < |PropRows(owner', props, c')| && PropRows(owner', props, c')[i].id >= next ::
      PropRows(owner', props, c')[i].id >= c'
  {
    if props != [] {
      var n := |props| - 1;
      var a, b := PropRows(owner, props, c), PropRows(owner', props, c');
      var a1, b1 := PropRows(owner, props[..n], c), PropRows(owner', props[..n], c');
      assert a1 == a[..|a| - 1] && b1 == b[..|b| - 1];
      assert forall i | 0 <= i < |a1| :: a1[i] == a[i];
      RowsRefresh(owner, owner', props[..n], c, c', next);
      RefreshOneMore(a1, b1, a[|a1|], b[|b1|], next, NextProp(props[..n], c'));
    }
  }

  lemma RefreshOneMore(a: seq<PropRow>, b: seq<PropRow>, x: PropRow, y: PropRow, next: int, c: int)
    requires Refreshed(a, b, next) && Below(b, c) && next <= c
    requires y.key == x.key && (y.id == x.id < next || y.id >= c)
    ensures Refreshed(a + [x], b + [y], next)
  {
  }

  lemma RefreshAppends(a: seq<PropRow>, b: seq<PropRow>, x: seq<PropRow>, y: seq<PropRow>, next: int, c: int)
    requires Refreshed(a, b, next) && Below(b, c) && Refreshed(x, y, next)
    requires forall i | 0 <= i < |y| && y[i].id >= next :: y[i].id >= c
    ensures Refreshed(a + x, b + y, next)
  {
  }

  /** What was distinct stays distinct. */
  lemma RefreshedDiffer(a: seq<PropRow>, b: seq<PropRow>, next: int)
    requires Refreshed(a, b, next) && Below(a, next)
    requires forall i, j | 0 <= i < j < |a| :: a[i].id != a[j].id
    ensures forall i, j | 0 <= i < j < |b| :: b[i].id != b[j].id
  {
    forall i, j | 0 <= i < j < |b| ensures b[i].id != b[j].id { assert a[i].id != a[j].id; }
  }

  // ---------- the index rows of a replace run ----------

  lemma {:induction false} FtsRowsAppend(kind: Kind, a: seq<PropRow>, b: seq<PropRow>)
    ensures FtsRows(kind, a + b) == FtsRows(kind, a) + FtsRows(kind, b)
  {
    if b == [] {
      assert a + b == a;
    } else {
      FtsRowsAppend(kind, a, b[..|b| - 1]);
      assert (a + b)[..|a + b| - 1] == a + b[..|b| - 1];
    }
  }

  lemma {:induction false} FtsRowsDiffer(kind: Kind, rows: seq<PropRow>)
    requires forall i, j | 0 <= i < j < |rows| :: rows[i].id != rows[j].id
    ensures forall i, j | 0 <= i < j < |FtsRows(kind, rows)| :: FtsRows(kind, rows)[i] != FtsRows(kind, rows)[j]
    ensures forall r | r in FtsRows(kind, rows) :: r.elem == kind && exists p :: p in rows && p.id == r.pid
  {
    if rows != [] {
      var n := |rows| - 1;
      FtsRowsDiffer(kind, rows[..n]);
      forall r | r in FtsRows(kind, rows[..n]) ensures r.pid != rows[n].id && exists p :: p in rows && p.id == r.pid {
        var p :| p in rows[..n] && p.id == r.pid;
        assert p in rows;
      }
      assert rows[n] in rows;
    }
  }

  // ---------- the vertex pass, twice ----------

  /** Two runs of the vertex pass over the same targets. */
  ghost predicate VertexTwins(l: Loader, l': Loader, next: int) {
    && l.labelRows == l'.labelRows && Refreshed(l.vprops, l'.vprops, next)
    && next <= l'.nextVProp && Below(l'.vprops, l'.nextVProp) && l'.fts == FtsRows(NodeKind, l'.vprops)
  }

  lemma BufferedVertex(l: Loader, t: int, uid: Option<Text>, v: Vertex, push: bool)
    ensures var l' := BufferVertex(l, t, uid, v, push); var rows := PropRows(t, v.props, l.nextVProp);
      && l'.labelRows == l.labelRows + LabelRows(t, v.labels) && l'.vprops == l.vprops + rows
      && l'.nextVProp == NextProp(v.props, l.nextVProp) && l'.fts == l.fts + FtsRows(NodeKind, rows)
  {
  }

  lemma TwinVertex(l: Loader, l': Loader, m: Loader, m': Loader, t: int, uid: Option<Text>, v: Vertex, push: bool,
      push': bool, next: int)
    requires VertexTwins(l, l', next)
    requires m.labelRows == l.labelRows && m.vprops == l.vprops && m.nextVProp == l.nextVProp
    requires m'.labelRows == l'.labelRows && m'.vprops == l'.vprops && m'.nextVProp == l'.nextVProp && m'.fts == l'.fts
    requires Below(BufferVertex(m, t, uid, v, push).vprops, next)
    ensures VertexTwins(BufferVertex(m, t, uid, v, push), BufferVertex(m', t, uid, v, push'), next)
  {
    BufferedVertex(m, t, uid, v, push);
    BufferedVertex(m', t, uid, v, push');
    hide BufferVertex, PropRows, NextProp, FtsRows, LabelRows;
    var x, y := PropRows(t, v.props, l.nextVProp), PropRows(t, v.props, l'.nextVProp);
    assert Below(x, next) by { assert forall i | 0 <= i < |x| :: x[i] == (l.vprops + x)[|l.vprops| + i]; }
    RowsRefresh(t, t, v.props, l.nextVProp, l'.nextVProp, next);
    RefreshAppends(l.vprops, l'.vprops, x, y, next, l'.nextVProp);
    FtsRowsAppend(NodeKind, l'.vprops, y);
  }

  lemma {:induction false} VertexRunsTwin(a: multiset<NodeRow>, l: Loader, b: multiset<NodeRow>, l': Loader,
      vs: seq<Vertex>, next: int)
    requires UniqueNodes(a) && UniqueNodes(b) && Keyed(vs) && VertexTwins(l, l', next)
    requires Targets(a, KeysOf(vs), l.nextNode) == Targets(b, KeysOf(vs), l'.nextNode)
    requires Below(ReplaceVertices(a, l, vs).0.vprops, next)
    ensures VertexTwins(ReplaceVertices(a, l, vs).0, ReplaceVertices(b, l', vs).0, next)
  {
    hide UniqueNodes, ReplaceVertex, TargetOf, VertexTwins;
    if vs != [] {
      var n := |vs| - 1;
      var keys := KeysOf(vs);
      assert KeysOf(vs[..n]) == keys[..n];
      TargetsAreAsMany(a, keys[..n], l.nextNode);
      TargetsAreAsMany(b, keys[..n], l'.nextNode);
      var ts, ts' := Targets(a, keys, l.nextNode), Targets(b, keys, l'.nextNode);
      assert ts[..n] == Targets(a, keys[..n], l.nextNode) && ts'[..n] == Targets(b, keys[..n], l'.nextNode);
      ReplaceNodes(a, l, vs[..n]);
      ReplaceNodes(b, l', vs[..n]);
      var l1, l1' := ReplaceVertices(a, l, vs[..n]).0, ReplaceVertices(b, l', vs[..n]).0;
      ReplaceVertexIs(a, l1, vs[n]);
      ReplaceVertexIs(b, l1', vs[n]);
      var m, m' := Advanced(a, l1, keys[n]), Advanced(b, l1', keys[n]);
      BufferedVertex(m, ts[n], UidOf(keys[n]), vs[n], Lookup(a, keys[n]).None?);
      BelowFront(l1.vprops, ReplaceVertices(a, l, vs).0.vprops, next);
      VertexRunsTwin(a, l, b, l', vs[..n], next);
      TwinVertex(l1, l1', m, m', ts[n], UidOf(keys[n]), vs[n], Lookup(a, keys[n]).None?, Lookup(b, keys[n]).None?,
        next);
    }
  }

  lemma BelowFront(a: seq<PropRow>, b: seq<PropRow>, next: int)
    requires a <= b && Below(b, next)
    ensures Below(a, next)
  {
  }

  // ---------- the edge pass, twice ----------

  /** Matching rows belong to the same edge of the batch. */
  ghost predicate OwnersTwin(a: seq<PropRow>, b: seq<PropRow>, ids: seq<int>, ids': seq<int>) {
    |a| == |b| && |ids| == |ids'| && forall i | 0 <= i < |a| :: OwnedBy(ids, ids', a[i].owner, b[i].owner)
  }

  ghost predicate OwnedBy(ids: seq<int>, ids': seq<int>, o: int, o': int) {
    exists j :: 0 <= j < |ids| == |ids'| && o == ids[j] && o' == ids'[j]
  }

  /** `b` is `a` refreshed for the matching edges, with its cursor `c` and the index rows `f` so far. */
  ghost predicate PropTwins(a: seq<PropRow>, b: seq<PropRow>, c: int, f: seq<FtsRow>,
                            ids: seq<int>, ids': seq<int>, fts: seq<FtsRow>, next: int) {
    && Refreshed(a, b, next) && OwnersTwin(a, b, ids, ids')
    && next <= c && Below(b, c) && f == fts + FtsRows(EdgeKind, b)
  }

  ghost predicate EdgeTwins(l: Loader, l': Loader, ids: seq<int>, ids': seq<int>, fts: seq<FtsRow>, next: int) {
    PropTwins(l.eprops, l'.eprops, l'.nextEProp, l'.fts, ids, ids', fts, next)
  }

  lemma BufferedEdgeRows(l: Loader, next: int, id: int, uid: Option<Text>, e: Edge)
    requires BufferEdge(l.(nextEdge := next), id, uid, e).Ok?
    ensures var l' := BufferEdge(l.(nextEdge := next), id, uid, e).value;
      var rows := PropRows(id, e.props, l.nextEProp);
      && l'.eprops == l.eprops + rows && l'.nextEProp == NextProp(e.props, l.nextEProp)
      && l'.fts == l.fts + FtsRows(EdgeKind, rows)
  {
    hide PropRows, NextProp, FtsRows;
  }

  lemma OwnersAppend(a: seq<PropRow>, b: seq<PropRow>, x: seq<PropRow>, y: seq<PropRow>, ids: seq<int>, ids': seq<int>,
      o: int, o': int)
    requires OwnersTwin(a, b, ids, ids') && |x| == |y|
    requires (forall r | r in x :: r.owner == o) && forall r | r in y :: r.owner == o'
    ensures OwnersTwin(a + x, b + y, ids + [o], ids' + [o'])
  {
    assert OwnedBy(ids + [o], ids' + [o'], o, o') by { assert (ids + [o])[|ids|] == o && (ids' + [o'])[|ids|] == o'; }
    forall i | 0 <= i < |a| ensures OwnedBy(ids + [o], ids' + [o'], a[i].owner, b[i].owner) {
      var j :| 0 <= j < |ids| && a[i].owner == ids[j] && b[i].owner == ids'[j];
      assert (ids + [o])[j] == ids[j] && (ids' + [o'])[j] == ids'[j];
    }
    forall i | |a| <= i < |a + x| ensures (a + x)[i].owner == o && (b + y)[i].owner == o' {
      assert (a + x)[i] == x[i - |a|] && (b + y)[i] == y[i - |a|];
    }
  }

  lemma OneMoreEdgeTwin(l: Loader, l': Loader, ids: seq<int>, ids': seq<int>, fts: seq<FtsRow>, next: int,
                        m: int, m': int, id: int, id': int, e: Edge)
    requires EdgeTwins(l, l', ids, ids', fts, next)
    requires BufferEdge(l.(nextEdge := m), id, EdgeUid(e), e).Ok?
      && BufferEdge(l'.(nextEdge := m'), id', EdgeUid(e), e).Ok?
    requires Below(BufferEdge(l.(nextEdge := m), id, EdgeUid(e), e).value.eprops, next)
    ensures EdgeTwins(BufferEdge(l.(nextEdge := m), id, EdgeUid(e), e).value,
                      BufferEdge(l'.(nextEdge := m'), id', EdgeUid(e), e).value, ids + [id], ids' + [id'], fts, next)
  {
    BufferedEdgeRows(l, m, id, EdgeUid(e), e);
    BufferedEdgeRows(l', m', id', EdgeUid(e), e);
    hide BufferEdge, PropRows, NextProp, FtsRows, PropTwins, Below;
    EdgeRowsTwin(l.eprops, l'.eprops, l'.nextEProp, l'.fts, ids, ids', fts, next, id, id', e.props, l.nextEProp);
  }

  lemma EdgeRowsTwin(a: seq<PropRow>, b: seq<PropRow>, c': int, f: seq<FtsRow>, ids: seq<int>, ids': seq<int>,
                     fts: seq<FtsRow>, next: int, id: int, id': int, props: seq<Property>, c: int)
    requires PropTwins(a, b, c', f, ids, ids', fts, next) && Below(a + PropRows(id, props, c), next)
    ensures var x, y := PropRows(id, props, c), PropRows(id', props, c');
      PropTwins(a + x, b + y, NextProp(props, c'), f + FtsRows(EdgeKind, y), ids + [id], ids' + [id'], fts, next)
  {
    var x, y := PropRows(id, props, c), PropRows(id', props, c');
    PropRowsShape(id, props, c);
    PropRowsShape(id', props, c');
    hide PropRows, NextProp, FtsRows;
    assert Below(x, next) by { assert forall i | 0 <= i < |x| :: x[i] == (a + x)[|a| + i]; }
    RowsRefresh(id, id', props, c, c', next);
    BelowBoth(b, y, c', NextProp(props, c'));
    hide Below;
    RefreshAppends(a, b, x, y, next, c');
    OwnersAppend(a, b, x, y, ids, ids', id, id');
    FtsRowsAppend(EdgeKind, b, y);
    assert (fts + FtsRows(EdgeKind, b)) + FtsRows(EdgeKind, y) == fts + (FtsRows(EdgeKind, b) + FtsRows(EdgeKind, y));
  }

  lemma BelowBoth(a: seq<PropRow>, b: seq<PropRow>, c: int, c': int)
    requires Below(a, c) && c <= c' && Below(b, c')
    ensures Below(a + b, c')
  {
  }

  lemma {:induction false} EdgeRunsTwin(edges: multiset<EdgeRow>, l: Loader, edges': multiset<EdgeRow>, l': Loader,
      es: seq<Edge>, next: int)
    requires KeyedEdges(es) && ReplaceEdges(edges, l, es).Ok? && ReplaceEdges(edges', l', es).Ok?
    requires l.eprops == [] && l'.eprops == [] && next <= l'.nextEProp
    requires Below(ReplaceEdges(edges, l, es).value.0.eprops, next)
    ensures EdgeTwins(ReplaceEdges(edges, l, es).value.0, ReplaceEdges(edges', l', es).value.0,
                      EdgeRowids(es, l.nextEdge), EdgeRowids(es, l'.nextEdge), l'.fts, next)
  {
    hide BufferEdge, ReplaceEdge, EdgeTwins;
    if es == [] {
      NoEdgesTwin(l, l', next);
    } else {
      var front, e := es[..|es| - 1], es[|es| - 1];
      assert (forall x | x in front :: x in es) && e in es;
      RunCursor(edges, l, front);
      RunCursor(edges', l', front);
      var l1, l1' := ReplaceEdges(edges, l, front).value.0, ReplaceEdges(edges', l', front).value.0;
      ReplaceEdgeIs(edges, l1, e);
      ReplaceEdgeIs(edges', l1', e);
      var id, id' := EdgeRowid(e, l1.nextEdge), EdgeRowid(e, l1'.nextEdge);
      BufferedEdgeRows(l1, Bump(l1.nextEdge, id), id, EdgeUid(e), e);
      BelowFront(l1.eprops, ReplaceEdges(edges, l, es).value.0.eprops, next);
      EdgeRunsTwin(edges, l, edges', l', front, next);
      OneMoreEdgeTwin(l1, l1', EdgeRowids(front, l.nextEdge), EdgeRowids(front, l'.nextEdge), l'.fts, next,
                      Bump(l1.nextEdge, id), Bump(l1'.nextEdge, id'), id, id', e);
    }
  }

  lemma NoEdgesTwin(l: Loader, l': Loader, next: int)
    requires l.eprops == [] && l'.eprops == [] && next <= l'.nextEProp
    ensures EdgeTwins(l, l', [], [], l'.fts, next)
  {
  }

  // ---------- rowids of the second edge pass ----------

  /** With every number of the batch below the cursor, the rowids of the second pass are those numbers, and minted
      ones that rise past it. */
  lemma {:induction false} RowidsRise(es: seq<Edge>, next: int)
    requires forall e | e in es && e.id.Some? && e.id.value.Num? :: e.id.value.n < next
    ensures |EdgeRowids(es, next)| == |es| && next <= EdgeCursorAfter(es, next)
    ensures forall j | 0 <= j < |es| :: EdgeRowids(es, next)[j] < EdgeCursorAfter(es, next)
    ensures forall j | 0 <= j < |es| && EdgeUid(es[j]).Some? :: EdgeRowids(es, next)[j] >= next
    ensures forall i, j | 0 <= i < j < |es| && EdgeUid(es[i]).Some? && EdgeUid(es[j]).Some? ::
      EdgeRowids(es, next)[i] < EdgeRowids(es, next)[j]
  {
    EdgeRowidsAreAsMany(es, next);
    if es != [] {
      var n := |es| - 1;
      var front := es[..n];
      assert (forall x | x in front :: x in es) && es[n] in es;
      RowidsRise(front, next);
      var ids, ids1 := EdgeRowids(es, next), EdgeRowids(front, next);
      assert ids == ids1 + [ids[n]];
      assert forall j | 0 <= j < n :: ids[j] == ids1[j] && front[j] == es[j];
    }
  }

  lemma SecondRowidsDiffer(es: seq<Edge>, ids: seq<int>, next: int)
    requires KeyedEdges(es) && DistinctEdgeKeys(es) && ids == EdgeRowids(es, next) && NumericIds(es, ids)
    requires forall e | e in es && e.id.Some? && e.id.value.Num? :: e.id.value.n < next
    ensures Injective(ids)
  {
    RowidsRise(es, next);
    forall i, j | 0 <= i < j < |ids| ensures ids[i] != ids[j] {
      assert es[i] in es && es[j] in es;
      assert Landed(es[i].id.value) != Landed(es[j].id.value);
    }
  }

  // ---------- the tables of the second landing ----------

  lemma LabelsFitAgain(was: multiset<LabelRow>, kept: multiset<LabelRow>, rows: seq<LabelRow>)
    requires NoRepeats(was + multiset(rows)) && NoRepeats(kept) && forall r | r in rows :: r !in kept
    ensures NoRepeats(kept + multiset(rows))
  {
    RowsAreDistinct(was, rows);
    DistinctAreNew(kept, rows);
  }

  ghost predicate IdsApart(t: multiset<PropRow>) {
    NoRepeats(t) && forall r, r' | r in t && r' in t && r != r' :: r.id != r'.id
  }

  /** `a` landed in `t` and is gone again; `b` is `a` refreshed past everything in `t`. */
  ghost predicate Relands(t: multiset<PropRow>, kept: multiset<PropRow>, a: seq<PropRow>, b: seq<PropRow>, next: int) {
    && IdsApart(t) && NoRepeats(kept) && (forall r | r in kept :: r in t && r !in a) && (forall r | r in a :: r in t)
    && (forall r | r in t :: r.id < next) && Refreshed(a, b, next)
    && forall i, j | 0 <= i < j < |a| :: a[i] != a[j]
  }

  lemma RelandedDiffer(t: multiset<PropRow>, kept: multiset<PropRow>, a: seq<PropRow>, b: seq<PropRow>, next: int)
    requires Relands(t, kept, a, b, next)
    ensures forall i, j | 0 <= i < j < |b| :: b[i].id != b[j].id
    ensures forall r, i | r in kept && 0 <= i < |b| :: r.id != b[i].id
  {
    assert forall i | 0 <= i < |a| :: a[i] in a;
    forall i, j | 0 <= i < j < |a| ensures a[i].id != a[j].id { assert a[i] in t && a[j] in t; }
    RefreshedDiffer(a, b, next);
  }

  lemma RelandedAreApart(t: multiset<PropRow>, kept: multiset<PropRow>, a: seq<PropRow>, b: seq<PropRow>, next: int)
    requires Relands(t, kept, a, b, next)
    ensures IdsApart(kept + multiset(b))
  {
    RelandedDiffer(t, kept, a, b, next);
    hide Refreshed;
    IdsJoin(kept, b);
  }

  lemma IdsJoin(kept: multiset<PropRow>, b: seq<PropRow>)
    requires IdsApart(kept) && forall i, j | 0 <= i < j < |b| :: b[i].id != b[j].id
    requires forall r, i | r in kept && 0 <= i < |b| :: r.id != b[i].id
    ensures IdsApart(kept + multiset(b))
  {
    forall r, r' | r in kept && r' in b ensures r.id != r'.id { var i :| 0 <= i < |b| && b[i] == r'; }
    forall r, r' | r in b && r' in b && r != r' ensures r.id != r'.id {
      var i, j :| 0 <= i < |b| && b[i] == r && 0 <= j < |b| && b[j] == r';
    }
    assert forall i, j | 0 <= i < j < |b| :: b[i] != b[j];
    DistinctAreNew(kept, b);
    assert forall r :: r in kept + multiset(b) <==> r in kept || r in b;
  }

  /** Rows of edge properties: one per edge and key, because that held for the edges the first time. */
  lemma RelandedKeysDiffer(t: multiset<PropRow>, kept: multiset<PropRow>, a: seq<PropRow>, b: seq<PropRow>, next: int,
                           ids: seq<int>, ids': seq<int>)
    requires Relands(t, kept, a, b, next) && UniqueEProps(t) && OwnersTwin(a, b, ids, ids') && Injective(ids')
    requires forall r | r in kept :: r.owner !in ids'
    ensures UniqueEProps(kept + multiset(b))
  {
    RelandedAreApart(t, kept, a, b, next);
    OwnerKeysDiffer(t, kept, a, b, next, ids, ids');
    assert UniqueEProps(kept);
    hide Relands, OwnersTwin;
    KeysApart(kept, b, ids');
  }

  lemma OwnerKeysDiffer(t: multiset<PropRow>, kept: multiset<PropRow>, a: seq<PropRow>, b: seq<PropRow>, next: int,
                        ids: seq<int>, ids': seq<int>)
    requires Relands(t, kept, a, b, next) && UniqueEProps(t) && OwnersTwin(a, b, ids, ids') && Injective(ids')
    ensures forall i, j | 0 <= i < j < |b| :: b[i].owner != b[j].owner || b[i].key != b[j].key
    ensures forall i | 0 <= i < |b| :: b[i].owner in ids'
  {
    hide UniqueEProps, Injective, IdsApart;
    assert Refreshed(a, b, next) && forall i | 0 <= i < |a| :: a[i] in a && a[i] in t;
    hide Refreshed;
    forall i, j | 0 <= i < j < |b| ensures b[i].owner != b[j].owner || b[i].key != b[j].key {
      SameOwnerTwice(t, a, b, next, ids, ids', i, j);
    }
    forall i | 0 <= i < |b| ensures b[i].owner in ids' { assert OwnedBy(ids, ids', a[i].owner, b[i].owner); }
  }

  lemma SameOwnerTwice(t: multiset<PropRow>, a: seq<PropRow>, b: seq<PropRow>, next: int, ids: seq<int>,
      ids': seq<int>, i: int, j: int)
    requires UniqueEProps(t) && Refreshed(a, b, next) && OwnersTwin(a, b, ids, ids') && Injective(ids')
    requires 0 <= i < j < |a| && a[i] in t && a[j] in t && a[i] != a[j]
    ensures b[i].owner != b[j].owner || b[i].key != b[j].key
  {
    assert OwnedBy(ids, ids', a[i].owner, b[i].owner) && OwnedBy(ids, ids', a[j].owner, b[j].owner);
    var m :| 0 <= m < |ids| == |ids'| && a[i].owner == ids[m] && b[i].owner == ids'[m];
    var n :| 0 <= n < |ids| == |ids'| && a[j].owner == ids[n] && b[j].owner == ids'[n];
    assert a[i].owner != a[j].owner || a[i].key != a[j].key;
    assert m != n ==> ids'[m] != ids'[n];
  }

  lemma KeysApart(kept: multiset<PropRow>, b: seq<PropRow>, ids: seq<int>)
    requires IdsApart(kept + multiset(b)) && UniqueEProps(kept)
    requires forall i, j | 0 <= i < j < |b| :: b[i].owner != b[j].owner || b[i].key != b[j].key
    requires (forall i | 0 <= i < |b| :: b[i].owner in ids) && forall r | r in kept :: r.owner !in ids
    ensures UniqueEProps(kept + multiset(b))
  {
    var all := kept + multiset(b);
    forall r, r' | r in all && r' in all && r != r' ensures r.id != r'.id && (r.owner != r'.owner || r.key != r'.key) {
      if r in b && r' in b {
        var i :| 0 <= i < |b| && b[i] == r;
        var j :| 0 <= j < |b| && b[j] == r';
      } else if r in b {
        var i :| 0 <= i < |b| && b[i] == r;
      } else if r' in b {
        var j :| 0 <= j < |b| && b[j] == r';
      }
    }
  }

  /** An index that is the image of properties with distinct positive ids holds no rowid twice. */
  lemma IndexApart(db: Tables)
    requires Indexed(db) && PositiveProps(db) && IdsApart(db.vprops) && IdsApart(db.eprops) && NoRepeats(db.fts)
    ensures UniqueFts(db.fts)
  {
    forall r, r' | r in db.fts && r' in db.fts && r.rowid == r'.rowid ensures r == r' {
      assert Indexes(NodeKind, db.vprops, r) || Indexes(EdgeKind, db.eprops, r);
      assert Indexes(NodeKind, db.vprops, r') || Indexes(EdgeKind, db.eprops, r');
    }
  }

  /** The index rows of a batch are new if its properties are. */
  lemma IndexFitsAgain(kept: Tables, v: seq<PropRow>, e: seq<PropRow>)
    requires Indexed(kept) && NoRepeats(kept.fts)
    requires forall i, j | 0 <= i < j < |v| :: v[i].id != v[j].id
    requires forall i, j | 0 <= i < j < |e| :: e[i].id != e[j].id
    requires forall r, i | r in kept.vprops && 0 <= i < |v| :: r.id != v[i].id
    requires forall r, i | r in kept.eprops && 0 <= i < |e| :: r.id != e[i].id
    ensures NoRepeats(kept.fts + multiset(FtsRows(NodeKind, v) + FtsRows(EdgeKind, e)))
  {
    FtsRowsDiffer(NodeKind, v);
    FtsRowsDiffer(EdgeKind, e);
    hide FtsRows;
    var x, y := FtsRows(NodeKind, v), FtsRows(EdgeKind, e);
    assert forall i | 0 <= i < |x| :: x[i] in x;
    assert forall i | 0 <= i < |y| :: y[i] in y;
    var rows := x + y;
    forall i, j | 0 <= i < j < |rows| ensures rows[i] != rows[j] {
      if i < |x| <= j { assert rows[i] in x && rows[j] in y; }
    }
    forall r | r in rows ensures r !in kept.fts { NewIndexRow(kept, v, e, r); }
    DistinctAreNew(kept.fts, rows);
  }

  lemma NewIndexRow(kept: Tables, v: seq<PropRow>, e: seq<PropRow>, r: FtsRow)
    requires Indexed(kept)
    requires forall r, i | r in kept.vprops && 0 <= i < |v| :: r.id != v[i].id
    requires forall r, i | r in kept.eprops && 0 <= i < |e| :: r.id != e[i].id
    requires if r.elem.NodeKind? then exists p :: p in v && p.id == r.pid else exists p :: p in e && p.id == r.pid
    ensures r !in kept.fts
  {
    assert Indexes(NodeKind, kept.vprops, r) ==> r.elem.NodeKind? && exists q :: q in kept.vprops && q.id == r.pid;
    assert Indexes(EdgeKind, kept.eprops, r) ==> r.elem.EdgeKind? && exists q :: q in kept.eprops && q.id == r.pid;
  }

  /** The rows of the second edge pass fit where those of the first one were. */
  lemma EdgesFitAgain(t: multiset<EdgeRow>, kept: multiset<EdgeRow>, a: seq<EdgeRow>, b: seq<EdgeRow>, next: int,
      es: seq<Edge>, ids: seq<int>)
    requires UniqueEdges(t) && (forall r | r in a :: r in t) && NoRepeats(kept)
      && (forall r | r in kept :: r in t && r !in a)
    requires Twins(a, b) && (forall r | r in t :: r.id < next) && forall i, j | 0 <= i < j < |a| :: a[i] != a[j]
    requires Injective(ids) && (forall r | r in b :: FromBatch(es, ids, r.id, r.uid))
    requires forall j | 0 <= j < |es| == |ids| && EdgeUid(es[j]).Some? :: ids[j] >= next
    ensures UniqueEdges(kept + multiset(b))
  {
    assert forall i | 0 <= i < |a| :: a[i] in a && b[i] in b;
    forall i, j | 0 <= i < j < |b| ensures b[i].id != b[j].id && (b[i].uid.None? || b[i].uid != b[j].uid) {
      TwinsStayApart(t, a[i], a[j], b[i], b[j], next, es, ids);
    }
    forall r, i | r in kept && 0 <= i < |b| ensures r.id != b[i].id && (r.uid.None? || r.uid != b[i].uid) {
      TwinMissesKept(t, r, a[i], b[i], next, es, ids);
    }
    hide Twins, FromBatch;
    RowsFit(kept, t, b);
  }

  lemma TwinsStayApart(t: multiset<EdgeRow>, a: EdgeRow, a': EdgeRow, b: EdgeRow, b': EdgeRow, next: int,
      es: seq<Edge>, ids: seq<int>)
    requires UniqueEdges(t) && a in t && a' in t && a != a' && a.id < next && a'.id < next && Twin(a, b) && Twin(a', b')
    requires Injective(ids) && FromBatch(es, ids, b.id, b.uid) && FromBatch(es, ids, b'.id, b'.uid)
    requires forall j | 0 <= j < |es| == |ids| && EdgeUid(es[j]).Some? :: ids[j] >= next
    ensures b.id != b'.id && (b.uid.None? || b.uid != b'.uid)
  {
    var i :| EntryOf(es, ids, i, b.id, b.uid);
    var j :| EntryOf(es, ids, j, b'.id, b'.uid);
    assert a.id != a'.id && (a.uid.None? || a.uid != a'.uid);
    assert i != j ==> ids[i] != ids[j];
  }

  lemma TwinMissesKept(t: multiset<EdgeRow>, r: EdgeRow, a: EdgeRow, b: EdgeRow, next: int, es: seq<Edge>,
      ids: seq<int>)
    requires UniqueEdges(t) && r in t && a in t && r != a && r.id < next && Twin(a, b)
    requires FromBatch(es, ids, b.id, b.uid)
    requires forall j | 0 <= j < |es| == |ids| && EdgeUid(es[j]).Some? :: ids[j] >= next
    ensures r.id != b.id && (r.uid.None? || r.uid != b.uid)
  {
    var i :| EntryOf(es, ids, i, b.id, b.uid);
    assert r.id != a.id && (r.uid.None? || r.uid != a.uid);
  }

  lemma RowsFit(kept: multiset<EdgeRow>, t: multiset<EdgeRow>, b: seq<EdgeRow>)
    requires UniqueEdges(t) && NoRepeats(kept) && forall r | r in kept :: r in t
    requires forall i, j | 0 <= i < j < |b| :: b[i].id != b[j].id && (b[i].uid.None? || b[i].uid != b[j].uid)
    requires forall r, i | r in kept && 0 <= i < |b| :: r.id != b[i].id && (r.uid.None? || r.uid != b[i].uid)
    ensures UniqueEdges(kept + multiset(b))
  {
    forall r | r in b ensures r !in kept { var i :| 0 <= i < |b| && b[i] == r; }
    forall i, j | 0 <= i < j < |b| ensures b[i] != b[j] { assert b[i].id != b[j].id; }
    DistinctAreNew(kept, b);
    var all := kept + multiset(b);
    forall r, r' | r in all && r' in all && r != r' ensures r.id != r'.id && (r.uid.None? || r.uid != r'.uid) {
      if r in b && r' in b {
        var i :| 0 <= i < |b| && b[i] == r;
        var j :| 0 <= j < |b| && b[j] == r';
      } else if r in b {
        var i :| 0 <= i < |b| && b[i] == r;
      } else if r' in b {
        var j :| 0 <= j < |b| && b[j] == r';
      }
    }
  }

  // ---------- the second import ----------

  ghost predicate First(db: Tables, vs: seq<Vertex>, es: seq<Edge>) {
    Importable(db, vs, es) && Import(db, vs, es).Ok?
  }

  ghost function TargetsOf(db: Tables, vs: seq<Vertex>): seq<int> {
    Targets(db.nodes, Fill(vs, VertexKey).keys, Start(db))
  }

  ghost function NextOf(t: multiset<PropRow>): int { MaxOr0(PropIds(t)) + 1 }

  lemma NextIsPast(t: multiset<PropRow>)
    ensures forall r | r in t :: r.id < NextOf(t)
  {
    forall r | r in t ensures r.id < NextOf(t) { assert r.id in PropIds(t); }
  }

  lemma FirstNodes(db: Tables, vs: seq<Vertex>, es: seq<Edge>)
    requires First(db, vs, es)
    ensures var d, keys := Import(db, vs, es).value, Fill(vs, VertexKey).keys;
      && d.nodes == db.nodes + multiset(NewRows(db.nodes, keys, Start(db))) && Injective(TargetsOf(db, vs))
      && UniqueNodes(db.nodes) && UniqueNodes(d.nodes)
  {
    hide Importable, Replaceable, Consistent, Fill, Filled, LandBatch, Targets, Unique, PositiveNodes, NewRows, Start,
         Deduped, UniqueNodes, Injective, References, DistinctTargets, Shows, Untouched;
    ImportableIs(db, vs, es);
    ImportIsConsistent(db, vs, es);
    ConsistentIs(Import(db, vs, es).value);
    DocumentIsRaw(db, vs, es);
    ImportIsLanding(db, vs, es);
    SetBasedIsDescribed(db, Document(db, vs, es));
  }

  /** What the first import says of the second one's keys. */
  lemma TargetsAgain(db: Tables, d: Tables, vs: seq<Vertex>, es: seq<Edge>)
    requires First(db, vs, es) && d == Import(db, vs, es).value
    ensures TargetsOf(d, vs) == TargetsOf(db, vs) && Injective(TargetsOf(db, vs))
    ensures NewRows(d.nodes, Fill(vs, VertexKey).keys, Start(d)) == []
    ensures forall k | k in Fill(vs, VertexKey).keys :: Lookup(d.nodes, k).Some?
    ensures UniqueNodes(db.nodes) && UniqueNodes(d.nodes)
  {
    hide First, Import, Fill, TargetsOf, NewRows, Lookup, Start, UniqueNodes, Injective;
    FirstNodes(db, vs, es);
    KeysAgain(db, d, vs);
  }

  lemma FirstIs(db: Tables, vs: seq<Vertex>, es: seq<Edge>)
    requires First(db, vs, es)
    ensures Importable(db, vs, es) && Replaceable(db, vs) && KeyedEdges(es) && Import(db, vs, es).Ok?
  {
    hide Import, Consistent, Replaceable, KeyedEdges;
  }

  lemma KeysAgain(db: Tables, d: Tables, vs: seq<Vertex>)
    requires UniqueNodes(db.nodes) && UniqueNodes(d.nodes)
    requires d.nodes == db.nodes + multiset(NewRows(db.nodes, Fill(vs, VertexKey).keys, Start(db)))
    ensures TargetsOf(d, vs) == TargetsOf(db, vs) && NewRows(d.nodes, Fill(vs, VertexKey).keys, Start(d)) == []
    ensures forall k | k in Fill(vs, VertexKey).keys :: Lookup(d.nodes, k).Some?
  {
    hide Fill, Targets, NewRows, Lookup, Start, UniqueNodes;
    ImportedTargets(db, d, Fill(vs, VertexKey).keys);
  }

  lemma FirstIsKeyed(db: Tables, vs: seq<Vertex>, es: seq<Edge>)
    requires First(db, vs, es)
    ensures Keyed(Deduped(vs, VertexKey)) && KeysOf(Deduped(vs, VertexKey)) == Fill(vs, VertexKey).keys
  {
    FirstIs(db, vs, es);
    DocumentKeys(vs);
  }

  lemma DocumentKeys(vs: seq<Vertex>)
    requires Keyed(vs)
    ensures Keyed(Deduped(vs, VertexKey)) && KeysOf(Deduped(vs, VertexKey)) == Fill(vs, VertexKey).keys
  {
    hide Fill, Deduped, Keyed, KeysOf, Values;
    KeyedFill(vs);
  }

  lemma ImportIsLanding(db: Tables, vs: seq<Vertex>, es: seq<Edge>)
    requires Import(db, vs, es).Ok?
    ensures var l := Document(db, vs, es);
      && LandBatch(db, l).Ok? && LandBatch(db, l).value.0 == Import(db, vs, es).value && l.rawVertices == vs
         && l.rawEdges == es
  {
  }

  /** What the first import added for the vertices. */
  lemma FirstVertexRows(db: Tables, vs: seq<Vertex>, es: seq<Edge>)
    requires First(db, vs, es)
    ensures var d, p := Import(db, vs, es).value, Placed(db, vs, es);
      && (exists was: multiset<LabelRow> :: d.labels == was + multiset(p.labelRows))
      && (exists was: multiset<PropRow> :: d.vprops == was + multiset(p.vprops))
      && (forall r | r in p.labelRows :: r.node in TargetsOf(db, vs))
         && (forall r | r in p.vprops :: r.owner in TargetsOf(db, vs))
      && Consistent(d) && Unique(d)
  {
    hide Importable, Replaceable, Consistent, LandBatch, Targets, Unique, Lookup, Fill, Deduped, ReplaceVertices,
         BufferShows, WipeVertices, UniqueNodes;
    ImportableIs(db, vs, es);
    ImportIsConsistent(db, vs, es);
    ConsistentIs(Import(db, vs, es).value);
    TargetsAgain(db, Import(db, vs, es).value, vs, es);
    FirstIsKeyed(db, vs, es);
    LandedVertexTables(db, Document(db, vs, es));
    SetBasedBuffers(db.nodes, Document(db, vs, es), Deduped(vs, VertexKey));
  }

  lemma DocumentsTwin(db: Tables, d: Tables, vs: seq<Vertex>, es: seq<Edge>)
    ensures VertexTwins(Document(db, vs, es), Document(d, vs, es), NextOf(d.vprops))
    ensures Document(db, vs, es).nextNode == Start(db) && Document(d, vs, es).nextNode == Start(d)
      && Document(d, vs, es).nodeRows == []
  {
  }

  lemma SecondVertexPass(db: Tables, vs: seq<Vertex>, es: seq<Edge>)
    requires First(db, vs, es)
    ensures var d := Import(db, vs, es).value; var p, p' := Placed(db, vs, es), Placed(d, vs, es);
      VertexTwins(p, p', NextOf(d.vprops)) && p'.nodeRows == [] && Below(p.vprops, NextOf(d.vprops))
  {
    var d, kept := Import(db, vs, es).value, Deduped(vs, VertexKey);
    hide First, Import, Importable, Replaceable, Consistent, Fill, Deduped, Targets, UniqueNodes, MaxOr0, Unique,
         NewRows, ReplaceVertices, Document, NextOf, Start, Lookup, VertexTwins;
    TargetsAgain(db, d, vs, es);
    FirstIsKeyed(db, vs, es);
    DocumentsTwin(db, d, vs, es);
    PlacedPropsLanded(db, vs, es);
    VertexRunsTwin(db.nodes, Document(db, vs, es), d.nodes, Document(d, vs, es), kept, NextOf(d.vprops));
    ReplaceNodes(d.nodes, Document(d, vs, es), kept);
  }

  lemma PlacedPropsLanded(db: Tables, vs: seq<Vertex>, es: seq<Edge>)
    requires First(db, vs, es)
    ensures Below(Placed(db, vs, es).vprops, NextOf(Import(db, vs, es).value.vprops))
  {
    var d, p := Import(db, vs, es).value, Placed(db, vs, es);
    hide First, Import, Placed, NextOf;
    FirstVertexRows(db, vs, es);
    NextIsPast(d.vprops);
    LandedIn(d.vprops, p.vprops);
  }

  ghost function MatchedAgain(d: Tables, vs: seq<Vertex>, es: seq<Edge>): set<int> {
    ReplaceVertices(d.nodes, Document(d, vs, es), Deduped(vs, VertexKey)).1
  }

  /** The second import matches every vertex of the batch. */
  lemma SecondMatchesAll(db: Tables, vs: seq<Vertex>, es: seq<Edge>)
    requires First(db, vs, es)
    ensures forall id :: id in MatchedAgain(Import(db, vs, es).value, vs, es) <==> id in TargetsOf(db, vs)
  {
    var d, kept := Import(db, vs, es).value, Deduped(vs, VertexKey);
    hide First, Import, Fill, Deduped, Targets, UniqueNodes, ReplaceVertices, Lookup;
    TargetsAgain(db, d, vs, es);
    FirstIsKeyed(db, vs, es);
    SetBasedMatches(d.nodes, Document(d, vs, es), kept);
    var ts := TargetsOf(db, vs);
    forall i | 0 <= i < |ts| ensures ts[i] in MatchedAgain(d, vs, es) { assert KeysOf(kept)[i] in KeysOf(kept); }
  }

  /** Labels and vertex properties of the second landing fit. */
  lemma SecondVertexRowsFit(db: Tables, vs: seq<Vertex>, es: seq<Edge>)
    requires First(db, vs, es)
    ensures var d := Import(db, vs, es).value; var p, p' := Placed(db, vs, es), Placed(d, vs, es);
      var wiped := WipeVertices(d, MatchedAgain(d, vs, es));
      && NoRepeats(wiped.labels + multiset(p'.labelRows))
      && Relands(d.vprops, wiped.vprops, p.vprops, p'.vprops, NextOf(d.vprops))
  {
    var d := Import(db, vs, es).value;
    var p, p' := Placed(db, vs, es), Placed(d, vs, es);
    hide First, Import, Placed, MatchedAgain, TargetsOf, Consistent, NextOf;
    FirstVertexRows(db, vs, es);
    SecondVertexPass(db, vs, es);
    SecondMatchesAll(db, vs, es);
    VertexRowsFit(d, MatchedAgain(d, vs, es), TargetsOf(db, vs), p, p');
  }

  lemma VertexRowsFit(d: Tables, matched: set<int>, ts: seq<int>, p: Loader, p': Loader)
    requires Unique(d) && (forall id :: id in matched <==> id in ts) && VertexTwins(p, p', NextOf(d.vprops))
    requires exists was: multiset<LabelRow> :: d.labels == was + multiset(p.labelRows)
    requires exists was: multiset<PropRow> :: d.vprops == was + multiset(p.vprops)
    requires (forall r | r in p.labelRows :: r.node in ts) && forall r | r in p.vprops :: r.owner in ts
    ensures var wiped := WipeVertices(d, matched);
      && NoRepeats(wiped.labels + multiset(p'.labelRows))
      && Relands(d.vprops, wiped.vprops, p.vprops, p'.vprops, NextOf(d.vprops))
  {
    VertexTablesUnique(d, matched);
    WipedRows(d, matched);
    hide Unique, WipeVertices, NextOf, Relands, NoRepeats, IdsApart;
    PropsReland(d, matched, ts, p, p');
    LabelsReland(d, matched, ts, p.labelRows);
  }

  lemma LabelsReland(d: Tables, matched: set<int>, ts: seq<int>, rows: seq<LabelRow>)
    requires Unique(d) && (forall id :: id in matched <==> id in ts) && forall r | r in rows :: r.node in ts
    requires exists was: multiset<LabelRow> :: d.labels == was + multiset(rows)
    ensures NoRepeats(WipeVertices(d, matched).labels + multiset(rows))
  {
    VertexTablesUnique(d, matched);
    WipedRows(d, matched);
    hide Unique, WipeVertices;
    if was: multiset<LabelRow> :| d.labels == was + multiset(rows) {
      LabelsFitAgain(was, WipeVertices(d, matched).labels, rows);
    }
  }

  lemma PropsReland(d: Tables, matched: set<int>, ts: seq<int>, p: Loader, p': Loader)
    requires Unique(d) && (forall id :: id in matched <==> id in ts) && Refreshed(p.vprops, p'.vprops, NextOf(d.vprops))
    requires (exists was: multiset<PropRow> :: d.vprops == was + multiset(p.vprops)) 
    requires forall r | r in p.vprops :: r.owner in ts
    ensures Relands(d.vprops, WipeVertices(d, matched).vprops, p.vprops, p'.vprops, NextOf(d.vprops))
  {
    VertexTablesUnique(d, matched);
    WipedRows(d, matched);
    NextIsPast(d.vprops);
    hide Unique, WipeVertices, NextOf, Refreshed;
    if was: multiset<PropRow> :| d.vprops == was + multiset(p.vprops) { RowsAreDistinct(was, p.vprops); }
  }

  lemma VertexTablesUnique(d: Tables, ids: set<int>)
    requires Unique(d)
    ensures NoRepeats(d.labels) && NoRepeats(WipeVertices(d, ids).labels) && IdsApart(d.vprops)
      && NoRepeats(WipeVertices(d, ids).vprops)
  {
  }

  // ---------- the second edge pass ----------

  ghost function NextEdgeOf(t: multiset<EdgeRow>): int { MaxOr0(EdgeIds(t)) + 1 }

  lemma NextEdgeIsPast(t: multiset<EdgeRow>)
    ensures forall r | r in t :: r.id < NextEdgeOf(t)
  {
    forall r | r in t ensures r.id < NextEdgeOf(t) { assert r.id in EdgeIds(t); }
  }

  lemma {:induction false} VerticesLeaveEdgeCursors(nodes: multiset<NodeRow>, l: Loader, vs: seq<Vertex>)
    ensures var l' := ReplaceVertices(nodes, l, vs).0;
      l'.nextEdge == l.nextEdge && l'.nextEProp == l.nextEProp && l'.opts == l.opts && l'.journal == l.journal
  {
    hide PropRows, NextProp, FtsRows, LabelRows;
    if vs != [] { VerticesLeaveEdgeCursors(nodes, l, vs[..|vs| - 1]); }
  }

  lemma PlacedCursors(d: Tables, vs: seq<Vertex>, es: seq<Edge>)
    ensures Placed(d, vs, es).nextEdge == NextEdgeOf(d.edges) && Placed(d, vs, es).nextEProp == NextOf(d.eprops)
    ensures Placed(d, vs, es).opts == REPLACE && Placed(d, vs, es).journal == None
  {
    VerticesLeaveEdgeCursors(d.nodes, Document(d, vs, es), Deduped(vs, VertexKey));
  }

  lemma SecondEdgePass(db: Tables, d: Tables, vs: seq<Vertex>, es: seq<Edge>)
    requires First(db, vs, es) && d == Import(db, vs, es).value
    ensures EdgePass(db, vs, es).Ok? && EdgePass(d, vs, es).Ok?
    ensures TwinLoaders(EdgePass(db, vs, es).value.0, EdgePass(d, vs, es).value.0)
  {
    FirstIs(db, vs, es);
    ImportableIs(db, vs, es);
    TargetsAgain(db, d, vs, es);
    KeyedEdgesFill(es);
    hide First, Import, Importable, Replaceable, Consistent, Fill, Deduped, Targets, UniqueNodes, Unique, References,
         Placed, TwinLoaders, ReplaceEdges, KeyedEdges, NewRows, Start, Injective, DistinctEdgeKeys, Lookup;
    PlacedAlike(db, d, vs, es);
    ImportedEdgeTables(db, vs, es);
    TwinRuns(db.edges, d.edges, Placed(db, vs, es), Placed(d, vs, es), Deduped(es, EdgeKey));
  }

  /** The deferred edges resolve again, to the same ends. */
  lemma SecondResolves(db: Tables, d: Tables, vs: seq<Vertex>, es: seq<Edge>, l: Loader, l': Loader)
    requires First(db, vs, es) && d == Import(db, vs, es).value
    requires EdgePass(db, vs, es).Ok? && l == EdgePass(db, vs, es).value.0 && TwinLoaders(l, l')
    ensures ResolvePending(d.nodes, l.vertexIds, l.pending).Ok? && ResolvePending(d.nodes, l'.vertexIds, l'.pending).Ok?
    ensures Twins(NewEdges(d.nodes, l), NewEdges(d.nodes, l'))
  {
    FirstIs(db, vs, es);
    hide First, Import, Importable, Replaceable, KeyedEdges, EdgePass, ResolvePending, NewEdges, Twins, TwinPending;
    ImportedEdgeTables(db, vs, es);
    NewEdgesAreTwins(d.nodes, l, l');
    TwinResolution(d.nodes, l.vertexIds, l.pending, l'.pending);
  }

  /** What the first import added for the edges. */
  lemma FirstEdgeRows(db: Tables, d: Tables, vs: seq<Vertex>, es: seq<Edge>, l: Loader)
    requires First(db, vs, es) && d == Import(db, vs, es).value && EdgePass(db, vs, es).Ok?
      && l == EdgePass(db, vs, es).value.0
    ensures exists was: multiset<EdgeRow> :: d.edges == was + multiset(NewEdges(d.nodes, l))
    ensures exists was: multiset<PropRow> :: d.eprops == was + multiset(l.eprops)
    ensures UniqueEdges(d.edges)
  {
    FirstIs(db, vs, es);
    hide First, Import, Importable, Replaceable, KeyedEdges, EdgePass, ResolvePending, NewEdges, UniqueEdges, Keep;
    ImportedEdgeTables(db, vs, es);
  }

  lemma LandedIn(t: multiset<PropRow>, rows: seq<PropRow>)
    requires exists was: multiset<PropRow> :: t == was + multiset(rows)
    ensures forall i | 0 <= i < |rows| :: rows[i] in t
  {
    assert forall i | 0 <= i < |rows| :: rows[i] in multiset(rows);
  }

  lemma FirstEdgePropsLanded(db: Tables, d: Tables, vs: seq<Vertex>, es: seq<Edge>, l: Loader)
    requires First(db, vs, es) && d == Import(db, vs, es).value && EdgePass(db, vs, es).Ok?
      && l == EdgePass(db, vs, es).value.0
    ensures Below(l.eprops, NextOf(d.eprops))
  {
    FirstEdgeRows(db, d, vs, es, l);
    hide First, Import, EdgePass, NextOf, NewEdges;
    NextIsPast(d.eprops);
    LandedIn(d.eprops, l.eprops);
  }

  lemma SecondEdgeProps(db: Tables, d: Tables, vs: seq<Vertex>, es: seq<Edge>, l: Loader, l': Loader)
    requires First(db, vs, es) && d == Import(db, vs, es).value
    requires EdgePass(db, vs, es).Ok? && l == EdgePass(db, vs, es).value.0
    requires EdgePass(d, vs, es).Ok? && l' == EdgePass(d, vs, es).value.0
    ensures EdgeTwins(l, l', RowidsOf(db, vs, es), RowidsOf(d, vs, es), Placed(d, vs, es).fts, NextOf(d.eprops))
  {
    FirstIs(db, vs, es);
    FirstEdgePropsLanded(db, d, vs, es, l);
    KeyedEdgesFill(es);
    PlacedHasNoEdges(db, vs, es);
    PlacedHasNoEdges(d, vs, es);
    PlacedCursors(d, vs, es);
    hide First, Import, Importable, Replaceable, KeyedEdges, Placed, Deduped, NextOf, ReplaceEdges, EdgeRowids,
         EdgeTwins, Below, DistinctEdgeKeys;
    EdgeRunsTwin(db.edges, Placed(db, vs, es), d.edges, Placed(d, vs, es), Deduped(es, EdgeKey), NextOf(d.eprops));
  }

  /** The second import deletes exactly the edges the first one landed. */
  lemma SecondGone(db: Tables, d: Tables, vs: seq<Vertex>, es: seq<Edge>, l: Loader, gone: set<int>)
    requires First(db, vs, es) && d == Import(db, vs, es).value
    requires EdgePass(db, vs, es).Ok? && l == EdgePass(db, vs, es).value.0
    requires EdgePass(d, vs, es).Ok? && gone == EdgePass(d, vs, es).value.1
    ensures forall id :: id in gone <==> exists r :: r in NewEdges(d.nodes, l) && r.id == id
  {
    FirstIs(db, vs, es);
    ImportableIs(db, vs, es);
    KeyedEdgesFill(es);
    RowidsAreNumeric(db, vs, es);
    hide First, Import, Importable, Replaceable, KeyedEdges, Placed, Deduped, ReplaceEdges, EdgeRowids,
         DistinctEdgeKeys, Consistent, References, Unique, UniqueNodes, EdgesDescribed, NewEdges, NumericIds,
         NamedByBatch, RowidsOf;
    ImportDescribesEdges(db, vs, es);
    RunMatchesBatch(d.edges, Placed(d, vs, es), Deduped(es, EdgeKey));
    forall id ensures id in gone <==> exists r :: r in NewEdges(d.nodes, l) && r.id == id {
      ImportedAreNamed(db, d, Deduped(es, EdgeKey), NewEdges(d.nodes, l), RowidsOf(db, vs, es), id);
    }
  }

  lemma EachLanded(db: Tables, d: Tables, es: seq<Edge>, rows: seq<EdgeRow>, ids: seq<int>, j: nat)
    requires EdgesDescribed(db, d, es, rows, ids) && j < |es|
    ensures |ids| == |es| && exists r :: r in rows && r in d.edges && r.id == ids[j]
  {
    hide EdgeShows;
    assert es[j] == es[j] && ids[j] == ids[j];
    if r :| r in rows && r.id == ids[j] && r.uid == EdgeUid(es[j]) { assert r in d.edges; }
  }

  /** Every rowid of the first pass is that of a row that landed. */
  lemma FirstRowidsLanded(db: Tables, d: Tables, vs: seq<Vertex>, es: seq<Edge>, l: Loader)
    requires First(db, vs, es) && d == Import(db, vs, es).value && EdgePass(db, vs, es).Ok?
      && l == EdgePass(db, vs, es).value.0
    ensures |RowidsOf(db, vs, es)| == |Deduped(es, EdgeKey)|
    ensures forall j | 0 <= j < |RowidsOf(db, vs, es)| ::
      exists r :: r in NewEdges(d.nodes, l) && r in d.edges && r.id == RowidsOf(db, vs, es)[j]
  {
    FirstIs(db, vs, es);
    ImportableIs(db, vs, es);
    EdgeRowidsAreAsMany(Deduped(es, EdgeKey), Placed(db, vs, es).nextEdge);
    hide First, Import, Importable, Replaceable, KeyedEdges, Consistent, Deduped, References, Unique, UniqueNodes,
         EdgesDescribed, NewEdges, EdgePass, RowidsOf;
    ImportDescribesEdges(db, vs, es);
    forall j | 0 <= j < |RowidsOf(db, vs, es)|
      ensures exists r :: r in NewEdges(d.nodes, l) && r in d.edges && r.id == RowidsOf(db, vs, es)[j] {
      EachLanded(db, d, Deduped(es, EdgeKey), NewEdges(d.nodes, l), RowidsOf(db, vs, es), j);
    }
  }

  /** The numbers of the batch are stored by now, so the second pass mints past them. */
  lemma NumbersAreStored(db: Tables, d: Tables, vs: seq<Vertex>, es: seq<Edge>, l: Loader)
    requires First(db, vs, es) && d == Import(db, vs, es).value && EdgePass(db, vs, es).Ok?
      && l == EdgePass(db, vs, es).value.0
    ensures forall e | e in Deduped(es, EdgeKey) && e.id.Some? && e.id.value.Num? :: e.id.value.n < NextEdgeOf(d.edges)
  {
    FirstRowidsLanded(db, d, vs, es, l);
    RowidsAreNumeric(db, vs, es);
    NextEdgeIsPast(d.edges);
    hide First, Import, EdgePass, RowidsOf, Deduped, NewEdges, NextEdgeOf;
    var kept := Deduped(es, EdgeKey);
    forall e | e in kept && e.id.Some? && e.id.value.Num? ensures e.id.value.n < NextEdgeOf(d.edges) {
      var j :| 0 <= j < |kept| && kept[j] == e;
      assert RowidsOf(db, vs, es)[j] == e.id.value.n;
    }
  }

  lemma SecondRowids(db: Tables, d: Tables, vs: seq<Vertex>, es: seq<Edge>, l: Loader)
    requires First(db, vs, es) && d == Import(db, vs, es).value && EdgePass(db, vs, es).Ok?
      && l == EdgePass(db, vs, es).value.0
    ensures Injective(RowidsOf(d, vs, es)) && |RowidsOf(d, vs, es)| == |Deduped(es, EdgeKey)|
    ensures NumericIds(Deduped(es, EdgeKey), RowidsOf(d, vs, es))
    ensures forall j | 0 <= j < |Deduped(es, EdgeKey)| && EdgeUid(Deduped(es, EdgeKey)[j]).Some? ::
      RowidsOf(d, vs, es)[j] >= NextEdgeOf(d.edges)
  {
    FirstIs(db, vs, es);
    KeyedEdgesFill(es);
    NumbersAreStored(db, d, vs, es, l);
    RowidsAreNumeric(d, vs, es);
    PlacedCursors(d, vs, es);
    hide First, Import, Importable, EdgePass, Deduped, Placed, EdgeRowids, NumericIds, DistinctEdgeKeys, KeyedEdges,
         Injective, NextEdgeOf, NewEdges;
    SecondRowidsDiffer(Deduped(es, EdgeKey), RowidsOf(d, vs, es), NextEdgeOf(d.edges));
    RowidsRise(Deduped(es, EdgeKey), NextEdgeOf(d.edges));
  }

  lemma SecondCovers(d: Tables, vs: seq<Vertex>, es: seq<Edge>, l': Loader)
    requires KeyedEdges(es) && EdgePass(d, vs, es).Ok? && l' == EdgePass(d, vs, es).value.0
    requires ResolvePending(d.nodes, l'.vertexIds, l'.pending).Ok?
    ensures forall r | r in NewEdges(d.nodes, l') :: FromBatch(Deduped(es, EdgeKey), RowidsOf(d, vs, es), r.id, r.uid)
  {
    KeyedEdgesFill(es);
    PlacedHasNoEdges(d, vs, es);
    hide Placed, Deduped, Covers, NewEdges, ResolvePending, FromBatch, EdgeRowids, ReplaceEdges, KeyedEdges,
         DistinctEdgeKeys;
    RunCovers(d.edges, Placed(d, vs, es), Deduped(es, EdgeKey));
    NewEdgesCover(d.nodes, l', Deduped(es, EdgeKey), RowidsOf(d, vs, es));
  }

  ghost function EdgesKept(d: Tables, gone: set<int>): multiset<EdgeRow> {
    Keep(d.edges, (r: EdgeRow) => r.id !in gone)
  }
  ghost function EPropsKept(d: Tables, gone: set<int>): multiset<PropRow> {
    Keep(d.eprops, (p: PropRow) => p.owner !in gone)
  }

  lemma EdgesKeptAre(d: Tables, gone: set<int>)
    ensures NoRepeats(EdgesKept(d, gone)) && NoRepeats(EPropsKept(d, gone))
    ensures forall r :: r in EdgesKept(d, gone) <==> r in d.edges && r.id !in gone
    ensures forall p :: p in EPropsKept(d, gone) <==> p in d.eprops && p.owner !in gone
  {
  }

  /** The edges of the second landing fit. */
  lemma SecondEdgesFit(db: Tables, d: Tables, vs: seq<Vertex>, es: seq<Edge>, l: Loader, l': Loader, gone: set<int>)
    requires First(db, vs, es) && d == Import(db, vs, es).value
    requires EdgePass(db, vs, es).Ok? && l == EdgePass(db, vs, es).value.0
    requires EdgePass(d, vs, es) == Ok((l', gone)) && TwinLoaders(l, l')
    ensures UniqueEdges(EdgesKept(d, gone) + multiset(NewEdges(d.nodes, l')))
  {
    FirstIs(db, vs, es);
    FirstEdgeRows(db, d, vs, es, l);
    SecondResolves(db, d, vs, es, l, l');
    SecondGone(db, d, vs, es, l, gone);
    SecondRowids(db, d, vs, es, l);
    SecondCovers(d, vs, es, l');
    EdgesKeptAre(d, gone);
    NextEdgeIsPast(d.edges);
    hide First, Import, Importable, Replaceable, KeyedEdges, EdgePass, Deduped, RowidsOf, NewEdges, ResolvePending,
         EdgesKept, UniqueEdges, Twins, TwinLoaders, FromBatch, NextEdgeOf, Injective, NumericIds;
    var a, b := NewEdges(d.nodes, l), NewEdges(d.nodes, l');
    LandedOnce(d, a);
    EdgesFitAgain(d.edges, EdgesKept(d, gone), a, b, NextEdgeOf(d.edges), Deduped(es, EdgeKey), RowidsOf(d, vs, es));
  }

  lemma LandedOnce(d: Tables, a: seq<EdgeRow>)
    requires UniqueEdges(d.edges) && exists was: multiset<EdgeRow> :: d.edges == was + multiset(a)
    ensures (forall r | r in a :: r in d.edges) && forall i, j | 0 <= i < j < |a| :: a[i] != a[j]
  {
    if was: multiset<EdgeRow> :| d.edges == was + multiset(a) { RowsAreDistinct(was, a); }
  }

  lemma FirstRowidsGone(db: Tables, d: Tables, vs: seq<Vertex>, es: seq<Edge>, l: Loader, gone: set<int>)
    requires First(db, vs, es) && d == Import(db, vs, es).value
    requires EdgePass(db, vs, es).Ok? && l == EdgePass(db, vs, es).value.0
    requires EdgePass(d, vs, es).Ok? && gone == EdgePass(d, vs, es).value.1
    ensures |RowidsOf(db, vs, es)| == |Deduped(es, EdgeKey)|
    ensures forall j | 0 <= j < |RowidsOf(db, vs, es)| :: RowidsOf(db, vs, es)[j] in gone
  {
    FirstRowidsLanded(db, d, vs, es, l);
    SecondGone(db, d, vs, es, l, gone);
    hide First, Import, EdgePass, RowidsOf, NewEdges, Deduped;
  }

  /** A rowid of the second pass belongs to no edge that stays. */
  lemma SecondRowidsFree(db: Tables, d: Tables, vs: seq<Vertex>, es: seq<Edge>, l: Loader, gone: set<int>, r: EdgeRow,
      j: nat)
    requires First(db, vs, es) && d == Import(db, vs, es).value
    requires EdgePass(db, vs, es).Ok? && l == EdgePass(db, vs, es).value.0
    requires EdgePass(d, vs, es).Ok? && gone == EdgePass(d, vs, es).value.1
    requires r in d.edges && r.id !in gone && j < |RowidsOf(d, vs, es)|
    ensures RowidsOf(d, vs, es)[j] != r.id
  {
    FirstIs(db, vs, es);
    KeyedEdgesFill(es);
    FirstRowidsGone(db, d, vs, es, l, gone);
    SecondRowids(db, d, vs, es, l);
    RowidsAreNumeric(db, vs, es);
    NextEdgeIsPast(d.edges);
    hide First, Import, Importable, EdgePass, RowidsOf, NewEdges, Deduped, DistinctEdgeKeys, Injective, NextEdgeOf,
         NumericIds, KeyedEdges;
    RowidFree(Deduped(es, EdgeKey), RowidsOf(db, vs, es), RowidsOf(d, vs, es), gone, NextEdgeOf(d.edges), r.id, j);
  }

  lemma RowidFree(es: seq<Edge>, ids: seq<int>, ids': seq<int>, gone: set<int>, next: int, id: int, j: nat)
    requires KeyedEdges(es) && NumericIds(es, ids) && NumericIds(es, ids') && id < next && id !in gone && j < |ids'|
    requires forall i | 0 <= i < |ids| :: ids[i] in gone
    requires forall i | 0 <= i < |es| && EdgeUid(es[i]).Some? :: ids'[i] >= next
    ensures ids'[j] != id
  {
    assert es[j] in es;
    if es[j].id.value.Num? { assert ids'[j] == ids[j]; }
  }

  /** The edge properties that stay belong to edges that stay. */
  lemma KeptOwnersStay(db: Tables, d: Tables, vs: seq<Vertex>, es: seq<Edge>, l: Loader, gone: set<int>)
    requires First(db, vs, es) && d == Import(db, vs, es).value && References(d)
    requires EdgePass(db, vs, es).Ok? && l == EdgePass(db, vs, es).value.0
    requires EdgePass(d, vs, es).Ok? && gone == EdgePass(d, vs, es).value.1
    ensures forall p | p in EPropsKept(d, gone) :: p.owner !in RowidsOf(d, vs, es)
  {
    EdgesKeptAre(d, gone);
    hide First, Import, EdgePass, RowidsOf, EPropsKept;
    forall p | p in EPropsKept(d, gone) ensures p.owner !in RowidsOf(d, vs, es) {
      var r :| r in d.edges && r.id == p.owner;
      forall j | 0 <= j < |RowidsOf(d, vs, es)| ensures RowidsOf(d, vs, es)[j] != p.owner {
        SecondRowidsFree(db, d, vs, es, l, gone, r, j);
      }
    }
  }

  lemma EPropsReland(d: Tables, gone: set<int>, a: seq<PropRow>, b: seq<PropRow>, ids: seq<int>, ids': seq<int>)
    requires UniqueEProps(d.eprops) && Refreshed(a, b, NextOf(d.eprops)) && OwnersTwin(a, b, ids, ids')
    requires exists was: multiset<PropRow> :: d.eprops == was + multiset(a)
    requires forall j | 0 <= j < |ids| :: ids[j] in gone
    ensures Relands(d.eprops, EPropsKept(d, gone), a, b, NextOf(d.eprops))
  {
    EdgesKeptAre(d, gone);
    NextIsPast(d.eprops);
    hide EPropsKept, NextOf, Refreshed;
    if was: multiset<PropRow> :| d.eprops == was + multiset(a) { RowsAreDistinct(was, a); }
    forall r | r in a ensures r.owner in gone {
      var i :| 0 <= i < |a| && a[i] == r;
      assert OwnedBy(ids, ids', a[i].owner, b[i].owner);
    }
  }

  /** The edge properties of the second landing fit. */
  lemma SecondEdgePropsFit(db: Tables, d: Tables, vs: seq<Vertex>, es: seq<Edge>, l: Loader, l': Loader, gone: set<int>)
    requires First(db, vs, es) && d == Import(db, vs, es).value
    requires EdgePass(db, vs, es).Ok? && l == EdgePass(db, vs, es).value.0 && EdgePass(d, vs, es) == Ok((l', gone))
    ensures Relands(d.eprops, EPropsKept(d, gone), l.eprops, l'.eprops, NextOf(d.eprops))
    ensures UniqueEProps(EPropsKept(d, gone) + multiset(l'.eprops))
  {
    FirstVertexRows(db, vs, es);
    ConsistentIs(d);
    UniqueHasEProps'(d);
    FirstEdgeRows(db, d, vs, es, l);
    SecondEdgeProps(db, d, vs, es, l, l');
    FirstRowidsGone(db, d, vs, es, l, gone);
    SecondRowids(db, d, vs, es, l);
    KeptOwnersStay(db, d, vs, es, l, gone);
    hide First, Import, EdgePass, RowidsOf, EPropsKept, NextOf, Refreshed, OwnersTwin, UniqueEProps, Relands,
         Injective, Consistent, References, Unique, UniqueNodes, Indexed, PositiveProps, Deduped, NewEdges;
    EPropsReland(d, gone, l.eprops, l'.eprops, RowidsOf(db, vs, es), RowidsOf(d, vs, es));
    RelandedKeysDiffer(d.eprops, EPropsKept(d, gone), l.eprops, l'.eprops, NextOf(d.eprops), RowidsOf(db, vs, es),
      RowidsOf(d, vs, es));
  }

  lemma UniqueHasEProps'(d: Tables)
    requires Unique(d)
    ensures UniqueEProps(d.eprops)
  {
  }

  // ---------- landing again ----------

  /** What the second import lands on: its first import's rows wiped, everything else in place. */
  lemma SecondResolution(db: Tables, d: Tables, vs: seq<Vertex>, es: seq<Edge>, l: Loader, l': Loader, gone: set<int>,
      kept: Tables)
    requires First(db, vs, es) && d == Import(db, vs, es).value
    requires EdgePass(db, vs, es).Ok? && l == EdgePass(db, vs, es).value.0 && EdgePass(d, vs, es) == Ok((l', gone))
    requires kept == WipeEdges(WipeVertices(d, MatchedAgain(d, vs, es)), gone)
    ensures ResolveReplace(d, Document(d, vs, es)) == Ok((kept, l'))
    ensures Consistent(kept) && InStep(l') && PositiveBuffers(l')
  {
    ImportIsImportable(db, vs, es);
    DocumentIsSound(d, vs, es);
    hide First, Import, Importable, Consistent, Sound, InStep, PositiveBuffers, WipeVertices, WipeEdges, Deduped,
         ReplaceVertices, ReplaceEdges;
    ImportableProps(d, vs, es);
    ResolveReplaceIsSound(d, Document(d, vs, es));
  }

  lemma ImportableProps(d: Tables, vs: seq<Vertex>, es: seq<Edge>)
    requires Importable(d, vs, es)
    ensures (forall v | v in vs :: PositiveIn(v.props)) && forall e | e in es :: PositiveIn(e.props)
  {
    hide Consistent, Replaceable, KeyedEdges;
  }

  /** What the second flush adds to, table by table. */
  lemma KeptTables(d: Tables, matched: set<int>, gone: set<int>, kept: Tables)
    requires kept == WipeEdges(WipeVertices(d, matched), gone)
    ensures kept.nodes == d.nodes && kept.labels == WipeVertices(d, matched).labels
      && kept.vprops == WipeVertices(d, matched).vprops
    ensures kept.edges == EdgesKept(d, gone) && kept.eprops == EPropsKept(d, gone) && kept.journal == d.journal
  {
  }

  /** The inserts of a flush whose rows all fit, and whose deferred edges resolve, land. */
  lemma LandsWhenFitting(kept: Tables, l: Loader, rows: seq<EdgeRow>)
    requires l.journal == None && l.nodeRows == [] && UniqueNodes(kept.nodes) && NoRepeats(kept.journal)
    requires NoRepeats(kept.labels + multiset(l.labelRows)) && UniqueVProps(kept.vprops + multiset(l.vprops))
    requires ResolvePending(kept.nodes, l.vertexIds, l.pending).Ok? && rows == NewEdges(kept.nodes, l)
    requires UniqueEdges(kept.edges + multiset(rows)) && UniqueEProps(kept.eprops + multiset(l.eprops))
    requires UniqueFts(kept.fts + multiset(l.fts))
    ensures LandRows(kept, l).Ok?
  {
    hide UniqueNodes, UniqueEdges, UniqueVProps, UniqueEProps, UniqueFts, NoRepeats, ResolvePending;
    assert kept.nodes + multiset(l.nodeRows) == kept.nodes;
  }

  /** Index and properties after the flush, as bags. */
  lemma IndexFits(kept: Tables, l: Loader, a: seq<PropRow>, ea: seq<PropRow>, t: Tables, next: int, enext: int)
    requires Consistent(kept) && InStep(l) && PositiveBuffers(l)
      && l.fts == FtsRows(NodeKind, l.vprops) + FtsRows(EdgeKind, l.eprops)
    requires Relands(t.vprops, kept.vprops, a, l.vprops, next) && Relands(t.eprops, kept.eprops, ea, l.eprops, enext)
    ensures UniqueFts(kept.fts + multiset(l.fts))
  {
    RelandedDiffer(t.vprops, kept.vprops, a, l.vprops, next);
    RelandedDiffer(t.eprops, kept.eprops, ea, l.eprops, enext);
    RelandedAreApart(t.vprops, kept.vprops, a, l.vprops, next);
    RelandedAreApart(t.eprops, kept.eprops, ea, l.eprops, enext);
    ConsistentIs(kept);
    UniqueHasIndex(kept);
    hide Relands, Consistent, Unique, FtsRows, IdsApart;
    IndexFitsAgain(kept, l.vprops, l.eprops);
    var d := kept.(vprops := kept.vprops + multiset(l.vprops), eprops := kept.eprops + multiset(l.eprops),
                   fts := kept.fts + multiset(l.fts));
    StaysIndexed(kept, l, d);
    IndexApart(d);
  }

  lemma UniqueHasIndex(d: Tables)
    requires Unique(d)
    ensures NoRepeats(d.fts)
  {
  }

  lemma StaysIndexed(kept: Tables, l: Loader, d: Tables)
    requires Indexed(kept) && PositiveProps(kept) && InStep(l) && PositiveBuffers(l)
    requires d == kept.(vprops := kept.vprops + multiset(l.vprops), eprops := kept.eprops + multiset(l.eprops),
                        fts := kept.fts + multiset(l.fts))
    ensures Indexed(d) && PositiveProps(d)
  {
    forall r ensures r in d.fts <==> Indexes(NodeKind, d.vprops, r) || Indexes(EdgeKind, d.eprops, r) {
      IndexUnion(NodeKind, kept.vprops, multiset(l.vprops), r);
      IndexUnion(EdgeKind, kept.eprops, multiset(l.eprops), r);
      assert InStepRow(l.fts, l.vprops, l.eprops, r);
    }
  }

  lemma {:induction false} EdgesLeaveSettings(edges: multiset<EdgeRow>, l: Loader, es: seq<Edge>)
    requires ReplaceEdges(edges, l, es).Ok?
    ensures var l' := ReplaceEdges(edges, l, es).value.0; l'.opts == l.opts && l'.journal == l.journal
  {
    hide PropRows, NextProp, FtsRows;
    if es != [] { EdgesLeaveSettings(edges, l, es[..|es| - 1]); }
  }

  /** What the edge pass leaves of the vertex pass. */
  lemma SecondBuffers(db: Tables, d: Tables, vs: seq<Vertex>, es: seq<Edge>, l: Loader, l': Loader)
    requires First(db, vs, es) && d == Import(db, vs, es).value
    requires EdgePass(db, vs, es).Ok? && l == EdgePass(db, vs, es).value.0
    requires EdgePass(d, vs, es).Ok? && l' == EdgePass(d, vs, es).value.0
    ensures l'.nodeRows == [] && l'.journal == None && l'.opts == REPLACE
    ensures l'.labelRows == Placed(d, vs, es).labelRows && l'.vprops == Placed(d, vs, es).vprops
    ensures l'.fts == FtsRows(NodeKind, l'.vprops) + FtsRows(EdgeKind, l'.eprops)
  {
    SecondVertexPass(db, vs, es);
    SecondEdgeProps(db, d, vs, es, l, l');
    PlacedCursors(d, vs, es);
    hide First, Import, Placed, Deduped, FtsRows, ReplaceEdges, RowidsOf, NextOf, Refreshed, OwnersTwin, Below;
    EdgesLeaveVertexBuffers(d.edges, Placed(d, vs, es), Deduped(es, EdgeKey));
    EdgesLeaveSettings(d.edges, Placed(d, vs, es), Deduped(es, EdgeKey));
  }

  /** The rows of the second flush fit and its deferred edges resolve. */
  lemma SecondLands(db: Tables, d: Tables, vs: seq<Vertex>, es: seq<Edge>, l: Loader, l': Loader, gone: set<int>,
      kept: Tables)
    requires First(db, vs, es) && d == Import(db, vs, es).value
    requires EdgePass(db, vs, es).Ok? && l == EdgePass(db, vs, es).value.0 && EdgePass(d, vs, es) == Ok((l', gone))
    requires TwinLoaders(l, l') && kept == WipeEdges(WipeVertices(d, MatchedAgain(d, vs, es)), gone)
    ensures LandRows(kept, l').Ok?
  {
    var p := Placed(db, vs, es);
    SecondBuffers(db, d, vs, es, l, l');
    SecondVertexRowsFit(db, vs, es);
    SecondResolves(db, d, vs, es, l, l');
    SecondEdgesFit(db, d, vs, es, l, l', gone);
    SecondEdgePropsFit(db, d, vs, es, l, l', gone);
    SecondResolution(db, d, vs, es, l, l', gone, kept);
    KeptTables(d, MatchedAgain(d, vs, es), gone, kept);
    FirstVertexRows(db, vs, es);
    UniqueElsewhere(d);
    hide First, Import, EdgePass, Placed, MatchedAgain, WipeVertices, WipeEdges, Relands, Consistent, InStep,
         PositiveBuffers, NextOf, NewEdges, ResolvePending, EdgesKept, EPropsKept, Unique, UniqueNodes, UniqueEdges,
         UniqueEProps, UniqueVProps, UniqueFts, NoRepeats, FtsRows, TwinLoaders, Twins, TargetsOf;
    IndexFits(kept, l', p.vprops, l.eprops, d, NextOf(d.vprops), NextOf(d.eprops));
    VPropsFit(d, kept, p.vprops, l'.vprops);
    LandsWhenFitting(kept, l', NewEdges(d.nodes, l'));
  }

  lemma UniqueElsewhere(d: Tables)
    requires Unique(d)
    ensures UniqueNodes(d.nodes) && NoRepeats(d.journal)
  {
  }

  lemma VPropsFit(d: Tables, kept: Tables, a: seq<PropRow>, b: seq<PropRow>)
    requires Relands(d.vprops, kept.vprops, a, b, NextOf(d.vprops))
    ensures UniqueVProps(kept.vprops + multiset(b))
  {
    RelandedAreApart(d.vprops, kept.vprops, a, b, NextOf(d.vprops));
  }

  /** THE SECOND IMPORT SUCCEEDS whenever the first one did. */
  lemma SecondImportSucceeds(db: Tables, vs: seq<Vertex>, es: seq<Edge>)
    requires Importable(db, vs, es) && Import(db, vs, es).Ok?
    ensures Import(Import(db, vs, es).value, vs, es).Ok?
  {
    var d := Import(db, vs, es).value;
    SecondEdgePass(db, d, vs, es);
    var l := EdgePass(db, vs, es).value.0;
    var (l', gone) := EdgePass(d, vs, es).value;
    var kept := WipeEdges(WipeVertices(d, MatchedAgain(d, vs, es)), gone);
    SecondResolution(db, d, vs, es, l, l', gone, kept);
    SecondLands(db, d, vs, es, l, l', gone, kept);
    LandingSucceeds(d, Document(d, vs, es), kept, l');
  }

  lemma LandingSucceeds(d: Tables, l: Loader, kept: Tables, l': Loader)
    requires l.opts.onCollision.Replace? && ResolveReplace(d, l) == Ok((kept, l')) && LandRows(kept, l').Ok?
    ensures LandBatch(d, l).Ok?
  {
    hide ResolveReplace, LandRows;
  }

  /** IDEMPOTENT RE-IMPORT. Importing a keyed document a second time succeeds, and leaves the same vertices, labels
      and declared cardinalities, the same edges one for one (a numeric edge under the same rowid, a string-keyed
      one under the same uid), and the same properties on each, up to property rowids. */
  lemma ReimportChangesNothing(db: Tables, vs: seq<Vertex>, es: seq<Edge>)
    requires Importable(db, vs, es) && Import(db, vs, es).Ok?
    ensures Import(Import(db, vs, es).value, vs, es).Ok?
    ensures var d1 := Import(db, vs, es).value; var d2 := Import(d1, vs, es).value;
      SameVertices(d1, d2) && SameEdges(d1, d2)
  {
    hide Import, Importable, SameVertices, SameEdges;
    SecondImportSucceeds(db, vs, es);
    SecondImportSame(db, vs, es);
  }
}
