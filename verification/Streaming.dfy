/** A streamed load is all or nothing (src/bulk.ts `BatchingLoader`, src/storage.ts `rollbackBulkLoads`):
    what its batches landed so far is exactly what its journal undoes. */
module Streaming {
  import opened Utf16
  import opened Graph
  import opened Dedupe
  import opened Loader
  import opened FullText
  import opened Consistency

  /** The rows that are new since `db0` are the ones journaled under `load`, or owned by those. */
  ghost predicate Extends(db0: Tables, db: Tables, load: Text) {
    && Unique(db)
    && db0.nodes <= db.nodes && db0.labels <= db.labels && db0.vprops <= db.vprops && db0.cards == db.cards
    && db0.edges <= db.edges && db0.eprops <= db.eprops && db0.fts <= db.fts && db0.journal <= db.journal
    && (forall j | j in db0.journal :: j.load != load)
    && (forall j | j in db.journal :: j in db0.journal || j.load == load)
    && (forall r | r in db.nodes :: r !in db0.nodes <==> InJournal(db, load, NodeKind, r.id))
    && (forall r | r in db.edges :: r !in db0.edges <==> InJournal(db, load, EdgeKind, r.id))
    && (forall r | r in db.labels :: r in db0.labels || InJournal(db, load, NodeKind, r.node))
    && (forall r | r in db.vprops :: r in db0.vprops || InJournal(db, load, NodeKind, r.owner))
    && (forall r | r in db.eprops :: r in db0.eprops || OwnedByNew(db0, db, r.owner))
    && (forall r | r in db.fts :: r in db0.fts || IndexesNew(db0, db, r))
  }

  ghost predicate InJournal(db: Tables, load: Text, kind: Kind, id: int) {
    JournalRow(load, kind, id) in db.journal
  }

  ghost predicate OwnedByNew(db0: Tables, db: Tables, edge: int) {
    exists e :: e in db.edges && e !in db0.edges && e.id == edge
  }

  ghost predicate IndexesNew(db0: Tables, db: Tables, r: FtsRow) {
    || (exists p :: p in db.vprops && p !in db0.vprops && r.rowid == p.id)
    || (exists p :: p in db.eprops && p !in db0.eprops && r.rowid == -p.id)
  }

  lemma StartExtends(db0: Tables, load: Text)
    requires Intact(db0) && forall j | j in db0.journal :: j.load != load
    ensures Extends(db0, db0, load)
  {
  }

  // ---------- undoing ----------

  /** A scope that covers this load and no journal row older than it: the load's own token, or every load
      when the journal was empty before it (the sweep when a store opens). */
  ghost predicate Covers(scope: Option<Text>, db0: Tables, load: Text) {
    scope == Some(load) || (scope.None? && db0.journal == multiset{})
  }

  lemma JournaledIsNew(db0: Tables, db: Tables, load: Text, scope: Option<Text>, kind: Kind, id: int)
    requires Extends(db0, db, load) && Covers(scope, db0, load)
    ensures Journaled(db, scope, kind, id) <==> InJournal(db, load, kind, id)
  {
    if j :| j in db.journal && j.kind == kind && j.id == id && InScope(j, scope) {
      assert j == JournalRow(load, kind, id);
    }
  }

  lemma OldNodesStay(db0: Tables, db: Tables, load: Text, id: int)
    requires Extends(db0, db, load) && HasNode(db0.nodes, id)
    ensures !InJournal(db, load, NodeKind, id)
  {
    var r :| r in db0.nodes && r.id == id;
    assert r in db.nodes;
  }

  lemma TouchedIsNew(db0: Tables, db: Tables, load: Text, scope: Option<Text>, e: EdgeRow)
    requires References(db0) && Extends(db0, db, load) && Covers(scope, db0, load) && e in db.edges
    ensures Touches(db, scope, e) <==> e !in db0.edges
  {
    JournaledIsNew(db0, db, load, scope, EdgeKind, e.id);
    JournaledIsNew(db0, db, load, scope, NodeKind, e.src);
    JournaledIsNew(db0, db, load, scope, NodeKind, e.tgt);
    if e in db0.edges {
      OldNodesStay(db0, db, load, e.src);
      OldNodesStay(db0, db, load, e.tgt);
    }
  }

  lemma GoneEdgeIsNew(db0: Tables, db: Tables, load: Text, scope: Option<Text>, edge: int)
    requires References(db0) && Extends(db0, db, load) && Covers(scope, db0, load)
    ensures OwnedByTouched(db, scope, edge) <==> OwnedByNew(db0, db, edge)
  {
    if e :| e in db.edges && e.id == edge && Touches(db, scope, e) { TouchedIsNew(db0, db, load, scope, e); }
    if e :| e in db.edges && e !in db0.edges && e.id == edge { TouchedIsNew(db0, db, load, scope, e); }
  }

  lemma UndoRestoresNodes(db0: Tables, db: Tables, load: Text, scope: Option<Text>)
    requires Intact(db0) && Extends(db0, db, load) && Covers(scope, db0, load)
    ensures NodesLeft(db, scope) == db0.nodes
    ensures LabelsLeft(db, scope) == db0.labels
    ensures VPropsLeft(db, scope) == db0.vprops
    ensures CardsLeft(db, scope) == db0.cards
  {
    forall id { JournaledIsNew(db0, db, load, scope, NodeKind, id); }
    forall id | HasNode(db0.nodes, id) ensures !InJournal(db, load, NodeKind, id) { OldNodesStay(db0, db, load, id); }
    hide Journaled, InJournal, IndexesNew, OwnedByNew;
    KeepRestores(db.nodes, (r: NodeRow) => !Journaled(db, scope, NodeKind, r.id), db0.nodes);
    KeepRestores(db.labels, (r: LabelRow) => !Journaled(db, scope, NodeKind, r.node), db0.labels);
    KeepRestores(db.vprops, (r: PropRow) => !Journaled(db, scope, NodeKind, r.owner), db0.vprops);
    KeepRestores(db.cards, (r: CardRow) => !Journaled(db, scope, NodeKind, r.node), db0.cards);
  }

  lemma OldEdgePropsStay(db0: Tables, db: Tables, load: Text, p: PropRow)
    requires References(db0) && Extends(db0, db, load) && p in db.eprops
    ensures p in db0.eprops <==> !OwnedByNew(db0, db, p.owner)
  {
    if p in db0.eprops {
      var e0 :| e0 in db0.edges && e0.id == p.owner;
      assert e0 in db.edges;
    }
  }

  lemma UndoRestoresEdges(db0: Tables, db: Tables, load: Text, scope: Option<Text>)
    requires Intact(db0) && Extends(db0, db, load) && Covers(scope, db0, load)
    ensures EdgesLeft(db, scope) == db0.edges
    ensures EdgePropsLeft(db, scope) == db0.eprops
    ensures JournalLeft(db, scope) == db0.journal
  {
    forall e | e in db.edges ensures Touches(db, scope, e) <==> e !in db0.edges {
      TouchedIsNew(db0, db, load, scope, e);
    }
    forall p | p in db.eprops ensures OwnedByTouched(db, scope, p.owner) <==> p !in db0.eprops {
      GoneEdgeIsNew(db0, db, load, scope, p.owner);
      OldEdgePropsStay(db0, db, load, p);
    }
    hide Touches, OwnedByTouched, InJournal, IndexesNew, OwnedByNew;
    KeepRestores(db.edges, (r: EdgeRow) => !Touches(db, scope, r), db0.edges);
    KeepRestores(db.eprops, (r: PropRow) => !OwnedByTouched(db, scope, r.owner), db0.eprops);
    KeepRestores(db.journal, (j: JournalRow) => !InScope(j, scope), db0.journal);
  }

  /** The undo's two seeks through the property tables reach exactly the index rows of new properties. */
  lemma SeeksReachNew(db0: Tables, db: Tables, load: Text, scope: Option<Text>, r: FtsRow)
    requires Intact(db0) && Extends(db0, db, load) && Covers(scope, db0, load)
    ensures IndexesNew(db0, db, r) <==>
      || SeekFromEdges(db, o => OwnedByTouched(db, scope, o), r)
      || SeekFromVertices(db, o => Journaled(db, scope, NodeKind, o), r)
  {
    hide Unique, Indexed, PositiveProps, Touches;
    forall p | p in db.eprops ensures OwnedByTouched(db, scope, p.owner) <==> p !in db0.eprops {
      GoneEdgeIsNew(db0, db, load, scope, p.owner);
      OldEdgePropsStay(db0, db, load, p);
    }
    forall p | p in db.vprops ensures Journaled(db, scope, NodeKind, p.owner) <==> p !in db0.vprops {
      JournaledIsNew(db0, db, load, scope, NodeKind, p.owner);
      if p in db0.vprops { OldNodesStay(db0, db, load, p.owner); }
    }
  }

  /** A new property has the negated id of an old, indexed property of the other kind, and so the rowid of its
      index row. */
  ghost predicate Opposed(db0: Tables, db: Tables) {
    || (exists p, q :: p in db.vprops && p !in db0.vprops && q in db0.eprops && q.value.text != "" && p.id == -q.id)
    || (exists p, q :: p in db.eprops && p !in db0.eprops && q in db0.vprops && q.value.text != "" && p.id == -q.id)
  }

  /** An old index row is reached exactly through such a property. */
  lemma OldIndexRow(db0: Tables, db: Tables, load: Text)
    requires Intact(db0) && Extends(db0, db, load)
    ensures Opposed(db0, db) <==> exists r :: r in db0.fts && IndexesNew(db0, db, r)
  {
    hide References, InJournal, OwnedByNew;
    if r :| r in db0.fts && IndexesNew(db0, db, r) { ReachedIsOpposed(db0, db, load, r); }
    if Opposed(db0, db) { OpposedIsReached(db0, db); }
  }

  lemma ReachedIsOpposed(db0: Tables, db: Tables, load: Text, r: FtsRow)
    requires Intact(db0) && Extends(db0, db, load) && r in db0.fts && IndexesNew(db0, db, r)
    ensures Opposed(db0, db)
  {
    hide References, InJournal, OwnedByNew;
    if Indexes(NodeKind, db0.vprops, r) {
      var q :| q in db0.vprops && q.value.text != "" && r == FtsOf(NodeKind, q);
      assert q in db.vprops && r.rowid == q.id;
    } else {
      var q :| q in db0.eprops && q.value.text != "" && r == FtsOf(EdgeKind, q);
      assert q in db.eprops && r.rowid == -q.id;
    }
  }

  lemma OpposedIsReached(db0: Tables, db: Tables)
    requires Indexed(db0) && Opposed(db0, db)
    ensures exists r :: r in db0.fts && IndexesNew(db0, db, r)
  {
    if p, q :| p in db.vprops && p !in db0.vprops && q in db0.eprops && q.value.text != "" && p.id == -q.id {
      assert FtsOf(EdgeKind, q) in db0.fts && IndexesNew(db0, db, FtsOf(EdgeKind, q));
    } else {
      var p, q :| p in db.eprops && p !in db0.eprops && q in db0.vprops && q.value.text != "" && p.id == -q.id;
      assert FtsOf(NodeKind, q) in db0.fts && IndexesNew(db0, db, FtsOf(NodeKind, q));
    }
  }

  /** What the two seeks leave of the index: the old rows that no new property reaches. */
  lemma UndoneIndex(db0: Tables, db: Tables, load: Text, scope: Option<Text>)
    requires Intact(db0) && Extends(db0, db, load) && Covers(scope, db0, load)
    ensures forall r :: r in VertexIndexLeft(db.(fts := EdgeIndexLeft(db, scope)), scope) <==>
      r in db0.fts && !IndexesNew(db0, db, r)
  {
    hide Journaled, OwnedByTouched, IndexesNew, SeekFromEdges, SeekFromVertices, References, Indexed;
    var edgeGone := (o: int) => OwnedByTouched(db, scope, o);
    var db1 := db.(fts := EdgeIndexLeft(db, scope));
    var nodeGone := (o: int) => Journaled(db1, scope, NodeKind, o);
    KeepIsUnique(db.fts, (r: FtsRow) => !SeekFromEdges(db, edgeGone, r));
    KeepIsUnique(db1.fts, (r: FtsRow) => !SeekFromVertices(db1, nodeGone, r));
    forall r ensures r in VertexIndexLeft(db1, scope) <==> r in db0.fts && !IndexesNew(db0, db, r) {
      if r in db.fts {
        SeeksReachNew(db0, db, load, scope, r);
        SameSeek(db, db1, scope, r);
      }
    }
  }

  lemma UndoRestoresIndex(db0: Tables, db: Tables, load: Text, scope: Option<Text>)
    requires Intact(db0) && Extends(db0, db, load) && Covers(scope, db0, load)
    ensures VertexIndexLeft(db.(fts := EdgeIndexLeft(db, scope)), scope) == db0.fts <==> !Opposed(db0, db)
  {
    UndoneIndex(db0, db, load, scope);
    OldIndexRow(db0, db, load);
    var left := VertexIndexLeft(db.(fts := EdgeIndexLeft(db, scope)), scope);
    KeptIsUnique(db.(fts := EdgeIndexLeft(db, scope)), scope);
    hide VertexIndexLeft, EdgeIndexLeft, Opposed, IndexesNew, Extends, References, Indexed, Covers;
    if !Opposed(db0, db) { SameBag(left, db0.fts); }
  }

  lemma KeptIsUnique(db: Tables, scope: Option<Text>)
    ensures NoRepeats(VertexIndexLeft(db, scope))
  {
    var gone := (o: int) => Journaled(db, scope, NodeKind, o);
    KeepIsUnique(db.fts, (r: FtsRow) => !SeekFromVertices(db, gone, r));
  }

  lemma SameBag<T(!new)>(a: multiset<T>, b: multiset<T>)
    requires NoRepeats(a) && NoRepeats(b) && forall r :: r in a <==> r in b
    ensures a == b
  {
    forall r ensures a[r] == b[r] { assert r in a <==> r in b; }
  }

  lemma SameSeek(db: Tables, db1: Tables, scope: Option<Text>, r: FtsRow)
    requires db1 == db.(fts := db1.fts)
    ensures SeekFromVertices(db1, o => Journaled(db1, scope, NodeKind, o), r)
       <==> SeekFromVertices(db, o => Journaled(db, scope, NodeKind, o), r)
  {
  }

  /** The undo gives back the graph exactly as it was before the load, journal included, exactly when no landed
      property has the negated id of an indexed property that was there before, of the other kind. The sweep when
      a store opens after the load's process died does the same, if no other load was journaled. */
  lemma UndoRestoresExactly(db0: Tables, db: Tables, load: Text, scope: Option<Text>)
    requires Intact(db0) && Extends(db0, db, load) && Covers(scope, db0, load)
    ensures Rollback(db, scope) == db0 <==> !Opposed(db0, db)
    ensures Rollback(db, scope) == db0.(fts := Rollback(db, scope).fts)
  {
    hide Extends, Intact, Opposed, Covers;
    UndoRestoresNodes(db0, db, load, scope);
    UndoRestoresEdges(db0, db, load, scope);
    UndoRestoresIndex(db0, db, load, scope);
  }

  /** Completing a load clears its own journal rows and nothing else. */
  lemma ClearForgets(db0: Tables, db: Tables, load: Text)
    requires Intact(db0) && Extends(db0, db, load)
    ensures ClearJournal(db, load).journal == db0.journal
  {
    KeepRestores(db.journal, (j: JournalRow) => j.load != load, db0.journal);
  }

  // ---------- one batch ----------

  /** The append loader of a streamed batch. */
  ghost function Batch(db: Tables, idPolicy: IdPolicy, load: Text, ops: seq<Op>): Result<Loader> {
    Feed(Fresh(db, Options(idPolicy, FailClosed), Some(load)), ops)
  }

  lemma AddedRowsAreNew<T>(t: multiset<T>, rows: seq<T>, r: T)
    requires NoRepeats(t + multiset(rows)) && r in rows
    ensures r !in t
  {
    assert r in t + multiset(rows);
    assert multiset(rows)[r] >= 1;
    assert (t + multiset(rows))[r] == t[r] + multiset(rows)[r];
  }

  lemma JournalHas(load: Text, nodes: seq<NodeRow>, edges: seq<EdgeRow>, kind: Kind, id: int)
    ensures JournalRow(load, kind, id) in JournalRows(load, nodes, edges) <==>
      if kind.NodeKind? then exists r :: r in nodes && r.id == id else exists r :: r in edges && r.id == id
  {
    var rows := JournalRows(load, nodes, edges);
    if JournalRow(load, kind, id) in rows {
      var i :| 0 <= i < |rows| && rows[i] == JournalRow(load, kind, id);
      assert i < |nodes| ==> nodes[i] in nodes && nodes[i].id == id;
      assert i >= |nodes| ==> edges[i - |nodes|] in edges && edges[i - |nodes|].id == id;
    }
    if kind.NodeKind? {
      if r :| r in nodes && r.id == id {
        var i :| 0 <= i < |nodes| && nodes[i] == r;
        assert rows[i] == JournalRow(load, kind, id);
      }
    } else {
      if r :| r in edges && r.id == id {
        var i :| 0 <= i < |edges| && edges[i] == r;
        assert rows[|nodes| + i] == JournalRow(load, kind, id);
      }
    }
  }

  lemma JournalGrows(db: Tables, db': Tables, load: Text, nodes: seq<NodeRow>, edges: seq<EdgeRow>, kind: Kind, id: int)
    requires db'.journal == db.journal + multiset(JournalRows(load, nodes, edges))
    ensures InJournal(db', load, kind, id) <==>
      || InJournal(db, load, kind, id)
      || if kind.NodeKind? then exists r :: r in nodes && r.id == id else exists r :: r in edges && r.id == id
  {
    JournalHas(load, nodes, edges, kind, id);
    var j := JournalRow(load, kind, id);
    assert j in db'.journal <==> j in db.journal || j in JournalRows(load, nodes, edges);
  }

  /** What landing one batch added to each table. */
  ghost predicate Added(db: Tables, db': Tables, load: Text, l: Loader, edges: seq<EdgeRow>) {
    && db'.nodes == db.nodes + multiset(l.nodeRows)
    && db'.labels == db.labels + multiset(l.labelRows)
    && db'.vprops == db.vprops + multiset(l.vprops)
    && db'.cards == db.cards
    && db'.edges == db.edges + multiset(edges)
    && db'.eprops == db.eprops + multiset(l.eprops)
    && db'.fts == db.fts + multiset(l.fts)
    && db'.journal == db.journal + multiset(JournalRows(load, l.nodeRows, edges))
    && (forall r | r in l.eprops :: exists e :: e in edges && e.id == r.owner)
  }

  lemma LandAdds(db: Tables, l: Loader, load: Text) returns (edges: seq<EdgeRow>)
    requires l.journal == Some(load) && Sound(multiset{}, l) && LandRows(db, l).Ok?
    ensures Added(db, LandRows(db, l).value.0, load, l, edges)
  {
    hide UniqueNodes, UniqueEdges, UniqueVProps, UniqueEProps, UniqueFts, NoRepeats, ResolvePending, JournalRows;
    var all := db.nodes + multiset(l.nodeRows);
    assert multiset{} + multiset(l.nodeRows) == multiset(l.nodeRows);
    forall s | s in l.vertexIds ensures HasNode(all, l.vertexIds[s]) {
      MoreNodes(multiset(l.nodeRows), db.nodes, l.vertexIds[s]);
      assert multiset(l.nodeRows) + db.nodes == all;
    }
    ResolvedRows(all, l.vertexIds, l.pending);
    var rows := ResolvePending(all, l.vertexIds, l.pending).value.0;
    edges := l.edgeRows + rows;
    forall r | r in l.eprops ensures exists e :: e in edges && e.id == r.owner {
      LandedOwner(l, multiset{}, rows, r.owner);
      assert multiset{} + multiset(edges) == multiset(edges);
    }
  }

  lemma AddedNodesExtend(db0: Tables, db: Tables, db': Tables, load: Text, l: Loader, edges: seq<EdgeRow>)
    requires Extends(db0, db, load) && Unique(db') && Added(db, db', load, l, edges)
    ensures forall r | r in db'.nodes :: r !in db0.nodes <==> InJournal(db', load, NodeKind, r.id)
    ensures forall r | r in db'.edges :: r !in db0.edges <==> InJournal(db', load, EdgeKind, r.id)
  {
    forall r | r in db'.nodes ensures r !in db0.nodes <==> InJournal(db', load, NodeKind, r.id) {
      JournalGrows(db, db', load, l.nodeRows, edges, NodeKind, r.id);
      if r in l.nodeRows { AddedRowsAreNew(db.nodes, l.nodeRows, r); }
      forall x | x in l.nodeRows && x.id == r.id ensures x == r { assert x in db'.nodes; }
    }
    forall r | r in db'.edges ensures r !in db0.edges <==> InJournal(db', load, EdgeKind, r.id) {
      JournalGrows(db, db', load, l.nodeRows, edges, EdgeKind, r.id);
      if r in edges { AddedRowsAreNew(db.edges, edges, r); }
      forall x | x in edges && x.id == r.id ensures x == r { assert x in db'.edges; }
    }
  }

  lemma AddedPropsExtend(db0: Tables, db: Tables, db': Tables, load: Text, l: Loader, edges: seq<EdgeRow>)
    requires Extends(db0, db, load) && Unique(db') && Added(db, db', load, l, edges)
    requires Sound(multiset{}, l)
    ensures forall r | r in db'.labels :: r in db0.labels || InJournal(db', load, NodeKind, r.node)
    ensures forall r | r in db'.vprops :: r in db0.vprops || InJournal(db', load, NodeKind, r.owner)
    ensures forall r | r in db'.eprops :: r in db0.eprops || OwnedByNew(db0, db', r.owner)
  {
    assert multiset{} + multiset(l.nodeRows) == multiset(l.nodeRows);
    forall id | HasNode(multiset(l.nodeRows), id) || InJournal(db, load, NodeKind, id)
      ensures InJournal(db', load, NodeKind, id) {
      JournalGrows(db, db', load, l.nodeRows, edges, NodeKind, id);
    }
    forall r | r in db'.eprops ensures r in db0.eprops || OwnedByNew(db0, db', r.owner) {
      if r in l.eprops {
        var e :| e in edges && e.id == r.owner;
        AddedRowsAreNew(db.edges, edges, e);
        assert e in db'.edges && e !in db0.edges;
      } else if r !in db0.eprops {
        var e :| e in db.edges && e !in db0.edges && e.id == r.owner;
        assert e in db'.edges;
      }
    }
  }

  lemma AddedIsNew(t0: multiset<PropRow>, t: multiset<PropRow>, t': multiset<PropRow>, rows: seq<PropRow>, p: PropRow)
    requires t0 <= t && t' == t + multiset(rows) && NoRepeats(t') && p in rows
    ensures p in t' && p !in t0
  {
    AddedRowsAreNew(t, rows, p);
    assert p in multiset(rows);
  }

  lemma AddedIndexExtends(db0: Tables, db: Tables, db': Tables, load: Text, l: Loader, edges: seq<EdgeRow>, r: FtsRow)
    requires Extends(db0, db, load) && Unique(db') && Added(db, db', load, l, edges)
    requires InStepRow(l.fts, l.vprops, l.eprops, r) && r in db'.fts
    ensures r in db0.fts || IndexesNew(db0, db', r)
  {
    assert db0.vprops <= db.vprops && db0.eprops <= db.eprops;
    assert db'.vprops == db.vprops + multiset(l.vprops) && db'.eprops == db.eprops + multiset(l.eprops);
    assert NoRepeats(db'.vprops) && NoRepeats(db'.eprops);
    assert r in db.fts ==> r in db0.fts || IndexesNew(db0, db, r);
    assert r in db.fts || r in l.fts;
    hide Extends, Added, Unique;
    if r in l.fts {
      if Indexes(NodeKind, multiset(l.vprops), r) {
        var p :| p in multiset(l.vprops) && p.value.text != "" && r == FtsOf(NodeKind, p);
        AddedIsNew(db0.vprops, db.vprops, db'.vprops, l.vprops, p);
      } else {
        var p :| p in multiset(l.eprops) && p.value.text != "" && r == FtsOf(EdgeKind, p);
        AddedIsNew(db0.eprops, db.eprops, db'.eprops, l.eprops, p);
      }
    } else if r !in db0.fts {
      assert r in db.fts && IndexesNew(db0, db, r);
    }
  }

  lemma AddedExtends(db0: Tables, db: Tables, db': Tables, load: Text, l: Loader, edges: seq<EdgeRow>)
    requires Extends(db0, db, load) && Unique(db') && Added(db, db', load, l, edges)
    requires Sound(multiset{}, l) && InStep(l)
    ensures Extends(db0, db', load)
  {
    AddedNodesExtend(db0, db, db', load, l, edges);
    AddedPropsExtend(db0, db, db', load, l, edges);
    forall r | r in db'.fts ensures r in db0.fts || IndexesNew(db0, db', r) {
      assert InStepRow(l.fts, l.vprops, l.eprops, r);
      AddedIndexExtends(db0, db, db', load, l, edges, r);
    }
    forall j | j in db'.journal ensures j in db0.journal || j.load == load {
      assert j in db.journal || j in JournalRows(load, l.nodeRows, edges);
    }
  }

  /** Landing one more batch of the load keeps the journal exact. */
  lemma BatchExtends(db0: Tables, db: Tables, idPolicy: IdPolicy, load: Text, ops: seq<Op>)
    requires Intact(db) && Extends(db0, db, load)
    requires Batch(db, idPolicy, load, ops).Ok? && LandBatch(db, Batch(db, idPolicy, load, ops).value).Ok?
    ensures var db' := LandBatch(db, Batch(db, idPolicy, load, ops).value).value.0;
      Intact(db') && Extends(db0, db', load)
  {
    var opts := Options(idPolicy, FailClosed);
    var l := Batch(db, idPolicy, load, ops).value;
    FeedIsSound(multiset{}, db, opts, Some(load), ops);
    FeedInStep(Fresh(db, opts, Some(load)), ops);
    FeedKeepsOptions(Fresh(db, opts, Some(load)), ops);
    AppendKeepsIntact(db, opts, Some(load), ops);
    var db' := LandBatch(db, l).value.0;
    assert l.journal == Some(load) && LandRows(db, l) == LandBatch(db, l);
    hide Feed, Fresh, Intact, Extends, Added, Sound, LandRows, LandBatch, InStep;
    var edges := LandAdds(db, l, load);
    AddedExtends(db0, db, db', load, l, edges);
  }
}
