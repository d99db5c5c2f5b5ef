/** `Batching`'s theorems: one flush of a whole stream, and a stream cut into batches of any size, both
    come to landing its elements one at a time. */
module BatchingTheorem {
  import opened Utf16
  import opened Graph
  import opened Dedupe
  import opened Loader
  import opened FullText
  import opened Consistency
  import opened Cursors
  import opened Batching
  import opened BatchingProof
  import opened Committed

  // ---------- uniqueness is inherited by what was there earlier ----------

  lemma PrefixIsPart<T>(a: seq<T>, b: seq<T>)
    requires a <= b
    ensures multiset(a) <= multiset(b)
  {
    assert b == a + b[|a|..];
  }

  lemma NoRepeatsInherited<T>(a: multiset<T>, b: multiset<T>)
    requires a <= b && NoRepeats(b)
    ensures NoRepeats(a)
  {
    forall r | r in a ensures a[r] == 1 { assert b[r] == 1; }
  }

  lemma UniqueNodesInherited(a: multiset<NodeRow>, b: multiset<NodeRow>)
    requires a <= b && UniqueNodes(b)
    ensures UniqueNodes(a)
  {
    NoRepeatsInherited(a, b);
  }

  lemma UniqueEdgesInherited(a: multiset<EdgeRow>, b: multiset<EdgeRow>)
    requires a <= b && UniqueEdges(b)
    ensures UniqueEdges(a)
  {
    NoRepeatsInherited(a, b);
  }

  lemma UniqueVPropsInherited(a: multiset<PropRow>, b: multiset<PropRow>)
    requires a <= b && UniqueVProps(b)
    ensures UniqueVProps(a)
  {
    NoRepeatsInherited(a, b);
  }

  lemma UniqueEPropsInherited(a: multiset<PropRow>, b: multiset<PropRow>)
    requires a <= b && UniqueEProps(b)
    ensures UniqueEProps(a)
  {
    NoRepeatsInherited(a, b);
  }

  lemma UniqueFtsInherited(a: multiset<FtsRow>, b: multiset<FtsRow>)
    requires a <= b && UniqueFts(b)
    ensures UniqueFts(a)
  {
    NoRepeatsInherited(a, b);
  }

  /** The tables a landed loader leaves, its deferred edges resolved by lookup. */
  ghost predicate Lands(db: Tables, l: Loader) {
    var all := db.nodes + multiset(l.nodeRows);
    && UniqueNodes(all)
    && NoRepeats(db.labels + multiset(l.labelRows))
    && UniqueVProps(db.vprops + multiset(l.vprops))
    && AllFound(all, l.pending)
    && UniqueEdges(db.edges + multiset(l.edgeRows) + multiset(PendRows(all, l.pending)))
    && UniqueEProps(db.eprops + multiset(l.eprops))
    && UniqueFts(db.fts + multiset(l.fts))
  }

  lemma LandRowsLands(db: Tables, l: Loader, ops: seq<Op>)
    requires Backed(l, ops) && NamedEnds(l.pending, ops) && DistinctSpellings(ops) && LandRows(db, l).Ok?
    ensures Lands(db, l)
  {
    var all := db.nodes + multiset(l.nodeRows);
    BackedAgrees(l, all, ops);
    ResolveIsLookup(all, l.vertexIds, l.pending, ops);
    var rows := PendRows(all, l.pending);
    assert multiset(l.edgeRows + rows) == multiset(l.edgeRows) + multiset(rows);
    assert db.edges + multiset(l.edgeRows + rows) == db.edges + multiset(l.edgeRows) + multiset(rows);
  }

  lemma PartLands(db: Tables, part: Loader, l: Loader)
    requires Grows(part, l) && Lands(db, l)
    ensures UniqueNodes(db.nodes + multiset(part.nodeRows))
    ensures NoRepeats(db.labels + multiset(part.labelRows))
    ensures UniqueVProps(db.vprops + multiset(part.vprops))
    ensures UniqueEProps(db.eprops + multiset(part.eprops))
    ensures UniqueFts(db.fts + multiset(part.fts))
  {
    PrefixIsPart(part.nodeRows, l.nodeRows);
    PrefixIsPart(part.labelRows, l.labelRows);
    PrefixIsPart(part.vprops, l.vprops);
    PrefixIsPart(part.eprops, l.eprops);
    PrefixIsPart(part.fts, l.fts);
    UniqueNodesInherited(db.nodes + multiset(part.nodeRows), db.nodes + multiset(l.nodeRows));
    NoRepeatsInherited(db.labels + multiset(part.labelRows), db.labels + multiset(l.labelRows));
    UniqueVPropsInherited(db.vprops + multiset(part.vprops), db.vprops + multiset(l.vprops));
    UniqueEPropsInherited(db.eprops + multiset(part.eprops), db.eprops + multiset(l.eprops));
    UniqueFtsInherited(db.fts + multiset(part.fts), db.fts + multiset(l.fts));
  }

  /** Resolved against its own prefix of the vertices, a part's edges are among the whole's. */
  lemma PartEdgesLand(db: Tables, nodes: multiset<NodeRow>, part: Loader, l: Loader)
    requires Grows(part, l) && Lands(db, l)
    requires nodes <= db.nodes + multiset(l.nodeRows) && AllFound(nodes, part.pending)
    ensures UniqueEdges(db.edges + multiset(part.edgeRows) + multiset(PendRows(nodes, part.pending)))
  {
    var all := db.nodes + multiset(l.nodeRows);
    PendRowsStable(nodes, all, part.pending);
    assert PendRows(all, part.pending) <= PendRows(all, l.pending);
    PrefixIsPart(PendRows(all, part.pending), PendRows(all, l.pending));
    PrefixIsPart(part.edgeRows, l.edgeRows);
    UniqueEdgesInherited(db.edges + multiset(part.edgeRows) + multiset(PendRows(nodes, part.pending)),
                         db.edges + multiset(l.edgeRows) + multiset(PendRows(all, l.pending)));
  }

  // ---------- a flush that succeeds is a fold that succeeds ----------

  lemma NextVertexLands(db: Tables, d: Tables, part: Loader, l: Loader, v: Vertex)
    requires Sim(db, d, part) && Grows(AddVertex(part, v), l) && Lands(db, l)
    ensures LandVertex(d, v).Ok?
  {
    hide PropRows, NextProp, FtsRows, LabelRows;
    SimVertexRows(db, d, part, v);
    PartLands(db, AddVertex(part, v), l);
  }

  lemma NextEdgeLands(db: Tables, d: Tables, part: Loader, l: Loader, e: Edge, ops: seq<Op>)
    requires Sim(db, d, part) && AddEdge(part, e).Ok? && Grows(AddEdge(part, e).value, l) && Lands(db, l)
    requires Found(d.nodes, e) && Agrees(d.nodes, part.vertexIds, ops) && Named(e.src, ops) && Named(e.tgt, ops)
    ensures LandEdge(d, e).Ok?
  {
    hide PropRows, NextProp, FtsRows, LabelRows;
    var next := AddEdge(part, e).value;
    SimEdgeRows(db, d, part, e);
    SimEdgeLinks(db, d, part, e, ops);
    PartLands(db, next, l);
    PrefixIsPart(next.nodeRows, l.nodeRows);
    PartEdgesLand(db, d.nodes, next, l);
  }

  lemma RowIsLookedUp(nodes: multiset<NodeRow>, r: NodeRow, k: Key)
    requires r in nodes && Names(r, k)
    ensures Lookup(nodes, k).Some?
  {
  }

  /** An endpoint the whole flush resolves was already there when its edge came. */
  lemma EndpointKnown(db: Tables, ops: seq<Op>, i: nat, k: Key)
    requires EdgesFollow(db, ops) && i < |ops| && ops[i].AddE? && NamedIn(k, ops[i])
    ensures KnownBefore(db, ops, i, k) || NeverAfter(db, ops, i, k)
  {
  }

  lemma EndpointWasThere(db: Tables, journal: Option<Text>, ops: seq<Op>, i: nat, d: Tables, k: Key)
    requires EdgesFollow(db, ops) && i < |ops| && ops[i].AddE? && NamedIn(k, ops[i])
    requires Feed(Fresh(db, PRESERVE, journal), ops).Ok?
    requires Feed(Fresh(db, PRESERVE, journal), ops[..i]).Ok?
    requires d.nodes == db.nodes + multiset(Feed(Fresh(db, PRESERVE, journal), ops[..i]).value.nodeRows)
    requires Lookup(db.nodes + multiset(Feed(Fresh(db, PRESERVE, journal), ops).value.nodeRows), k).Some?
    ensures Lookup(d.nodes, k).Some?
  {
    hide Feed, Lookup, EdgesFollow, MayCreate;
    EndpointKnown(db, ops, i, k);
    var l0 := Fresh(db, PRESERVE, journal);
    var part, l := Feed(l0, ops[..i]).value, Feed(l0, ops).value;
    if KnownBefore(db, ops, i, k) {
      if r :| r in db.nodes && Names(r, k) {
        RowIsLookedUp(d.nodes, r, k);
      } else {
        var j :| 0 <= j < i && ops[j].AddV? && ops[j].v.id == Some(k);
        assert ops[..i][j] == ops[j];
        FedVertexIsNamed(l0, ops[..i], j);
        var r :| r in part.nodeRows && Names(r, k);
        RowIsLookedUp(d.nodes, r, k);
      }
    } else {
      var r :| r in db.nodes + multiset(l.nodeRows) && Names(r, k);
      if r in db.nodes || r in part.nodeRows {
        RowIsLookedUp(d.nodes, r, k);
      } else {
        assert ops[..|ops|] == ops;
        LaterRowsAreCreated(db, journal, ops, i, |ops|, r, k);
        assert false;
      }
    }
  }

  lemma EdgeIsDeferred(l: Loader, e: Edge) returns (p: Pending)
    requires l.opts == PRESERVE && AddEdge(l, e).Ok?
    requires Spelling(e.src) !in l.vertexIds || Spelling(e.tgt) !in l.vertexIds
    ensures p.edge == e && p in AddEdge(l, e).value.pending
  {
    hide PropRows, NextProp, FtsRows;
    var (rowid, uid) := IdOf(Preserve, e.id, l.nextEdge);
    p := Pending(e, rowid, uid);
    assert AddEdge(l, e).value.pending == l.pending + [p];
  }

  lemma NextEdgeFound(db: Tables, journal: Option<Text>, ops: seq<Op>, i: nat, d: Tables)
    requires EdgesFollow(db, ops) && i < |ops| && ops[i].AddE?
    requires Feed(Fresh(db, PRESERVE, journal), ops).Ok?
    requires var l := Feed(Fresh(db, PRESERVE, journal), ops).value;
      AllFound(db.nodes + multiset(l.nodeRows), l.pending)
    requires Feed(Fresh(db, PRESERVE, journal), ops[..i]).Ok?
    requires d.nodes == db.nodes + multiset(Feed(Fresh(db, PRESERVE, journal), ops[..i]).value.nodeRows)
    requires Agrees(d.nodes, Feed(Fresh(db, PRESERVE, journal), ops[..i]).value.vertexIds, ops)
    ensures Found(d.nodes, ops[i].e)
  {
    hide PropRows, NextProp, FtsRows, LabelRows, EdgesFollow;
    var l0, e := Fresh(db, PRESERVE, journal), ops[i].e;
    var part, l := Feed(l0, ops[..i]).value, Feed(l0, ops).value;
    assert ops[..i + 1][..i] == ops[..i];
    assert NamedIn(e.src, ops[i]) && NamedIn(e.tgt, ops[i]);
    if Spelling(e.src) in part.vertexIds && Spelling(e.tgt) in part.vertexIds {
      assert Named(e.src, ops) && Named(e.tgt, ops);
    } else {
      FeedGrows(l0, ops, i + 1);
      FeedKeepsOptions(l0, ops[..i]);
      var p := EdgeIsDeferred(part, e);
      assert p in l.pending;
      EndpointWasThere(db, journal, ops, i, d, e.src);
      EndpointWasThere(db, journal, ops, i, d, e.tgt);
    }
  }

  lemma NextVertexOfStreamLands(db: Tables, journal: Option<Text>, ops: seq<Op>, i: nat, d: Tables)
    requires i < |ops| && ops[i].AddV?
    requires Feed(Fresh(db, PRESERVE, journal), ops).Ok? && Lands(db, Feed(Fresh(db, PRESERVE, journal), ops).value)
    requires Feed(Fresh(db, PRESERVE, journal), ops[..i]).Ok?
    requires Sim(db, d, Feed(Fresh(db, PRESERVE, journal), ops[..i]).value)
    ensures LandVertex(d, ops[i].v).Ok?
  {
    hide PropRows, NextProp, FtsRows, LabelRows, LandVertex, Lands, Sim, AddVertex, AddEdge;
    var l0 := Fresh(db, PRESERVE, journal);
    assert ops[..i + 1][..i] == ops[..i];
    FeedGrows(l0, ops, i + 1);
    NextVertexLands(db, d, Feed(l0, ops[..i]).value, Feed(l0, ops).value, ops[i].v);
  }

  lemma FeedStep(l: Loader, ops: seq<Op>, i: nat)
    requires i < |ops| && Feed(l, ops[..i]).Ok?
    ensures Feed(l, ops[..i + 1]) == Add(Feed(l, ops[..i]).value, ops[i])
  {
    assert ops[..i + 1][..i] == ops[..i];
  }

  lemma NextEdgeOfStreamLands(db: Tables, journal: Option<Text>, ops: seq<Op>, i: nat, d: Tables)
    requires EdgesFollow(db, ops) && i < |ops| && ops[i].AddE?
    requires Feed(Fresh(db, PRESERVE, journal), ops).Ok? && Lands(db, Feed(Fresh(db, PRESERVE, journal), ops).value)
    requires Feed(Fresh(db, PRESERVE, journal), ops[..i]).Ok?
    requires Sim(db, d, Feed(Fresh(db, PRESERVE, journal), ops[..i]).value)
    requires Backed(Feed(Fresh(db, PRESERVE, journal), ops[..i]).value, ops)
    ensures LandEdge(d, ops[i].e).Ok?
  {
    hide PropRows, NextProp, FtsRows, LabelRows, LandEdge, Lands, Sim, EdgesFollow, AddVertex, AddEdge, Agrees,
         AllFound, Backed;
    var l0 := Fresh(db, PRESERVE, journal);
    var part, l, e := Feed(l0, ops[..i]).value, Feed(l0, ops).value, ops[i].e;
    FeedStep(l0, ops, i);
    FeedGrows(l0, ops, i + 1);
    hide Fresh, Grows, Feed;
    SimUnique(db, d, part);
    BackedAgrees(part, d.nodes, ops);
    LandedFinds(db, l);
    NextEdgeFound(db, journal, ops, i, d);
    assert NamedIn(e.src, ops[i]) && NamedIn(e.tgt, ops[i]);
    NextEdgeLands(db, d, part, l, e, ops);
  }

  lemma {:induction false} LandedFolds(db: Tables, journal: Option<Text>, ops: seq<Op>, n: nat)
    requires Ready(db, journal) && PositiveOps(ops) && DistinctSpellings(ops) && EdgesFollow(db, ops) && n <= |ops|
    requires Feed(Fresh(db, PRESERVE, journal), ops).Ok? && Lands(db, Feed(Fresh(db, PRESERVE, journal), ops).value)
    ensures Fold(db, ops[..n]).Ok?
  {
    hide Lands, Sim, EdgesFollow, LandVertex, LandEdge, Feed, Fresh, Ready, PositiveOps, DistinctSpellings;
    if n > 0 {
      LandedFolds(db, journal, ops, n - 1);
      FeedSimulates(db, journal, ops, n - 1);
      var d := Fold(db, ops[..n - 1]).value;
      if ops[n - 1].AddV? { NextVertexOfStreamLands(db, journal, ops, n - 1, d); }
      else { NextEdgeOfStreamLands(db, journal, ops, n - 1, d); }
      assert ops[..n][..n - 1] == ops[..n - 1];
    }
  }

  lemma SimUnique(db: Tables, d: Tables, l: Loader)
    requires Sim(db, d, l)
    ensures UniqueNodes(d.nodes) && d.nodes == db.nodes + multiset(l.nodeRows) && l.opts == PRESERVE
  {
  }

  lemma LandedFinds(db: Tables, l: Loader)
    requires Lands(db, l)
    ensures AllFound(db.nodes + multiset(l.nodeRows), l.pending)
  {
  }

  // ---------- a fold that succeeds is a flush that succeeds ----------

  lemma DistinctAreNew<T>(t: multiset<T>, rows: seq<T>)
    requires NoRepeats(t)
    requires forall i, j | 0 <= i < j < |rows| :: rows[i] != rows[j]
    requires forall r | r in rows :: r !in t
    ensures NoRepeats(t + multiset(rows))
  {
    forall r | r in t + multiset(rows) ensures (t + multiset(rows))[r] == 1 {
      if r in rows { OnceEach(rows, r); }
    }
  }

  lemma {:induction false} OnceEach<T>(rows: seq<T>, r: T)
    requires forall i, j | 0 <= i < j < |rows| :: rows[i] != rows[j]
    ensures multiset(rows)[r] <= 1
  {
    if rows != [] {
      var front, x := rows[..|rows| - 1], rows[|rows| - 1];
      OnceEach(front, r);
      assert rows == front + [x];
      assert multiset(rows) == multiset(front) + multiset{x};
      assert r == x ==> r !in front;
    }
  }

  lemma TwiceCounts<T>(rows: seq<T>, i: nat, j: nat)
    requires i < j < |rows|
    ensures rows[i] == rows[j] ==> multiset(rows)[rows[i]] >= 2
  {
    var r := rows[i];
    assert rows == rows[..j] + rows[j..];
    assert r in rows[..j];
    assert r == rows[j] ==> r in rows[j..];
    assert multiset(rows) == multiset(rows[..j]) + multiset(rows[j..]);
  }

  lemma RowsAreDistinct<T>(t: multiset<T>, rows: seq<T>)
    requires NoRepeats(t + multiset(rows))
    ensures forall i, j | 0 <= i < j < |rows| :: rows[i] != rows[j]
    ensures forall r | r in rows :: r !in t
  {
    forall i, j | 0 <= i < j < |rows| ensures rows[i] != rows[j] {
      TwiceCounts(rows, i, j);
      assert rows[i] in t + multiset(rows);
    }
    forall r | r in rows ensures r !in t {
      assert r in multiset(rows) && (t + multiset(rows))[r] == t[r] + multiset(rows)[r];
    }
  }

  lemma JournalIsNew(db: Tables, load: Text, nodes: seq<NodeRow>, edges: seq<EdgeRow>)
    requires NoRepeats(db.journal) && JournalFits(db, Some(load))
    requires UniqueNodes(db.nodes + multiset(nodes)) && UniqueEdges(db.edges + multiset(edges))
    ensures NoRepeats(db.journal + multiset(JournalRows(load, nodes, edges)))
  {
    var rows := JournalRows(load, nodes, edges);
    var n := |nodes|;
    RowsAreDistinct(db.nodes, nodes);
    RowsAreDistinct(db.edges, edges);
    forall i, j | 0 <= i < j < |rows| ensures rows[i] != rows[j] {
      if j < n {
        assert nodes[i] in db.nodes + multiset(nodes) && nodes[j] in db.nodes + multiset(nodes);
      } else if i >= n {
        assert edges[i - n] in db.edges + multiset(edges) && edges[j - n] in db.edges + multiset(edges);
      }
    }
    NewNodesAreApart(db.nodes, nodes);
    NewEdgesDoNotClash(db.edges, edges);
    forall j | j in rows ensures j !in db.journal {
      var i :| 0 <= i < |rows| && rows[i] == j;
      if i < n {
        assert nodes[i] in nodes && !HasNode(db.nodes, nodes[i].id);
      } else {
        assert edges[i - n] in edges && !HasEdge(db.edges, edges[i - n].id);
      }
    }
    DistinctAreNew(db.journal, rows);
  }

  lemma NewNodesAreApart(t: multiset<NodeRow>, rows: seq<NodeRow>)
    requires UniqueNodes(t + multiset(rows))
    ensures forall r, r' | r in rows && r' in t :: r.id != r'.id && (r.uid.None? || r.uid != r'.uid)
  {
    RowsAreDistinct(t, rows);
    forall r, r' | r in rows && r' in t ensures r.id != r'.id && (r.uid.None? || r.uid != r'.uid) {
      assert r in t + multiset(rows) && r' in t + multiset(rows);
    }
  }

  lemma NewNodesDoNotClash(t: multiset<NodeRow>, rows: seq<NodeRow>)
    requires UniqueNodes(t + multiset(rows))
    ensures NodeKeys(multiset(rows)) * NodeKeys(t) == {}
    ensures NodeUids(multiset(rows)) * NodeUids(t) == {}
  {
    RowsAreDistinct(t, rows);
    forall r, r' | r in rows && r' in t ensures r.id != r'.id && (r.uid.None? || r.uid != r'.uid) {
      assert r in t + multiset(rows) && r' in t + multiset(rows);
    }
  }

  lemma NewEdgesDoNotClash(t: multiset<EdgeRow>, rows: seq<EdgeRow>)
    requires UniqueEdges(t + multiset(rows))
    ensures forall r, r' | r in rows && r' in t :: r.id != r'.id && (r.uid.None? || r.uid != r'.uid)
  {
    RowsAreDistinct(t, rows);
    forall r, r' | r in rows && r' in t ensures r.id != r'.id && (r.uid.None? || r.uid != r'.uid) {
      assert r in t + multiset(rows) && r' in t + multiset(rows);
    }
  }

  lemma PendRowsHold(nodes: multiset<NodeRow>, ps: seq<Pending>)
    ensures forall p | p in ps :: RowOf(nodes, p) in PendRows(nodes, ps)
  {
    forall p | p in ps ensures RowOf(nodes, p) in PendRows(nodes, ps) {
      var i :| 0 <= i < |ps| && ps[i] == p;
      assert PendRows(nodes, ps)[i] == RowOf(nodes, p);
    }
  }

  lemma NoClashWhenUnique(db: Tables, d: Tables, l: Loader)
    requires UniqueNodes(d.nodes) && d.nodes == db.nodes + multiset(l.nodeRows)
    requires UniqueEdges(d.edges) && SimEdges(db, d, l)
    ensures !Clashes(db, l)
  {
    hide PendRows, AllFound, UniqueNodes, UniqueEdges, NodeKeys, NodeUids, EdgeKeys, EdgeUids, PendingKeys,
         PendingUids;
    NewNodesDoNotClash(db.nodes, l.nodeRows);
    var edges := l.edgeRows + PendRows(d.nodes, l.pending);
    assert d.edges == db.edges + multiset(edges);
    PendRowsHold(d.nodes, l.pending);
    NewEdgesDoNotClash(db.edges, edges);
    EdgesDoNotClash(db.edges, d.nodes, l, edges);
  }

  lemma SimUniqueEdges(db: Tables, d: Tables, l: Loader)
    requires Sim(db, d, l)
    ensures UniqueEdges(d.edges) && SimEdges(db, d, l)
  {
  }

  lemma SimIsReady(db: Tables, d: Tables, l: Loader, db': Tables, journal: Option<Text>)
    requires Sim(db, d, l) && SameElements(db', d) && Unique(db') && JournalFits(db', journal)
    ensures Ready(db', journal)
  {
  }

  lemma EdgesDoNotClash(t: multiset<EdgeRow>, nodes: multiset<NodeRow>, l: Loader, edges: seq<EdgeRow>)
    requires forall r, r' | r in edges && r' in t :: r.id != r'.id && (r.uid.None? || r.uid != r'.uid)
    requires forall r | r in l.edgeRows :: r in edges
    requires forall p | p in l.pending :: RowOf(nodes, p) in edges
    ensures (EdgeKeys(multiset(l.edgeRows)) + PendingKeys(l.pending)) * EdgeKeys(t) == {}
    ensures (EdgeUids(multiset(l.edgeRows)) + PendingUids(l.pending)) * EdgeUids(t) == {}
  {
    forall p | p in l.pending ensures RowOf(nodes, p).id == p.id && RowOf(nodes, p).uid == p.uid {}
  }

  lemma SimLands(db: Tables, d: Tables, l: Loader, ops: seq<Op>)
    requires Sim(db, d, l) && Backed(l, ops) && NamedEnds(l.pending, ops) && DistinctSpellings(ops)
    requires NoRepeats(db.journal) && JournalFits(db, l.journal)
    ensures LandRows(db, l).Ok? && SameElements(LandRows(db, l).value.0, d)
    ensures Unique(LandRows(db, l).value.0) && JournalFits(LandRows(db, l).value.0, l.journal)
  {
    BackedAgrees(l, d.nodes, ops);
    ResolveIsLookup(d.nodes, l.vertexIds, l.pending, ops);
    var edges := l.edgeRows + PendRows(d.nodes, l.pending);
    assert multiset(edges) == multiset(l.edgeRows) + multiset(PendRows(d.nodes, l.pending));
    assert db.edges + multiset(edges) == d.edges;
    if l.journal.Some? { JournalIsNew(db, l.journal.value, l.nodeRows, edges); }
    var db' := LandRows(db, l).value.0;
    assert db'.nodes == d.nodes && db'.edges == db.edges + multiset(edges);
    if l.journal.Some? { JournalStillFits(db, db', l.journal.value, l.nodeRows, edges); }
  }

  lemma JournalStillFits(db: Tables, db': Tables, load: Text, nodes: seq<NodeRow>, edges: seq<EdgeRow>)
    requires JournalFits(db, Some(load)) && db'.journal == db.journal + multiset(JournalRows(load, nodes, edges))
    requires db'.nodes == db.nodes + multiset(nodes) && db'.edges == db.edges + multiset(edges)
    ensures JournalFits(db', Some(load))
  {
    var rows := JournalRows(load, nodes, edges);
    forall j | j in db'.journal && j.load == load
      ensures if j.kind.NodeKind? then HasNode(db'.nodes, j.id) else HasEdge(db'.edges, j.id)
    {
      if j in db.journal {
        if j.kind.NodeKind? {
          MoreNodes(db.nodes, multiset(nodes), j.id);
        } else {
          MoreEdges(db.edges, multiset(edges), j.id);
        }
      } else {
        var i :| 0 <= i < |rows| && rows[i] == j;
        if i < |nodes| { assert nodes[i] in db'.nodes; } else { assert edges[i - |nodes|] in db'.edges; }
      }
    }
  }

  /** ONE FLUSH IS A FOLD. Over every stream whose edges follow their vertices and whose ids are distinct as
      strings, the loader's batch and element-by-element landing both fail or land the same graph; and the
      graph it lands is one the next batch can start from. */
  lemma FlushIsFold(db: Tables, journal: Option<Text>, ops: seq<Op>)
    requires Ready(db, journal) && Streamable(db, ops)
    ensures SameOutcome(FlushOnce(db, journal, ops), Fold(db, ops))
    ensures FlushOnce(db, journal, ops).Ok? ==> Ready(FlushOnce(db, journal, ops).value, journal)
  {
    hide Sim, Lands, Fold, EdgesFollow, LandRows, AssertNoCollisions, Clashes, Fresh, Feed;
    var l0 := Fresh(db, PRESERVE, journal);
    assert ops[..|ops|] == ops;
    FreshHasNothing(db, journal);
    if Fold(db, ops).Ok? {
      var d := Fold(db, ops).value;
      FeedSimulates(db, journal, ops, |ops|);
      var l := Feed(l0, ops).value;
      FeedNamesEnds(l0, ops, |ops|);
      SimUnique(db, d, l);
      SimUniqueEdges(db, d, l);
      NoClashWhenUnique(db, d, l);
      PositiveHasNoZero(db);
      CollisionCheckIsComplete(db, PRESERVE, journal, ops);
      SimLands(db, d, l, ops);
      FlushOnceLands(db, journal, ops);
      SimIsReady(db, d, l, FlushOnce(db, journal, ops).value, journal);
    } else if FlushOnce(db, journal, ops).Ok? {
      FlushOnceLands(db, journal, ops);
      var l := Feed(l0, ops).value;
      FeedNamesEnds(l0, ops, |ops|);
      FeedStaysBacked(l0, ops, |ops|);
      LandRowsLands(db, l, ops);
      LandedFolds(db, journal, ops, |ops|);
    }
  }

  lemma FreshHasNothing(db: Tables, journal: Option<Text>)
    ensures var l := Fresh(db, PRESERVE, journal);
      l.opts == PRESERVE && l.pending == [] && l.vertexIds == map[]
  {
  }

  lemma FlushOnceLands(db: Tables, journal: Option<Text>, ops: seq<Op>)
    requires Feed(Fresh(db, PRESERVE, journal), ops).Ok?
    ensures var l := Feed(Fresh(db, PRESERVE, journal), ops).value;
      && (FlushOnce(db, journal, ops).Ok? <==> AssertNoCollisions(db, l).Ok? && LandRows(db, l).Ok?)
      && (FlushOnce(db, journal, ops).Ok? ==> FlushOnce(db, journal, ops).value == LandRows(db, l).value.0)
  {
    FeedKeepsOptions(Fresh(db, PRESERVE, journal), ops);
  }

  // ---------- streaming: cutting into batches ----------

  lemma {:induction false} FoldSplit(db: Tables, a: seq<Op>, b: seq<Op>)
    ensures Fold(db, a).Err? ==> Fold(db, a + b).Err?
    ensures Fold(db, a).Ok? ==> Fold(db, a + b) == Fold(Fold(db, a).value, b)
  {
    hide LandOne;
    if b == [] {
      assert a + b == a;
    } else {
      var n := |b| - 1;
      assert (a + b)[..|a| + n] == a + b[..n];
      FoldSplit(db, a, b[..n]);
    }
  }

  lemma LandOneIgnoresJournal(a: Tables, b: Tables, op: Op)
    requires SameElements(a, b) && NoRepeats(a.journal) && NoRepeats(b.journal)
    ensures SameOutcome(LandOne(a, op), LandOne(b, op))
    ensures LandOne(a, op).Ok? ==> NoRepeats(LandOne(a, op).value.journal)
    ensures LandOne(b, op).Ok? ==> NoRepeats(LandOne(b, op).value.journal)
  {
    hide PropRows, NextProp, FtsRows, LabelRows, UniqueNodes, UniqueEdges, UniqueVProps, UniqueEProps, UniqueFts,
         UniqueCards, NoRepeats;
    assert a.nodes == b.nodes && a.labels == b.labels && a.vprops == b.vprops && a.cards == b.cards;
    assert a.edges == b.edges && a.eprops == b.eprops && a.fts == b.fts;
    match op
    case AddV(v) => hide LandEdge;
    case AddE(e) => hide LandVertex;
  }

  lemma {:induction false} FoldIgnoresJournal(a: Tables, b: Tables, ops: seq<Op>)
    requires SameElements(a, b) && NoRepeats(a.journal) && NoRepeats(b.journal)
    ensures SameOutcome(Fold(a, ops), Fold(b, ops))
    ensures Fold(a, ops).Ok? ==> NoRepeats(Fold(a, ops).value.journal)
    ensures Fold(b, ops).Ok? ==> NoRepeats(Fold(b, ops).value.journal)
  {
    hide LandOne;
    if ops != [] {
      var front, op := ops[..|ops| - 1], ops[|ops| - 1];
      FoldIgnoresJournal(a, b, front);
      if Fold(a, front).Ok? { LandOneIgnoresJournal(Fold(a, front).value, Fold(b, front).value, op); }
    }
  }

  lemma PrefixIsStreamable(db: Tables, a: seq<Op>, b: seq<Op>)
    requires Streamable(db, a + b)
    ensures Streamable(db, a)
  {
    var all := a + b;
    forall k | Named(k, a) ensures Named(k, all) {
      var i :| 0 <= i < |a| && NamedIn(k, a[i]);
      assert NamedIn(k, all[i]);
    }
    forall op | op in a ensures op in all {}
    forall i, k | 0 <= i < |a| && a[i].AddE? && NamedIn(k, a[i])
      ensures KnownBefore(db, a, i, k) || NeverAfter(db, a, i, k) {
      assert all[i] == a[i];
      if !NeverAfter(db, all, i, k) {
        assert KnownBefore(db, all, i, k);
        if Lookup(db.nodes, k).None? {
          var j :| 0 <= j < i && all[j].AddV? && all[j].v.id == Some(k);
          assert a[j] == all[j];
        }
      } else {
        forall j | i < j < |a| && a[j].AddV? ensures !MayCreate(db, a[j].v, k) { assert all[j] == a[j]; }
      }
    }
  }

  lemma MayCreateShrinks(db: Tables, db': Tables, v: Vertex, k: Key)
    requires db.nodes <= db'.nodes && PositiveIds(db') && MayCreate(db', v, k)
    ensures MayCreate(db, v, k)
  {
    assert forall id | id in NodeIds(db.nodes) :: id in NodeIds(db'.nodes);
    assert forall id | id in NodeIds(db'.nodes) :: id > 0;
  }

  lemma EdgesFollowAfter(db: Tables, db': Tables, a: seq<Op>, b: seq<Op>)
    requires EdgesFollow(db, a + b) && PositiveIds(db) && PositiveIds(db') && db.nodes <= db'.nodes
    requires forall j | 0 <= j < |a| && a[j].AddV? && a[j].v.id.Some? :: Lookup(db'.nodes, a[j].v.id.value).Some?
    ensures EdgesFollow(db', b)
  {
    var all, n := a + b, |a|;
    forall i, k | 0 <= i < |b| && b[i].AddE? && NamedIn(k, b[i])
      ensures KnownBefore(db', b, i, k) || NeverAfter(db', b, i, k) {
      assert all[n + i] == b[i];
      assert KnownBefore(db, all, n + i, k) || NeverAfter(db, all, n + i, k);
      if KnownBefore(db, all, n + i, k) {
        if r :| r in db.nodes && Names(r, k) {
          RowIsLookedUp(db'.nodes, r, k);
        } else {
          var j :| 0 <= j < n + i && all[j].AddV? && all[j].v.id == Some(k);
          if j < n { assert a[j] == all[j]; } else { assert b[j - n] == all[j]; }
        }
      } else {
        forall j | i < j < |b| && b[j].AddV? ensures !MayCreate(db', b[j].v, k) {
          assert all[n + j] == b[j];
          if MayCreate(db', b[j].v, k) { MayCreateShrinks(db, db', b[j].v, k); }
        }
      }
    }
  }

  /** What a landed batch leaves known: its own vertices, under the ids they came with. */
  lemma BatchIsKnown(db: Tables, journal: Option<Text>, a: seq<Op>)
    requires FlushOnce(db, journal, a).Ok?
    ensures db.nodes <= FlushOnce(db, journal, a).value.nodes
    ensures forall j | 0 <= j < |a| && a[j].AddV? && a[j].v.id.Some? ::
      Lookup(FlushOnce(db, journal, a).value.nodes, a[j].v.id.value).Some?
  {
    hide PropRows, NextProp, FtsRows, LabelRows, Feed, UniqueVProps, UniqueEdges, UniqueEProps, UniqueFts;
    var l0 := Fresh(db, PRESERVE, journal);
    FlushOnceLands(db, journal, a);
    var l, db' := Feed(l0, a).value, FlushOnce(db, journal, a).value;
    assert db'.nodes == db.nodes + multiset(l.nodeRows);
    hide FlushOnce, LandRows, LandBatch, UniqueNodes, Lookup;
    forall j | 0 <= j < |a| && a[j].AddV? && a[j].v.id.Some? ensures Lookup(db'.nodes, a[j].v.id.value).Some? {
      FedVertexIsNamed(l0, a, j);
      var r :| r in l.nodeRows && Names(r, a[j].v.id.value);
      RowIsLookedUp(db'.nodes, r, a[j].v.id.value);
    }
  }

  lemma RestIsStreamable(db: Tables, journal: Option<Text>, a: seq<Op>, b: seq<Op>)
    requires Streamable(db, a + b) && PositiveIds(db)
    requires FlushOnce(db, journal, a).Ok? && PositiveIds(FlushOnce(db, journal, a).value)
    ensures Streamable(FlushOnce(db, journal, a).value, b)
  {
    hide FlushOnce;
    var all := a + b;
    forall k | Named(k, b) ensures Named(k, all) {
      var i :| 0 <= i < |b| && NamedIn(k, b[i]);
      assert NamedIn(k, all[|a| + i]);
    }
    forall op | op in b ensures op in all {}
    BatchIsKnown(db, journal, a);
    EdgesFollowAfter(db, FlushOnce(db, journal, a).value, a, b);
  }

  lemma FeedAppend(l: Loader, ops: seq<Op>, op: Op)
    requires Feed(l, ops).Ok?
    ensures Feed(l, ops + [op]) == Add(Feed(l, ops).value, op)
  {
    assert (ops + [op])[..|ops|] == ops;
  }

  /** Where a stream stands: `held` in the current loader, `ops` still to come. */
  lemma {:induction false} StreamFrom(db: Tables, load: Text, held: seq<Op>, pending: nat, batchSize: int, ops: seq<Op>)
    requires Ready(db, Some(load)) && Streamable(db, held + ops)
    requires Feed(Fresh(db, PRESERVE, Some(load)), held).Ok?
    ensures SameOutcome(Stream(db, PRESERVE, load, Feed(Fresh(db, PRESERVE, Some(load)), held).value, pending,
      batchSize, ops), Fold(db, held + ops))
    decreases |ops|
  {
    hide Streamable, Ready, Fold, LandBatch, Fresh;
    var l := Feed(Fresh(db, PRESERVE, Some(load)), held).value;
    if ops == [] {
      assert held + ops == held;
      FlushIsFold(db, Some(load), held);
    } else {
      var held', rest := held + [ops[0]], ops[1..];
      assert held + ops == held' + rest;
      FeedAppend(Fresh(db, PRESERVE, Some(load)), held, ops[0]);
      PrefixIsStreamable(db, held', rest);
      FlushIsFold(db, Some(load), held');
      FoldSplit(db, held', rest);
      if Add(l, ops[0]).Ok? {
        if pending + 1 < batchSize {
          StreamFrom(db, load, held', pending + 1, batchSize, rest);
        } else if FlushOnce(db, Some(load), held').Ok? {
          StreamFromCut(db, load, held', rest);
          var db' := FlushOnce(db, Some(load), held').value;
          assert Feed(Fresh(db', PRESERVE, Some(load)), []).Ok?;
          assert [] + rest == rest;
          StreamFrom(db', load, [], 0, batchSize, rest);
        }
      }
    }
  }

  /** After a cut the landed graph takes the reference's place. */
  lemma StreamFromCut(db: Tables, load: Text, held: seq<Op>, rest: seq<Op>)
    requires Ready(db, Some(load)) && Streamable(db, held + rest) && FlushOnce(db, Some(load), held).Ok?
    ensures var db' := FlushOnce(db, Some(load), held).value;
      && Ready(db', Some(load)) && Streamable(db', rest)
      && SameOutcome(Fold(db', rest), Fold(db, held + rest))
  {
    hide PropRows, NextProp, FtsRows, LabelRows, LandOne;
    PrefixIsStreamable(db, held, rest);
    FlushIsFold(db, Some(load), held);
    RestIsStreamable(db, Some(load), held, rest);
    FoldSplit(db, held, rest);
    assert [] + held == held;
    FoldIgnoresJournal(db, db, held);
    FoldIgnoresJournal(FlushOnce(db, Some(load), held).value, Fold(db, held).value, rest);
  }

  /** BATCHED = ONE FLUSH = ONE AT A TIME. For any batch size, streaming a load through freshly cut loaders and
      flushing it once from a single loader both fail, or both leave the graph that landing its elements in
      turn leaves. */
  lemma BatchingRefinesOneFlush(db: Tables, load: Text, batchSize: int, ops: seq<Op>)
    requires Ready(db, Some(load)) && Streamable(db, ops)
    ensures SameOutcome(Streamed(db, PRESERVE, load, batchSize, ops), Fold(db, ops))
    ensures SameOutcome(FlushOnce(db, None, ops), Fold(db, ops))
  {
    assert [] + ops == ops;
    StreamFrom(db, load, [], 0, batchSize, ops);
    FlushIsFold(db, None, ops);
  }
}
