/** What fails a load and what a flush leaves behind (src/bulk.ts `bufferEdge`, `resolveEndpoint`, `landBatch`). */
module Flushes {
  import opened Utf16
  import opened Graph
  import opened Dedupe
  import opened Loader
  import opened Batching
  import opened BatchingProof
  import opened ReplaceBatch
  import BulkLoading

  // ---------- a meta bag on an edge ----------

  lemma AddFailsOnMeta(l: Loader, op: Op)
    ensures Add(l, op).Err? <==> l.opts.onCollision.FailClosed? && op.AddE? && HasMeta(op.e)
    ensures Add(l, op).Err? ==> Add(l, op).error == MetaOnEdge
  {
    hide PropRows, NextProp, FtsRows, LabelRows, HasMeta;
  }

  /** Feeding an append-mode loader fails exactly at an edge that carries a meta-property. */
  lemma {:induction false} FeedFailsOnMeta(l: Loader, ops: seq<Op>)
    requires l.opts.onCollision.FailClosed?
    ensures Feed(l, ops).Err? <==> exists i :: 0 <= i < |ops| && ops[i].AddE? && HasMeta(ops[i].e)
    ensures Feed(l, ops).Err? ==> Feed(l, ops).error == MetaOnEdge
  {
    hide Add, HasMeta;
    if ops != [] {
      var n := |ops| - 1;
      var front := ops[..n];
      FeedFailsOnMeta(l, front);
      if i :| 0 <= i < |front| && front[i].AddE? && HasMeta(front[i].e) { assert ops[i] == front[i]; }
      if Feed(l, front).Ok? {
        FeedKeepsOptions(l, front);
        AddFailsOnMeta(Feed(l, front).value, ops[n]);
        assert forall i | 0 <= i < n :: ops[i] == front[i];
      }
    }
  }

  /** Under replace it is the flush that fails on one, if the edge survives the deduplication. */
  lemma {:induction false} ReplaceFailsOnMeta(edges: multiset<EdgeRow>, l: Loader, es: seq<Edge>)
    ensures ReplaceEdges(edges, l, es).Err? <==> exists i :: 0 <= i < |es| && HasMeta(es[i])
    ensures ReplaceEdges(edges, l, es).Err? ==> ReplaceEdges(edges, l, es).error == MetaOnEdge
  {
    hide ReplaceEdge, HasMeta;
    if es != [] {
      var n := |es| - 1;
      var front := es[..n];
      ReplaceFailsOnMeta(edges, l, front);
      if i :| 0 <= i < |front| && HasMeta(front[i]) { assert es[i] == front[i]; }
      if ReplaceEdges(edges, l, front).Ok? {
        OneFailsOnMeta(edges, ReplaceEdges(edges, l, front).value.0, es[n]);
        assert forall i | 0 <= i < n :: es[i] == front[i];
      }
    }
  }

  lemma OneFailsOnMeta(edges: multiset<EdgeRow>, l: Loader, e: Edge)
    ensures ReplaceEdge(edges, l, e).Err? <==> HasMeta(e)
    ensures ReplaceEdge(edges, l, e).Err? ==> ReplaceEdge(edges, l, e).error == MetaOnEdge
  {
    hide PropRows, NextProp, FtsRows, HasMeta;
  }

  // ---------- an unknown endpoint ----------

  /** Deferred edge `i` is the first with an unknown end, and `k` is that end, the source before the target. */
  ghost predicate FirstUnknown(nodes: multiset<NodeRow>, ps: seq<Pending>, k: Key, i: int) {
    && 0 <= i < |ps| && (forall j | 0 <= j < i :: Found(nodes, ps[j].edge)) && Lookup(nodes, k).None?
    && k == if Lookup(nodes, ps[i].edge.src).None? then ps[i].edge.src else ps[i].edge.tgt
  }

  /** A batch that cannot resolve its deferred edges names the first unknown end. */
  lemma {:induction false} UnknownEndIsNamed(nodes: multiset<NodeRow>, ids: map<Text, int>, ps: seq<Pending>,
      ops: seq<Op>)
    requires Agrees(nodes, ids, ops) && NamedEnds(ps, ops) && DistinctSpellings(ops)
    requires ResolvePending(nodes, ids, ps).Err?
    ensures ResolvePending(nodes, ids, ps).error.UnknownVertex?
    ensures exists i :: FirstUnknown(nodes, ps, ResolvePending(nodes, ids, ps).error.key, i)
  {
    hide Agrees, DistinctSpellings, Named, Lookup;
    var front, p := ps[..|ps| - 1], ps[|ps| - 1];
    assert ps == front + [p];
    ResolveIsLookup(nodes, ids, front, ops);
    if ResolvePending(nodes, ids, front).Err? {
      UnknownEndIsNamed(nodes, ids, front, ops);
      var k := ResolvePending(nodes, ids, front).error.key;
      var i :| FirstUnknown(nodes, front, k, i);
      assert FirstUnknown(nodes, ps, k, i);
    } else {
      var ids1 := ResolvePending(nodes, ids, front).value.1;
      ResolveOneIsLookup(nodes, ids1, p, ops);
      assert forall j | 0 <= j < |front| :: front[j] in front && Found(nodes, front[j].edge);
      assert FirstUnknown(nodes, ps, ResolvePending(nodes, ids, ps).error.key, |front|);
    }
  }

  // ---------- after a flush ----------

  /** Nothing is waiting to be landed. */
  predicate Empty(l: Loader) {
    && l.nodeRows == [] && l.labelRows == [] && l.vprops == [] && l.edgeRows == [] && l.eprops == [] && l.fts == []
    && l.pending == [] && l.rawVertices == [] && l.rawEdges == []
  }

  lemma LandingEmpties(db: Tables, l: Loader)
    requires LandRows(db, l).Ok?
    ensures Empty(LandRows(db, l).value.1) && LandRows(db, l).value.1.opts == l.opts
  {
    hide UniqueNodes, UniqueEdges, UniqueVProps, UniqueEProps, UniqueFts, NoRepeats, ResolvePending;
  }

  lemma {:induction false} EdgesKeepOptions(edges: multiset<EdgeRow>, l: Loader, es: seq<Edge>)
    requires ReplaceEdges(edges, l, es).Ok?
    ensures ReplaceEdges(edges, l, es).value.0.opts == l.opts
  {
    hide PropRows, NextProp, FtsRows;
    if es != [] { EdgesKeepOptions(edges, l, es[..|es| - 1]); }
  }

  lemma {:induction false} VerticesKeepOptions(nodes: multiset<NodeRow>, l: Loader, vs: seq<Vertex>)
    ensures ReplaceVertices(nodes, l, vs).0.opts == l.opts
  {
    hide PropRows, NextProp, FtsRows, LabelRows;
    if vs != [] { VerticesKeepOptions(nodes, l, vs[..|vs| - 1]); }
  }

  lemma {:induction false} ResolvingRemembers(nodes: multiset<NodeRow>, ids: map<Text, int>, ps: seq<Pending>, s: Text)
    requires ResolvePending(nodes, ids, ps).Ok? && s in ids
    ensures var ids' := ResolvePending(nodes, ids, ps).value.1; s in ids' && ids'[s] == ids[s]
  {
    if ps != [] { ResolvingRemembers(nodes, ids, ps[..|ps| - 1], s); }
  }

  /** An append loader goes on where it was: what it remembers of the ids it was given still stands, and its cursors
      are where they were. */
  lemma FlushRemembers(db: Tables, l: Loader)
    requires l.opts.onCollision.FailClosed? && LandBatch(db, l).Ok?
    ensures var l' := LandBatch(db, l).value.1;
      && (forall s | s in l.vertexIds :: s in l'.vertexIds && l'.vertexIds[s] == l.vertexIds[s])
      && l'.nextNode == l.nextNode && l'.nextEdge == l.nextEdge
      && l'.nextVProp == l.nextVProp && l'.nextEProp == l.nextEProp
      && l'.journal == l.journal && l'.opts == l.opts && l'.emptyTarget == l.emptyTarget
  {
    hide AssertNoCollisions, UniqueNodes, UniqueEdges, UniqueVProps, UniqueEProps, UniqueFts, NoRepeats, ResolvePending;
    forall s | s in l.vertexIds {
      ResolvingRemembers(db.nodes + multiset(l.nodeRows), l.vertexIds, l.pending, s);
    }
  }

  /** A flush leaves nothing waiting. */
  lemma FlushEmpties(db: Tables, l: Loader)
    requires LandBatch(db, l).Ok?
    ensures Empty(LandBatch(db, l).value.1) && LandBatch(db, l).value.1.opts == l.opts
  {
    hide LandRows, ReplaceVertices, ReplaceEdges, Deduped, Empty, AssertNoCollisions;
    if l.opts.onCollision.Replace? {
      var l1 := ReplaceVertices(db.nodes, l, Deduped(l.rawVertices, VertexKey)).0;
      VerticesKeepOptions(db.nodes, l, Deduped(l.rawVertices, VertexKey));
      EdgesKeepOptions(db.edges, l1, Deduped(l.rawEdges, EdgeKey));
      LandingEmpties(ResolveReplace(db, l).value.0, ResolveReplace(db, l).value.1);
    } else {
      LandingEmpties(db, l);
    }
  }

  lemma NothingToCheck(db: Tables, l: Loader)
    requires Empty(l)
    ensures AssertNoCollisions(db, l).Ok?
  {
  }

  lemma NothingToLand(db: Tables, l: Loader)
    requires Unique(db) && Empty(l)
    ensures LandRows(db, l) == Ok((db, l))
  {
    assert NoRepeats(db.labels);
    hide UniqueNodes, UniqueEdges, UniqueVProps, UniqueEProps, UniqueFts, NoRepeats;
    var none: seq<EdgeRow> := [];
    assert ResolvePending(db.nodes, l.vertexIds, l.pending) == Ok((none, l.vertexIds)) && l.edgeRows + none == none;
    assert db.nodes + multiset(l.nodeRows) == db.nodes && db.labels + multiset(l.labelRows) == db.labels;
    assert db.vprops + multiset(l.vprops) == db.vprops && db.eprops + multiset(l.eprops) == db.eprops;
    assert db.edges + multiset(none) == db.edges && db.fts + multiset(l.fts) == db.fts;
    JournalStays(db.journal, l);
    assert Cleared(l.(vertexIds := l.vertexIds)) == l;
  }

  lemma JournalStays(journal: multiset<JournalRow>, l: Loader)
    requires Empty(l)
    ensures Journal(journal, l, []) == journal
  {
    if l.journal.Some? {
      assert JournalRows(l.journal.value, l.nodeRows, []) == [];
      assert journal + multiset([]) == journal;
    }
  }

  lemma NothingToResolve(db: Tables, l: Loader)
    requires Unique(db) && Empty(l)
    ensures ResolveReplace(db, l) == Ok((db, l))
  {
    assert Deduped(l.rawVertices, VertexKey) == [] && Deduped(l.rawEdges, EdgeKey) == [];
    assert ReplaceVertices(db.nodes, l, []) == (l, {}) && ReplaceEdges(db.edges, l, []) == Ok((l, {}));
    BulkLoading.WipingNoVertices(db, {});
    BulkLoading.WipingNoEdges(db, {});
    hide WipeVertices, WipeEdges;
  }

  /** FLUSHING AGAIN LANDS NOTHING. Under either policy, a second flush with nothing added since succeeds and leaves
      every table and the loader as they are. */
  lemma FlushTwice(db: Tables, l: Loader)
    requires Unique(db) && LandBatch(db, l).Ok?
    ensures var (d, l') := LandBatch(db, l).value; LandBatch(d, l') == Ok((d, l'))
  {
    FlushEmpties(db, l);
    if l.opts.onCollision.Replace? {
      FlushIsUnique(db, l);
    } else {
      LandIsUnique(db, l);
    }
    var (d, l') := LandBatch(db, l).value;
    hide Unique, Empty, LandRows, ResolveReplace, AssertNoCollisions;
    assert l'.opts == l.opts && Unique(d);
    NothingToLand(d, l');
    NothingToCheck(d, l');
    NothingToResolve(d, l');
  }
}
