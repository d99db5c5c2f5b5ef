/** Upserting one definition after another never fails when the store mints the property ids, so that a replace
    batch of such definitions has its sequential counterpart on every run (src/bulk.ts `resolveReplace`). */
module Upserts {
  import opened Utf16
  import opened Graph
  import opened Dedupe
  import opened Loader
  import opened FullText
  import opened Consistency
  import opened Batching
  import opened BatchingProof
  import opened BatchingTheorem
  import opened ReplaceBatch

  predicate Minted(props: seq<Property>) {
    forall i | 0 <= i < |props| :: props[i].id.None?
  }

  /** Minted properties get consecutive rowids. */
  lemma {:induction false} MintedRows(owner: int, props: seq<Property>, next: int)
    requires Minted(props)
    ensures NextProp(props, next) == next + |props| && |PropRows(owner, props, next)| == |props|
    ensures forall i | 0 <= i < |props| :: PropRows(owner, props, next)[i].id == next + i
  {
    if props != [] { MintedRows(owner, props[..|props| - 1], next); }
  }

  predicate Rising(rows: seq<PropRow>) {
    forall i, j | 0 <= i < j < |rows| :: rows[i].id < rows[j].id
  }

  predicate RisingIndex(rows: seq<FtsRow>) {
    forall i, j | 0 <= i < j < |rows| :: rows[i].rowid < rows[j].rowid
  }

  lemma {:induction false} IndexRises(rows: seq<PropRow>)
    requires Rising(rows)
    ensures RisingIndex(FtsRows(NodeKind, rows))
    ensures forall r | r in FtsRows(NodeKind, rows) :: exists p :: p in rows && r.rowid == p.id
  {
    if rows != [] {
      var n := |rows| - 1;
      IndexRises(rows[..n]);
      var front := FtsRows(NodeKind, rows[..n]);
      forall r | r in front ensures r.rowid < rows[n].id {
        var p :| p in rows[..n] && r.rowid == p.id;
      }
    }
  }

  lemma {:induction false} DistinctNames(names: seq<string>)
    ensures forall i, j | 0 <= i < j < |Distinct(names)| :: Distinct(names)[i] != Distinct(names)[j]
  {
    if names != [] { DistinctNames(names[..|names| - 1]); }
  }

  lemma NewLabelsFit(t: multiset<LabelRow>, id: int, names: seq<string>)
    requires NoRepeats(t) && forall r | r in t :: r.node != id
    ensures NoRepeats(t + multiset(LabelRows(id, names)))
  {
    DistinctNames(names);
    DistinctAreNew(t, LabelRows(id, names));
  }

  lemma NewPropsFit(t: multiset<PropRow>, rows: seq<PropRow>, next: int)
    requires UniqueVProps(t) && Rising(rows)
    requires (forall r | r in t :: r.id < next) && forall r | r in rows :: r.id >= next
    ensures UniqueVProps(t + multiset(rows))
  {
    DistinctAreNew(t, rows);
    forall r, r' | r in rows && r' in rows && r != r' ensures r.id != r'.id {
      var i :| 0 <= i < |rows| && rows[i] == r;
      var j :| 0 <= j < |rows| && rows[j] == r';
    }
  }

  lemma NewIndexFits(t: multiset<FtsRow>, rows: seq<FtsRow>, next: int)
    requires UniqueFts(t) && RisingIndex(rows)
    requires (forall r | r in t :: r.rowid < next) && forall r | r in rows :: r.rowid >= next
    ensures UniqueFts(t + multiset(rows))
  {
    DistinctAreNew(t, rows);
    forall r, r' | r in rows && r' in rows && r != r' ensures r.rowid != r'.rowid {
      var i :| 0 <= i < |rows| && rows[i] == r;
      var j :| 0 <= j < |rows| && rows[j] == r';
    }
  }

  /** In a consistent graph no index row lies at or past the vertex property cursor. */
  lemma IndexBelowCursor(db: Tables, next: int)
    requires Consistent(db) && next > 0 && forall r | r in db.vprops :: r.id < next
    ensures forall r | r in db.fts :: r.rowid < next
  {
    forall r | r in db.fts ensures r.rowid < next {
      if Indexes(NodeKind, db.vprops, r) {
        var p :| p in db.vprops && p.value.text != "" && r == FtsOf(NodeKind, p);
      } else {
        var p :| p in db.eprops && p.value.text != "" && r == FtsOf(EdgeKind, p);
      }
    }
  }

  /** A loader that holds one vertex's rows and nothing else. */
  function Holding(id: int, v: Vertex, next: int): Loader {
    BufferVertex(Loader(Options(Preserve, FailClosed), None, true, map[], [], [], [], [], [], [], [], [], [], 1, 1,
      next, 1), id, None, v, false)
  }

  lemma HoldingIsSound(nodes: multiset<NodeRow>, id: int, v: Vertex, next: int)
    requires HasNode(nodes, id) && next > 0 && Minted(v.props)
    ensures InStep(Holding(id, v, next)) && Sound(nodes, Holding(id, v, next)) && PositiveBuffers(Holding(id, v, next))
  {
    var l := Loader(Options(Preserve, FailClosed), None, true, map[], [], [], [], [], [], [], [], [], [], 1, 1, next,
      1);
    assert InStep(l);
    BufferVertexInStep(l, id, None, v, false);
    BufferVertexIsSound(nodes, l, id, None, v, false);
  }

  lemma HoldingRows(id: int, v: Vertex, next: int)
    ensures var l := Holding(id, v, next); var rows := PropRows(id, v.props, next);
      && l.nodeRows == [] && l.labelRows == LabelRows(id, v.labels) && l.vprops == rows
         && l.fts == FtsRows(NodeKind, rows)
      && l.edgeRows == [] && l.eprops == [] && l.pending == [] && l.journal == None
  {
  }

  /** What wiping a vertex leaves room for. */
  lemma WipedHasRoom(db: Tables, id: int)
    requires Consistent(db)
    ensures var wiped := WipeVertices(db, {id}); var next := MaxOr0(PropIds(wiped.vprops)) + 1;
      && Consistent(wiped) && Unique(wiped) && next > 0
      && (forall r | r in wiped.labels :: r.node != id)
      && (forall r | r in wiped.vprops :: r.id < next) && (forall r | r in wiped.fts :: r.rowid < next)
  {
    var wiped := WipeVertices(db, {id});
    WipeVerticesKeepsConsistent(db, {id});
    WipedRows(db, {id});
    hide WipeVertices, References, Indexed;
    PositiveCursors(wiped);
    CursorIsPast(wiped.vprops);
    IndexBelowCursor(wiped, MaxOr0(PropIds(wiped.vprops)) + 1);
  }

  lemma MintedRowsRise(id: int, props: seq<Property>, next: int)
    requires Minted(props)
    ensures var rows := PropRows(id, props, next);
      && Rising(rows) && (forall r | r in rows :: r.id >= next)
      && RisingIndex(FtsRows(NodeKind, rows)) && (forall r | r in FtsRows(NodeKind, rows) :: r.rowid >= next)
  {
    MintedRows(id, props, next);
    hide PropRows;
    IndexRises(PropRows(id, props, next));
  }

  lemma DefineIs(db: Tables, id: int, v: Vertex)
    ensures var wiped := WipeVertices(db, {id});
      var rows := PropRows(id, v.props, MaxOr0(PropIds(wiped.vprops)) + 1);
      Define(db, id, v) == wiped.(labels := wiped.labels + multiset(LabelRows(id, v.labels)),
                                  vprops := wiped.vprops + multiset(rows),
                                  fts := wiped.fts + multiset(FtsRows(NodeKind, rows)))
  {
    hide PropRows, FtsRows, LabelRows, WipeVertices, MaxOr0;
  }

  lemma UniqueAfter(db: Tables, d: Tables)
    requires Unique(db) && d == db.(labels := d.labels, vprops := d.vprops, fts := d.fts)
    requires NoRepeats(d.labels) && UniqueVProps(d.vprops) && UniqueFts(d.fts)
    ensures Unique(d)
  {
    hide UniqueNodes, UniqueEdges, UniqueVProps, UniqueEProps, UniqueFts, UniqueCards, NoRepeats;
  }

  lemma UniqueTables(db: Tables)
    requires Unique(db)
    ensures NoRepeats(db.labels) && UniqueVProps(db.vprops) && UniqueFts(db.fts)
  {
  }

  lemma DefiningFits(db: Tables, id: int, v: Vertex)
    requires Consistent(db) && HasNode(db.nodes, id) && Minted(v.props)
    ensures Unique(Define(db, id, v))
  {
    WipedHasRoom(db, id);
    var wiped := WipeVertices(db, {id});
    var next := MaxOr0(PropIds(wiped.vprops)) + 1;
    MintedRowsRise(id, v.props, next);
    DefineIs(db, id, v);
    hide PropRows, FtsRows, LabelRows, WipeVertices, Consistent, MaxOr0, Rising, RisingIndex, Define, Unique,
         UniqueVProps, UniqueFts, NoRepeats;
    UniqueTables(wiped);
    NewLabelsFit(wiped.labels, id, v.labels);
    NewPropsFit(wiped.vprops, PropRows(id, v.props, next), next);
    NewIndexFits(wiped.fts, FtsRows(NodeKind, PropRows(id, v.props, next)), next);
    UniqueAfter(wiped, Define(db, id, v));
  }

  lemma CursorIsPast(t: multiset<PropRow>)
    ensures forall r | r in t :: r.id < MaxOr0(PropIds(t)) + 1
  {
    forall r | r in t ensures r.id <= MaxOr0(PropIds(t)) { assert r.id in PropIds(t); }
  }

  lemma DefiningKeepsConsistent(db: Tables, id: int, v: Vertex)
    requires Consistent(db) && HasNode(db.nodes, id) && Minted(v.props)
    ensures Consistent(Define(db, id, v))
  {
    var wiped := WipeVertices(db, {id});
    var next := MaxOr0(PropIds(wiped.vprops)) + 1;
    DefiningFits(db, id, v);
    WipeVerticesKeepsConsistent(db, {id});
    PositiveCursors(wiped);
    HoldingIsSound(db.nodes, id, v, next);
    HoldingRows(id, v, next);
    LandingDefines(db, id, v, wiped, next);
    LandRowsKeepsConsistent(wiped, Holding(id, v, next));
  }

  lemma LandingDefines(db: Tables, id: int, v: Vertex, wiped: Tables, next: int)
    requires wiped == WipeVertices(db, {id}) && next == MaxOr0(PropIds(wiped.vprops)) + 1
    requires Unique(Define(db, id, v))
    ensures LandRows(wiped, Holding(id, v, next)).Ok?
    ensures LandRows(wiped, Holding(id, v, next)).value.0 == Define(db, id, v)
  {
    DefineIs(db, id, v);
    hide PropRows, FtsRows, LabelRows, WipeVertices, MaxOr0, PropIds, Holding, Unique, LandRows, Define;
    HoldingLands(wiped, id, v, next, Define(db, id, v));
  }

  lemma HoldingLands(db: Tables, id: int, v: Vertex, next: int, d: Tables)
    requires var rows := PropRows(id, v.props, next);
      d == db.(labels := db.labels + multiset(LabelRows(id, v.labels)), vprops := db.vprops + multiset(rows),
               fts := db.fts + multiset(FtsRows(NodeKind, rows)))
    requires Unique(d)
    ensures LandRows(db, Holding(id, v, next)).Ok? && LandRows(db, Holding(id, v, next)).value.0 == d
  {
    hide PropRows, FtsRows, LabelRows, Unique, LandRows;
    HoldingRows(id, v, next);
    hide Holding;
    HeldLands(db, Holding(id, v, next), d);
  }

  lemma HeldLands(db: Tables, l: Loader, d: Tables)
    requires l.nodeRows == [] && l.edgeRows == [] && l.eprops == [] && l.pending == [] && l.journal == None
    requires d == db.(labels := db.labels + multiset(l.labelRows), vprops := db.vprops + multiset(l.vprops),
      fts := db.fts + multiset(l.fts))
    requires Unique(d)
    ensures LandRows(db, l).Ok? && LandRows(db, l).value.0 == d
  {
    hide UniqueNodes, UniqueEdges, UniqueVProps, UniqueEProps, UniqueFts, UniqueCards, NoRepeats;
    assert db.nodes + multiset(l.nodeRows) == db.nodes;
    assert ResolvePending(db.nodes, l.vertexIds, l.pending) == Ok(([], l.vertexIds));
    assert l.edgeRows + [] == [];
    assert db.edges + multiset([]) == db.edges;
    assert db.eprops + multiset(l.eprops) == db.eprops;
  }

  /** Match or create never clashes, and leaves a consistent graph. */
  lemma UpsertSucceeds(db: Tables, v: Vertex)
    requires Consistent(db) && PositiveNodes(db) && v.id.Some? && PositiveId(v.id) && Minted(v.props)
    ensures Upsert(db, v).Ok? && Consistent(Upsert(db, v).value) && PositiveNodes(Upsert(db, v).value)
  {
    var k, next := v.id.value, MaxOr0(NodeIds(db.nodes)) + 1;
    var db1 := db.(nodes := db.nodes + multiset(NewRow(db.nodes, k, next)));
    CreatedKeepsConsistent(db, k);
    UpsertIsDefine(db, v);
    hide Consistent, NewRow, TargetOf, MaxOr0, Unique, HasNode, Define, Upsert, PositiveNodes, Minted;
    DefiningFits(db1, TargetOf(db.nodes, k, next), v);
    DefiningKeepsConsistent(db1, TargetOf(db.nodes, k, next), v);
    DefiningKeepsNodes(db1, TargetOf(db.nodes, k, next), v);
  }

  lemma UpsertIsDefine(db: Tables, v: Vertex)
    requires v.id.Some?
    ensures var k, next := v.id.value, MaxOr0(NodeIds(db.nodes)) + 1;
      var d := Define(db.(nodes := db.nodes + multiset(NewRow(db.nodes, k, next))), TargetOf(db.nodes, k, next), v);
      Upsert(db, v) == if Unique(d) then Ok(d) else Err(NotUnique("upsert"))
  {
    hide Define, NewRow, TargetOf, MaxOr0, Unique;
  }

  lemma DefiningKeepsNodes(db: Tables, id: int, v: Vertex)
    ensures Define(db, id, v).nodes == db.nodes
    ensures PositiveNodes(db) ==> PositiveNodes(Define(db, id, v))
  {
  }

  /** The row a key needs clashes with none, and names the target. */
  lemma NewRowFits(nodes: multiset<NodeRow>, k: Key)
    requires UniqueNodes(nodes) && (forall r | r in nodes :: r.id > 0) && (k.Num? ==> k.n > 0)
    ensures var next := MaxOr0(NodeIds(nodes)) + 1; var all := nodes + multiset(NewRow(nodes, k, next));
      && UniqueNodes(all) && (forall r | r in all :: r.id > 0) && HasNode(all, TargetOf(nodes, k, next))
  {
    var next := MaxOr0(NodeIds(nodes)) + 1;
    var rows := NewRow(nodes, k, next);
    FoundIsNode(nodes, k);
    if rows == [] {
      assert nodes + multiset(rows) == nodes;
    } else {
      NewRowIsNew(nodes, k);
      var row := rows[0];
      assert rows == [row] && multiset(rows) == multiset{row};
      hide UniqueNodes, NewRow, TargetOf, MaxOr0, NodeIds, Lookup;
      OneMoreNode(nodes, row);
    }
  }

  lemma NewRowIsNew(nodes: multiset<NodeRow>, k: Key)
    requires Lookup(nodes, k).None?
    ensures var next := MaxOr0(NodeIds(nodes)) + 1; var rows := NewRow(nodes, k, next);
      && |rows| == 1 && rows[0].id == TargetOf(nodes, k, next)
      && (rows[0].id >= next || (k.Num? && rows[0].id == k.n))
      && forall r | r in nodes :: r.id != rows[0].id && (rows[0].uid.None? || r.uid != rows[0].uid)
  {
    var next := MaxOr0(NodeIds(nodes)) + 1;
    var row := NewRow(nodes, k, next)[0];
    forall r | r in nodes ensures r.id != row.id && (row.uid.None? || r.uid != row.uid) {
      assert r.id in NodeIds(nodes) && !Names(r, k);
    }
  }

  lemma OneMoreNode(nodes: multiset<NodeRow>, row: NodeRow)
    requires UniqueNodes(nodes) && (forall r | r in nodes :: r.id > 0) && row.id > 0
    requires forall r | r in nodes :: r.id != row.id && (row.uid.None? || r.uid != row.uid)
    ensures var all := nodes + multiset{row};
      UniqueNodes(all) && (forall r | r in all :: r.id > 0) && HasNode(all, row.id)
  {
    assert row in nodes + multiset{row};
  }

  lemma CreatedKeepsConsistent(db: Tables, k: Key)
    requires Consistent(db) && PositiveNodes(db) && (k.Num? ==> k.n > 0)
    ensures var next := MaxOr0(NodeIds(db.nodes)) + 1; var rows := NewRow(db.nodes, k, next);
      var db1 := db.(nodes := db.nodes + multiset(rows));
      Consistent(db1) && PositiveNodes(db1) && HasNode(db1.nodes, TargetOf(db.nodes, k, next))
  {
    NewRowFits(db.nodes, k);
    hide NewRow, TargetOf, MaxOr0, UniqueNodes;
    MoreNodesKeepConsistent(db, db.nodes + multiset(NewRow(db.nodes, k, MaxOr0(NodeIds(db.nodes)) + 1)));
  }

  lemma MoreNodesKeepConsistent(db: Tables, all: multiset<NodeRow>)
    requires Consistent(db) && db.nodes <= all && UniqueNodes(all)
    ensures Consistent(db.(nodes := all))
  {
    var d := db.(nodes := all);
    forall id | HasNode(db.nodes, id) ensures HasNode(all, id) {
      var r :| r in db.nodes && r.id == id;
      assert r in all;
    }
    assert Indexed(d) && References(d) && PositiveProps(d);
  }

  lemma {:induction false} UpsertsSucceed(db: Tables, vs: seq<Vertex>)
    requires Consistent(db) && PositiveNodes(db) && Keyed(vs) && forall v | v in vs :: Minted(v.props)
    ensures UpsertAll(db, vs).Ok? && Consistent(UpsertAll(db, vs).value) && PositiveNodes(UpsertAll(db, vs).value)
  {
    hide Consistent, PositiveNodes, Upsert;
    if vs != [] {
      var v := vs[|vs| - 1];
      UpsertsSucceed(db, vs[..|vs| - 1]);
      assert v in vs;
      UpsertSucceeds(UpsertAll(db, vs[..|vs| - 1]).value, v);
    }
  }
}
