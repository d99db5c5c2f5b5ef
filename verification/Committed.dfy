/** What a streamed load commits (src/bulk.ts `BatchingLoader`, `loadStreaming`), as a function of its calls. */
module Committed {
  import opened Utf16
  import opened Graph
  import opened Dedupe
  import opened Loader

  // ---------- the whole load ----------

  /** One element of a streamed load: it joins the current batch, and the `batchSize`-th one lands it, after which
      a fresh loader, which re-reads its cursors and forgets every id, takes over. */
  ghost function Step(db: Tables, opts: Options, load: Text, l: Loader, pending: nat, batchSize: int, op: Op)
    : Result<(Tables, Loader, nat)>
  {
    var l' :- Add(l, op);
    if pending + 1 >= batchSize then
      var (db', _) :- LandBatch(db, l');
      Ok((db', Fresh(db', opts, Some(load)), 0))
    else
      Ok((db, l', pending + 1))
  }

  /** `BatchingLoader` fed `ops` and then `done`. `l` is the current loader and `pending` the elements it holds. */
  ghost function Stream(db: Tables, opts: Options, load: Text, l: Loader, pending: nat, batchSize: int,
      ops: seq<Op>): Result<Tables>
    decreases |ops|
  {
    if ops == [] then
      var (db', _) :- LandBatch(db, l);
      Ok(ClearJournal(db', load))
    else
      var (db', l', pending') :- Step(db, opts, load, l, pending, batchSize, ops[0]);
      Stream(db', opts, load, l', pending', batchSize, ops[1..])
  }

  /** A whole streamed load: what it commits, or the error of the first batch that cannot land. */
  ghost function Streamed(db: Tables, opts: Options, load: Text, batchSize: int, ops: seq<Op>): Result<Tables> {
    Stream(db, opts, load, Fresh(db, opts, Some(load)), 0, batchSize, ops)
  }

  // ---------- nothing is dropped ----------

  /** How many vertices, edges and properties of each kind a batch or a run of calls carries. */
  datatype Tally = Tally(vertices: nat, edges: nat, vprops: nat, eprops: nat) {
    function Plus(t: Tally): Tally {
      Tally(vertices + t.vertices, edges + t.edges, vprops + t.vprops, eprops + t.eprops)
    }
  }

  function Stored(db: Tables): Tally { Tally(|db.nodes|, |db.edges|, |db.vprops|, |db.eprops|) }
  function Held(l: Loader): Tally { Tally(|l.nodeRows|, |l.edgeRows| + |l.pending|, |l.vprops|, |l.eprops|) }

  function Given(ops: seq<Op>): Tally
  {
    if ops == [] then Tally(0, 0, 0, 0)
    else
      (match ops[0]
       case AddV(v) => Tally(1, 0, |v.props|, 0)
       case AddE(e) => Tally(0, 1, 0, |e.props|)).Plus(Given(ops[1..]))
  }

  lemma {:induction false} AsManyRowsAsProps(owner: int, props: seq<Property>, next: int)
    ensures |PropRows(owner, props, next)| == |props|
  {
    if props != [] { AsManyRowsAsProps(owner, props[..|props| - 1], next); }
  }

  lemma AddTallies(l: Loader, op: Op)
    requires l.opts.onCollision.FailClosed? && Add(l, op).Ok?
    ensures Held(Add(l, op).value) == Held(l).Plus(Given([op]))
    ensures Add(l, op).value.opts == l.opts
  {
    assert [op][1..] == [] && Given([]) == Tally(0, 0, 0, 0);
    hide AddVertex, AddEdge;
    match op
    case AddV(v) => VertexTallies(l, v);
    case AddE(e) => EdgeTallies(l, e);
  }

  lemma VertexTallies(l: Loader, v: Vertex)
    requires l.opts.onCollision.FailClosed?
    ensures Held(AddVertex(l, v)) == Held(l).Plus(Tally(1, 0, |v.props|, 0)) && AddVertex(l, v).opts == l.opts
  {
    AsManyRowsAsProps(IdOf(l.opts.idPolicy, v.id, l.nextNode).0, v.props, l.nextVProp);
    hide PropRows, NextProp, FtsRows, LabelRows, IdOf;
  }

  lemma EdgeTallies(l: Loader, e: Edge)
    requires l.opts.onCollision.FailClosed? && AddEdge(l, e).Ok?
    ensures Held(AddEdge(l, e).value) == Held(l).Plus(Tally(0, 1, 0, |e.props|)) && AddEdge(l, e).value.opts == l.opts
  {
    AsManyRowsAsProps(IdOf(l.opts.idPolicy, e.id, l.nextEdge).0, e.props, l.nextEProp);
    hide PropRows, NextProp, FtsRows, IdOf;
  }

  lemma {:induction false} ResolvesEach(nodes: multiset<NodeRow>, ids: map<Text, int>, pending: seq<Pending>)
    requires ResolvePending(nodes, ids, pending).Ok?
    ensures |ResolvePending(nodes, ids, pending).value.0| == |pending|
  {
    if pending != [] { ResolvesEach(nodes, ids, pending[..|pending| - 1]); }
  }

  lemma LandTallies(db: Tables, l: Loader)
    requires l.opts.onCollision.FailClosed? && LandBatch(db, l).Ok?
    ensures Stored(LandBatch(db, l).value.0) == Stored(db).Plus(Held(l))
  {
    hide AssertNoCollisions, LandRows;
    RowsTally(db, l);
  }

  lemma RowsTally(db: Tables, l: Loader)
    requires LandRows(db, l).Ok?
    ensures Stored(LandRows(db, l).value.0) == Stored(db).Plus(Held(l))
  {
    hide UniqueNodes, UniqueEdges, UniqueVProps, UniqueEProps, UniqueFts, NoRepeats, ResolvePending;
    ResolvesEach(db.nodes + multiset(l.nodeRows), l.vertexIds, l.pending);
  }

  /** A committed load holds every element and property it was given, whatever the batch size: as many more rows
      as there were calls, one per property. */
  lemma {:induction false} StreamCommitsAll(db: Tables, opts: Options, load: Text, l: Loader, pending: nat,
      batchSize: int, ops: seq<Op>)
    requires opts.onCollision.FailClosed? && l.opts == opts
    requires Stream(db, opts, load, l, pending, batchSize, ops).Ok?
    ensures Stored(Stream(db, opts, load, l, pending, batchSize, ops).value) ==
      Stored(db).Plus(Held(l)).Plus(Given(ops))
    decreases |ops|
  {
    hide LandBatch, Add;
    if ops == [] {
      LandTallies(db, l);
    } else {
      var op := ops[0];
      var l1 := Add(l, op).value;
      var (db', l', pending') := Step(db, opts, load, l, pending, batchSize, op).value;
      AddTallies(l, op);
      assert [op][1..] == [];
      if pending + 1 >= batchSize { LandTallies(db, l1); }
      StreamCommitsAll(db', opts, load, l', pending', batchSize, ops[1..]);
    }
  }
}
