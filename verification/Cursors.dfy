/** Mint cursors are always fresh, and the append-mode collision check is complete (src/bulk.ts). */
module Cursors {
  import opened Utf16
  import opened Graph
  import opened Dedupe
  import opened Loader

  /** Each cursor is past every rowid stored and every rowid buffered. */
  ghost predicate Ahead(db: Tables, l: Loader) {
    && (forall r | r in db.nodes :: r.id < l.nextNode)
    && (forall r | r in l.nodeRows :: r.id < l.nextNode)
    && (forall r | r in db.edges :: r.id < l.nextEdge)
    && (forall r | r in l.edgeRows :: r.id < l.nextEdge)
    && (forall p | p in l.pending :: p.id < l.nextEdge)
    && (forall r | r in db.vprops :: r.id < l.nextVProp)
    && (forall r | r in l.vprops :: r.id < l.nextVProp)
    && (forall r | r in db.eprops :: r.id < l.nextEProp)
    && (forall r | r in l.eprops :: r.id < l.nextEProp)
  }

  lemma FreshIsAhead(db: Tables, opts: Options, journal: Option<Text>)
    ensures Ahead(db, Fresh(db, opts, journal))
  {
    forall r | r in db.nodes ensures r.id <= MaxOr0(NodeIds(db.nodes)) { assert r.id in NodeIds(db.nodes); }
    forall r | r in db.edges ensures r.id <= MaxOr0(EdgeIds(db.edges)) { assert r.id in EdgeIds(db.edges); }
    forall r | r in db.vprops ensures r.id <= MaxOr0(PropIds(db.vprops)) { assert r.id in PropIds(db.vprops); }
    forall r | r in db.eprops ensures r.id <= MaxOr0(PropIds(db.eprops)) { assert r.id in PropIds(db.eprops); }
  }

  lemma {:induction false} PropRowsBelowNext(owner: int, props: seq<Property>, next: int)
    ensures next <= NextProp(props, next)
    ensures forall r | r in PropRows(owner, props, next) :: r.id < NextProp(props, next)
  {
    if props != [] { PropRowsBelowNext(owner, props[..|props| - 1], next); }
  }

  /** Every buffering call keeps the cursors ahead, whatever ids the source supplies. */
  lemma AddVertexKeepsAhead(db: Tables, l: Loader, v: Vertex)
    requires Ahead(db, l)
    ensures Ahead(db, AddVertex(l, v))
  {
    PropRowsBelowNext(IdOf(l.opts.idPolicy, v.id, l.nextNode).0, v.props, l.nextVProp);
    hide PropRows, NextProp, FtsRows, LabelRows;
  }

  lemma AddEdgeKeepsAhead(db: Tables, l: Loader, e: Edge)
    requires Ahead(db, l) && AddEdge(l, e).Ok?
    ensures Ahead(db, AddEdge(l, e).value)
  {
    PropRowsBelowNext(IdOf(l.opts.idPolicy, e.id, l.nextEdge).0, e.props, l.nextEProp);
    hide PropRows, NextProp, FtsRows, LabelRows;
  }

  lemma AddKeepsAhead(db: Tables, l: Loader, op: Op)
    requires Ahead(db, l) && Add(l, op).Ok?
    ensures Ahead(db, Add(l, op).value)
  {
    hide Ahead, AddVertex, AddEdge;
    match op
    case AddV(v) => AddVertexKeepsAhead(db, l, v);
    case AddE(e) => AddEdgeKeepsAhead(db, l, e);
  }

  lemma {:induction false} FeedKeepsAhead(db: Tables, l: Loader, ops: seq<Op>)
    requires Ahead(db, l) && Feed(l, ops).Ok?
    ensures Ahead(db, Feed(l, ops).value)
  {
    if ops != [] {
      FeedKeepsAhead(db, l, ops[..|ops| - 1]);
      AddKeepsAhead(db, Feed(l, ops[..|ops| - 1]).value, ops[|ops| - 1]);
    }
  }

  /** The call takes a minted rowid: the policy mints, or the element brings no number. */
  predicate Mints(policy: IdPolicy, id: Option<Key>) {
    policy.Preserve? ==> id.None? || id.value.Str?
  }

  /** Over a whole append-mode run on a fresh loader, a vertex or an edge that takes a minted rowid takes one that
      no stored and no earlier buffered row of its table has, an edge whether it is resolved or deferred. */
  lemma MintedIdIsNew(db: Tables, opts: Options, journal: Option<Text>, ops: seq<Op>, op: Op)
    requires opts.onCollision.FailClosed? && Feed(Fresh(db, opts, journal), ops).Ok?
    requires Mints(opts.idPolicy, if op.AddV? then op.v.id else op.e.id)
    requires Add(Feed(Fresh(db, opts, journal), ops).value, op).Ok?
    ensures var l := Feed(Fresh(db, opts, journal), ops).value; var l' := Add(l, op).value;
      if op.AddV? then
        exists row :: l'.nodeRows == l.nodeRows + [row] && NewNodeId(db, l, row.id)
      else
        || (exists row :: l'.edgeRows == l.edgeRows + [row] && NewEdgeId(db, l, row.id))
        || (exists p :: l'.pending == l.pending + [p] && NewEdgeId(db, l, p.id))
  {
    var l := Feed(Fresh(db, opts, journal), ops).value;
    FreshIsAhead(db, opts, journal);
    FeedKeepsAhead(db, Fresh(db, opts, journal), ops);
    FeedKeepsOptions(Fresh(db, opts, journal), ops);
    hide PropRows, NextProp, FtsRows, LabelRows, Fresh, Feed;
    match op
    case AddV(v) =>
      assert NewNodeId(db, l, l.nextNode);
      assert AddVertex(l, v).nodeRows == l.nodeRows + [NodeRow(l.nextNode, IdOf(opts.idPolicy, v.id, l.nextNode).1)];
    case AddE(e) =>
      assert NewEdgeId(db, l, l.nextEdge);
      var l' := AddEdge(l, e).value;
      if l'.pending == l.pending {
        assert l'.edgeRows == l.edgeRows + [l'.edgeRows[|l.edgeRows|]];
      } else {
        assert l'.pending == l.pending + [l'.pending[|l.pending|]];
      }
  }

  predicate NewNodeId(db: Tables, l: Loader, id: int) {
    (forall r | r in db.nodes :: r.id != id) && forall r | r in l.nodeRows :: r.id != id
  }

  predicate NewEdgeId(db: Tables, l: Loader, id: int) {
    && (forall r | r in db.edges :: r.id != id)
    && (forall r | r in l.edgeRows :: r.id != id) && forall p | p in l.pending :: p.id != id
  }

  // ---------- the collision check ----------

  /** A rowid or uid this batch lands is already in the store. */
  ghost predicate Clashes(db: Tables, l: Loader) {
    || NodeKeys(multiset(l.nodeRows)) * NodeKeys(db.nodes) != {}
    || NodeUids(multiset(l.nodeRows)) * NodeUids(db.nodes) != {}
    || (EdgeKeys(multiset(l.edgeRows)) + PendingKeys(l.pending)) * EdgeKeys(db.edges) != {}
    || (EdgeUids(multiset(l.edgeRows)) + PendingUids(l.pending)) * EdgeUids(db.edges) != {}
  }

  /** Everything buffered since `l0` has a rowid at or past the cursors `l0` started with. */
  ghost predicate MintedSince(l0: Loader, l: Loader) {
    && l0.nextNode <= l.nextNode && l0.nextEdge <= l.nextEdge
    && (forall r | r in l.nodeRows :: l0.nextNode <= r.id)
    && (forall r | r in l.edgeRows :: l0.nextEdge <= r.id)
    && (forall p | p in l.pending :: l0.nextEdge <= p.id)
  }

  /** Under the minting policies that is every call's doing, so only uids can clash with the store. */
  lemma {:induction false} MintingStaysPast(l0: Loader, ops: seq<Op>)
    requires MintedSince(l0, l0) && Feed(l0, ops).Ok? && l0.opts.onCollision.FailClosed?
    requires !l0.opts.idPolicy.Preserve?
    ensures MintedSince(l0, Feed(l0, ops).value)
  {
    if ops != [] {
      MintingStaysPast(l0, ops[..|ops| - 1]);
      FeedKeepsOptions(l0, ops[..|ops| - 1]);
    }
  }

  /** Ids as SQLite mints them. `max(id) ?? 0` cannot tell a table whose greatest id is 0 from an empty one. */
  ghost predicate PositiveIds(db: Tables) {
    && (forall r | r in db.nodes :: r.id > 0)
    && (forall r | r in db.edges :: r.id > 0)
  }

  predicate NodeIdsFree(db: Tables, l: Loader) {
    l.opts.idPolicy.Preserve? ==> NodeKeys(multiset(l.nodeRows)) * NodeKeys(db.nodes) == {}
  }

  predicate NodeUidsFree(db: Tables, l: Loader) { NodeUids(multiset(l.nodeRows)) * NodeUids(db.nodes) == {} }

  predicate EdgeIdsFree(db: Tables, l: Loader) {
    l.opts.idPolicy.Preserve? ==> (EdgeKeys(multiset(l.edgeRows)) + PendingKeys(l.pending)) * EdgeKeys(db.edges) == {}
  }

  /** Nodes are checked before edges, and ids before uids: what comes before the named table and column is free. */
  predicate EarlierFree(db: Tables, l: Loader, table: string, column: string) {
    match (table, column)
    case ("nodes", "id") => true
    case ("nodes", _) => NodeIdsFree(db, l)
    case (_, "id") => NodeIdsFree(db, l) && NodeUidsFree(db, l)
    case (_, _) => NodeIdsFree(db, l) && NodeUidsFree(db, l) && EdgeIdsFree(db, l)
  }

  /** The refusal names the least clash of the first table and column that has one. */
  ghost predicate NamesLeastClash(db: Tables, l: Loader, error: Error) {
    && error.Collision? && EarlierFree(db, l, error.table, error.column)
    && match (error.table, error.column)
       case ("nodes", "id") => IsLeast(error.value, NodeKeys(db.nodes) * NodeKeys(multiset(l.nodeRows)))
       case ("nodes", _) => IsLeast(error.value, NodeUids(db.nodes) * NodeUids(multiset(l.nodeRows)))
       case (_, "id") => IsLeast(error.value,
         EdgeKeys(db.edges) * (EdgeKeys(multiset(l.edgeRows)) + PendingKeys(l.pending)))
       case (_, _) => IsLeast(error.value,
         EdgeUids(db.edges) * (EdgeUids(multiset(l.edgeRows)) + PendingUids(l.pending)))
  }

  /** `max(id) ?? 0` is 0 for a graph that holds something: the loader takes it for an empty one. */
  ghost predicate ZeroIsGreatest(db: Tables) {
    && MaxOr0(NodeIds(db.nodes)) == 0 && MaxOr0(EdgeIds(db.edges)) == 0
    && (db.nodes != multiset{} || db.edges != multiset{})
  }

  /** Unless 0 is the greatest id stored, the check (or its empty-target skip) passes on a loader's first flush
      exactly when nothing the batch lands, resolved or pending, under any id policy, is already there; a refusal
      names the least clash. `ZeroIdDefeatsTheSkip` shows that the condition is exact. */
  lemma CollisionCheckIsComplete(db: Tables, opts: Options, journal: Option<Text>, ops: seq<Op>)
    requires opts.onCollision.FailClosed? && !ZeroIsGreatest(db)
    requires Feed(Fresh(db, opts, journal), ops).Ok?
    ensures var l := Feed(Fresh(db, opts, journal), ops).value;
      && (AssertNoCollisions(db, l).Ok? <==> !Clashes(db, l))
      && (AssertNoCollisions(db, l).Err? ==> NamesLeastClash(db, l, AssertNoCollisions(db, l).error))
  {
    var l0 := Fresh(db, opts, journal);
    var l := Feed(l0, ops).value;
    FreshIsAhead(db, opts, journal);
    FeedKeepsOptions(l0, ops);
    hide Feed, AssertNoCollisions, NamesLeastClash;
    if l.emptyTarget {
      EmptyTargetIsEmpty(db, opts, journal);
    } else if !opts.idPolicy.Preserve? {
      MintingStaysPast(l0, ops);
      hide MintedSince, Ahead, Fresh, Clashes;
      MintedAreNew(db, l0, l);
    }
    if !l.emptyTarget { CheckFindsClashes(db, l); }
  }

  /** A first flush that would clash is refused by the check, before any insert: the error says what clashes. */
  lemma ClashIsReported(db: Tables, opts: Options, journal: Option<Text>, ops: seq<Op>)
    requires opts.onCollision.FailClosed? && !ZeroIsGreatest(db)
    requires Feed(Fresh(db, opts, journal), ops).Ok? && Clashes(db, Feed(Fresh(db, opts, journal), ops).value)
    ensures var l := Feed(Fresh(db, opts, journal), ops).value;
      LandBatch(db, l).Err? && NamesLeastClash(db, l, LandBatch(db, l).error)
  {
    CollisionCheckIsComplete(db, opts, journal, ops);
    FeedKeepsOptions(Fresh(db, opts, journal), ops);
    hide Feed, Fresh, Clashes, AssertNoCollisions, NamesLeastClash, LandRows;
  }

  lemma MintedAreNew(db: Tables, l0: Loader, l: Loader)
    requires Ahead(db, l0) && MintedSince(l0, l)
    ensures NodeKeys(multiset(l.nodeRows)) * NodeKeys(db.nodes) == {}
    ensures (EdgeKeys(multiset(l.edgeRows)) + PendingKeys(l.pending)) * EdgeKeys(db.edges) == {}
  {
  }

  lemma EmptyTargetIsEmpty(db: Tables, opts: Options, journal: Option<Text>)
    requires !ZeroIsGreatest(db) && Fresh(db, opts, journal).emptyTarget
    ensures db.nodes == multiset{} && db.edges == multiset{}
  {
  }

  lemma PositiveHasNoZero(db: Tables)
    requires PositiveIds(db)
    ensures !ZeroIsGreatest(db)
  {
    if r :| r in db.nodes { assert r.id in NodeIds(db.nodes); }
    if e :| e in db.edges { assert e.id in EdgeIds(db.edges); }
    assert db.nodes != multiset{} ==> exists r :: r in db.nodes;
    assert db.edges != multiset{} ==> exists e :: e in db.edges;
  }

  lemma CheckFindsClashes(db: Tables, l: Loader)
    requires !l.emptyTarget
    requires !l.opts.idPolicy.Preserve? ==>
      && NodeKeys(multiset(l.nodeRows)) * NodeKeys(db.nodes) == {}
      && (EdgeKeys(multiset(l.edgeRows)) + PendingKeys(l.pending)) * EdgeKeys(db.edges) == {}
    ensures AssertNoCollisions(db, l).Ok? <==> !Clashes(db, l)
    ensures AssertNoCollisions(db, l).Err? ==> NamesLeastClash(db, l, AssertNoCollisions(db, l).error)
  {
    AssertFreeDecides("nodes", "id", NodeKeys(db.nodes), NodeKeys(multiset(l.nodeRows)));
    AssertFreeDecides("nodes", "uid", NodeUids(db.nodes), NodeUids(multiset(l.nodeRows)));
    AssertFreeDecides("edges", "id", EdgeKeys(db.edges), EdgeKeys(multiset(l.edgeRows)) + PendingKeys(l.pending));
    AssertFreeDecides("edges", "uid", EdgeUids(db.edges), EdgeUids(multiset(l.edgeRows)) + PendingUids(l.pending));
  }

  lemma AssertFreeDecides(table: string, column: string, taken: set<Key>, claims: set<Key>)
    ensures AssertFree(table, column, taken, claims).Ok? <==> claims * taken == {}
    ensures AssertFree(table, column, taken, claims).Err? ==>
      exists least :: AssertFree(table, column, taken, claims) == Err(Collision(table, column, least))
        && IsLeast(least, taken * claims)
  {
    if k :| k in taken * claims {
      HasLeast(taken * claims, k);
      assert k in claims * taken;
    } else {
      forall k ensures k !in claims * taken { assert k in claims * taken ==> k in taken * claims; }
      assert claims * taken == {};
    }
  }

  /** What a refusal names is determined: among numbers the least one, among texts one whose bytes come first. */
  lemma LeastIsDetermined(ks: set<Key>, a: Key, b: Key)
    requires IsLeast(a, ks) && IsLeast(b, ks)
    ensures a == b || (a.Str? && b.Str? && Utf8(a.s) == Utf8(b.s))
    ensures a.Num? ==> forall k | k in ks && k.Num? :: a.n <= k.n
  {
    if a.Str? && b.Str? { BytesLeBothWays(Utf8(a.s), Utf8(b.s)); }
  }

  lemma {:induction false} BytesLeBothWays(a: seq<Byte>, b: seq<Byte>)
    requires BytesLe(a, b) && BytesLe(b, a)
    ensures a == b
  {
    if a != [] && b != [] {
      BytesLeBothWays(a[1..], b[1..]);
      assert a == [a[0]] + a[1..] && b == [b[0]] + b[1..];
    }
  }

  /** One element, with the explicit id 0. */
  function ZeroVertex(): Op { AddV(Vertex(Some(Num(0)), [], [])) }
  function ZeroEdge(): Op { AddE(Edge(Some(Num(0)), "", Num(0), Num(0), [])) }

  lemma ZeroIsStored(db: Tables)
    requires ZeroIsGreatest(db)
    ensures Num(0) in NodeKeys(db.nodes) || Num(0) in EdgeKeys(db.edges)
  {
    if r :| r in db.nodes { assert r.id in NodeIds(db.nodes); }
    if e :| e in db.edges { assert e.id in EdgeIds(db.edges); }
    assert db.nodes != multiset{} ==> exists r :: r in db.nodes;
    assert db.edges != multiset{} ==> exists e :: e in db.edges;
  }

  /** Where 0 is the greatest id stored, a one-element batch clashes and passes the check: it is skipped, although
      the store is not empty. (The insert itself still refuses the row.) */
  lemma ZeroIdDefeatsTheSkip(db: Tables, journal: Option<Text>)
    requires ZeroIsGreatest(db)
    ensures var l0 := Fresh(db, Options(Preserve, FailClosed), journal);
      exists op :: Add(l0, op).Ok? && Clashes(db, Add(l0, op).value) && AssertNoCollisions(db, Add(l0, op).value).Ok?
  {
    var l0 := Fresh(db, Options(Preserve, FailClosed), journal);
    ZeroIsStored(db);
    assert l0.emptyTarget;
    hide MaxOr0, ZeroIsGreatest;
    if Num(0) in NodeKeys(db.nodes) {
      var l := Add(l0, ZeroVertex()).value;
      assert NodeRow(0, None) in l.nodeRows;
      assert Num(0) in NodeKeys(multiset(l.nodeRows)) * NodeKeys(db.nodes);
    } else {
      assert !HasMeta(ZeroEdge().e);
      var l := Add(l0, ZeroEdge()).value;
      assert Pending(ZeroEdge().e, 0, None) in l.pending;
      assert Num(0) in (EdgeKeys(multiset(l.edgeRows)) + PendingKeys(l.pending)) * EdgeKeys(db.edges);
    }
  }
}
