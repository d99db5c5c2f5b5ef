/** Under `preserve`, landing a stream in batches of any size is landing it one element at a time
    (src/bulk.ts `BulkLoader`, `BatchingLoader`): cursors re-read from the store are the cursors carried
    on, and a deferred edge resolves to what it would have resolved to in its turn. */
module Batching {
  import opened Utf16
  import opened Graph
  import opened Dedupe
  import opened Loader
  import opened FullText
  import opened Consistency
  import opened Cursors

  // ---------- the reference: one element at a time ----------

  /** The tables with one vertex more. */
  ghost function WithVertex(db: Tables, v: Vertex): Tables {
    var (rowid, uid) := IdOf(Preserve, v.id, MaxOr0(NodeIds(db.nodes)) + 1);
    var rows := PropRows(rowid, v.props, MaxOr0(PropIds(db.vprops)) + 1);
    db.(nodes := db.nodes + multiset{NodeRow(rowid, uid)},
        labels := db.labels + multiset(LabelRows(rowid, v.labels)),
        vprops := db.vprops + multiset(rows),
        fts := db.fts + multiset(FtsRows(NodeKind, rows)))
  }

  /** The row of an edge whose endpoints are looked up by the ids as they are typed. */
  ghost function EdgeRowOf(db: Tables, e: Edge): EdgeRow {
    var (rowid, uid) := IdOf(Preserve, e.id, MaxOr0(EdgeIds(db.edges)) + 1);
    EdgeRow(rowid, uid, EndpointId(db.nodes, e.src), e.name, EndpointId(db.nodes, e.tgt))
  }

  ghost function EndpointId(nodes: multiset<NodeRow>, k: Key): int {
    if Lookup(nodes, k).Some? then Lookup(nodes, k).value else 0
  }

  ghost function WithEdge(db: Tables, e: Edge): Tables {
    var row := EdgeRowOf(db, e);
    var rows := PropRows(row.id, e.props, MaxOr0(PropIds(db.eprops)) + 1);
    db.(edges := db.edges + multiset{row},
        eprops := db.eprops + multiset(rows),
        fts := db.fts + multiset(FtsRows(EdgeKind, rows)))
  }

  ghost predicate Found(nodes: multiset<NodeRow>, e: Edge) {
    Lookup(nodes, e.src).Some? && Lookup(nodes, e.tgt).Some?
  }

  /** Land one vertex straight into the tables, if no UNIQUE key refuses it. */
  ghost function LandVertex(db: Tables, v: Vertex): Result<Tables> {
    if Unique(WithVertex(db, v)) then Ok(WithVertex(db, v)) else Err(NotUnique("vertex"))
  }

  /** Land one edge, if it has no meta-properties, both ends exist and no UNIQUE key refuses it. */
  ghost function LandEdge(db: Tables, e: Edge): Result<Tables> {
    if HasMeta(e) then Err(MetaOnEdge)
    else if Lookup(db.nodes, e.src).None? then Err(UnknownVertex(e.src))
    else if Lookup(db.nodes, e.tgt).None? then Err(UnknownVertex(e.tgt))
    else if Unique(WithEdge(db, e)) then Ok(WithEdge(db, e))
    else Err(NotUnique("edge"))
  }

  ghost function LandOne(db: Tables, op: Op): Result<Tables> {
    match op
    case AddV(v) => LandVertex(db, v)
    case AddE(e) => LandEdge(db, e)
  }

  ghost function Fold(db: Tables, ops: seq<Op>): Result<Tables> {
    if ops == [] then Ok(db)
    else
      var d :- Fold(db, ops[..|ops| - 1]);
      LandOne(d, ops[|ops| - 1])
  }

  ghost predicate SameElements(a: Tables, b: Tables) {
    a.(journal := multiset{}) == b.(journal := multiset{})
  }

  /** Both fail, or both land the same graph. */
  ghost predicate SameOutcome(a: Result<Tables>, b: Result<Tables>) {
    || (a.Err? && b.Err?)
    || (a.Ok? && b.Ok? && SameElements(a.value, b.value))
  }

  /** One loader over a whole stream: feed, then a single flush. */
  ghost function FlushOnce(db: Tables, journal: Option<Text>, ops: seq<Op>): Result<Tables> {
    var l :- Feed(Fresh(db, Options(Preserve, FailClosed), journal), ops);
    var (db', _) :- LandBatch(db, l);
    Ok(db')
  }

  // ---------- the streams it is claimed for ----------

  /** The ids a stream names: vertices' own, and endpoints. */
  ghost predicate NamedIn(k: Key, op: Op) {
    match op
    case AddV(v) => v.id == Some(k)
    case AddE(e) => k == e.src || k == e.tgt
  }

  ghost predicate Named(k: Key, ops: seq<Op>) {
    exists i :: 0 <= i < |ops| && NamedIn(k, ops[i])
  }

  /** Two different ids never share a spelling: ids are distinct as strings, and an endpoint has the type
      of the id it names. */
  ghost predicate DistinctSpellings(ops: seq<Op>) {
    forall k, k' | Named(k, ops) && Named(k', ops) && Spelling(k) == Spelling(k') :: k == k'
  }

  /** Landing `v` in a graph that has `db` behind it might make `k` a known vertex. */
  ghost predicate MayCreate(db: Tables, v: Vertex, k: Key) {
    match k
    case Num(n) => if v.id.Some? && v.id.value.Num? then v.id.value.n == n else n > MaxOr0(NodeIds(db.nodes))
    case Str(s) => v.id.Some? && v.id.value.Str? && WellFormed(v.id.value.s) == WellFormed(s)
  }

  ghost predicate KnownBefore(db: Tables, ops: seq<Op>, at: nat, k: Key) {
    Lookup(db.nodes, k).Some? || exists j :: 0 <= j < at && j < |ops| && ops[j].AddV? && ops[j].v.id == Some(k)
  }

  ghost predicate NeverAfter(db: Tables, ops: seq<Op>, at: nat, k: Key) {
    forall j | at < j < |ops| && ops[j].AddV? :: !MayCreate(db, ops[j].v, k)
  }

  /** Each edge follows its vertices: an endpoint is known when the edge comes, or nothing later lands it. */
  ghost predicate EdgesFollow(db: Tables, ops: seq<Op>) {
    forall i, k | 0 <= i < |ops| && ops[i].AddE? && NamedIn(k, ops[i]) ::
      KnownBefore(db, ops, i, k) || NeverAfter(db, ops, i, k)
  }

  /** Numeric ids, of elements and of properties, are positive. */
  ghost predicate PositiveOps(ops: seq<Op>) {
    forall op | op in ops ::
      && PositiveOp(op)
      && var id := if op.AddV? then op.v.id else op.e.id;
         id.Some? && id.value.Num? ==> id.value.n > 0
  }

  ghost predicate Streamable(db: Tables, ops: seq<Op>) {
    PositiveOps(ops) && DistinctSpellings(ops) && EdgesFollow(db, ops)
  }

  /** A graph a load can start from: keys unique, ids positive, and no leftover rows of this load's journal. */
  ghost predicate Ready(db: Tables, journal: Option<Text>) {
    Unique(db) && PositiveIds(db) && PositiveProps(db) && JournalFits(db, journal)
  }

  ghost predicate JournalFits(db: Tables, journal: Option<Text>) {
    journal.Some? ==> forall j | j in db.journal && j.load == journal.value ::
      if j.kind.NodeKind? then HasNode(db.nodes, j.id) else HasEdge(db.edges, j.id)
  }

  // ---------- cursors: re-read = carried ----------

  lemma MaxWith(ids: set<int>, x: int)
    requires x >= 0 && forall i | i in ids :: i >= 0
    ensures MaxOr0(ids + {x}) + 1 == Bump(MaxOr0(ids) + 1, x)
  {
  }

  lemma NodeCursor(t: multiset<NodeRow>, r: NodeRow)
    requires r.id > 0 && forall x | x in t :: x.id > 0
    ensures MaxOr0(NodeIds(t + multiset{r})) + 1 == Bump(MaxOr0(NodeIds(t)) + 1, r.id)
  {
    assert NodeIds(t + multiset{r}) == NodeIds(t) + {r.id} by {
      assert r in t + multiset{r};
      forall x | x in t ensures x.id in NodeIds(t + multiset{r}) { assert x in t + multiset{r}; }
    }
    MaxWith(NodeIds(t), r.id);
  }

  lemma EdgeCursor(t: multiset<EdgeRow>, r: EdgeRow)
    requires r.id > 0 && forall x | x in t :: x.id > 0
    ensures MaxOr0(EdgeIds(t + multiset{r})) + 1 == Bump(MaxOr0(EdgeIds(t)) + 1, r.id)
  {
    assert EdgeIds(t + multiset{r}) == EdgeIds(t) + {r.id} by {
      assert r in t + multiset{r};
      forall x | x in t ensures x.id in EdgeIds(t + multiset{r}) { assert x in t + multiset{r}; }
    }
    MaxWith(EdgeIds(t), r.id);
  }

  lemma PropCursor(t: multiset<PropRow>, r: PropRow)
    requires r.id > 0 && forall x | x in t :: x.id > 0
    ensures MaxOr0(PropIds(t + multiset{r})) + 1 == Bump(MaxOr0(PropIds(t)) + 1, r.id)
  {
    assert PropIds(t + multiset{r}) == PropIds(t) + {r.id} by {
      assert r in t + multiset{r};
      forall x | x in t ensures x.id in PropIds(t + multiset{r}) { assert x in t + multiset{r}; }
    }
    MaxWith(PropIds(t), r.id);
  }

  /** The cursor carried over an element's properties is the one re-read after they landed. */
  lemma {:induction false} CarriedPropCursor(t: multiset<PropRow>, owner: int, props: seq<Property>)
    requires PositiveIn(props) && forall r | r in t :: r.id > 0
    ensures var next := MaxOr0(PropIds(t)) + 1; var t' := t + multiset(PropRows(owner, props, next));
      && NextProp(props, next) == MaxOr0(PropIds(t')) + 1
      && forall r | r in t' :: r.id > 0
  {
    var next := MaxOr0(PropIds(t)) + 1;
    assert next > 0;
    if props == [] {
      assert t + multiset(PropRows(owner, props, next)) == t;
    } else {
      var front, p := props[..|props| - 1], props[|props| - 1];
      CarriedPropCursor(t, owner, front);
      var t1 := t + multiset(PropRows(owner, front, next));
      var row := PropRow(PropId(p, NextProp(front, next)), owner, p.key, p.value, p.meta);
      assert t + multiset(PropRows(owner, props, next)) == t1 + multiset{row};
      PropCursor(t1, row);
    }
  }
}
