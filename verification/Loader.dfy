/** What `BulkLoader` (src/bulk.ts) computes, as functions on values: buffering, id policies, the replace
    resolution and the landing of a batch. `BulkLoading` proves the mutable loader against these. */
module Loader {
  import opened Utf16
  import opened Graph
  import opened Dedupe

  datatype IdPolicy = Preserve | Remap | Renumber
  datatype CollisionPolicy = FailClosed | Replace
  datatype Options = Options(idPolicy: IdPolicy, onCollision: CollisionPolicy)

  /** An edge whose endpoints were unknown when it was added. */
  datatype Pending = Pending(edge: Edge, id: int, uid: Option<Text>)

  /** The fields of a loader. A uid is buffered in the well-formed spelling it crosses to the store in. */
  datatype Loader = Loader(
    opts: Options, journal: Option<Text>, emptyTarget: bool, vertexIds: map<Text, int>,
    nodeRows: seq<NodeRow>, labelRows: seq<LabelRow>, vprops: seq<PropRow>,
    edgeRows: seq<EdgeRow>, eprops: seq<PropRow>, fts: seq<FtsRow>,
    pending: seq<Pending>, rawVertices: seq<Vertex>, rawEdges: seq<Edge>,
    nextNode: int, nextEdge: int, nextVProp: int, nextEProp: int)

  /** A new loader reads its cursors from the store. */
  ghost function Fresh(db: Tables, opts: Options, journal: Option<Text>): Loader {
    var nextNode, nextEdge := MaxOr0(NodeIds(db.nodes)) + 1, MaxOr0(EdgeIds(db.edges)) + 1;
    Loader(opts, journal, nextNode == 1 && nextEdge == 1, map[], [], [], [], [], [], [], [], [], [],
           nextNode, nextEdge, MaxOr0(PropIds(db.vprops)) + 1, MaxOr0(PropIds(db.eprops)) + 1)
  }

  // ---------- ids ----------

  /** A cursor stays past every id used so far. */
  function Bump(next: int, id: int): int {
    if id >= next then id + 1 else next
  }

  /** An id split into (rowid, uid) under a policy; a minted rowid is the cursor. */
  function IdOf(policy: IdPolicy, id: Option<Key>, next: int): (int, Option<Text>) {
    match policy
    case Renumber => (next, None)
    case Remap => (next, if id.Some? then Some(WellFormed(Spelling(id.value))) else None)
    case Preserve =>
      match id
      case None => (next, None)
      case Some(Num(n)) => (n, None)
      case Some(Str(s)) => (next, Some(WellFormed(s)))
  }

  // ---------- rows of one element ----------

  /** The distinct names, in first-seen order. */
  function Distinct(names: seq<string>): seq<string> {
    if names == [] then []
    else
      var rest, name := Distinct(names[..|names| - 1]), names[|names| - 1];
      if name in rest then rest else rest + [name]
  }

  function LabelRows(node: int, names: seq<string>): seq<LabelRow> {
    var distinct := Distinct(names);
    seq(|distinct|, i requires 0 <= i < |distinct| => LabelRow(node, distinct[i]))
  }

  function PropId(p: Property, next: int): int {
    if p.id.Some? then p.id.value else next
  }

  /** The property cursor after landing `props`. */
  function NextProp(props: seq<Property>, next: int): int {
    if props == [] then next
    else
      var n := NextProp(props[..|props| - 1], next);
      Bump(n, PropId(props[|props| - 1], n))
  }

  function PropRows(owner: int, props: seq<Property>, next: int): seq<PropRow> {
    if props == [] then []
    else
      var front, p := props[..|props| - 1], props[|props| - 1];
      PropRows(owner, front, next) + [PropRow(PropId(p, NextProp(front, next)), owner, p.key, p.value, p.meta)]
  }

  function FtsRows(kind: Kind, rows: seq<PropRow>): seq<FtsRow> {
    if rows == [] then []
    else
      var front, p := FtsRows(kind, rows[..|rows| - 1]), rows[|rows| - 1];
      if p.value.text == "" then front else front + [FtsOf(kind, p)]
  }

  // ---------- buffering ----------

  function BufferVertex(l: Loader, rowid: int, uid: Option<Text>, v: Vertex, pushRow: bool): Loader {
    var props := PropRows(rowid, v.props, l.nextVProp);
    l.(nodeRows := if pushRow then l.nodeRows + [NodeRow(rowid, uid)] else l.nodeRows,
       vertexIds := if v.id.Some? then l.vertexIds[Spelling(v.id.value) := rowid] else l.vertexIds,
       labelRows := l.labelRows + LabelRows(rowid, v.labels),
       vprops := l.vprops + props,
       nextVProp := NextProp(v.props, l.nextVProp),
       fts := l.fts + FtsRows(NodeKind, props))
  }

  function AddVertex(l: Loader, v: Vertex): Loader {
    if l.opts.onCollision.Replace? then l.(rawVertices := l.rawVertices + [v])
    else
      var (rowid, uid) := IdOf(l.opts.idPolicy, v.id, l.nextNode);
      BufferVertex(l.(nextNode := Bump(l.nextNode, rowid)), rowid, uid, v, true)
  }

  predicate HasMeta(e: Edge) {
    exists i :: 0 <= i < |e.props| && e.props[i].meta.Some?
  }

  function BufferEdge(l: Loader, rowid: int, uid: Option<Text>, e: Edge): Result<Loader> {
    if HasMeta(e) then Err(MetaOnEdge)
    else
      var props := PropRows(rowid, e.props, l.nextEProp);
      var s, t := Spelling(e.src), Spelling(e.tgt);
      var l1 := if s in l.vertexIds && t in l.vertexIds
                then l.(edgeRows := l.edgeRows + [EdgeRow(rowid, uid, l.vertexIds[s], e.name, l.vertexIds[t])])
                else l.(pending := l.pending + [Pending(e, rowid, uid)]);
      Ok(l1.(eprops := l.eprops + props,
             nextEProp := NextProp(e.props, l.nextEProp),
             fts := l.fts + FtsRows(EdgeKind, props)))
  }

  function AddEdge(l: Loader, e: Edge): Result<Loader> {
    if l.opts.onCollision.Replace? then Ok(l.(rawEdges := l.rawEdges + [e]))
    else
      var (rowid, uid) := IdOf(l.opts.idPolicy, e.id, l.nextEdge);
      BufferEdge(l.(nextEdge := Bump(l.nextEdge, rowid)), rowid, uid, e)
  }

  /** One call a source makes on its loader. */
  datatype Op = AddV(v: Vertex) | AddE(e: Edge)

  function Add(l: Loader, op: Op): Result<Loader> {
    match op
    case AddV(v) => Ok(AddVertex(l, v))
    case AddE(e) => AddEdge(l, e)
  }

  function Feed(l: Loader, ops: seq<Op>): Result<Loader> {
    if ops == [] then Ok(l)
    else
      var l' :- Feed(l, ops[..|ops| - 1]);
      Add(l', ops[|ops| - 1])
  }

  /** What a loader was opened with stays as it was. */
  lemma {:induction false} FeedKeepsOptions(l: Loader, ops: seq<Op>)
    requires Feed(l, ops).Ok?
    ensures var l' := Feed(l, ops).value;
      l'.opts == l.opts && l'.journal == l.journal && l'.emptyTarget == l.emptyTarget
  {
    if ops != [] { FeedKeepsOptions(l, ops[..|ops| - 1]); }
  }

  // ---------- the collision check ----------

  /** Bytewise order, the one SQLite's `MIN` takes over text. */
  predicate BytesLe(a: seq<Byte>, b: seq<Byte>) {
    a == [] || (b != [] && (a[0] < b[0] || (a[0] == b[0] && BytesLe(a[1..], b[1..]))))
  }

  predicate TextLe(a: Text, b: Text) { BytesLe(Utf8(a), Utf8(b)) }

  lemma {:induction false} BytesLeTotal(a: seq<Byte>, b: seq<Byte>)
    ensures BytesLe(a, b) || BytesLe(b, a)
  {
    if a != [] && b != [] && a[0] == b[0] { BytesLeTotal(a[1..], b[1..]); }
  }

  lemma {:induction false} BytesLeTransitive(a: seq<Byte>, b: seq<Byte>, c: seq<Byte>)
    requires BytesLe(a, b) && BytesLe(b, c)
    ensures BytesLe(a, c)
  {
    if a != [] && b != [] && c != [] && a[0] == b[0] == c[0] { BytesLeTransitive(a[1..], b[1..], c[1..]); }
  }

  predicate KeyLe(a: Key, b: Key) {
    match (a, b)
    case (Num(m), Num(n)) => m <= n
    case (Str(s), Str(t)) => TextLe(s, t)
    case (Num(_), Str(_)) => true
    case (Str(_), Num(_)) => false
  }

  predicate IsLeast(k: Key, ks: set<Key>) {
    k in ks && forall k' | k' in ks :: KeyLe(k, k')
  }

  lemma {:induction false} HasLeast(ks: set<Key>, k: Key)
    requires k in ks
    ensures exists least :: IsLeast(least, ks)
  {
    if forall k' | k' in ks :: KeyLe(k, k') {
      assert IsLeast(k, ks);
    } else {
      var k' :| k' in ks && !KeyLe(k, k');
      KeyLeTotal(k, k);
      HasLeast(ks - {k}, k');
      var least :| IsLeast(least, ks - {k});
      KeyLeTotal(k, k');
      KeyLeTransitive(least, k', k);
      forall i | i in ks ensures KeyLe(least, i) {
        assert i == k || i in ks - {k};
      }
      assert IsLeast(least, ks);
    }
  }

  lemma KeyLeTotal(a: Key, b: Key)
    ensures KeyLe(a, b) || KeyLe(b, a)
  {
    if a.Str? && b.Str? { BytesLeTotal(Utf8(a.s), Utf8(b.s)); }
  }

  lemma KeyLeTransitive(a: Key, b: Key, c: Key)
    requires KeyLe(a, b) && KeyLe(b, c)
    ensures KeyLe(a, c)
  {
    if a.Str? && b.Str? && c.Str? { BytesLeTransitive(Utf8(a.s), Utf8(b.s), Utf8(c.s)); }
  }

  /** `SELECT MIN(column) … WHERE column IN (claims)`: refuse the least value already taken. */
  ghost function AssertFree(table: string, column: string, taken: set<Key>, claims: set<Key>): Result<()> {
    if k :| k in taken * claims then
      HasLeast(taken * claims, k);
      var least :| IsLeast(least, taken * claims);
      Err(Collision(table, column, least))
    else Ok(())
  }

  function NodeKeys(t: multiset<NodeRow>): set<Key> { set r | r in t :: Num(r.id) }
  function NodeUids(t: multiset<NodeRow>): set<Key> { set r | r in t && r.uid.Some? :: Str(r.uid.value) }
  function EdgeKeys(t: multiset<EdgeRow>): set<Key> { set r | r in t :: Num(r.id) }
  function EdgeUids(t: multiset<EdgeRow>): set<Key> { set r | r in t && r.uid.Some? :: Str(r.uid.value) }
  function PendingKeys(ps: seq<Pending>): set<Key> { set p | p in ps :: Num(p.id) }
  function PendingUids(ps: seq<Pending>): set<Key> { set p | p in ps && p.uid.Some? :: Str(p.uid.value) }

  ghost function AssertNoCollisions(db: Tables, l: Loader): Result<()> {
    if l.emptyTarget then Ok(())
    else
      var nodes, edges := multiset(l.nodeRows), multiset(l.edgeRows);
      var byId := l.opts.idPolicy.Preserve?;
      var _ :- if byId then AssertFree("nodes", "id", NodeKeys(db.nodes), NodeKeys(nodes)) else Ok(());
      var _ :- AssertFree("nodes", "uid", NodeUids(db.nodes), NodeUids(nodes));
      var _ :- if byId then AssertFree("edges", "id", EdgeKeys(db.edges), EdgeKeys(edges) + PendingKeys(l.pending))
               else Ok(());
      AssertFree("edges", "uid", EdgeUids(db.edges), EdgeUids(edges) + PendingUids(l.pending))
  }

  // ---------- landing ----------

  /** The memo first, then the store, which by now holds this batch's own vertices. */
  ghost function ResolveEndpoint(nodes: multiset<NodeRow>, ids: map<Text, int>, k: Key): Result<int> {
    if Spelling(k) in ids then Ok(ids[Spelling(k)])
    else
      match Lookup(nodes, k)
      case None => Err(UnknownVertex(k))
      case Some(id) => Ok(id)
  }

  ghost function ResolvePending(nodes: multiset<NodeRow>, ids: map<Text, int>, pending: seq<Pending>)
    : Result<(seq<EdgeRow>, map<Text, int>)>
  {
    if pending == [] then Ok(([], ids))
    else
      var (rows, ids1) :- ResolvePending(nodes, ids, pending[..|pending| - 1]);
      var p := pending[|pending| - 1];
      var src :- ResolveEndpoint(nodes, ids1, p.edge.src);
      var ids2 := ids1[Spelling(p.edge.src) := src];
      var tgt :- ResolveEndpoint(nodes, ids2, p.edge.tgt);
      Ok((rows + [EdgeRow(p.id, p.uid, src, p.edge.name, tgt)], ids2[Spelling(p.edge.tgt) := tgt]))
  }

  function JournalRows(load: Text, nodes: seq<NodeRow>, edges: seq<EdgeRow>): seq<JournalRow> {
    seq(|nodes|, i requires 0 <= i < |nodes| => JournalRow(load, NodeKind, nodes[i].id))
    + seq(|edges|, i requires 0 <= i < |edges| => JournalRow(load, EdgeKind, edges[i].id))
  }

  function Cleared(l: Loader): Loader {
    l.(nodeRows := [], labelRows := [], vprops := [], edgeRows := [], eprops := [], fts := [],
       pending := [], rawVertices := [], rawEdges := [])
  }

  ghost function Journal(db: multiset<JournalRow>, l: Loader, edges: seq<EdgeRow>): multiset<JournalRow> {
    match l.journal
    case None => db
    case Some(load) => db + multiset(JournalRows(load, l.nodeRows, edges))
  }

  /** The inserts of one batch, table by table, each refused whole by a broken UNIQUE key. */
  ghost function LandRows(db: Tables, l: Loader): Result<(Tables, Loader)> {
    var nodes := db.nodes + multiset(l.nodeRows);
    var labels := db.labels + multiset(l.labelRows);
    var vprops := db.vprops + multiset(l.vprops);
    if !UniqueNodes(nodes) then Err(NotUnique("nodes"))
    else if !NoRepeats(labels) then Err(NotUnique("vertex_labels"))
    else if !UniqueVProps(vprops) then Err(NotUnique("vertex_properties"))
    else
      var (resolved, ids) :- ResolvePending(nodes, l.vertexIds, l.pending);
      var edgeRows := l.edgeRows + resolved;
      var edges := db.edges + multiset(edgeRows);
      var journal := Journal(db.journal, l, edgeRows);
      var eprops := db.eprops + multiset(l.eprops);
      var fts := db.fts + multiset(l.fts);
      if !UniqueEdges(edges) then Err(NotUnique("edges"))
      else if !NoRepeats(journal) then Err(NotUnique("bulk_journal"))
      else if !UniqueEProps(eprops) then Err(NotUnique("edge_properties"))
      else if !UniqueFts(fts) then Err(NotUnique("property_fts"))
      else Ok((Tables(nodes, labels, vprops, db.cards, edges, eprops, fts, journal), Cleared(l.(vertexIds := ids))))
  }

  // ---------- resolving a replace batch ----------

  function VertexKey(v: Vertex): Option<Key> { v.id }
  function EdgeKey(e: Edge): Option<Key> { e.id }

  /** Buffer one deduplicated vertex. A match keeps its `nodes` row (and so its rowid, uid and edges). */
  ghost function ReplaceVertex(nodes: multiset<NodeRow>, l: Loader, v: Vertex): (Loader, set<int>) {
    match v.id
    case Some(Num(n)) =>
      var matched := Lookup(nodes, Num(n)).Some?;
      (BufferVertex(l.(nextNode := Bump(l.nextNode, n)), n, None, v, !matched), if matched then {n} else {})
    case Some(Str(s)) =>
      (match Lookup(nodes, Str(s))
       case Some(id) => (BufferVertex(l, id, Some(WellFormed(s)), v, false), {id})
       case None => (BufferVertex(l.(nextNode := l.nextNode + 1), l.nextNode, Some(WellFormed(s)), v, true), {}))
    case None => (BufferVertex(l.(nextNode := l.nextNode + 1), l.nextNode, None, v, true), {})
  }

  ghost function ReplaceVertices(nodes: multiset<NodeRow>, l: Loader, vs: seq<Vertex>): (Loader, set<int>) {
    if vs == [] then (l, {})
    else
      var (l1, matched) := ReplaceVertices(nodes, l, vs[..|vs| - 1]);
      var (l2, more) := ReplaceVertex(nodes, l1, vs[|vs| - 1]);
      (l2, matched + more)
  }

  ghost function LookupEdge(edges: multiset<EdgeRow>, k: Key): (id: Option<int>)
    ensures id.Some? <==> exists r :: r in edges && NamesEdge(r, k)
    ensures id.Some? ==> exists r :: r in edges && NamesEdge(r, k) && r.id == id.value
  {
    if exists r :: r in edges && NamesEdge(r, k) then
      var r :| r in edges && NamesEdge(r, k);
      Some(r.id)
    else None
  }

  predicate NamesEdge(r: EdgeRow, k: Key) {
    match k
    case Num(n) => r.id == n
    case Str(s) => r.uid == Some(WellFormed(s))
  }

  lemma OneEdgeNamed(t: multiset<EdgeRow>, k: Key, r: EdgeRow)
    requires UniqueEdges(t) && r in t && NamesEdge(r, k)
    ensures LookupEdge(t, k) == Some(r.id)
  {
    var r' :| r' in t && NamesEdge(r', k) && r'.id == LookupEdge(t, k).value;
    if r != r' {
      match k
      case Num(n) => assert r.id != r'.id;
      case Str(s) => assert r.uid != r'.uid;
    }
  }

  /** Buffer one deduplicated edge. A match is deleted whole and inserted afresh. */
  ghost function ReplaceEdge(edges: multiset<EdgeRow>, l: Loader, e: Edge): Result<(Loader, set<int>)> {
    match e.id
    case Some(Num(n)) =>
      var l' :- BufferEdge(l.(nextEdge := Bump(l.nextEdge, n)), n, None, e);
      Ok((l', if LookupEdge(edges, Num(n)).Some? then {n} else {}))
    case Some(Str(s)) =>
      var l' :- BufferEdge(l.(nextEdge := l.nextEdge + 1), l.nextEdge, Some(WellFormed(s)), e);
      var was := LookupEdge(edges, Str(s));
      Ok((l', if was.Some? then {was.value} else {}))
    case None =>
      var l' :- BufferEdge(l.(nextEdge := l.nextEdge + 1), l.nextEdge, None, e);
      Ok((l', {}))
  }

  ghost function ReplaceEdges(edges: multiset<EdgeRow>, l: Loader, es: seq<Edge>): Result<(Loader, set<int>)> {
    if es == [] then Ok((l, {}))
    else
      var (l1, matched) :- ReplaceEdges(edges, l, es[..|es| - 1]);
      var (l2, more) :- ReplaceEdge(edges, l1, es[|es| - 1]);
      Ok((l2, matched + more))
  }

  /** The index rows left when those of these owners' properties go. */
  function VertexFtsLeft(db: Tables, ids: set<int>): multiset<FtsRow> {
    Keep(db.fts, (r: FtsRow) => !exists p :: p in db.vprops && p.id == r.rowid && p.owner in ids)
  }

  function EdgeFtsLeft(db: Tables, ids: set<int>): multiset<FtsRow> {
    Keep(db.fts, (r: FtsRow) => !exists p :: p in db.eprops && -p.id == r.rowid && p.owner in ids)
  }

  /** Remove matched vertices' owned rows, the index rows first (they are found through the properties). */
  function WipeVertices(db: Tables, ids: set<int>): Tables {
    db.(fts := VertexFtsLeft(db, ids),
        vprops := Keep(db.vprops, (p: PropRow) => p.owner !in ids),
        labels := Keep(db.labels, (r: LabelRow) => r.node !in ids),
        cards := Keep(db.cards, (r: CardRow) => r.node !in ids))
  }

  function WipeEdges(db: Tables, ids: set<int>): Tables {
    db.(fts := EdgeFtsLeft(db, ids),
        eprops := Keep(db.eprops, (p: PropRow) => p.owner !in ids),
        edges := Keep(db.edges, (r: EdgeRow) => r.id !in ids))
  }

  ghost function ResolveReplace(db: Tables, l: Loader): Result<(Tables, Loader)> {
    var (l1, matchedVertices) := ReplaceVertices(db.nodes, l, Deduped(l.rawVertices, VertexKey));
    var db1 := WipeVertices(db, matchedVertices);
    var (l2, matchedEdges) :- ReplaceEdges(db.edges, l1, Deduped(l.rawEdges, EdgeKey));
    Ok((WipeEdges(db1, matchedEdges), l2))
  }

  /** Everything `flush` does inside its atomic unit. */
  ghost function LandBatch(db: Tables, l: Loader): Result<(Tables, Loader)> {
    if l.opts.onCollision.Replace? then
      var (db', l') :- ResolveReplace(db, l);
      LandRows(db', l')
    else
      var _ :- AssertNoCollisions(db, l);
      LandRows(db, l)
  }
}
