/** The relational store a graph lives in: rows, tables as bags of rows, the UNIQUE keys of the schema
    (src/storage.ts), and the set-based statements the loader issues against it. */
module Graph {
  import opened Utf16

  datatype Option<+T> = None | Some(value: T)

  datatype Error =
    | Collision(table: string, column: string, value: Key)   // the loader's own check
    | NotUnique(table: string)                               // a UNIQUE key refused the insert
    | UnknownVertex(key: Key)
    | MetaOnEdge
    | Refused                                                // the driver refused a statement
    | FeedFailed                                             // the source raised between two elements
    | NotStreamable                                          // a streamed load cannot replace

  datatype Result<+T> = Ok(value: T) | Err(error: Error) {
    predicate IsFailure() { Err? }

    function PropagateFailure<U>(): Result<U>
      requires Err?
    {
      Err(error)
    }

    function Extract(): T
      requires Ok?
    {
      value
    }
  }

  /** The id a source gives an element, or uses to name a vertex: a number or a string. */
  datatype Key = Num(n: int) | Str(s: Text)

  /** `String(id)`, the spelling the loader's endpoint map is keyed by. */
  function Spelling(k: Key): Text {
    match k
    case Num(n) => Decimal(n)
    case Str(s) => s
  }

  /** A property value with its type tag, and the text it is indexed as (empty: not indexed). */
  datatype Value = Value(stored: string, vtype: string, text: string)

  datatype Property = Property(key: string, value: Value, meta: Option<string>, id: Option<int>)
  datatype Vertex = Vertex(id: Option<Key>, labels: seq<string>, props: seq<Property>)
  datatype Edge = Edge(id: Option<Key>, name: string, src: Key, tgt: Key, props: seq<Property>)

  // ---------- rows ----------

  datatype NodeRow = NodeRow(id: int, uid: Option<Text>)
  datatype LabelRow = LabelRow(node: int, name: string)
  /** A row of vertex_properties or edge_properties; `owner` is the node or the edge. */
  datatype PropRow = PropRow(id: int, owner: int, key: string, value: Value, meta: Option<string>)
  datatype CardRow = CardRow(node: int, key: string, cardinality: string)
  datatype EdgeRow = EdgeRow(id: int, uid: Option<Text>, src: int, name: string, tgt: int)
  datatype Kind = NodeKind | EdgeKind
  datatype FtsRow = FtsRow(rowid: int, elem: Kind, pid: int, owner: int, key: string, text: string)
  datatype JournalRow = JournalRow(load: Text, kind: Kind, id: int)

  /** Every table of one graph. */
  datatype Tables = Tables(
    nodes: multiset<NodeRow>, labels: multiset<LabelRow>, vprops: multiset<PropRow>, cards: multiset<CardRow>,
    edges: multiset<EdgeRow>, eprops: multiset<PropRow>, fts: multiset<FtsRow>, journal: multiset<JournalRow>)

  // ---------- UNIQUE keys ----------

  predicate NoRepeats<T(==)>(t: multiset<T>) {
    forall r | r in t :: t[r] == 1
  }

  predicate UniqueNodes(t: multiset<NodeRow>) {
    && NoRepeats(t)
    && forall r, r' | r in t && r' in t && r != r' :: r.id != r'.id && (r.uid.None? || r.uid != r'.uid)
  }

  predicate UniqueEdges(t: multiset<EdgeRow>) {
    && NoRepeats(t)
    && forall r, r' | r in t && r' in t && r != r' :: r.id != r'.id && (r.uid.None? || r.uid != r'.uid)
  }

  predicate UniqueVProps(t: multiset<PropRow>) {
    && NoRepeats(t)
    && forall r, r' | r in t && r' in t && r != r' :: r.id != r'.id
  }

  predicate UniqueEProps(t: multiset<PropRow>) {
    && NoRepeats(t)
    && forall r, r' | r in t && r' in t && r != r' :: r.id != r'.id && (r.owner != r'.owner || r.key != r'.key)
  }

  predicate UniqueCards(t: multiset<CardRow>) {
    && NoRepeats(t)
    && forall r, r' | r in t && r' in t && r != r' :: r.node != r'.node || r.key != r'.key
  }

  predicate UniqueFts(t: multiset<FtsRow>) {
    && NoRepeats(t)
    && forall r, r' | r in t && r' in t && r != r' :: r.rowid != r'.rowid
  }

  /** Every UNIQUE key of the schema holds. */
  ghost predicate Unique(db: Tables) {
    && UniqueNodes(db.nodes) && NoRepeats(db.labels) && UniqueVProps(db.vprops) && UniqueCards(db.cards)
    && UniqueEdges(db.edges) && UniqueEProps(db.eprops) && UniqueFts(db.fts) && NoRepeats(db.journal)
  }

  /** Every reference names an existing row. */
  ghost predicate References(db: Tables) {
    && (forall r | r in db.labels :: HasNode(db.nodes, r.node))
    && (forall r | r in db.vprops :: HasNode(db.nodes, r.owner))
    && (forall r | r in db.cards :: HasNode(db.nodes, r.node))
    && (forall r | r in db.edges :: HasNode(db.nodes, r.src) && HasNode(db.nodes, r.tgt))
    && (forall r | r in db.eprops :: HasEdge(db.edges, r.owner))
  }

  /** Property ids are the positive ones SQLite mints. */
  ghost predicate PositiveProps(db: Tables) {
    && (forall r | r in db.vprops :: r.id > 0)
    && (forall r | r in db.eprops :: r.id > 0)
  }

  ghost predicate HasNode(t: multiset<NodeRow>, id: int) { exists r :: r in t && r.id == id }
  ghost predicate HasEdge(t: multiset<EdgeRow>, id: int) { exists r :: r in t && r.id == id }

  // ---------- the full-text index ----------

  /** The FTS rowid of a property: its id, negated for an edge property. */
  function FtsRowid(kind: Kind, pid: int): int {
    if kind.EdgeKind? then -pid else pid
  }

  /** The one index row of a property row. */
  function FtsOf(kind: Kind, p: PropRow): FtsRow {
    FtsRow(FtsRowid(kind, p.id), kind, p.id, p.owner, p.key, p.value.text)
  }

  /** `r` is the index row of a property of this table; a property with no text has none. */
  ghost predicate Indexes(kind: Kind, t: multiset<PropRow>, r: FtsRow) {
    exists p :: p in t && p.value.text != "" && r == FtsOf(kind, p)
  }

  /** property_fts is the image of the two property tables. */
  ghost predicate Indexed(db: Tables) {
    forall r :: r in db.fts <==> Indexes(NodeKind, db.vprops, r) || Indexes(EdgeKind, db.eprops, r)
  }

  /** An intact graph: keys unique, references resolved, the index in step. */
  ghost predicate Intact(db: Tables) {
    Unique(db) && References(db) && Indexed(db)
  }

  /** An intact graph whose property ids are as SQLite mints them. */
  ghost predicate Consistent(db: Tables) {
    Intact(db) && PositiveProps(db)
  }

  // ---------- statements ----------

  lemma {:induction false} HasGreatest(ids: set<int>, x: int)
    requires x in ids
    ensures exists m :: m in ids && forall i | i in ids :: i <= m
  {
    if y :| y in ids && y > x {
      var rest := ids - {x};
      HasGreatest(rest, y);
      var m :| m in rest && forall i | i in rest :: i <= m;
      assert y in rest && m in ids;
      forall i | i in ids ensures i <= m { assert i in rest || i == x; }
    } else {
      assert forall i | i in ids :: i <= x;
    }
  }

  /** `SELECT max(id)`, 0 when there is no row. */
  ghost function MaxOr0(ids: set<int>): (m: int)
    ensures ids == {} ==> m == 0
    ensures ids != {} ==> m in ids
    ensures forall i | i in ids :: i <= m
  {
    if x :| x in ids then
      HasGreatest(ids, x);
      var m :| m in ids && forall i | i in ids :: i <= m; m
    else 0
  }

  function NodeIds(t: multiset<NodeRow>): set<int> { set r | r in t :: r.id }
  function EdgeIds(t: multiset<EdgeRow>): set<int> { set r | r in t :: r.id }
  function PropIds(t: multiset<PropRow>): set<int> { set r | r in t :: r.id }

  /** The rowid of the node a key names in the store: a number by rowid, a string by its stored uid. */
  ghost function Lookup(nodes: multiset<NodeRow>, k: Key): (id: Option<int>)
    ensures id.Some? <==> exists r :: r in nodes && Names(r, k)
    ensures id.Some? ==> exists r :: r in nodes && Names(r, k) && r.id == id.value
  {
    if exists r :: r in nodes && Names(r, k) then
      var r :| r in nodes && Names(r, k);
      Some(r.id)
    else None
  }

  predicate Names(r: NodeRow, k: Key) {
    match k
    case Num(n) => r.id == n
    case Str(s) => r.uid == Some(WellFormed(s))
  }

  /** Unique ids and uids leave a key one vertex to name. */
  lemma OneVertexNamed(t: multiset<NodeRow>, k: Key, r: NodeRow)
    requires UniqueNodes(t) && r in t && Names(r, k)
    ensures Lookup(t, k) == Some(r.id)
  {
    var r' :| r' in t && Names(r', k) && r'.id == Lookup(t, k).value;
    if r != r' {
      match k
      case Num(n) => assert r.id != r'.id;
      case Str(s) => assert r.uid != r'.uid;
    }
  }

  /** `DELETE … WHERE !keep`: what is left of a table. */
  function Keep<T(==, !new)>(t: multiset<T>, keep: T -> bool): multiset<T> {
    multiset(set r | r in t && keep(r))
  }

  /** Deleting exactly what was added leaves the original table. */
  lemma KeepRestores<T(!new)>(t: multiset<T>, keep: T -> bool, t0: multiset<T>)
    requires NoRepeats(t0)
    requires forall r :: r in t0 <==> r in t && keep(r)
    ensures Keep(t, keep) == t0
  {
    var kept := set r | r in t && keep(r);
    forall r ensures multiset(kept)[r] == t0[r] {
      assert r in kept <==> r in t0;
    }
  }

  lemma KeepSame<T(!new)>(t: multiset<T>, f: T -> bool, g: T -> bool)
    requires forall r | r in t :: f(r) == g(r)
    ensures Keep(t, f) == Keep(t, g)
  {
    assert (set r | r in t && f(r)) == (set r | r in t && g(r));
  }

  lemma KeepIsUnique<T(!new)>(t: multiset<T>, keep: T -> bool)
    ensures NoRepeats(Keep(t, keep))
    ensures forall r :: r in Keep(t, keep) <==> r in t && keep(r)
  {
  }

  // ---------- undoing a streamed load ----------

  predicate Journaled(db: Tables, scope: Option<Text>, kind: Kind, id: int) {
    exists j :: j in db.journal && j.kind == kind && j.id == id && InScope(j, scope)
  }

  predicate InScope(j: JournalRow, scope: Option<Text>) {
    scope.None? || j.load == scope.value
  }

  /** An edge the undo removes: journaled itself, or attached to a journaled node. */
  predicate Touches(db: Tables, scope: Option<Text>, e: EdgeRow) {
    || Journaled(db, scope, EdgeKind, e.id)
    || Journaled(db, scope, NodeKind, e.src)
    || Journaled(db, scope, NodeKind, e.tgt)
  }

  predicate OwnedByTouched(db: Tables, scope: Option<Text>, edge: int) {
    exists e :: e in db.edges && e.id == edge && Touches(db, scope, e)
  }

  /** An index row reached from a property whose owner goes, by seeking its signed rowid. */
  predicate SeekFromEdges(db: Tables, gone: int -> bool, r: FtsRow) {
    exists p :: p in db.eprops && -p.id == r.rowid && gone(p.owner)
  }

  predicate SeekFromVertices(db: Tables, gone: int -> bool, r: FtsRow) {
    exists p :: p in db.vprops && p.id == r.rowid && gone(p.owner)
  }

  // What each of the undo's deletes leaves of its table.

  function EdgeIndexLeft(db: Tables, scope: Option<Text>): multiset<FtsRow> {
    var gone := (o: int) => OwnedByTouched(db, scope, o);
    Keep(db.fts, (r: FtsRow) => !SeekFromEdges(db, gone, r))
  }

  function EdgePropsLeft(db: Tables, scope: Option<Text>): multiset<PropRow> {
    Keep(db.eprops, (r: PropRow) => !OwnedByTouched(db, scope, r.owner))
  }

  function EdgesLeft(db: Tables, scope: Option<Text>): multiset<EdgeRow> {
    Keep(db.edges, (r: EdgeRow) => !Touches(db, scope, r))
  }

  function VertexIndexLeft(db: Tables, scope: Option<Text>): multiset<FtsRow> {
    var gone := (o: int) => Journaled(db, scope, NodeKind, o);
    Keep(db.fts, (r: FtsRow) => !SeekFromVertices(db, gone, r))
  }

  function VPropsLeft(db: Tables, scope: Option<Text>): multiset<PropRow> {
    Keep(db.vprops, (r: PropRow) => !Journaled(db, scope, NodeKind, r.owner))
  }

  function LabelsLeft(db: Tables, scope: Option<Text>): multiset<LabelRow> {
    Keep(db.labels, (r: LabelRow) => !Journaled(db, scope, NodeKind, r.node))
  }

  function CardsLeft(db: Tables, scope: Option<Text>): multiset<CardRow> {
    Keep(db.cards, (r: CardRow) => !Journaled(db, scope, NodeKind, r.node))
  }

  function NodesLeft(db: Tables, scope: Option<Text>): multiset<NodeRow> {
    Keep(db.nodes, (r: NodeRow) => !Journaled(db, scope, NodeKind, r.id))
  }

  function JournalLeft(db: Tables, scope: Option<Text>): multiset<JournalRow> {
    Keep(db.journal, (j: JournalRow) => !InScope(j, scope))
  }

  /** `rollbackBulkLoads`: every journaled element goes, with the rows it owns, and then its journal rows.
      `None` undoes every load. Stated on the tables as they were before its first statement. */
  function Rollback(db: Tables, scope: Option<Text>): Tables {
    Tables(
      NodesLeft(db, scope), LabelsLeft(db, scope), VPropsLeft(db, scope), CardsLeft(db, scope),
      EdgesLeft(db, scope), EdgePropsLeft(db, scope),
      VertexIndexLeft(db.(fts := EdgeIndexLeft(db, scope)), scope),
      JournalLeft(db, scope))
  }

  /** `clearBulkJournal`: forget a completed load. */
  function ClearJournal(db: Tables, load: Text): Tables {
    db.(journal := Keep(db.journal, (j: JournalRow) => j.load != load))
  }
}
