/** `onCollision: 'replace'` as a whole-batch operation refines upserting the definitions one by one
    (src/bulk.ts `resolveReplace`). */
module ReplaceBatch {
  import opened Utf16
  import opened Graph
  import opened Dedupe
  import opened Loader
  import opened Cursors
  import opened Consistency
  import opened Batching
  import opened BatchingProof
  import opened BatchingTheorem

  // ---------- the reference: one definition at a time ----------

  /** Give vertex `id` exactly the definition `v`, whatever it carried before. */
  ghost function Define(db: Tables, id: int, v: Vertex): Tables {
    var wiped := WipeVertices(db, {id});
    var rows := PropRows(id, v.props, MaxOr0(PropIds(wiped.vprops)) + 1);
    wiped.(labels := wiped.labels + multiset(LabelRows(id, v.labels)),
           vprops := wiped.vprops + multiset(rows),
           fts := wiped.fts + multiset(FtsRows(NodeKind, rows)))
  }

  /** The vertex a key names, or where its new vertex goes. */
  ghost function TargetOf(nodes: multiset<NodeRow>, k: Key, next: int): int {
    match k
    case Num(n) => n
    case Str(_) => if Lookup(nodes, k).Some? then Lookup(nodes, k).value else next
  }

  /** The row a key needs: none if it names a vertex already. */
  ghost function NewRow(nodes: multiset<NodeRow>, k: Key, next: int): seq<NodeRow> {
    if Lookup(nodes, k).Some? then []
    else [NodeRow(TargetOf(nodes, k, next), if k.Str? then Some(WellFormed(k.s)) else None)]
  }

  /** Match or create, then define. */
  ghost function Upsert(db: Tables, v: Vertex): Result<Tables>
    requires v.id.Some?
  {
    var k, next := v.id.value, MaxOr0(NodeIds(db.nodes)) + 1;
    var db' := Define(db.(nodes := db.nodes + multiset(NewRow(db.nodes, k, next))), TargetOf(db.nodes, k, next), v);
    if Unique(db') then Ok(db') else Err(NotUnique("upsert"))
  }

  ghost predicate Keyed(vs: seq<Vertex>) {
    forall v | v in vs :: v.id.Some? && PositiveId(v.id)
  }

  ghost function UpsertAll(db: Tables, vs: seq<Vertex>): Result<Tables>
    requires Keyed(vs)
  {
    if vs == [] then Ok(db)
    else
      var s :- UpsertAll(db, vs[..|vs| - 1]);
      Upsert(s, vs[|vs| - 1])
  }

  // ---------- what a vertex shows ----------

  /** The labels of vertex `id` are the listed names and no others. */
  ghost predicate HoldsLabels(t: multiset<LabelRow>, id: int, names: seq<string>) {
    forall name :: LabelRow(id, name) in t <==> name in names
  }

  /** Row for row the listed properties of `owner`: key, value and meta bag, and the rowid where one is given. */
  predicate Tells(rows: seq<PropRow>, owner: int, props: seq<Property>) {
    && |rows| == |props|
    && forall i | 0 <= i < |rows| ::
        && rows[i].owner == owner && rows[i].key == props[i].key
        && rows[i].value == props[i].value && rows[i].meta == props[i].meta
        && (props[i].id.Some? ==> rows[i].id == props[i].id.value)
  }

  /** The properties of `owner` are the listed ones, one row each, and no others. */
  ghost predicate Carries(t: multiset<PropRow>, owner: int, props: seq<Property>) {
    exists rows :: CarriesRows(t, owner, props, rows)
  }

  ghost predicate CarriesRows(t: multiset<PropRow>, owner: int, props: seq<Property>, rows: seq<PropRow>) {
    && Tells(rows, owner, props) && multiset(rows) <= t
    && forall r | r in t && r.owner == owner :: r in rows
  }

  lemma {:induction false} PropRowsTell(owner: int, props: seq<Property>, next: int)
    ensures Tells(PropRows(owner, props, next), owner, props)
  {
    if props != [] { PropRowsTell(owner, props[..|props| - 1], next); }
  }

  lemma {:induction false} DistinctKeepsAll(names: seq<string>)
    ensures forall name :: name in Distinct(names) <==> name in names
  {
    if names != [] {
      DistinctKeepsAll(names[..|names| - 1]);
      assert forall name :: name in names <==> name in names[..|names| - 1] || name == names[|names| - 1];
    }
  }

  lemma LabelRowsShape(id: int, names: seq<string>)
    ensures forall r :: r in LabelRows(id, names) <==> r.node == id && r.name in names
  {
    DistinctKeepsAll(names);
    var distinct, rows := Distinct(names), LabelRows(id, names);
    forall r: LabelRow | r.node == id && r.name in names ensures r in rows {
      var i :| 0 <= i < |distinct| && distinct[i] == r.name;
      assert rows[i] == r;
    }
  }

  /** Vertex `id` carries exactly the definition `v`: its labels, its properties, no declared cardinality. */
  ghost predicate Shows(s: Tables, id: int, v: Vertex) {
    && HoldsLabels(s.labels, id, v.labels)
    && Carries(s.vprops, id, v.props)
    && forall r | r in s.cards :: r.node != id
  }

  /** Nothing vertex `id` owns differs. */
  ghost predicate Untouched(db: Tables, s: Tables, id: int) {
    && (forall r: LabelRow | r.node == id :: r in s.labels <==> r in db.labels)
    && (forall r: PropRow | r.owner == id :: r in s.vprops <==> r in db.vprops)
    && (forall r: CardRow | r.node == id :: r in s.cards <==> r in db.cards)
  }

  /** Where each key, in first-seen order, lands. */
  ghost function Targets(nodes: multiset<NodeRow>, keys: seq<Key>, next: int): seq<int> {
    if keys == [] then []
    else
      var n := |keys| - 1;
      Targets(nodes, keys[..n], next) + [TargetOf(nodes, keys[n], CursorAfter(nodes, keys[..n], next))]
  }

  ghost function CursorAfter(nodes: multiset<NodeRow>, keys: seq<Key>, next: int): int {
    if keys == [] then next
    else
      var n := |keys| - 1;
      var c := CursorAfter(nodes, keys[..n], next);
      match keys[n]
      case Num(m) => Bump(c, m)
      case Str(_) => if Lookup(nodes, keys[n]).Some? then c else c + 1
  }

  ghost function NewRows(nodes: multiset<NodeRow>, keys: seq<Key>, next: int): seq<NodeRow> {
    if keys == [] then []
    else
      var n := |keys| - 1;
      NewRows(nodes, keys[..n], next) + NewRow(nodes, keys[n], CursorAfter(nodes, keys[..n], next))
  }

  ghost function Start(db: Tables): int { MaxOr0(NodeIds(db.nodes)) + 1 }

  /** `s` is `db` with each key of `b` matched or created, showing its last definition, and every other
      vertex as it was. */
  ghost predicate Described(db: Tables, s: Tables, b: Buckets<Vertex>)
    requires Filled(b)
  {
    var ts := Targets(db.nodes, b.keys, Start(db));
    && s.nodes == db.nodes + multiset(NewRows(db.nodes, b.keys, Start(db)))
    && |ts| == |b.keys|
    && (forall i | 0 <= i < |ts| :: Shows(s, ts[i], b.last[b.keys[i]]))
    && (forall id | id !in ts :: Untouched(db, s, id))
  }

  /** Distinct keys of the batch that name stored vertices name distinct ones. */
  ghost predicate DistinctTargets(nodes: multiset<NodeRow>, keys: seq<Key>) {
    forall k, k' | k in keys && k' in keys && k != k' && Lookup(nodes, k).Some? && Lookup(nodes, k').Some? ::
      Lookup(nodes, k) != Lookup(nodes, k')
  }

  // ---------- small facts ----------

  lemma LandedNames(r: NodeRow, k: Key)
    ensures Names(r, Landed(k)) <==> Names(r, k)
  {
    if k.Str? { WellFormedTwice(k.s); }
  }

  lemma LandedLooksUpTheSame(nodes: multiset<NodeRow>, k: Key)
    requires UniqueNodes(nodes)
    ensures Lookup(nodes, Landed(k)) == Lookup(nodes, k)
  {
    if Lookup(nodes, k).Some? {
      var r :| r in nodes && Names(r, k) && r.id == Lookup(nodes, k).value;
      LandedNames(r, k);
      OneVertexNamed(nodes, Landed(k), r);
    } else if Lookup(nodes, Landed(k)).Some? {
      var r :| r in nodes && Names(r, Landed(k));
      LandedNames(r, k);
    }
  }

  lemma LandedLandsTheSame(nodes: multiset<NodeRow>, k: Key, next: int)
    requires UniqueNodes(nodes)
    ensures TargetOf(nodes, Landed(k), next) == TargetOf(nodes, k, next)
    ensures NewRow(nodes, Landed(k), next) == NewRow(nodes, k, next)
  {
    LandedLooksUpTheSame(nodes, k);
    if k.Str? { WellFormedTwice(k.s); }
  }

  lemma {:induction false} TargetsAreAsMany(nodes: multiset<NodeRow>, keys: seq<Key>, next: int)
    ensures |Targets(nodes, keys, next)| == |keys|
  {
    if keys != [] { TargetsAreAsMany(nodes, keys[..|keys| - 1], next); }
  }

  /** A key in the batch either names a stored vertex, its target, or has its own new row there. */
  lemma {:induction false} TargetsAreNamed(nodes: multiset<NodeRow>, keys: seq<Key>, next: int, i: nat)
    requires i < |keys|
    ensures |Targets(nodes, keys, next)| == |keys|
    ensures var t := Targets(nodes, keys, next)[i];
      if Lookup(nodes, keys[i]).Some? then keys[i].Str? ==> t == Lookup(nodes, keys[i]).value
      else exists r :: r in NewRows(nodes, keys, next) && Names(r, keys[i]) && r.id == t
    ensures keys[i].Num? ==> Targets(nodes, keys, next)[i] == keys[i].n
  {
    var n := |keys| - 1;
    TargetsAreAsMany(nodes, keys, next);
    TargetsAreAsMany(nodes, keys[..n], next);
    if i < n {
      TargetsAreNamed(nodes, keys[..n], next, i);
      if Lookup(nodes, keys[i]).None? {
        var r :| r in NewRows(nodes, keys[..n], next) && Names(r, keys[i]) && r.id == Targets(nodes, keys, next)[i];
        assert r in NewRows(nodes, keys, next);
      }
    } else if Lookup(nodes, keys[n]).None? {
      var row := NewRow(nodes, keys[n], CursorAfter(nodes, keys[..n], next))[0];
      assert row in NewRows(nodes, keys, next);
    }
  }

  ghost predicate ForKey(nodes: multiset<NodeRow>, keys: seq<Key>, next: int, r: NodeRow, i: int) {
    && 0 <= i < |keys| == |Targets(nodes, keys, next)|
    && Lookup(nodes, keys[i]).None? && Names(r, keys[i]) && r.id == Targets(nodes, keys, next)[i]
    && (r.uid.Some? ==> keys[i].Str?)
  }

  /** Every new row belongs to a key of the batch that named nothing before. */
  lemma {:induction false} NewRowsAreForKeys(nodes: multiset<NodeRow>, keys: seq<Key>, next: int, r: NodeRow)
    requires r in NewRows(nodes, keys, next)
    ensures exists i :: ForKey(nodes, keys, next, r, i)
  {
    var n := |keys| - 1;
    TargetsAreAsMany(nodes, keys, next);
    TargetsAreAsMany(nodes, keys[..n], next);
    if r in NewRows(nodes, keys[..n], next) {
      NewRowsAreForKeys(nodes, keys[..n], next, r);
      var i :| ForKey(nodes, keys[..n], next, r, i);
      assert ForKey(nodes, keys, next, r, i);
    } else {
      assert ForKey(nodes, keys, next, r, n);
    }
  }

  // ---------- adding rows of other owners disturbs nothing ----------

  lemma LabelsKept(t: multiset<LabelRow>, more: multiset<LabelRow>, id: int, names: seq<string>)
    requires HoldsLabels(t, id, names) && forall r | r in more :: r.node != id
    ensures HoldsLabels(t + more, id, names) && HoldsLabels(more + t, id, names)
  {
  }

  lemma PropsKept(t: multiset<PropRow>, more: multiset<PropRow>, owner: int, props: seq<Property>)
    requires Carries(t, owner, props) && forall r | r in more :: r.owner != owner
    ensures Carries(t + more, owner, props) && Carries(more + t, owner, props)
  {
    hide Tells;
    var rows :| CarriesRows(t, owner, props, rows);
    assert CarriesRows(t + more, owner, props, rows) && CarriesRows(more + t, owner, props, rows);
  }

  lemma LabelsAdded(t: multiset<LabelRow>, id: int, names: seq<string>)
    requires forall r | r in t :: r.node != id
    ensures HoldsLabels(t + multiset(LabelRows(id, names)), id, names)
  {
    LabelRowsShape(id, names);
    hide LabelRows;
  }

  lemma PropsAdded(t: multiset<PropRow>, owner: int, props: seq<Property>, c: int)
    requires forall r | r in t :: r.owner != owner
    ensures Carries(t + multiset(PropRows(owner, props, c)), owner, props)
  {
    PropRowsTell(owner, props, c);
    hide PropRows, Tells;
    assert CarriesRows(t + multiset(PropRows(owner, props, c)), owner, props, PropRows(owner, props, c));
  }

  // ---------- the set-based side ----------

  function KeysOf(vs: seq<Vertex>): seq<Key>
    requires forall v | v in vs :: v.id.Some?
  {
    seq(|vs|, i requires 0 <= i < |vs| => Landed(vs[i].id.value))
  }

  ghost predicate Injective(ts: seq<int>) {
    forall i, j | 0 <= i < j < |ts| :: ts[i] != ts[j]
  }

  ghost predicate BufferShows(l: Loader, id: int, v: Vertex) {
    HoldsLabels(multiset(l.labelRows), id, v.labels) && Carries(multiset(l.vprops), id, v.props)
  }

  ghost predicate BuffersOnly(l: Loader, ts: seq<int>) {
    (forall r | r in l.labelRows :: r.node in ts) && (forall r | r in l.vprops :: r.owner in ts)
  }

  lemma BufferAddsVertex(l: Loader, rowid: int, uid: Option<Text>, v: Vertex, push: bool, ts: seq<int>)
    requires BuffersOnly(l, ts) && rowid !in ts
    ensures var l' := BufferVertex(l, rowid, uid, v, push);
      BuffersOnly(l', ts + [rowid]) && BufferShows(l', rowid, v)
  {
    hide NextProp, FtsRows;
    var l' := BufferVertex(l, rowid, uid, v, push);
    PropRowsShape(rowid, v.props, l.nextVProp);
    LabelRowsShape(rowid, v.labels);
    LabelsAdded(multiset(l.labelRows), rowid, v.labels);
    PropsAdded(multiset(l.vprops), rowid, v.props, l.nextVProp);
    hide PropRows, LabelRows;
    assert multiset(l'.labelRows) == multiset(l.labelRows) + multiset(LabelRows(rowid, v.labels));
    assert multiset(l'.vprops) == multiset(l.vprops) + multiset(PropRows(rowid, v.props, l.nextVProp));
  }

  lemma BufferKeepsVertex(l: Loader, rowid: int, uid: Option<Text>, v: Vertex, push: bool, id: int, w: Vertex)
    requires BufferShows(l, id, w) && rowid != id
    ensures BufferShows(BufferVertex(l, rowid, uid, v, push), id, w)
  {
    hide NextProp, FtsRows;
    var l' := BufferVertex(l, rowid, uid, v, push);
    PropRowsShape(rowid, v.props, l.nextVProp);
    LabelRowsShape(rowid, v.labels);
    LabelsKept(multiset(l.labelRows), multiset(LabelRows(rowid, v.labels)), id, w.labels);
    PropsKept(multiset(l.vprops), multiset(PropRows(rowid, v.props, l.nextVProp)), id, w.props);
    hide PropRows, LabelRows;
    assert multiset(l'.labelRows) == multiset(l.labelRows) + multiset(LabelRows(rowid, v.labels));
    assert multiset(l'.vprops) == multiset(l.vprops) + multiset(PropRows(rowid, v.props, l.nextVProp));
  }

  function UidOf(k: Key): Option<Text> { if k.Str? then Some(k.s) else None }

  /** The loader a key's vertex is buffered into: the cursor has moved on. */
  ghost function Advanced(nodes: multiset<NodeRow>, l: Loader, k: Key): Loader {
    l.(nextNode := CursorAfter(nodes, [k], l.nextNode))
  }

  /** What the replace pass buffers for one vertex, in the terms of its landed key. */
  lemma ReplaceVertexIs(nodes: multiset<NodeRow>, l: Loader, v: Vertex)
    requires UniqueNodes(nodes) && v.id.Some?
    ensures var k := Landed(v.id.value); var t := TargetOf(nodes, k, l.nextNode);
      && ReplaceVertex(nodes, l, v).0 == BufferVertex(Advanced(nodes, l, k), t, UidOf(k), v, Lookup(nodes, k).None?)
      && ReplaceVertex(nodes, l, v).0.nodeRows == l.nodeRows + NewRow(nodes, k, l.nextNode)
      && ReplaceVertex(nodes, l, v).1 == (if Lookup(nodes, k).Some? then {t} else {})
  {
    hide PropRows, NextProp, FtsRows, LabelRows;
    LandedLooksUpTheSame(nodes, v.id.value);
    LandedLandsTheSame(nodes, v.id.value, l.nextNode);
    var k := Landed(v.id.value);
    assert [k][..0] == [];
    assert CursorAfter(nodes, [], l.nextNode) == l.nextNode;
    if k.Num? && Lookup(nodes, k).Some? {
      var r :| r in nodes && Names(r, k) && r.id == Lookup(nodes, k).value;
    }
  }

  /** The node rows of the pass, whatever the targets. */
  lemma {:induction false} ReplaceNodes(nodes: multiset<NodeRow>, l: Loader, vs: seq<Vertex>)
    requires UniqueNodes(nodes) && Keyed(vs)
    ensures ReplaceVertices(nodes, l, vs).0.nodeRows == l.nodeRows + NewRows(nodes, KeysOf(vs), l.nextNode)
    ensures ReplaceVertices(nodes, l, vs).0.nextNode == CursorAfter(nodes, KeysOf(vs), l.nextNode)
  {
    hide PropRows, NextProp, FtsRows, LabelRows, ReplaceVertex, BufferVertex;
    if vs != [] {
      var n := |vs| - 1;
      var keys := KeysOf(vs);
      assert KeysOf(vs[..n]) == keys[..n];
      ReplaceNodes(nodes, l, vs[..n]);
      var l1 := ReplaceVertices(nodes, l, vs[..n]).0;
      ReplaceVertexIs(nodes, l1, vs[n]);
      CursorStep(nodes, keys, l.nextNode);
      BufferKeepsCursor(Advanced(nodes, l1, keys[n]), TargetOf(nodes, keys[n], l1.nextNode), UidOf(keys[n]), vs[n],
        Lookup(nodes, keys[n]).None?);
    }
  }

  /** The set-based pass over distinct keys buffers each definition once, at its key's target. */
  lemma {:induction false} SetBasedBuffers(nodes: multiset<NodeRow>, l: Loader, vs: seq<Vertex>)
    requires UniqueNodes(nodes) && Keyed(vs) && l.labelRows == [] && l.vprops == []
    requires Injective(Targets(nodes, KeysOf(vs), l.nextNode))
    ensures var ts := Targets(nodes, KeysOf(vs), l.nextNode); var l' := ReplaceVertices(nodes, l, vs).0;
      && |ts| == |vs| && BuffersOnly(l', ts)
      && forall i | 0 <= i < |vs| :: BufferShows(l', ts[i], vs[i])
  {
    hide BufferShows, BuffersOnly, BufferVertex, ReplaceVertex, UniqueNodes, TargetOf;
    var keys := KeysOf(vs);
    TargetsAreAsMany(nodes, keys, l.nextNode);
    if vs == [] {
      EmptyBuffers(l);
    } else {
      var n := |vs| - 1;
      var front, v := vs[..n], vs[n];
      assert KeysOf(front) == keys[..n];
      TargetsAreAsMany(nodes, keys[..n], l.nextNode);
      var ts, ts1 := Targets(nodes, keys, l.nextNode), Targets(nodes, keys[..n], l.nextNode);
      assert ts == ts1 + [ts[n]];
      assert forall i | 0 <= i < n :: ts1[i] == ts[i];
      SetBasedBuffers(nodes, l, front);
      var l1 := ReplaceVertices(nodes, l, front).0;
      ReplaceNodes(nodes, l, front);
      ReplaceVertexIs(nodes, l1, v);
      StepBuffers(l1, Advanced(nodes, l1, keys[n]), ts1, front, ts[n], UidOf(keys[n]), v, Lookup(nodes, keys[n]).None?);
    }
  }

  /** The matched vertices are the targets of the keys that named one. */
  lemma {:induction false} SetBasedMatches(nodes: multiset<NodeRow>, l: Loader, vs: seq<Vertex>)
    requires UniqueNodes(nodes) && Keyed(vs)
    ensures var keys := KeysOf(vs); var ts := Targets(nodes, keys, l.nextNode);
      var matched := ReplaceVertices(nodes, l, vs).1;
      && |ts| == |vs|
      && (forall i | 0 <= i < |vs| && Lookup(nodes, keys[i]).Some? :: ts[i] in matched)
      && (forall id | id in matched :: id in ts)
  {
    hide BufferVertex, ReplaceVertex, UniqueNodes, TargetOf, Lookup, NewRow, NewRows;
    var keys := KeysOf(vs);
    TargetsAreAsMany(nodes, keys, l.nextNode);
    if vs != [] {
      var n := |vs| - 1;
      var front := vs[..n];
      assert KeysOf(front) == keys[..n] && vs[n] in vs;
      TargetsAreAsMany(nodes, keys[..n], l.nextNode);
      SetBasedMatches(nodes, l, front);
      ReplaceNodes(nodes, l, front);
      var l1 := ReplaceVertices(nodes, l, front).0;
      ReplaceVertexIs(nodes, l1, vs[n]);
      var ts, ts1 := Targets(nodes, keys, l.nextNode), Targets(nodes, keys[..n], l.nextNode);
      assert ts == ts1 + [TargetOf(nodes, keys[n], l1.nextNode)];
    }
  }

  lemma EmptyBuffers(l: Loader)
    requires l.labelRows == [] && l.vprops == []
    ensures BuffersOnly(l, [])
  {
  }

  lemma BufferKeepsCursor(l: Loader, rowid: int, uid: Option<Text>, v: Vertex, push: bool)
    ensures BufferVertex(l, rowid, uid, v, push).nextNode == l.nextNode
  {
  }

  lemma CursorStep(nodes: multiset<NodeRow>, keys: seq<Key>, next: int)
    requires keys != []
    ensures CursorAfter(nodes, keys, next) == CursorAfter(nodes, [keys[|keys| - 1]],
      CursorAfter(nodes, keys[..|keys| - 1], next))
  {
    var k := keys[|keys| - 1];
    assert [k][..0] == [];
    var c := CursorAfter(nodes, keys[..|keys| - 1], next);
    assert CursorAfter(nodes, [], c) == c;
  }

  lemma StepBuffers(l1: Loader, l0: Loader, ts: seq<int>, vs: seq<Vertex>, t: int, uid: Option<Text>, v: Vertex,
      push: bool)
    requires l0.labelRows == l1.labelRows && l0.vprops == l1.vprops
    requires BuffersOnly(l1, ts) && t !in ts && |ts| == |vs|
    requires forall i | 0 <= i < |vs| :: BufferShows(l1, ts[i], vs[i])
    ensures var l' := BufferVertex(l0, t, uid, v, push);
      && BuffersOnly(l', ts + [t]) && BufferShows(l', t, v)
      && forall i | 0 <= i < |vs| :: BufferShows(l', ts[i], vs[i])
  {
    BufferAddsVertex(l0, t, uid, v, push, ts);
    hide BufferVertex;
    forall i | 0 <= i < |vs| ensures BufferShows(BufferVertex(l0, t, uid, v, push), ts[i], vs[i]) {
      BufferKeepsVertex(l0, t, uid, v, push, ts[i], vs[i]);
    }
  }

  ghost predicate PositiveNodes(db: Tables) {
    forall r | r in db.nodes :: r.id > 0
  }

  /** Hypotheses on a replace batch: every vertex keyed, ids positive, and distinct keys of stored vertices
      name distinct ones. */
  ghost predicate Replaceable(db: Tables, vs: seq<Vertex>) {
    && Unique(db) && References(db) && PositiveNodes(db) && Keyed(vs)
    && DistinctTargets(db.nodes, Fill(vs, VertexKey).keys)
  }

  lemma KeyedFill(vs: seq<Vertex>)
    requires Keyed(vs)
    ensures var b := Fill(vs, VertexKey);
      && Filled(b)
      && Deduped(vs, VertexKey) == Values(b.keys, b.last)
      && Keyed(Deduped(vs, VertexKey)) && KeysOf(Deduped(vs, VertexKey)) == b.keys
      && forall i | 0 <= i < |b.keys| :: b.keys[i].Num? ==> b.keys[i].n > 0
  {
    var b := Fill(vs, VertexKey);
    FillIsFilled(vs, VertexKey);
    assert forall i | 0 <= i < |vs| :: VertexKey(vs[i]).Some? by {
      forall i | 0 <= i < |vs| ensures VertexKey(vs[i]).Some? { assert vs[i] in vs; }
    }
    KeyedHaveNoAnonymous(vs, VertexKey);
    DedupedFrom(vs, VertexKey);
    var kept := Deduped(vs, VertexKey);
    assert kept == Values(b.keys, b.last);
    forall i | 0 <= i < |b.keys| ensures Landed(kept[i].id.value) == b.keys[i] && (b.keys[i].Num? ==> b.keys[i].n > 0) {
      LastWriteWins(vs, VertexKey, b.keys[i]);
      assert kept[i] in kept;
    }
  }

  /** The id of a stored vertex is nowhere among new rows, if all ids are unique. */
  ghost predicate Apart(nodes: multiset<NodeRow>, rows: seq<NodeRow>) {
    forall r, r' | r in nodes && r' in rows :: r.id != r'.id
  }

  lemma UniqueRowsAreApart(nodes: multiset<NodeRow>, rows: seq<NodeRow>)
    requires UniqueNodes(nodes + multiset(rows))
    ensures Apart(nodes, rows)
  {
    RowsAreDistinct(nodes, rows);
    forall r, r' | r in nodes && r' in rows ensures r.id != r'.id {
      assert r in nodes + multiset(rows) && r' in nodes + multiset(rows);
    }
  }

  lemma LastRowIsApart(nodes: multiset<NodeRow>, rows: seq<NodeRow>, row: NodeRow)
    requires UniqueNodes(nodes + multiset(rows + [row]))
    ensures forall r | r in rows :: r.id != row.id
  {
    var all := rows + [row];
    RowsAreDistinct(nodes, all);
    forall r | r in rows ensures r.id != row.id {
      var i :| 0 <= i < |rows| && rows[i] == r;
      assert all[i] != all[|rows|];
      assert r in nodes + multiset(all) && row in nodes + multiset(all);
    }
  }

  /** A target is the id of a stored vertex exactly when its key names one. */
  lemma TargetIsStored(nodes: multiset<NodeRow>, keys: seq<Key>, next: int, i: nat)
    requires i < |keys| && UniqueNodes(nodes) && Apart(nodes, NewRows(nodes, keys, next))
    ensures |Targets(nodes, keys, next)| == |keys|
    ensures var t := Targets(nodes, keys, next)[i];
      && (Lookup(nodes, keys[i]).Some? ==> t == Lookup(nodes, keys[i]).value && HasNode(nodes, t))
      && (Lookup(nodes, keys[i]).None? ==> !HasNode(nodes, t) && exists r ::
         r in NewRows(nodes, keys, next) && Names(r, keys[i]) && r.id == t)
  {
    TargetsAreNamed(nodes, keys, next, i);
    if Lookup(nodes, keys[i]).Some? {
      var r :| r in nodes && Names(r, keys[i]) && r.id == Lookup(nodes, keys[i]).value;
    }
  }

  lemma FrontRowsAreUnique(nodes: multiset<NodeRow>, keys: seq<Key>, next: int)
    requires keys != [] && UniqueNodes(nodes + multiset(NewRows(nodes, keys, next)))
    ensures UniqueNodes(nodes + multiset(NewRows(nodes, keys[..|keys| - 1], next)))
    ensures Apart(nodes, NewRows(nodes, keys, next)) && Apart(nodes, NewRows(nodes, keys[..|keys| - 1], next))
  {
    var rows, rows1 := NewRows(nodes, keys, next), NewRows(nodes, keys[..|keys| - 1], next);
    assert rows1 <= rows;
    hide NewRows;
    PrefixIsPart(rows1, rows);
    UniqueNodesInherited(nodes + multiset(rows1), nodes + multiset(rows));
    UniqueRowsAreApart(nodes, rows);
    UniqueRowsAreApart(nodes, rows1);
  }

  /** New rows with unique ids, and stored vertices named apart, keep all targets apart. */
  lemma {:induction false} TargetsAreDistinct(nodes: multiset<NodeRow>, keys: seq<Key>, next: int)
    requires UniqueNodes(nodes) && UniqueNodes(nodes + multiset(NewRows(nodes, keys, next)))
    requires DistinctTargets(nodes, keys) && forall i, j | 0 <= i < j < |keys| :: keys[i] != keys[j]
    ensures |Targets(nodes, keys, next)| == |keys| && Injective(Targets(nodes, keys, next))
  {
    hide UniqueNodes, TargetOf, NewRow, NewRows, Apart, CursorAfter;
    TargetsAreAsMany(nodes, keys, next);
    if keys != [] {
      var n := |keys| - 1;
      var front := keys[..n];
      FrontRowsAreUnique(nodes, keys, next);
      TargetsAreDistinct(nodes, front, next);
      var ts, ts1 := Targets(nodes, keys, next), Targets(nodes, front, next);
      assert ts == ts1 + [ts[n]];
      forall i | 0 <= i < n ensures ts[i] != ts[n] { LastTargetIsNew(nodes, keys, next, i); }
      assert forall i | 0 <= i < n :: ts[i] == ts1[i];
    }
  }

  lemma LastTargetIsNew(nodes: multiset<NodeRow>, keys: seq<Key>, next: int, i: nat)
    requires i < |keys| - 1 && keys[i] != keys[|keys| - 1] && DistinctTargets(nodes, keys)
    requires UniqueNodes(nodes) && UniqueNodes(nodes + multiset(NewRows(nodes, keys, next)))
    requires Apart(nodes, NewRows(nodes, keys, next)) && Apart(nodes, NewRows(nodes, keys[..|keys| - 1], next))
    ensures |Targets(nodes, keys, next)| == |keys|
    ensures Targets(nodes, keys, next)[i] != Targets(nodes, keys, next)[|keys| - 1]
  {
    hide UniqueNodes, Lookup;
    var n := |keys| - 1;
    var front := keys[..n];
    TargetIsStored(nodes, keys, next, n);
    TargetIsStored(nodes, front, next, i);
    assert Targets(nodes, keys, next)[i] == Targets(nodes, front, next)[i];
    assert front[i] == keys[i] && keys[i] in keys && keys[n] in keys;
    assert Lookup(nodes, keys[i]).Some? && Lookup(nodes, keys[n]).Some?
      ==> Lookup(nodes, keys[i]) != Lookup(nodes, keys[n]);
    hide DistinctTargets, Apart;
    if Lookup(nodes, keys[i]).None? && Lookup(nodes, keys[n]).None? {
      var row := NewRow(nodes, keys[n], CursorAfter(nodes, front, next))[0];
      LastRowIsApart(nodes, NewRows(nodes, front, next), row);
    }
  }

  // ---------- the set-based batch is as described ----------

  lemma WipedThenShown(db: Tables, matched: set<int>, l: Loader, id: int, v: Vertex)
    requires BufferShows(l, id, v) && (id in matched || !HasNode(db.nodes, id)) && References(db)
    ensures HoldsLabels(WipeVertices(db, matched).labels + multiset(l.labelRows), id, v.labels)
    ensures Carries(WipeVertices(db, matched).vprops + multiset(l.vprops), id, v.props)
    ensures forall r | r in WipeVertices(db, matched).cards :: r.node != id
  {
    hide PropRows, LabelRows;
    var wiped := WipeVertices(db, matched);
    LabelsKept(multiset(l.labelRows), wiped.labels, id, v.labels);
    PropsKept(multiset(l.vprops), wiped.vprops, id, v.props);
  }

  lemma WipedUntouched(db: Tables, matched: set<int>, l: Loader, s: Tables, ts: seq<int>, id: int)
    requires BuffersOnly(l, ts) && id !in ts && id !in matched
    requires s.labels == WipeVertices(db, matched).labels + multiset(l.labelRows)
    requires s.vprops == WipeVertices(db, matched).vprops + multiset(l.vprops)
    requires s.cards == WipeVertices(db, matched).cards
    ensures Untouched(db, s, id)
  {
  }

  /** A loader that has only been given raw elements. */
  ghost predicate Raw(db: Tables, l: Loader) {
    && l.opts.onCollision.Replace? && l.nextNode == Start(db)
    && l.nodeRows == [] && l.labelRows == [] && l.vprops == []
  }

  /** The vertex tables of `s` are those of `db`, the matched vertices wiped and a loader's rows landed. */
  ghost predicate VertexTables(db: Tables, s: Tables, l: Loader, matched: set<int>) {
    && s.nodes == db.nodes + multiset(l.nodeRows) && UniqueNodes(s.nodes)
    && s.labels == WipeVertices(db, matched).labels + multiset(l.labelRows)
    && s.vprops == WipeVertices(db, matched).vprops + multiset(l.vprops)
    && s.cards == WipeVertices(db, matched).cards
  }

  lemma SetBasedShows(db: Tables, l: Loader, s: Tables, keys: seq<Key>, vs: seq<Vertex>, i: nat)
    requires Raw(db, l) && References(db) && UniqueNodes(db.nodes) && Keyed(vs) && KeysOf(vs) == keys && i < |vs|
    requires VertexTables(db, s, ReplaceVertices(db.nodes, l, vs).0, ReplaceVertices(db.nodes, l, vs).1)
    requires Injective(Targets(db.nodes, keys, Start(db)))
    ensures |Targets(db.nodes, keys, Start(db))| == |vs|
    ensures Shows(s, Targets(db.nodes, keys, Start(db))[i], vs[i])
  {
    hide PropRows, NextProp, FtsRows, LabelRows, BufferShows, BuffersOnly, ReplaceVertices, Targets, Unique,
         WipeVertices, Shows, HoldsLabels, Carries, Lookup, NewRows, Keep;
    ReplaceNodes(db.nodes, l, vs);
    SetBasedBuffers(db.nodes, l, vs);
    SetBasedMatches(db.nodes, l, vs);
    var (l1, matched) := ReplaceVertices(db.nodes, l, vs);
    assert [] + NewRows(db.nodes, keys, Start(db)) == NewRows(db.nodes, keys, Start(db));
    UniqueRowsAreApart(db.nodes, NewRows(db.nodes, keys, Start(db)));
    TargetIsStored(db.nodes, keys, Start(db), i);
    var id := Targets(db.nodes, keys, Start(db))[i];
    WipedThenShown(db, matched, l1, id, vs[i]);
    ShownIs(s, id, vs[i]);
  }

  lemma SetBasedSpares(db: Tables, l: Loader, s: Tables, keys: seq<Key>, vs: seq<Vertex>, id: int)
    requires Raw(db, l) && UniqueNodes(db.nodes) && Keyed(vs) && KeysOf(vs) == keys
    requires VertexTables(db, s, ReplaceVertices(db.nodes, l, vs).0, ReplaceVertices(db.nodes, l, vs).1)
    requires Injective(Targets(db.nodes, keys, Start(db))) && id !in Targets(db.nodes, keys, Start(db))
    ensures Untouched(db, s, id)
  {
    hide PropRows, NextProp, FtsRows, LabelRows, BufferShows, BuffersOnly, ReplaceVertices, Targets, Unique,
         WipeVertices, Untouched;
    SetBasedBuffers(db.nodes, l, vs);
    SetBasedMatches(db.nodes, l, vs);
    var (l1, matched) := ReplaceVertices(db.nodes, l, vs);
    WipedUntouched(db, matched, l1, s, Targets(db.nodes, keys, Start(db)), id);
  }

  lemma ReplaceableIs(db: Tables, vs: seq<Vertex>)
    requires Replaceable(db, vs)
    ensures UniqueNodes(db.nodes) && References(db) && PositiveNodes(db) && Keyed(vs)
    ensures DistinctTargets(db.nodes, Fill(vs, VertexKey).keys)
    ensures forall i, j | 0 <= i < j < |Fill(vs, VertexKey).keys| ::
      Fill(vs, VertexKey).keys[i] != Fill(vs, VertexKey).keys[j]
  {
    FillIsFilled(vs, VertexKey);
  }

  /** Vertex tables that hold a keyed batch's rows are as the batch describes them. */
  lemma TablesAreDescribed(db: Tables, l: Loader, s: Tables, raw: seq<Vertex>)
    requires Raw(db, l) && Replaceable(db, raw)
    requires var run := ReplaceVertices(db.nodes, l, Deduped(raw, VertexKey)); VertexTables(db, s, run.0, run.1)
    ensures Filled(Fill(raw, VertexKey)) && Described(db, s, Fill(raw, VertexKey))
    ensures UniqueNodes(db.nodes + multiset(NewRows(db.nodes, Fill(raw, VertexKey).keys, Start(db))))
    ensures Injective(Targets(db.nodes, Fill(raw, VertexKey).keys, Start(db)))
  {
    hide PropRows, NextProp, FtsRows, LabelRows, ReplaceVertices, Targets, NewRows, Fill, Deduped, Unique,
         WipeVertices, Untouched, Shows, UniqueNodes, Injective, DistinctTargets, Replaceable, References,
         PositiveNodes;
    var b, vs := Fill(raw, VertexKey), Deduped(raw, VertexKey);
    ReplaceableIs(db, raw);
    KeyedFill(raw);
    ReplaceNodes(db.nodes, l, vs);
    assert [] + NewRows(db.nodes, b.keys, Start(db)) == NewRows(db.nodes, b.keys, Start(db));
    TargetsAreDistinct(db.nodes, b.keys, Start(db));
    var ts := Targets(db.nodes, b.keys, Start(db));
    forall i | 0 <= i < |ts| ensures Shows(s, ts[i], b.last[b.keys[i]]) {
      SetBasedShows(db, l, s, b.keys, vs, i);
      assert vs[i] == b.last[b.keys[i]];
    }
    forall id | id !in ts ensures Untouched(db, s, id) { SetBasedSpares(db, l, s, b.keys, vs, id); }
  }

  /** A successful replace flush of a keyed batch leaves every table of vertices as the batch describes it. */
  lemma SetBasedIsDescribed(db: Tables, l: Loader)
    requires Raw(db, l) && Replaceable(db, l.rawVertices) && LandBatch(db, l).Ok?
    ensures Filled(Fill(l.rawVertices, VertexKey))
    ensures Described(db, LandBatch(db, l).value.0, Fill(l.rawVertices, VertexKey))
    ensures UniqueNodes(db.nodes + multiset(NewRows(db.nodes, Fill(l.rawVertices, VertexKey).keys, Start(db))))
    ensures Injective(Targets(db.nodes, Fill(l.rawVertices, VertexKey).keys, Start(db)))
  {
    hide LandBatch, ReplaceVertices, Targets, NewRows, Fill, Deduped, WipeVertices, UniqueNodes, Injective,
         Replaceable, Described;
    LandedVertexTables(db, l);
    TablesAreDescribed(db, l, LandBatch(db, l).value.0, l.rawVertices);
  }

  lemma ShownIs(s: Tables, id: int, v: Vertex)
    requires HoldsLabels(s.labels, id, v.labels) && Carries(s.vprops, id, v.props)
    requires forall r | r in s.cards :: r.node != id
    ensures Shows(s, id, v)
  {
  }

  lemma {:induction false} EdgesLeaveVertexBuffers(edges: multiset<EdgeRow>, l: Loader, es: seq<Edge>)
    requires ReplaceEdges(edges, l, es).Ok?
    ensures var l' := ReplaceEdges(edges, l, es).value.0;
      l'.nodeRows == l.nodeRows && l'.labelRows == l.labelRows && l'.vprops == l.vprops
  {
    hide PropRows, NextProp, FtsRows;
    if es != [] { EdgesLeaveVertexBuffers(edges, l, es[..|es| - 1]); }
  }

  /** What the flush does to the vertex tables, the batch's edges aside. */
  lemma LandedVertexTables(db: Tables, l: Loader)
    requires l.opts.onCollision.Replace? && LandBatch(db, l).Ok?
    ensures var (l1, matched) := ReplaceVertices(db.nodes, l, Deduped(l.rawVertices, VertexKey));
      var d' := LandBatch(db, l).value.0; var wiped := WipeVertices(db, matched);
      && d'.nodes == db.nodes + multiset(l1.nodeRows) && UniqueNodes(d'.nodes)
      && d'.labels == wiped.labels + multiset(l1.labelRows)
      && d'.vprops == wiped.vprops + multiset(l1.vprops)
      && d'.cards == wiped.cards
  {
    hide ReplaceVertices, ReplaceEdges;
    var (l1, matched) := ReplaceVertices(db.nodes, l, Deduped(l.rawVertices, VertexKey));
    var es := Deduped(l.rawEdges, EdgeKey);
    EdgesLeaveVertexBuffers(db.edges, l1, es);
    var (l2, matchedEdges) := ReplaceEdges(db.edges, l1, es).value;
    assert ResolveReplace(db, l).value == (WipeEdges(WipeVertices(db, matched), matchedEdges), l2);
  }

  // ---------- upserting in turn is as described ----------

  lemma DefineRows(s: Tables, id: int, v: Vertex)
    ensures var wiped := WipeVertices(s, {id}); var s' := Define(s, id, v);
      && s'.nodes == s.nodes && s'.edges == s.edges && s'.eprops == s.eprops && s'.cards == wiped.cards
      && s'.labels == wiped.labels + multiset(LabelRows(id, v.labels))
      && exists c :: s'.vprops == wiped.vprops + multiset(PropRows(id, v.props, c))
  {
    hide PropRows, FtsRows, LabelRows;
  }

  /** Defining a vertex makes it show the definition. */
  lemma DefineShows(s: Tables, id: int, v: Vertex)
    ensures Shows(Define(s, id, v), id, v)
  {
    hide PropRows, LabelRows, Define, HoldsLabels, Carries;
    var wiped := WipeVertices(s, {id});
    DefineRows(s, id, v);
    var c :| Define(s, id, v).vprops == wiped.vprops + multiset(PropRows(id, v.props, c));
    LabelsAdded(wiped.labels, id, v.labels);
    PropsAdded(wiped.vprops, id, v.props, c);
  }

  lemma WipedRows(db: Tables, ids: set<int>)
    ensures forall r :: r in WipeVertices(db, ids).vprops <==> r in db.vprops && r.owner !in ids
    ensures forall r :: r in WipeVertices(db, ids).labels <==> r in db.labels && r.node !in ids
    ensures forall r :: r in WipeVertices(db, ids).cards <==> r in db.cards && r.node !in ids
  {
  }

  /** And touches no other vertex. */
  lemma DefineSpares(s: Tables, id: int, v: Vertex, other: int)
    requires other != id
    ensures Untouched(s, Define(s, id, v), other)
  {
    hide PropRows, NextProp, LabelRows, Define, WipeVertices;
    DefineRows(s, id, v);
    WipedRows(s, {id});
    LabelRowsShape(id, v.labels);
    var c :| Define(s, id, v).vprops == WipeVertices(s, {id}).vprops + multiset(PropRows(id, v.props, c));
    PropRowsShape(id, v.props, c);
  }

  lemma UntouchedShows(s: Tables, s': Tables, id: int, v: Vertex)
    requires Shows(s, id, v) && Untouched(s, s', id) && NoRepeats(s'.vprops) && NoRepeats(s.vprops)
    ensures Shows(s', id, v)
  {
    hide Tells, NoRepeats;
    var rows :| CarriesRows(s.vprops, id, v.props, rows);
    UntouchedCarries(s, s', id, v.props, rows);
    forall name ensures LabelRow(id, name) in s'.labels <==> name in v.labels {
      assert LabelRow(id, name) in s.labels <==> name in v.labels;
    }
  }

  lemma UntouchedCarries(s: Tables, s': Tables, id: int, props: seq<Property>, rows: seq<PropRow>)
    requires Untouched(s, s', id) && NoRepeats(s'.vprops) && NoRepeats(s.vprops)
    requires CarriesRows(s.vprops, id, props, rows)
    ensures CarriesRows(s'.vprops, id, props, rows)
  {
    assert forall i | 0 <= i < |rows| :: rows[i].owner == id;
    forall r | r in multiset(rows) ensures multiset(rows)[r] <= s'.vprops[r] {
      assert r in rows && r in s.vprops && multiset(rows)[r] <= s.vprops[r];
      assert r in s'.vprops && s'.vprops[r] == 1 && s.vprops[r] == 1;
    }
  }

  ghost predicate PositiveRows(t: multiset<NodeRow>) { forall r | r in t :: r.id > 0 }

  lemma CursorStepIsMax(nodes: multiset<NodeRow>, front: multiset<NodeRow>, k: Key, c: int)
    requires nodes <= front && c == MaxOr0(NodeIds(front)) + 1 && PositiveRows(front)
    requires k.Num? ==> k.n > 0
    ensures var all := front + multiset(NewRow(nodes, k, c));
      && CursorAfter(nodes, [k], c) == MaxOr0(NodeIds(all)) + 1
      && PositiveRows(all)
  {
    var more := NewRow(nodes, k, c);
    assert [k][..0] == [];
    assert CursorAfter(nodes, [], c) == c;
    if Lookup(nodes, k).None? {
      assert multiset(more) == multiset{more[0]};
      NodeCursor(front, more[0]);
    } else {
      assert front + multiset(more) == front;
      var r :| r in nodes && Names(r, k);
      assert r in front && r.id in NodeIds(front);
    }
  }

  /** Following the pass, the cursor re-read from the tables is the cursor carried along. */
  lemma NewRowsStep(nodes: multiset<NodeRow>, keys: seq<Key>, next: int)
    requires keys != []
    ensures var n := |keys| - 1;
      NewRows(nodes, keys, next) == NewRows(nodes, keys[..n], next) + NewRow(nodes, keys[n],
        CursorAfter(nodes, keys[..n], next))
  {
  }

  lemma {:induction false} CursorIsMax(nodes: multiset<NodeRow>, keys: seq<Key>)
    requires PositiveRows(nodes) && forall k | k in keys && k.Num? :: k.n > 0
    ensures var next := MaxOr0(NodeIds(nodes)) + 1; var all := nodes + multiset(NewRows(nodes, keys, next));
      CursorAfter(nodes, keys, next) == MaxOr0(NodeIds(all)) + 1 && PositiveRows(all)
  {
    var next := MaxOr0(NodeIds(nodes)) + 1;
    if keys == [] {
      assert nodes + multiset(NewRows(nodes, keys, next)) == nodes;
    } else {
      var n := |keys| - 1;
      NewRowsStep(nodes, keys, next);
      CursorStep(nodes, keys, next);
      CursorIsMax(nodes, keys[..n]);
      assert keys[n] in keys;
      hide NewRow, MaxOr0, NodeIds, NewRows, CursorAfter, PositiveRows;
      var front, c := nodes + multiset(NewRows(nodes, keys[..n], next)), CursorAfter(nodes, keys[..n], next);
      CursorStepIsMax(nodes, front, keys[n], c);
      assert nodes + multiset(NewRows(nodes, keys, next)) == front + multiset(NewRow(nodes, keys[n], c));
    }
  }

  /** Keys as the map holds them: in their landed spelling. */
  ghost predicate InLandedForm(keys: seq<Key>) {
    forall k | k in keys :: Landed(k) == k
  }

  lemma {:induction false} FillKeysLanded(vs: seq<Vertex>)
    ensures InLandedForm(Fill(vs, VertexKey).keys)
  {
    if vs != [] {
      FillKeysLanded(vs[..|vs| - 1]);
      var v := vs[|vs| - 1];
      if v.id.Some? && v.id.value.Str? { WellFormedTwice(v.id.value.s); }
    }
  }

  /** A batch key already seen names exactly its target. */
  lemma SeenKeyNames(db: Tables, s: Tables, keys: seq<Key>, i: nat)
    requires s.nodes == db.nodes + multiset(NewRows(db.nodes, keys, Start(db)))
    requires UniqueNodes(s.nodes) && UniqueNodes(db.nodes) && i < |keys|
    ensures |Targets(db.nodes, keys, Start(db))| == |keys|
    ensures Lookup(s.nodes, keys[i]) == Some(Targets(db.nodes, keys, Start(db))[i])
  {
    UniqueRowsAreApart(db.nodes, NewRows(db.nodes, keys, Start(db)));
    TargetIsStored(db.nodes, keys, Start(db), i);
    if Lookup(db.nodes, keys[i]).Some? {
      LookupStable(db.nodes, s.nodes, keys[i]);
    } else {
      var r :| r in NewRows(db.nodes, keys, Start(db)) && Names(r, keys[i])
        && r.id == Targets(db.nodes, keys, Start(db))[i];
      assert r in s.nodes;
      OneVertexNamed(s.nodes, keys[i], r);
    }
  }

  lemma NewRowIsOthers(nodes: multiset<NodeRow>, keys: seq<Key>, next: int, k: Key, r: NodeRow)
    requires k !in keys && r in NewRows(nodes, keys, next)
    requires InLandedForm(keys + [k]) && Injective(Targets(nodes, keys + [k], next))
    ensures !Names(r, k)
  {
    NewRowsAreForKeys(nodes, keys, next, r);
    var i :| ForKey(nodes, keys, next, r, i);
    var all := keys + [k];
    assert all[..|keys|] == keys && all[|keys|] == k && all[i] == keys[i];
    TargetsAreAsMany(nodes, all, next);
    var ts := Targets(nodes, all, next);
    assert ts[i] == Targets(nodes, keys, next)[i] && ts[i] != ts[|keys|];
    assert keys[i] in all && k in all && keys[i] != k;
  }

  /** A key not seen yet names in the meantime only what it named at the start. */
  lemma UnseenKeyNames(db: Tables, s: Tables, keys: seq<Key>, k: Key)
    requires s.nodes == db.nodes + multiset(NewRows(db.nodes, keys, Start(db)))
    requires UniqueNodes(s.nodes) && UniqueNodes(db.nodes) && k !in keys
    requires InLandedForm(keys + [k]) && Injective(Targets(db.nodes, keys + [k], Start(db)))
    ensures Lookup(s.nodes, k) == Lookup(db.nodes, k)
  {
    if Lookup(db.nodes, k).Some? {
      LookupStable(db.nodes, s.nodes, k);
    } else {
      forall r | r in s.nodes ensures !Names(r, k) {
        if r !in db.nodes { NewRowIsOthers(db.nodes, keys, Start(db), k, r); }
      }
    }
  }

  ghost predicate Batch(db: Tables, keys: seq<Key>) {
    && UniqueNodes(db.nodes) && (forall r | r in db.nodes :: r.id > 0)
    && (forall k | k in keys && k.Num? :: k.n > 0)
    && InLandedForm(keys) && Injective(Targets(db.nodes, keys, Start(db)))
  }

  /** Upserting a key already seen redefines its vertex in place. */
  lemma UpsertSeenDefines(db: Tables, s: Tables, b: Buckets<Vertex>, v: Vertex, i: nat)
    requires Filled(b) && s.nodes == db.nodes + multiset(NewRows(db.nodes, b.keys, Start(db))) && Batch(db, b.keys)
    requires UniqueNodes(s.nodes) && v.id.Some? && Upsert(s, v).Ok?
    requires i < |b.keys| && b.keys[i] == Landed(v.id.value)
    ensures |Targets(db.nodes, b.keys, Start(db))| == |b.keys|
    ensures Upsert(s, v).value == Define(s, Targets(db.nodes, b.keys, Start(db))[i], v)
  {
    hide Define, Targets, NewRows, UniqueNodes;
    var ts, k := Targets(db.nodes, b.keys, Start(db)), b.keys[i];
    SeenKeyNames(db, s, b.keys, i);
    LandedLooksUpTheSame(s.nodes, v.id.value);
    LandedLandsTheSame(s.nodes, v.id.value, Start(s));
    assert s.(nodes := s.nodes + multiset(NewRow(s.nodes, v.id.value, Start(s)))) == s;
    TargetIsLookup(s.nodes, k, Start(s));
  }

  lemma UpsertSeen(db: Tables, s: Tables, b: Buckets<Vertex>, v: Vertex, i: nat)
    requires Filled(b) && Described(db, s, b) && Batch(db, b.keys) && Unique(s)
    requires v.id.Some? && i < |b.keys| && b.keys[i] == Landed(v.id.value) && Upsert(s, v).Ok?
    ensures Filled(Put(b, v.id, v)) && Described(db, Upsert(s, v).value, Put(b, v.id, v))
  {
    hide Shows, Untouched, Define, Targets, NewRows, UniqueNodes, UniqueVProps, UniqueEdges, UniqueEProps, UniqueCards,
         UniqueFts;
    var ts := Targets(db.nodes, b.keys, Start(db));
    UpsertSeenDefines(db, s, b, v, i);
    UniquePropsDoNotRepeat(s);
    UniquePropsDoNotRepeat(Upsert(s, v).value);
    hide Upsert, Unique;
    var s' := Define(s, ts[i], v);
    DefineRows(s, ts[i], v);
    DefineShows(s, ts[i], v);
    DefinedKeepsOthers(s, s', ts, b, i, v);
    forall id | id !in ts ensures Untouched(db, s', id) {
      DefineSpares(s, ts[i], v, id);
      UntouchedTwice(db, s, s', id);
    }
  }

  lemma UniquePropsDoNotRepeat(s: Tables)
    requires Unique(s)
    ensures NoRepeats(s.vprops)
  {
  }

  lemma TargetIsLookup(nodes: multiset<NodeRow>, k: Key, next: int)
    requires Lookup(nodes, k).Some?
    ensures TargetOf(nodes, k, next) == Lookup(nodes, k).value
  {
    var r :| r in nodes && Names(r, k) && r.id == Lookup(nodes, k).value;
  }

  lemma UntouchedTwice(a: Tables, b: Tables, c: Tables, id: int)
    requires Untouched(a, b, id) && Untouched(b, c, id)
    ensures Untouched(a, c, id)
  {
  }

  lemma DefinedKeepsOthers(s: Tables, s': Tables, ts: seq<int>, b: Buckets<Vertex>, i: nat, v: Vertex)
    requires Filled(b) && |ts| == |b.keys| && i < |ts| && Injective(ts) && s' == Define(s, ts[i], v)
    requires NoRepeats(s.vprops) && NoRepeats(s'.vprops)
    requires forall j | 0 <= j < |ts| && j != i :: Shows(s, ts[j], b.last[b.keys[j]])
    ensures forall j | 0 <= j < |ts| && j != i :: Shows(s', ts[j], b.last[b.keys[j]])
  {
    hide Shows, Untouched, Define;
    forall j | 0 <= j < |ts| && j != i ensures Shows(s', ts[j], b.last[b.keys[j]]) {
      DefineSpares(s, ts[i], v, ts[j]);
      UntouchedShows(s, s', ts[j], b.last[b.keys[j]]);
    }
  }

  lemma TargetsAppend(nodes: multiset<NodeRow>, keys: seq<Key>, k: Key, next: int)
    ensures Targets(nodes, keys + [k], next) ==
      Targets(nodes, keys, next) + [TargetOf(nodes, k, CursorAfter(nodes, keys, next))]
    ensures NewRows(nodes, keys + [k], next) ==
      NewRows(nodes, keys, next) + NewRow(nodes, k, CursorAfter(nodes, keys, next))
    ensures |Targets(nodes, keys, next)| == |keys|
  {
    var all := keys + [k];
    assert all[..|keys|] == keys && all[|keys|] == k;
    TargetsAreAsMany(nodes, keys, next);
  }

  lemma CursorAgrees(db: Tables, s: Tables, keys: seq<Key>, k: Key)
    requires Batch(db, keys + [k]) && s.nodes == db.nodes + multiset(NewRows(db.nodes, keys, Start(db)))
    ensures CursorAfter(db.nodes, keys, Start(db)) == Start(s)
  {
    hide NewRows, CursorAfter, UniqueNodes, Injective, Targets, MaxOr0, NodeIds;
    assert forall x | x in keys :: x in keys + [k];
    CursorIsMax(db.nodes, keys);
  }

  lemma UnseenKeyNamesSame(db: Tables, s: Tables, keys: seq<Key>, k: Key)
    requires Batch(db, keys + [k]) && k !in keys && UniqueNodes(s.nodes)
    requires s.nodes == db.nodes + multiset(NewRows(db.nodes, keys, Start(db)))
    ensures Lookup(s.nodes, k) == Lookup(db.nodes, k)
  {
    hide UniqueNodes, NewRows, Targets, Injective, InLandedForm, Start;
    UnseenKeyNames(db, s, keys, k);
  }

  /** The place the reference gives a new key is the place the pass gave it. */
  lemma UnseenLands(db: Tables, s: Tables, keys: seq<Key>, key: Key)
    requires Batch(db, keys + [Landed(key)]) && Landed(key) !in keys && UniqueNodes(s.nodes)
    requires s.nodes == db.nodes + multiset(NewRows(db.nodes, keys, Start(db)))
    ensures var c := CursorAfter(db.nodes, keys, Start(db));
      && TargetOf(s.nodes, key, Start(s)) == TargetOf(db.nodes, Landed(key), c)
      && NewRow(s.nodes, key, Start(s)) == NewRow(db.nodes, Landed(key), c)
  {
    hide CursorAfter, NewRows, UniqueNodes, Batch, Start;
    UnseenKeyNamesSame(db, s, keys, Landed(key));
    CursorAgrees(db, s, keys, Landed(key));
    LandedLandsTheSame(s.nodes, key, Start(s));
  }

  /** Defining a vertex whose key comes up for the first time. */
  lemma UpsertUnseen(db: Tables, s: Tables, b: Buckets<Vertex>, v: Vertex)
    requires Filled(b) && Described(db, s, b) && Unique(s) && v.id.Some? && Landed(v.id.value) !in b.last
    requires Batch(db, b.keys + [Landed(v.id.value)]) && Upsert(s, v).Ok?
    ensures Filled(Put(b, v.id, v)) && Described(db, Upsert(s, v).value, Put(b, v.id, v))
  {
    hide Shows, Untouched, Define, CursorAfter, Targets, NewRow, NewRows, TargetOf, UniqueNodes, Batch, Unique, Upsert,
         PropRows, LabelRows, WipeVertices, NoRepeats, Injective, Start;
    var n, key := |b.keys|, v.id.value;
    var k := Landed(key);
    UniqueHasNodes(s);
    UnseenLands(db, s, b.keys, key);
    TargetsAppend(db.nodes, b.keys, k, Start(db));
    var ts := Targets(db.nodes, b.keys + [k], Start(db));
    var more := NewRow(s.nodes, key, Start(s));
    assert s.nodes + multiset(more) == db.nodes + multiset(NewRows(db.nodes, b.keys + [k], Start(db)));
    var s1, s' := s.(nodes := s.nodes + multiset(more)), Upsert(s, v).value;
    UpsertIs(s, v);
    DefineRows(s1, ts[n], v);
    DefineShows(s1, ts[n], v);
    BatchInjective(db, b.keys + [k]);
    NewKeyKeepsOthers(db, s, s1, s', b, ts, v);
    assert Put(b, v.id, v).keys == b.keys + [k];
  }

  lemma UniqueHasNodes(s: Tables)
    requires Unique(s)
    ensures UniqueNodes(s.nodes) && NoRepeats(s.vprops)
  {
  }

  lemma BatchInjective(db: Tables, keys: seq<Key>)
    requires Batch(db, keys)
    ensures Injective(Targets(db.nodes, keys, Start(db)))
  {
  }

  lemma UpsertIs(s: Tables, v: Vertex)
    requires v.id.Some? && Upsert(s, v).Ok?
    ensures var key := v.id.value;
      Upsert(s, v).value == Define(s.(nodes := s.nodes + multiset(NewRow(s.nodes, key, Start(s)))),
        TargetOf(s.nodes, key, Start(s)), v)
    ensures Unique(Upsert(s, v).value) && NoRepeats(Upsert(s, v).value.vprops)
  {
    hide Define, NewRow, TargetOf, MaxOr0;
  }

  lemma NewKeyKeepsOthers(db: Tables, s: Tables, s1: Tables, s': Tables, b: Buckets<Vertex>, ts: seq<int>, v: Vertex)
    requires Filled(b) && |ts| == |b.keys| + 1 && Injective(ts)
    requires s1.vprops == s.vprops && s1.labels == s.labels && s1.cards == s.cards
    requires NoRepeats(s.vprops) && NoRepeats(s'.vprops) && s' == Define(s1, ts[|b.keys|], v)
    requires forall j | 0 <= j < |b.keys| :: Shows(s, ts[j], b.last[b.keys[j]])
    requires forall id | id !in ts[..|b.keys|] :: Untouched(db, s, id)
    ensures forall j | 0 <= j < |b.keys| :: Shows(s', ts[j], b.last[b.keys[j]])
    ensures forall id | id !in ts :: Untouched(db, s', id)
  {
    hide Define;
    forall j | 0 <= j < |b.keys| ensures Shows(s', ts[j], b.last[b.keys[j]]) {
      DefineSpares(s1, ts[|b.keys|], v, ts[j]);
      assert Shows(s1, ts[j], b.last[b.keys[j]]);
      UntouchedShows(s1, s', ts[j], b.last[b.keys[j]]);
    }
    forall id | id !in ts ensures Untouched(db, s', id) {
      assert ts[|b.keys|] in ts;
      assert id !in ts[..|b.keys|];
      DefineSpares(s1, ts[|b.keys|], v, id);
      assert Untouched(db, s1, id);
      UntouchedTwice(db, s1, s', id);
    }
  }

  lemma {:induction false} FillPrefix(vs: seq<Vertex>, n: nat)
    requires n <= |vs|
    ensures Fill(vs[..n], VertexKey).keys <= Fill(vs, VertexKey).keys
  {
    if n == |vs| {
      assert vs[..n] == vs;
    } else {
      var front := vs[..|vs| - 1];
      assert front[..n] == vs[..n];
      FillPrefix(front, n);
    }
  }

  lemma {:induction false} TargetsPrefix(nodes: multiset<NodeRow>, a: seq<Key>, b: seq<Key>, next: int)
    requires a <= b
    ensures Targets(nodes, a, next) <= Targets(nodes, b, next)
  {
    if |a| == |b| {
      assert a == b;
    } else {
      TargetsPrefix(nodes, a, b[..|b| - 1], next);
    }
  }

  lemma PrefixBatch(db: Tables, a: seq<Key>, b: seq<Key>)
    requires Batch(db, b) && a <= b
    ensures Batch(db, a)
  {
    hide Targets;
    TargetsPrefix(db.nodes, a, b, Start(db));
    assert forall k | k in a :: k in b;
  }

  lemma StartIsDescribed(db: Tables)
    ensures Filled(Fill([], VertexKey)) && Described(db, db, Fill([], VertexKey))
  {
    assert Fill([], VertexKey).keys == [];
    assert Targets(db.nodes, [], Start(db)) == [] && NewRows(db.nodes, [], Start(db)) == [];
  }

  /** The definitions applied one by one give, after each, what the map of last definitions describes. */
  lemma {:induction false} UpsertsAreDescribed(db: Tables, vs: seq<Vertex>, n: nat)
    requires Unique(db) && Keyed(vs) && n <= |vs| && Batch(db, Fill(vs, VertexKey).keys)
    requires Keyed(vs[..n]) && UpsertAll(db, vs[..n]).Ok?
    ensures Filled(Fill(vs[..n], VertexKey))
    ensures Described(db, UpsertAll(db, vs[..n]).value, Fill(vs[..n], VertexKey))
      && Unique(UpsertAll(db, vs[..n]).value)
  {
    hide Upsert, Batch, Unique, Described, Landed, Filled;
    if n == 0 {
      assert vs[..0] == [];
      StartIsDescribed(db);
    } else {
      assert vs[..n][..n - 1] == vs[..n - 1];
      assert vs[n - 1] in vs;
      UpsertsAreDescribed(db, vs, n - 1);
      FillPrefix(vs, n);
      PrefixBatch(db, Fill(vs[..n], VertexKey).keys, Fill(vs, VertexKey).keys);
      UpsertStep(db, UpsertAll(db, vs[..n - 1]).value, Fill(vs[..n - 1], VertexKey), vs[n - 1]);
      assert Fill(vs[..n], VertexKey) == Put(Fill(vs[..n - 1], VertexKey), vs[n - 1].id, vs[n - 1]);
    }
  }

  lemma UpsertStep(db: Tables, s: Tables, b: Buckets<Vertex>, v: Vertex)
    requires Filled(b) && Described(db, s, b) && Unique(s) && v.id.Some?
    requires Batch(db, Put(b, v.id, v).keys) && Upsert(s, v).Ok?
    ensures Filled(Put(b, v.id, v)) && Described(db, Upsert(s, v).value, Put(b, v.id, v)) && Unique(Upsert(s, v).value)
  {
    hide Upsert, Batch, Unique, Described, Landed;
    var k := Landed(v.id.value);
    UpsertIs(s, v);
    if k in b.last {
      assert k in b.keys;
      var i :| 0 <= i < |b.keys| && b.keys[i] == k;
      UpsertSeen(db, s, b, v, i);
    } else {
      UpsertUnseen(db, s, b, v);
    }
  }

  // ---------- the theorem ----------

  /** The rows of one owner, listed. */
  ghost predicate Lists(t: multiset<PropRow>, owner: int, rows: seq<PropRow>) {
    && (forall r :: r in rows <==> r in t && r.owner == owner)
    && forall i, j | 0 <= i < j < |rows| :: rows[i] != rows[j]
  }

  ghost predicate SameContents(a: seq<PropRow>, b: seq<PropRow>) {
    && |a| == |b|
    && forall i | 0 <= i < |a| :: a[i].key == b[i].key && a[i].value == b[i].value && a[i].meta == b[i].meta
  }

  /** The properties of `owner` pair off, row for row, alike in all but their row ids. */
  ghost predicate SameProps(s: multiset<PropRow>, t: multiset<PropRow>, owner: int) {
    exists a, b :: Lists(s, owner, a) && Lists(t, owner, b) && SameContents(a, b)
  }

  lemma PartIsDistinct<T>(t: multiset<T>, rows: seq<T>)
    requires NoRepeats(t) && multiset(rows) <= t
    ensures forall i, j | 0 <= i < j < |rows| :: rows[i] != rows[j]
  {
    forall i, j | 0 <= i < j < |rows| ensures rows[i] != rows[j] {
      TwiceCounts(rows, i, j);
      assert rows[i] in multiset(rows) && rows[i] in t;
    }
  }

  lemma CarriedIsListed(t: multiset<PropRow>, owner: int, props: seq<Property>, rows: seq<PropRow>)
    requires CarriesRows(t, owner, props, rows) && NoRepeats(t)
    ensures Lists(t, owner, rows)
  {
    PartIsDistinct(t, rows);
    assert forall r | r in rows :: r in multiset(rows) && r in t && r.owner == owner;
  }

  lemma CarriedAlike(s: multiset<PropRow>, t: multiset<PropRow>, owner: int, props: seq<Property>)
    requires Carries(s, owner, props) && Carries(t, owner, props) && NoRepeats(s) && NoRepeats(t)
    ensures SameProps(s, t, owner)
  {
    var a :| CarriesRows(s, owner, props, a);
    var b :| CarriesRows(t, owner, props, b);
    CarriedIsListed(s, owner, props, a);
    CarriedIsListed(t, owner, props, b);
    assert SameContents(a, b);
  }

  lemma {:induction false} CanBeListed(rows: set<PropRow>) returns (list: seq<PropRow>)
    ensures forall r :: r in list <==> r in rows
    ensures forall i, j | 0 <= i < j < |list| :: list[i] != list[j]
  {
    if r :| r in rows {
      var rest := CanBeListed(rows - {r});
      list := rest + [r];
      forall x ensures x in list <==> x in rows { assert x in rows <==> x == r || x in rows - {r}; }
    } else {
      list := [];
    }
  }

  lemma SameRowsAlike(s: multiset<PropRow>, t: multiset<PropRow>, owner: int)
    requires forall r: PropRow | r.owner == owner :: r in s <==> r in t
    ensures SameProps(s, t, owner)
  {
    var list := CanBeListed(set r | r in s && r.owner == owner);
    assert Lists(s, owner, list) && Lists(t, owner, list) && SameContents(list, list);
  }

  /** The vertex tables agree, property rows up to their ids. */
  ghost predicate SameVertices(s: Tables, t: Tables) {
    && s.nodes == t.nodes && s.labels == t.labels && s.cards == t.cards
    && forall owner :: SameProps(s.vprops, t.vprops, owner)
  }

  lemma SameMembers<T(!new)>(a: multiset<T>, b: multiset<T>)
    requires NoRepeats(a) && NoRepeats(b) && forall r :: r in a <==> r in b
    ensures a == b
  {
    forall r ensures a[r] == b[r] { assert r in a <==> r in b; }
  }

  /** Vertex `id` is the same in both, its property rows up to their ids. */
  ghost predicate Alike(s: Tables, t: Tables, id: int) {
    && (forall r: LabelRow | r.node == id :: r in s.labels <==> r in t.labels)
    && (forall r: CardRow | r.node == id :: r in s.cards <==> r in t.cards)
    && SameProps(s.vprops, t.vprops, id)
  }

  lemma ShownAlike(s: Tables, t: Tables, id: int, v: Vertex)
    requires Shows(s, id, v) && Shows(t, id, v) && NoRepeats(s.vprops) && NoRepeats(t.vprops)
    ensures Alike(s, t, id)
  {
    hide Carries, SameProps;
    CarriedAlike(s.vprops, t.vprops, id, v.props);
    forall r: LabelRow | r.node == id ensures r in s.labels <==> r in t.labels {
      assert r == LabelRow(id, r.name);
    }
  }

  lemma UntouchedAlike(db: Tables, s: Tables, t: Tables, id: int)
    requires Untouched(db, s, id) && Untouched(db, t, id)
    ensures Alike(s, t, id)
  {
    hide SameProps;
    SameRowsAlike(s.vprops, t.vprops, id);
  }

  /** One description fits only one graph, up to property ids. */
  lemma DescriptionDetermines(db: Tables, s: Tables, t: Tables, b: Buckets<Vertex>)
    requires Filled(b) && Described(db, s, b) && Described(db, t, b) && Unique(s) && Unique(t)
    ensures SameVertices(s, t)
  {
    hide Shows, Untouched, Targets, NewRows, Alike, SameProps;
    var ts := Targets(db.nodes, b.keys, Start(db));
    forall id ensures Alike(s, t, id) {
      if id in ts {
        var i :| 0 <= i < |ts| && ts[i] == id;
        ShownAlike(s, t, id, b.last[b.keys[i]]);
      } else {
        UntouchedAlike(db, s, t, id);
      }
    }
    AlikeIsSame(s, t);
  }

  lemma AlikeIsSame(s: Tables, t: Tables)
    requires s.nodes == t.nodes && Unique(s) && Unique(t) && forall id :: Alike(s, t, id)
    ensures SameVertices(s, t)
  {
    hide SameProps;
    forall r: LabelRow ensures r in s.labels <==> r in t.labels { assert Alike(s, t, r.node); }
    forall r: CardRow ensures r in s.cards <==> r in t.cards { assert Alike(s, t, r.node); }
    SameMembers(s.labels, t.labels);
    SameMembers(s.cards, t.cards);
    forall owner ensures SameProps(s.vprops, t.vprops, owner) { assert Alike(s, t, owner); }
  }

  lemma ReplaceableBatch(db: Tables, vs: seq<Vertex>)
    requires Replaceable(db, vs) && Injective(Targets(db.nodes, Fill(vs, VertexKey).keys, Start(db)))
    ensures Batch(db, Fill(vs, VertexKey).keys) && Unique(db) && Keyed(vs)
  {
    hide Targets, Fill;
    KeyedFill(vs);
    FillKeysLanded(vs);
  }

  lemma FlushIsUnique(db: Tables, l: Loader)
    requires Unique(db) && l.opts.onCollision.Replace? && LandBatch(db, l).Ok?
    ensures Unique(LandBatch(db, l).value.0)
  {
    hide ReplaceVertices, ReplaceEdges, Deduped;
    var (db', l') := ResolveReplace(db, l).value;
    assert NoRepeats(db'.journal) && UniqueCards(db'.cards);
    LandIsUnique(db', l');
  }

  lemma LandIsUnique(db: Tables, l: Loader)
    requires NoRepeats(db.journal) && UniqueCards(db.cards) && LandRows(db, l).Ok?
    ensures Unique(LandRows(db, l).value.0)
  {
    hide ResolvePending;
  }

  lemma RawIsReplace(db: Tables, l: Loader)
    requires Raw(db, l)
    ensures l.opts.onCollision.Replace?
  {
  }

  // ---------- what a batch does not name ----------

  /** Some key of the batch names the stored vertex `id`. */
  ghost predicate NamedBy(nodes: multiset<NodeRow>, vs: seq<Vertex>, id: int) {
    exists v :: v in vs && v.id.Some? && Lookup(nodes, v.id.value) == Some(id)
  }

  /** Buffering one vertex under another rowid adds nothing to vertex `id`. */
  lemma ReplaceVertexAvoids(nodes: multiset<NodeRow>, l: Loader, v: Vertex, id: int)
    requires HasNode(nodes, id) && l.nextNode > id && (v.id.Some? ==> Lookup(nodes, v.id.value) != Some(id))
    ensures var (l', matched) := ReplaceVertex(nodes, l, v);
      && l'.nextNode >= l.nextNode && id !in matched
      && (forall r | r in l'.labelRows :: r in l.labelRows || r.node != id)
      && (forall r | r in l'.vprops :: r in l.vprops || r.owner != id)
  {
    var rowid := if v.id.None? then l.nextNode
                 else match v.id.value
                      case Num(n) => n
                      case Str(s) => if Lookup(nodes, v.id.value).Some? then Lookup(nodes, v.id.value).value
                        else l.nextNode;
    if v.id.Some? && v.id.value.Num? { NumberNames(nodes, v.id.value.n); }
    LabelRowsShape(rowid, v.labels);
    PropRowsShape(rowid, v.props, l.nextVProp);
    hide PropRows, NextProp, FtsRows, LabelRows, Lookup, HasNode;
  }

  lemma NumberNames(nodes: multiset<NodeRow>, n: int)
    ensures HasNode(nodes, n) ==> Lookup(nodes, Num(n)) == Some(n)
  {
    if r :| r in nodes && r.id == n { assert Names(r, Num(n)); }
  }

  lemma {:induction false} ReplaceVerticesAvoids(nodes: multiset<NodeRow>, l: Loader, vs: seq<Vertex>, id: int)
    requires HasNode(nodes, id) && l.nextNode > id && !NamedBy(nodes, vs, id)
    ensures var (l', matched) := ReplaceVertices(nodes, l, vs);
      && l'.nextNode >= l.nextNode && id !in matched
      && (forall r | r in l'.labelRows :: r in l.labelRows || r.node != id)
      && (forall r | r in l'.vprops :: r in l.vprops || r.owner != id)
  {
    hide ReplaceVertex, Lookup, HasNode;
    if vs != [] {
      var front, v := vs[..|vs| - 1], vs[|vs| - 1];
      assert (forall x | x in front :: x in vs) && v in vs;
      ReplaceVerticesAvoids(nodes, l, front, id);
      ReplaceVertexAvoids(nodes, ReplaceVertices(nodes, l, front).0, v, id);
    }
  }

  /** A replace flush, with or without keyless vertices, keeps every stored vertex, matched or not, under its rowid
      and uid, and leaves every stored vertex no key of the batch names exactly as it was. */
  lemma ReplaceKeepsTheRest(db: Tables, l: Loader, id: int)
    requires Raw(db, l) && LandBatch(db, l).Ok?
    ensures db.nodes <= LandBatch(db, l).value.0.nodes
    ensures HasNode(db.nodes, id) && !NamedBy(db.nodes, l.rawVertices, id)
      ==> Untouched(db, LandBatch(db, l).value.0, id)
  {
    LandedVertexTables(db, l);
    DedupedFrom(l.rawVertices, VertexKey);
    hide LandBatch, Deduped, ReplaceVertices, WipeVertices, Lookup, HasNode, Untouched, UniqueNodes;
    var vs := Deduped(l.rawVertices, VertexKey);
    var (l1, matched) := ReplaceVertices(db.nodes, l, vs);
    if HasNode(db.nodes, id) && !NamedBy(db.nodes, l.rawVertices, id) {
      StartIsPast(db, id);
      assert !NamedBy(db.nodes, vs, id);
      ReplaceVerticesAvoids(db.nodes, l, vs, id);
      AvoidedUntouched(db, LandBatch(db, l).value.0, l1, matched, id);
    }
  }

  lemma AvoidedUntouched(db: Tables, s: Tables, l: Loader, matched: set<int>, id: int)
    requires s.labels == WipeVertices(db, matched).labels + multiset(l.labelRows)
    requires s.vprops == WipeVertices(db, matched).vprops + multiset(l.vprops)
    requires s.cards == WipeVertices(db, matched).cards && id !in matched
    requires (forall r | r in l.labelRows :: r.node != id) && forall r | r in l.vprops :: r.owner != id
    ensures Untouched(db, s, id)
  {
    WipedRows(db, matched);
    hide WipeVertices;
  }

  lemma StartIsPast(db: Tables, id: int)
    requires HasNode(db.nodes, id)
    ensures id < Start(db)
  {
    var r :| r in db.nodes && r.id == id;
    assert r.id in NodeIds(db.nodes);
  }

  /** Replacing vertices leaves every edge and edge property as it was: relationships survive a re-import. */
  lemma ReplaceKeepsEdges(db: Tables, l: Loader)
    requires Unique(db) && l.opts.onCollision.Replace? && l.rawEdges == [] && LandBatch(db, l).Ok?
    requires l.edgeRows == [] && l.eprops == [] && l.pending == []
    ensures LandBatch(db, l).value.0.edges == db.edges && LandBatch(db, l).value.0.eprops == db.eprops
  {
    var vs := Deduped(l.rawVertices, VertexKey);
    var (l1, matched) := ReplaceVertices(db.nodes, l, vs);
    VerticesLeaveEdgeBuffers(db.nodes, l, vs);
    assert Deduped(l.rawEdges, EdgeKey) == [];
    assert ReplaceEdges(db.edges, l1, []) == Ok((l1, {}));
    var wiped := WipeVertices(db, matched);
    EdgesKeptWhenNoneMatch(wiped, {});
    hide ReplaceVertices, Deduped, WipeEdges, WipeVertices, ReplaceEdges;
    assert ResolveReplace(db, l) == Ok((WipeEdges(wiped, {}), l1));
    NoEdgesLanded(WipeEdges(wiped, {}), l1);
  }

  lemma EdgesKeptWhenNoneMatch(db: Tables, ids: set<int>)
    requires UniqueEdges(db.edges) && UniqueEProps(db.eprops) && ids == {}
    ensures WipeEdges(db, ids).edges == db.edges && WipeEdges(db, ids).eprops == db.eprops
  {
    KeepRestores(db.edges, (r: EdgeRow) => r.id !in ids, db.edges);
    KeepRestores(db.eprops, (p: PropRow) => p.owner !in ids, db.eprops);
  }

  lemma NoEdgesLanded(db: Tables, l: Loader)
    requires l.edgeRows == [] && l.eprops == [] && l.pending == [] && LandRows(db, l).Ok?
    ensures LandRows(db, l).value.0.edges == db.edges && LandRows(db, l).value.0.eprops == db.eprops
  {
    hide UniqueNodes, UniqueEdges, UniqueVProps, UniqueEProps, UniqueFts, NoRepeats;
  }

  lemma {:induction false} VerticesLeaveEdgeBuffers(nodes: multiset<NodeRow>, l: Loader, vs: seq<Vertex>)
    ensures var l' := ReplaceVertices(nodes, l, vs).0;
      l'.edgeRows == l.edgeRows && l'.eprops == l.eprops && l'.pending == l.pending
  {
    hide PropRows, NextProp, FtsRows, LabelRows;
    if vs != [] { VerticesLeaveEdgeBuffers(nodes, l, vs[..|vs| - 1]); }
  }
}
