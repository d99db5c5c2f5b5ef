/** Where the properties of a streamed load come from, and so what a source can check before a load to know that
    its undo is exact (src/bulk.ts `property`, src/storage.ts `rollbackBulkLoads`). */
module Origins {
  import opened Utf16
  import opened Graph
  import opened Dedupe
  import opened Loader
  import opened FullText
  import opened Consistency
  import opened Cursors
  import opened Streaming

  function Other(kind: Kind): Kind { if kind.NodeKind? then EdgeKind else NodeKind }

  function PropsOf(db: Tables, kind: Kind): multiset<PropRow> {
    if kind.NodeKind? then db.vprops else db.eprops
  }

  function Buffered(l: Loader, kind: Kind): seq<PropRow> {
    if kind.NodeKind? then l.vprops else l.eprops
  }

  /** The properties of one kind of element that a call carries. */
  function Carried(op: Op, kind: Kind): seq<Property> {
    match op
    case AddV(v) => if kind.NodeKind? then v.props else []
    case AddE(e) => if kind.EdgeKind? then e.props else []
  }

  ghost predicate Supplies(ops: seq<Op>, kind: Kind, p: Property) {
    exists op :: op in ops && p in Carried(op, kind)
  }

  /** A rowid the load may mint: past every stored one, or at least past one the load itself brings. */
  ghost predicate Past(db0: Tables, ops: seq<Op>, kind: Kind, id: int) {
    || id > MaxOr0(PropIds(PropsOf(db0, kind)))
    || exists p :: Supplies(ops, kind, p) && p.id.Some? && id > p.id.value
  }

  /** The row of a property these calls supply, under its own id or one the load may mint. */
  ghost predicate From(db0: Tables, ops: seq<Op>, kind: Kind, r: PropRow) {
    exists p :: Supplies(ops, kind, p) && p.value == r.value
      && (p.id == Some(r.id) || (p.id.None? && Past(db0, ops, kind, r.id)))
  }

  /** Every property that is new since `db0` came from these calls. */
  ghost predicate Traced(db0: Tables, db: Tables, ops: seq<Op>) {
    forall kind: Kind, r | r in PropsOf(db, kind) && r !in PropsOf(db0, kind) :: From(db0, ops, kind, r)
  }

  /** What a source can check before a load: it supplies a property with no index text whose id, its own or one
      the load may mint, is the negated id of a stored, indexed property of the other kind. */
  ghost predicate MayOppose(db0: Tables, ops: seq<Op>) {
    exists kind, p, q :: Supplies(ops, kind, p) && p.value.text == ""
      && q in PropsOf(db0, Other(kind)) && q.value.text != ""
      && if p.id.Some? then p.id.value == -q.id else Past(db0, ops, kind, -q.id)
  }

  // ---------- an opposed property has no index text ----------

  /** Two properties of different kinds whose signed rowids meet cannot both be indexed. */
  lemma OpposedIsUnindexed(db: Tables, p: PropRow, q: PropRow, kind: Kind)
    requires Intact(db) && p in PropsOf(db, kind) && q in PropsOf(db, Other(kind)) && p.id == -q.id
      && q.value.text != ""
    ensures p.value.text == ""
  {
    assert Indexes(Other(kind), PropsOf(db, Other(kind)), FtsOf(Other(kind), q));
    assert p.value.text != "" ==> Indexes(kind, PropsOf(db, kind), FtsOf(kind, p));
  }

  lemma OpposedIsSupplied(db0: Tables, db: Tables, load: Text, ops: seq<Op>)
    requires Intact(db) && Extends(db0, db, load) && Traced(db0, db, ops) && Opposed(db0, db)
    ensures MayOppose(db0, ops)
  {
    hide Intact, Past, Supplies;
    if p, q :| p in db.vprops && p !in db0.vprops && q in db0.eprops && q.value.text != "" && p.id == -q.id {
      OpposedIsUnindexed(db, p, q, NodeKind);
      assert p in PropsOf(db, NodeKind) && From(db0, ops, NodeKind, p);
      SuppliedOpposes(db0, ops, NodeKind, p, q);
    } else {
      var p, q :| p in db.eprops && p !in db0.eprops && q in db0.vprops && q.value.text != "" && p.id == -q.id;
      OpposedIsUnindexed(db, p, q, EdgeKind);
      assert p in PropsOf(db, EdgeKind) && From(db0, ops, EdgeKind, p);
      SuppliedOpposes(db0, ops, EdgeKind, p, q);
    }
  }

  lemma SuppliedOpposes(db0: Tables, ops: seq<Op>, kind: Kind, r: PropRow, q: PropRow)
    requires From(db0, ops, kind, r) && r.value.text == "" && r.id == -q.id
    requires q in PropsOf(db0, Other(kind)) && q.value.text != ""
    ensures MayOppose(db0, ops)
  {
    hide Past, Supplies;
    var p :| Supplies(ops, kind, p) && p.value == r.value
      && (p.id == Some(r.id) || (p.id.None? && Past(db0, ops, kind, r.id)));
    assert Supplies(ops, kind, p) && p.value.text == "" && q in PropsOf(db0, Other(kind));
  }

  /** With the ids SQLite mints, nothing can be opposed. */
  lemma PositiveIsUnopposed(db0: Tables, ops: seq<Op>)
    requires PositiveProps(db0) && forall op | op in ops :: PositiveOp(op)
    ensures !MayOppose(db0, ops)
  {
    forall kind, p | Supplies(ops, kind, p) ensures p.id.Some? ==> p.id.value > 0 {
      var op :| op in ops && p in Carried(op, kind);
      assert PositiveOp(op);
    }
    forall kind, q | q in PropsOf(db0, kind) ensures q.id > 0 {}
  }

  // ---------- the calls of one batch ----------

  lemma {:induction false} RowsComeFromProps(owner: int, props: seq<Property>, next: int, r: PropRow)
    requires r in PropRows(owner, props, next)
    ensures exists p :: p in props && p.value == r.value && (p.id == Some(r.id) || (p.id.None? && r.id >= next))
    ensures next <= NextProp(props, next)
  {
    var n := |props| - 1;
    var c := NextProp(props[..n], next);
    PropRowsBelowNext(owner, props[..n], next);
    if r in PropRows(owner, props[..n], next) {
      RowsComeFromProps(owner, props[..n], next, r);
      var p :| p in props[..n] && p.value == r.value && (p.id == Some(r.id) || (p.id.None? && r.id >= next));
      assert p in props;
    } else {
      assert props[n] in props && props[n].value == r.value;
    }
  }

  /** Each buffered property is one a call carried, under its own id or one at or past the cursor of the start. */
  ghost predicate HeldFrom(l0: Loader, l: Loader, ops: seq<Op>) {
    && l0.nextVProp <= l.nextVProp && l0.nextEProp <= l.nextEProp
    && forall kind: Kind, r | r in Buffered(l, kind) :: HeldRow(l0, ops, kind, r)
  }

  ghost predicate HeldRow(l0: Loader, ops: seq<Op>, kind: Kind, r: PropRow) {
    exists p :: Supplies(ops, kind, p) && p.value == r.value
      && (p.id == Some(r.id) || (p.id.None? && r.id >= if kind.NodeKind? then l0.nextVProp else l0.nextEProp))
  }

  lemma HeldStays(l0: Loader, a: seq<Op>, b: seq<Op>, kind: Kind, r: PropRow)
    requires HeldRow(l0, a, kind, r) && forall op | op in a :: op in b
    ensures HeldRow(l0, b, kind, r)
  {
    var p :| Supplies(a, kind, p) && p.value == r.value
      && (p.id == Some(r.id) || (p.id.None? && r.id >= if kind.NodeKind? then l0.nextVProp else l0.nextEProp));
    var op :| op in a && p in Carried(op, kind);
    assert op in b && Supplies(b, kind, p);
  }

  lemma AddedRowIsHeld(l0: Loader, l: Loader, ops: seq<Op>, op: Op, kind: Kind, owner: int, next: int, r: PropRow)
    requires HeldFrom(l0, l, ops) && op in ops && r in PropRows(owner, Carried(op, kind), next)
    requires next == if kind.NodeKind? then l.nextVProp else l.nextEProp
    ensures HeldRow(l0, ops, kind, r)
  {
    RowsComeFromProps(owner, Carried(op, kind), next, r);
    var p :| p in Carried(op, kind) && p.value == r.value && (p.id == Some(r.id) || (p.id.None? && r.id >= next));
    assert Supplies(ops, kind, p);
  }

  /** What one call buffers. */
  lemma AddBuffers(l: Loader, op: Op) returns (owner: int)
    requires l.opts.onCollision.FailClosed? && Add(l, op).Ok?
    ensures var l' := Add(l, op).value; var kind := if op.AddV? then NodeKind else EdgeKind;
      var next := if kind.NodeKind? then l.nextVProp else l.nextEProp;
      && Buffered(l', kind) == Buffered(l, kind) + PropRows(owner, Carried(op, kind), next)
      && Buffered(l', Other(kind)) == Buffered(l, Other(kind)) && l'.opts == l.opts
      && l'.nextVProp == (if op.AddV? then NextProp(op.v.props, l.nextVProp) else l.nextVProp)
      && l'.nextEProp == (if op.AddV? then l.nextEProp else NextProp(op.e.props, l.nextEProp))
  {
    hide PropRows, NextProp, FtsRows, LabelRows;
    owner := if op.AddV? then IdOf(l.opts.idPolicy, op.v.id, l.nextNode).0
      else IdOf(l.opts.idPolicy, op.e.id, l.nextEdge).0;
  }

  lemma {:induction false} FeedIsHeld(l0: Loader, ops: seq<Op>)
    requires l0.opts.onCollision.FailClosed? && l0.vprops == [] && l0.eprops == [] && Feed(l0, ops).Ok?
    ensures HeldFrom(l0, Feed(l0, ops).value, ops)
  {
    if ops != [] {
      var front, op := ops[..|ops| - 1], ops[|ops| - 1];
      FeedIsHeld(l0, front);
      FeedKeepsOptions(l0, front);
      OneMoreHeld(l0, Feed(l0, front).value, front, op);
      assert front + [op] == ops;
    }
  }

  lemma OneMoreHeld(l0: Loader, l: Loader, front: seq<Op>, op: Op)
    requires HeldFrom(l0, l, front) && l.opts.onCollision.FailClosed? && Add(l, op).Ok?
    ensures HeldFrom(l0, Add(l, op).value, front + [op])
  {
    var ops, l', of := front + [op], Add(l, op).value, if op.AddV? then NodeKind else EdgeKind;
    var owner := AddBuffers(l, op);
    if op.AddV? {
      PropRowsBelowNext(owner, op.v.props, l.nextVProp);
    } else {
      PropRowsBelowNext(owner, op.e.props, l.nextEProp);
    }
    hide Add, PropRows, NextProp, HeldRow;
    assert HeldFrom(l0, l, ops) by {
      forall kind: Kind, r | r in Buffered(l, kind) ensures HeldRow(l0, ops, kind, r) {
        HeldStays(l0, front, ops, kind, r);
      }
    }
    forall kind: Kind, r | r in Buffered(l', kind) ensures HeldRow(l0, ops, kind, r) {
      if r !in Buffered(l, kind) {
        AddedRowIsHeld(l0, l, ops, op, kind, owner, if kind.NodeKind? then l.nextVProp else l.nextEProp, r);
      }
    }
  }

  // ---------- a whole load ----------

  lemma PastStays(db0: Tables, a: seq<Op>, b: seq<Op>, kind: Kind, id: int)
    requires Past(db0, a, kind, id) && forall op | op in a :: op in b
    ensures Past(db0, b, kind, id)
  {
    if p :| Supplies(a, kind, p) && p.id.Some? && id > p.id.value {
      var op :| op in a && p in Carried(op, kind);
      assert op in b && Supplies(b, kind, p);
    }
  }

  lemma FromStays(db0: Tables, a: seq<Op>, b: seq<Op>, kind: Kind, r: PropRow)
    requires From(db0, a, kind, r) && forall op | op in a :: op in b
    ensures From(db0, b, kind, r)
  {
    hide Past;
    var p :| Supplies(a, kind, p) && p.value == r.value
      && (p.id == Some(r.id) || (p.id.None? && Past(db0, a, kind, r.id)));
    var op :| op in a && p in Carried(op, kind);
    assert op in b && Supplies(b, kind, p);
    if p.id.None? { PastStays(db0, a, b, kind, r.id); }
  }

  /** An id past everything stored now is one the load may mint. */
  lemma PastNowIsPast(db0: Tables, db: Tables, ops: seq<Op>, kind: Kind, id: int)
    requires Traced(db0, db, ops) && PropsOf(db0, kind) <= PropsOf(db, kind)
    requires id > MaxOr0(PropIds(PropsOf(db, kind)))
    ensures Past(db0, ops, kind, id)
  {
    var was, now := PropsOf(db0, kind), PropsOf(db, kind);
    if PropIds(was) != {} {
      assert MaxOr0(PropIds(was)) in PropIds(was);
      var r :| r in was && r.id == MaxOr0(PropIds(was));
      assert r in now && r.id in PropIds(now);
    } else if PropIds(now) != {} {
      assert MaxOr0(PropIds(now)) in PropIds(now);
      var r :| r in now && r.id == MaxOr0(PropIds(now));
      assert forall x | x in was :: x.id in PropIds(was);
      assert From(db0, ops, kind, r);
      FromIsBelow(db0, ops, kind, r, id);
    }
  }

  lemma FromIsBelow(db0: Tables, ops: seq<Op>, kind: Kind, r: PropRow, id: int)
    requires From(db0, ops, kind, r) && id > r.id
    ensures Past(db0, ops, kind, id)
  {
  }

  /** Landing one more batch keeps the trace. */
  lemma BatchIsTraced(db0: Tables, db: Tables, idPolicy: IdPolicy, load: Text, fed: seq<Op>, ops: seq<Op>)
    requires Extends(db0, db, load) && Traced(db0, db, fed)
    requires Batch(db, idPolicy, load, ops).Ok? && LandBatch(db, Batch(db, idPolicy, load, ops).value).Ok?
    ensures Traced(db0, LandBatch(db, Batch(db, idPolicy, load, ops).value).value.0, fed + ops)
  {
    var opts := Options(idPolicy, FailClosed);
    var l0, l := Fresh(db, opts, Some(load)), Batch(db, idPolicy, load, ops).value;
    FeedIsHeld(l0, ops);
    FeedKeepsOptions(l0, ops);
    var db' := LandBatch(db, l).value.0;
    LandedProps(db, l);
    forall kind: Kind, r | r in PropsOf(db', kind) && r !in PropsOf(db0, kind) ensures From(db0, fed + ops, kind, r) {
      if r in PropsOf(db, kind) {
        FromStays(db0, fed, fed + ops, kind, r);
      } else {
        assert r in Buffered(l, kind) && HeldRow(l0, ops, kind, r);
        HeldIsFrom(db0, db, l0, fed, ops, kind, r);
      }
    }
  }

  lemma LandedProps(db: Tables, l: Loader)
    requires l.opts.onCollision.FailClosed? && LandBatch(db, l).Ok?
    ensures forall kind :: PropsOf(LandBatch(db, l).value.0, kind) == PropsOf(db, kind) + multiset(Buffered(l, kind))
  {
    hide AssertNoCollisions, UniqueNodes, UniqueEdges, UniqueVProps, UniqueEProps, UniqueFts, NoRepeats;
  }

  lemma HeldIsFrom(db0: Tables, db: Tables, l0: Loader, fed: seq<Op>, ops: seq<Op>, kind: Kind, r: PropRow)
    requires Traced(db0, db, fed) && PropsOf(db0, kind) <= PropsOf(db, kind) && HeldRow(l0, ops, kind, r)
    requires (if kind.NodeKind? then l0.nextVProp else l0.nextEProp) == MaxOr0(PropIds(PropsOf(db, kind))) + 1
    ensures From(db0, fed + ops, kind, r)
  {
    hide Traced, Past, MaxOr0, PropIds;
    var p :| Supplies(ops, kind, p) && p.value == r.value
      && (p.id == Some(r.id) || (p.id.None? && r.id >= if kind.NodeKind? then l0.nextVProp else l0.nextEProp));
    var op :| op in ops && p in Carried(op, kind);
    assert op in fed + ops && Supplies(fed + ops, kind, p);
    if p.id != Some(r.id) {
      PastNowIsPast(db0, db, fed, kind, r.id);
      PastStays(db0, fed, fed + ops, kind, r.id);
    }
  }
}
