/** A negative property id can break a streamed load's undo: the condition of `Streaming.UndoRestoresExactly` is
    needed. */
module NegativeIds {
  import opened Utf16
  import opened Graph
  import opened Dedupe
  import opened Loader
  import opened Streaming
  import opened Origins

  const LOAD: Text := [76]

  /** The stored property: on edge 1, indexed as "1999" under rowid -5. */
  const SINCE := PropRow(5, 1, "since", Value("1999", "String", "1999"), None)
  const KNOWS := EdgeRow(1, None, 1, "knows", 1)

  /** The new one: a vertex property whose value is the empty string. Every other value but null has an index text
      (`ftsTextOf`, src/services/fts-index.ts), so this one gets no index row and its id clashes with none. */
  const NICKNAME := Property("nickname", Value("", "String", ""), None, Some(-5))
  const ADDED := Vertex(Some(Num(2)), [], [NICKNAME])
  const LANDED := PropRow(-5, 2, "nickname", NICKNAME.value, None)

  /** One vertex, and one edge with an indexed property 5. */
  function Before(): Tables {
    Tables(multiset{NodeRow(1, None)}, multiset{}, multiset{}, multiset{}, multiset{KNOWS}, multiset{SINCE},
           multiset{FtsOf(EdgeKind, SINCE)}, multiset{})
  }

  /** After a batch that added vertex 2 with property -5. */
  function After(): Tables {
    Before().(nodes := multiset{NodeRow(1, None), NodeRow(2, None)},
              vprops := multiset{LANDED},
              journal := multiset{JournalRow(LOAD, NodeKind, 2)})
  }

  lemma BeforeIsIndexed()
    ensures Indexed(Before())
  {
    assert SINCE in Before().eprops;
  }

  lemma BeforeIsConsistent()
    ensures Consistent(Before())
  {
    var db := Before();
    assert NodeRow(1, None) in db.nodes && KNOWS in db.edges;
    assert SINCE in db.eprops;
    BeforeIsIndexed();
    hide Indexed;
  }

  lemma NicknameRows(next: int)
    ensures PropRows(2, ADDED.props, next) == [LANDED] && FtsRows(NodeKind, [LANDED]) == []
  {
    var props, rows := ADDED.props, [LANDED];
    assert props[..|props| - 1] == [] && rows[..|rows| - 1] == [];
    assert PropRows(2, [], next) == [] && FtsRows(NodeKind, []) == [];
  }

  lemma AddsNickname(l: Loader)
    requires l.opts == Options(Preserve, FailClosed) && l.nodeRows == [] && l.labelRows == [] && l.vprops == []
      && l.fts == []
    ensures AddVertex(l, ADDED).nodeRows == [NodeRow(2, None)] && AddVertex(l, ADDED).vprops == [LANDED]
    ensures AddVertex(l, ADDED).labelRows == [] && AddVertex(l, ADDED).fts == []
  {
    NicknameRows(l.nextVProp);
    assert LabelRows(2, []) == [];
    hide PropRows, FtsRows, LabelRows, NextProp;
  }

  lemma BatchBuffers() returns (l: Loader)
    ensures Batch(Before(), Preserve, LOAD, [AddV(ADDED)]) == Ok(l)
    ensures l.opts == Options(Preserve, FailClosed) && l.journal == Some(LOAD) && !l.emptyTarget
    ensures l.nodeRows == [NodeRow(2, None)] && l.vprops == [LANDED]
    ensures l.labelRows == [] && l.edgeRows == [] && l.eprops == [] && l.fts == [] && l.pending == []
  {
    var db, opts, ops := Before(), Options(Preserve, FailClosed), [AddV(ADDED)];
    var l0 := Fresh(db, opts, Some(LOAD));
    assert NodeIds(db.nodes) == {1} && !l0.emptyTarget;
    AddsNickname(l0);
    l := AddVertex(l0, ADDED);
    hide Fresh, MaxOr0, Before, PropRows, FtsRows, LabelRows, NextProp;
    assert ops[..|ops| - 1] == [] && Feed(l0, []) == Ok(l0);
  }

  lemma BatchLands(l: Loader)
    requires l.opts == Options(Preserve, FailClosed) && l.journal == Some(LOAD) && !l.emptyTarget
    requires l.nodeRows == [NodeRow(2, None)] && l.vprops == [LANDED]
    requires l.labelRows == [] && l.edgeRows == [] && l.eprops == [] && l.fts == [] && l.pending == []
    ensures LandBatch(Before(), l).Ok? && LandBatch(Before(), l).value.0 == After()
  {
    NothingClashes(l);
    AddedTables(l);
    AfterIsUnique();
    assert ResolvePending(After().nodes, l.vertexIds, l.pending) == Ok(([], l.vertexIds));
    hide Before, After, UniqueNodes, UniqueEdges, UniqueVProps, UniqueEProps, UniqueFts, NoRepeats, AssertNoCollisions,
         ResolvePending, Journal;
  }

  lemma AddedTables(l: Loader)
    requires l.journal == Some(LOAD) && l.nodeRows == [NodeRow(2, None)] && l.vprops == [LANDED]
    requires l.labelRows == [] && l.edgeRows == [] && l.eprops == [] && l.fts == []
    ensures var db, d := Before(), After();
      && db.nodes + multiset(l.nodeRows) == d.nodes
      && db.labels + multiset(l.labelRows) == db.labels == d.labels
      && db.vprops + multiset(l.vprops) == d.vprops
      && l.edgeRows + [] == [] && db.edges + multiset(l.edgeRows) == db.edges == d.edges
      && db.eprops + multiset(l.eprops) == db.eprops == d.eprops
      && db.fts + multiset(l.fts) == db.fts == d.fts
      && Journal(db.journal, l, []) == d.journal && d.cards == db.cards
  {
    assert JournalRows(LOAD, [NodeRow(2, None)], []) == [JournalRow(LOAD, NodeKind, 2)];
  }

  lemma AfterIsUnique()
    ensures Unique(After())
  {
  }

  lemma NothingClashes(l: Loader)
    requires l.opts.idPolicy == Preserve && !l.emptyTarget && l.nodeRows == [NodeRow(2, None)] && l.edgeRows == []
      && l.pending == []
    ensures AssertNoCollisions(Before(), l).Ok?
  {
    var db := Before();
    assert NodeKeys(db.nodes) == {Num(1)} && NodeKeys(multiset(l.nodeRows)) == {Num(2)} && NodeUids(db.nodes) == {};
    assert EdgeKeys(multiset(l.edgeRows)) + PendingKeys(l.pending) == {} && EdgeUids(db.edges) == {};
  }

  /** A NEGATIVE PROPERTY ID BREAKS THE UNDO. The batch lands; undoing it seeks index row -5 through vertex property
      -5, and takes the property of an edge the load never touched out of the index. */
  lemma NegativeIdLosesIndexRow()
    ensures Consistent(Before()) && MayOppose(Before(), [AddV(ADDED)])
    ensures var batch := Batch(Before(), Preserve, LOAD, [AddV(ADDED)]);
      && batch.Ok? && LandBatch(Before(), batch.value).Ok?
      && var landed := LandBatch(Before(), batch.value).value.0;
         && Opposed(Before(), landed)
         && Rollback(landed, Some(LOAD)) != Before()
         && FtsOf(EdgeKind, SINCE) !in Rollback(landed, Some(LOAD)).fts
         && SINCE in Rollback(landed, Some(LOAD)).eprops
  {
    BeforeIsConsistent();
    var l := BatchBuffers();
    BatchLands(l);
    assert LANDED in After().vprops && SINCE in Before().eprops;
    NicknameIsOpposed();
    UndoTakesTooMuch();
  }

  lemma NicknameIsOpposed()
    ensures MayOppose(Before(), [AddV(ADDED)])
  {
    assert NICKNAME in Carried(AddV(ADDED), NodeKind) && Supplies([AddV(ADDED)], NodeKind, NICKNAME);
    assert SINCE in PropsOf(Before(), Other(NodeKind));
  }

  lemma UndoTakesTooMuch()
    ensures FtsOf(EdgeKind, SINCE) !in Rollback(After(), Some(LOAD)).fts
    ensures SINCE in Rollback(After(), Some(LOAD)).eprops
  {
    var db := After();
    var left := db.(fts := EdgeIndexLeft(db, Some(LOAD)));
    assert JournalRow(LOAD, NodeKind, 2) in db.journal && LANDED in db.vprops;
    assert Journaled(left, Some(LOAD), NodeKind, LANDED.owner);
    assert SeekFromVertices(left, o => Journaled(left, Some(LOAD), NodeKind, o), FtsOf(EdgeKind, SINCE));
    assert !Touches(db, Some(LOAD), KNOWS);
    assert !OwnedByTouched(db, Some(LOAD), SINCE.owner);
  }
}
