/** The graph's store (src/storage.ts `GraphStore`, src/setwrite.ts): the tables as fields, and the statements
    the loader issues. A statement the driver refuses changes nothing. */
module Store {
  import opened Utf16
  import opened Graph
  import opened Loader

  /** Which of the coming statements the driver refuses: the first entry is for the next one. */
  predicate Refuses(faults: seq<bool>) { faults != [] && faults[0] }
  predicate NoFaults(faults: seq<bool>) { forall i | 0 <= i < |faults| :: !faults[i] }

  class GraphStore {
    var nodes: multiset<NodeRow>
    var labels: multiset<LabelRow>
    var vprops: multiset<PropRow>
    var cards: multiset<CardRow>
    var edges: multiset<EdgeRow>
    var eprops: multiset<PropRow>
    var fts: multiset<FtsRow>
    var journal: multiset<JournalRow>
    var faults: seq<bool>

    function Db(): Tables
      reads this`nodes, this`labels, this`vprops, this`cards, this`edges, this`eprops, this`fts, this`journal
    {
      Tables(nodes, labels, vprops, cards, edges, eprops, fts, journal)
    }

    ghost predicate Valid()
      reads this`nodes, this`labels, this`vprops, this`cards, this`edges, this`eprops, this`fts, this`journal
    {
      Unique(Db())
    }

    /** Send one statement to the driver. */
    method Accept() returns (r: Result<()>)
      modifies this`faults
      ensures Db() == old(Db())
      ensures r == if Refuses(old(faults)) then Err(Refused) else Ok(())
      ensures NoFaults(old(faults)) ==> NoFaults(faults)
    {
      r := if Refuses(faults) then Err(Refused) else Ok(());
      if faults != [] { faults := faults[1..]; }
    }

    /** What a failed atomic unit gives back. */
    method Restore(before: Tables)
      modifies this`nodes, this`labels, this`vprops, this`cards, this`edges, this`eprops, this`fts, this`journal
      ensures Db() == before
    {
      RestoreVertices(before);
      RestoreEdges(before);
    }

    method RestoreVertices(before: Tables)
      modifies this`nodes, this`labels, this`vprops, this`cards
      ensures nodes == before.nodes && labels == before.labels && vprops == before.vprops && cards == before.cards
    {
      nodes, labels, vprops, cards := before.nodes, before.labels, before.vprops, before.cards;
    }

    method RestoreEdges(before: Tables)
      modifies this`edges, this`eprops, this`fts, this`journal
      ensures edges == before.edges && eprops == before.eprops && fts == before.fts && journal == before.journal
    {
      edges, eprops, fts, journal := before.edges, before.eprops, before.fts, before.journal;
    }

    // ---------- reads ----------

    method MaxNode() returns (r: Result<int>)
      modifies this`faults
      ensures Db() == old(Db())
      ensures r == if Refuses(old(faults)) then Err(Refused) else Ok(MaxOr0(NodeIds(Db().nodes)))
      ensures NoFaults(old(faults)) ==> NoFaults(faults)
    {
      var _ :- Accept();
      var m := Greatest(NodeIds(nodes));
      r := Ok(m);
    }

    method MaxEdge() returns (r: Result<int>)
      modifies this`faults
      ensures Db() == old(Db())
      ensures r == if Refuses(old(faults)) then Err(Refused) else Ok(MaxOr0(EdgeIds(Db().edges)))
      ensures NoFaults(old(faults)) ==> NoFaults(faults)
    {
      var _ :- Accept();
      var m := Greatest(EdgeIds(edges));
      r := Ok(m);
    }

    method MaxVProp() returns (r: Result<int>)
      modifies this`faults
      ensures Db() == old(Db())
      ensures r == if Refuses(old(faults)) then Err(Refused) else Ok(MaxOr0(PropIds(Db().vprops)))
      ensures NoFaults(old(faults)) ==> NoFaults(faults)
    {
      var _ :- Accept();
      var m := Greatest(PropIds(vprops));
      r := Ok(m);
    }

    method MaxEProp() returns (r: Result<int>)
      modifies this`faults
      ensures Db() == old(Db())
      ensures r == if Refuses(old(faults)) then Err(Refused) else Ok(MaxOr0(PropIds(Db().eprops)))
      ensures NoFaults(old(faults)) ==> NoFaults(faults)
    {
      var _ :- Accept();
      var m := Greatest(PropIds(eprops));
      r := Ok(m);
    }

    /** `SELECT id FROM nodes WHERE id|uid = key`. */
    method FindVertex(k: Key) returns (r: Result<Option<int>>)
      requires Valid()
      modifies this`faults
      ensures Db() == old(Db())
      ensures r == if Refuses(old(faults)) then Err(Refused) else Ok(Lookup(Db().nodes, k))
      ensures NoFaults(old(faults)) ==> NoFaults(faults)
    {
      var _ :- Accept();
      if row :| row in nodes && Names(row, k) {
        OneVertexNamed(nodes, k, row);
        r := Ok(Some(row.id));
      } else {
        r := Ok(None);
      }
    }

    method NodesWithId(ids: set<int>) returns (r: Result<set<int>>)
      modifies this`faults
      ensures Db() == old(Db())
      ensures r == if Refuses(old(faults)) then Err(Refused) else Ok(ids * NodeIds(Db().nodes))
      ensures NoFaults(old(faults)) ==> NoFaults(faults)
    {
      var _ :- Accept();
      r := Ok(ids * NodeIds(nodes));
    }

    method EdgesWithId(ids: set<int>) returns (r: Result<set<int>>)
      modifies this`faults
      ensures Db() == old(Db())
      ensures r == if Refuses(old(faults)) then Err(Refused) else Ok(ids * EdgeIds(Db().edges))
      ensures NoFaults(old(faults)) ==> NoFaults(faults)
    {
      var _ :- Accept();
      r := Ok(ids * EdgeIds(edges));
    }

    /** `SELECT id, uid FROM nodes WHERE uid IN wanted`, as a map. */
    method NodesWithUid(wanted: set<Text>) returns (r: Result<map<Text, int>>)
      requires Valid()
      modifies this`faults
      ensures Db() == old(Db())
      ensures r.Err? <==> Refuses(old(faults))
      ensures r.Err? ==> r.error == Refused
      ensures r.Ok? ==> forall s :: s in r.value <==> s in wanted && exists row ::
        row in Db().nodes && row.uid == Some(s)
      ensures r.Ok? ==> forall row | row in Db().nodes && row.uid.Some? && row.uid.value in wanted ::
        r.value[row.uid.value] == row.id
      ensures NoFaults(old(faults)) ==> NoFaults(faults)
    {
      var _ :- Accept();
      r := Ok(map row | row in nodes && row.uid.Some? && row.uid.value in wanted :: row.uid.value := row.id);
    }

    method EdgesWithUid(wanted: set<Text>) returns (r: Result<map<Text, int>>)
      requires Valid()
      modifies this`faults
      ensures Db() == old(Db())
      ensures r.Err? <==> Refuses(old(faults))
      ensures r.Err? ==> r.error == Refused
      ensures r.Ok? ==> forall s :: s in r.value <==> s in wanted && exists row ::
        row in Db().edges && row.uid == Some(s)
      ensures r.Ok? ==> forall row | row in Db().edges && row.uid.Some? && row.uid.value in wanted ::
        r.value[row.uid.value] == row.id
      ensures NoFaults(old(faults)) ==> NoFaults(faults)
    {
      var _ :- Accept();
      r := Ok(map row | row in edges && row.uid.Some? && row.uid.value in wanted :: row.uid.value := row.id);
    }

    /** `SELECT MIN(column) FROM table WHERE column IN (claims)`, where `taken` are the column's values. */
    method LeastTaken(taken: set<Key>, claims: set<Key>) returns (r: Result<Option<Key>>)
      modifies this`faults
      ensures Db() == old(Db())
      ensures r.Err? <==> Refuses(old(faults))
      ensures r.Err? ==> r.error == Refused
      ensures r.Ok? && r.value.None? ==> taken * claims == {}
      ensures r.Ok? && r.value.Some? ==> IsLeast(r.value.value, taken * claims)
      ensures NoFaults(old(faults)) ==> NoFaults(faults)
    {
      var _ :- Accept();
      if k :| k in taken * claims && IsLeast(k, taken * claims) {
        r := Ok(Some(k));
      } else {
        if k :| k in taken * claims { HasLeast(taken * claims, k); }
        r := Ok(None);
      }
    }

    // ---------- inserts: all the rows, or none ----------

    method InsertNodes(rows: seq<NodeRow>) returns (r: Result<()>)
      requires Valid()
      modifies this`nodes, this`faults
      ensures Valid()
      ensures r == if Refuses(old(faults)) then Err(Refused)
                   else if UniqueNodes(old(Db()).nodes + multiset(rows)) then Ok(()) else Err(NotUnique("nodes"))
      ensures Db() == if r.Ok? then old(Db()).(nodes := old(Db()).nodes + multiset(rows)) else old(Db())
      ensures NoFaults(old(faults)) ==> NoFaults(faults)
    {
      var _ :- Accept();
      var t := nodes + multiset(rows);
      if !UniqueNodes(t) { return Err(NotUnique("nodes")); }
      nodes := t;
      r := Ok(());
    }

    method InsertLabels(rows: seq<LabelRow>) returns (r: Result<()>)
      requires Valid()
      modifies this`labels, this`faults
      ensures Valid()
      ensures r == if Refuses(old(faults)) then Err(Refused)
                   else if NoRepeats(old(Db()).labels + multiset(rows)) then Ok(()) else Err(NotUnique("vertex_labels"))
      ensures Db() == if r.Ok? then old(Db()).(labels := old(Db()).labels + multiset(rows)) else old(Db())
      ensures NoFaults(old(faults)) ==> NoFaults(faults)
    {
      var _ :- Accept();
      var t := labels + multiset(rows);
      if !NoRepeats(t) { return Err(NotUnique("vertex_labels")); }
      labels := t;
      r := Ok(());
    }

    method InsertVProps(rows: seq<PropRow>) returns (r: Result<()>)
      requires Valid()
      modifies this`vprops, this`faults
      ensures Valid()
      ensures r == if Refuses(old(faults)) then Err(Refused)
                   else if UniqueVProps(old(Db()).vprops + multiset(rows)) then Ok(())
                     else Err(NotUnique("vertex_properties"))
      ensures Db() == if r.Ok? then old(Db()).(vprops := old(Db()).vprops + multiset(rows)) else old(Db())
      ensures NoFaults(old(faults)) ==> NoFaults(faults)
    {
      var _ :- Accept();
      var t := vprops + multiset(rows);
      if !UniqueVProps(t) { return Err(NotUnique("vertex_properties")); }
      vprops := t;
      r := Ok(());
    }

    method InsertEdges(rows: seq<EdgeRow>) returns (r: Result<()>)
      requires Valid()
      modifies this`edges, this`faults
      ensures Valid()
      ensures r == if Refuses(old(faults)) then Err(Refused)
                   else if UniqueEdges(old(Db()).edges + multiset(rows)) then Ok(()) else Err(NotUnique("edges"))
      ensures Db() == if r.Ok? then old(Db()).(edges := old(Db()).edges + multiset(rows)) else old(Db())
      ensures NoFaults(old(faults)) ==> NoFaults(faults)
    {
      var _ :- Accept();
      var t := edges + multiset(rows);
      if !UniqueEdges(t) { return Err(NotUnique("edges")); }
      edges := t;
      r := Ok(());
    }

    method InsertJournal(rows: seq<JournalRow>) returns (r: Result<()>)
      requires Valid()
      modifies this`journal, this`faults
      ensures Valid()
      ensures r == if Refuses(old(faults)) then Err(Refused)
                   else if NoRepeats(old(Db()).journal + multiset(rows)) then Ok(()) else Err(NotUnique("bulk_journal"))
      ensures Db() == if r.Ok? then old(Db()).(journal := old(Db()).journal + multiset(rows)) else old(Db())
      ensures NoFaults(old(faults)) ==> NoFaults(faults)
    {
      var _ :- Accept();
      var t := journal + multiset(rows);
      if !NoRepeats(t) { return Err(NotUnique("bulk_journal")); }
      journal := t;
      r := Ok(());
    }

    method InsertEProps(rows: seq<PropRow>) returns (r: Result<()>)
      requires Valid()
      modifies this`eprops, this`faults
      ensures Valid()
      ensures r == if Refuses(old(faults)) then Err(Refused)
                   else if UniqueEProps(old(Db()).eprops + multiset(rows)) then Ok(())
                     else Err(NotUnique("edge_properties"))
      ensures Db() == if r.Ok? then old(Db()).(eprops := old(Db()).eprops + multiset(rows)) else old(Db())
      ensures NoFaults(old(faults)) ==> NoFaults(faults)
    {
      var _ :- Accept();
      var t := eprops + multiset(rows);
      if !UniqueEProps(t) { return Err(NotUnique("edge_properties")); }
      eprops := t;
      r := Ok(());
    }

    method InsertFts(rows: seq<FtsRow>) returns (r: Result<()>)
      requires Valid()
      modifies this`fts, this`faults
      ensures Valid()
      ensures r == if Refuses(old(faults)) then Err(Refused)
                   else if UniqueFts(old(Db()).fts + multiset(rows)) then Ok(()) else Err(NotUnique("property_fts"))
      ensures Db() == if r.Ok? then old(Db()).(fts := old(Db()).fts + multiset(rows)) else old(Db())
      ensures NoFaults(old(faults)) ==> NoFaults(faults)
    {
      var _ :- Accept();
      var t := fts + multiset(rows);
      if !UniqueFts(t) { return Err(NotUnique("property_fts")); }
      fts := t;
      r := Ok(());
    }

    // ---------- deletes ----------

    /** The full-text rows of these owners' properties, sought through the property table. */
    method WipeFts(kind: Kind, owners: set<int>) returns (r: Result<()>)
      requires Valid()
      modifies this`fts, this`faults
      ensures Valid()
      ensures r == if Refuses(old(faults)) then Err(Refused) else Ok(())
      ensures r.Ok? ==> Db() == old(Db()).(fts := if kind.NodeKind? then VertexFtsLeft(old(Db()), owners)
        else EdgeFtsLeft(old(Db()), owners))
      ensures NoFaults(old(faults)) ==> NoFaults(faults)
    {
      var _ :- Accept();
      hide VertexFtsLeft, EdgeFtsLeft, UniqueNodes, UniqueEdges, UniqueVProps, UniqueEProps, UniqueCards, UniqueFts,
           NoRepeats;
      FewerIndexRows(Db(), owners);
      fts := if kind.NodeKind? then VertexFtsLeft(Db(), owners) else EdgeFtsLeft(Db(), owners);
      r := Ok(());
    }

    method DeleteVProps(members: set<int>) returns (r: Result<()>)
      requires Valid()
      modifies this`vprops, this`faults
      ensures Valid()
      ensures r == if Refuses(old(faults)) then Err(Refused) else Ok(())
      ensures r.Ok? ==> Db() == old(Db()).(vprops := Keep(old(Db()).vprops, (x: PropRow) => x.owner !in members))
      ensures NoFaults(old(faults)) ==> NoFaults(faults)
    {
      var _ :- Accept();
      vprops := Keep(vprops, (x: PropRow) => x.owner !in members);
      r := Ok(());
    }

    method DeleteLabels(members: set<int>) returns (r: Result<()>)
      requires Valid()
      modifies this`labels, this`faults
      ensures Valid()
      ensures r == if Refuses(old(faults)) then Err(Refused) else Ok(())
      ensures r.Ok? ==> Db() == old(Db()).(labels := Keep(old(Db()).labels, (x: LabelRow) => x.node !in members))
      ensures NoFaults(old(faults)) ==> NoFaults(faults)
    {
      var _ :- Accept();
      labels := Keep(labels, (x: LabelRow) => x.node !in members);
      r := Ok(());
    }

    method DeleteCards(members: set<int>) returns (r: Result<()>)
      requires Valid()
      modifies this`cards, this`faults
      ensures Valid()
      ensures r == if Refuses(old(faults)) then Err(Refused) else Ok(())
      ensures r.Ok? ==> Db() == old(Db()).(cards := Keep(old(Db()).cards, (x: CardRow) => x.node !in members))
      ensures NoFaults(old(faults)) ==> NoFaults(faults)
    {
      var _ :- Accept();
      cards := Keep(cards, (x: CardRow) => x.node !in members);
      r := Ok(());
    }

    method DeleteEProps(members: set<int>) returns (r: Result<()>)
      requires Valid()
      modifies this`eprops, this`faults
      ensures Valid()
      ensures r == if Refuses(old(faults)) then Err(Refused) else Ok(())
      ensures r.Ok? ==> Db() == old(Db()).(eprops := Keep(old(Db()).eprops, (x: PropRow) => x.owner !in members))
      ensures NoFaults(old(faults)) ==> NoFaults(faults)
    {
      var _ :- Accept();
      eprops := Keep(eprops, (x: PropRow) => x.owner !in members);
      r := Ok(());
    }

    method DeleteEdges(members: set<int>) returns (r: Result<()>)
      requires Valid()
      modifies this`edges, this`faults
      ensures Valid()
      ensures r == if Refuses(old(faults)) then Err(Refused) else Ok(())
      ensures r.Ok? ==> Db() == old(Db()).(edges := Keep(old(Db()).edges, (x: EdgeRow) => x.id !in members))
      ensures NoFaults(old(faults)) ==> NoFaults(faults)
    {
      var _ :- Accept();
      edges := Keep(edges, (x: EdgeRow) => x.id !in members);
      r := Ok(());
    }

    // ---------- undoing a streamed load ----------

    /** `rollbackBulkLoads`: nine deletes, each reading what the ones before it left. */
    method RollbackBulkLoads(scope: Option<Text>) returns (r: Result<()>)
      requires Valid()
      modifies this
      ensures r.Ok? ==> Valid() && Db() == Rollback(old(Db()), scope)
      ensures r.Err? ==> r.error == Refused
      ensures NoFaults(old(faults)) ==> r.Ok? && NoFaults(faults)
    {
      ghost var start := Db();
      var _ :- UndoEdges(scope);
      ghost var db1 := Db();
      var _ :- UndoOwned(scope);
      ghost var db2 := Db();
      var _ :- UndoNodes(scope);
      UndoInOrder(start, db1, db2, Db(), scope);
      RollbackKeepsUnique(start, scope);
      r := Ok(());
    }

    method UndoEdges(scope: Option<Text>) returns (r: Result<()>)
      modifies this`fts, this`eprops, this`edges, this`faults
      ensures r.Ok? ==> EdgesUndone(old(Db()), Db(), scope)
      ensures r.Err? ==> r.error == Refused
      ensures NoFaults(old(faults)) ==> r.Ok? && NoFaults(faults)
    {
      hide EdgeIndexLeft, EdgePropsLeft, EdgesLeft;
      var db := Db();
      var _ :- Accept();
      db := db.(fts := EdgeIndexLeft(db, scope));
      fts := db.fts;
      var _ :- Accept();
      db := db.(eprops := EdgePropsLeft(db, scope));
      eprops := db.eprops;
      var _ :- Accept();
      db := db.(edges := EdgesLeft(db, scope));
      edges := db.edges;
      assert Db() == db;
      r := Ok(());
    }

    method UndoOwned(scope: Option<Text>) returns (r: Result<()>)
      modifies this`fts, this`vprops, this`labels, this`faults
      ensures r.Ok? ==> OwnedUndone(old(Db()), Db(), scope)
      ensures r.Err? ==> r.error == Refused
      ensures NoFaults(old(faults)) ==> r.Ok? && NoFaults(faults)
    {
      hide VertexIndexLeft, VPropsLeft, LabelsLeft;
      var db := Db();
      var _ :- Accept();
      db := db.(fts := VertexIndexLeft(db, scope));
      fts := db.fts;
      var _ :- Accept();
      db := db.(vprops := VPropsLeft(db, scope));
      vprops := db.vprops;
      var _ :- Accept();
      db := db.(labels := LabelsLeft(db, scope));
      labels := db.labels;
      assert Db() == db;
      r := Ok(());
    }

    method UndoNodes(scope: Option<Text>) returns (r: Result<()>)
      modifies this`cards, this`nodes, this`journal, this`faults
      ensures r.Ok? ==> NodesUndone(old(Db()), Db(), scope)
      ensures r.Err? ==> r.error == Refused
      ensures NoFaults(old(faults)) ==> r.Ok? && NoFaults(faults)
    {
      hide CardsLeft, NodesLeft, JournalLeft;
      var db := Db();
      var _ :- Accept();
      db := db.(cards := CardsLeft(db, scope));
      cards := db.cards;
      var _ :- Accept();
      db := db.(nodes := NodesLeft(db, scope));
      nodes := db.nodes;
      var _ :- Accept();
      db := db.(journal := JournalLeft(db, scope));
      journal := db.journal;
      assert Db() == db;
      r := Ok(());
    }

    method ClearBulkJournal(load: Text) returns (r: Result<()>)
      requires Valid()
      modifies this`journal, this`faults
      ensures r == if Refuses(old(faults)) then Err(Refused) else Ok(())
      ensures r.Ok? ==> Valid() && Db() == ClearJournal(old(Db()), load)
      ensures NoFaults(old(faults)) ==> NoFaults(faults)
    {
      var _ :- Accept();
      journal := Keep(journal, (j: JournalRow) => j.load != load);
      r := Ok(());
    }

    /** One atomic undo: it happens whole, or (a delete was refused) not at all. */
    method Undo(scope: Option<Text>) returns (r: Result<()>)
      requires Valid()
      modifies this
      ensures Valid()
      ensures r.Ok? ==> Db() == Rollback(old(Db()), scope)
      ensures r.Err? ==> Db() == old(Db()) && r.error == Refused
      ensures NoFaults(old(faults)) ==> r.Ok? && NoFaults(faults)
    {
      var before := Db();
      r := RollbackBulkLoads(scope);
      if r.Err? { Restore(before); }
    }

    /** The sweep when a store opens: any journal row left is a load whose process died. */
    method SweepOrphans() returns (r: Result<()>)
      requires Valid()
      modifies this
      ensures Valid()
      ensures r.Ok? ==> Db() == Rollback(old(Db()), None)
      ensures r.Err? ==> Db() == old(Db())
      ensures NoFaults(old(faults)) ==> r.Ok? && NoFaults(faults)
    {
      var _ :- Accept();
      hide Rollback, Unique;
      NothingToSweep(Db());
      if journal != multiset{} { var _ :- Undo(None); }
      r := Ok(());
    }
  }

  /** `max(id) ?? 0`. */
  method Greatest(ids: set<int>) returns (m: int)
    ensures m == MaxOr0(ids)
  {
    if i :| i in ids && forall i' | i' in ids :: i' <= i {
      m := i;
    } else {
      m := 0;
      if x :| x in ids { HasGreatest(ids, x); }
    }
  }

  // ---------- the order of the undo's statements ----------

  /** What the undo's first three deletes leave. */
  ghost predicate EdgesUndone(db: Tables, db': Tables, scope: Option<Text>) {
    var db1 := db.(fts := EdgeIndexLeft(db, scope));
    var db2 := db1.(eprops := EdgePropsLeft(db1, scope));
    db' == db2.(edges := EdgesLeft(db2, scope))
  }

  /** What the next three leave. */
  ghost predicate OwnedUndone(db: Tables, db': Tables, scope: Option<Text>) {
    var db1 := db.(fts := VertexIndexLeft(db, scope));
    var db2 := db1.(vprops := VPropsLeft(db1, scope));
    db' == db2.(labels := LabelsLeft(db2, scope))
  }

  /** What the last three leave. */
  ghost predicate NodesUndone(db: Tables, db': Tables, scope: Option<Text>) {
    var db1 := db.(cards := CardsLeft(db, scope));
    var db2 := db1.(nodes := NodesLeft(db1, scope));
    db' == db2.(journal := JournalLeft(db2, scope))
  }

  lemma FewerIndexRows(db: Tables, owners: set<int>)
    requires UniqueFts(db.fts)
    ensures UniqueFts(VertexFtsLeft(db, owners)) && UniqueFts(EdgeFtsLeft(db, owners))
  {
  }

  /** With no load journaled the undo changes nothing, so the sweep may skip it. */
  lemma NothingToSweep(db: Tables)
    requires Unique(db)
    ensures db.journal == multiset{} ==> Rollback(db, None) == db
  {
    if db.journal == multiset{} {
      NothingJournaled(db);
      hide Touches, OwnedByTouched, Journaled, SeekFromEdges, SeekFromVertices;
      KeepRestores(db.nodes, (r: NodeRow) => !Journaled(db, None, NodeKind, r.id), db.nodes);
      KeepRestores(db.labels, (r: LabelRow) => !Journaled(db, None, NodeKind, r.node), db.labels);
      KeepRestores(db.vprops, (r: PropRow) => !Journaled(db, None, NodeKind, r.owner), db.vprops);
      KeepRestores(db.cards, (r: CardRow) => !Journaled(db, None, NodeKind, r.node), db.cards);
      KeepRestores(db.edges, (r: EdgeRow) => !Touches(db, None, r), db.edges);
      KeepRestores(db.eprops, (r: PropRow) => !OwnedByTouched(db, None, r.owner), db.eprops);
      KeepRestores(db.journal, (j: JournalRow) => !InScope(j, None), db.journal);
    }
  }

  lemma NothingJournaled(db: Tables)
    requires Unique(db) && db.journal == multiset{}
    ensures forall kind, id :: !Journaled(db, None, kind, id)
    ensures forall e :: !Touches(db, None, e)
    ensures forall o :: !OwnedByTouched(db, None, o)
    ensures EdgeIndexLeft(db, None) == db.fts
    ensures VertexIndexLeft(db.(fts := db.fts), None) == db.fts
  {
    forall kind, id ensures !Journaled(db, None, kind, id) {}
    var edgeGone := (o: int) => OwnedByTouched(db, None, o);
    var nodeGone := (o: int) => Journaled(db, None, NodeKind, o);
    forall r ensures !SeekFromEdges(db, edgeGone, r) && !SeekFromVertices(db, nodeGone, r) {}
    KeepRestores(db.fts, (r: FtsRow) => !SeekFromEdges(db, edgeGone, r), db.fts);
    KeepRestores(db.fts, (r: FtsRow) => !SeekFromVertices(db, nodeGone, r), db.fts);
  }

  lemma RollbackKeepsUnique(db: Tables, scope: Option<Text>)
    requires Unique(db)
    ensures Unique(Rollback(db, scope))
  {
    hide Touches, OwnedByTouched, Journaled, InScope, SeekFromEdges, SeekFromVertices;
  }

  // Which rows go depends on the journal and the edges alone, which no earlier statement changed.

  lemma SameNodesGo(a: Tables, b: Tables, scope: Option<Text>)
    requires a.journal == b.journal
    ensures forall kind, id :: Journaled(a, scope, kind, id) == Journaled(b, scope, kind, id)
  {
  }

  lemma SameEdgesGo(a: Tables, b: Tables, scope: Option<Text>)
    requires a.edges == b.edges && a.journal == b.journal
    ensures EdgesLeft(a, scope) == EdgesLeft(b, scope)
    ensures a.eprops == b.eprops ==> EdgePropsLeft(a, scope) == EdgePropsLeft(b, scope)
  {
    SameNodesGo(a, b, scope);
    forall e ensures Touches(a, scope, e) == Touches(b, scope, e) {}
    KeepSame(a.edges, (r: EdgeRow) => !Touches(a, scope, r), (r: EdgeRow) => !Touches(b, scope, r));
    if a.eprops == b.eprops {
      forall o ensures OwnedByTouched(a, scope, o) == OwnedByTouched(b, scope, o) {}
      KeepSame(a.eprops, (r: PropRow) => !OwnedByTouched(a, scope, r.owner),
        (r: PropRow) => !OwnedByTouched(b, scope, r.owner));
    }
  }

  lemma SameIndexGoes(a: Tables, b: Tables, scope: Option<Text>)
    requires a.journal == b.journal && a.vprops == b.vprops && a.fts == b.fts
    ensures VertexIndexLeft(a, scope) == VertexIndexLeft(b, scope)
  {
    SameNodesGo(a, b, scope);
    var goneA := (o: int) => Journaled(a, scope, NodeKind, o);
    var goneB := (o: int) => Journaled(b, scope, NodeKind, o);
    forall r ensures SeekFromVertices(a, goneA, r) == SeekFromVertices(b, goneB, r) {}
    KeepSame(a.fts, (r: FtsRow) => !SeekFromVertices(a, goneA, r), (r: FtsRow) => !SeekFromVertices(b, goneB, r));
  }

  lemma SameOwnedGo(a: Tables, b: Tables, scope: Option<Text>)
    requires a.journal == b.journal
    ensures a.vprops == b.vprops ==> VPropsLeft(a, scope) == VPropsLeft(b, scope)
    ensures a.labels == b.labels ==> LabelsLeft(a, scope) == LabelsLeft(b, scope)
    ensures a.cards == b.cards ==> CardsLeft(a, scope) == CardsLeft(b, scope)
    ensures a.nodes == b.nodes ==> NodesLeft(a, scope) == NodesLeft(b, scope)
  {
    SameNodesGo(a, b, scope);
    hide Journaled;
    KeepSame(a.vprops, (r: PropRow) => !Journaled(a, scope, NodeKind, r.owner),
      (r: PropRow) => !Journaled(b, scope, NodeKind, r.owner));
    KeepSame(a.labels, (r: LabelRow) => !Journaled(a, scope, NodeKind, r.node),
      (r: LabelRow) => !Journaled(b, scope, NodeKind, r.node));
    KeepSame(a.cards, (r: CardRow) => !Journaled(a, scope, NodeKind, r.node),
      (r: CardRow) => !Journaled(b, scope, NodeKind, r.node));
    KeepSame(a.nodes, (r: NodeRow) => !Journaled(a, scope, NodeKind, r.id),
      (r: NodeRow) => !Journaled(b, scope, NodeKind, r.id));
  }

  /** Run in order, each statement on what the earlier ones left, the nine deletes are the undo. */
  lemma UndoInOrder(db: Tables, db1: Tables, db2: Tables, db3: Tables, scope: Option<Text>)
    requires EdgesUndone(db, db1, scope) && OwnedUndone(db1, db2, scope) && NodesUndone(db2, db3, scope)
    ensures db3 == Rollback(db, scope)
  {
    hide EdgeIndexLeft, EdgePropsLeft, EdgesLeft, VertexIndexLeft, VPropsLeft, LabelsLeft, CardsLeft, NodesLeft;
    var e1 := db.(fts := EdgeIndexLeft(db, scope));
    SameEdgesGo(db, e1, scope);
    SameEdgesGo(db, e1.(eprops := EdgePropsLeft(e1, scope)), scope);
    SameIndexGoes(e1, db1, scope);
    var v1 := db1.(fts := VertexIndexLeft(db1, scope));
    SameOwnedGo(db, v1, scope);
    SameOwnedGo(db, v1.(vprops := VPropsLeft(v1, scope)), scope);
    SameOwnedGo(db, db2, scope);
    SameOwnedGo(db, db2.(cards := CardsLeft(db2, scope)), scope);
  }
}
