/** The mutable loader (src/bulk.ts `BulkLoader`): a call buffers rows, `Flush` lands them as one atomic unit.
    Every method is proved against its function in `Loader`, on which the properties are proved. */
module BulkLoading {
  import opened Utf16
  import opened Graph
  import opened Dedupe
  import opened Buffers = Loader
  import opened Cursors
  import opened Store

  class BulkLoader {
    const store: GraphStore
    const opts: Options
    const journal: Option<Text>
    const emptyTarget: bool
    var vertexIds: map<Text, int>
    var nodeRows: seq<NodeRow>
    var labelRows: seq<LabelRow>
    var vprops: seq<PropRow>
    var edgeRows: seq<EdgeRow>
    var eprops: seq<PropRow>
    var fts: seq<FtsRow>
    var pending: seq<Pending>
    var rawVertices: seq<Vertex>
    var rawEdges: seq<Edge>
    var nextNode: int
    var nextEdge: int
    var nextVProp: int
    var nextEProp: int

    function State(): Buffers.Loader
      reads this
    {
      Buffers.Loader(opts, journal, emptyTarget, vertexIds, nodeRows, labelRows, vprops, edgeRows, eprops, fts,
                    pending, rawVertices, rawEdges, nextNode, nextEdge, nextVProp, nextEProp)
    }

    /** The cursors start past the greatest ids read from the store. */
    constructor (store: GraphStore, opts: Options, journal: Option<Text>, node: int, edge: int, vprop: int, eprop: int)
      ensures this.store == store && this.journal == journal
      ensures var db := store.Db();
        && node == MaxOr0(NodeIds(db.nodes)) && edge == MaxOr0(EdgeIds(db.edges))
        && vprop == MaxOr0(PropIds(db.vprops)) && eprop == MaxOr0(PropIds(db.eprops))
        ==> State() == Fresh(db, opts, journal)
    {
      this.store, this.opts, this.journal := store, opts, journal;
      this.emptyTarget := node + 1 == 1 && edge + 1 == 1;
      vertexIds, nodeRows, labelRows, vprops := map[], [], [], [];
      edgeRows, eprops, fts, pending, rawVertices, rawEdges := [], [], [], [], [], [];
      nextNode, nextEdge, nextVProp, nextEProp := node + 1, edge + 1, vprop + 1, eprop + 1;
    }

    // ---------- buffering ----------

    /** One label row per distinct name, in first-seen order. */
    method AddLabels(rowid: int, names: seq<string>)
      modifies this`labelRows
      ensures labelRows == old(labelRows) + LabelRows(rowid, names)
    {
      var seen: seq<string> := [];
      for i := 0 to |names|
        invariant seen == Distinct(names[..i])
        invariant labelRows == old(labelRows) + LabelRows(rowid, names[..i])
      {
        assert names[..i + 1][..i] == names[..i];
        if names[i] !in seen {
          seen := seen + [names[i]];
          labelRows := labelRows + [LabelRow(rowid, names[i])];
          assert LabelRows(rowid, names[..i + 1]) == LabelRows(rowid, names[..i]) + [LabelRow(rowid, names[i])];
        }
      }
      assert names[..|names|] == names;
    }

    /** One vertex property and its index row. */
    method VertexProperty(owner: int, p: Property)
      modifies this`vprops, this`nextVProp, this`fts
      ensures var row := PropRow(PropId(p, old(nextVProp)), owner, p.key, p.value, p.meta);
        && vprops == old(vprops) + [row]
        && nextVProp == Bump(old(nextVProp), row.id)
        && fts == old(fts) + FtsRows(NodeKind, [row])
    {
      var pid;
      if p.id.Some? {
        pid := p.id.value;
      } else {
        pid := nextVProp;
        nextVProp := nextVProp + 1;
      }
      if pid >= nextVProp { nextVProp := pid + 1; }
      var row := PropRow(pid, owner, p.key, p.value, p.meta);
      vprops := vprops + [row];
      assert [row][..0] == [];
      if p.value.text != "" { fts := fts + [FtsOf(NodeKind, row)]; }
    }

    /** One edge property and its index row; a meta-property has no place on an edge. */
    method EdgeProperty(owner: int, p: Property) returns (r: Result<()>)
      modifies this`eprops, this`nextEProp, this`fts
      ensures r == if p.meta.Some? then Err(MetaOnEdge) else Ok(())
      ensures r.Ok? ==>
        var row := PropRow(PropId(p, old(nextEProp)), owner, p.key, p.value, p.meta);
        && eprops == old(eprops) + [row]
        && nextEProp == Bump(old(nextEProp), row.id)
        && fts == old(fts) + FtsRows(EdgeKind, [row])
    {
      var pid;
      if p.id.Some? {
        pid := p.id.value;
      } else {
        pid := nextEProp;
        nextEProp := nextEProp + 1;
      }
      if pid >= nextEProp { nextEProp := pid + 1; }
      if p.meta.Some? { return Err(MetaOnEdge); }
      var row := PropRow(pid, owner, p.key, p.value, None);
      eprops := eprops + [row];
      assert [row][..0] == [];
      if p.value.text != "" { fts := fts + [FtsOf(EdgeKind, row)]; }
      r := Ok(());
    }

    method AddVertexProps(owner: int, props: seq<Property>)
      modifies this`vprops, this`nextVProp, this`fts
      ensures vprops == old(vprops) + PropRows(owner, props, old(nextVProp))
      ensures nextVProp == NextProp(props, old(nextVProp))
      ensures fts == old(fts) + FtsRows(NodeKind, PropRows(owner, props, old(nextVProp)))
    {
      hide PropRows, NextProp, FtsRows;
      NoPropsYet(NodeKind, owner, props, nextVProp);
      for i := 0 to |props|
        invariant vprops == old(vprops) + PropRows(owner, props[..i], old(nextVProp))
        invariant nextVProp == NextProp(props[..i], old(nextVProp))
        invariant fts == old(fts) + FtsRows(NodeKind, PropRows(owner, props[..i], old(nextVProp)))
      {
        OneMoreProp(NodeKind, owner, props, old(nextVProp), i);
        VertexProperty(owner, props[i]);
      }
      assert props[..|props|] == props;
    }

    method AddEdgeProps(owner: int, props: seq<Property>) returns (r: Result<()>)
      modifies this`eprops, this`nextEProp, this`fts
      ensures r == if exists i :: 0 <= i < |props| && props[i].meta.Some? then Err(MetaOnEdge) else Ok(())
      ensures r.Ok? ==> eprops == old(eprops) + PropRows(owner, props, old(nextEProp))
      ensures r.Ok? ==> nextEProp == NextProp(props, old(nextEProp))
      ensures r.Ok? ==> fts == old(fts) + FtsRows(EdgeKind, PropRows(owner, props, old(nextEProp)))
    {
      hide PropRows, NextProp, FtsRows;
      NoPropsYet(EdgeKind, owner, props, nextEProp);
      for i := 0 to |props|
        invariant forall j | 0 <= j < i :: props[j].meta.None?
        invariant eprops == old(eprops) + PropRows(owner, props[..i], old(nextEProp))
        invariant nextEProp == NextProp(props[..i], old(nextEProp))
        invariant fts == old(fts) + FtsRows(EdgeKind, PropRows(owner, props[..i], old(nextEProp)))
      {
        OneMoreProp(EdgeKind, owner, props, old(nextEProp), i);
        var _ :- EdgeProperty(owner, props[i]);
      }
      assert props[..|props|] == props;
      r := Ok(());
    }

    method BufferVertex(rowid: int, uid: Option<Text>, v: Vertex, pushRow: bool)
      modifies this
      ensures State() == Buffers.BufferVertex(old(State()), rowid, uid, v, pushRow)
    {
      hide LabelRows, PropRows, NextProp, FtsRows;
      if pushRow { nodeRows := nodeRows + [NodeRow(rowid, uid)]; }
      if v.id.Some? { vertexIds := vertexIds[Spelling(v.id.value) := rowid]; }
      AddLabels(rowid, v.labels);
      AddVertexProps(rowid, v.props);
    }

    /** Buffer one vertex; its rowid is 0 when that is decided at the flush. */
    method Vertex(v: Vertex) returns (rowid: int)
      modifies this
      ensures State() == AddVertex(old(State()), v)
      ensures rowid == if opts.onCollision.Replace? then 0 else IdOf(opts.idPolicy, v.id, old(nextNode)).0
    {
      hide Buffers.BufferVertex;
      if opts.onCollision.Replace? {
        rawVertices := rawVertices + [v];
        return 0;
      }
      var uid;
      rowid, uid := IdOf(opts.idPolicy, v.id, nextNode).0, IdOf(opts.idPolicy, v.id, nextNode).1;
      if rowid >= nextNode { nextNode := rowid + 1; }
      BufferVertex(rowid, uid, v, true);
    }

    /** Endpoints resolve now when both are known, at the flush otherwise. */
    method BufferEdge(rowid: int, uid: Option<Text>, e: Edge) returns (r: Result<()>)
      modifies this
      ensures r.Ok? ==> Buffers.BufferEdge(old(State()), rowid, uid, e) == Ok(State())
      ensures r.Err? ==> Buffers.BufferEdge(old(State()), rowid, uid, e) == Err(r.error) && r.error == MetaOnEdge
    {
      hide PropRows, NextProp, FtsRows;
      var s, t := Spelling(e.src), Spelling(e.tgt);
      if s in vertexIds && t in vertexIds {
        edgeRows := edgeRows + [EdgeRow(rowid, uid, vertexIds[s], e.name, vertexIds[t])];
      } else {
        pending := pending + [Pending(e, rowid, uid)];
      }
      var _ :- AddEdgeProps(rowid, e.props);
      r := Ok(());
    }

    method Edge(e: Edge) returns (r: Result<int>)
      modifies this
      ensures r.Ok? ==> AddEdge(old(State()), e) == Ok(State())
      ensures r.Ok? ==> r.value == if opts.onCollision.Replace? then 0 else IdOf(opts.idPolicy, e.id, old(nextEdge)).0
      ensures r.Err? ==> AddEdge(old(State()), e) == Err(r.error) && r.error == MetaOnEdge
    {
      hide Buffers.BufferEdge;
      if opts.onCollision.Replace? {
        rawEdges := rawEdges + [e];
        return Ok(0);
      }
      var (rowid, uid) := IdOf(opts.idPolicy, e.id, nextEdge);
      if rowid >= nextEdge { nextEdge := rowid + 1; }
      var _ :- BufferEdge(rowid, uid, e);
      r := Ok(rowid);
    }

    // ---------- the flush ----------

    /** Refuse the least claimed value the store already holds. */
    method AssertFree(table: string, column: string, taken: set<Key>, claims: set<Key>) returns (r: Result<()>)
      modifies store`faults
      ensures store.Db() == old(store.Db())
      ensures r.Ok? ==> Buffers.AssertFree(table, column, taken, claims).Ok?
      ensures r.Err? && !Refusal(r.error, old(store.faults)) ==>
        && Buffers.AssertFree(table, column, taken, claims).Err?
        && exists k :: IsLeast(k, taken * claims) && r.error == Collision(table, column, k)
      ensures NoFaults(old(store.faults)) ==> NoFaults(store.faults)
    {
      AssertFreeDecides(table, column, taken, claims);
      assert taken * claims == claims * taken;
      if claims == {} { return Ok(()); }
      var clash :- store.LeastTaken(taken, claims);
      if clash.Some? {
        assert IsLeast(clash.value, taken * claims);
        return Err(Collision(table, column, clash.value));
      }
      r := Ok(());
    }

    method AssertNoCollisions() returns (r: Result<()>)
      modifies store`faults
      ensures store.Db() == old(store.Db())
      ensures r.Ok? ==> Buffers.AssertNoCollisions(store.Db(), State()).Ok?
      ensures r.Err? && !Refusal(r.error, old(store.faults)) ==>
        && Buffers.AssertNoCollisions(store.Db(), State()).Err?
        && NamesLeastClash(store.Db(), State(), r.error) && r.error.Collision?
      ensures NoFaults(old(store.faults)) ==> NoFaults(store.faults)
    {
      hide GraphStore.Db, IsLeast, Buffers.AssertFree, NodeKeys, NodeUids, EdgeKeys, EdgeUids, PendingKeys, PendingUids,
           NoFaults;
      if emptyTarget { return Ok(()); }
      ghost var db := store.Db();
      var nodes, edges := multiset(nodeRows), multiset(edgeRows);
      var edgeKeys, edgeUids := EdgeKeys(edges) + PendingKeys(pending), EdgeUids(edges) + PendingUids(pending);
      AssertFreeDecides("nodes", "id", NodeKeys(db.nodes), NodeKeys(nodes));
      AssertFreeDecides("nodes", "uid", NodeUids(db.nodes), NodeUids(nodes));
      AssertFreeDecides("edges", "id", EdgeKeys(db.edges), edgeKeys);
      if opts.idPolicy.Preserve? {
        var _ :- AssertFree("nodes", "id", NodeKeys(store.Db().nodes), NodeKeys(nodes));
      }
      var _ :- AssertFree("nodes", "uid", NodeUids(store.Db().nodes), NodeUids(nodes));
      if opts.idPolicy.Preserve? {
        var _ :- AssertFree("edges", "id", EdgeKeys(store.Db().edges), edgeKeys);
      }
      var _ :- AssertFree("edges", "uid", EdgeUids(store.Db().edges), edgeUids);
      r := Ok(());
    }

    /** The memo, then the store; what the store says is remembered. */
    method ResolveEndpoint(k: Key) returns (r: Result<int>)
      requires store.Valid()
      modifies this`vertexIds, store`faults
      ensures store.Valid() && store.Db() == old(store.Db())
      ensures r.Ok? ==> Buffers.ResolveEndpoint(store.Db().nodes, old(vertexIds), k) == r
      ensures r.Ok? ==> vertexIds == old(vertexIds)[Spelling(k) := r.value]
      ensures r.Err? && !Refusal(r.error, old(store.faults)) ==>
        !r.error.Collision? && Buffers.ResolveEndpoint(store.Db().nodes, old(vertexIds), k) == r
      ensures NoFaults(old(store.faults)) ==> NoFaults(store.faults)
    {
      if Spelling(k) in vertexIds { return Ok(vertexIds[Spelling(k)]); }
      var row :- store.FindVertex(k);
      if row.None? { return Err(UnknownVertex(k)); }
      vertexIds := vertexIds[Spelling(k) := row.value];
      r := Ok(row.value);
    }

    /** The deferred edges, in the order they were added. */
    method ResolvePending() returns (r: Result<()>)
      requires store.Valid()
      modifies this`vertexIds, this`edgeRows, this`pending, store`faults
      ensures store.Valid() && store.Db() == old(store.Db())
      ensures r.Ok? ==>
        var resolved := Buffers.ResolvePending(store.Db().nodes, old(vertexIds), old(pending));
        && resolved.Ok?
        && State() == old(State()).(vertexIds := resolved.value.1, edgeRows := old(edgeRows) + resolved.value.0,
           pending := [])
      ensures r.Err? && !Refusal(r.error, old(store.faults)) ==>
        !r.error.Collision? && Buffers.ResolvePending(store.Db().nodes, old(vertexIds), old(pending)) == Err(r.error)
      ensures NoFaults(old(store.faults)) ==> NoFaults(store.faults)
    {
      hide GraphStore.Db, Buffers.ResolveEndpoint, Buffers.ResolvePending;
      ghost var rows: seq<EdgeRow> := [];
      NothingPending(store.Db().nodes, vertexIds, pending);
      for i := 0 to |pending|
        invariant store.Valid() && store.Db() == old(store.Db()) && pending == old(pending)
        invariant Buffers.ResolvePending(store.Db().nodes, old(vertexIds), pending[..i]) == Ok((rows, vertexIds))
        invariant edgeRows == old(edgeRows) + rows
        invariant NoFaults(old(store.faults)) ==> NoFaults(store.faults)
      {
        var p := pending[i];
        OneMorePending(store.Db().nodes, old(vertexIds), pending, i);
        var src :- ResolveEndpoint(p.edge.src);
        var tgt :- ResolveEndpoint(p.edge.tgt);
        edgeRows := edgeRows + [EdgeRow(p.id, p.uid, src, p.edge.name, tgt)];
        rows := rows + [EdgeRow(p.id, p.uid, src, p.edge.name, tgt)];
      }
      assert pending[..|pending|] == pending;
      pending := [];
      r := Ok(());
    }

    /** Vertices and what they own. */
    method LandVertices() returns (r: Result<()>)
      requires store.Valid()
      modifies store`nodes, store`labels, store`vprops, store`faults
      ensures store.Valid()
      ensures r.Ok? ==> VerticesPhase(old(store.Db()), State()) == Ok(store.Db())
      ensures r.Err? && !Refusal(r.error, old(store.faults)) ==>
        !r.error.Collision? && VerticesPhase(old(store.Db()), State()) == Err(r.error)
      ensures NoFaults(old(store.faults)) ==> NoFaults(store.faults)
    {
      hide GraphStore.Db, UniqueNodes, UniqueVProps, NoRepeats;
      var _ :- store.InsertNodes(nodeRows);
      var _ :- store.InsertLabels(labelRows);
      var _ :- store.InsertVProps(vprops);
      r := Ok(());
    }

    /** Edges, the journal of this batch, what the edges own, and the index. */
    method LandEdges() returns (r: Result<()>)
      requires store.Valid()
      modifies store`edges, store`journal, store`eprops, store`fts, store`faults
      ensures store.Valid()
      ensures r.Ok? ==> EdgesPhase(old(store.Db()), State()) == Ok(store.Db())
      ensures r.Err? && !Refusal(r.error, old(store.faults)) ==>
        !r.error.Collision? && EdgesPhase(old(store.Db()), State()) == Err(r.error)
      ensures NoFaults(old(store.faults)) ==> NoFaults(store.faults)
    {
      hide GraphStore.Db, UniqueEdges, UniqueEProps, UniqueFts, NoRepeats, JournalRows;
      var _ :- store.InsertEdges(edgeRows);
      if journal.Some? {
        var _ :- store.InsertJournal(JournalRows(journal.value, nodeRows, edgeRows));
      }
      var _ :- store.InsertEProps(eprops);
      var _ :- store.InsertFts(fts);
      r := Ok(());
    }

    method Clear()
      modifies this
      ensures State() == Cleared(old(State()))
    {
      hide BulkLoader.State;
      ClearVertexRows();
      ClearEdgeRows();
      ClearUnlanded();
    }

    method ClearVertexRows()
      modifies this`nodeRows, this`labelRows, this`vprops
      ensures State() == old(State()).(nodeRows := [], labelRows := [], vprops := [])
    {
      nodeRows, labelRows, vprops := [], [], [];
    }

    method ClearEdgeRows()
      modifies this`edgeRows, this`eprops, this`fts
      ensures State() == old(State()).(edgeRows := [], eprops := [], fts := [])
    {
      edgeRows, eprops, fts := [], [], [];
    }

    method ClearUnlanded()
      modifies this`pending, this`rawVertices, this`rawEdges
      ensures State() == old(State()).(pending := [], rawVertices := [], rawEdges := [])
    {
      pending, rawVertices, rawEdges := [], [], [];
    }

    method LandRows() returns (r: Result<()>)
      requires store.Valid()
      modifies this, store
      ensures r.Ok? ==> store.Valid() && Buffers.LandRows(old(store.Db()), old(State())) == Ok((store.Db(), State()))
      ensures r.Err? && !Refusal(r.error, old(store.faults)) ==>
        !r.error.Collision? && Buffers.LandRows(old(store.Db()), old(State())) == Err(r.error)
      ensures NoFaults(old(store.faults)) ==> NoFaults(store.faults)
    {
      hide GraphStore.Db, Buffers.LandRows, Buffers.ResolvePending, VerticesPhase, EdgesPhase, Unique, NoFaults,
           Cleared;
      LandRowsInPhases(store.Db(), State());
      var _ :- LandVertices();
      var _ :- ResolvePending();
      var _ :- LandEdges();
      Clear();
      r := Ok(());
    }

    // ---------- resolving a replace batch ----------

    /** Match each stored uid back to the spelling that asked for it. */
    method MatchUids(uids: seq<Text>, stored: map<Text, int>) returns (found: map<Text, int>)
      ensures forall u :: u in found <==> u in uids && WellFormed(u) in stored
      ensures forall u | u in found :: found[u] == stored[WellFormed(u)]
    {
      found := map[];
      for i := 0 to |uids|
        invariant forall u :: u in found <==> u in uids[..i] && WellFormed(u) in stored
        invariant forall u | u in found :: found[u] == stored[WellFormed(u)]
      {
        if WellFormed(uids[i]) in stored { found := found[uids[i] := stored[WellFormed(uids[i])]]; }
      }
    }

    method ExistingVertexUids(uids: seq<Text>) returns (r: Result<map<Text, int>>)
      requires store.Valid()
      modifies store`faults
      ensures store.Valid() && store.Db() == old(store.Db())
      ensures r.Ok? ==> forall u | u in uids ::
        Lookup(store.Db().nodes, Str(u)) == if u in r.value then Some(r.value[u]) else None
      ensures r.Err? ==> Refusal(r.error, old(store.faults))
      ensures NoFaults(old(store.faults)) ==> NoFaults(store.faults)
    {
      if uids == [] { return Ok(map[]); }
      var stored :- store.NodesWithUid(set u | u in uids :: WellFormed(u));
      var found := MatchUids(uids, stored);
      forall u | u in uids ensures Lookup(store.Db().nodes, Str(u)) == if u in found then Some(found[u]) else None {
        if row :| row in store.Db().nodes && Names(row, Str(u)) { OneVertexNamed(store.Db().nodes, Str(u), row); }
      }
      r := Ok(found);
    }

    method ExistingEdgeUids(uids: seq<Text>) returns (r: Result<map<Text, int>>)
      requires store.Valid()
      modifies store`faults
      ensures store.Valid() && store.Db() == old(store.Db())
      ensures r.Ok? ==> forall u | u in uids ::
        LookupEdge(store.Db().edges, Str(u)) == if u in r.value then Some(r.value[u]) else None
      ensures r.Err? ==> Refusal(r.error, old(store.faults))
      ensures NoFaults(old(store.faults)) ==> NoFaults(store.faults)
    {
      if uids == [] { return Ok(map[]); }
      var stored :- store.EdgesWithUid(set u | u in uids :: WellFormed(u));
      var found := MatchUids(uids, stored);
      forall u | u in uids ensures LookupEdge(store.Db().edges, Str(u)) == if u in found then Some(found[u]) else None {
        if row :| row in store.Db().edges && NamesEdge(row, Str(u)) { OneEdgeNamed(store.Db().edges, Str(u), row); }
      }
      r := Ok(found);
    }

    method MintNode() returns (id: int)
      modifies this`nextNode
      ensures id == old(State()).nextNode && State() == old(State()).(nextNode := id + 1)
    {
      id := nextNode;
      nextNode := nextNode + 1;
    }

    /** Keep the cursor past an id the source chose. */
    method PassNode(id: int)
      modifies this`nextNode
      ensures State() == old(State()).(nextNode := Bump(old(State()).nextNode, id))
    {
      if id >= nextNode { nextNode := id + 1; }
    }

    method MintEdge() returns (id: int)
      modifies this`nextEdge
      ensures id == old(State()).nextEdge && State() == old(State()).(nextEdge := id + 1)
    {
      id := nextEdge;
      nextEdge := nextEdge + 1;
    }

    method PassEdge(id: int)
      modifies this`nextEdge
      ensures State() == old(State()).(nextEdge := Bump(old(State()).nextEdge, id))
    {
      if id >= nextEdge { nextEdge := id + 1; }
    }

    method ReplaceVertex(v: Vertex, existingId: set<int>, existingUid: map<Text, int>) returns (matched: set<int>)
      requires v.id.Some? ==> Tells(v.id.value, existingId, existingUid, Lookup(store.Db().nodes, v.id.value))
      modifies this
      ensures Buffers.ReplaceVertex(store.Db().nodes, old(State()), v) == (State(), matched)
    {
      hide BulkLoader.State, GraphStore.Db, Buffers.BufferVertex;
      matched := {};
      match v.id {
        case Some(Num(n)) =>
          if n in existingId { matched := {n}; }
          PassNode(n);
          BufferVertex(n, None, v, n !in existingId);
        case Some(Str(s)) =>
          if s in existingUid {
            matched := {existingUid[s]};
            BufferVertex(existingUid[s], Some(WellFormed(s)), v, false);
          } else {
            var id := MintNode();
            BufferVertex(id, Some(WellFormed(s)), v, true);
          }
        case None =>
          var id := MintNode();
          BufferVertex(id, None, v, true);
      }
    }

    /** Buffer every deduplicated vertex under the rowid it keeps or is given; the matched rowids. */
    method ReplaceVertices(vertices: seq<Vertex>) returns (r: Result<set<int>>)
      requires store.Valid()
      modifies this, store`faults
      ensures store.Valid() && store.Db() == old(store.Db()) && rawEdges == old(rawEdges)
      ensures r.Ok? ==> Buffers.ReplaceVertices(store.Db().nodes, old(State()), vertices) == (State(), r.value)
      ensures r.Err? ==> Refusal(r.error, old(store.faults))
      ensures NoFaults(old(store.faults)) ==> NoFaults(store.faults)
    {
      hide GraphStore.Db, Buffers.ReplaceVertex;
      var existingId :- store.NodesWithId(Numbers(vertices, VertexKey));
      var existingUid :- ExistingVertexUids(Uids(vertices, VertexKey));
      var matched: set<int> := {};
      ghost var nodes, l := store.Db().nodes, State();
      for i := 0 to |vertices|
        invariant store.Valid() && store.Db() == old(store.Db()) && rawEdges == l.rawEdges
        invariant Buffers.ReplaceVertices(nodes, l, vertices[..i]) == (State(), matched)
        invariant NoFaults(old(store.faults)) ==> NoFaults(store.faults)
      {
        assert vertices[..i + 1][..i] == vertices[..i];
        if vertices[i].id.Some? { VerticesTold(nodes, vertices, existingId, existingUid, vertices[i]); }
        ReplaceVertexKeepsRaw(nodes, State(), vertices[i]);
        var more := ReplaceVertex(vertices[i], existingId, existingUid);
        matched := matched + more;
      }
      assert vertices[..|vertices|] == vertices;
      r := Ok(matched);
    }

    method ReplaceEdge(e: Edge, existingId: set<int>, existingUid: map<Text, int>) returns (r: Result<set<int>>)
      requires e.id.Some? ==> Tells(e.id.value, existingId, existingUid, LookupEdge(store.Db().edges, e.id.value))
      modifies this
      ensures r.Ok? ==> Buffers.ReplaceEdge(store.Db().edges, old(State()), e) == Ok((State(), r.value))
      ensures r.Err? ==> Buffers.ReplaceEdge(store.Db().edges, old(State()), e) == Err(r.error) && r.error == MetaOnEdge
    {
      hide BulkLoader.State, GraphStore.Db, Buffers.BufferEdge;
      var matched := {};
      match e.id {
        case Some(Num(n)) =>
          if n in existingId { matched := {n}; }
          PassEdge(n);
          var _ :- BufferEdge(n, None, e);
        case Some(Str(s)) =>
          if s in existingUid { matched := {existingUid[s]}; }
          var id := MintEdge();
          var _ :- BufferEdge(id, Some(WellFormed(s)), e);
        case None =>
          var id := MintEdge();
          var _ :- BufferEdge(id, None, e);
      }
      r := Ok(matched);
    }

    method ReplaceEdges(edges: seq<Edge>) returns (r: Result<set<int>>)
      requires store.Valid()
      modifies this, store`faults
      ensures store.Valid() && store.Db() == old(store.Db())
      ensures r.Ok? ==> Buffers.ReplaceEdges(store.Db().edges, old(State()), edges) == Ok((State(), r.value))
      ensures r.Err? && !Refusal(r.error, old(store.faults)) ==>
        r.error == MetaOnEdge && Buffers.ReplaceEdges(store.Db().edges, old(State()), edges) == Err(r.error)
      ensures NoFaults(old(store.faults)) ==> NoFaults(store.faults)
    {
      hide GraphStore.Db, Buffers.ReplaceEdge;
      var existingId :- store.EdgesWithId(Numbers(edges, EdgeKey));
      var existingUid :- ExistingEdgeUids(Uids(edges, EdgeKey));
      var matched: set<int> := {};
      ghost var stored, l := store.Db().edges, State();
      for i := 0 to |edges|
        invariant store.Valid() && store.Db() == old(store.Db())
        invariant Buffers.ReplaceEdges(stored, l, edges[..i]) == Ok((State(), matched))
        invariant NoFaults(old(store.faults)) ==> NoFaults(store.faults)
      {
        if edges[i].id.Some? { EdgesTold(stored, edges, existingId, existingUid, edges[i]); }
        OneMoreReplaced(stored, l, edges, i);
        var more :- ReplaceEdge(edges[i], existingId, existingUid);
        matched := matched + more;
      }
      assert edges[..|edges|] == edges;
      r := Ok(matched);
    }

    /** A matched vertex's owned rows, everything but its `nodes` row and its edges. */
    method WipeVertexChildren(ids: set<int>) returns (r: Result<()>)
      requires store.Valid()
      modifies store`fts, store`vprops, store`labels, store`cards, store`faults
      ensures r.Ok? ==> store.Valid() && store.Db() == WipeVertices(old(store.Db()), ids)
      ensures r.Err? ==> Refusal(r.error, old(store.faults))
      ensures NoFaults(old(store.faults)) ==> NoFaults(store.faults)
    {
      hide GraphStore.Db, Keep, VertexFtsLeft, Unique;
      WipingNoVertices(store.Db(), ids);
      if ids == {} { return Ok(()); }
      var _ :- store.WipeFts(NodeKind, ids);
      var _ :- store.DeleteVProps(ids);
      var _ :- store.DeleteLabels(ids);
      var _ :- store.DeleteCards(ids);
      r := Ok(());
    }

    /** A matched edge, whole. */
    method WipeEdges(ids: set<int>) returns (r: Result<()>)
      requires store.Valid()
      modifies store`fts, store`eprops, store`edges, store`faults
      ensures r.Ok? ==> store.Valid() && store.Db() == Buffers.WipeEdges(old(store.Db()), ids)
      ensures r.Err? ==> Refusal(r.error, old(store.faults))
      ensures NoFaults(old(store.faults)) ==> NoFaults(store.faults)
    {
      hide GraphStore.Db, Keep, EdgeFtsLeft, Unique;
      WipingNoEdges(store.Db(), ids);
      if ids == {} { return Ok(()); }
      var _ :- store.WipeFts(EdgeKind, ids);
      var _ :- store.DeleteEProps(ids);
      var _ :- store.DeleteEdges(ids);
      r := Ok(());
    }

    method ResolveReplace() returns (r: Result<()>)
      requires store.Valid()
      modifies this, store
      ensures r.Ok? ==>
        store.Valid() && Buffers.ResolveReplace(old(store.Db()), old(State())) == Ok((store.Db(), State()))
      ensures r.Err? && !Refusal(r.error, old(store.faults)) ==>
        !r.error.Collision? && Buffers.ResolveReplace(old(store.Db()), old(State())) == Err(r.error)
      ensures NoFaults(old(store.faults)) ==> NoFaults(store.faults)
    {
      hide GraphStore.Db, Keep, Unique, VertexFtsLeft, Deduped, Buffers.ReplaceVertices, Buffers.ReplaceEdges,
           Buffers.WipeEdges;
      var vertices := DedupeByKey(rawVertices, VertexKey);
      var matched :- ReplaceVertices(vertices);
      var _ :- WipeVertexChildren(matched);
      var edges := DedupeByKey(rawEdges, EdgeKey);
      var matchedEdges :- ReplaceEdges(edges);
      var _ :- WipeEdges(matchedEdges);
      r := Ok(());
    }

    method LandBatch() returns (r: Result<()>)
      requires store.Valid()
      modifies this, store
      ensures r.Ok? ==> store.Valid() && Buffers.LandBatch(old(store.Db()), old(State())) == Ok((store.Db(), State()))
      ensures r.Err? && !Refusal(r.error, old(store.faults)) ==> Declines(old(store.Db()), old(State()), r.error)
      ensures NoFaults(old(store.faults)) ==> NoFaults(store.faults)
    {
      hide GraphStore.Db, Unique, NoFaults, NamesLeastClash, Buffers.LandRows, Buffers.ResolveReplace,
           Buffers.AssertNoCollisions;
      if opts.onCollision.Replace? {
        var _ :- ResolveReplace();
      } else {
        var _ :- AssertNoCollisions();
      }
      r := LandRows();
    }

    /** Land everything buffered as ONE ATOMIC UNIT, and with `clear` forget the load's journal in it too: the
        store ends as the batch says, or exactly as it was. */
    method Flush(clear: bool) returns (r: Result<()>)
      requires store.Valid()
      modifies this, store
      ensures store.Valid()
      ensures r.Ok? ==>
        && Buffers.LandBatch(old(store.Db()), old(State())).Ok?
        && var (db, l) := Buffers.LandBatch(old(store.Db()), old(State())).value;
          && State() == l
          && store.Db() == if clear && journal.Some? then ClearJournal(db, journal.value) else db
      ensures r.Err? ==> store.Db() == old(store.Db())
      ensures r.Err? && !Refusal(r.error, old(store.faults)) ==> Declines(old(store.Db()), old(State()), r.error)
      ensures NoFaults(old(store.faults)) ==> NoFaults(store.faults)
    {
      hide GraphStore.Db, Unique, Buffers.LandBatch, Declines;
      var before := store.Db();
      r := LandBatch();
      if r.Ok? && clear && journal.Some? { r := store.ClearBulkJournal(journal.value); }
      if r.Err? { store.Restore(before); }
    }
  }

  /** A new loader: four reads, and no check at all if the graph was empty. */
  method OpenLoader(store: GraphStore, opts: Options, journal: Option<Text>) returns (r: Result<BulkLoader>)
    requires store.Valid()
    modifies store`faults
    ensures store.Valid() && store.Db() == old(store.Db())
    ensures r.Ok? ==>
      fresh(r.value) && r.value.store == store && r.value.journal == journal
      && r.value.State() == Fresh(store.Db(), opts, journal)
    ensures r.Err? ==> Refusal(r.error, old(store.faults))
    ensures NoFaults(old(store.faults)) ==> NoFaults(store.faults)
  {
    hide GraphStore.Db;
    var node :- store.MaxNode();
    var edge :- store.MaxEdge();
    var vprop :- store.MaxVProp();
    var eprop :- store.MaxEProp();
    var loader := new BulkLoader(store, opts, journal, node, edge, vprop, eprop);
    r := Ok(loader);
  }

  lemma OneMoreProp(kind: Kind, owner: int, props: seq<Property>, next: int, i: nat)
    requires i < |props|
    ensures var row := PropRow(PropId(props[i], NextProp(props[..i], next)), owner, props[i].key, props[i].value,
      props[i].meta);
      && PropRows(owner, props[..i + 1], next) == PropRows(owner, props[..i], next) + [row]
      && NextProp(props[..i + 1], next) == Bump(NextProp(props[..i], next), row.id)
      && FtsRows(kind, PropRows(owner, props[..i + 1], next))
         == FtsRows(kind, PropRows(owner, props[..i], next)) + FtsRows(kind, [row])
  {
    assert props[..i + 1][..i] == props[..i];
    var rows := PropRows(owner, props[..i + 1], next);
    assert rows[..|rows| - 1] == PropRows(owner, props[..i], next);
    assert [rows[|rows| - 1]][..0] == [];
  }

  lemma NoPropsYet(kind: Kind, owner: int, props: seq<Property>, next: int)
    ensures PropRows(owner, props[..0], next) == [] && NextProp(props[..0], next) == next
    ensures FtsRows(kind, []) == []
  {
  }

  /** The driver refused a statement, which it can only do when a fault was due. */
  ghost predicate Refusal(error: Error, faults: seq<bool>) {
    error == Refused && !NoFaults(faults)
  }

  lemma NothingPending(nodes: multiset<NodeRow>, ids: map<Text, int>, pending: seq<Pending>)
    ensures Buffers.ResolvePending(nodes, ids, pending[..0]) == Ok(([], ids))
  {
  }

  /** What one more deferred edge does to the resolution; once one fails, the whole has failed. */
  lemma OneMorePending(nodes: multiset<NodeRow>, ids: map<Text, int>, pending: seq<Pending>, i: nat)
    requires i < |pending| && Buffers.ResolvePending(nodes, ids, pending[..i]).Ok?
    ensures var (rows, ids1) := Buffers.ResolvePending(nodes, ids, pending[..i]).value;
      var e := pending[i].edge;
      var src := Buffers.ResolveEndpoint(nodes, ids1, e.src);
      if src.Err? then Buffers.ResolvePending(nodes, ids, pending) == Err(src.error)
      else
        var ids2 := ids1[Spelling(e.src) := src.value];
        var tgt := Buffers.ResolveEndpoint(nodes, ids2, e.tgt);
        if tgt.Err? then Buffers.ResolvePending(nodes, ids, pending) == Err(tgt.error)
        else
          var row := EdgeRow(pending[i].id, pending[i].uid, src.value, e.name, tgt.value);
          Buffers.ResolvePending(nodes, ids, pending[..i + 1]) == Ok((rows + [row], ids2[Spelling(e.tgt) := tgt.value]))
  {
    hide Buffers.ResolveEndpoint;
    assert pending[..i + 1][..i] == pending[..i];
    if Buffers.ResolvePending(nodes, ids, pending[..i + 1]).Err? { FailedPendingStays(nodes, ids, pending, i + 1); }
  }

  lemma {:induction false} FailedPendingStays(nodes: multiset<NodeRow>, ids: map<Text, int>, pending: seq<Pending>,
      i: nat)
    requires i <= |pending| && Buffers.ResolvePending(nodes, ids, pending[..i]).Err?
    ensures Buffers.ResolvePending(nodes, ids, pending) == Buffers.ResolvePending(nodes, ids, pending[..i])
    decreases |pending|
  {
    if i < |pending| {
      assert pending[..|pending| - 1][..i] == pending[..i];
      FailedPendingStays(nodes, ids, pending[..|pending| - 1], i);
    } else {
      assert pending[..i] == pending;
    }
  }

  // ---------- the landing in its phases ----------

  ghost function VerticesPhase(db: Tables, l: Buffers.Loader): Result<Tables> {
    var nodes := db.nodes + multiset(l.nodeRows);
    var labels := db.labels + multiset(l.labelRows);
    var vprops := db.vprops + multiset(l.vprops);
    if !UniqueNodes(nodes) then Err(NotUnique("nodes"))
    else if !NoRepeats(labels) then Err(NotUnique("vertex_labels"))
    else if !UniqueVProps(vprops) then Err(NotUnique("vertex_properties"))
    else Ok(db.(nodes := nodes, labels := labels, vprops := vprops))
  }

  /** With every edge of the batch resolved. */
  ghost function EdgesPhase(db: Tables, l: Buffers.Loader): Result<Tables> {
    var edges := db.edges + multiset(l.edgeRows);
    var journal := Journal(db.journal, l, l.edgeRows);
    var eprops := db.eprops + multiset(l.eprops);
    var fts := db.fts + multiset(l.fts);
    if !UniqueEdges(edges) then Err(NotUnique("edges"))
    else if !NoRepeats(journal) then Err(NotUnique("bulk_journal"))
    else if !UniqueEProps(eprops) then Err(NotUnique("edge_properties"))
    else if !UniqueFts(fts) then Err(NotUnique("property_fts"))
    else Ok(db.(edges := edges, journal := journal, eprops := eprops, fts := fts))
  }

  lemma LandRowsInPhases(db: Tables, l: Buffers.Loader)
    ensures Buffers.LandRows(db, l) == LandInPhases(db, l)
  {
    hide UniqueNodes, UniqueVProps, NoRepeats, UniqueEdges, UniqueEProps, UniqueFts, Buffers.ResolvePending,
         JournalRows;
  }

  ghost function LandInPhases(db: Tables, l: Buffers.Loader): Result<(Tables, Buffers.Loader)> {
    var db1 :- VerticesPhase(db, l);
    var (rows, ids) :- Buffers.ResolvePending(db1.nodes, l.vertexIds, l.pending);
    var l1 := l.(vertexIds := ids, edgeRows := l.edgeRows + rows, pending := []);
    var db2 :- EdgesPhase(db1, l1);
    Ok((db2, Cleared(l1)))
  }

  // ---------- the replace batch, element by element ----------

  /** The string keys of a batch. */
  function Uids<T>(items: seq<T>, keyOf: T -> Option<Key>): seq<Text> {
    if items == [] then []
    else
      var front, key := Uids(items[..|items| - 1], keyOf), keyOf(items[|items| - 1]);
      if key.Some? && key.value.Str? then front + [key.value.s] else front
  }

  lemma {:induction false} UidsHold<T>(items: seq<T>, keyOf: T -> Option<Key>, item: T)
    requires item in items && keyOf(item).Some? && keyOf(item).value.Str?
    ensures keyOf(item).value.s in Uids(items, keyOf)
  {
    if item != items[|items| - 1] { UidsHold(items[..|items| - 1], keyOf, item); }
  }

  function Numbers<T(==)>(items: seq<T>, keyOf: T -> Option<Key>): set<int> {
    set x | x in items && keyOf(x).Some? && keyOf(x).value.Num? :: keyOf(x).value.n
  }

  /** What was read ahead answers for this key as the store would. */
  ghost predicate Tells(key: Key, ids: set<int>, uids: map<Text, int>, found: Option<int>) {
    match key
    case Num(n) => n in ids <==> found.Some?
    case Str(s) => found == if s in uids then Some(uids[s]) else None
  }

  lemma VerticesTold(nodes: multiset<NodeRow>, vs: seq<Vertex>, ids: set<int>, uids: map<Text, int>, v: Vertex)
    requires ids == Numbers(vs, VertexKey) * NodeIds(nodes)
    requires forall u | u in Uids(vs, VertexKey) :: Lookup(nodes, Str(u)) == if u in uids then Some(uids[u]) else None
    requires v in vs && v.id.Some?
    ensures Tells(v.id.value, ids, uids, Lookup(nodes, v.id.value))
  {
    if v.id.value.Str? { UidsHold(vs, VertexKey, v); }
  }

  lemma EdgesTold(edges: multiset<EdgeRow>, es: seq<Edge>, ids: set<int>, uids: map<Text, int>, e: Edge)
    requires ids == Numbers(es, EdgeKey) * EdgeIds(edges)
    requires forall u | u in Uids(es, EdgeKey) :: LookupEdge(edges, Str(u)) == if u in uids then Some(uids[u]) else None
    requires e in es && e.id.Some?
    ensures Tells(e.id.value, ids, uids, LookupEdge(edges, e.id.value))
  {
    if e.id.value.Str? { UidsHold(es, EdgeKey, e); }
  }

  lemma ReplaceVertexKeepsRaw(nodes: multiset<NodeRow>, l: Buffers.Loader, v: Vertex)
    ensures Buffers.ReplaceVertex(nodes, l, v).0.rawEdges == l.rawEdges
  {
  }

  lemma WipingNoVertices(db: Tables, ids: set<int>)
    requires Unique(db)
    ensures ids == {} ==> WipeVertices(db, ids) == db
  {
    if ids == {} {
      hide UniqueNodes, UniqueEdges, UniqueEProps;
      KeepRestores(db.fts, (r: FtsRow) => !exists p :: p in db.vprops && p.id == r.rowid && p.owner in ids, db.fts);
      KeepRestores(db.vprops, (p: PropRow) => p.owner !in ids, db.vprops);
      KeepRestores(db.labels, (r: LabelRow) => r.node !in ids, db.labels);
      KeepRestores(db.cards, (r: CardRow) => r.node !in ids, db.cards);
    }
  }

  lemma WipingNoEdges(db: Tables, ids: set<int>)
    requires Unique(db)
    ensures ids == {} ==> Buffers.WipeEdges(db, ids) == db
  {
    if ids == {} {
      hide UniqueNodes, UniqueVProps, UniqueCards;
      KeepRestores(db.fts, (r: FtsRow) => !exists p :: p in db.eprops && -p.id == r.rowid && p.owner in ids, db.fts);
      KeepRestores(db.eprops, (p: PropRow) => p.owner !in ids, db.eprops);
      KeepRestores(db.edges, (r: EdgeRow) => r.id !in ids, db.edges);
    }
  }

  /** What one more edge does to the resolution; once one fails, the whole has failed. */
  lemma OneMoreReplaced(edges: multiset<EdgeRow>, l: Buffers.Loader, es: seq<Edge>, i: nat)
    requires i < |es| && Buffers.ReplaceEdges(edges, l, es[..i]).Ok?
    ensures var (l1, matched) := Buffers.ReplaceEdges(edges, l, es[..i]).value;
      var more := ReplaceEdge(edges, l1, es[i]);
      && (more.Err? ==> Buffers.ReplaceEdges(edges, l, es) == Err(more.error))
      && (more.Ok? ==> Buffers.ReplaceEdges(edges, l, es[..i + 1]) == Ok((more.value.0, matched + more.value.1)))
  {
    hide ReplaceEdge;
    assert es[..i + 1][..i] == es[..i];
    if Buffers.ReplaceEdges(edges, l, es[..i + 1]).Err? { FailedReplaceStays(edges, l, es, i + 1); }
  }

  lemma {:induction false} FailedReplaceStays(edges: multiset<EdgeRow>, l: Buffers.Loader, es: seq<Edge>, i: nat)
    requires i <= |es| && Buffers.ReplaceEdges(edges, l, es[..i]).Err?
    ensures Buffers.ReplaceEdges(edges, l, es) == Buffers.ReplaceEdges(edges, l, es[..i])
    decreases |es|
  {
    if i < |es| {
      assert es[..|es| - 1][..i] == es[..i];
      FailedReplaceStays(edges, l, es[..|es| - 1], i);
    } else {
      assert es[..i] == es;
    }
  }

  /** The batch cannot land: an error of the specification's own, a collision naming the least clash. */
  ghost predicate Declines(db: Tables, l: Buffers.Loader, error: Error) {
    && Buffers.LandBatch(db, l).Err?
    && if error.Collision? then NamesLeastClash(db, l, error) else Buffers.LandBatch(db, l).error == error
  }
}
