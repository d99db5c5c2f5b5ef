/** A streamed load (src/bulk.ts `BatchingLoader`, `loadStreaming`): batches committed one by one, all or
    nothing as a whole. */
module StreamedLoads {
  import opened Utf16
  import opened Graph
  import opened Buffers = Loader
  import opened Consistency
  import opened Streaming
  import opened Origins
  import opened Committed
  import opened Store
  import opened BulkLoading

  class BatchingLoader {
    const store: GraphStore
    const opts: Options
    const batchSize: int
    const journal: Text
    var loader: BulkLoader
    var pending: nat
    var finished: bool
    /** The graph as the load found it, what has landed since, and what the current batch holds. */
    ghost const before: Tables
    ghost var landed: seq<Op>
    ghost var held: seq<Op>

    /** Everything landed so far is what the journal undoes, and came from the calls that were landed. */
    ghost predicate Undoable()
      reads this, store
    {
      && store.Valid() && Intact(before) && Intact(store.Db()) && Extends(before, store.Db(), journal)
      && Traced(before, store.Db(), landed)
    }

    /** Between two elements: the loader is a fresh one fed the elements of the current batch. */
    ghost predicate Valid()
      reads this, store, loader
    {
      && Undoable()
      && loader.store == store && loader.journal == Some(journal) && opts.onCollision.FailClosed?
      && Feed(Fresh(store.Db(), opts, Some(journal)), held) == Ok(loader.State())
    }

    constructor (store: GraphStore, opts: Options, batchSize: int, journal: Text, loader: BulkLoader)
      requires store.Valid() && Intact(store.Db()) && opts.onCollision.FailClosed?
      requires forall j | j in store.Db().journal :: j.load != journal
      requires loader.store == store && loader.journal == Some(journal)
        && loader.State() == Fresh(store.Db(), opts, Some(journal))
      ensures Valid() && !finished && pending == 0 && landed == held == []
      ensures this.store == store && this.opts == opts && this.batchSize == batchSize && this.journal == journal
      ensures this.loader == loader && before == store.Db()
    {
      this.store, this.opts, this.batchSize, this.journal, this.loader := store, opts, batchSize, journal, loader;
      pending, finished := 0, false;
      before, landed, held := store.Db(), [], [];
      new;
      StartExtends(store.Db(), journal);
    }

    method Vertex(v: Vertex) returns (r: Result<()>)
      requires Valid()
      modifies this, loader, store
      ensures Undoable() && finished == old(finished) && (loader == old(loader) || fresh(loader))
      ensures landed <= old(landed + held) + [AddV(v)] && (r.Ok? ==> landed + held == old(landed + held) + [AddV(v)])
      ensures r.Ok? ==>
        && Valid()
        && StepOf(old(store.Db()), old(loader.State()), old(pending), AddV(v))
           == Ok((store.Db(), loader.State(), pending))
      ensures r.Err? && !Refusal(r.error, old(store.faults))
        ==> StepOf(old(store.Db()), old(loader.State()), old(pending), AddV(v)).Err?
      ensures NoFaults(old(store.faults)) ==> NoFaults(store.faults)
    {
      hide GraphStore.Db, Fresh, Feed, AddVertex, AddEdge, Extends, Intact, Traced, LandBatch, NoFaults,
           BulkLoader.State, GraphStore.Valid;
      FeedOneMore(store.Db(), opts, journal, held, AddV(v));
      var _ := loader.Vertex(v);
      held := held + [AddV(v)];
      r := Tick();
    }

    method Edge(e: Edge) returns (r: Result<()>)
      requires Valid()
      modifies this, loader, store
      ensures Undoable() && finished == old(finished) && (loader == old(loader) || fresh(loader))
      ensures landed <= old(landed + held) + [AddE(e)] && (r.Ok? ==> landed + held == old(landed + held) + [AddE(e)])
      ensures r.Ok? ==>
        && Valid()
        && StepOf(old(store.Db()), old(loader.State()), old(pending), AddE(e))
           == Ok((store.Db(), loader.State(), pending))
      ensures r.Err? && !Refusal(r.error, old(store.faults))
        ==> StepOf(old(store.Db()), old(loader.State()), old(pending), AddE(e)).Err?
      ensures NoFaults(old(store.faults)) ==> NoFaults(store.faults)
    {
      hide GraphStore.Db, Fresh, Feed, AddVertex, AddEdge, Extends, Intact, Traced, LandBatch, NoFaults,
           BulkLoader.State, GraphStore.Valid;
      FeedOneMore(store.Db(), opts, journal, held, AddE(e));
      var _ :- loader.Edge(e);
      held := held + [AddE(e)];
      r := Tick();
    }

    ghost function StepOf(db: Tables, l: Buffers.Loader, pending: nat, op: Op): Result<(Tables, Buffers.Loader, nat)> {
      Step(db, opts, journal, l, pending, batchSize, op)
    }

    method Tick() returns (r: Result<()>)
      requires Valid()
      modifies this, loader, store
      ensures Undoable() && finished == old(finished) && (loader == old(loader) || fresh(loader))
      ensures landed <= old(landed + held) && (r.Ok? ==> landed + held == old(landed + held))
      ensures r.Ok? ==> Valid()
      ensures r.Ok? && old(pending) + 1 >= batchSize ==>
        && LandBatch(old(store.Db()), old(loader.State())).Ok? && pending == 0
        && store.Db() == LandBatch(old(store.Db()), old(loader.State())).value.0
        && loader.State() == Fresh(store.Db(), opts, Some(journal))
      ensures r.Ok? && old(pending) + 1 < batchSize ==>
        store.Db() == old(store.Db()) && loader.State() == old(loader.State()) && pending == old(pending) + 1
      ensures r.Err? && !Refusal(r.error, old(store.faults)) ==>
        old(pending) + 1 >= batchSize && LandBatch(old(store.Db()), old(loader.State())).Err?
      ensures NoFaults(old(store.faults)) ==> NoFaults(store.faults)
    {
      hide GraphStore.Db, Feed, Fresh, Extends, Intact, Traced, LandBatch, NoFaults, BulkLoader.State;
      pending := pending + 1;
      if pending >= batchSize {
        r := Cut();
      } else {
        r := Ok(());
      }
    }

    /** Flush what is held; on success the next call meets a loader opened on the grown graph. */
    method Cut() returns (r: Result<()>)
      requires Valid()
      modifies this, loader, store
      ensures Undoable() && finished == old(finished) && (loader == old(loader) || fresh(loader))
      ensures landed <= old(landed + held) && (r.Ok? ==> landed + held == old(landed + held))
      ensures r.Ok? ==>
        && Valid() && pending == 0
        && LandBatch(old(store.Db()), old(loader.State())).Ok?
        && store.Db() == LandBatch(old(store.Db()), old(loader.State())).value.0
        && loader.State() == Fresh(store.Db(), opts, Some(journal))
      ensures r.Err? && !Refusal(r.error, old(store.faults)) ==> LandBatch(old(store.Db()), old(loader.State())).Err?
      ensures NoFaults(old(store.faults)) ==> NoFaults(store.faults)
    {
      hide GraphStore.Db, Fresh, Extends, Intact, Traced, LandBatch, NoFaults, BulkLoader.State, Unique;
      ghost var db := store.Db();
      var _ :- loader.Flush(false);
      BatchExtends(before, db, opts.idPolicy, journal, held);
      BatchIsTraced(before, db, opts.idPolicy, journal, landed, held);
      landed, held := landed + held, [];
      loader :- OpenLoader(store, opts, Some(journal));
      pending := 0;
      r := Ok(());
    }

    /** Land the last batch and, in the same atomic unit, forget the journal: the load is committed. */
    method Done() returns (r: Result<()>)
      requires !finished ==> Valid()
      modifies this, loader, store
      ensures store.Valid() || old(finished)
      ensures old(finished) ==> r.Ok? && store.Db() == old(store.Db())
      ensures !old(finished) && r.Ok? ==>
        && finished && LandBatch(old(store.Db()), old(loader.State())).Ok?
        && store.Db() == ClearJournal(LandBatch(old(store.Db()), old(loader.State())).value.0, journal)
        && store.Db().journal == before.journal && Intact(store.Db())
      ensures r.Err? ==> !finished && Undoable() && landed == old(landed)
      ensures r.Err? && !Refusal(r.error, old(store.faults)) ==> LandBatch(old(store.Db()), old(loader.State())).Err?
      ensures NoFaults(old(store.faults)) ==> NoFaults(store.faults)
    {
      hide GraphStore.Db, Fresh, Extends, Intact, Traced, LandBatch, NoFaults, BulkLoader.State;
      r := Ok(());
      if !finished {
        ghost var db, l := store.Db(), loader.State();
        var _ :- loader.Flush(true);
        finished := true;
        BatchCommits(before, db, opts.idPolicy, journal, held);
      }
    }

    /** Undo every batch this load landed; nothing to undo once it has committed. */
    method Abort() returns (r: Result<()>)
      requires !finished ==> Undoable()
      modifies this, store
      ensures finished
      ensures old(finished) ==> r.Ok? && store.Db() == old(store.Db())
      ensures !old(finished) && r.Ok? ==> store.Valid() && store.Db() == Rollback(old(store.Db()), Some(journal))
      ensures r.Err? ==> store.Db() == old(store.Db()) && Undoable() && Refusal(r.error, old(store.faults))
      ensures NoFaults(old(store.faults)) ==> NoFaults(store.faults)
    {
      hide GraphStore.Db, Extends, Intact, Traced, Rollback;
      if finished { return Ok(()); }
      finished := true;
      r := store.Undo(Some(journal));
    }
  }

  /** Drive a loader through a source's calls, one element at a time; the source may raise after any of them. */
  method Drive(b: BatchingLoader, ops: seq<Op>, raises: bool) returns (r: Result<()>)
    requires b.Valid() && !b.finished
    modifies b, b.loader, b.store
    ensures b.Undoable() && !b.finished && (b.loader == old(b.loader) || fresh(b.loader))
    ensures b.landed <= old(b.landed + b.held) + ops
    ensures r.Ok? ==>
      && !raises && b.Valid()
      && Stream(old(b.store.Db()), b.opts, b.journal, old(b.loader.State()), old(b.pending), b.batchSize, ops)
         == Stream(b.store.Db(), b.opts, b.journal, b.loader.State(), b.pending, b.batchSize, [])
    ensures r.Err? && !Refusal(r.error, old(b.store.faults)) ==>
      || raises
      || Stream(old(b.store.Db()), b.opts, b.journal, old(b.loader.State()), old(b.pending), b.batchSize, ops).Err?
    ensures NoFaults(old(b.store.faults)) ==> NoFaults(b.store.faults)
  {
    hide GraphStore.Db, Fresh, Extends, Intact, Traced, NoFaults, BulkLoader.State, Step, LandBatch, Feed;
    ghost var outcome := Stream(b.store.Db(), b.opts, b.journal, b.loader.State(), b.pending, b.batchSize, ops);
    ghost var was := b.landed + b.held;
    for i := 0 to |ops|
      invariant b.Valid() && !b.finished && (b.loader == old(b.loader) || fresh(b.loader))
      invariant b.landed + b.held == was + ops[..i]
      invariant outcome == Stream(b.store.Db(), b.opts, b.journal, b.loader.State(), b.pending, b.batchSize, ops[i..])
      invariant NoFaults(old(b.store.faults)) ==> NoFaults(b.store.faults)
    {
      assert ops[i..][0] == ops[i] && ops[i..][1..] == ops[i + 1..];
      OneMoreFed(was, ops, i);
      match ops[i] {
        case AddV(v) => r := b.Vertex(v);
        case AddE(e) => r := b.Edge(e);
      }
      if r.Err? { return; }
    }
    assert ops[..|ops|] == ops;
    r := if raises then Err(FeedFailed) else Ok(());
  }

  /** A STREAMED LOAD IS ALL OR NOTHING, whatever the batch size and wherever it fails: in the source, in a call,
      in any batch's flush, or in the last one. It commits exactly what feeding and flushing its batches gives
      and keeps no journal row of its own, or (every error path) the graph is as it was. The one exception is
      exact: an old index row is lost precisely when a landed property is opposed to it, which a source can rule
      out before the load (`MayOppose`) and which positive property ids rule out. Only when the driver refuses the
      undo itself (`undone` is false) does the journal stay, and the same undo can be run later. Without refusals
      the load fails only where the source raises or the batches cannot land. */
  method LoadStreaming(store: GraphStore, opts: Options, ops: seq<Op>, raises: bool, batchSize: int, token: Text)
    returns (r: Result<()>, undone: bool, ghost landed: Tables)
    requires store.Valid() && Intact(store.Db())
    requires forall j | j in store.Db().journal :: j.load != token
    modifies store
    ensures store.Valid()
    ensures r.Ok? ==> !raises && opts.onCollision.FailClosed?
    ensures r.Ok? ==> Streamed(old(store.Db()), opts, token, batchSize, ops) == Ok(store.Db())
    ensures r.Ok? ==> Stored(store.Db()) == Stored(old(store.Db())).Plus(Given(ops))
    ensures r.Ok? ==> Intact(store.Db()) && store.Db().journal == old(store.Db().journal)
    ensures r.Err? ==> Extends(old(store.Db()), landed, token) && Traced(old(store.Db()), landed, ops)
    ensures r.Err? ==> store.Db() == if undone then Rollback(landed, Some(token)) else landed
    ensures r.Err? ==> (Rollback(landed, Some(token)) == old(store.Db()) <==> !Opposed(old(store.Db()), landed))
    ensures r.Err? && !MayOppose(old(store.Db()), ops) ==> Rollback(landed, Some(token)) == old(store.Db())
    ensures !undone ==> r.Err? && !NoFaults(old(store.faults))
    ensures opts.onCollision.FailClosed? && NoFaults(old(store.faults)) ==>
      (r.Ok? <==> !raises && Streamed(old(store.Db()), opts, token, batchSize, ops).Ok?)
  {
    hide GraphStore.Db, Fresh, Extends, Intact, Traced, NoFaults, BulkLoader.State, Step, LandBatch, Rollback, Opposed,
         MayOppose;
    undone, landed := true, store.Db();
    StartIsUndone(landed, token, ops);
    if opts.onCollision.Replace? { return Err(NotStreamable), true, landed; }
    var first := OpenLoader(store, opts, Some(token));
    if first.Err? { return Err(first.error), true, landed; }
    var b := new BatchingLoader(store, opts, batchSize, token, first.value);
    ghost var start := b.before;
    r := Drive(b, ops, raises);
    if r.Ok? { r := b.Done(); }
    if r.Ok? { CommitsAll(old(store.Db()), opts, token, batchSize, ops); }
    if r.Err? {
      landed := store.Db();
      UndoneExactly(start, landed, token, b.landed, ops);
      var aborted := b.Abort();
      if aborted.Err? { return aborted, false, landed; }
    }
  }

  /** What undoing a load gives, in terms of its calls. */
  lemma UndoneExactly(db0: Tables, db: Tables, load: Text, landed: seq<Op>, ops: seq<Op>)
    requires Intact(db0) && Intact(db) && Extends(db0, db, load) && Traced(db0, db, landed) && landed <= ops
    ensures Traced(db0, db, ops)
    ensures Rollback(db, Some(load)) == db0 <==> !Opposed(db0, db)
    ensures !MayOppose(db0, ops) ==> Rollback(db, Some(load)) == db0
  {
    hide Intact, Extends, Opposed, MayOppose, Rollback, From;
    UndoRestoresExactly(db0, db, load, Some(load));
    forall kind: Kind, r | r in PropsOf(db, kind) && r !in PropsOf(db0, kind) ensures From(db0, ops, kind, r) {
      FromStays(db0, landed, ops, kind, r);
    }
    if Opposed(db0, db) { OpposedIsSupplied(db0, db, load, ops); }
  }

  lemma StartIsUndone(db: Tables, load: Text, ops: seq<Op>)
    requires Intact(db) && forall j | j in db.journal :: j.load != load
    ensures Extends(db, db, load) && Traced(db, db, ops) && !Opposed(db, db) && Rollback(db, Some(load)) == db
  {
    StartExtends(db, load);
    UndoRestoresExactly(db, db, load, Some(load));
  }

  lemma CommitsAll(db: Tables, opts: Options, load: Text, batchSize: int, ops: seq<Op>)
    requires opts.onCollision.FailClosed? && Streamed(db, opts, load, batchSize, ops).Ok?
    ensures Stored(Streamed(db, opts, load, batchSize, ops).value) == Stored(db).Plus(Given(ops))
  {
    StreamCommitsAll(db, opts, load, Fresh(db, opts, Some(load)), 0, batchSize, ops);
  }

  lemma OneMoreFed(was: seq<Op>, ops: seq<Op>, i: nat)
    requires i < |ops|
    ensures (was + ops[..i]) + [ops[i]] == was + ops[..i + 1]
    ensures was + ops[..i + 1] <= was + ops
  {
  }

  lemma FeedOneMore(db: Tables, opts: Options, load: Text, held: seq<Op>, op: Op)
    requires Feed(Fresh(db, opts, Some(load)), held).Ok?
    ensures Feed(Fresh(db, opts, Some(load)), held + [op]) == Add(Feed(Fresh(db, opts, Some(load)), held).value, op)
  {
    assert (held + [op])[..|held|] == held;
  }

  /** The last batch commits the load. */
  lemma BatchCommits(before: Tables, db: Tables, idPolicy: IdPolicy, load: Text, ops: seq<Op>)
    requires Intact(before) && Intact(db) && Extends(before, db, load)
    requires Batch(db, idPolicy, load, ops).Ok? && LandBatch(db, Batch(db, idPolicy, load, ops).value).Ok?
    ensures var db' := ClearJournal(LandBatch(db, Batch(db, idPolicy, load, ops).value).value.0, load);
      db'.journal == before.journal && Intact(db')
  {
    hide LandBatch, Batch, Extends, Intact, ClearJournal;
    BatchExtends(before, db, idPolicy, load, ops);
    var landed := LandBatch(db, Batch(db, idPolicy, load, ops).value).value.0;
    ClearForgets(before, landed, load);
    ClearKeepsIntact(landed, load);
  }

  lemma ClearKeepsIntact(db: Tables, load: Text)
    requires Intact(db)
    ensures Intact(ClearJournal(db, load))
  {
    var d := ClearJournal(db, load);
    KeepIsUnique(db.journal, (j: JournalRow) => j.load != load);
    assert References(d) && Indexed(d);
  }
}
