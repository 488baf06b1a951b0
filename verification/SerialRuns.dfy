/** Whole runs of operations executed one at a time, forced writes included: the ledgers
    explain every card, and a tombstone is final. */
module SerialRuns {
  import opened Wrappers
  import opened Entities
  import opened Database
  import opened Governed
  import opened Ledgers

  /** The rows appended since `base`. */
  function Since<T>(rows: seq<T>, base: seq<T>): seq<T> {
    if |base| <= |rows| then rows[|base|..] else []
  }

  lemma SinceAppend<T>(rows: seq<T>, base: seq<T>, more: seq<T>)
    requires |base| <= |rows|
    ensures Since(rows + more, base) == Since(rows, base) + more
  {
  }

  ghost predicate Extends(base: Db, db: Db) {
    && |base.tierAudit| <= |db.tierAudit|
    && |base.archiveAudit| <= |db.archiveAudit|
    && |base.editAudit| <= |db.editAudit|
  }

  /** The ledger rows since `base` lead from the birth of card `id` to what it is in `db`. */
  ghost predicate Explained(base: Db, db: Db, birth: Option<Task>, id: string) {
    && Extends(base, db)
    && var tier, archive, edit :=
         Since(db.tierAudit, base.tierAudit), Since(db.archiveAudit, base.archiveAudit), Since(db.editAudit, base.editAudit);
       match TaskAt(db, id)
       case None => birth.None? && Silent(tier, archive, edit, id)
       case Some(t) => birth.Some? && birth.value.id == id && Explain(tier, archive, edit, birth.value, t)
  }

  lemma TaskAtIsTheRow(db: Db, id: string)
    requires WellFormed(db)
    ensures TaskAt(db, id).Some? <==> RowKey(Tasks, id) in db.rows
    ensures TaskAt(db, id).Some? ==> TaskAt(db, id).value.id == id && db.rows[RowKey(Tasks, id)] == TaskRow(TaskAt(db, id).value)
  {
  }

  lemma ExplainIgnoresToken(tier: seq<TierRow>, archive: seq<ArchiveRow>, edit: seq<EditRow>, b: Task, t: Task, v: Option<string>)
    requires Explain(tier, archive, edit, b, t)
    ensures Explain(tier, archive, edit, b, t.(version := v))
  {
    assert forall f :: FieldOf(t.(version := v), f) == FieldOf(t, f);
  }

  lemma SinceStaged(base: Db, db: Db, st: Staged)
    requires Extends(base, db)
    ensures var db' := WithLedgers(db, st);
            && Extends(base, db')
            && Since(db'.tierAudit, base.tierAudit) == Since(db.tierAudit, base.tierAudit) + st.tierRows
            && Since(db'.archiveAudit, base.archiveAudit) == Since(db.archiveAudit, base.archiveAudit) + st.archiveRows
            && Since(db'.editAudit, base.editAudit) == Since(db.editAudit, base.editAudit) + st.editRows
  {
    SinceAppend(db.tierAudit, base.tierAudit, st.tierRows);
    SinceAppend(db.archiveAudit, base.archiveAudit, st.archiveRows);
    SinceAppend(db.editAudit, base.editAudit, st.editRows);
  }

  /** A committed operation: the ledgers grow by the staged rows, the called task takes its
      planned value under a new token, and every other task stays. */
  lemma ExecCommits(world: World, db: Db, call: Call, clock: Clock, openEscalation: bool, t: Task, u: Task)
    requires WellFormed(db)
    requires Prepare(world, db, call, clock, openEscalation) == Success((t, StagedFor(clock, t, u, call.op)))
    requires TaskAfter(world, clock, openEscalation, t, call.op) == Success(u)
    requires PutSucceeds(db, TaskRow(u), call.CasToken())
    ensures t.id == call.taskId && t.deletedAt.None? && TaskAt(db, t.id) == Some(t)
    ensures var db' := Exec(world, db, call, clock, openEscalation);
            var st := StagedFor(clock, t, u, call.op);
            && TaskAt(db', t.id).Some? && TaskAt(db', t.id).value == u.(version := TaskAt(db', t.id).value.version)
            && (forall id | id != t.id :: TaskAt(db', id) == TaskAt(db, id))
            && db'.tierAudit == WithLedgers(db, st).tierAudit
            && db'.archiveAudit == WithLedgers(db, st).archiveAudit
            && db'.editAudit == WithLedgers(db, st).editAudit
  {
    TaskAtIsTheRow(db, call.taskId);
    TaskAfterKeepsIdentity(world, clock, openEscalation, t, call.op);
    hide TaskAfter, EarlyCheck, TierRows, ArchiveRows, EditRows;
    TransactRows(world.hash, db, StagedFor(clock, t, u, call.op), call.CasToken());
  }

  /** A guarded operation, seen from card `id`. */
  lemma GuardedStep(world: World, base: Db, db: Db, call: Call, clock: Clock, openEscalation: bool, birth: Option<Task>, id: string)
    requires WellFormed(db) && Explained(base, db, birth, id)
    ensures Explained(base, Exec(world, db, call, clock, openEscalation), birth, id)
  {
    var r := Prepare(world, db, call, clock, openEscalation);
    if r.Success? && PutSucceeds(db, r.value.1.entity, call.CasToken()) {
      var (t, st) := r.value;
      var u := st.entity.task;
      ExecCommits(world, db, call, clock, openEscalation, t, u);
      CommittedStep(world, base, db, Exec(world, db, call, clock, openEscalation), call.op, clock, openEscalation, t, u, birth, id);
    }
  }

  lemma CommittedStep(world: World, base: Db, db: Db, db': Db, op: Op, clock: Clock, openEscalation: bool, t: Task, u: Task, birth: Option<Task>, id: string)
    requires Explained(base, db, birth, id) && TaskAfter(world, clock, openEscalation, t, op) == Success(u)
    requires t.deletedAt.None? && TaskAt(db, t.id) == Some(t)
    requires TaskAt(db', t.id).Some? && TaskAt(db', t.id).value == u.(version := TaskAt(db', t.id).value.version)
    requires id != t.id ==> TaskAt(db', id) == TaskAt(db, id)
    requires var after := WithLedgers(db, StagedFor(clock, t, u, op));
             db'.tierAudit == after.tierAudit && db'.archiveAudit == after.archiveAudit && db'.editAudit == after.editAudit
    ensures Explained(base, db', birth, id)
  {
    var st := StagedFor(clock, t, u, op);
    SinceStaged(base, db, st);
    RowsOwner(clock, t, u, op);
    var tier, archive, edit :=
      Since(db.tierAudit, base.tierAudit), Since(db.archiveAudit, base.archiveAudit), Since(db.editAudit, base.editAudit);
    if id == t.id {
      ExplainStep(world, clock, openEscalation, birth.value, t, u, op, tier, archive, edit);
      ExplainIgnoresToken(tier + st.tierRows, archive + st.archiveRows, edit + st.editRows, birth.value, u, TaskAt(db', id).value.version);
    } else if birth.Some? {
      ExplainSkips(birth.value, TaskAt(db, id).value, tier, archive, edit, st.tierRows, st.archiveRows, st.editRows);
    }
  }

  lemma WriteStep(world: World, base: Db, db: Db, e: Entity, birth: Option<Task>, id: string)
    requires WellFormed(db) && Explained(base, db, birth, id) && Creates(db, Write(e))
    ensures var db' := ExecTxn(world, db, Write(e));
            var born := birth.None? && e.Key() == RowKey(Tasks, id) && e.TaskRow? && PutSucceeds(db, e, None);
            Explained(base, db', if born then Some(e.task) else birth, id)
  {
    var db' := ExecTxn(world, db, Write(e));
    if PutSucceeds(db, e, None) {
      SinceStaged(base, db, Alone(e));
      WrittenTask(world, db, e, id);
      var tier, archive, edit :=
        Since(db.tierAudit, base.tierAudit), Since(db.archiveAudit, base.archiveAudit), Since(db.editAudit, base.editAudit);
      assert tier + [] == tier && archive + [] == archive && edit + [] == edit;
      hide Since, Silent, Explain, WellFormed, TaskAt;
      if e.Key() == RowKey(Tasks, id) {
        SilentExplainsBirth(e.task, tier, archive, edit);
        ExplainIgnoresToken(tier, archive, edit, e.task, e.task, TaskAt(db', id).value.version);
      }
    }
  }

  /** An unguarded put that only creates: the card it is about is new, every other one stays. */
  lemma WrittenTask(world: World, db: Db, e: Entity, id: string)
    requires WellFormed(db) && Creates(db, Write(e)) && PutSucceeds(db, e, None)
    ensures var db' := ExecTxn(world, db, Write(e));
            if e.Key() == RowKey(Tasks, id)
            then e.TaskRow? && e.task.id == id && TaskAt(db, id).None? && TaskAt(db', id).Some?
                 && TaskAt(db', id).value == e.task.(version := TaskAt(db', id).value.version)
            else TaskAt(db', id) == TaskAt(db, id)
    ensures var db' := ExecTxn(world, db, Write(e));
            && db'.tierAudit == WithLedgers(db, Alone(e)).tierAudit
            && db'.archiveAudit == WithLedgers(db, Alone(e)).archiveAudit
            && db'.editAudit == WithLedgers(db, Alone(e)).editAudit
  {
    TransactRows(world.hash, db, Alone(e), None);
    TaskAtIsTheRow(db, id);
  }

  /** Ledger replay, one operation at a time: after any run, forced writes included, the rows
      appended since its start lead from each card's birth to its present value, and cards that
      do not exist are not mentioned. */
  lemma {:induction false} SerialLedgerReplay(world: World, base: Db, log: seq<Txn>, id: string)
    requires WellFormed(base) && GovernedRun(world, base, log)
    ensures Explained(base, ExecAll(world, base, log), BirthOf(world, base, log, id), id)
  {
    if log == [] {
      TaskAtIsTheRow(base, id);
      if TaskAt(base, id).Some? {
        SilentExplainsBirth(TaskAt(base, id).value, [], [], []);
      }
    } else {
      var front, last := log[..|log| - 1], log[|log| - 1];
      var db := ExecAll(world, base, front);
      SerialLedgerReplay(world, base, front, id);
      ExecAllWellFormed(world, base, front);
      match last
      case Write(e) =>
        WriteStep(world, base, db, e, BirthOf(world, base, front, id), id);
      case Guarded(call, clock, openEscalation) =>
        GuardedStep(world, base, db, call, clock, openEscalation, BirthOf(world, base, front, id), id);
    }
  }

  // ---- Tombstones ----------------------------------------------------------------------------

  ghost predicate Tombstoned(db: Db, id: string) {
    TaskAt(db, id).Some? && TaskAt(db, id).value.deletedAt.Some?
  }

  lemma TombstoneStep(world: World, db: Db, txn: Txn, id: string)
    requires WellFormed(db) && Creates(db, txn) && Tombstoned(db, id)
    ensures TaskAt(ExecTxn(world, db, txn), id) == TaskAt(db, id)
  {
    match txn
    case Write(e) =>
      if PutSucceeds(db, e, None) {
        TransactRows(world.hash, db, Alone(e), None);
      }
    case Guarded(call, clock, openEscalation) =>
      var r := Prepare(world, db, call, clock, openEscalation);
      if r.Success? && PutSucceeds(db, r.value.1.entity, call.CasToken()) {
        ExecCommits(world, db, call, clock, openEscalation, r.value.0, r.value.1.entity.task);
      }
  }

  /** One operation at a time, a tombstone keeps its contents and its token for ever; not even
      `force` gets past it. */
  lemma {:induction false} SerialTombstoneFinality(world: World, db: Db, log: seq<Txn>, id: string)
    requires WellFormed(db) && GovernedRun(world, db, log) && Tombstoned(db, id)
    ensures TaskAt(ExecAll(world, db, log), id) == TaskAt(db, id)
  {
    if log != [] {
      var front, last := log[..|log| - 1], log[|log| - 1];
      SerialTombstoneFinality(world, db, front, id);
      ExecAllWellFormed(world, db, front);
      TombstoneStep(world, ExecAll(world, db, front), last, id);
    }
  }
}
