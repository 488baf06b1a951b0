/** Interleaved runs whose task writes are tokened are equivalent to running the committed
    operations one at a time, so what holds of those holds of every interleaving. */
module Interleavings {
  import opened Wrappers
  import opened Entities
  import opened Tokens
  import opened Database
  import opened Governed
  import opened Ledgers
  import opened SerialRuns
  import opened Protocol

  /** The restriction on a step: no loads, guarded task writes carry a token and do not force,
      and a task is put unguarded only to create it. */
  ghost predicate Tokened(s: System, a: Action) {
    match a
    case Open(_) => true
    case Commit(_) => true
    case Load(_, _) => false
    case Guard(_, call, _, _) => call.CasToken().Some?
    case Put(_, e) => Creates(s.db, Write(e))
  }

  ghost predicate TokenedRun(world: World, s: System, actions: seq<Action>) {
    actions == [] ||
    (TokenedRun(world, s, actions[..|actions| - 1]) && Tokened(Run(world, s, actions[..|actions| - 1]), actions[|actions| - 1]))
  }

  /** The committed work of a run, in commit order. */
  ghost function LogOf(s: System, a: Action): seq<Txn> {
    match a
    case Commit(c) =>
      if Commits(s, c) then
        var p := PendingOf(s, c);
        [Guarded(p.call, p.clock, p.openEscalation)]
      else []
    case Put(c, e) => if Idle(s, c) && PutSucceeds(s.db, e, None) then [Write(e)] else []
    case _ => []
  }

  ghost function Log(world: World, s: System, actions: seq<Action>): seq<Txn> {
    if actions == [] then []
    else Log(world, s, actions[..|actions| - 1]) + LogOf(Run(world, s, actions[..|actions| - 1]), actions[|actions| - 1])
  }

  /** A system in the middle of a run: everybody who is waiting holds a token. */
  ghost predicate Tame(world: World, s: System) {
    && Inv(world, s) && s.db.hwm.Some?
    && forall c | Waiting(s, c) :: PendingOf(s, c).call.CasToken().Some?
  }

  /** Every run over a file can start here: once somebody has opened it, the system is tame. */
  lemma OpenedIsTame(world: World, s: System, c: ClientId)
    requires Initial(s)
    ensures Tame(world, Step(world, s, Open(c)))
    ensures var s' := Step(world, s, Open(c));
            s'.db.rows == s.db.rows && Idle(s', c) && s'.db.hwm == Some(s'.clients[c].counter)
  {
    assert Inv(world, s);
    InvStep(world, s, Open(c));
    hide Inv;
  }

  lemma TameStep(world: World, s: System, a: Action)
    requires Tame(world, s) && Tokened(s, a)
    ensures Tame(world, Step(world, s, a))
  {
    InvStep(world, s, a);
    SoundStep(world, s, a);
    hide Inv, Prepare;
    var s' := Step(world, s, a);
    forall d | Waiting(s', d) ensures PendingOf(s', d).call.CasToken().Some? {
      assert (a.Guard? && d == a.c) || (Waiting(s, d) && PendingOf(s', d) == PendingOf(s, d));
    }
  }

  /** Committing a tokened write is running its whole operation on the spot. */
  lemma CommitIsExec(world: World, s: System, c: ClientId)
    requires Inv(world, s) && Commits(s, c) && PendingOf(s, c).call.CasToken().Some?
    ensures var p := PendingOf(s, c);
            Step(world, s, Commit(c)).db == Exec(world, s.db, p.call, p.clock, p.openEscalation)
  {
    var p := PendingOf(s, c);
    CommittedRow(world, s, c);
    assert Prepared(world, p);
    hide Inv, TaskAfter, StagedFor;
    assert GuardMutable(s.db, p.call) == Success(p.read);
    assert Prepare(world, s.db, p.call, p.clock, p.openEscalation) == Success((p.read, p.staged));
  }

  /** The steps of one operation with nothing in between - forced, tokenless or neither - are what
      the facade's method does: one `Exec`, the other connections untouched. */
  lemma UninterruptedIsExec(world: World, s: System, c: ClientId, call: Call, clock: Clock, openEscalation: bool)
    requires Idle(s, c)
    ensures var s' := Run(world, s, [Guard(c, call, clock, openEscalation), Commit(c)]);
            && s'.db == Exec(world, s.db, call, clock, openEscalation)
            && Idle(s', c) && s'.clients - {c} == s.clients - {c}
  {
    var guard, commit := Guard(c, call, clock, openEscalation), Commit(c);
    assert [guard, commit][..1] == [guard] && [guard][..0] == [];
    assert Run(world, s, []) == s;
    assert Run(world, s, [guard]) == Step(world, s, guard);
    assert Run(world, s, [guard, commit]) == Step(world, Step(world, s, guard), commit);
    hide Prepare, Transact, Run, CounterAfterPut;
  }

  lemma StepIsSerial(world: World, s: System, a: Action)
    requires Tame(world, s) && Tokened(s, a)
    ensures Step(world, s, a).db == ExecAll(world, s.db, LogOf(s, a))
    ensures |LogOf(s, a)| <= 1 && (LogOf(s, a) != [] ==> Creates(s.db, LogOf(s, a)[0]))
  {
    match a
    case Commit(c) =>
      if Commits(s, c) {
        CommitIsExec(world, s, c);
        ExecOne(world, s.db, LogOf(s, a)[0]);
      }
    case Put(c, e) =>
      if Idle(s, c) && PutSucceeds(s.db, e, None) {
        ExecOne(world, s.db, Write(e));
      }
    case _ =>
  }

  lemma ExecOne(world: World, db: Db, txn: Txn)
    ensures ExecAll(world, db, [txn]) == ExecTxn(world, db, txn)
  {
    assert [txn][..0] == [];
    assert ExecAll(world, db, []) == db;
  }

  lemma {:induction false} ExecAllSnoc(world: World, db: Db, log: seq<Txn>, more: seq<Txn>)
    requires |more| <= 1
    ensures ExecAll(world, db, log + more) == ExecAll(world, ExecAll(world, db, log), more)
    ensures GovernedRun(world, db, log) && (more != [] ==> Creates(ExecAll(world, db, log), more[0])) ==> GovernedRun(world, db, log + more)
  {
    if more == [] {
      assert log + more == log;
    } else {
      assert (log + more)[..|log|] == log && more == [more[0]];
      ExecOne(world, ExecAll(world, db, log), more[0]);
    }
  }

  /** Serializability: after any tokened interleaving the tables and the ledgers are those of
      the committed operations run one at a time, in commit order. */
  lemma {:induction false} Serializable(world: World, s: System, actions: seq<Action>)
    requires Tame(world, s) && TokenedRun(world, s, actions)
    ensures Run(world, s, actions).db == ExecAll(world, s.db, Log(world, s, actions))
    ensures GovernedRun(world, s.db, Log(world, s, actions))
    ensures Tame(world, Run(world, s, actions))
  {
    if actions != [] {
      var front, a := actions[..|actions| - 1], actions[|actions| - 1];
      var mid := Run(world, s, front);
      Serializable(world, s, front);
      SerializableSnoc(world, s, front, a);
      TameStep(world, mid, a);
    }
  }

  lemma SerializableSnoc(world: World, s: System, front: seq<Action>, a: Action)
    requires var mid := Run(world, s, front); Tame(world, mid) && Tokened(mid, a)
    requires Run(world, s, front).db == ExecAll(world, s.db, Log(world, s, front)) && GovernedRun(world, s.db, Log(world, s, front))
    ensures var mid := Run(world, s, front);
            var log := Log(world, s, front) + LogOf(mid, a);
            Step(world, mid, a).db == ExecAll(world, s.db, log) && GovernedRun(world, s.db, log)
  {
    var mid := Run(world, s, front);
    StepIsSerial(world, mid, a);
    ExecAllSnoc(world, s.db, Log(world, s, front), LogOf(mid, a));
  }

  /** Ledger replay over interleavings: the rows appended during the run lead from each card's
      birth to its present value. */
  lemma LedgerReplay(world: World, s: System, actions: seq<Action>, id: string)
    requires Tame(world, s) && TokenedRun(world, s, actions)
    ensures Explained(s.db, Run(world, s, actions).db, BirthOf(world, s.db, Log(world, s, actions), id), id)
  {
    Serializable(world, s, actions);
    SerialLedgerReplay(world, s.db, Log(world, s, actions), id);
  }

  /** The same, row by row: in any tokened interleaving each audited field of a live or deleted
      card is what its edit rows replay to, its archive flag is what the number of its archive rows
      says, and its tier is what the last re-tier left. */
  lemma LedgersReplayToPresent(world: World, s: System, actions: seq<Action>, id: string)
    requires Tame(world, s) && TokenedRun(world, s, actions)
    requires TaskAt(Run(world, s, actions).db, id).Some?
    ensures var db := Run(world, s, actions).db;
            var t, birth := TaskAt(db, id).value, BirthOf(world, s.db, Log(world, s, actions), id);
            var edits := Since(db.editAudit, s.db.editAudit);
            && birth.Some?
            && (forall f :: Replay(edits, id, f, FieldOf(birth.value, f)) == FieldOf(t, f) && Linked(edits, id, f, FieldOf(birth.value, f)))
            && t.archivedAt.Some? == Flipped(birth.value.archivedAt.Some?, CountOwn(Since(db.archiveAudit, s.db.archiveAudit), id))
            && StartsFrom(LastTier(Since(db.tierAudit, s.db.tierAudit), id), birth.value.tier, t.tier)
  {
    LedgerReplay(world, s, actions, id);
    var db := Run(world, s, actions).db;
    var t, birth := TaskAt(db, id).value, BirthOf(world, s.db, Log(world, s, actions), id).value;
    var edits := Since(db.editAudit, s.db.editAudit);
    hide Run, Log, BirthOf, Since, Replay, Linked, FieldOf, EditChain, TierChain, ArchiveChain;
    forall f ensures Replay(edits, id, f, FieldOf(birth, f)) == FieldOf(t, f) && Linked(edits, id, f, FieldOf(birth, f)) {
      EditChainIsReplay(edits, id, f, FieldOf(birth, f), FieldOf(t, f));
    }
    ArchiveChainAlternates(Since(db.archiveAudit, s.db.archiveAudit), id, birth.archivedAt.Some?, t.archivedAt.Some?);
    TierChainLinks(Since(db.tierAudit, s.db.tierAudit), id, birth.tier, t.tier);
  }

  /** Tombstone finality over interleavings: contents and token of a deleted card never change,
      even when writes prepared before the deletion are still pending. */
  lemma TombstoneFinality(world: World, s: System, actions: seq<Action>, id: string)
    requires Tame(world, s) && TokenedRun(world, s, actions) && Tombstoned(s.db, id)
    ensures TaskAt(Run(world, s, actions).db, id) == TaskAt(s.db, id)
  {
    Serializable(world, s, actions);
    SerialTombstoneFinality(world, s.db, Log(world, s, actions), id);
  }

  // ---- Where the documentation promises more than the code does ----------------------------------

  /** A tombstone is documented as immutable even under `force`. A commit disturbs one exactly
      when the pending write carries no compare-and-swap token. */
  lemma CommitDisturbsTombstoneIff(world: World, s: System, c: ClientId, id: string)
    requires Inv(world, s) && Waiting(s, c) && Tombstoned(s.db, id) && s.db.hwm.Some? && s.db.hwm.value < SEQ_MAX
    ensures TaskAt(Step(world, s, Commit(c)).db, id) != TaskAt(s.db, id) <==>
            PendingOf(s, c).call.taskId == id && PendingOf(s, c).call.CasToken().None?
  {
    var p := PendingOf(s, c);
    PreparedKey(world, p);
    assert Prepared(world, p);
    if Commits(s, c) {
      CommittedRow(world, s, c);
      StampedDiffers(world.hash, s.db, p.staged.entity);
    }
    hide TaskAfter, StagedFor, Prepared;
  }

  lemma StampedDiffers(hash: Hash, db: Db, e: Entity)
    requires Bounded(db) && db.hwm.Some? && db.hwm.value < SEQ_MAX
    ensures e.Key() in db.rows ==> Stamped(hash, db.hwm.value + 1, e) != db.rows[e.Key()]
  {
    StampedPrefix(hash, db.hwm.value + 1, e);
  }

  lemma GuardLands(world: World, s: System, c: ClientId, call: Call, clock: Clock, t: Task, u: Task)
    requires Inv(world, s) && Idle(s, c) && TaskAt(s.db, call.taskId) == Some(t) && t.deletedAt.None?
    requires EarlyCheck(world, call).None? && (call.Forced() || call.expected == t.version)
    requires TaskAfter(world, clock, false, t, call.op) == Success(u)
    ensures var s' := Step(world, s, Guard(c, call, clock, false));
            && Inv(world, s') && s'.db == s.db && Waiting(s', c)
            && PendingOf(s', c) == Pending(call, clock, false, t, StagedFor(clock, t, u, call.op))
            && s'.clients.Keys == s.clients.Keys && (forall d | d in s.clients && d != c :: s'.clients[d] == s.clients[d])
  {
    InvStep(world, s, Guard(c, call, clock, false));
    hide Inv, EarlyCheck, TaskAfter, StagedFor;
  }

  lemma CommittedTask(world: World, s: System, c: ClientId)
    requires Inv(world, s) && Commits(s, c)
    ensures var p := PendingOf(s, c);
            var r := TaskAt(Step(world, s, Commit(c)).db, p.call.taskId);
            p.staged.entity.TaskRow? && r.Some? && r.value == p.staged.entity.task.(version := r.value.version)
  {
    CommittedRow(world, s, c);
    assert Prepared(world, PendingOf(s, c));
    PreparedKey(world, PendingOf(s, c));
  }

  /** A blind write committed after any other write of the same card stands. */
  lemma BlindWriteStands(world: World, s: System, d: ClientId, c: ClientId, id: string)
    requires Inv(world, s) && Commits(s, d) && Waiting(s, c) && c != d && s.db.hwm.value < SEQ_MAX - 1
    requires PendingOf(s, c).call.CasToken().None?
    requires PendingOf(s, c).call.taskId == PendingOf(s, d).call.taskId == id
    requires PendingOf(s, c).staged.entity.TaskRow? && PendingOf(s, d).staged.entity.TaskRow?
    ensures var s1 := Step(world, s, Commit(d));
            var s2 := Step(world, s1, Commit(c));
            var r1, r2 := TaskAt(s1.db, id), TaskAt(s2.db, id);
            && r1.Some? && r1.value.deletedAt == PendingOf(s, d).staged.entity.task.deletedAt
            && r2.Some? && r2.value.deletedAt == PendingOf(s, c).staged.entity.task.deletedAt
  {
    var s1 := Step(world, s, Commit(d));
    InvStep(world, s, Commit(d));
    CommittedTask(world, s, d);
    assert Waiting(s1, c) && PendingOf(s1, c) == PendingOf(s, c);
    assert s1.db.hwm == Some(s.db.hwm.value + 1);
    hide Inv, Step, Transact, PutView;
    assert Commits(s1, c);
    CommittedTask(world, s1, c);
  }

  lemma BothGuarded(world: World, s: System, c: ClientId, d: ClientId, t: Task, clock: Clock)
    requires Inv(world, s) && Idle(s, c) && Idle(s, d) && c != d && s.db.hwm.value < SEQ_MAX
    requires TaskAt(s.db, t.id) == Some(t) && t.deletedAt.None?
    ensures var s1 := Step(world, s, Guard(c, Call(t.id, SetState("judged"), t.version, true), clock, false));
            var s2 := Step(world, s1, Guard(d, Call(t.id, SoftDelete, t.version, false), clock, false));
            && Inv(world, s2) && s2.db == s.db && Waiting(s2, c) && Commits(s2, d)
            && PendingOf(s2, c).call == Call(t.id, SetState("judged"), t.version, true)
            && PendingOf(s2, d).call == Call(t.id, SoftDelete, t.version, false)
            && PendingOf(s2, c).staged.entity == TaskRow(t.(state := "judged"))
            && PendingOf(s2, d).staged.entity == TaskRow(t.(deletedAt := Some(clock.first)))
  {
    var force := Call(t.id, SetState("judged"), t.version, true);
    var delete := Call(t.id, SoftDelete, t.version, false);
    assert STATES[3] == "judged";
    var s1 := Step(world, s, Guard(c, force, clock, false));
    GuardLands(world, s, c, force, clock, t, t.(state := "judged"));
    GuardLands(world, s1, d, delete, clock, t, t.(deletedAt := Some(clock.first)));
    hide Inv, Step;
  }

  /** The witness: both calls carry the current token, one of them forces. If it read the card
      before the deletion committed, it brings the card back to life. */
  lemma ForcedWriteResurrects(world: World, s: System, c: ClientId, d: ClientId, t: Task, clock: Clock)
    requires Inv(world, s) && Idle(s, c) && Idle(s, d) && c != d && s.db.hwm.value < SEQ_MAX - 1
    requires TaskAt(s.db, t.id) == Some(t) && t.deletedAt.None?
    ensures var forced := Guard(c, Call(t.id, SetState("judged"), t.version, true), clock, false);
            var delete := Guard(d, Call(t.id, SoftDelete, t.version, false), clock, false);
            var deleted := Run(world, s, [forced, delete, Commit(d)]);
            var after := Run(world, s, [forced, delete, Commit(d), Commit(c)]);
            Tombstoned(deleted.db, t.id) && TaskAt(after.db, t.id).Some? && !Tombstoned(after.db, t.id)
  {
    var forced := Guard(c, Call(t.id, SetState("judged"), t.version, true), clock, false);
    var delete := Guard(d, Call(t.id, SoftDelete, t.version, false), clock, false);
    RunOfFour(world, s, forced, delete, Commit(d), Commit(c));
    BothGuarded(world, s, c, d, t, clock);
    hide Inv, Step, Run, Commits, Waiting, Idle;
    BlindWriteStands(world, Step(world, Step(world, s, forced), delete), d, c, t.id);
  }

  lemma RunOfFour(world: World, s: System, a: Action, b: Action, c: Action, d: Action)
    ensures Run(world, s, [a, b, c]) == Step(world, Step(world, Step(world, s, a), b), c)
    ensures Run(world, s, [a, b, c, d]) == Step(world, Step(world, Step(world, Step(world, s, a), b), c), d)
  {
    hide Step;
    assert [a, b, c, d][..3] == [a, b, c] && [a, b, c][..2] == [a, b] && [a, b][..1] == [a] && [a][..0] == [];
    assert Run(world, s, []) == s;
    assert Run(world, s, [a]) == Step(world, s, a);
    assert Run(world, s, [a, b]) == Step(world, Step(world, s, a), b);
  }
}
