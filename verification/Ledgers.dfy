/** What the three append-only ledgers say about the tasks they record, over any run of
    operations executed one at a time. */
module Ledgers {
  import opened Wrappers
  import opened JsonValue
  import opened Entities
  import opened Database
  import opened Governed
  import Strings

  // ---- Runs of whole operations --------------------------------------------------------------

  /** A committed piece of work: a guarded task operation, or an unguarded put of any entity
      (creates of every kind, and the resolution of an escalation). */
  datatype Txn =
    | Guarded(call: Call, clock: Clock, openEscalation: bool)
    | Write(entity: Entity)

  ghost function ExecTxn(world: World, db: Db, txn: Txn): Db {
    match txn
    case Guarded(call, clock, openEscalation) => Exec(world, db, call, clock, openEscalation)
    case Write(e) => Transact(world.hash, db, Alone(e), None)
  }

  ghost function ExecAll(world: World, db: Db, log: seq<Txn>): Db {
    if log == [] then db else ExecTxn(world, ExecAll(world, db, log[..|log| - 1]), log[|log| - 1])
  }

  /** The one restriction on a run: a task is put unguarded only to create it. */
  predicate Creates(db: Db, txn: Txn) {
    txn.Write? && txn.entity.TaskRow? ==> txn.entity.Key() !in db.rows
  }

  ghost predicate GovernedRun(world: World, db: Db, log: seq<Txn>) {
    log == [] ||
    (GovernedRun(world, db, log[..|log| - 1]) && Creates(ExecAll(world, db, log[..|log| - 1]), log[|log| - 1]))
  }

  /** The task as it was when the run began or, if younger, as it was created. */
  ghost function BirthOf(world: World, db: Db, log: seq<Txn>, id: string): Option<Task> {
    if log == [] then TaskAt(db, id)
    else
      var front, last := log[..|log| - 1], log[|log| - 1];
      var before := BirthOf(world, db, front, id);
      if before.None? && last.Write? && last.entity.Key() == RowKey(Tasks, id) && last.entity.TaskRow?
         && PutSucceeds(ExecAll(world, db, front), last.entity, None)
      then Some(last.entity.task) else before
  }

  lemma {:induction false} ExecAllWellFormed(world: World, db: Db, log: seq<Txn>)
    requires WellFormed(db)
    ensures WellFormed(ExecAll(world, db, log))
  {
    if log != [] {
      var db' := ExecAll(world, db, log[..|log| - 1]);
      ExecAllWellFormed(world, db, log[..|log| - 1]);
      ExecTxnWellFormed(world, db', log[|log| - 1]);
    }
  }

  lemma ExecTxnWellFormed(world: World, db: Db, txn: Txn)
    requires WellFormed(db)
    ensures WellFormed(ExecTxn(world, db, txn))
  {
    match txn
    case Write(e) => TransactWellFormed(world.hash, db, Alone(e), None);
    case Guarded(call, clock, openEscalation) =>
      var r := Prepare(world, db, call, clock, openEscalation);
      if r.Success? {
        TransactWellFormed(world.hash, db, r.value.1, call.CasToken());
      }
  }

  // ---- What the ledgers say ------------------------------------------------------------------

  /** Replaying the edit rows of one card and field leads from `from` to `to`, and no row of
      theirs is a no-op. */
  predicate EditChain(rows: seq<EditRow>, id: string, f: EditField, from: Json, to: Json) {
    if rows == [] then from == to
    else
      var front, r := rows[..|rows| - 1], rows[|rows| - 1];
      if r.cardId == id && r.field == f
      then r.now == to && r.was != r.now && EditChain(front, id, f, from, r.was)
      else EditChain(front, id, f, from, to)
  }

  /** Each re-tier starts from the tier the one before it left, really changes it, stays in
      range and says truthfully whether oversight went down. Only an untiered card may have been
      given its first tier without a row. */
  predicate TierChain(rows: seq<TierRow>, id: string, from: Option<int>, to: Option<int>) {
    if rows == [] then from.None? || from == to
    else
      var front, r := rows[..|rows| - 1], rows[|rows| - 1];
      if r.cardId == id
      then
        && to == Some(r.newTier) && r.newTier != r.oldTier && ValidTier(r.newTier)
        && (r.reducesControl <==> r.newTier < r.oldTier)
        && TierChain(front, id, from, Some(r.oldTier))
      else TierChain(front, id, from, to)
  }

  /** Archive and unarchive rows strictly alternate, agree with the flag and carry a reason. */
  predicate ArchiveChain(rows: seq<ArchiveRow>, id: string, from: bool, to: bool) {
    if rows == [] then from == to
    else
      var front, r := rows[..|rows| - 1], rows[|rows| - 1];
      if r.cardId == id
      then to == r.action.DoArchive? && !Strings.Blank(r.reason) && ArchiveChain(front, id, from, !to)
      else ArchiveChain(front, id, from, to)
  }

  /** The three ledgers, taken together, lead from task `b` to task `t`. */
  ghost predicate Explain(tier: seq<TierRow>, archive: seq<ArchiveRow>, edit: seq<EditRow>, b: Task, t: Task) {
    && TierChain(tier, b.id, b.tier, t.tier)
    && ArchiveChain(archive, b.id, b.archivedAt.Some?, t.archivedAt.Some?)
    && forall f :: EditChain(edit, b.id, f, FieldOf(b, f), FieldOf(t, f))
  }

  ghost predicate Silent(tier: seq<TierRow>, archive: seq<ArchiveRow>, edit: seq<EditRow>, id: string) {
    && (forall r | r in tier :: r.cardId != id)
    && (forall r | r in archive :: r.cardId != id)
    && (forall r | r in edit :: r.cardId != id)
  }

  // ---- The same, read row by row -------------------------------------------------------------

  /** The value the edit rows of a card and field leave behind. */
  function Replay(rows: seq<EditRow>, id: string, f: EditField, from: Json): Json {
    if rows == [] then from
    else
      var front, r := rows[..|rows| - 1], rows[|rows| - 1];
      if r.cardId == id && r.field == f then r.now else Replay(front, id, f, from)
  }

  /** A row starts from what the rows before it replay to, and changes it. */
  predicate Continues(rows: seq<EditRow>, i: nat, id: string, f: EditField, from: Json)
    requires i < |rows|
  {
    rows[i].cardId == id && rows[i].field == f ==>
      rows[i].was == Replay(rows[..i], id, f, from) && rows[i].was != rows[i].now
  }

  predicate Linked(rows: seq<EditRow>, id: string, f: EditField, from: Json) {
    forall i | 0 <= i < |rows| :: Continues(rows, i, id, f, from)
  }

  lemma LinkedLast(rows: seq<EditRow>, id: string, f: EditField, from: Json)
    requires rows != []
    ensures var front, r := rows[..|rows| - 1], rows[|rows| - 1];
            Linked(rows, id, f, from) <==>
              && Linked(front, id, f, from)
              && (r.cardId == id && r.field == f ==> r.was == Replay(front, id, f, from) && r.was != r.now)
  {
    var front := rows[..|rows| - 1];
    forall i | 0 <= i < |front| ensures Continues(front, i, id, f, from) == Continues(rows, i, id, f, from) {
      assert front[..i] == rows[..i];
    }
    assert Continues(rows, |front|, id, f, from) == (forall i | |front| <= i < |rows| :: Continues(rows, i, id, f, from));
  }

  lemma ChainLast(rows: seq<EditRow>, id: string, f: EditField, from: Json, to: Json)
    requires rows != []
    ensures var front, r := rows[..|rows| - 1], rows[|rows| - 1];
            if r.cardId == id && r.field == f
            then
              && (EditChain(rows, id, f, from, to) <==> r.now == to && r.was != r.now && EditChain(front, id, f, from, r.was))
              && Replay(rows, id, f, from) == r.now
            else
              && (EditChain(rows, id, f, from, to) <==> EditChain(front, id, f, from, to))
              && Replay(rows, id, f, from) == Replay(front, id, f, from)
  {
  }

  /** A chain of edits is a replay that ends in `to`, each row linked to the rows before it. */
  lemma {:induction false} EditChainIsReplay(rows: seq<EditRow>, id: string, f: EditField, from: Json, to: Json)
    ensures EditChain(rows, id, f, from, to) <==> Replay(rows, id, f, from) == to && Linked(rows, id, f, from)
  {
    if rows != [] {
      var front, r := rows[..|rows| - 1], rows[|rows| - 1];
      LinkedLast(rows, id, f, from);
      ChainLast(rows, id, f, from, to);
      hide Linked, EditChain, Replay;
      EditChainIsReplay(front, id, f, from, if r.cardId == id && r.field == f then r.was else to);
    }
  }

  function CountOwn(rows: seq<ArchiveRow>, id: string): nat {
    if rows == [] then 0 else CountOwn(rows[..|rows| - 1], id) + (if rows[|rows| - 1].cardId == id then 1 else 0)
  }

  /** The flag after `n` changes of it. */
  predicate Flipped(from: bool, n: nat) {
    if n % 2 == 0 then from else !from
  }

  /** The rows of a card alternate - starting with an archive when it began unarchived - and the
      flag is what their number says. */
  lemma {:induction false} ArchiveChainAlternates(rows: seq<ArchiveRow>, id: string, from: bool, to: bool)
    ensures ArchiveChain(rows, id, from, to) <==>
            && to == Flipped(from, CountOwn(rows, id))
            && forall i | 0 <= i < |rows| && rows[i].cardId == id ::
                 rows[i].action.DoArchive? == !Flipped(from, CountOwn(rows[..i], id)) && !Strings.Blank(rows[i].reason)
  {
    hide Strings.Blank;
    if rows != [] {
      var front, r := rows[..|rows| - 1], rows[|rows| - 1];
      assert forall i | 0 <= i < |front| :: front[i] == rows[i] && front[..i] == rows[..i];
      ArchiveChainAlternates(front, id, from, if r.cardId == id then !to else to);
    }
  }

  /** The tier the last re-tier row of a card left. */
  function LastTier(rows: seq<TierRow>, id: string): Option<int> {
    if rows == [] then None
    else if rows[|rows| - 1].cardId == id then Some(rows[|rows| - 1].newTier)
    else LastTier(rows[..|rows| - 1], id)
  }

  predicate StartsFrom(before: Option<int>, from: Option<int>, tier: Option<int>) {
    if before.Some? then before == tier else from.None? || from == tier
  }

  /** Each row starts where the one before it ended, and the last one says what the tier is now. */
  lemma {:induction false} TierChainLinks(rows: seq<TierRow>, id: string, from: Option<int>, to: Option<int>)
    ensures TierChain(rows, id, from, to) <==>
            && StartsFrom(LastTier(rows, id), from, to)
            && forall i | 0 <= i < |rows| && rows[i].cardId == id ::
                 && StartsFrom(LastTier(rows[..i], id), from, Some(rows[i].oldTier))
                 && rows[i].newTier != rows[i].oldTier && ValidTier(rows[i].newTier)
                 && (rows[i].reducesControl <==> rows[i].newTier < rows[i].oldTier)
  {
    if rows != [] {
      var front, r := rows[..|rows| - 1], rows[|rows| - 1];
      assert forall i | 0 <= i < |front| :: front[i] == rows[i] && front[..i] == rows[..i];
      TierChainLinks(front, id, from, if r.cardId == id then Some(r.oldTier) else to);
    }
  }

  // ---- One operation -------------------------------------------------------------------------

  lemma {:induction false} ChangedRowsChain(rows: seq<EditRow>, t: Task, u: Task, fields: seq<EditField>, ts: string, f: EditField, from: Json)
    requires EditChain(rows, t.id, f, from, FieldOf(t, f))
    requires forall i, j | 0 <= i < j < |fields| :: fields[i] != fields[j]
    ensures EditChain(rows + ChangedRows(t, u, fields, ts), t.id, f, from, if f in fields then FieldOf(u, f) else FieldOf(t, f))
  {
    if fields == [] {
      assert rows + [] == rows;
    } else {
      var front, last := fields[..|fields| - 1], fields[|fields| - 1];
      assert fields == front + [last];
      ChangedRowsChain(rows, t, u, front, ts, f, from);
      var sofar := rows + ChangedRows(t, u, front, ts);
      var r := EditRow(t.id, last, FieldOf(t, last), FieldOf(u, last), EDIT_ACTOR, ts);
      assert rows + (ChangedRows(t, u, front, ts) + [r]) == sofar + [r];
      assert ChangedRows(t, u, fields, ts) == if r.was == r.now then ChangedRows(t, u, front, ts) else ChangedRows(t, u, front, ts) + [r];
      hide EditChain, FieldOf, ChangedRows;
      if r.was != r.now {
        EditChainSnoc(sofar, r, t.id, f, from, if f in front then FieldOf(u, f) else FieldOf(t, f));
      }
    }
  }

  lemma EditChainSnoc(rows: seq<EditRow>, r: EditRow, id: string, f: EditField, from: Json, to: Json)
    requires EditChain(rows, id, f, from, to) && r.was != r.now && r.cardId == id
    ensures r.field == f && r.was == to ==> EditChain(rows + [r], id, f, from, r.now)
    ensures r.field != f ==> EditChain(rows + [r], id, f, from, to)
  {
    assert (rows + [r])[..|rows|] == rows;
  }

  lemma {:induction false} EditChainSkips(rows: seq<EditRow>, more: seq<EditRow>, id: string, f: EditField, from: Json, to: Json)
    requires EditChain(rows, id, f, from, to)
    requires forall r | r in more :: r.cardId != id || r.field != f
    ensures EditChain(rows + more, id, f, from, to)
  {
    if more == [] {
      assert rows + more == rows;
    } else {
      assert (rows + more)[..|rows + more| - 1] == rows + more[..|more| - 1];
      EditChainSkips(rows, more[..|more| - 1], id, f, from, to);
    }
  }

  lemma {:induction false} ChangedRowsOwner(t: Task, u: Task, fields: seq<EditField>, ts: string)
    ensures forall r | r in ChangedRows(t, u, fields, ts) :: r.cardId == t.id
  {
    if fields != [] {
      ChangedRowsOwner(t, u, fields[..|fields| - 1], ts);
    }
  }

  lemma RowsOwner(clock: Clock, t: Task, u: Task, op: Op)
    ensures forall r | r in TierRows(clock, t, u, op) :: r.cardId == t.id
    ensures forall r | r in ArchiveRows(clock, t, op) :: r.cardId == t.id
    ensures forall r | r in EditRows(clock, t, u, op) :: r.cardId == t.id
  {
    ChangedRowsOwner(t, u, EDITED_FIELDS, clock.first);
  }

  lemma UpdateKeepsDeletedAt(t: Task, p: Patch)
    ensures FieldOf(Edited(t, p), DeletedAt) == FieldOf(t, DeletedAt)
  {
  }

  lemma AuditedOrDeletion(f: EditField)
    ensures f in EDITED_FIELDS || f == DeletedAt
    ensures DeletedAt !in EDITED_FIELDS
  {
    assert EDITED_FIELDS[0] == Title && EDITED_FIELDS[1] == Description && EDITED_FIELDS[2] == Effort;
    assert EDITED_FIELDS[3] == Impact && EDITED_FIELDS[4] == Due && EDITED_FIELDS[5] == DependsOn;
  }

  lemma {:induction false} UpdateEditStep(t: Task, p: Patch, ts: string, rows: seq<EditRow>, f: EditField, from: Json)
    requires EditChain(rows, t.id, f, from, FieldOf(t, f))
    ensures EditChain(rows + ChangedRows(t, Edited(t, p), EDITED_FIELDS, ts), t.id, f, from, FieldOf(Edited(t, p), f))
  {
    AuditedOrDeletion(f);
    UpdateKeepsDeletedAt(t, p);
    hide EditChain, FieldOf, Edited, ChangedRows;
    ChangedRowsChain(rows, t, Edited(t, p), EDITED_FIELDS, ts, f, from);
  }

  lemma {:induction false} DeleteEditStep(t: Task, u: Task, ts: string, rows: seq<EditRow>, f: EditField, from: Json)
    requires EditChain(rows, t.id, f, from, FieldOf(t, f)) && t.deletedAt.None? && u == t.(deletedAt := Some(ts))
    ensures EditChain(rows + [EditRow(t.id, DeletedAt, Null, OptStr(u.deletedAt), EDIT_ACTOR, ts)], t.id, f, from, FieldOf(u, f))
  {
    var more := [EditRow(t.id, DeletedAt, Null, OptStr(u.deletedAt), EDIT_ACTOR, ts)];
    if f == DeletedAt {
      assert (rows + more)[..|rows|] == rows;
    } else {
      hide EditChain;
      EditChainSkips(rows, more, t.id, f, from, FieldOf(t, f));
    }
  }

  lemma {:induction false} EditStep(world: World, clock: Clock, openEscalation: bool, t: Task, u: Task, op: Op, rows: seq<EditRow>, f: EditField, from: Json)
    requires TaskAfter(world, clock, openEscalation, t, op) == Success(u) && t.deletedAt.None?
    requires EditChain(rows, t.id, f, from, FieldOf(t, f))
    ensures EditChain(rows + EditRows(clock, t, u, op), t.id, f, from, FieldOf(u, f))
  {
    hide EditChain, ChangedRows, Edited;
    match op
    case Update(p) => UpdateEditStep(t, p, clock.first, rows, f, from);
    case SoftDelete => DeleteEditStep(t, u, clock.first, rows, f, from);
    case _ => assert rows + [] == rows;
  }

  lemma {:induction false} TierStep(world: World, clock: Clock, openEscalation: bool, t: Task, u: Task, op: Op, rows: seq<TierRow>, from: Option<int>)
    requires TaskAfter(world, clock, openEscalation, t, op) == Success(u)
    requires TierChain(rows, t.id, from, t.tier)
    ensures TierChain(rows + TierRows(clock, t, u, op), t.id, from, u.tier)
  {
    if op.Retier? {
      hide Strings.Blank;
      TierChainSnoc(rows, TierRows(clock, t, u, op)[0], t.id, from);
    } else {
      assert rows + TierRows(clock, t, u, op) == rows;
      hide TierChain, EditedMetadata;
      if t.tier.None? {
        TierChainFromUntiered(rows, t.id, from, u.tier);
      }
    }
  }

  lemma {:induction false} TierChainSnoc(rows: seq<TierRow>, r: TierRow, id: string, from: Option<int>)
    requires TierChain(rows, id, from, Some(r.oldTier)) && r.cardId == id
    requires r.newTier != r.oldTier && ValidTier(r.newTier) && (r.reducesControl <==> r.newTier < r.oldTier)
    ensures TierChain(rows + [r], id, from, Some(r.newTier))
  {
    assert (rows + [r])[..|rows|] == rows;
  }

  /** A card that is untiered now has no tier rows, so any first tier explains it. */
  lemma {:induction false} TierChainFromUntiered(rows: seq<TierRow>, id: string, from: Option<int>, to: Option<int>)
    requires TierChain(rows, id, from, None)
    ensures TierChain(rows, id, from, to)
  {
    if rows != [] {
      TierChainFromUntiered(rows[..|rows| - 1], id, from, to);
    }
  }

  lemma {:induction false} ArchiveStep(world: World, clock: Clock, openEscalation: bool, t: Task, u: Task, op: Op, rows: seq<ArchiveRow>, from: bool)
    requires TaskAfter(world, clock, openEscalation, t, op) == Success(u)
    requires ArchiveChain(rows, t.id, from, t.archivedAt.Some?)
    ensures ArchiveChain(rows + ArchiveRows(clock, t, op), t.id, from, u.archivedAt.Some?)
  {
    var more := ArchiveRows(clock, t, op);
    if more == [] {
      assert rows + more == rows;
    } else {
      assert (rows + more)[..|rows|] == rows;
    }
  }

  lemma ExplainStep(world: World, clock: Clock, openEscalation: bool, b: Task, t: Task, u: Task, op: Op,
                    tier: seq<TierRow>, archive: seq<ArchiveRow>, edit: seq<EditRow>)
    requires TaskAfter(world, clock, openEscalation, t, op) == Success(u) && t.deletedAt.None? && b.id == t.id
    requires Explain(tier, archive, edit, b, t)
    ensures Explain(tier + TierRows(clock, t, u, op), archive + ArchiveRows(clock, t, op), edit + EditRows(clock, t, u, op), b, u)
  {
    TierStep(world, clock, openEscalation, t, u, op, tier, b.tier);
    ArchiveStep(world, clock, openEscalation, t, u, op, archive, b.archivedAt.Some?);
    forall f ensures EditChain(edit + EditRows(clock, t, u, op), b.id, f, FieldOf(b, f), FieldOf(u, f)) {
      EditStep(world, clock, openEscalation, t, u, op, edit, f, FieldOf(b, f));
    }
  }

  lemma ExplainSkips(b: Task, t: Task, tier: seq<TierRow>, archive: seq<ArchiveRow>, edit: seq<EditRow>,
                     moreTier: seq<TierRow>, moreArchive: seq<ArchiveRow>, moreEdit: seq<EditRow>)
    requires Explain(tier, archive, edit, b, t) && Silent(moreTier, moreArchive, moreEdit, b.id)
    requires |moreTier| <= 1 && |moreArchive| <= 1
    ensures Explain(tier + moreTier, archive + moreArchive, edit + moreEdit, b, t)
  {
    assert |moreTier| == 0 ==> tier + moreTier == tier;
    assert |moreTier| == 1 ==> (tier + moreTier)[..|tier|] == tier && moreTier[0] in moreTier;
    assert |moreArchive| == 0 ==> archive + moreArchive == archive;
    assert |moreArchive| == 1 ==> (archive + moreArchive)[..|archive|] == archive && moreArchive[0] in moreArchive;
    forall f ensures EditChain(edit + moreEdit, b.id, f, FieldOf(b, f), FieldOf(t, f)) {
      EditChainSkips(edit, moreEdit, b.id, f, FieldOf(b, f), FieldOf(t, f));
    }
  }

  /** A silent ledger explains a task that has just been created. */
  lemma SilentExplainsBirth(b: Task, tier: seq<TierRow>, archive: seq<ArchiveRow>, edit: seq<EditRow>)
    requires Silent(tier, archive, edit, b.id)
    ensures Explain(tier, archive, edit, b, b)
  {
    SilentTier(tier, b.id, b.tier);
    SilentArchive(archive, b.id, b.archivedAt.Some?);
    forall f ensures EditChain(edit, b.id, f, FieldOf(b, f), FieldOf(b, f)) {
      EditChainSkips([], edit, b.id, f, FieldOf(b, f), FieldOf(b, f));
      assert [] + edit == edit;
    }
  }

  lemma {:induction false} SilentTier(rows: seq<TierRow>, id: string, v: Option<int>)
    requires forall r | r in rows :: r.cardId != id
    ensures TierChain(rows, id, v, v)
  {
    if rows != [] {
      SilentTier(rows[..|rows| - 1], id, v);
    }
  }

  lemma {:induction false} SilentArchive(rows: seq<ArchiveRow>, id: string, v: bool)
    requires forall r | r in rows :: r.cardId != id
    ensures ArchiveChain(rows, id, v, v)
  {
    if rows != [] {
      SilentArchive(rows[..|rows| - 1], id, v);
    }
  }
}
