/** What the caller of each write path is told, and what it leaves in the file, said of the stored
    row, the arguments and the mark alone. */
module Outcomes {
  import opened Wrappers
  import opened Strings
  import opened JsonValue
  import opened Entities
  import opened Tokens
  import opened Database
  import opened CardKeys
  import opened Governed
  import opened SpineFacade
  import Admission

  type Answer = Result<Task, OpError>

  // ---- The guard -----------------------------------------------------------------------------------

  /** A live row, and force, no token, or the row's own token. */
  predicate MayWrite(t: Task, expected: Option<string>, forced: bool) {
    t.deletedAt.None? && (forced || expected.None? || expected == t.version)
  }

  /** The write gets past the guard. */
  predicate Reaches(db: Db, id: string, expected: Option<string>, forced: bool) {
    TaskAt(db, id).Some? && MayWrite(TaskAt(db, id).value, expected, forced)
  }

  lemma GuardOutcome(db: Db, call: Call)
    ensures var forced := call.force && (call.op.SetState? || call.op.Update? || call.op.Move?);
            match TaskAt(db, call.taskId)
            case None => GuardMutable(db, call) == Failure(NotFound)
            case Some(t) =>
              GuardMutable(db, call) == if MayWrite(t, call.expected, forced) then Success(t) else Failure(Conflict(t))
  {
  }

  /** A missing row is not found, and a row that may not be written is a conflict that carries it -
      once what comes before the guard is in order. */
  ghost predicate RowAnswers(r: Answer, inOrder: bool, db: Db, id: string, expected: Option<string>, forced: bool) {
    && (r == Failure(NotFound) <==> inOrder && TaskAt(db, id).None?)
    && (forall t :: r == Failure(Conflict(t)) <==> inOrder && TaskAt(db, id) == Some(t) && !MayWrite(t, expected, forced))
  }

  lemma RowAnswersAre(r: Answer, inOrder: bool, db: Db, id: string, expected: Option<string>, forced: bool)
    requires RowAnswers(r, inOrder, db, id, expected, forced)
    ensures r == Failure(NotFound) <==> inOrder && TaskAt(db, id).None?
    ensures r.Failure? && r.error.Conflict? <==> inOrder && TaskAt(db, id).Some? && !MayWrite(TaskAt(db, id).value, expected, forced)
    ensures r.Failure? && r.error.Conflict? ==> r.error.current == TaskAt(db, id).value
  {
    hide TaskAt, MayWrite;
  }

  // ---- The committed write -------------------------------------------------------------------------

  /** The file after the write of card `u`: its row under a fresh token, the mark one further, the
      given rows at the end of the ledgers, nothing else. A write by token keeps the row's place in
      the scan, a blind one moves it to the end. */
  ghost predicate Wrote(hash: Hash, db: Db, db': Db, u: Task, byToken: bool,
                        tier: seq<TierRow>, archive: seq<ArchiveRow>, edit: seq<EditRow>) {
    var k := RowKey(Tasks, u.id);
    && db.hwm.Some? && db'.hwm == Some(db.hwm.value + 1)
    && u.version == Some(Decimal(db.hwm.value + 1) + ":" + hash(TaskRow(u.(version := None))))
    && db'.rows == db.rows[k := TaskRow(u)]
    && db'.order == (if byToken then db.order else Without(db.order, k) + [k])
    && db'.tierAudit == db.tierAudit + tier && db'.archiveAudit == db.archiveAudit + archive && db'.editAudit == db.editAudit + edit
  }

  lemma WroteRow(hash: Hash, db: Db, db': Db, u: Task, byToken: bool, tier: seq<TierRow>, archive: seq<ArchiveRow>, edit: seq<EditRow>)
    requires Wrote(hash, db, db', u, byToken, tier, archive, edit)
    ensures TaskAt(db', u.id) == Some(u)
  {
  }

  lemma TransactWrites(hash: Hash, db: Db, st: Staged, expected: Option<string>)
    requires st.entity.TaskRow? && PutSucceeds(db, st.entity, expected)
    ensures var row := Stamped(hash, db.hwm.value + 1, st.entity);
            row.TaskRow? && Wrote(hash, db, Transact(hash, db, st, expected), row.task, expected.Some?, st.tierRows, st.archiveRows, st.editRows)
  {
    StampedToken(hash, db.hwm.value + 1, st.entity);
    PutViewIs(hash, WithLedgers(db, st), st.entity, expected);
    hide MakeVersion, Decimal;
  }

  /** A guarded operation that succeeds commits its plan. */
  lemma Landed(world: World, db: Db, call: Call, clock: Clock, open: bool, t: Task, u: Task)
    requires db.hwm.Some? && Prepare(world, db, call, clock, open) == Success((t, StagedFor(clock, t, u, call.op)))
    ensures var r := ExecResult(world, db, call, clock, open);
            && (r.Success? <==> PutSucceeds(db, TaskRow(u), call.CasToken()))
            && (r.Failure? ==> r.error == OutOfSeq)
            && (r.Success? ==>
                  && r.value == u.(version := r.value.version)
                  && Wrote(world.hash, db, Exec(world, db, call, clock, open), r.value, call.CasToken().Some?,
                           TierRows(clock, t, u, call.op), ArchiveRows(clock, t, call.op), EditRows(clock, t, u, call.op)))
  {
    hide Prepare, TierRows, ArchiveRows, EditRows, Wrote;
    if PutSucceeds(db, TaskRow(u), call.CasToken()) {
      TransactWrites(world.hash, db, StagedFor(clock, t, u, call.op), call.CasToken());
    }
  }

  /** Past the guard only the seq space can stop the put. */
  lemma PutGetsThrough(db: Db, call: Call, u: Task)
    requires WellFormed(db) && db.hwm.Some? && GuardMutable(db, call).Success? && u.id == call.taskId
    ensures PutSucceeds(db, TaskRow(u), call.CasToken()) <==> db.hwm.value < SEQ_MAX
    ensures GuardMutable(db, call).value.id == call.taskId
  {
    var k := RowKey(Tasks, call.taskId);
    assert db.rows[k].Key() == k;
  }

  /** `u` is planned for the guarded row of the call. */
  lemma Planned(world: World, db: Db, call: Call, clock: Clock, open: bool, u: Task)
    requires WellFormed(db) && db.hwm.Some? && EarlyCheck(world, call).None? && GuardMutable(db, call).Success?
    requires TaskAfter(world, clock, open, GuardMutable(db, call).value, call.op) == Success(u)
    ensures var r, t := ExecResult(world, db, call, clock, open), GuardMutable(db, call).value;
            && (r.Success? <==> db.hwm.value < SEQ_MAX)
            && (r.Failure? ==> r.error == OutOfSeq)
            && (r.Success? ==>
                  && r.value == u.(version := r.value.version)
                  && Wrote(world.hash, db, Exec(world, db, call, clock, open), r.value, call.CasToken().Some?,
                           TierRows(clock, t, u, call.op), ArchiveRows(clock, t, call.op), EditRows(clock, t, u, call.op)))
  {
    var t := GuardMutable(db, call).value;
    TaskAfterKeepsIdentity(world, clock, open, t, call.op);
    PutGetsThrough(db, call, TaskRow(u).task);
    assert Prepare(world, db, call, clock, open) == Success((t, StagedFor(clock, t, u, call.op)));
    hide *;
    Landed(world, db, call, clock, open, t, u);
  }

  lemma Refused(world: World, db: Db, call: Call, clock: Clock, open: bool)
    requires EarlyCheck(world, call).Some? || GuardMutable(db, call).Failure?
             || TaskAfter(world, clock, open, GuardMutable(db, call).value, call.op).Failure?
    ensures ExecResult(world, db, call, clock, open) ==
              if EarlyCheck(world, call).Some? then Failure(Invalid(EarlyCheck(world, call).value))
              else if GuardMutable(db, call).Failure? then Failure(GuardMutable(db, call).error)
              else Failure(Invalid(TaskAfter(world, clock, open, GuardMutable(db, call).value, call.op).error))
  {
    hide EarlyCheck, GuardMutable, TaskAfter;
  }

  predicate ForcesPast(call: Call) {
    call.force && (call.op.SetState? || call.op.Update? || call.op.Move?)
  }

  /** What all guarded operations have in common: first what is checked before the row is read, then
      the row, then what the operation asks of it, then the seq space; all of it or nothing. */
  lemma Shape(world: World, db: Db, call: Call, clock: Clock, open: bool)
    requires WellFormed(db) && db.hwm.Some?
    ensures var r, db' := ExecResult(world, db, call, clock, open), Exec(world, db, call, clock, open);
            var early := EarlyCheck(world, call);
            && (early.Some? ==> r == Failure(Invalid(early.value)))
            && RowAnswers(r, early.None?, db, call.taskId, call.expected, ForcesPast(call))
            && (r.Failure? ==> db' == db)
            && (early.None? && Reaches(db, call.taskId, call.expected, ForcesPast(call)) ==>
                  var t := TaskAt(db, call.taskId).value;
                  t.id == call.taskId &&
                  match TaskAfter(world, clock, open, t, call.op)
                  case Failure(why) => r == Failure(Invalid(why))
                  case Success(u) =>
                    if db.hwm.value >= SEQ_MAX then r == Failure(OutOfSeq)
                    else
                      && r.Success? && r.value == u.(version := r.value.version)
                      && Wrote(world.hash, db, db', r.value, call.expected.Some? && !ForcesPast(call),
                               TierRows(clock, t, u, call.op), ArchiveRows(clock, t, call.op), EditRows(clock, t, u, call.op)))
  {
    hide *;
    AllOrNothing(world, db, call, clock, open);
    GuardLetsThrough(db, call);
    var early, guarded := EarlyCheck(world, call), GuardMutable(db, call);
    if early.Some? || guarded.Failure? {
      Refused(world, db, call, clock, open);
      RowRefuses(world, db, call, clock, open);
    } else {
      var planned := TaskAfter(world, clock, open, guarded.value, call.op);
      PutGetsThrough(db, call, guarded.value);
      if planned.Success? {
        Planned(world, db, call, clock, open, planned.value);
      } else {
        Refused(world, db, call, clock, open);
      }
      NoRowAnswer(ExecResult(world, db, call, clock, open), db, call);
    }
  }

  lemma GuardLetsThrough(db: Db, call: Call)
    requires WellFormed(db)
    ensures GuardMutable(db, call).Success? ==> GuardMutable(db, call).value.id == call.taskId
    ensures Reaches(db, call.taskId, call.expected, ForcesPast(call)) <==> GuardMutable(db, call).Success?
    ensures GuardMutable(db, call).Success? ==> TaskAt(db, call.taskId) == Some(GuardMutable(db, call).value)
    ensures call.CasToken().Some? <==> call.expected.Some? && !ForcesPast(call)
  {
    GuardOutcome(db, call);
    var k := RowKey(Tasks, call.taskId);
    assert k in db.rows ==> db.rows[k].Key() == k;
  }

  lemma RowRefuses(world: World, db: Db, call: Call, clock: Clock, open: bool)
    requires EarlyCheck(world, call).Some? || GuardMutable(db, call).Failure?
    ensures RowAnswers(ExecResult(world, db, call, clock, open), EarlyCheck(world, call).None?, db, call.taskId, call.expected, ForcesPast(call))
  {
    GuardOutcome(db, call);
    Refused(world, db, call, clock, open);
    hide ExecResult, EarlyCheck, GuardMutable, TaskAt;
  }

  lemma NoRowAnswer(r: Answer, db: Db, call: Call)
    requires Reaches(db, call.taskId, call.expected, ForcesPast(call)) && (r.Failure? ==> r.error.Invalid? || r.error.OutOfSeq?)
    ensures RowAnswers(r, true, db, call.taskId, call.expected, ForcesPast(call))
  {
    hide TaskAt;
  }

  // ---- Columns and order -----------------------------------------------------------------------------

  lemma SetStateOutcome(world: World, db: Db, id: string, state: string, expected: Option<string>, force: bool, clock: Clock)
    requires WellFormed(db) && db.hwm.Some?
    ensures var call := Call(id, SetState(state), expected, force);
            var r, db' := ExecResult(world, db, call, clock, false), Exec(world, db, call, clock, false);
            var due := state in STATES && Reaches(db, id, expected, force);
            && (r == Failure(Invalid(UnknownState)) <==> state !in STATES)
            && RowAnswers(r, state in STATES, db, id, expected, force)
            && (r == Failure(OutOfSeq) <==> due && db.hwm.value >= SEQ_MAX)
            && (r.Success? <==> due && db.hwm.value < SEQ_MAX)
            && (r.Failure? ==> db' == db)
            && (r.Success? ==>
                  && r.value == TaskAt(db, id).value.(state := state, version := r.value.version)
                  && Wrote(world.hash, db, db', r.value, expected.Some? && !force, [], [], []))
  {
    Shape(world, db, Call(id, SetState(state), expected, force), clock, false);
    hide Exec, ExecResult, Wrote, WellFormed, TaskAt;
  }

  lemma MoveOutcome(world: World, db: Db, id: string, state: string, order: Option<string>, expected: Option<string>, force: bool, clock: Clock)
    requires WellFormed(db) && db.hwm.Some?
    ensures var call := Call(id, Move(state, order), expected, force);
            var r, db' := ExecResult(world, db, call, clock, false), Exec(world, db, call, clock, false);
            var due := state in STATES && Reaches(db, id, expected, force);
            && (r == Failure(Invalid(UnknownState)) <==> state !in STATES)
            && RowAnswers(r, state in STATES, db, id, expected, force)
            && (r == Failure(OutOfSeq) <==> due && db.hwm.value >= SEQ_MAX)
            && (r.Success? <==> due && db.hwm.value < SEQ_MAX)
            && (r.Failure? ==> db' == db)
            && (r.Success? ==>
                  var t := TaskAt(db, id).value;
                  && r.value == t.(state := state, order := r.value.order, version := r.value.version)
                  && (order == Some(r.value.order) || (order.None? && r.value.order == t.order))
                  && Wrote(world.hash, db, db', r.value, expected.Some? && !force, [], [], []))
  {
    Shape(world, db, Call(id, Move(state, order), expected, force), clock, false);
    hide Exec, ExecResult, Wrote, WellFormed, TaskAt;
  }

  /** A deletion has no way past the token, and leaves one edit row. */
  lemma SoftDeleteOutcome(world: World, db: Db, id: string, expected: Option<string>, clock: Clock)
    requires WellFormed(db) && db.hwm.Some?
    ensures var call := Call(id, SoftDelete, expected, false);
            var r, db' := ExecResult(world, db, call, clock, false), Exec(world, db, call, clock, false);
            var due := Reaches(db, id, expected, false);
            && RowAnswers(r, true, db, id, expected, false)
            && (r == Failure(OutOfSeq) <==> due && db.hwm.value >= SEQ_MAX)
            && (r.Success? <==> due && db.hwm.value < SEQ_MAX)
            && (r.Failure? ==> db' == db)
            && (r.Success? ==>
                  && r.value == TaskAt(db, id).value.(deletedAt := Some(clock.first), version := r.value.version)
                  && Wrote(world.hash, db, db', r.value, expected.Some?, [], [],
                           [EditRow(id, DeletedAt, Null, Str(clock.first), "client:bearer", clock.first)]))
  {
    Shape(world, db, Call(id, SoftDelete, expected, false), clock, false);
    hide Exec, ExecResult, Wrote, WellFormed, TaskAt;
  }

  // ---- Governed controls -----------------------------------------------------------------------------

  /** A re-tier refuses, in this order, an untiered card, a tier out of range, the tier it has, and a
      blank reason. */
  lemma RetierOutcome(world: World, db: Db, id: string, tier: int, reason: string, actor: string, expected: Option<string>, clock: Clock)
    requires WellFormed(db) && db.hwm.Some?
    ensures var call := Call(id, Retier(tier, reason, actor), expected, false);
            var r, db' := ExecResult(world, db, call, clock, false), Exec(world, db, call, clock, false);
            var reached := Reaches(db, id, expected, false);
            var tiered := reached && TaskAt(db, id).value.tier.Some?;
            var inRange := tiered && 1 <= tier <= 4;
            var changes := inRange && TaskAt(db, id).value.tier != Some(tier);
            var due := changes && !Blank(reason);
            && RowAnswers(r, true, db, id, expected, false)
            && (r == Failure(Invalid(Untiered)) <==> reached && !tiered)
            && (r == Failure(Invalid(TierRange)) <==> tiered && !inRange)
            && (r == Failure(Invalid(SameTier)) <==> inRange && !changes)
            && (r == Failure(Invalid(ReasonRequired)) <==> changes && Blank(reason))
            && (r == Failure(OutOfSeq) <==> due && db.hwm.value >= SEQ_MAX)
            && (r.Success? <==> due && db.hwm.value < SEQ_MAX)
            && (r.Failure? ==> db' == db)
            && (r.Success? ==>
                  var was := TaskAt(db, id).value.tier.value;
                  && r.value == TaskAt(db, id).value.(tier := Some(tier), version := r.value.version)
                  && Wrote(world.hash, db, db', r.value, expected.Some?,
                           [TierRow(id, was, tier, tier < was, actor, reason, clock.first)], [], []))
  {
    Shape(world, db, Call(id, Retier(tier, reason, actor), expected, false), clock, false);
    hide Exec, ExecResult, Wrote, WellFormed, TaskAt, Blank;
  }

  /** Some stored escalation of the card is live and unresolved. */
  ghost predicate AwaitsTheHuman(db: Db, id: string) {
    exists e: Escalation :: RowKey(Escalations, e.id) in db.rows && db.rows[RowKey(Escalations, e.id)] == EscalationRow(e)
      && e.taskId == id && e.deletedAt.None? && e.resolvedAt.None?
  }

  lemma GateIsThat(db: Db, id: string)
    requires WellFormed(db)
    ensures Governed.HasOpenEscalation(db, id) <==> AwaitsTheHuman(db, id)
  {
    if Governed.HasOpenEscalation(db, id) {
      var k :| k in db.rows && db.rows[k].EscalationRow? && IsOpen(db.rows[k].escalation, id);
      assert db.rows[k].Key() == k;
    }
    if AwaitsTheHuman(db, id) {
      var e: Escalation :| RowKey(Escalations, e.id) in db.rows && db.rows[RowKey(Escalations, e.id)] == EscalationRow(e)
        && e.taskId == id && e.deletedAt.None? && e.resolvedAt.None?;
      assert IsOpen(db.rows[RowKey(Escalations, e.id)].escalation, id);
    }
  }

  /** The archive, given what the gate saw. */
  lemma GatedOutcome(world: World, db: Db, id: string, reason: string, actor: string, expected: Option<string>, clock: Clock, open: bool)
    requires WellFormed(db) && db.hwm.Some?
    ensures var call := Call(id, Archive(reason, actor), expected, false);
            var r, db' := ExecResult(world, db, call, clock, open), Exec(world, db, call, clock, open);
            var reached := Reaches(db, id, expected, false);
            var active := reached && TaskAt(db, id).value.archivedAt.None?;
            var settled := active && !open;
            var due := settled && !Blank(reason);
            && RowAnswers(r, true, db, id, expected, false)
            && (r == Failure(Invalid(AlreadyArchived)) <==> reached && !active)
            && (r == Failure(Invalid(OpenEscalation)) <==> active && open)
            && (r == Failure(Invalid(ReasonRequired)) <==> settled && Blank(reason))
            && (r == Failure(OutOfSeq) <==> due && db.hwm.value >= SEQ_MAX)
            && (r.Success? <==> due && db.hwm.value < SEQ_MAX)
            && (r.Failure? ==> db' == db)
            && (r.Success? ==>
                  && r.value == TaskAt(db, id).value.(archivedAt := Some(clock.second), version := r.value.version)
                  && Wrote(world.hash, db, db', r.value, expected.Some?,
                           [], [ArchiveRow(id, DoArchive, actor, reason, clock.first)], []))
  {
    Shape(world, db, Call(id, Archive(reason, actor), expected, false), clock, open);
    hide Exec, ExecResult, Wrote, WellFormed, TaskAt, Blank;
  }

  /** An archive refuses, in this order, an archived card, one that awaits the human, and a blank
      reason. */
  lemma ArchiveOutcome(world: World, db: Db, id: string, reason: string, actor: string, expected: Option<string>, clock: Clock)
    requires WellFormed(db) && db.hwm.Some?
    ensures var call, open := Call(id, Archive(reason, actor), expected, false), Governed.HasOpenEscalation(db, id);
            var r, db' := ExecResult(world, db, call, clock, open), Exec(world, db, call, clock, open);
            var reached := Reaches(db, id, expected, false);
            var active := reached && TaskAt(db, id).value.archivedAt.None?;
            var settled := active && !AwaitsTheHuman(db, id);
            var due := settled && !Blank(reason);
            && RowAnswers(r, true, db, id, expected, false)
            && (r == Failure(Invalid(AlreadyArchived)) <==> reached && !active)
            && (r == Failure(Invalid(OpenEscalation)) <==> active && AwaitsTheHuman(db, id))
            && (r == Failure(Invalid(ReasonRequired)) <==> settled && Blank(reason))
            && (r == Failure(OutOfSeq) <==> due && db.hwm.value >= SEQ_MAX)
            && (r.Success? <==> due && db.hwm.value < SEQ_MAX)
            && (r.Failure? ==> db' == db)
            && (r.Success? ==>
                  && r.value == TaskAt(db, id).value.(archivedAt := Some(clock.second), version := r.value.version)
                  && Wrote(world.hash, db, db', r.value, expected.Some?,
                           [], [ArchiveRow(id, DoArchive, actor, reason, clock.first)], []))
  {
    GateIsThat(db, id);
    hide *;
    GatedOutcome(world, db, id, reason, actor, expected, clock, Governed.HasOpenEscalation(db, id));
  }

  /** An unarchive refuses, in this order, a card that is not archived and a blank reason. */
  lemma UnarchiveOutcome(world: World, db: Db, id: string, reason: string, actor: string, expected: Option<string>, clock: Clock)
    requires WellFormed(db) && db.hwm.Some?
    ensures var call := Call(id, Unarchive(reason, actor), expected, false);
            var r, db' := ExecResult(world, db, call, clock, false), Exec(world, db, call, clock, false);
            var reached := Reaches(db, id, expected, false);
            var archived := reached && TaskAt(db, id).value.archivedAt.Some?;
            var due := archived && !Blank(reason);
            && RowAnswers(r, true, db, id, expected, false)
            && (r == Failure(Invalid(NotArchived)) <==> reached && !archived)
            && (r == Failure(Invalid(ReasonRequired)) <==> archived && Blank(reason))
            && (r == Failure(OutOfSeq) <==> due && db.hwm.value >= SEQ_MAX)
            && (r.Success? <==> due && db.hwm.value < SEQ_MAX)
            && (r.Failure? ==> db' == db)
            && (r.Success? ==>
                  && r.value == TaskAt(db, id).value.(archivedAt := None, version := r.value.version)
                  && Wrote(world.hash, db, db', r.value, expected.Some?,
                           [], [ArchiveRow(id, DoUnarchive, actor, reason, clock.first)], []))
  {
    Shape(world, db, Call(id, Unarchive(reason, actor), expected, false), clock, false);
    hide Exec, ExecResult, Wrote, WellFormed, TaskAt, Blank;
  }

  // ---- The edit ----------------------------------------------------------------------------------------

  predicate AsksSomething(p: Patch) {
    || p.title.Some? || !p.acceptanceCriteria.Null? || p.description.Given? || p.effort.Given? || p.impact.Given?
    || p.due.Given? || p.dependsOn.Given? || p.metadata.Given? || p.tier.Some?
  }

  predicate TierInRange(p: Patch) {
    p.tier.Some? ==> 1 <= p.tier.value <= 4
  }

  predicate TitleSaysSomething(p: Patch) {
    p.title.Some? ==> !Blank(p.title.value)
  }

  predicate DescriptionFits(p: Patch) {
    p.description.Given? && p.description.value.Some? ==> |p.description.value.value| <= 16384
  }

  predicate DueIsADate(world: World, p: Patch) {
    p.due.Given? && p.due.value.Some? ==> world.validDue(p.due.value.value)
  }

  predicate DependsOnNames(p: Patch) {
    p.dependsOn.Given? ==> "" !in p.dependsOn.value
  }

  predicate TierIsFree(t: Task, p: Patch) {
    p.tier.Some? && t.tier.Some? ==> p.tier.value == t.tier.value
  }

  predicate NotOnItself(t: Task, p: Patch) {
    p.dependsOn.Given? ==> t.id !in p.dependsOn.value
  }

  /** Null removes, anything else sets, and nothing that a modelled field shows is kept. */
  function MetadataAfter(stored: JsonObject, given: Given<JsonObject>): JsonObject {
    var patch := if given.Given? then given.value else map[];
    map k | k in stored.Keys + patch.Keys && k !in PROTECTED_CARD_KEYS && (k in patch ==> !patch[k].Null?)
      :: if k in patch then patch[k] else stored[k]
  }

  ghost predicate MetadataFits(world: World, t: Task, p: Patch) {
    p.metadata.Given? ==> Admission.MetadataAdmissible(world.size, MetadataAfter(t.metadata, p.metadata))
  }

  lemma MetadataAfterIs(t: Task, p: Patch)
    ensures EditedMetadata(t, p) == MetadataAfter(t.metadata, p.metadata)
  {
    hide PROTECTED_CARD_KEYS;
  }

  /** The checks of the patch alone, in the order they are made. */
  lemma EarlyOutcome(world: World, id: string, p: Patch, expected: Option<string>, force: bool)
    ensures var early := EarlyCheck(world, Call(id, Update(p), expected, force));
            var tier := AsksSomething(p) && TierInRange(p);
            var title := tier && TitleSaysSomething(p);
            var description := title && DescriptionFits(p);
            var due := description && DueIsADate(world, p);
            var depends := due && DependsOnNames(p);
            && (early == Some(NothingToChange) <==> !AsksSomething(p))
            && (early == Some(TierRange) <==> AsksSomething(p) && !tier)
            && (early == Some(EmptyTitle) <==> tier && !title)
            && (early == Some(DescriptionTooLong) <==> title && !description)
            && (early == Some(BadDue) <==> description && !due)
            && (early == Some(BadDependsOn) <==> due && !depends)
            && (early == Some(TokenRequired) <==> depends && expected.None?)
            && (early == None <==> depends && expected.Some?)
            && early in {None, Some(NothingToChange), Some(TierRange), Some(EmptyTitle), Some(DescriptionTooLong), Some(BadDue),
                         Some(BadDependsOn), Some(TokenRequired)}
  {
    assert p == EmptyPatch <==> !AsksSomething(p);
    hide Blank;
  }

  /** Every field given replaces the stored one, every other one stays. */
  predicate EditedAs(t: Task, p: Patch, u: Task) {
    && u == t.(title := u.title, acceptanceCriteria := u.acceptanceCriteria, description := u.description, effort := u.effort,
               impact := u.impact, due := u.due, dependsOn := u.dependsOn, metadata := u.metadata, tier := u.tier, version := u.version)
    && u.title == (if p.title.Some? then p.title.value else t.title)
    && u.acceptanceCriteria == (if p.acceptanceCriteria != Null then p.acceptanceCriteria else t.acceptanceCriteria)
    && u.description == (if p.description.Given? then p.description.value else t.description)
    && u.effort == (if p.effort.Given? then p.effort.value else t.effort)
    && u.impact == (if p.impact.Given? then p.impact.value else t.impact)
    && u.due == (if p.due.Given? then p.due.value else t.due)
    && u.dependsOn == (if p.dependsOn.Given? then p.dependsOn.value else t.dependsOn)
    && u.tier == (if p.tier.Some? then p.tier else t.tier)
    && u.metadata == MetadataAfter(t.metadata, p.metadata)
  }

  function ChangeRow(id: string, f: EditField, was: Json, now: Json, ts: string): seq<EditRow> {
    if was == now then [] else [EditRow(id, f, was, now, "client:bearer", ts)]
  }

  /** One row for each of the six audited fields whose value changed, in ledger order. */
  function Changes(t: Task, u: Task, ts: string): seq<EditRow> {
    ChangeRow(t.id, Title, Str(t.title), Str(u.title), ts) +
    ChangeRow(t.id, Description, OptStr(t.description), OptStr(u.description), ts) +
    ChangeRow(t.id, Effort, t.effort, u.effort, ts) +
    ChangeRow(t.id, Impact, t.impact, u.impact, ts) +
    ChangeRow(t.id, Due, OptStr(t.due), OptStr(u.due), ts) +
    ChangeRow(t.id, DependsOn, StrList(t.dependsOn), StrList(u.dependsOn), ts)
  }

  lemma ChangesAre(clock: Clock, t: Task, u: Task, v: Option<string>, op: Op)
    requires op.Update?
    ensures EditRows(clock, t, u, op) == Changes(t, u.(version := v), clock.first)
    ensures TierRows(clock, t, u, op) == [] && ArchiveRows(clock, t, op) == []
  {
    ChangedRowsOfEdit(t, u, clock.first);
    hide ChangedRows, StrList, OptStr;
  }

  lemma LateOutcome(world: World, clock: Clock, t: Task, p: Patch)
    ensures var late := TaskAfter(world, clock, false, t, Update(p));
            var depends := TierIsFree(t, p) && NotOnItself(t, p);
            && (late == Failure(TierWriteOnce) <==> !TierIsFree(t, p))
            && (late == Failure(SelfReference) <==> TierIsFree(t, p) && !depends)
            && (late == Failure(MetadataCaps) <==> depends && !MetadataFits(world, t, p))
            && (late.Success? <==> depends && MetadataFits(world, t, p))
            && (late.Success? ==> EditedAs(t, p, late.value) && late.value.version == t.version)
  {
    MetadataAfterIs(t, p);
    hide EditedMetadata, MetadataAfter, Admission.MetadataAdmissible;
  }

  /** The patch by itself and its token are in order. */
  predicate PatchInOrder(world: World, p: Patch, expected: Option<string>) {
    && AsksSomething(p) && TierInRange(p) && TitleSaysSomething(p) && DescriptionFits(p) && DueIsADate(world, p)
    && DependsOnNames(p) && expected.Some?
  }

  lemma InOrderIff(world: World, id: string, p: Patch, expected: Option<string>, force: bool)
    ensures EarlyCheck(world, Call(id, Update(p), expected, force)).None? <==> PatchInOrder(world, p, expected)
    ensures EarlyCheck(world, Call(id, Update(p), expected, force)) != Some(TierWriteOnce)
    ensures EarlyCheck(world, Call(id, Update(p), expected, force)) != Some(SelfReference)
    ensures EarlyCheck(world, Call(id, Update(p), expected, force)) != Some(MetadataCaps)
  {
    EarlyOutcome(world, id, p, expected, force);
    hide EarlyCheck, AsksSomething, TierInRange, TitleSaysSomething, DescriptionFits, DueIsADate, DependsOnNames;
  }

  lemma ForcedEdit(id: string, p: Patch, expected: Option<string>, force: bool)
    ensures ForcesPast(Call(id, Update(p), expected, force)) == force
  {
  }

  /** What an edit that gets past the guard comes to. */
  lemma ReachedOutcome(world: World, db: Db, id: string, p: Patch, expected: Option<string>, force: bool, clock: Clock)
    requires WellFormed(db) && db.hwm.Some? && PatchInOrder(world, p, expected) && Reaches(db, id, expected, force)
    ensures var call := Call(id, Update(p), expected, force);
            var r, db', t := ExecResult(world, db, call, clock, false), Exec(world, db, call, clock, false), TaskAt(db, id).value;
            var depends := TierIsFree(t, p) && NotOnItself(t, p);
            var due := depends && MetadataFits(world, t, p);
            && (r == Failure(Invalid(TierWriteOnce)) <==> !TierIsFree(t, p))
            && (r == Failure(Invalid(SelfReference)) <==> TierIsFree(t, p) && !depends)
            && (r == Failure(Invalid(MetadataCaps)) <==> depends && !due)
            && (r == Failure(OutOfSeq) <==> due && db.hwm.value >= SEQ_MAX)
            && (r.Success? <==> due && db.hwm.value < SEQ_MAX)
            && (r.Success? ==>
                  EditedAs(t, p, r.value) && Wrote(world.hash, db, db', r.value, !force, [], [], Changes(t, r.value, clock.first)))
            && (r.Failure? && r.error.Invalid? ==> r.error.why in {TierWriteOnce, SelfReference, MetadataCaps})
  {
    var call := Call(id, Update(p), expected, force);
    assert expected.Some? && TaskAt(db, id).Some?;
    hide *;
    InOrderIff(world, id, p, expected, force);
    ForcedEdit(id, p, expected, force);
    Shape(world, db, call, clock, false);
    var t := TaskAt(db, id).value;
    LateOutcome(world, clock, t, p);
    var late := TaskAfter(world, clock, false, t, Update(p));
    if late.Success? && db.hwm.value < SEQ_MAX {
      var v := ExecResult(world, db, call, clock, false).value.version;
      ChangesAre(clock, t, late.value, v, Update(p));
      RestampedEdit(t, p, late.value, v);
    }
  }

  lemma RestampedEdit(t: Task, p: Patch, u: Task, v: Option<string>)
    requires EditedAs(t, p, u)
    ensures EditedAs(t, p, u.(version := v))
  {
    hide MetadataAfter;
  }

  /** An edit succeeds exactly when the patch is in order, a token is given, the row is live and
      current or the edit forced, the tier is unset or the same, the card does not come to depend on
      itself, the metadata stay within their caps, and a seq is left. */
  lemma UpdateOutcome(world: World, db: Db, id: string, p: Patch, expected: Option<string>, force: bool, clock: Clock)
    requires WellFormed(db) && db.hwm.Some?
    ensures var call := Call(id, Update(p), expected, force);
            var r, db' := ExecResult(world, db, call, clock, false), Exec(world, db, call, clock, false);
            var reached := PatchInOrder(world, p, expected) && Reaches(db, id, expected, force);
            var free := reached && TierIsFree(TaskAt(db, id).value, p);
            var depends := free && NotOnItself(TaskAt(db, id).value, p);
            var due := depends && MetadataFits(world, TaskAt(db, id).value, p);
            && RowAnswers(r, PatchInOrder(world, p, expected), db, id, expected, force)
            && (r == Failure(Invalid(TierWriteOnce)) <==> reached && !free)
            && (r == Failure(Invalid(SelfReference)) <==> free && !depends)
            && (r == Failure(Invalid(MetadataCaps)) <==> depends && !due)
            && (r == Failure(OutOfSeq) <==> due && db.hwm.value >= SEQ_MAX)
            && (r.Success? <==> due && db.hwm.value < SEQ_MAX)
            && (r.Failure? ==> db' == db)
            && (r.Success? ==>
                  && EditedAs(TaskAt(db, id).value, p, r.value)
                  && Wrote(world.hash, db, db', r.value, !force, [], [], Changes(TaskAt(db, id).value, r.value, clock.first)))
  {
    var call := Call(id, Update(p), expected, force);
    hide *;
    InOrderIff(world, id, p, expected, force);
    ForcedEdit(id, p, expected, force);
    Shape(world, db, call, clock, false);
    if PatchInOrder(world, p, expected) && Reaches(db, id, expected, force) {
      ReachedOutcome(world, db, id, p, expected, force, clock);
    } else {
      NotReached(world, db, call, clock);
    }
  }

  lemma NotReached(world: World, db: Db, call: Call, clock: Clock)
    requires EarlyCheck(world, call).Some? || !Reaches(db, call.taskId, call.expected, ForcesPast(call))
    ensures var r := ExecResult(world, db, call, clock, false);
            if EarlyCheck(world, call).Some? then r == Failure(Invalid(EarlyCheck(world, call).value))
            else r.Failure? && (r.error.NotFound? || r.error.Conflict?)
  {
    GuardOutcome(db, call);
    Refused(world, db, call, clock, false);
    hide ExecResult, EarlyCheck, GuardMutable, TaskAfter;
  }

  /** Each refusal of the patch by itself, in the order the checks are made; the missing token comes
      last, and none of them looks at the row. */
  lemma UpdateRefusals(world: World, db: Db, id: string, p: Patch, expected: Option<string>, force: bool, clock: Clock)
    requires WellFormed(db) && db.hwm.Some?
    ensures var r := ExecResult(world, db, Call(id, Update(p), expected, force), clock, false);
            var tier := AsksSomething(p) && TierInRange(p);
            var title := tier && TitleSaysSomething(p);
            var description := title && DescriptionFits(p);
            var due := description && DueIsADate(world, p);
            var depends := due && DependsOnNames(p);
            && (r == Failure(Invalid(NothingToChange)) <==> !AsksSomething(p))
            && (r == Failure(Invalid(TierRange)) <==> AsksSomething(p) && !tier)
            && (r == Failure(Invalid(EmptyTitle)) <==> tier && !title)
            && (r == Failure(Invalid(DescriptionTooLong)) <==> title && !description)
            && (r == Failure(Invalid(BadDue)) <==> description && !due)
            && (r == Failure(Invalid(BadDependsOn)) <==> due && !depends)
            && (r == Failure(Invalid(TokenRequired)) <==> depends && expected.None?)
  {
    var call := Call(id, Update(p), expected, force);
    hide *;
    InOrderIff(world, id, p, expected, force);
    ForcedEdit(id, p, expected, force);
    EarlyOutcome(world, id, p, expected, force);
    if PatchInOrder(world, p, expected) && Reaches(db, id, expected, force) {
      ReachedOutcome(world, db, id, p, expected, force, clock);
    } else {
      NotReached(world, db, call, clock);
    }
  }

  // ---- The create --------------------------------------------------------------------------------------

  /** A created card is its input, live, unarchived and unplanned, put at the end of the scan under
      a fresh token; the ledgers say nothing of it. */
  lemma CreateOutcome(hash: Hash, db: Db, input: TaskInput, order: string)
    requires db.hwm.Some? && db.hwm.value < SEQ_MAX
    ensures var e := TaskRow(NewTask(input, order));
            var row, db' := Stamped(hash, db.hwm.value + 1, e), Transact(hash, db, Alone(e), None);
            row.TaskRow? &&
            var t := row.task;
            && t.id == input.freshId && t.projectId == input.projectId && t.title == input.title && t.state == input.state
            && t.tier == input.tier && t.acceptanceCriteria == input.acceptanceCriteria && t.description == input.description
            && t.effort == Null && t.impact == Null && t.due == input.due && t.dependsOn == input.dependsOn && t.order == order
            && t.createdAt == Some(input.createdAt) && t.createdBy == input.createdBy && t.metadata == input.metadata
            && t.deletedAt.None? && t.archivedAt.None?
            && Wrote(hash, db, db', t, false, [], [], [])
  {
    TransactWrites(hash, db, Alone(TaskRow(NewTask(input, order))), None);
    hide Transact, Wrote, MakeVersion;
  }
}
