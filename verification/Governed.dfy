/** What each write path of the spine does to one task: the checks in their order, the new
    task, and the ledger rows staged beside it. */
module Governed {
  import opened Wrappers
  import opened Strings
  import opened JsonValue
  import opened Entities
  import opened Database
  import opened CardKeys
  import Admission

  /** The calls whose inside is not modelled: the content hash, the serialized size and the
      ISO-8601 test. */
  datatype World = World(hash: Hash, size: Json -> nat, validDue: string -> bool)

  /** The clock readings of one operation, in the order they are taken. */
  datatype Clock = Clock(first: string, second: string)

  /** An argument that distinguishes "not provided" from "provided as null". */
  datatype Given<+T> = Unset | Given(value: T)

  /** `acceptanceCriteria` is omitted when `Null`. */
  datatype Patch = Patch(
    title: Option<string>,
    acceptanceCriteria: Json,
    description: Given<Option<string>>,
    effort: Given<Json>,
    impact: Given<Json>,
    due: Given<Option<string>>,
    dependsOn: Given<seq<string>>,
    metadata: Given<JsonObject>,
    tier: Option<int>)

  const EmptyPatch: Patch := Patch(None, Null, Unset, Unset, Unset, Unset, Unset, Unset, None)

  datatype Op =
    | SetState(state: string)
    | Update(patch: Patch)
    | Move(toState: string, order: Option<string>)
    | SoftDelete
    | Retier(newTier: int, reason: string, actor: string)
    | Archive(reason: string, actor: string)
    | Unarchive(reason: string, actor: string)
  {
    predicate MayForce() {
      SetState? || Update? || Move?
    }
  }

  datatype Call = Call(taskId: string, op: Op, expected: Option<string>, force: bool)
  {
    predicate Forced() {
      force && op.MayForce()
    }

    /** The compare-and-swap token handed to the put; `None` selects last-write-wins. */
    function CasToken(): Option<string> {
      if Forced() then None else expected
    }

    function Key(): RowKey {
      RowKey(Tasks, taskId)
    }
  }

  /** Only a state change, an edit and a move can force; every other write is made by its token. */
  lemma CasTokenIs(call: Call)
    ensures call.CasToken() == if call.force && (call.op.SetState? || call.op.Update? || call.op.Move?) then None else call.expected
  {
  }

  datatype Why =
    | UnknownState | NothingToChange | TierRange | EmptyTitle | DescriptionTooLong | BadDue | BadDependsOn
    | TokenRequired | TierWriteOnce | SelfReference | MetadataCaps
    | Untiered | SameTier | ReasonRequired | AlreadyArchived | OpenEscalation | NotArchived

  datatype OpError = NotFound | Conflict(current: Task) | Invalid(why: Why) | OutOfSeq

  const EDIT_ACTOR := "client:bearer"

  const EDITED_FIELDS: seq<EditField> := [Title, Description, Effort, Impact, Due, DependsOn]

  // ---- Checks that come before the row is read ---------------------------------------------

  predicate ValidTier(n: int) {
    1 <= n <= 4
  }

  function UpdateCheck(world: World, p: Patch, expected: Option<string>): Option<Why> {
    if p == EmptyPatch then Some(NothingToChange)
    else if p.tier.Some? && !ValidTier(p.tier.value) then Some(TierRange)
    else if p.title.Some? && Blank(p.title.value) then Some(EmptyTitle)
    else if p.description.Given? && p.description.value.Some?
            && |p.description.value.value| > Admission.MAX_DESCRIPTION_LEN then Some(DescriptionTooLong)
    else if p.due.Given? && p.due.value.Some? && !world.validDue(p.due.value.value) then Some(BadDue)
    else if p.dependsOn.Given? && "" in p.dependsOn.value then Some(BadDependsOn)
    else if expected.None? then Some(TokenRequired)
    else None
  }

  function EarlyCheck(world: World, call: Call): Option<Why> {
    match call.op
    case SetState(s) => if s in STATES then None else Some(UnknownState)
    case Move(s, _) => if s in STATES then None else Some(UnknownState)
    case Update(p) => UpdateCheck(world, p, call.expected)
    case _ => None
  }

  // ---- The guard -------------------------------------------------------------------------

  function TaskAt(db: Db, id: string): Option<Task> {
    var k := RowKey(Tasks, id);
    if k in db.rows && db.rows[k].TaskRow? then Some(db.rows[k].task) else None
  }

  function GuardMutable(db: Db, call: Call): Result<Task, OpError> {
    match TaskAt(db, call.taskId)
    case None => Failure(NotFound)
    case Some(t) =>
      if t.deletedAt.Some? then Failure(Conflict(t))
      else if !call.Forced() && call.expected.Some? && t.version != call.expected then Failure(Conflict(t))
      else Success(t)
  }

  // ---- The task after the operation ----------------------------------------------------------

  function Or<T>(g: Given<T>, old_: T): T {
    if g.Given? then g.value else old_
  }

  function EditedMetadata(t: Task, p: Patch): JsonObject {
    WithoutModeledCollisions(if p.metadata.Given? then Merged(t.metadata, p.metadata.value) else t.metadata)
  }

  function Edited(t: Task, p: Patch): Task {
    t.(title := if p.title.Some? then p.title.value else t.title,
       acceptanceCriteria := if p.acceptanceCriteria.Null? then t.acceptanceCriteria else p.acceptanceCriteria,
       description := Or(p.description, t.description),
       effort := Or(p.effort, t.effort),
       impact := Or(p.impact, t.impact),
       due := Or(p.due, t.due),
       dependsOn := Or(p.dependsOn, t.dependsOn),
       metadata := EditedMetadata(t, p),
       tier := if p.tier.Some? then p.tier else t.tier)
  }

  ghost function TaskAfter(world: World, clock: Clock, openEscalation: bool, t: Task, op: Op): Result<Task, Why> {
    match op
    case SetState(s) => Success(t.(state := s))
    case Move(s, order) => Success(t.(state := s, order := if order.Some? then order.value else t.order))
    case SoftDelete => Success(t.(deletedAt := Some(clock.first)))
    case Update(p) =>
      if p.tier.Some? && t.tier.Some? && p.tier != t.tier then Failure(TierWriteOnce)
      else if p.dependsOn.Given? && t.id in p.dependsOn.value then Failure(SelfReference)
      else if p.metadata.Given? && !Admission.MetadataAdmissible(world.size, EditedMetadata(t, p)) then Failure(MetadataCaps)
      else Success(Edited(t, p))
    case Retier(n, reason, _) =>
      if t.tier.None? then Failure(Untiered)
      else if !ValidTier(n) then Failure(TierRange)
      else if Some(n) == t.tier then Failure(SameTier)
      else if Blank(reason) then Failure(ReasonRequired)
      else Success(t.(tier := Some(n)))
    case Archive(reason, _) =>
      if t.archivedAt.Some? then Failure(AlreadyArchived)
      else if openEscalation then Failure(OpenEscalation)
      else if Blank(reason) then Failure(ReasonRequired)
      else Success(t.(archivedAt := Some(clock.second)))
    case Unarchive(reason, _) =>
      if t.archivedAt.None? then Failure(NotArchived)
      else if Blank(reason) then Failure(ReasonRequired)
      else Success(t.(archivedAt := None))
  }

  // ---- The rows staged with it -------------------------------------------------------------

  /** One row per field whose value differs, in the given field order. */
  function ChangedRows(t: Task, u: Task, fields: seq<EditField>, ts: string): seq<EditRow> {
    if fields == [] then []
    else
      var rest, f := ChangedRows(t, u, fields[..|fields| - 1], ts), fields[|fields| - 1];
      if FieldOf(t, f) == FieldOf(u, f) then rest
      else rest + [EditRow(t.id, f, FieldOf(t, f), FieldOf(u, f), EDIT_ACTOR, ts)]
  }

  function EditRows(clock: Clock, t: Task, u: Task, op: Op): seq<EditRow> {
    match op
    case Update(_) => ChangedRows(t, u, EDITED_FIELDS, clock.first)
    case SoftDelete => [EditRow(t.id, DeletedAt, Null, OptStr(u.deletedAt), EDIT_ACTOR, clock.first)]
    case _ => []
  }

  function TierRows(clock: Clock, t: Task, u: Task, op: Op): seq<TierRow> {
    if op.Retier? && t.tier.Some? && u.tier.Some? then
      [TierRow(t.id, t.tier.value, u.tier.value, u.tier.value < t.tier.value, op.actor, op.reason, clock.first)]
    else []
  }

  function ArchiveRows(clock: Clock, t: Task, op: Op): seq<ArchiveRow> {
    match op
    case Archive(reason, actor) => [ArchiveRow(t.id, DoArchive, actor, reason, clock.first)]
    case Unarchive(reason, actor) => [ArchiveRow(t.id, DoUnarchive, actor, reason, clock.first)]
    case _ => []
  }

  function StagedFor(clock: Clock, t: Task, u: Task, op: Op): Staged {
    Staged(TaskRow(u), TierRows(clock, t, u, op), ArchiveRows(clock, t, op), EditRows(clock, t, u, op))
  }

  // ---- The whole operation, run with nothing in between ----------------------------------------

  ghost function Prepare(world: World, db: Db, call: Call, clock: Clock, openEscalation: bool): Result<(Task, Staged), OpError> {
    match EarlyCheck(world, call)
    case Some(why) => Failure(Invalid(why))
    case None =>
      match GuardMutable(db, call)
      case Failure(e) => Failure(e)
      case Success(t) =>
        match TaskAfter(world, clock, openEscalation, t, call.op)
        case Failure(why) => Failure(Invalid(why))
        case Success(u) => Success((t, StagedFor(clock, t, u, call.op)))
  }

  ghost function Exec(world: World, db: Db, call: Call, clock: Clock, openEscalation: bool): Db {
    match Prepare(world, db, call, clock, openEscalation)
    case Failure(_) => db
    case Success((_, st)) => Transact(world.hash, db, st, call.CasToken())
  }

  ghost function ExecResult(world: World, db: Db, call: Call, clock: Clock, openEscalation: bool): Result<Task, OpError> {
    match Prepare(world, db, call, clock, openEscalation)
    case Failure(e) => Failure(e)
    case Success((_, st)) =>
      if PutSucceeds(db, st.entity, call.CasToken())
      then Success(Stamped(world.hash, db.hwm.value + 1, st.entity).task)
      else Failure(OutOfSeq)
  }

  /** Nothing an operation plans touches another task's identity or token. */
  lemma TaskAfterKeepsIdentity(world: World, clock: Clock, openEscalation: bool, t: Task, op: Op)
    ensures var r := TaskAfter(world, clock, openEscalation, t, op);
            r.Success? ==>
              var u := r.value;
              && u.id == t.id && u.version == t.version && u.projectId == t.projectId
              && u.createdAt == t.createdAt && u.createdBy == t.createdBy
  {
  }

  /** All or nothing: an operation that raises leaves tables, ledgers and mark as they were, and
      one that does not leaves its trace. */
  lemma AllOrNothing(world: World, db: Db, call: Call, clock: Clock, openEscalation: bool)
    ensures ExecResult(world, db, call, clock, openEscalation).Failure? <==> Exec(world, db, call, clock, openEscalation) == db
  {
    hide Prepare;
    var r := Prepare(world, db, call, clock, openEscalation);
    if r.Success? && PutSucceeds(db, r.value.1.entity, call.CasToken()) {
      TransactRows(world.hash, db, r.value.1, call.CasToken());
    }
  }

  /** The open-escalation predicate of the archive gate. */
  ghost predicate HasOpenEscalation(db: Db, taskId: string) {
    exists k :: k in db.rows && db.rows[k].EscalationRow? && IsOpen(db.rows[k].escalation, taskId)
  }

  predicate IsOpen(e: Escalation, taskId: string) {
    e.taskId == taskId && e.deletedAt.None? && e.resolvedAt.None?
  }
}
