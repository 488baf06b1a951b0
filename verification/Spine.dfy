/** The facade over one connection: read the row, check, mutate, stage the ledger rows, put.
    Every write path is shown to do what `Governed.Exec` says of its operation. */
module SpineFacade {
  import opened Wrappers
  import opened Strings
  import opened JsonValue
  import opened Entities
  import opened Tokens
  import opened Database
  import opened CardKeys
  import opened Governed
  import opened Storage
  import Admission
  import Ordering

  /** What `create_task` is given. `createdBy` is `Null` when absent; `freshId` is the id to use. */
  datatype TaskInput = TaskInput(
    projectId: string,
    title: string,
    state: string,
    tier: Option<int>,
    acceptanceCriteria: Json,
    description: Option<string>,
    due: Option<string>,
    dependsOn: seq<string>,
    freshId: string,
    order: Option<string>,
    createdAt: string,
    createdBy: Json,
    metadata: JsonObject)

  datatype CreateError =
    | UnknownStateGiven | BadDueGiven | EmptyDependency | DependsOnItself | CreatedByCaps | BodyTooLong | MetadataTooBig
    | NoRankLeft | MalformedCreatedBy | SeqSpent

  predicate WellShapedCreatedBy(v: Json) {
    !v.Null? ==>
      && v.Obj?
      && "type" in v.fields && v.fields["type"] in [Str("human"), Str("agent")]
      && "id" in v.fields && v.fields["id"].Str? && v.fields["id"].s != ""
      && (forall k | k in ["model", "effort", "job_id"] :: k in v.fields ==> v.fields[k].Str?)
  }

  /** Everything `create_task` demands of its input before it mints a rank. */
  ghost predicate AdmissibleInput(world: World, input: TaskInput) {
    && input.state in STATES
    && (input.due.Some? ==> world.validDue(input.due.value))
    && "" !in input.dependsOn && input.freshId !in input.dependsOn
    && (input.createdBy.Obj? ==> Admission.CreatedByAdmissible(world.size, input.createdBy.fields))
    && (input.description.Some? ==> |input.description.value| <= Admission.MAX_DESCRIPTION_LEN)
    && Admission.MetadataAdmissible(world.size, input.metadata)
    && WellShapedCreatedBy(input.createdBy)
  }

  /** Every demand but the last, with the refusal each gets, in the order they are checked. */
  ghost predicate InputAnswers(world: World, input: TaskInput, refused: Option<CreateError>) {
    var state := input.state in STATES;
    var due := state && (input.due.Some? ==> world.validDue(input.due.value));
    var named := due && "" !in input.dependsOn;
    var depends := named && input.freshId !in input.dependsOn;
    var provenance := depends && (input.createdBy.Obj? ==> Admission.CreatedByAdmissible(world.size, input.createdBy.fields));
    var body := provenance && (input.description.Some? ==> |input.description.value| <= 16384);
    var fits := body && Admission.MetadataAdmissible(world.size, input.metadata);
    && (refused == Some(UnknownStateGiven) <==> !state)
    && (refused == Some(BadDueGiven) <==> state && !due)
    && (refused == Some(EmptyDependency) <==> due && !named)
    && (refused == Some(DependsOnItself) <==> named && !depends)
    && (refused == Some(CreatedByCaps) <==> depends && !provenance)
    && (refused == Some(BodyTooLong) <==> provenance && !body)
    && (refused == Some(MetadataTooBig) <==> body && !fits)
    && (refused.None? <==> fits)
  }

  /** The refusals that are about the input itself. */
  predicate AboutTheInput(e: CreateError) {
    !e.NoRankLeft? && !e.MalformedCreatedBy? && !e.SeqSpent?
  }

  lemma InputAnswersOnce(world: World, input: TaskInput, refused: Option<CreateError>)
    requires InputAnswers(world, input, refused)
    ensures refused.None? && WellShapedCreatedBy(input.createdBy) <==> AdmissibleInput(world, input)
    ensures InputAnswers(world, input, None) <==> refused.None?
  {
    hide WellShapedCreatedBy, Admission.CreatedByAdmissible, Admission.MetadataAdmissible;
  }

  /** Which shapes of provenance pass: identity is required. */
  lemma CreatedByShapes(id: string)
    ensures WellShapedCreatedBy(Null)
    ensures WellShapedCreatedBy(Obj(map["type" := Str("human"), "id" := Str(id)])) <==> id != ""
    ensures WellShapedCreatedBy(Obj(map["type" := Str("agent"), "id" := Str(id)])) <==> id != ""
    ensures !WellShapedCreatedBy(Obj(map["type" := Str("robot"), "id" := Str("r")]))
    ensures !WellShapedCreatedBy(Obj(map["type" := Str("human")])) && !WellShapedCreatedBy(Obj(map["id" := Str("u")]))
    ensures !WellShapedCreatedBy(Str("human")) && !WellShapedCreatedBy(Arr([]))
  {
    assert "robot"[0] == 'r' && "human"[0] == 'h' && "agent"[0] == 'a';
    assert [Str("human"), Str("agent")][1] == Str("agent");
  }

  /** A key outside the contract may hold anything. */
  lemma ForeignKeyIsFree(fields: JsonObject, k: string, v: Json)
    requires k !in {"type", "id", "model", "effort", "job_id"}
    ensures WellShapedCreatedBy(Obj(fields[k := v])) <==> WellShapedCreatedBy(Obj(fields))
  {
    var changed := fields[k := v];
    forall m | m in {"type", "id", "model", "effort", "job_id"}
      ensures (m in changed <==> m in fields) && (m in fields ==> changed[m] == fields[m])
    {
    }
    if WellShapedCreatedBy(Obj(fields)) {
      SameContractSameShape(fields, changed);
    }
    if WellShapedCreatedBy(Obj(changed)) {
      SameContractSameShape(changed, fields);
    }
  }

  lemma SameContractSameShape(a: JsonObject, b: JsonObject)
    requires WellShapedCreatedBy(Obj(a))
    requires forall m | m in {"type", "id", "model", "effort", "job_id"} :: (m in a <==> m in b) && (m in a ==> a[m] == b[m])
    ensures WellShapedCreatedBy(Obj(b))
  {
    var contract := {"type", "id", "model", "effort", "job_id"};
    assert "type" in contract && "id" in contract;
    assert a["type"] == b["type"] && a["id"] == b["id"];
    forall k | k in ["model", "effort", "job_id"] && k in b ensures b[k].Str? {
      assert k in contract;
    }
  }

  /** The three modelled keys are text when present. */
  lemma ModelledKeyIsText(more: JsonObject, k: string, v: Json)
    requires k in {"model", "effort", "job_id"} && WellShapedCreatedBy(Obj(more))
    ensures WellShapedCreatedBy(Obj(more[k := v])) <==> v.Str?
  {
    var fields := more[k := v];
    var modelled := ["model", "effort", "job_id"];
    assert modelled[0] == "model" && modelled[1] == "effort" && modelled[2] == "job_id" && k in modelled;
    assert fields["type"] == more["type"] && fields["id"] == more["id"] && fields[k] == v;
    assert forall m | m in modelled && m != k :: (m in fields <==> m in more) && (m in more ==> fields[m] == more[m]);
  }

  function NewTask(input: TaskInput, order: string): Task {
    Task(input.freshId, input.projectId, input.title, input.state, input.tier, input.acceptanceCriteria, input.description,
         Null, Null, input.due, input.dependsOn, order, Some(input.createdAt), None, None, None, input.createdBy, input.metadata)
  }

  ghost predicate LiveTask(db: Db, t: Task) {
    TaskAt(db, t.id) == Some(t) && t.deletedAt.None?
  }

  predicate LiveRow(e: Entity) {
    e.TaskRow? && e.task.deletedAt.None?
  }

  /** `last` is the greatest order of a live task, empty when there is none. */
  ghost predicate IsMaxOrder(db: Db, last: string) {
    && (last == "" || exists t: Task :: LiveTask(db, t) && t.order == last)
    && (forall t: Task | LiveTask(db, t) :: t.order == last || Less(t.order, last))
  }

  /** Append-at-end can mint: the greatest live order is a rank and not at the depth guard. */
  ghost predicate RankLeft(db: Db) {
    exists last :: IsMaxOrder(db, last) && Ordering.IsRank(last) && |Ordering.Above(last)| <= Ordering.DEPTH_GUARD
  }

  /** A rank above every live order, minted right above the greatest one. */
  ghost predicate AtTheEnd(db: Db, order: string) {
    && Ordering.Canonical(order)
    && (forall t: Task | LiveTask(db, t) :: Less(t.order, order))
    && exists last :: IsMaxOrder(db, last) && Ordering.IsRank(last) && order == Ordering.Above(last)
  }

  lemma AboveMaxOrder(db: Db, last: string, order: string)
    requires IsMaxOrder(db, last) && Less(last, order)
    ensures forall t: Task | LiveTask(db, t) :: Less(t.order, order)
  {
    forall t: Task | LiveTask(db, t) ensures Less(t.order, order) {
      if t.order != last {
        LessTransitive(t.order, last, order);
      }
    }
  }

  lemma MaxOrderIsUnique(db: Db, last: string)
    requires IsMaxOrder(db, last)
    ensures forall other | IsMaxOrder(db, other) :: other == last
  {
    forall other | IsMaxOrder(db, other) ensures other == last {
      if other != last {
        LessTotal(other, last);
        if Less(other, last) {
          LessAsymmetric(other, last);
        } else {
          LessAsymmetric(last, other);
        }
      }
    }
  }

  /** Putting the staged plan of an operation completes it: nothing has come in between, so only
      the seq space can stop it. */
  lemma FinishMeaning(world: World, db: Db, call: Call, clock: Clock, openEscalation: bool, t: Task, u: Task)
    requires db.hwm.Some?
    requires Prepare(world, db, call, clock, openEscalation) == Success((t, StagedFor(clock, t, u, call.op)))
    ensures var st, token := StagedFor(clock, t, u, call.op), call.CasToken();
            && Exec(world, db, call, clock, openEscalation) == Transact(world.hash, db, st, token)
            && (match PutReply(world.hash, db, TaskRow(u), token)
                case Success(e) => ExecResult(world, db, call, clock, openEscalation) == Success(e.task)
                case Failure(_) => ExecResult(world, db, call, clock, openEscalation) == Failure(OutOfSeq))
  {
    hide TaskAfter, TierRows, ArchiveRows, EditRows, Stamped, Transact;
  }

  lemma CounterStaysBehind(hash: Hash, db: Db, counter: nat, st: Staged, token: Option<string>)
    requires db.hwm.Some? && counter <= db.hwm.value
    ensures var db' := Transact(hash, db, st, token);
            db'.hwm.Some? && CounterAfterPut(db, counter, st.entity, token) <= db'.hwm.value
  {
  }

  class Spine {
    const store: Store
    const world: World

    constructor (store: Store, world: World)
      ensures this.store == store && this.world == world
    {
      this.store := store;
      this.world := world;
    }

    /** Between operations: no open transaction, and the counter never ahead of the mark. */
    ghost predicate Ready()
      reads store, store.file
    {
      store.Valid() && store.txn.None? && store.counter <= store.file.db.hwm.value && store.hash == world.hash
    }

    // ---- Reads and gates -------------------------------------------------------------------

    method GetTask(taskId: string) returns (t: Option<Task>)
      requires Ready()
      ensures t == TaskAt(store.file.db, taskId)
    {
      var e := store.Get(Tasks, taskId);
      t := if e.Some? && e.value.TaskRow? then Some(e.value.task) else None;
    }

    /** Tombstones are immutable, stale tokens are refused; `force` skips only the latter. */
    method Guard(call: Call) returns (r: Result<Task, OpError>)
      requires Ready()
      ensures r == GuardMutable(store.file.db, call)
      // The same, of the stored row alone.
      ensures r == Failure(NotFound) <==> TaskAt(store.file.db, call.taskId).None?
      ensures forall t :: r == Failure(Conflict(t)) <==>
                && TaskAt(store.file.db, call.taskId) == Some(t)
                && (t.deletedAt.Some? || (!call.Forced() && call.expected.Some? && call.expected != t.version))
      ensures r.Success? ==> TaskAt(store.file.db, call.taskId) == Some(r.value)
      ensures r.Failure? ==> r.error.NotFound? || r.error.Conflict?
    {
      var t := GetTask(call.taskId);
      if t.None? {
        return Failure(NotFound);
      }
      if t.value.deletedAt.Some? {
        return Failure(Conflict(t.value));
      }
      if !call.Forced() && call.expected.Some? && t.value.version != call.expected {
        return Failure(Conflict(t.value));
      }
      return Success(t.value);
    }

    method HasOpenEscalation(taskId: string) returns (open: bool)
      requires Ready()
      ensures open <==> Governed.HasOpenEscalation(store.file.db, taskId)
    {
      var es := store.ListAll(Escalations);
      ghost var db := store.file.db;
      open := false;
      for i := 0 to |es|
        invariant open <==> exists j :: 0 <= j < i && es[j].EscalationRow? && IsOpen(es[j].escalation, taskId)
      {
        if es[i].EscalationRow? && IsOpen(es[i].escalation, taskId) {
          open := true;
        }
      }
      if Governed.HasOpenEscalation(db, taskId) {
        var k :| k in db.rows && db.rows[k].EscalationRow? && IsOpen(db.rows[k].escalation, taskId);
        ListingIsTheTable(db.rows, db.order, Escalations, db.rows[k]);
      }
      if open {
        var j :| 0 <= j < |es| && es[j].EscalationRow? && IsOpen(es[j].escalation, taskId);
        ListingIsTheTable(db.rows, db.order, Escalations, es[j]);
      }
    }

    // ---- The put that ends every guarded write ------------------------------------------------

    method Finish(call: Call, clock: Clock, ghost openEscalation: bool, ghost t: Task, u: Task) returns (r: Result<Task, OpError>)
      requires store.Valid() && store.counter <= store.file.db.hwm.value && store.hash == world.hash
      requires Prepare(world, store.file.db, call, clock, openEscalation) == Success((t, StagedFor(clock, t, u, call.op)))
      requires store.View() == WithLedgers(store.file.db, StagedFor(clock, t, u, call.op))
      modifies store, store.file
      ensures Ready()
      ensures store.file.db == Exec(world, old(store.file.db), call, clock, openEscalation)
      ensures store.counter == CounterAfterPut(old(store.file.db), old(store.counter), TaskRow(u), call.CasToken())
      ensures r == ExecResult(world, old(store.file.db), call, clock, openEscalation)
    {
      ghost var before, counter := store.file.db, store.counter;
      FinishMeaning(world, before, call, clock, openEscalation, t, u);
      CounterStaysBehind(world.hash, before, counter, StagedFor(clock, t, u, call.op), call.CasToken());
      hide *;
      var put := store.PutStaged(TaskRow(u), call.CasToken(), StagedFor(clock, t, u, call.op));
      match put
      case Success(e) => return Success(e.task);
      case Failure(_) => return Failure(OutOfSeq);
    }

    // ---- Creation ------------------------------------------------------------------------------

    method MaxLiveOrder() returns (last: string)
      requires Ready()
      ensures IsMaxOrder(store.file.db, last)
    {
      var es := store.ListAll(Tasks);
      ghost var db := store.file.db;
      last := "";
      for i := 0 to |es|
        invariant last == "" || exists j :: 0 <= j < i && LiveRow(es[j]) && es[j].task.order == last
        invariant forall j | 0 <= j < i && LiveRow(es[j]) :: es[j].task.order == last || Less(es[j].task.order, last)
      {
        if LiveRow(es[i]) {
          var order := es[i].task.order;
          LessTotal(order, last);
          if Less(last, order) {
            forall j | 0 <= j < i && LiveRow(es[j]) ensures Less(es[j].task.order, order) {
              if es[j].task.order != last {
                LessTransitive(es[j].task.order, last, order);
              }
            }
            last := order;
          }
        }
      }
      if last != "" {
        var j :| 0 <= j < |es| && LiveRow(es[j]) && es[j].task.order == last;
        ListingIsTheTable(db.rows, db.order, Tasks, es[j]);
        assert LiveTask(db, es[j].task);
      }
      forall t: Task | LiveTask(db, t) ensures t.order == last || Less(t.order, last) {
        ListingIsTheTable(db.rows, db.order, Tasks, TaskRow(t));
      }
    }

    method RankAtTheEnd() returns (rank: Option<string>)
      requires Ready()
      ensures rank.Some? <==> RankLeft(store.file.db)
      ensures rank.Some? ==> AtTheEnd(store.file.db, rank.value)
    {
      var last := MaxLiveOrder();
      var above := Ordering.AppendRank(last);
      MaxOrderIsUnique(store.file.db, last);
      if above.Failure? {
        return None;
      }
      hide IsMaxOrder, Less;
      AboveMaxOrder(store.file.db, last, above.value);
      return Some(above.value);
    }

    /** Create a task at the end of the board unless a rank is given. Every cap is checked before
        anything is written. */
    method CreateTask(input: TaskInput) returns (r: Result<Task, CreateError>)
      requires Ready()
      modifies store, store.file
      ensures Ready()
      ensures r.Success? <==>
                && AdmissibleInput(world, input)
                && (input.order.Some? || RankLeft(old(store.file.db)))
                && old(store.file.db).hwm.value < SEQ_MAX
      ensures InputAnswers(world, input, if r.Failure? && AboutTheInput(r.error) then Some(r.error) else None)
      ensures r == Failure(NoRankLeft) <==>
                InputAnswers(world, input, None) && input.order.None? && !RankLeft(old(store.file.db))
      ensures r == Failure(MalformedCreatedBy) <==>
                && InputAnswers(world, input, None) && (input.order.Some? || RankLeft(old(store.file.db)))
                && !WellShapedCreatedBy(input.createdBy)
      ensures r.Failure? ==> store.file.db == old(store.file.db)
      ensures r.Success? ==>
                var e := TaskRow(NewTask(input, r.value.order));
                && store.file.db == Transact(world.hash, old(store.file.db), Alone(e), None)
                && TaskRow(r.value) == Stamped(world.hash, old(store.file.db).hwm.value + 1, e)
      ensures r.Success? && input.order.Some? ==> r.value.order == input.order.value
      ensures r.Success? && input.order.None? ==> AtTheEnd(old(store.file.db), r.value.order)
    {
      var refused := CheckInput(input);
      InputAnswersOnce(world, input, refused);
      assert !AboutTheInput(NoRankLeft) && !AboutTheInput(MalformedCreatedBy) && !AboutTheInput(SeqSpent);
      hide *;
      if refused.Some? {
        return Failure(refused.value);
      }
      r := CreateAdmitted(input);
    }

    /** The rest of a create, once the input is within its caps: the rank, the shape of the
        provenance, the put. */
    method CreateAdmitted(input: TaskInput) returns (r: Result<Task, CreateError>)
      requires Ready()
      modifies store, store.file
      ensures Ready()
      ensures var ranked := input.order.Some? || RankLeft(old(store.file.db));
              var shaped := ranked && WellShapedCreatedBy(input.createdBy);
              && (r == Failure(NoRankLeft) <==> !ranked)
              && (r == Failure(MalformedCreatedBy) <==> ranked && !shaped)
              && (r == Failure(SeqSpent) <==> shaped && old(store.file.db).hwm.value >= SEQ_MAX)
              && (r.Success? <==> shaped && old(store.file.db).hwm.value < SEQ_MAX)
      ensures r.Failure? ==> store.file.db == old(store.file.db) && r.error in {NoRankLeft, MalformedCreatedBy, SeqSpent}
      ensures r.Success? ==>
                var e := TaskRow(NewTask(input, r.value.order));
                && store.file.db == Transact(world.hash, old(store.file.db), Alone(e), None)
                && TaskRow(r.value) == Stamped(world.hash, old(store.file.db).hwm.value + 1, e)
      ensures r.Success? ==> if input.order.Some? then r.value.order == input.order.value else AtTheEnd(old(store.file.db), r.value.order)
    {
      assert forall order :: NewTask(input, order).order == order;
      hide *;
      var order := if input.order.Some? then input.order.value else "";
      if input.order.None? {
        var rank := RankAtTheEnd();
        if rank.None? {
          return Failure(NoRankLeft);
        }
        order := rank.value;
      }
      if !WellShapedCreatedBy(input.createdBy) {
        return Failure(MalformedCreatedBy);
      }
      r := PutNew(NewTask(input, order));
    }

    method PutNew(t: Task) returns (r: Result<Task, CreateError>)
      requires Ready()
      modifies store, store.file
      ensures Ready()
      ensures r.Success? <==> old(store.file.db).hwm.value < SEQ_MAX
      ensures r.Failure? ==> r == Failure(SeqSpent) && store.file.db == old(store.file.db)
      ensures r.Success? ==>
                && store.file.db == Transact(world.hash, old(store.file.db), Alone(TaskRow(t)), None)
                && TaskRow(r.value) == Stamped(world.hash, old(store.file.db).hwm.value + 1, TaskRow(t))
                && r.value == t.(version := r.value.version)
    {
      NothingStaged(store.file.db, Alone(TaskRow(t)));
      var put := store.Put(TaskRow(t), None);
      match put
      case Success(e) => return Success(e.task);
      case Failure(_) => return Failure(SeqSpent);
    }

    method CheckInput(input: TaskInput) returns (refused: Option<CreateError>)
      ensures InputAnswers(world, input, refused)
      ensures refused.Some? ==> AboutTheInput(refused.value)
    {
      if input.state !in STATES {
        return Some(UnknownStateGiven);
      }
      if input.due.Some? && !world.validDue(input.due.value) {
        return Some(BadDueGiven);
      }
      if "" in input.dependsOn {
        return Some(EmptyDependency);
      }
      if input.freshId in input.dependsOn {
        return Some(DependsOnItself);
      }
      if input.createdBy.Obj? {
        var within := Admission.CheckCreatedByLimits(world.size, input.createdBy.fields);
        if within.Failure? {
          return Some(CreatedByCaps);
        }
      }
      if input.description.Some? && |input.description.value| > Admission.MAX_DESCRIPTION_LEN {
        return Some(BodyTooLong);
      }
      var fits := Admission.CheckMetadataLimits(world.size, input.metadata);
      if fits.Failure? {
        return Some(MetadataTooBig);
      }
      return None;
    }

    // ---- Ungoverned operator writes ------------------------------------------------------------

    method SetState(taskId: string, state: string, expected: Option<string>, force: bool, clock: Clock)
      returns (r: Result<Task, OpError>)
      requires Ready()
      modifies store, store.file
      ensures Ready()
      ensures var call := Call(taskId, Op.SetState(state), expected, force);
              && store.file.db == Exec(world, old(store.file.db), call, clock, false)
              && r == ExecResult(world, old(store.file.db), call, clock, false)
    {
      var call := Call(taskId, Op.SetState(state), expected, force);
      if state !in STATES {
        return Failure(Invalid(UnknownState));
      }
      var guarded := Guard(call);
      if guarded.Failure? {
        return Failure(guarded.error);
      }
      var task := guarded.value;
      task := task.(state := state);
      NothingStaged(store.file.db, StagedFor(clock, guarded.value, task, call.op));
      r := Finish(call, clock, false, guarded.value, task);
    }

    method MoveTask(taskId: string, toState: string, order: Option<string>, expected: Option<string>, force: bool, clock: Clock)
      returns (r: Result<Task, OpError>)
      requires Ready()
      modifies store, store.file
      ensures Ready()
      ensures var call := Call(taskId, Move(toState, order), expected, force);
              && store.file.db == Exec(world, old(store.file.db), call, clock, false)
              && r == ExecResult(world, old(store.file.db), call, clock, false)
    {
      var call := Call(taskId, Move(toState, order), expected, force);
      if toState !in STATES {
        return Failure(Invalid(UnknownState));
      }
      var guarded := Guard(call);
      if guarded.Failure? {
        return Failure(guarded.error);
      }
      var task := guarded.value;
      task := task.(state := toState);
      if order.Some? {
        task := task.(order := order.value);
      }
      NothingStaged(store.file.db, StagedFor(clock, guarded.value, task, call.op));
      r := Finish(call, clock, false, guarded.value, task);
    }

    method SoftDeleteTask(taskId: string, expected: Option<string>, clock: Clock) returns (r: Result<Task, OpError>)
      requires Ready()
      modifies store, store.file
      ensures Ready()
      ensures var call := Call(taskId, SoftDelete, expected, false);
              && store.file.db == Exec(world, old(store.file.db), call, clock, false)
              && r == ExecResult(world, old(store.file.db), call, clock, false)
    {
      var call := Call(taskId, SoftDelete, expected, false);
      var guarded := Guard(call);
      if guarded.Failure? {
        return Failure(guarded.error);
      }
      var task := guarded.value;
      task := task.(deletedAt := Some(clock.first));
      store.AppendEditAudit(EditRow(task.id, DeletedAt, Null, Str(clock.first), EDIT_ACTOR, clock.first), false);
      StagedOnlyEdit(old(store.file.db), StagedFor(clock, guarded.value, task, call.op));
      r := Finish(call, clock, false, guarded.value, task);
    }

    /** Operator edit: one audit row per audited field that actually changes, staged with the
        edit and committed by its put. */
    method UpdateTask(taskId: string, patch: Patch, expected: Option<string>, force: bool, clock: Clock)
      returns (r: Result<Task, OpError>)
      requires Ready()
      modifies store, store.file
      ensures Ready()
      ensures var call := Call(taskId, Update(patch), expected, force);
              && store.file.db == Exec(world, old(store.file.db), call, clock, false)
              && r == ExecResult(world, old(store.file.db), call, clock, false)
    {
      var call := Call(taskId, Update(patch), expected, force);
      var refused := UpdateCheck(world, patch, expected);
      if refused.Some? {
        return Failure(Invalid(refused.value));
      }
      var guarded := Guard(call);
      if guarded.Failure? {
        return Failure(guarded.error);
      }
      var task := guarded.value;
      var planned := PlanEdit(task, patch, clock);
      if planned.Failure? {
        return Failure(Invalid(planned.error));
      }
      var rows := AuditEntries(task, patch, clock.first);
      hide Edited, ChangedRows, UpdateCheck, Exec, ExecResult;
      StageEdits(rows);
      StagedOnlyEdit(old(store.file.db), StagedFor(clock, task, planned.value, call.op));
      r := Finish(call, clock, false, task, planned.value);
    }

    /** The checks that need the stored task, and the edited task they admit. */
    method PlanEdit(task: Task, patch: Patch, clock: Clock) returns (r: Result<Task, Why>)
      ensures r == TaskAfter(world, clock, false, task, Update(patch))
      ensures r.Success? ==> r.value == Edited(task, patch)
    {
      if patch.tier.Some? && task.tier.Some? && patch.tier != task.tier {
        return Failure(TierWriteOnce);
      }
      if patch.dependsOn.Given? && task.id in patch.dependsOn.value {
        return Failure(SelfReference);
      }
      var edited := ApplyPatch(task, patch);
      if patch.metadata.Given? {
        var within := Admission.CheckMetadataLimits(world.size, edited.metadata);
        if within.Failure? {
          return Failure(MetadataCaps);
        }
      }
      return Success(edited);
    }

    method StageEdits(rows: seq<EditRow>)
      requires store.Valid()
      modifies store`txn, store.file
      ensures store.Valid() && store.file.db == old(store.file.db)
      ensures store.View() == old(store.View()).(editAudit := old(store.View()).editAudit + rows)
    {
      assert old(store.View()).editAudit + rows[..0] == old(store.View()).editAudit;
      for i := 0 to |rows|
        invariant store.Valid() && store.file.db == old(store.file.db)
        invariant store.View() == old(store.View()).(editAudit := old(store.View()).editAudit + rows[..i])
      {
        store.AppendEditAudit(rows[i], false);
        assert rows[..i + 1] == rows[..i] + [rows[i]];
      }
      assert rows[..|rows|] == rows;
    }

    // ---- Governed controls ---------------------------------------------------------------------

    method RetierTask(taskId: string, newTier: int, reason: string, expected: Option<string>, actor: string, clock: Clock)
      returns (r: Result<Task, OpError>)
      requires Ready()
      modifies store, store.file
      ensures Ready()
      ensures var call := Call(taskId, Retier(newTier, reason, actor), expected, false);
              && store.file.db == Exec(world, old(store.file.db), call, clock, false)
              && r == ExecResult(world, old(store.file.db), call, clock, false)
    {
      var call := Call(taskId, Retier(newTier, reason, actor), expected, false);
      var guarded := Guard(call);
      if guarded.Failure? {
        return Failure(guarded.error);
      }
      var task := guarded.value;
      if task.tier.None? {
        return Failure(Invalid(Untiered));
      }
      if !(1 <= newTier <= 4) {
        return Failure(Invalid(TierRange));
      }
      if newTier == task.tier.value {
        return Failure(Invalid(SameTier));
      }
      if Blank(reason) {
        return Failure(Invalid(ReasonRequired));
      }
      var oldTier := task.tier.value;
      store.AppendTierAudit(TierRow(task.id, oldTier, newTier, newTier < oldTier, actor, reason, clock.first), false);
      task := task.(tier := Some(newTier));
      StagedOnlyTier(old(store.file.db), StagedFor(clock, guarded.value, task, call.op));
      r := Finish(call, clock, false, guarded.value, task);
    }

    method ArchiveTask(taskId: string, reason: string, expected: Option<string>, actor: string, clock: Clock)
      returns (r: Result<Task, OpError>)
      requires Ready()
      modifies store, store.file
      ensures Ready()
      ensures var call := Call(taskId, Archive(reason, actor), expected, false);
              var open := Governed.HasOpenEscalation(old(store.file.db), taskId);
              && store.file.db == Exec(world, old(store.file.db), call, clock, open)
              && r == ExecResult(world, old(store.file.db), call, clock, open)
    {
      var call := Call(taskId, Archive(reason, actor), expected, false);
      var guarded := Guard(call);
      if guarded.Failure? {
        return Failure(guarded.error);
      }
      var task := guarded.value;
      if task.archivedAt.Some? {
        return Failure(Invalid(AlreadyArchived));
      }
      var open := HasOpenEscalation(taskId);
      if open {
        return Failure(Invalid(OpenEscalation));
      }
      var staged := store.AppendArchiveAudit(ArchiveRow(task.id, DoArchive, actor, reason, clock.first), false);
      if !staged {
        return Failure(Invalid(ReasonRequired));
      }
      task := task.(archivedAt := Some(clock.second));
      StagedOnlyArchive(old(store.file.db), StagedFor(clock, guarded.value, task, call.op));
      r := Finish(call, clock, false, guarded.value, task);
    }

    method UnarchiveTask(taskId: string, reason: string, expected: Option<string>, actor: string, clock: Clock)
      returns (r: Result<Task, OpError>)
      requires Ready()
      modifies store, store.file
      ensures Ready()
      ensures var call := Call(taskId, Unarchive(reason, actor), expected, false);
              && store.file.db == Exec(world, old(store.file.db), call, clock, false)
              && r == ExecResult(world, old(store.file.db), call, clock, false)
    {
      var call := Call(taskId, Unarchive(reason, actor), expected, false);
      var guarded := Guard(call);
      if guarded.Failure? {
        return Failure(guarded.error);
      }
      var task := guarded.value;
      if task.archivedAt.None? {
        return Failure(Invalid(NotArchived));
      }
      var staged := store.AppendArchiveAudit(ArchiveRow(task.id, DoUnarchive, actor, reason, clock.first), false);
      if !staged {
        return Failure(Invalid(ReasonRequired));
      }
      task := task.(archivedAt := None);
      StagedOnlyArchive(old(store.file.db), StagedFor(clock, guarded.value, task, call.op));
      r := Finish(call, clock, false, guarded.value, task);
    }
  }

  // ---- The pieces of an edit -------------------------------------------------------------------

  /** Set the provided fields one by one. */
  method ApplyPatch(t: Task, patch: Patch) returns (task: Task)
    ensures task == Edited(t, patch)
  {
    task := PatchBody(t, patch);
    task := PatchPlanning(task, patch);
    var metadata := PatchMetadata(task.metadata, patch);
    hide EditedMetadata;
    task := task.(metadata := metadata);
    if patch.tier.Some? {
      task := task.(tier := patch.tier);
    }
  }

  method PatchBody(t: Task, patch: Patch) returns (task: Task)
    ensures task == t.(
              title := if patch.title.Some? then patch.title.value else t.title,
              acceptanceCriteria := if patch.acceptanceCriteria.Null? then t.acceptanceCriteria else patch.acceptanceCriteria,
              description := Or(patch.description, t.description))
  {
    task := t;
    if patch.title.Some? {
      task := task.(title := patch.title.value);
    }
    if !patch.acceptanceCriteria.Null? {
      task := task.(acceptanceCriteria := patch.acceptanceCriteria);
    }
    if patch.description.Given? {
      task := task.(description := patch.description.value);
    }
  }

  method PatchPlanning(t: Task, patch: Patch) returns (task: Task)
    ensures task == t.(
              effort := Or(patch.effort, t.effort),
              impact := Or(patch.impact, t.impact),
              due := Or(patch.due, t.due),
              dependsOn := Or(patch.dependsOn, t.dependsOn))
  {
    task := t;
    if patch.effort.Given? {
      task := task.(effort := patch.effort.value);
    }
    if patch.impact.Given? {
      task := task.(impact := patch.impact.value);
    }
    if patch.due.Given? {
      task := task.(due := patch.due.value);
    }
    if patch.dependsOn.Given? {
      task := task.(dependsOn := patch.dependsOn.value);
    }
  }

  /** Merge when there is something to merge; scrub keys of modelled fields either way. */
  method PatchMetadata(metadata: JsonObject, patch: Patch) returns (m: JsonObject)
    ensures forall t: Task | t.metadata == metadata :: m == EditedMetadata(t, patch)
  {
    m := metadata;
    if patch.metadata.Given? {
      var merged := MergeMetadata(metadata, patch.metadata.value);
      m := WithoutModeledCollisions(merged);
    } else if metadata != map[] {
      m := WithoutModeledCollisions(metadata);
    } else {
      assert WithoutModeledCollisions(map[]) == map[];
    }
  }

  /** Key by key: null pops, anything else sets. */
  method MergeMetadata(metadata: JsonObject, patch: JsonObject) returns (merged: JsonObject)
    ensures merged == Merged(metadata, patch)
  {
    merged := metadata;
    var rest := patch.Keys;
    while rest != {}
      invariant rest <= patch.Keys
      invariant merged == Merged(metadata, map k | k in patch && k !in rest :: patch[k])
    {
      var k :| k in rest;
      rest := rest - {k};
      if patch[k].Null? {
        merged := merged - {k};
      } else {
        merged := merged[k := patch[k]];
      }
    }
    assert (map k | k in patch && k !in rest :: patch[k]) == patch;
  }

  function RowIf(t: Task, u: Task, f: EditField, ts: string): seq<EditRow> {
    if FieldOf(t, f) == FieldOf(u, f) then [] else [EditRow(t.id, f, FieldOf(t, f), FieldOf(u, f), EDIT_ACTOR, ts)]
  }

  lemma ChangedRowsSnoc(t: Task, u: Task, fields: seq<EditField>, f: EditField, ts: string)
    ensures ChangedRows(t, u, fields + [f], ts) == ChangedRows(t, u, fields, ts) + RowIf(t, u, f, ts)
  {
    assert (fields + [f])[..|fields|] == fields;
    assert ChangedRows(t, u, fields, ts) + [] == ChangedRows(t, u, fields, ts);
  }

  /** The audited fields before and after an edit. */
  lemma FieldsOfEdit(t: Task, p: Patch)
    ensures FieldOf(t, Title) == Str(t.title)
    ensures FieldOf(Edited(t, p), Title) == if p.title.Some? then Str(p.title.value) else Str(t.title)
    ensures FieldOf(t, Description) == OptStr(t.description)
    ensures FieldOf(Edited(t, p), Description) == OptStr(Or(p.description, t.description))
    ensures FieldOf(t, Description) == FieldOf(Edited(t, p), Description) <==> t.description == Or(p.description, t.description)
    ensures FieldOf(t, Effort) == t.effort && FieldOf(Edited(t, p), Effort) == Or(p.effort, t.effort)
    ensures FieldOf(t, Impact) == t.impact && FieldOf(Edited(t, p), Impact) == Or(p.impact, t.impact)
    ensures FieldOf(t, Due) == OptStr(t.due) && FieldOf(Edited(t, p), Due) == OptStr(Or(p.due, t.due))
    ensures FieldOf(t, Due) == FieldOf(Edited(t, p), Due) <==> t.due == Or(p.due, t.due)
    ensures FieldOf(t, DependsOn) == StrList(t.dependsOn)
    ensures FieldOf(Edited(t, p), DependsOn) == StrList(Or(p.dependsOn, t.dependsOn))
    ensures FieldOf(t, DependsOn) == FieldOf(Edited(t, p), DependsOn) <==> t.dependsOn == Or(p.dependsOn, t.dependsOn)
  {
    FieldOfInjective(t, Edited(t, p));
  }

  /** Compare each provided field with the stored one, in the ledger's field order. */
  method AuditEntries(t: Task, patch: Patch, ts: string) returns (rows: seq<EditRow>)
    ensures rows == ChangedRows(t, Edited(t, patch), EDITED_FIELDS, ts)
  {
    ghost var u := Edited(t, patch);
    FieldsOfEdit(t, patch);
    ChangedRowsOfEdit(t, u, ts);
    hide Edited, FieldOf, StrList, OptStr, EditedMetadata, ChangedRows;
    var title := if patch.title.Some? && t.title != patch.title.value
      then [EditRow(t.id, Title, Str(t.title), Str(patch.title.value), EDIT_ACTOR, ts)] else [];
    assert title == RowIf(t, u, Title, ts);
    var description := if patch.description.Given? && t.description != patch.description.value
      then [EditRow(t.id, Description, OptStr(t.description), OptStr(patch.description.value), EDIT_ACTOR, ts)] else [];
    assert description == RowIf(t, u, Description, ts);
    var effort := if patch.effort.Given? && t.effort != patch.effort.value
      then [EditRow(t.id, Effort, t.effort, patch.effort.value, EDIT_ACTOR, ts)] else [];
    assert effort == RowIf(t, u, Effort, ts);
    var impact := if patch.impact.Given? && t.impact != patch.impact.value
      then [EditRow(t.id, Impact, t.impact, patch.impact.value, EDIT_ACTOR, ts)] else [];
    assert impact == RowIf(t, u, Impact, ts);
    var due := if patch.due.Given? && t.due != patch.due.value
      then [EditRow(t.id, Due, OptStr(t.due), OptStr(patch.due.value), EDIT_ACTOR, ts)] else [];
    assert due == RowIf(t, u, Due, ts);
    var dependsOn := if patch.dependsOn.Given? && t.dependsOn != patch.dependsOn.value
      then [EditRow(t.id, DependsOn, StrList(t.dependsOn), StrList(patch.dependsOn.value), EDIT_ACTOR, ts)] else [];
    assert dependsOn == RowIf(t, u, DependsOn, ts);
    rows := title + description + effort + impact + due + dependsOn;
  }

  lemma ChangedRowsOfEdit(t: Task, u: Task, ts: string)
    ensures ChangedRows(t, u, EDITED_FIELDS, ts) ==
            RowIf(t, u, Title, ts) + RowIf(t, u, Description, ts) + RowIf(t, u, Effort, ts) +
            RowIf(t, u, Impact, ts) + RowIf(t, u, Due, ts) + RowIf(t, u, DependsOn, ts)
  {
    ChangedRowsSnoc(t, u, [], Title, ts);
    ChangedRowsSnoc(t, u, [Title], Description, ts);
    ChangedRowsSnoc(t, u, [Title, Description], Effort, ts);
    ChangedRowsSnoc(t, u, [Title, Description, Effort], Impact, ts);
    ChangedRowsSnoc(t, u, [Title, Description, Effort, Impact], Due, ts);
    ChangedRowsSnoc(t, u, [Title, Description, Effort, Impact, Due], DependsOn, ts);
    hide RowIf;
    assert [] + [Title] == [Title] && [Title] + [Description] == [Title, Description];
    assert [Title, Description] + [Effort] == [Title, Description, Effort];
    assert [Title, Description, Effort] + [Impact] == [Title, Description, Effort, Impact];
    assert [Title, Description, Effort, Impact] + [Due] == [Title, Description, Effort, Impact, Due];
    assert [Title, Description, Effort, Impact, Due] + [DependsOn] == EDITED_FIELDS;
    assert ChangedRows(t, u, [], ts) == [] && [] + RowIf(t, u, Title, ts) == RowIf(t, u, Title, ts);
  }

  lemma NothingStaged(db: Db, st: Staged)
    requires st.tierRows == [] && st.archiveRows == [] && st.editRows == []
    ensures WithLedgers(db, st) == db
  {
    assert db.tierAudit + [] == db.tierAudit && db.archiveAudit + [] == db.archiveAudit && db.editAudit + [] == db.editAudit;
  }

  lemma StagedOnlyTier(db: Db, st: Staged)
    requires st.archiveRows == [] && st.editRows == []
    ensures WithLedgers(db, st) == db.(tierAudit := db.tierAudit + st.tierRows)
  {
    assert db.archiveAudit + [] == db.archiveAudit && db.editAudit + [] == db.editAudit;
  }

  lemma StagedOnlyArchive(db: Db, st: Staged)
    requires st.tierRows == [] && st.editRows == []
    ensures WithLedgers(db, st) == db.(archiveAudit := db.archiveAudit + st.archiveRows)
  {
    assert db.tierAudit + [] == db.tierAudit && db.editAudit + [] == db.editAudit;
  }

  lemma StagedOnlyEdit(db: Db, st: Staged)
    requires st.tierRows == [] && st.archiveRows == []
    ensures WithLedgers(db, st) == db.(editAudit := db.editAudit + st.editRows)
  {
    assert db.tierAudit + [] == db.tierAudit && db.archiveAudit + [] == db.archiveAudit;
  }
}
