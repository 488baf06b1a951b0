/** Preserved keys over whole histories: what a client reads back after creating a card and any
    accepted updates, and how the merge compares with RFC 7386. */
module ForeignKeys {
  import opened Wrappers
  import opened JsonValue
  import opened Entities
  import opened Database
  import opened CardKeys
  import opened Governed
  import opened Ledgers
  import opened SerialRuns
  import opened Projection
  import opened Wire

  // ---- Histories -----------------------------------------------------------------------------

  /** What happens after a card was created: a wire update of it, or any other work. */
  datatype Event =
    | Patched(patch: JsonObject, expected: string, force: bool, clock: Clock)
    | Elsewhere(txn: Txn)

  /** Other work may do anything but replace the card blindly or patch its metadata. */
  predicate LeavesMetadata(txn: Txn, id: string) {
    match txn
    case Write(e) => e.Key() != RowKey(Tasks, id)
    case Guarded(call, _, _) => call.taskId == id && call.op.Update? ==> call.op.patch.metadata.Unset?
  }

  predicate Modest(events: seq<Event>, id: string) {
    forall i | 0 <= i < |events| :: events[i].Elsewhere? ==> LeavesMetadata(events[i].txn, id)
  }

  function CallOf(id: string, e: Event): Call
    requires e.Patched? && Refusal(e.patch).None?
  {
    Call(id, Update(PatchOf(e.patch)), Some(e.expected), e.force)
  }

  /** The database after an event; a refused patch does nothing. */
  ghost function After(world: World, db: Db, id: string, e: Event): Db {
    match e
    case Elsewhere(txn) => ExecTxn(world, db, txn)
    case Patched(patch, _, _, clock) =>
      if Refusal(patch).Some? then db else Exec(world, db, CallOf(id, e), clock, false)
  }

  ghost predicate Accepted(world: World, db: Db, id: string, e: Event) {
    && e.Patched? && Refusal(e.patch).None?
    && ExecResult(world, db, CallOf(id, e), e.clock, false).Success?
  }

  ghost function AfterAll(world: World, db: Db, id: string, events: seq<Event>): Db {
    if events == [] then db
    else After(world, AfterAll(world, db, id, events[..|events| - 1]), id, events[|events| - 1])
  }

  /** The accepted patches of the card, in order. */
  ghost function Inputs(world: World, db: Db, id: string, events: seq<Event>): seq<JsonObject> {
    if events == [] then []
    else
      var front, e := events[..|events| - 1], events[|events| - 1];
      Inputs(world, db, id, front) + (if Accepted(world, AfterAll(world, db, id, front), id, e) then [e.patch] else [])
  }

  /** What should be preserved under `k`: the created value, then each patch in turn - null
      removes, anything else replaces, absent keeps. */
  function Kept(card: JsonObject, patches: seq<JsonObject>, k: string): Option<Json> {
    if patches == [] then Lookup(card, k)
    else
      var last := patches[|patches| - 1];
      if k !in last then Kept(card, patches[..|patches| - 1], k)
      else if last[k].Null? then None
      else Some(last[k])
  }

  function Lookup(m: JsonObject, k: string): Option<Json> {
    if k in m then Some(m[k]) else None
  }

  /** Stored metadata holds exactly what should be preserved. */
  ghost predicate Preserves(metadata: JsonObject, card: JsonObject, patches: seq<JsonObject>) {
    forall k :: Lookup(metadata, k) == if ForeignKey(k) then Kept(card, patches, k) else None
  }

  ghost predicate Holds(db: Db, id: string, card: JsonObject, patches: seq<JsonObject>) {
    TaskAt(db, id).Some? && Preserves(TaskAt(db, id).value.metadata, card, patches)
  }

  lemma ScrubKeeps(metadata: JsonObject, card: JsonObject, patches: seq<JsonObject>)
    requires Preserves(metadata, card, patches)
    ensures WithoutModeledCollisions(metadata) == metadata
  {
    forall k | k in metadata ensures k !in PROTECTED_CARD_KEYS {
      assert Lookup(metadata, k).Some?;
    }
    hide Preserves;
  }

  lemma MergePreserves(t: Task, card: JsonObject, patches: seq<JsonObject>, patch: JsonObject)
    requires Preserves(t.metadata, card, patches) && Refusal(patch).None?
    ensures Preserves(EditedMetadata(t, PatchOf(patch)), card, patches + [patch])
  {
    ScrubKeeps(t.metadata, card, patches);
    assert (patches + [patch])[..|patches|] == patches;
    var m := EditedMetadata(t, PatchOf(patch));
    hide Refusal, PROTECTED_CARD_KEYS, NON_METADATA_INPUT_KEYS;
    forall k ensures Lookup(m, k) == if ForeignKey(k) then Kept(card, patches + [patch], k) else None {
      assert Lookup(t.metadata, k) == if ForeignKey(k) then Kept(card, patches, k) else None;
      assert k in Foreign(patch) <==> k in patch && ForeignKey(k);
    }
  }

  lemma CommittedTaskAt(world: World, db: Db, call: Call, clock: Clock, openEscalation: bool)
    requires WellFormed(db) && ExecResult(world, db, call, clock, openEscalation).Success?
    ensures TaskAt(db, call.taskId).Some?
    ensures var t, t' := TaskAt(db, call.taskId).value, TaskAt(Exec(world, db, call, clock, openEscalation), call.taskId);
            && t'.Some?
            && TaskAfter(world, clock, openEscalation, t, call.op).Success?
            && t'.value == TaskAfter(world, clock, openEscalation, t, call.op).value.(version := t'.value.version)
    ensures forall id | id != call.taskId :: TaskAt(Exec(world, db, call, clock, openEscalation), id) == TaskAt(db, id)
  {
    var r := Prepare(world, db, call, clock, openEscalation);
    var (t, st) := r.value;
    ExecCommits(world, db, call, clock, openEscalation, t, st.entity.task);
  }

  lemma PatchedStep(world: World, db: Db, id: string, e: Event, card: JsonObject, patches: seq<JsonObject>)
    requires WellFormed(db) && Holds(db, id, card, patches) && e.Patched?
    ensures Holds(After(world, db, id, e), id, card, if Accepted(world, db, id, e) then patches + [e.patch] else patches)
  {
    hide Preserves, EditedMetadata, PatchOf, Prepare, Refusal, WellFormed, Exec, ExecResult;
    if Accepted(world, db, id, e) {
      CommittedTaskAt(world, db, CallOf(id, e), e.clock, false);
      MergePreserves(TaskAt(db, id).value, card, patches, e.patch);
    } else if Refusal(e.patch).None? {
      AllOrNothing(world, db, CallOf(id, e), e.clock, false);
    }
  }

  lemma OtherOpsKeepMetadata(world: World, clock: Clock, openEscalation: bool, t: Task, op: Op)
    requires TaskAfter(world, clock, openEscalation, t, op).Success? && (op.Update? ==> op.patch.metadata.Unset?)
    requires WithoutModeledCollisions(t.metadata) == t.metadata
    ensures TaskAfter(world, clock, openEscalation, t, op).value.metadata == t.metadata
  {
    hide WithoutModeledCollisions;
  }

  lemma OperationElsewhere(world: World, db: Db, id: string, call: Call, clock: Clock, openEscalation: bool, card: JsonObject, patches: seq<JsonObject>)
    requires WellFormed(db) && Holds(db, id, card, patches) && LeavesMetadata(Guarded(call, clock, openEscalation), id)
    ensures Holds(Exec(world, db, call, clock, openEscalation), id, card, patches)
  {
    ScrubKeeps(TaskAt(db, id).value.metadata, card, patches);
    hide Preserves, WithoutModeledCollisions;
    if ExecResult(world, db, call, clock, openEscalation).Success? {
      CommittedTaskAt(world, db, call, clock, openEscalation);
      if call.taskId == id {
        OtherOpsKeepMetadata(world, clock, openEscalation, TaskAt(db, id).value, call.op);
      }
      hide TaskAfter, Exec, ExecResult;
    } else {
      AllOrNothing(world, db, call, clock, openEscalation);
    }
  }

  lemma ElsewhereStep(world: World, db: Db, id: string, txn: Txn, card: JsonObject, patches: seq<JsonObject>)
    requires WellFormed(db) && Holds(db, id, card, patches) && LeavesMetadata(txn, id)
    ensures Holds(ExecTxn(world, db, txn), id, card, patches)
  {
    match txn
    case Write(e) =>
      if PutSucceeds(db, e, None) {
        TransactRows(world.hash, db, Alone(e), None);
      }
      assert TaskAt(ExecTxn(world, db, txn), id) == TaskAt(db, id);
    case Guarded(call, clock, openEscalation) => OperationElsewhere(world, db, id, call, clock, openEscalation, card, patches);
  }

  lemma AfterWellFormed(world: World, db: Db, id: string, e: Event)
    requires WellFormed(db)
    ensures WellFormed(After(world, db, id, e))
  {
    match e
    case Elsewhere(txn) => ExecTxnWellFormed(world, db, txn);
    case Patched(patch, _, _, clock) =>
      if Refusal(patch).None? {
        ExecTxnWellFormed(world, db, Guarded(CallOf(id, e), clock, false));
      }
  }

  lemma {:induction false} HistoryHolds(world: World, db: Db, id: string, card: JsonObject, events: seq<Event>)
    requires WellFormed(db) && TaskAt(db, id).Some? && TaskAt(db, id).value.metadata == Foreign(card) && Modest(events, id)
    ensures WellFormed(AfterAll(world, db, id, events))
    ensures Holds(AfterAll(world, db, id, events), id, card, Inputs(world, db, id, events))
  {
    if events != [] {
      var front, e := events[..|events| - 1], events[|events| - 1];
      HistoryHolds(world, db, id, card, front);
      var mid := AfterAll(world, db, id, front);
      AfterWellFormed(world, mid, id, e);
      var patches := Inputs(world, db, id, front);
      assert patches + [] == patches;
      hide Holds, Accepted, After;
      match e
      case Patched(_, _, _, _) => PatchedStep(world, mid, id, e, card, patches);
      case Elsewhere(txn) =>
        ElsewhereStep(world, mid, id, txn, card, patches);
        AfterElsewhere(world, mid, id, txn);
    }
  }

  lemma AfterElsewhere(world: World, db: Db, id: string, txn: Txn)
    ensures After(world, db, id, Elsewhere(txn)) == ExecTxn(world, db, txn) && !Accepted(world, db, id, Elsewhere(txn))
  {
  }

  /** What a client should read under an unprotected key: never an input-only one, otherwise what
      was sent, otherwise the documented default of an unmodelled field, otherwise nothing. */
  function Documented(card: JsonObject, patches: seq<JsonObject>, k: string): Option<Json> {
    if k in {"tier", "project_id"} then None
    else if Kept(card, patches, k).Some? then Kept(card, patches, k)
    else if k == "priority" then Some(Str("med"))
    else if k in {"checklist", "attachments"} then Some(Arr([]))
    else None
  }

  lemma PreservedShows(t: Task, badge: Json, card: JsonObject, patches: seq<JsonObject>, k: string)
    requires Preserves(t.metadata, card, patches) && k !in PROTECTED_CARD_KEYS
    ensures Lookup(CardOf(t, badge), k) == Documented(card, patches, k)
  {
    assert Lookup(t.metadata, k) == if ForeignKey(k) then Kept(card, patches, k) else None;
    UnprotectedShows(t, badge, k);
    hide CardOf, Kept, Preserves;
  }

  lemma UnprotectedShows(t: Task, badge: Json, k: string)
    requires k !in PROTECTED_CARD_KEYS
    ensures Lookup(CardOf(t, badge), k) ==
            if k in t.metadata then Some(t.metadata[k]) else if k in UNMODELED_CARD_KEYS then Some(Default(k)) else None
  {
    OverlayShows(t, badge, k);
    hide CardOf, Default;
  }

  /** Foreign-key round trip: a card created from `card` shows, under every key the spine does
      not model, the fold of what was created and patched since, whatever else went on. */
  lemma ForeignKeyRoundTrip(world: World, db: Db, id: string, card: JsonObject, events: seq<Event>, badge: Json, k: string)
    requires WellFormed(db) && TaskAt(db, id).Some? && TaskAt(db, id).value.metadata == Foreign(card)
    requires Modest(events, id) && k !in PROTECTED_CARD_KEYS
    ensures var now := TaskAt(AfterAll(world, db, id, events), id);
            now.Some? && Lookup(CardOf(now.value, badge), k) == Documented(card, Inputs(world, db, id, events), k)
  {
    HistoryHolds(world, db, id, card, events);
    var now := TaskAt(AfterAll(world, db, id, events), id);
    hide AfterAll, Inputs, CardOf, Documented, WellFormed, Foreign;
    PreservedShows(now.value, badge, card, Inputs(world, db, id, events), k);
  }

  // ---- RFC 7386 --------------------------------------------------------------------------------

  /** MergePatch, section 2 of RFC 7386. */
  function MergePatch(target: Json, patch: Json): Json
    decreases patch
  {
    if !patch.Obj? then patch
    else
      var base := if target.Obj? then target.fields else map[];
      Obj(map k | k in base.Keys + patch.fields.Keys && (k in patch.fields ==> !patch.fields[k].Null?)
            :: if k in patch.fields then MergePatch(if k in base then base[k] else Null, patch.fields[k]) else base[k])
  }

  /** Nothing for a deep merge to do: the patch holds no null and, wherever it and the stored
      value are both objects, it names every stored key. */
  predicate Covers(target: Json, patch: Json)
    decreases patch
  {
    patch.Obj? ==>
      && (target.Obj? ==> target.fields.Keys <= patch.fields.Keys)
      && forall k | k in patch.fields ::
           !patch.fields[k].Null?
           && Covers(if target.Obj? && k in target.fields then target.fields[k] else Null, patch.fields[k])
  }

  lemma {:induction false} MergePatchReplacesIff(target: Json, patch: Json)
    ensures MergePatch(target, patch) == patch <==> Covers(target, patch)
    decreases patch
  {
    if patch.Obj? {
      var base := if target.Obj? then target.fields else map[];
      var merged := MergePatch(target, patch).fields;
      forall k | k in patch.fields
        ensures MergePatch(if k in base then base[k] else Null, patch.fields[k]) == patch.fields[k] <==>
                Covers(if k in base then base[k] else Null, patch.fields[k])
      {
        MergePatchReplacesIff(if k in base then base[k] else Null, patch.fields[k]);
      }
      if Covers(target, patch) {
        assert merged.Keys == patch.fields.Keys;
        assert merged == patch.fields;
      }
    }
  }

  /** The merge is documented as RFC 7386. It agrees with it exactly when every object in the
      patch covers what is stored under its key. */
  lemma MergeIsRfc7386Iff(metadata: JsonObject, patch: JsonObject)
    ensures Obj(Merged(metadata, patch)) == MergePatch(Obj(metadata), Obj(patch)) <==>
            forall k | k in patch && !patch[k].Null? :: Covers(if k in metadata then metadata[k] else Null, patch[k])
  {
    var deep := MergePatch(Obj(metadata), Obj(patch)).fields;
    var shallow := Merged(metadata, patch);
    assert deep.Keys == shallow.Keys;
    forall k | k in patch && !patch[k].Null?
      ensures deep[k] == shallow[k] <==> Covers(if k in metadata then metadata[k] else Null, patch[k])
    {
      MergePatchReplacesIff(if k in metadata then metadata[k] else Null, patch[k]);
    }
    assert forall k | k in shallow && k !in patch :: deep[k] == shallow[k];
    if forall k | k in patch && !patch[k].Null? :: Covers(if k in metadata then metadata[k] else Null, patch[k]) {
      assert deep == shallow;
    }
  }

  /** The smallest case: patching one member of a stored object drops the others. */
  lemma NestedPatchDropsSiblings()
    ensures var metadata: JsonObject := map["x" := Obj(map["a" := Int(1)])];
            var patch: JsonObject := map["x" := Obj(map["b" := Int(2)])];
            && Merged(metadata, patch) == patch
            && MergePatch(Obj(metadata), Obj(patch)) == Obj(map["x" := Obj(map["a" := Int(1), "b" := Int(2)])])
  {
    var metadata: JsonObject := map["x" := Obj(map["a" := Int(1)])];
    var patch: JsonObject := map["x" := Obj(map["b" := Int(2)])];
    assert MergePatch(Null, Int(2)) == Int(2);
    assert MergePatch(metadata["x"], patch["x"]).fields == map["a" := Int(1), "b" := Int(2)];
    assert MergePatch(Obj(metadata), Obj(patch)).fields == map["x" := Obj(map["a" := Int(1), "b" := Int(2)])];
  }
}
