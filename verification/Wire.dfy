/** The card tools at the wire: what a JSON card or patch turns into, and what a client reads
    back after any sequence of accepted writes. */
module Wire {
  import opened Wrappers
  import opened JsonValue
  import opened Entities
  import opened Tokens
  import opened Database
  import opened CardKeys
  import opened Governed
  import opened Sorting
  import opened Projection
  import opened Storage
  import opened SpineFacade
  import opened Outcomes
  import Cards

  datatype WireError =
    | TierCannotBeCleared | ArchivedAtIsGoverned | DeletedAtIsGoverned | CreatedByIsWriteOnce
    | DependsOnNull | DependsOnShape | BadTier | BadTags | NotText

  datatype ToolError =
    | Malformed(what: WireError)
    | Missing
    | Stale(current: JsonObject)
    | Refused(why: Why)
    | Exhausted

  // ---- Preserved keys ------------------------------------------------------------------------

  predicate ForeignKey(k: string) {
    k !in PROTECTED_CARD_KEYS && k !in NON_METADATA_INPUT_KEYS
  }

  /** The keys of an input the spine preserves without understanding them. */
  function Foreign(card: JsonObject): JsonObject {
    map k | k in card && ForeignKey(k) :: card[k]
  }

  // ---- Tiers on the wire ---------------------------------------------------------------------

  predicate IsTierTag(s: string) {
    TIER_TAG_PREFIX <= s
  }

  predicate AllDigits(s: string) {
    s != "" && forall i | 0 <= i < |s| :: IsDigit(s[i])
  }

  function PatchTierToInt(v: Json): Result<int, WireError> {
    match v
    case Int(n) => Success(n)
    case Str(s) =>
      if IsTierTag(s) && AllDigits(s[|TIER_TAG_PREFIX|..]) && Digits(s[|TIER_TAG_PREFIX|..]).Some?
      then Success(Digits(s[|TIER_TAG_PREFIX|..]).value)
      else Failure(BadTier)
    case _ => Failure(BadTier)
  }

  function FirstTierTag(tags: seq<Json>): Option<Json> {
    if tags == [] then None
    else if tags[0].Str? && IsTierTag(tags[0].s) then Some(tags[0])
    else FirstTierTag(tags[1..])
  }

  /** A native `tier` wins; otherwise the first tier tag counts; otherwise the card is untiered. */
  function TierFromCardInput(card: JsonObject): Result<Option<int>, WireError> {
    if "tier" in card && !card["tier"].Null? then Wrapped(PatchTierToInt(card["tier"]))
    else if "tags" !in card || card["tags"].Null? then Success(None)
    else if !card["tags"].Arr? then Failure(BadTags)
    else
      match FirstTierTag(card["tags"].items)
      case None => Success(None)
      case Some(tag) => Wrapped(PatchTierToInt(tag))
  }

  function Wrapped(r: Result<int, WireError>): Result<Option<int>, WireError> {
    if r.Success? then Success(Some(r.value)) else Failure(r.error)
  }

  lemma {:induction false} DigitsOfDigits(s: string)
    requires AllDigits(s)
    ensures Digits(s).Some?
  {
    if |s| > 1 {
      DigitsOfDigits(s[..|s| - 1]);
    }
  }

  lemma TagReadsBack(n: int)
    ensures PatchTierToInt(Str(TIER_TAG_PREFIX + IntText(n))) == if n >= 0 then Success(n) else Failure(BadTier)
  {
    var tag := TIER_TAG_PREFIX + IntText(n);
    assert tag[|TIER_TAG_PREFIX|..] == IntText(n);
    if n >= 0 {
      DigitsOfDecimal(n);
    } else {
      assert IntText(n)[0] == '-';
    }
  }

  /** An integer, or the tag the lens emits with its digits. */
  ghost predicate ReadsAsTier(v: Json) {
    v.Int? || (v.Str? && exists digits :: AllDigits(digits) && v.s == "tier:" + digits)
  }

  /** What a wire tier means: a number is itself, a tag is its number, anything else is refused. */
  lemma TierReads(v: Json)
    ensures PatchTierToInt(v).Success? <==> ReadsAsTier(v)
    ensures PatchTierToInt(v).Failure? ==> PatchTierToInt(v) == Failure(BadTier)
    ensures v.Int? ==> PatchTierToInt(v) == Success(v.n)
    ensures forall digits | AllDigits(digits) && v == Str("tier:" + digits) ::
              Digits(digits).Some? && PatchTierToInt(v) == Success(Digits(digits).value)
  {
    forall digits | AllDigits(digits) && v == Str("tier:" + digits)
      ensures Digits(digits).Some? && IsTierTag(v.s) && v.s[|TIER_TAG_PREFIX|..] == digits
    {
      DigitsOfDigits(digits);
    }
    if v.Str? && IsTierTag(v.s) && AllDigits(v.s[|TIER_TAG_PREFIX|..]) {
      assert v.s == "tier:" + v.s[|TIER_TAG_PREFIX|..];
    }
    hide Digits;
  }

  /** A native tier wins; otherwise the first tag that is meant as a tier; otherwise the card is
      untiered. */
  lemma TierFromInput(card: JsonObject, before: seq<Json>, tag: Json, after: seq<Json>)
    requires forall t | t in before :: !(t.Str? && "tier:" <= t.s)
    ensures "tier" in card && card["tier"] != Null ==>
              (TierFromCardInput(card) == match PatchTierToInt(card["tier"])
                                          case Success(n) => Success(Some(n))
                                          case Failure(e) => Failure(e))
    ensures ("tier" !in card || card["tier"] == Null) && ("tags" !in card || card["tags"] == Null || card["tags"] == Arr(before)) ==>
              TierFromCardInput(card) == Success(None)
    ensures ("tier" !in card || card["tier"] == Null) && "tags" in card && card["tags"] != Null && !card["tags"].Arr? ==>
              TierFromCardInput(card) == Failure(BadTags)
    ensures ("tier" !in card || card["tier"] == Null) && "tags" in card && card["tags"] == Arr(before + [tag] + after)
            && tag.Str? && "tier:" <= tag.s ==>
              (TierFromCardInput(card) == match PatchTierToInt(tag)
                                          case Success(n) => Success(Some(n))
                                          case Failure(e) => Failure(e))
  {
    FirstTierTagIs(before, tag, after);
    hide PatchTierToInt, FirstTierTag;
  }

  lemma {:induction false} FirstTierTagIs(before: seq<Json>, tag: Json, after: seq<Json>)
    requires forall t | t in before :: !(t.Str? && "tier:" <= t.s)
    ensures FirstTierTag(before) == None
    ensures tag.Str? && "tier:" <= tag.s ==> FirstTierTag(before + [tag] + after) == Some(tag)
  {
    if before != [] {
      assert before[0] in before && forall t | t in before[1..] :: t in before;
      FirstTierTagIs(before[1..], tag, after);
      assert (before + [tag] + after)[1..] == before[1..] + [tag] + after;
    }
  }

  /** A projected card fed back as an input carries the tier it was projected from - precisely
      when that tier is not negative. */
  lemma TierTagRoundTrip(t: Task, badge: Json)
    requires "tier" !in t.metadata
    ensures TierFromCardInput(CardOf(t, badge)) == Success(t.tier) <==> (t.tier.Some? ==> t.tier.value >= 0)
  {
    CardFields(t, badge);
    NoTierKey(t, badge);
    TagsCarryTier(t);
    if t.tier.Some? {
      TagReadsBack(t.tier.value);
    }
    hide CardOf, PatchTierToInt, FirstTierTag, TagsFor, IntText;
  }

  lemma NoTierKey(t: Task, badge: Json)
    requires "tier" !in t.metadata
    ensures "tier" !in CardOf(t, badge)
  {
    hide CardField;
  }

  lemma TagsCarryTier(t: Task)
    ensures FirstTierTag(TagsFor(t)) ==
            if t.tier.Some? then Some(Str(TIER_TAG_PREFIX + IntText(t.tier.value))) else None
  {
    hide IntText;
  }

  // ---- A wire patch as the facade's patch --------------------------------------------------------

  predicate ListOfIds(v: Json) {
    v.Arr? && forall i | 0 <= i < |v.items| :: v.items[i].Str? && v.items[i].s != ""
  }

  function Ids(items: seq<Json>): seq<string>
    requires forall i | 0 <= i < |items| :: items[i].Str?
  {
    seq(|items|, i requires 0 <= i < |items| => items[i].s)
  }

  predicate Text(v: Json) {
    v.Null? || v.Str?
  }

  function AsText(v: Json): Option<string> {
    if v.Str? then Some(v.s) else None
  }

  function Refusal(patch: JsonObject): Option<WireError> {
    if "tier" in patch && patch["tier"].Null? then Some(TierCannotBeCleared)
    else if "archived_at" in patch && patch["archived_at"].Null? then Some(ArchivedAtIsGoverned)
    else if "deleted_at" in patch && patch["deleted_at"].Null? then Some(DeletedAtIsGoverned)
    else if "created_by" in patch then Some(CreatedByIsWriteOnce)
    else if "depends_on" in patch && patch["depends_on"].Null? then Some(DependsOnNull)
    else if "depends_on" in patch && !ListOfIds(patch["depends_on"]) then Some(DependsOnShape)
    else if "tier" in patch && PatchTierToInt(patch["tier"]).Failure? then Some(BadTier)
    else if exists k | k in ["title", "description", "due"] :: k in patch && !Text(patch[k]) then Some(NotText)
    else None
  }

  function GivenText(patch: JsonObject, k: string): Given<Option<string>> {
    if k in patch then Given(AsText(patch[k])) else Unset
  }

  function GivenValue(patch: JsonObject, k: string): Given<Json> {
    if k in patch then Given(patch[k]) else Unset
  }

  /** The facade call a wire patch means. */
  function PatchOf(patch: JsonObject): Patch
    requires Refusal(patch).None?
  {
    Patch(
      if "title" in patch then AsText(patch["title"]) else None,
      if "acceptance_criteria" in patch then patch["acceptance_criteria"] else Null,
      GivenText(patch, "description"),
      GivenValue(patch, "effort"),
      GivenValue(patch, "impact"),
      GivenText(patch, "due"),
      if "depends_on" in patch then Given(Ids(patch["depends_on"].items)) else Unset,
      if Foreign(patch) != map[] then Given(Foreign(patch)) else Unset,
      if "tier" in patch then Some(PatchTierToInt(patch["tier"]).value) else None)
  }

  method CheckDependsOn(v: Json) returns (e: Option<WireError>)
    ensures e == if v.Null? then Some(DependsOnNull) else if !ListOfIds(v) then Some(DependsOnShape) else None
  {
    if v.Null? {
      return Some(DependsOnNull);
    }
    if !v.Arr? {
      return Some(DependsOnShape);
    }
    for i := 0 to |v.items|
      invariant forall j | 0 <= j < i :: v.items[j].Str? && v.items[j].s != ""
    {
      if !v.items[i].Str? || v.items[i].s == "" {
        return Some(DependsOnShape);
      }
    }
    return None;
  }

  method CheckRefusal(patch: JsonObject) returns (e: Option<WireError>)
    ensures e == Refusal(patch)
  {
    if "tier" in patch && patch["tier"].Null? {
      return Some(TierCannotBeCleared);
    }
    if "archived_at" in patch && patch["archived_at"].Null? {
      return Some(ArchivedAtIsGoverned);
    }
    if "deleted_at" in patch && patch["deleted_at"].Null? {
      return Some(DeletedAtIsGoverned);
    }
    if "created_by" in patch {
      return Some(CreatedByIsWriteOnce);
    }
    if "depends_on" in patch {
      var bad := CheckDependsOn(patch["depends_on"]);
      if bad.Some? {
        return bad;
      }
    }
    if "tier" in patch && PatchTierToInt(patch["tier"]).Failure? {
      return Some(BadTier);
    }
    if ("title" in patch && !Text(patch["title"])) || ("description" in patch && !Text(patch["description"]))
       || ("due" in patch && !Text(patch["due"])) {
      assert "title" in ["title", "description", "due"] && "description" in ["title", "description", "due"];
      assert ["title", "description", "due"][2] == "due";
      return Some(NotText);
    }
    return None;
  }

  /** Fill in the keyword arguments key by key, touching only what the patch carries. */
  method Kwargs(patch: JsonObject) returns (p: Patch)
    requires Refusal(patch).None?
    ensures p == PatchOf(patch)
  {
    p := EmptyPatch;
    hide Refusal, PatchTierToInt;
    if "title" in patch {
      p := p.(title := AsText(patch["title"]));
    }
    if "acceptance_criteria" in patch {
      p := p.(acceptanceCriteria := patch["acceptance_criteria"]);
    }
    if "description" in patch {
      p := p.(description := Given(AsText(patch["description"])));
    }
    if "effort" in patch {
      p := p.(effort := Given(patch["effort"]));
    }
    if "impact" in patch {
      p := p.(impact := Given(patch["impact"]));
    }
    if "due" in patch {
      p := p.(due := Given(AsText(patch["due"])));
    }
    UnrefusedShape(patch);
    if "depends_on" in patch {
      p := p.(dependsOn := Given(Ids(patch["depends_on"].items)));
    }
    if "tier" in patch {
      p := p.(tier := Some(PatchTierToInt(patch["tier"]).value));
    }
    var foreign := Foreign(patch);
    if foreign != map[] {
      p := p.(metadata := Given(foreign));
    }
  }

  lemma UnrefusedShape(patch: JsonObject)
    requires Refusal(patch).None?
    ensures "depends_on" in patch ==> ListOfIds(patch["depends_on"])
    ensures "tier" in patch ==> PatchTierToInt(patch["tier"]).Success?
    ensures "title" in patch ==> Text(patch["title"])
    ensures "description" in patch ==> Text(patch["description"])
    ensures "due" in patch ==> Text(patch["due"])
  {
    assert "title" in ["title", "description", "due"] && "description" in ["title", "description", "due"];
    assert ["title", "description", "due"][2] == "due";
  }

  predicate NullAt(patch: JsonObject, k: string) {
    k in patch && patch[k] == Null
  }

  predicate TextAt(patch: JsonObject, k: string) {
    k in patch ==> patch[k] == Null || patch[k].Str?
  }

  /** What the wire refuses of a patch before anything is read, in this order: clearing the tier,
      the archive or the deletion mark; any creator; dependencies that are null, or no list of
      names; a tier that does not read as one; text fields that are no text. */
  lemma RefusalIs(patch: JsonObject)
    ensures var tier := !NullAt(patch, "tier");
            var archived := tier && !NullAt(patch, "archived_at");
            var deleted := archived && !NullAt(patch, "deleted_at");
            var creator := deleted && "created_by" !in patch;
            var listed := creator && !NullAt(patch, "depends_on");
            var named := listed && ("depends_on" in patch ==>
                           patch["depends_on"].Arr? && forall v | v in patch["depends_on"].items :: v.Str? && v.s != "");
            var readable := named && ("tier" in patch ==> ReadsAsTier(patch["tier"]));
            var text := readable && TextAt(patch, "title") && TextAt(patch, "description") && TextAt(patch, "due");
            var refused := Refusal(patch);
            && (refused == Some(TierCannotBeCleared) <==> !tier)
            && (refused == Some(ArchivedAtIsGoverned) <==> tier && !archived)
            && (refused == Some(DeletedAtIsGoverned) <==> archived && !deleted)
            && (refused == Some(CreatedByIsWriteOnce) <==> deleted && !creator)
            && (refused == Some(DependsOnNull) <==> creator && !listed)
            && (refused == Some(DependsOnShape) <==> listed && !named)
            && (refused == Some(BadTier) <==> named && !readable)
            && (refused == Some(NotText) <==> readable && !text)
            && (refused == None <==> text)
  {
    if "tier" in patch {
      TierReads(patch["tier"]);
    }
    hide PatchTierToInt, ReadsAsTier;
    var texts := ["title", "description", "due"];
    assert texts[0] == "title" && texts[1] == "description" && texts[2] == "due";
  }

  // ---- The update tool -----------------------------------------------------------------------

  /** What the client is told: the card as it is now, or the error with the current card. */
  function Reply(r: Result<Task, OpError>, es: seq<Escalation>): Result<JsonObject, ToolError> {
    match r
    case Success(t) => Success(CardOf(t, BadgeOf(es, t.id)))
    case Failure(NotFound) => Failure(Missing)
    case Failure(Conflict(current)) => Failure(Stale(Cards.RenderAny(es)(current)))
    case Failure(Invalid(why)) => Failure(Refused(why))
    case Failure(OutOfSeq) => Failure(Exhausted)
  }

  lemma BoardOfOne(t: Task, es: seq<Escalation>)
    requires t.deletedAt.None?
    ensures Board([t], es) == [CardOf(t, BadgeOf(es, t.id))]
  {
    assert [t][..0] == [];
    assert Filter(Live, [t]) == Filter(Live, []) + [t] == [t];
    assert Sort(TaskKey, [t]) == Insert(TaskKey, t, Sort(TaskKey, [])) == [t];
  }

  lemma UpdatedIsLive(world: World, db: Db, call: Call, clock: Clock)
    requires call.op.Update? && ExecResult(world, db, call, clock, false).Success?
    ensures ExecResult(world, db, call, clock, false).value.deletedAt.None?
  {
  }

  /** The one-task board a tool answers with. */
  method LiveCard(store: Store, t: Task) returns (card: JsonObject)
    requires store.Valid() && store.txn.None? && t.deletedAt.None?
    ensures card == CardOf(t, BadgeOf(EscalationsOf(store.file.db), t.id))
  {
    var rows := store.ListAll(Escalations);
    BoardOfOne(t, EscalationsIn(rows));
    var cards := Projection.Project([t], EscalationsIn(rows));
    card := cards[0];
  }

  method ConflictCard(store: Store, current: Task) returns (card: JsonObject)
    requires store.Valid() && store.txn.None?
    ensures card == Cards.RenderAny(EscalationsOf(store.file.db))(current)
  {
    if current.deletedAt.Some? {
      card := Cards.TombstoneCard(current);
    } else {
      card := LiveCard(store, current);
    }
  }

  method Answer(store: Store, outcome: Result<Task, OpError>) returns (r: Result<JsonObject, ToolError>)
    requires store.Valid() && store.txn.None? && (outcome.Success? ==> outcome.value.deletedAt.None?)
    ensures r == Reply(outcome, EscalationsOf(store.file.db))
  {
    hide CardOf, BadgeOf;
    match outcome
    case Success(t) =>
      var card := LiveCard(store, t);
      return Success(card);
    case Failure(Conflict(current)) =>
      var card := ConflictCard(store, current);
      return Failure(Stale(card));
    case Failure(NotFound) => return Failure(Missing);
    case Failure(Invalid(why)) => return Failure(Refused(why));
    case Failure(OutOfSeq) => return Failure(Exhausted);
  }

  method CardUpdate(spine: Spine, id: string, patch: JsonObject, expected: string, force: bool, clock: Clock)
    returns (r: Result<JsonObject, ToolError>)
    requires spine.Ready()
    modifies spine.store, spine.store.file
    ensures spine.Ready()
    ensures Refusal(patch).Some? ==> r == Failure(Malformed(Refusal(patch).value)) && spine.store.file.db == old(spine.store.file.db)
    ensures Refusal(patch).None? ==>
              var call := Call(id, Update(PatchOf(patch)), Some(expected), force);
              && spine.store.file.db == Exec(spine.world, old(spine.store.file.db), call, clock, false)
              && r == Reply(ExecResult(spine.world, old(spine.store.file.db), call, clock, false), EscalationsOf(spine.store.file.db))
  {
    var refused := CheckRefusal(patch);
    if refused.Some? {
      return Failure(Malformed(refused.value));
    }
    var p := Kwargs(patch);
    ghost var before := spine.store.file.db;
    ghost var call := Call(id, Update(p), Some(expected), force);
    hide PatchOf, Refusal, Exec, ExecResult, CardOf;
    var task := spine.UpdateTask(id, p, Some(expected), force, clock);
    if task.Success? {
      UpdatedIsLive(spine.world, before, call, clock);
    }
    r := Answer(spine.store, task);
  }

  /** What the caller of an unrefused patch is told: that the card is missing; the card as it is
      shown now when the token is stale or the card deleted; why the edit is refused; or the card
      it has become. */
  lemma UpdateTold(world: World, db: Db, id: string, patch: JsonObject, token: string, force: bool, clock: Clock)
    requires WellFormed(db) && db.hwm.Some? && Refusal(patch).None?
    ensures var call := Call(id, Update(PatchOf(patch)), Some(token), force);
            var outcome, db' := ExecResult(world, db, call, clock, false), Exec(world, db, call, clock, false);
            WellFormed(db') &&
            var told := Reply(outcome, EscalationsOf(db'));
            var inOrder, row := PatchInOrder(world, PatchOf(patch), Some(token)), TaskAt(db, id);
            var current := row.Some? && (force || row.value.version == Some(token));
            && (told == Failure(Missing) <==> inOrder && row.None?)
            && (told.Failure? && told.error.Stale? <==> inOrder && row.Some? && (row.value.deletedAt.Some? || !current))
            && (told.Failure? && told.error.Stale? && row.value.deletedAt.None? ==>
                  && told == Failure(Stale(CardOf(row.value, BadgeOf(EscalationsOf(db), id)))) && told.error.current in BoardOf(db))
            && (told.Failure? && told.error.Stale? && row.value.deletedAt.Some? ==>
                  told == Failure(Stale(Cards.RenderAny(EscalationsOf(db))(row.value))))
            && (forall why :: told == Failure(Refused(why)) <==> outcome == Failure(Invalid(why)))
            && (told == Failure(Exhausted) <==> outcome == Failure(OutOfSeq))
            && (told.Failure? ==> db' == db)
            && (told.Success? ==>
                  var now := TaskAt(db', id);
                  && now == Some(outcome.value) && told.value == CardOf(now.value, BadgeOf(EscalationsOf(db'), id)) && told.value in BoardOf(db'))
  {
    hide *;
    var p := PatchOf(patch);
    var call := Call(id, Update(p), Some(token), force);
    var outcome, db' := ExecResult(world, db, call, clock, false), Exec(world, db, call, clock, false);
    UpdateOutcome(world, db, id, p, Some(token), force, clock);
    RowAnswersAre(outcome, PatchInOrder(world, p, Some(token)), db, id, Some(token), force);
    ExecWellFormed(world, db, call, clock, false);
    ReplyIs(outcome, db');
    RowIsNamed(db, id);
    if TaskAt(db, id).Some? {
      MayWriteIs(TaskAt(db, id).value, token, force);
      ShownOnBoard(db, TaskAt(db, id).value);
    }
    if outcome.Success? {
      UpdatedRow(world, db, id, p, token, force, clock);
      ShownOnBoard(db', outcome.value);
    }
  }

  lemma MayWriteIs(t: Task, token: string, force: bool)
    ensures MayWrite(t, Some(token), force) <==> t.deletedAt.None? && (force || t.version == Some(token))
  {
  }

  lemma UpdatedRow(world: World, db: Db, id: string, p: Patch, token: string, force: bool, clock: Clock)
    requires WellFormed(db) && db.hwm.Some?
    requires ExecResult(world, db, Call(id, Update(p), Some(token), force), clock, false).Success?
    ensures var call := Call(id, Update(p), Some(token), force);
            var u := ExecResult(world, db, call, clock, false).value;
            u.id == id && u.deletedAt.None? && TaskAt(Exec(world, db, call, clock, false), id) == Some(u)
  {
    var call := Call(id, Update(p), Some(token), force);
    var u := ExecResult(world, db, call, clock, false).value;
    UpdateOutcome(world, db, id, p, Some(token), force, clock);
    RowIsNamed(db, id);
    var t := TaskAt(db, id).value;
    assert u.id == t.id && u.deletedAt == t.deletedAt;
    hide *;
    WroteRow(world.hash, db, Exec(world, db, call, clock, false), u, !force, [], [], Changes(t, u, clock.first));
  }

  lemma ExecWellFormed(world: World, db: Db, call: Call, clock: Clock, open: bool)
    requires WellFormed(db)
    ensures WellFormed(Exec(world, db, call, clock, open))
    ensures forall k | k in Exec(world, db, call, clock, open).order :: k in Exec(world, db, call, clock, open).rows
    ensures forall k | k in db.order :: k in db.rows
  {
    var r := Prepare(world, db, call, clock, open);
    if r.Success? {
      TransactWellFormed(world.hash, db, r.value.1, call.CasToken());
    }
  }

  lemma RowIsNamed(db: Db, id: string)
    requires WellFormed(db)
    ensures TaskAt(db, id).Some? ==> TaskAt(db, id).value.id == id
  {
  }

  lemma ShownOnBoard(db: Db, t: Task)
    requires WellFormed(db) && TaskAt(db, t.id) == Some(t)
    ensures t.deletedAt.None? ==>
              CardOf(t, BadgeOf(EscalationsOf(db), t.id)) in BoardOf(db)
              && Cards.RenderAny(EscalationsOf(db))(t) == CardOf(t, BadgeOf(EscalationsOf(db), t.id))
  {
    BoardIsExact(db);
    Cards.RenderAnyIs(EscalationsOf(db), t);
    hide CardOf, BadgeOf, EscalationsOf, BoardOf;
  }

  lemma ReplyIs(outcome: Result<Task, OpError>, db: Db)
    requires forall k | k in db.order :: k in db.rows
    ensures var told, es := Reply(outcome, EscalationsOf(db)), EscalationsOf(db);
            && (outcome.Success? <==> told.Success?)
            && (outcome.Success? ==> told.value == CardOf(outcome.value, BadgeOf(es, outcome.value.id)))
            && (told == Failure(Missing) <==> outcome == Failure(NotFound))
            && (told.Failure? && told.error.Stale? <==> outcome.Failure? && outcome.error.Conflict?)
            && (outcome.Failure? && outcome.error.Conflict? ==> told == Failure(Stale(Cards.RenderAny(es)(outcome.error.current))))
            && (forall why :: told == Failure(Refused(why)) <==> outcome == Failure(Invalid(why)))
            && (told == Failure(Exhausted) <==> outcome == Failure(OutOfSeq))
  {
    hide CardOf, BadgeOf, EscalationsOf, Cards.RenderAny;
  }

  /** The create tool once its targeting is settled: the preserved keys of the input become the
      metadata of the new task, nulls included. */
  method CardCreate(spine: Spine, card: JsonObject, input: TaskInput) returns (r: Result<JsonObject, CreateError>)
    requires spine.Ready()
    modifies spine.store, spine.store.file
    ensures spine.Ready()
    ensures r.Failure? ==> spine.store.file.db == old(spine.store.file.db)
    ensures r.Success? ==>
              var t := TaskAt(spine.store.file.db, input.freshId);
              && t.Some? && t.value.metadata == Foreign(card)
              && t.value == NewTask(input.(metadata := Foreign(card)), t.value.order).(version := t.value.version)
              && r.value == CardOf(t.value, BadgeOf(EscalationsOf(spine.store.file.db), input.freshId))
  {
    hide CardOf, Foreign, AdmissibleInput, RankLeft, LiveTask, InputAnswers, AboutTheInput, AtTheEnd, WellShapedCreatedBy, Transact,
         Stamped;
    ghost var before := spine.store.file.db;
    var created := spine.CreateTask(input.(metadata := Foreign(card)));
    if created.Failure? {
      return Failure(created.error);
    }
    var t := created.value;
    CreatedTaskAt(spine.world.hash, before, TaskRow(NewTask(input.(metadata := Foreign(card)), t.order)));
    var shown := LiveCard(spine.store, t);
    return Success(shown);
  }

  lemma CreatedTaskAt(hash: Hash, db: Db, e: Entity)
    requires e.TaskRow? && PutSucceeds(db, e, None)
    ensures TaskAt(Transact(hash, db, Alone(e), None), e.task.id) == Some(Stamped(hash, db.hwm.value + 1, e).task)
  {
    TransactRows(hash, db, Alone(e), None);
  }

  // ---- What an accepted patch does to the modelled fields ----------------------------------------

  function Sent(patch: JsonObject, before: JsonObject, k: string, nullCounts: bool): Option<Json> {
    if k in patch && (nullCounts || !patch[k].Null?) then Some(patch[k])
    else if k in before then Some(before[k])
    else None
  }

  /** The value a patched card shows under a protected key, given what it showed before. */
  function Shown(patch: JsonObject, before: JsonObject, k: string): Option<Json> {
    if k in ["title", "acceptance_criteria"] then Sent(patch, before, k, false)
    else if k in ["description", "effort", "impact", "due", "depends_on"] then Sent(patch, before, k, true)
    else if k == "tags" && "tier" in patch && PatchTierToInt(patch["tier"]).Success?
    then Some(Arr([Str(TIER_TAG_PREFIX + IntText(PatchTierToInt(patch["tier"]).value))]))
    else if k in before then Some(before[k])
    else None
  }

  lemma StrListOfIds(v: Json)
    requires ListOfIds(v)
    ensures StrList(Ids(v.items)) == v
  {
    assert StrList(Ids(v.items)).items == v.items;
  }

  /** The edited fields as the client sees them. */
  lemma EditedFields(t: Task, patch: JsonObject)
    requires Refusal(patch).None?
    ensures var u := Edited(t, PatchOf(patch));
            && Str(u.title) == (if "title" in patch && !patch["title"].Null? then patch["title"] else Str(t.title))
            && u.acceptanceCriteria == (if "acceptance_criteria" in patch && !patch["acceptance_criteria"].Null?
                                        then patch["acceptance_criteria"] else t.acceptanceCriteria)
            && OptStr(u.description) == (if "description" in patch then patch["description"] else OptStr(t.description))
            && u.effort == (if "effort" in patch then patch["effort"] else t.effort)
            && u.impact == (if "impact" in patch then patch["impact"] else t.impact)
            && OptStr(u.due) == (if "due" in patch then patch["due"] else OptStr(t.due))
            && StrList(u.dependsOn) == (if "depends_on" in patch then patch["depends_on"] else StrList(t.dependsOn))
            && u.tier == (if "tier" in patch then Some(PatchTierToInt(patch["tier"]).value) else t.tier)
  {
    UnrefusedShape(patch);
    if "depends_on" in patch {
      StrListOfIds(patch["depends_on"]);
    }
    hide PatchTierToInt, EditedMetadata, StrList, Foreign, Refusal;
  }

  lemma PatchedFields(t: Task, badge: Json)
    ensures CardField(t, badge, "title") == Str(t.title)
    ensures CardField(t, badge, "acceptance_criteria") == t.acceptanceCriteria
    ensures CardField(t, badge, "description") == OptStr(t.description)
    ensures CardField(t, badge, "effort") == t.effort
    ensures CardField(t, badge, "impact") == t.impact
    ensures CardField(t, badge, "due") == OptStr(t.due)
    ensures CardField(t, badge, "depends_on") == StrList(t.dependsOn)
    ensures CardField(t, badge, "tags") == Arr(TagsFor(t))
  {
  }

  lemma UnpatchedField(t: Task, p: Patch, badge: Json, k: string)
    requires k !in ["title", "acceptance_criteria"] && k !in ["description", "effort", "impact", "due", "depends_on"] && k != "tags"
    ensures CardField(Edited(t, p), badge, k) == CardField(t, badge, k)
  {
    assert ["title", "acceptance_criteria"][1] == "acceptance_criteria";
    var nullable := ["description", "effort", "impact", "due", "depends_on"];
    assert nullable[1] == "effort" && nullable[2] == "impact" && nullable[3] == "due" && nullable[4] == "depends_on";
    hide OptStr, StrList, TagsFor, EditedMetadata;
  }

  lemma OmissibleField(t: Task, patch: JsonObject, badge: Json, k: string)
    requires Refusal(patch).None? && k in ["title", "acceptance_criteria"]
    ensures Some(CardField(Edited(t, PatchOf(patch)), badge, k)) == Sent(patch, map[k := CardField(t, badge, k)], k, false)
  {
    EditedFields(t, patch);
    PatchedFields(t, badge);
    PatchedFields(Edited(t, PatchOf(patch)), badge);
    hide Edited, PatchOf, OptStr, StrList, Refusal, CardField, TagsFor;
  }

  lemma NullableField(t: Task, patch: JsonObject, badge: Json, k: string)
    requires Refusal(patch).None? && k in ["description", "effort", "impact", "due", "depends_on"]
    ensures Some(CardField(Edited(t, PatchOf(patch)), badge, k)) == Sent(patch, map[k := CardField(t, badge, k)], k, true)
  {
    EditedFields(t, patch);
    PatchedFields(t, badge);
    PatchedFields(Edited(t, PatchOf(patch)), badge);
    hide Edited, PatchOf, OptStr, StrList, Refusal, CardField, TagsFor;
  }

  lemma TagsField(t: Task, patch: JsonObject, badge: Json)
    requires Refusal(patch).None?
    ensures CardField(Edited(t, PatchOf(patch)), badge, "tags") ==
            if "tier" in patch then Arr([Str(TIER_TAG_PREFIX + IntText(PatchTierToInt(patch["tier"]).value))])
            else CardField(t, badge, "tags")
  {
    UnrefusedShape(patch);
    PlaceFields(t, badge);
    PlaceFields(Edited(t, PatchOf(patch)), badge);
    hide PatchTierToInt, IntText, Refusal, EditedMetadata, CardField;
  }

  lemma EditedField(t: Task, patch: JsonObject, badge: Json, k: string)
    requires Refusal(patch).None?
    ensures Some(CardField(Edited(t, PatchOf(patch)), badge, k)) == Shown(patch, map[k := CardField(t, badge, k)], k)
  {
    UnrefusedShape(patch);
    hide CardField, Edited, PatchOf, PatchTierToInt, IntText, Refusal, Sent;
    if k in ["title", "acceptance_criteria"] {
      OmissibleField(t, patch, badge, k);
    } else if k in ["description", "effort", "impact", "due", "depends_on"] {
      NullableField(t, patch, badge, k);
    } else if k == "tags" {
      TagsField(t, patch, badge);
    } else {
      UnpatchedField(t, PatchOf(patch), badge, k);
    }
  }

  /** Key presence on the modelled fields: present replaces or clears, absent keeps, and the
      governed and authority keys of the card do not move. */
  lemma PatchEchoes(t: Task, patch: JsonObject, badge: Json, k: string)
    requires Refusal(patch).None? && k in PROTECTED_CARD_KEYS
    ensures var before, after := CardOf(t, badge), CardOf(Edited(t, PatchOf(patch)), badge);
            k in after && Some(after[k]) == Shown(patch, before, k)
  {
    var before := CardOf(t, badge);
    ShownIsLocal(patch, map[k := CardField(t, badge, k)], before, k);
    hide *;
    EditedField(t, patch, badge, k);
    OverlayKeeps(t, badge, k);
    OverlayKeeps(Edited(t, PatchOf(patch)), badge, k);
  }

  lemma ShownIsLocal(patch: JsonObject, c: JsonObject, d: JsonObject, k: string)
    ensures k in c && k in d && c[k] == d[k] ==> Shown(patch, c, k) == Shown(patch, d, k)
  {
    hide PatchTierToInt, IntText;
  }

  // ---- What every operation does to the card -----------------------------------------------------

  /** The card keys an operation is about. */
  function Touched(op: Op): set<string> {
    match op
    case SetState(_) => {"column_id"}
    case Move(_, _) => {"column_id", "order"}
    case SoftDelete => {}
    case Update(_) => {"title", "acceptance_criteria", "description", "effort", "impact", "due", "depends_on", "tags"}
    case Retier(_, _, _) => {"tags"}
    case Archive(_, _) => {"archived_at"}
    case Unarchive(_, _) => {"archived_at"}
  }

  lemma FieldAfter(world: World, clock: Clock, openEscalation: bool, t: Task, op: Op, badge: Json, k: string)
    requires TaskAfter(world, clock, openEscalation, t, op).Success? && k !in Touched(op)
    ensures CardField(TaskAfter(world, clock, openEscalation, t, op).value, badge, k) == CardField(t, badge, k)
  {
    hide IntText, OptStr, StrList, EditedMetadata, ValidTier;
  }

  /** No operation changes a modelled key it is not about: an archive never moves a card out of
      its column, a move never edits it, and nothing ever touches its id or its creator. */
  lemma OperationTouchesOnlyItsKeys(world: World, clock: Clock, openEscalation: bool, t: Task, op: Op, badge: Json, k: string)
    requires TaskAfter(world, clock, openEscalation, t, op).Success? && k in PROTECTED_CARD_KEYS && k !in Touched(op)
    ensures var u := TaskAfter(world, clock, openEscalation, t, op).value;
            k in CardOf(u, badge) && k in CardOf(t, badge) && CardOf(u, badge)[k] == CardOf(t, badge)[k]
  {
    hide *;
    FieldAfter(world, clock, openEscalation, t, op, badge, k);
    OverlayKeeps(t, badge, k);
    OverlayKeeps(TaskAfter(world, clock, openEscalation, t, op).value, badge, k);
  }

  function TierTag(n: int): Json {
    Arr([Str(TIER_TAG_PREFIX + IntText(n))])
  }

  /** What an operation asks the card to show under `k`. */
  function Asked(op: Op, clock: Clock, k: string): Option<Json> {
    match op
    case SetState(s) => if k == "column_id" then Some(Str(s)) else None
    case Move(s, order) =>
      if k == "column_id" then Some(Str(s)) else if k == "order" && order.Some? then Some(Str(order.value)) else None
    case SoftDelete => if k == "deleted_at" then Some(Str(clock.first)) else None
    case Update(p) => AskedByPatch(p, k)
    case Retier(n, _, _) => if k == "tags" then Some(TierTag(n)) else None
    case Archive(_, _) => if k == "archived_at" then Some(Str(clock.second)) else None
    case Unarchive(_, _) => if k == "archived_at" then Some(Null) else None
  }

  function AskedByPatch(p: Patch, k: string): Option<Json> {
    match k
    case "title" => if p.title.Some? then Some(Str(p.title.value)) else None
    case "acceptance_criteria" => if p.acceptanceCriteria.Null? then None else Some(p.acceptanceCriteria)
    case "description" => if p.description.Given? then Some(OptStr(p.description.value)) else None
    case "effort" => if p.effort.Given? then Some(p.effort.value) else None
    case "impact" => if p.impact.Given? then Some(p.impact.value) else None
    case "due" => if p.due.Given? then Some(OptStr(p.due.value)) else None
    case "depends_on" => if p.dependsOn.Given? then Some(StrList(p.dependsOn.value)) else None
    case "tags" => if p.tier.Some? then Some(TierTag(p.tier.value)) else None
    case _ => None
  }

  lemma FieldAsked(world: World, clock: Clock, openEscalation: bool, t: Task, op: Op, badge: Json, k: string)
    requires TaskAfter(world, clock, openEscalation, t, op).Success? && Asked(op, clock, k).Some? && !op.SoftDelete?
    ensures CardField(TaskAfter(world, clock, openEscalation, t, op).value, badge, k) == Asked(op, clock, k).value
  {
    hide IntText, EditedMetadata, StrList, ValidTier;
  }

  lemma AskedIsProtected(op: Op, clock: Clock, k: string)
    requires Asked(op, clock, k).Some?
    ensures k in PROTECTED_CARD_KEYS
  {
    hide TierTag;
  }

  /** After an operation the card - the tombstone, after a deletion - shows everything the
      operation asked for, field by field. */
  lemma OperationShowsItsKeys(world: World, clock: Clock, openEscalation: bool, t: Task, op: Op, es: seq<Escalation>, k: string)
    requires TaskAfter(world, clock, openEscalation, t, op).Success? && t.deletedAt.None?
    requires Asked(op, clock, k).Some?
    ensures var card := Cards.RenderAny(es)(TaskAfter(world, clock, openEscalation, t, op).value);
            k in card && card[k] == Asked(op, clock, k).value
  {
    hide *;
    var u := TaskAfter(world, clock, openEscalation, t, op).value;
    AskedIsProtected(op, clock, k);
    if !op.SoftDelete? {
      FieldAsked(world, clock, openEscalation, t, op, BadgeOf(es, u.id), k);
      StaysLive(world, clock, openEscalation, t, op);
      Cards.RenderAnyIs(es, u);
      OverlayKeeps(u, BadgeOf(es, u.id), k);
    } else {
      DeletionShows(world, clock, openEscalation, t, op, es, k);
    }
  }

  lemma StaysLive(world: World, clock: Clock, openEscalation: bool, t: Task, op: Op)
    requires TaskAfter(world, clock, openEscalation, t, op).Success? && !op.SoftDelete?
    ensures TaskAfter(world, clock, openEscalation, t, op).value.deletedAt == t.deletedAt
  {
    hide EditedMetadata, ValidTier;
  }

  lemma DeletionShows(world: World, clock: Clock, openEscalation: bool, t: Task, op: Op, es: seq<Escalation>, k: string)
    requires op.SoftDelete? && Asked(op, clock, k).Some?
    ensures var card := Cards.RenderAny(es)(TaskAfter(world, clock, openEscalation, t, op).value);
            TaskAfter(world, clock, openEscalation, t, op).Success? && k in card && card[k] == Asked(op, clock, k).value
  {
    Cards.RenderAnyIs(es, t.(deletedAt := Some(clock.first)));
    hide Cards.RenderAny;
  }

  /** What a created card shows under each protected key that depends on the input. */
  function ShownAtBirth(input: TaskInput, order: string, k: string): Option<Json> {
    match k
    case "id" => Some(Str(input.freshId))
    case "title" => Some(Str(input.title))
    case "column_id" => Some(Str(input.state))
    case "order" => Some(Str(order))
    case "description" => Some(OptStr(input.description))
    case "acceptance_criteria" => Some(input.acceptanceCriteria)
    case "due" => Some(OptStr(input.due))
    case "depends_on" => Some(StrList(input.dependsOn))
    case "created_at" => Some(Str(input.createdAt))
    case "created_by" => Some(input.createdBy)
    case "tags" => Some(Arr(if input.tier.Some? then [Str(TIER_TAG_PREFIX + IntText(input.tier.value))] else []))
    case "effort" => Some(Null)
    case "impact" => Some(Null)
    case "archived_at" => Some(Null)
    case "deleted_at" => Some(Null)
    case _ => None
  }

  /** A created card shows its input field by field, and is live, unarchived and unplanned. */
  lemma CreateEchoes(input: TaskInput, order: string, version: Option<string>, badge: Json, k: string)
    requires k in PROTECTED_CARD_KEYS && ShownAtBirth(input, order, k).Some?
    ensures var card := CardOf(NewTask(input, order).(version := version), badge);
            k in card && Some(card[k]) == ShownAtBirth(input, order, k)
  {
    var t := NewTask(input, order).(version := version);
    hide CardOf, IntText, StrList, PROTECTED_CARD_KEYS;
    OverlayKeeps(t, badge, k);
  }
}
