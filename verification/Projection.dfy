/** The one-way lens from tasks and escalations to the cards of the board. */
module Projection {
  import opened Wrappers
  import opened Strings
  import opened JsonValue
  import opened Entities
  import opened Tokens
  import opened Database
  import opened CardKeys
  import opened Sorting
  import Governed

  // ---- Badges ------------------------------------------------------------------------------

  predicate Unresolved(e: Escalation) {
    e.deletedAt.None? && e.resolvedAt.None?
  }

  predicate Resolved(e: Escalation) {
    e.deletedAt.None? && e.resolvedAt.Some?
  }

  function OrEmpty(s: Option<string>): (r: string)
    ensures s == Some(r) || (s.None? && r == "")
  {
    if s.Some? then s.value else ""
  }

  function AgeKey(e: Escalation): SortKey {
    SortKey(OrEmpty(e.createdAt), e.id)
  }

  /** The order of `(resolved_at, created_at, id)`. */
  predicate ResolvedBefore(a: Escalation, b: Escalation) {
    var ra, rb := OrEmpty(a.resolvedAt), OrEmpty(b.resolvedAt);
    Less(ra, rb) || (ra == rb && KeyLess(AgeKey(a), AgeKey(b)))
  }

  lemma ResolvedBeforeTransitive(a: Escalation, b: Escalation, c: Escalation)
    requires ResolvedBefore(a, b) && ResolvedBefore(b, c)
    ensures ResolvedBefore(a, c)
  {
    hide Less, KeyLess;
    var ra, rb, rc := OrEmpty(a.resolvedAt), OrEmpty(b.resolvedAt), OrEmpty(c.resolvedAt);
    if Less(ra, rb) && Less(rb, rc) {
      LessTransitive(ra, rb, rc);
    } else if ra == rb == rc {
      KeyLessTransitive(AgeKey(a), AgeKey(b), AgeKey(c));
    }
  }

  function Oldest(es: seq<Escalation>): Escalation
    requires es != []
  {
    if |es| == 1 then es[0]
    else
      var rest, last := Oldest(es[..|es| - 1]), es[|es| - 1];
      if KeyLess(AgeKey(last), AgeKey(rest)) then last else rest
  }

  function Latest(es: seq<Escalation>): Escalation
    requires es != []
  {
    if |es| == 1 then es[0]
    else
      var rest, last := Latest(es[..|es| - 1]), es[|es| - 1];
      if ResolvedBefore(rest, last) then last else rest
  }

  function UnresolvedBadge(e: Escalation): Json {
    Obj(map["kind" := Str("escalation"), "status" := Str("unresolved"), "id" := Str(e.id), "reason" := Str(e.reason),
            "control_diff" := e.controlDiff])
  }

  function DeniedBadge(e: Escalation): Json {
    Obj(map["kind" := Str("escalation"), "status" := Str("denied"), "id" := Str(e.id), "reason" := Str(e.reason),
            "control_diff" := e.controlDiff, "resolution_rationale" := OptStr(e.resolutionRationale)])
  }

  /** All escalations of one task reduced to its badge; `Null` is no badge. */
  function BadgeFor(es: seq<Escalation>): Json {
    var unresolved := Filter(Unresolved, es);
    var resolved := Filter(Resolved, es);
    if unresolved != [] then UnresolvedBadge(Oldest(unresolved))
    else if resolved != [] && Latest(resolved).resolution == Some("deny") then DeniedBadge(Latest(resolved))
    else Null
  }

  predicate DistinctIds(es: seq<Escalation>) {
    forall i, j | 0 <= i < j < |es| :: es[i].id != es[j].id
  }

  // What the badge means, said of the set of escalations alone.

  ghost predicate WaitedLongest(es: set<Escalation>, e: Escalation) {
    e in es && Unresolved(e) && forall f | f in es && Unresolved(f) && f != e :: KeyLess(AgeKey(e), AgeKey(f))
  }

  ghost predicate LastWord(es: set<Escalation>, e: Escalation) {
    e in es && Resolved(e) && forall f | f in es && Resolved(f) && f != e :: ResolvedBefore(f, e)
  }

  ghost predicate LastWordIsDeny(es: set<Escalation>) {
    exists e :: LastWord(es, e) && e.resolution == Some("deny")
  }

  /** Unresolved before denied before none. */
  ghost predicate IsBadge(es: set<Escalation>, badge: Json) {
    if exists e :: e in es && Unresolved(e) then exists e :: WaitedLongest(es, e) && badge == UnresolvedBadge(e)
    else if LastWordIsDeny(es) then exists e :: LastWord(es, e) && badge == DeniedBadge(e)
    else badge == Null
  }

  ghost function Members<T>(xs: seq<T>): set<T> {
    set x | x in xs
  }

  lemma {:induction false} OldestIsLeast(es: seq<Escalation>, f: Escalation)
    requires DistinctIds(es) && f in es
    ensures Oldest(es) in es && (f != Oldest(es) ==> KeyLess(AgeKey(Oldest(es)), AgeKey(f)))
  {
    if |es| > 1 {
      var front, last := es[..|es| - 1], es[|es| - 1];
      assert es == front + [last];
      var g := if f in front then f else front[0];
      OldestIsLeast(front, g);
      var rest := Oldest(front);
      KeyLessTotal(AgeKey(last), AgeKey(rest));
      hide KeyLess;
      if KeyLess(AgeKey(last), AgeKey(rest)) && f in front && f != rest {
        KeyLessTransitive(AgeKey(last), AgeKey(rest), AgeKey(f));
      }
    }
  }

  lemma ResolvedBeforeTotal(a: Escalation, b: Escalation)
    requires a.id != b.id
    ensures ResolvedBefore(a, b) || ResolvedBefore(b, a)
  {
    LessTotal(OrEmpty(a.resolvedAt), OrEmpty(b.resolvedAt));
    KeyLessTotal(AgeKey(a), AgeKey(b));
  }

  lemma {:induction false} LatestIsGreatest(es: seq<Escalation>, f: Escalation)
    requires DistinctIds(es) && f in es
    ensures Latest(es) in es && (f != Latest(es) ==> ResolvedBefore(f, Latest(es)))
  {
    if |es| > 1 {
      var front, last := es[..|es| - 1], es[|es| - 1];
      assert es == front + [last];
      var g := if f in front then f else front[0];
      LatestIsGreatest(front, g);
      var rest := Latest(front);
      ResolvedBeforeTotal(rest, last);
      hide ResolvedBefore;
      if ResolvedBefore(rest, last) && f in front && f != rest {
        ResolvedBeforeTransitive(f, rest, last);
      }
    }
  }

  lemma {:induction false} FilterKeepsDistinctIds(p: Escalation -> bool, es: seq<Escalation>)
    requires DistinctIds(es)
    ensures DistinctIds(Filter(p, es))
  {
    if es != [] {
      var front, last := es[..|es| - 1], es[|es| - 1];
      FilterKeepsDistinctIds(p, front);
      forall y | y in Filter(p, front) ensures y.id != last.id {
        FilterContents(p, front, y);
        var i :| 0 <= i < |front| && front[i] == y;
      }
    }
  }

  lemma FilterIsEmpty<T>(p: T -> bool, xs: seq<T>)
    ensures Filter(p, xs) == [] <==> forall x | x in xs :: !p(x)
  {
    if Filter(p, xs) != [] {
      FilterContents(p, xs, Filter(p, xs)[0]);
    }
    if x :| x in xs && p(x) {
      FilterContents(p, xs, x);
    }
  }

  lemma UnresolvedWinner(es: seq<Escalation>)
    requires DistinctIds(es) && Filter(Unresolved, es) != []
    ensures WaitedLongest(Members(es), Oldest(Filter(Unresolved, es)))
  {
    var unresolved := Filter(Unresolved, es);
    FilterKeepsDistinctIds(Unresolved, es);
    OldestIsLeast(unresolved, unresolved[0]);
    FilterContents(Unresolved, es, Oldest(unresolved));
    forall f | f in es && Unresolved(f) && f != Oldest(unresolved) ensures KeyLess(AgeKey(Oldest(unresolved)), AgeKey(f)) {
      FilterContents(Unresolved, es, f);
      OldestIsLeast(unresolved, f);
    }
  }

  lemma ResolvedWinner(es: seq<Escalation>)
    requires DistinctIds(es) && Filter(Resolved, es) != []
    ensures LastWord(Members(es), Latest(Filter(Resolved, es)))
  {
    var resolved := Filter(Resolved, es);
    FilterKeepsDistinctIds(Resolved, es);
    LatestIsGreatest(resolved, resolved[0]);
    FilterContents(Resolved, es, Latest(resolved));
    forall f | f in es && Resolved(f) && f != Latest(resolved) ensures ResolvedBefore(f, Latest(resolved)) {
      FilterContents(Resolved, es, f);
      LatestIsGreatest(resolved, f);
    }
  }

  lemma LastWordIsUnique(es: set<Escalation>, e: Escalation, f: Escalation)
    requires LastWord(es, e) && LastWord(es, f)
    ensures e == f
  {
    if e != f {
      ResolvedBeforeTransitive(e, f, e);
      LessIrreflexive(OrEmpty(e.resolvedAt));
      KeyLessIrreflexive(AgeKey(e));
    }
  }

  lemma WaitedLongestIsUnique(es: set<Escalation>, e: Escalation, f: Escalation)
    requires WaitedLongest(es, e) && WaitedLongest(es, f)
    ensures e == f
  {
    if e != f {
      KeyLessTransitive(AgeKey(e), AgeKey(f), AgeKey(e));
      KeyLessIrreflexive(AgeKey(e));
    }
  }

  /** The reduction computes the badge of the set, whatever order the rows arrive in. */
  lemma BadgeForIsBadge(es: seq<Escalation>)
    requires DistinctIds(es)
    ensures IsBadge(Members(es), BadgeFor(es))
  {
    FilterIsEmpty(Unresolved, es);
    FilterIsEmpty(Resolved, es);
    hide WaitedLongest, LastWord;
    if Filter(Unresolved, es) != [] {
      UnresolvedWinner(es);
      var e :| e in es && Unresolved(e);
      assert e in Members(es);
    } else if Filter(Resolved, es) != [] {
      ResolvedWinner(es);
      forall e | LastWord(Members(es), e) ensures e == Latest(Filter(Resolved, es)) {
        LastWordIsUnique(Members(es), e, Latest(Filter(Resolved, es)));
      }
    } else {
      assert forall e :: !LastWord(Members(es), e) by {
        NoLastWord(es);
      }
    }
  }

  lemma NoLastWord(es: seq<Escalation>)
    requires forall e | e in es :: !Resolved(e)
    ensures forall e :: !LastWord(Members(es), e)
  {
  }

  lemma BadgeIsUnique(es: set<Escalation>, a: Json, b: Json)
    requires IsBadge(es, a) && IsBadge(es, b)
    ensures a == b
  {
    hide WaitedLongest, LastWord, UnresolvedBadge, DeniedBadge;
    if exists e :: e in es && Unresolved(e) {
      var e :| WaitedLongest(es, e) && a == UnresolvedBadge(e);
      var f :| WaitedLongest(es, f) && b == UnresolvedBadge(f);
      WaitedLongestIsUnique(es, e, f);
    } else if LastWordIsDeny(es) {
      var e :| LastWord(es, e) && a == DeniedBadge(e);
      var f :| LastWord(es, f) && b == DeniedBadge(f);
      LastWordIsUnique(es, e, f);
    }
  }

  // The same once more, without the names above.

  /** `e` is live and unresolved and was created before every other such escalation, the lesser id
      deciding between equal times. */
  ghost predicate FirstOpen(es: seq<Escalation>, e: Escalation) {
    && e in es && e.deletedAt.None? && e.resolvedAt.None?
    && forall f | f in es && f.deletedAt.None? && f.resolvedAt.None? && f != e ::
         Less(OrEmpty(e.createdAt), OrEmpty(f.createdAt)) || (OrEmpty(e.createdAt) == OrEmpty(f.createdAt) && Less(e.id, f.id))
  }

  /** `e` is live and resolved and was so after every other such escalation; the later creation and
      then the greater id decide between equal times. */
  ghost predicate LastResolved(es: seq<Escalation>, e: Escalation) {
    && e in es && e.deletedAt.None? && e.resolvedAt.Some?
    && forall f | f in es && f.deletedAt.None? && f.resolvedAt.Some? && f != e ::
         || Less(f.resolvedAt.value, e.resolvedAt.value)
         || (f.resolvedAt == e.resolvedAt && Less(OrEmpty(f.createdAt), OrEmpty(e.createdAt)))
         || (f.resolvedAt == e.resolvedAt && OrEmpty(f.createdAt) == OrEmpty(e.createdAt) && Less(f.id, e.id))
  }

  /** The badge of the escalations of a task, spelled out. */
  lemma BadgeTells(es: seq<Escalation>)
    requires DistinctIds(es)
    ensures forall e | FirstOpen(es, e) ::
              BadgeFor(es) == Obj(map["kind" := Str("escalation"), "status" := Str("unresolved"), "id" := Str(e.id),
                                      "reason" := Str(e.reason), "control_diff" := e.controlDiff])
    ensures (exists e :: e in es && e.deletedAt.None? && e.resolvedAt.None?) <==> exists e :: FirstOpen(es, e)
    ensures forall e | LastResolved(es, e) && (forall f :: !FirstOpen(es, f)) ::
              BadgeFor(es) ==
              if e.resolution != Some("deny") then Null
              else Obj(map["kind" := Str("escalation"), "status" := Str("denied"), "id" := Str(e.id), "reason" := Str(e.reason),
                           "control_diff" := e.controlDiff, "resolution_rationale" := OptStr(e.resolutionRationale)])
    ensures (forall e | e in es :: e.deletedAt.Some?) ==> BadgeFor(es) == Null
  {
    forall e ensures FirstOpen(es, e) <==> WaitedLongest(Members(es), e) {
      FirstOpenIsWaitedLongest(es, e);
    }
    forall e ensures LastResolved(es, e) <==> LastWord(Members(es), e) {
      LastResolvedIsLastWord(es, e);
    }
    FilterIsEmpty(Unresolved, es);
    FilterIsEmpty(Resolved, es);
    hide FirstOpen, LastResolved, WaitedLongest, LastWord, Oldest, Latest;
    if Filter(Unresolved, es) != [] {
      UnresolvedWinner(es);
      forall e | FirstOpen(es, e) ensures e == Oldest(Filter(Unresolved, es)) {
        WaitedLongestIsUnique(Members(es), e, Oldest(Filter(Unresolved, es)));
      }
    } else {
      NoFirstOpen(es);
      if Filter(Resolved, es) != [] {
        ResolvedWinner(es);
        forall e | LastResolved(es, e) ensures e == Latest(Filter(Resolved, es)) {
          LastWordIsUnique(Members(es), e, Latest(Filter(Resolved, es)));
        }
      } else {
        NoLastWord(es);
      }
    }
  }

  lemma NoFirstOpen(es: seq<Escalation>)
    requires forall e | e in es :: !Unresolved(e)
    ensures forall e :: !FirstOpen(es, e)
  {
  }

  lemma FirstOpenIsWaitedLongest(es: seq<Escalation>, e: Escalation)
    ensures FirstOpen(es, e) <==> WaitedLongest(Members(es), e)
  {
    assert forall f :: f in Members(es) <==> f in es;
    hide Less;
  }

  lemma ResolvedBeforeIs(f: Escalation, e: Escalation)
    requires f.resolvedAt.Some? && e.resolvedAt.Some?
    ensures ResolvedBefore(f, e) <==>
              || Less(f.resolvedAt.value, e.resolvedAt.value)
              || (f.resolvedAt == e.resolvedAt && Less(OrEmpty(f.createdAt), OrEmpty(e.createdAt)))
              || (f.resolvedAt == e.resolvedAt && OrEmpty(f.createdAt) == OrEmpty(e.createdAt) && Less(f.id, e.id))
  {
    hide Less;
  }

  lemma LastResolvedIsLastWord(es: seq<Escalation>, e: Escalation)
    ensures LastResolved(es, e) <==> LastWord(Members(es), e)
  {
    assert forall f :: f in Members(es) <==> f in es;
    if e.resolvedAt.Some? {
      forall f: Escalation | f.resolvedAt.Some?
        ensures ResolvedBefore(f, e) <==>
                  || Less(f.resolvedAt.value, e.resolvedAt.value)
                  || (f.resolvedAt == e.resolvedAt && Less(OrEmpty(f.createdAt), OrEmpty(e.createdAt)))
                  || (f.resolvedAt == e.resolvedAt && OrEmpty(f.createdAt) == OrEmpty(e.createdAt) && Less(f.id, e.id))
      {
        ResolvedBeforeIs(f, e);
      }
    }
    hide Less, ResolvedBefore, OrEmpty;
  }

  // ---- Grouping ----------------------------------------------------------------------------

  function OfTask(es: seq<Escalation>, id: string): seq<Escalation> {
    if es == [] then []
    else OfTask(es[..|es| - 1], id) + (if es[|es| - 1].taskId == id then [es[|es| - 1]] else [])
  }

  lemma {:induction false} OfTaskContents(es: seq<Escalation>, id: string)
    ensures forall e :: e in OfTask(es, id) <==> e in es && e.taskId == id
    ensures DistinctIds(es) ==> DistinctIds(OfTask(es, id))
  {
    if es != [] {
      var front, last := es[..|es| - 1], es[|es| - 1];
      assert es == front + [last];
      OfTaskContents(front, id);
      if DistinctIds(es) {
        assert forall e | e in front :: e.id != last.id;
      }
    }
  }

  function BadgeOf(es: seq<Escalation>, id: string): Json {
    BadgeFor(OfTask(es, id))
  }

  method GroupByTask(es: seq<Escalation>) returns (grouped: map<string, seq<Escalation>>)
    ensures forall id :: id in grouped <==> OfTask(es, id) != []
    ensures forall id | id in grouped :: grouped[id] == OfTask(es, id)
  {
    grouped := map[];
    for i := 0 to |es|
      invariant forall id :: id in grouped <==> OfTask(es[..i], id) != []
      invariant forall id | id in grouped :: grouped[id] == OfTask(es[..i], id)
    {
      assert es[..i + 1][..i] == es[..i];
      var id := es[i].taskId;
      grouped := grouped[id := (if id in grouped then grouped[id] else []) + [es[i]]];
    }
    assert es[..|es|] == es;
  }

  /** Group by task in one pass, reduce each group; tasks without a badge are absent. */
  method BadgesByTask(es: seq<Escalation>) returns (badges: map<string, Json>)
    ensures forall id :: id in badges <==> BadgeOf(es, id) != Null
    ensures forall id | id in badges :: badges[id] == BadgeOf(es, id)
  {
    var grouped := GroupByTask(es);
    NoBadgeForNothing();
    hide OfTask, BadgeFor;
    badges := map[];
    var todo := grouped.Keys;
    while todo != {}
      invariant todo <= grouped.Keys
      invariant forall id :: id in badges <==> id in grouped && id !in todo && BadgeOf(es, id) != Null
      invariant forall id | id in badges :: badges[id] == BadgeOf(es, id)
    {
      var id :| id in todo;
      todo := todo - {id};
      var badge := BadgeFor(grouped[id]);
      if badge != Null {
        badges := badges[id := badge];
      }
    }
  }

  lemma NoBadgeForNothing()
    ensures BadgeFor([]) == Null
  {
  }

  // ---- One card ----------------------------------------------------------------------------

  function IntText(n: int): string {
    if n < 0 then "-" + Decimal(-n) else Decimal(n)
  }

  const TIER_TAG_PREFIX := "tier:"

  function TagsFor(t: Task): seq<Json> {
    if t.tier.Some? then [Str(TIER_TAG_PREFIX + IntText(t.tier.value))] else []
  }

  /** What the lens itself shows under each key of the card surface. */
  function CardField(t: Task, badge: Json, k: string): Json {
    match k
    case "id" => Str(t.id)
    case "title" => Str(t.title)
    case "description" => OptStr(t.description)
    case "acceptance_criteria" => t.acceptanceCriteria
    case "column_id" => Str(t.state)
    case "order" => Str(t.order)
    case "tags" => Arr(TagsFor(t))
    case "checklist" => Arr([])
    case "due" => OptStr(t.due)
    case "depends_on" => StrList(t.dependsOn)
    case "priority" => Str("med")
    case "effort" => t.effort
    case "impact" => t.impact
    case "version" => OptStr(t.version)
    case "archived_at" => OptStr(t.archivedAt)
    case "created_at" => OptStr(t.createdAt)
    case "created_by" => t.createdBy
    case "attachments" => Arr([])
    case "gate_status" => Str("COMMITTED")
    case "badge" => badge
    case _ => Null  // deleted_at, updated_at, updated_by
  }

  function BaseCard(t: Task, badge: Json): JsonObject {
    map k | k in CARD_FIELD_KEYS :: CardField(t, badge, k)
  }

  /** The documented value of a spec field the spine does not model, when nobody sent one. */
  function Default(k: string): Json
    requires k in UNMODELED_CARD_KEYS
  {
    if k == "priority" then Str("med") else Arr([])
  }

  function CardOf(t: Task, badge: Json): JsonObject {
    BaseCard(t, badge) + WithoutModeledCollisions(t.metadata)
  }

  lemma OverlayStep(base: JsonObject, metadata: JsonObject, todo: set<string>, k: string)
    requires k in todo && k in metadata
    ensures base + WithoutModeledCollisions(metadata - (todo - {k})) ==
            if k in PROTECTED_CARD_KEYS then base + WithoutModeledCollisions(metadata - todo)
            else (base + WithoutModeledCollisions(metadata - todo))[k := metadata[k]]
  {
  }

  /** Build the card, then overlay the preserved keys one by one. */
  method ToCard(task: Option<Task>, badge: Json) returns (card: Option<JsonObject>)
    ensures card == if task.None? || task.value.deletedAt.Some? then None else Some(CardOf(task.value, badge))
  {
    if task.None? || task.value.deletedAt.Some? {
      return None;
    }
    var t := task.value;
    hide BaseCard, WithoutModeledCollisions;
    var c := BaseCard(t, badge);
    var todo := t.metadata.Keys;
    while todo != {}
      invariant todo <= t.metadata.Keys
      invariant c == BaseCard(t, badge) + WithoutModeledCollisions(t.metadata - todo)
    {
      var k :| k in todo;
      OverlayStep(BaseCard(t, badge), t.metadata, todo, k);
      todo := todo - {k};
      if k !in PROTECTED_CARD_KEYS {
        c := c[k := t.metadata[k]];
      }
    }
    assert t.metadata - todo == t.metadata;
    return Some(c);
  }

  lemma DefaultFields(t: Task, badge: Json, k: string)
    requires k in UNMODELED_CARD_KEYS
    ensures k in CARD_FIELD_KEYS && CardField(t, badge, k) == Default(k)
  {
  }

  lemma FieldIgnoresMetadata(t: Task, badge: Json, k: string, metadata: JsonObject)
    ensures CardField(t.(metadata := metadata), badge, k) == CardField(t, badge, k)
  {
    assert TagsFor(t.(metadata := metadata)) == TagsFor(t);
    hide TagsFor, OptStr, StrList;
  }

  /** A protected key shows the lens's own field, whatever the metadata. */
  lemma OverlayKeeps(t: Task, badge: Json, k: string)
    requires k in PROTECTED_CARD_KEYS
    ensures k in CardOf(t, badge) && CardOf(t, badge)[k] == CardField(t, badge, k)
  {
    hide CardField, CARD_FIELD_KEYS, UNMODELED_CARD_KEYS;
  }

  /** Any other key shows the metadata, the documented default or nothing. */
  lemma OverlayShows(t: Task, badge: Json, k: string)
    requires k !in PROTECTED_CARD_KEYS
    ensures if k in t.metadata then k in CardOf(t, badge) && CardOf(t, badge)[k] == t.metadata[k]
            else if k in UNMODELED_CARD_KEYS then k in CardOf(t, badge) && CardOf(t, badge)[k] == Default(k)
            else k !in CardOf(t, badge)
  {
    if k in UNMODELED_CARD_KEYS {
      DefaultFields(t, badge, k);
    }
    hide CardField, Default, CARD_FIELD_KEYS, UNMODELED_CARD_KEYS;
  }

  /** A card has every field of the surface, a key of the metadata only ever adds to it or
      replaces the default of an unmodelled field, and nothing protected is altered. */
  lemma OverlayRespectsProtectedKeys(t: Task, badge: Json, metadata: JsonObject, k: string)
    ensures k in CardOf(t, badge) <==> k in CARD_FIELD_KEYS || k in t.metadata
    ensures k in PROTECTED_CARD_KEYS ==>
              var other := CardOf(t.(metadata := metadata), badge);
              k in CardOf(t, badge) && k in other && other[k] == CardOf(t, badge)[k]
    ensures k in CardOf(t, badge) && k !in PROTECTED_CARD_KEYS ==>
              if k in t.metadata then CardOf(t, badge)[k] == t.metadata[k]
              else k in UNMODELED_CARD_KEYS && CardOf(t, badge)[k] == Default(k)
  {
    hide CARD_FIELD_KEYS, UNMODELED_CARD_KEYS, CardField, CardOf, Default;
    if k in PROTECTED_CARD_KEYS {
      OverlayKeeps(t, badge, k);
      OverlayKeeps(t.(metadata := metadata), badge, k);
      FieldIgnoresMetadata(t, badge, k, metadata);
    } else {
      OverlayShows(t, badge, k);
      UnmodelledAreFields(k);
    }
  }

  lemma UnmodelledAreFields(k: string)
    ensures k in UNMODELED_CARD_KEYS ==> k in CARD_FIELD_KEYS
  {
  }

  predicate Shows(card: JsonObject, k: string, v: Json) {
    k in card && card[k] == v
  }

  /** What a card says of its task: where it is, ... */
  lemma CardPlaces(t: Task, badge: Json)
    ensures var card := CardOf(t, badge);
            && Shows(card, "id", Str(t.id)) && Shows(card, "column_id", Str(t.state))
            && Shows(card, "order", Str(t.order)) && Shows(card, "version", OptStr(t.version))
            && Shows(card, "archived_at", OptStr(t.archivedAt)) && Shows(card, "deleted_at", Null)
            && Shows(card, "badge", badge) && Shows(card, "gate_status", Str("COMMITTED"))
            && Shows(card, "tags", Arr(if t.tier.Some? then [Str("tier:" + IntText(t.tier.value))] else []))
  {
    CardPlacesFields(t, badge);
    hide CardOf, CardField, IntText, StrList, PROTECTED_CARD_KEYS;
    OverlayKeeps(t, badge, "id");
    OverlayKeeps(t, badge, "column_id");
    OverlayKeeps(t, badge, "order");
    OverlayKeeps(t, badge, "version");
    OverlayKeeps(t, badge, "archived_at");
    OverlayKeeps(t, badge, "deleted_at");
    OverlayKeeps(t, badge, "badge");
    OverlayKeeps(t, badge, "gate_status");
    OverlayKeeps(t, badge, "tags");
  }

  lemma CardPlacesFields(t: Task, badge: Json)
    ensures "id" in PROTECTED_CARD_KEYS && CardField(t, badge, "id") == Str(t.id)
    ensures "column_id" in PROTECTED_CARD_KEYS && CardField(t, badge, "column_id") == Str(t.state)
    ensures "order" in PROTECTED_CARD_KEYS && CardField(t, badge, "order") == Str(t.order)
    ensures "version" in PROTECTED_CARD_KEYS && CardField(t, badge, "version") == OptStr(t.version)
    ensures "archived_at" in PROTECTED_CARD_KEYS && CardField(t, badge, "archived_at") == OptStr(t.archivedAt)
    ensures "deleted_at" in PROTECTED_CARD_KEYS && CardField(t, badge, "deleted_at") == Null
    ensures "badge" in PROTECTED_CARD_KEYS && CardField(t, badge, "badge") == badge
    ensures "gate_status" in PROTECTED_CARD_KEYS && CardField(t, badge, "gate_status") == Str("COMMITTED")
    ensures "tags" in PROTECTED_CARD_KEYS && CardField(t, badge, "tags") == Arr(if t.tier.Some? then [Str("tier:" + IntText(t.tier.value))] else [])
  {
  }

  /** ... and what it is about, who made it and when. */
  lemma CardContents(t: Task, badge: Json)
    ensures var card := CardOf(t, badge);
            && Shows(card, "title", Str(t.title)) && Shows(card, "description", OptStr(t.description))
            && Shows(card, "acceptance_criteria", t.acceptanceCriteria) && Shows(card, "depends_on", StrList(t.dependsOn))
            && Shows(card, "due", OptStr(t.due)) && Shows(card, "effort", t.effort)
            && Shows(card, "impact", t.impact) && Shows(card, "created_at", OptStr(t.createdAt))
            && Shows(card, "created_by", t.createdBy) && Shows(card, "updated_at", Null)
            && Shows(card, "updated_by", Null)
  {
    BodyFields(t, badge);
    OriginFields(t, badge);
    hide CardOf, CardField, IntText, StrList, PROTECTED_CARD_KEYS;
    OverlayKeeps(t, badge, "title");
    OverlayKeeps(t, badge, "description");
    OverlayKeeps(t, badge, "acceptance_criteria");
    OverlayKeeps(t, badge, "depends_on");
    OverlayKeeps(t, badge, "due");
    OverlayKeeps(t, badge, "effort");
    OverlayKeeps(t, badge, "impact");
    OverlayKeeps(t, badge, "created_at");
    OverlayKeeps(t, badge, "created_by");
    OverlayKeeps(t, badge, "updated_at");
    OverlayKeeps(t, badge, "updated_by");
  }

  lemma BodyFields(t: Task, badge: Json)
    ensures "title" in PROTECTED_CARD_KEYS && CardField(t, badge, "title") == Str(t.title)
    ensures "description" in PROTECTED_CARD_KEYS && CardField(t, badge, "description") == OptStr(t.description)
    ensures "acceptance_criteria" in PROTECTED_CARD_KEYS && CardField(t, badge, "acceptance_criteria") == t.acceptanceCriteria
    ensures "depends_on" in PROTECTED_CARD_KEYS && CardField(t, badge, "depends_on") == StrList(t.dependsOn)
    ensures "due" in PROTECTED_CARD_KEYS && CardField(t, badge, "due") == OptStr(t.due)
    ensures "effort" in PROTECTED_CARD_KEYS && CardField(t, badge, "effort") == t.effort
  {
  }

  lemma OriginFields(t: Task, badge: Json)
    ensures "impact" in PROTECTED_CARD_KEYS && CardField(t, badge, "impact") == t.impact
    ensures "created_at" in PROTECTED_CARD_KEYS && CardField(t, badge, "created_at") == OptStr(t.createdAt)
    ensures "created_by" in PROTECTED_CARD_KEYS && CardField(t, badge, "created_by") == t.createdBy
    ensures "updated_at" in PROTECTED_CARD_KEYS && CardField(t, badge, "updated_at") == Null
    ensures "updated_by" in PROTECTED_CARD_KEYS && CardField(t, badge, "updated_by") == Null
  {
  }

  lemma PlaceFields(t: Task, badge: Json)
    ensures CardField(t, badge, "id") == Str(t.id)
    ensures CardField(t, badge, "order") == Str(t.order)
    ensures CardField(t, badge, "column_id") == Str(t.state)
    ensures CardField(t, badge, "tags") == Arr(TagsFor(t))
    ensures CardField(t, badge, "archived_at") == OptStr(t.archivedAt)
  {
  }

  lemma PlaceIsProtected()
    ensures {"id", "order", "column_id", "tags", "archived_at"} <= PROTECTED_CARD_KEYS
  {
  }

  /** The fields the board sorts and filters by can be read back off any card. */
  lemma CardFields(t: Task, badge: Json)
    ensures var card := CardOf(t, badge);
            && BoardKey(card) == TaskKey(t)
            && "archived_at" in card && card["archived_at"] == OptStr(t.archivedAt)
            && "column_id" in card && card["column_id"] == Str(t.state)
            && "tags" in card && card["tags"] == Arr(TagsFor(t))
  {
    PlaceFields(t, badge);
    PlaceIsProtected();
    hide CardField, CardOf, TagsFor, PROTECTED_CARD_KEYS;
    OverlayKeeps(t, badge, "id");
    OverlayKeeps(t, badge, "order");
    OverlayKeeps(t, badge, "column_id");
    OverlayKeeps(t, badge, "tags");
    OverlayKeeps(t, badge, "archived_at");
  }

  // ---- The board ---------------------------------------------------------------------------

  function TextAt(card: JsonObject, k: string): string {
    if k in card && card[k].Str? then card[k].s else ""
  }

  function BoardKey(card: JsonObject): SortKey {
    SortKey(TextAt(card, "order"), TextAt(card, "id"))
  }

  function TaskKey(t: Task): SortKey {
    SortKey(t.order, t.id)
  }

  predicate Live(t: Task) {
    t.deletedAt.None?
  }

  function Render(es: seq<Escalation>): Task -> JsonObject {
    (t: Task) => CardOf(t, BadgeOf(es, t.id))
  }

  /** The board: live tasks by `(order, id)`, each with the badge of its own escalations. */
  function Board(tasks: seq<Task>, es: seq<Escalation>): seq<JsonObject> {
    Map(Render(es), Sort(TaskKey, Filter(Live, tasks)))
  }

  method Project(tasks: seq<Task>, es: seq<Escalation>) returns (cards: seq<JsonObject>)
    ensures cards == Board(tasks, es)
  {
    var badges := BadgesByTask(es);
    hide CardOf, BadgeFor, OfTask;
    cards := [];
    for i := 0 to |tasks|
      invariant cards == Map(Render(es), Filter(Live, tasks[..i]))
    {
      var badge := if tasks[i].id in badges then badges[tasks[i].id] else Null;
      var card := ToCard(Some(tasks[i]), badge);
      assert tasks[..i + 1][..i] == tasks[..i];
      if card.Some? {
        cards := cards + [card.value];
      }
    }
    assert tasks[..|tasks|] == tasks;
    forall t: Task ensures BoardKey(Render(es)(t)) == TaskKey(t) {
      CardFields(t, BadgeOf(es, t.id));
    }
    SortCommutesWithMap(TaskKey, BoardKey, Render(es), Filter(Live, tasks));
    cards := Sort(BoardKey, cards);
  }

  predicate DistinctTasks(tasks: seq<Task>) {
    forall i, j | 0 <= i < j < |tasks| :: tasks[i].id != tasks[j].id
  }

  lemma SortedBoard(tasks: seq<Task>, p: Task -> bool)
    requires DistinctTasks(tasks)
    ensures Sorted(TaskKey, Sort(TaskKey, Filter(p, tasks)))
    ensures forall t :: t in Sort(TaskKey, Filter(p, tasks)) <==> t in tasks && p(t)
  {
    FilterDistinct(TaskKey, p, tasks);
    SortIsSorted(TaskKey, Filter(p, tasks));
    forall t ensures t in Sort(TaskKey, Filter(p, tasks)) <==> t in tasks && p(t) {
      SortContents(TaskKey, Filter(p, tasks), t);
      FilterContents(p, tasks, t);
    }
  }

  lemma BadgeDependsOnContents(es: seq<Escalation>, fs: seq<Escalation>, id: string)
    requires DistinctIds(es) && DistinctIds(fs) && forall e :: e in es <==> e in fs
    ensures BadgeOf(es, id) == BadgeOf(fs, id)
  {
    OfTaskContents(es, id);
    OfTaskContents(fs, id);
    assert Members(OfTask(es, id)) == Members(OfTask(fs, id));
    BadgeForIsBadge(OfTask(es, id));
    BadgeForIsBadge(OfTask(fs, id));
    BadgeIsUnique(Members(OfTask(es, id)), BadgeOf(es, id), BadgeOf(fs, id));
  }

  /** The board is a function of what the rows hold, not of the order they are scanned in. */
  lemma BoardDependsOnContents(tasks: seq<Task>, es: seq<Escalation>, others: seq<Task>, fs: seq<Escalation>)
    requires DistinctTasks(tasks) && DistinctTasks(others) && forall t :: t in tasks <==> t in others
    requires DistinctIds(es) && DistinctIds(fs) && forall e :: e in es <==> e in fs
    ensures Board(tasks, es) == Board(others, fs)
  {
    SortedBoard(tasks, Live);
    SortedBoard(others, Live);
    SortedIsUnique(TaskKey, Sort(TaskKey, Filter(Live, tasks)), Sort(TaskKey, Filter(Live, others)));
    hide BadgeFor, OfTask, CardOf, Sort, Filter;
    forall t: Task ensures Render(es)(t) == Render(fs)(t) {
      BadgeDependsOnContents(es, fs, t.id);
    }
  }

  // ---- The board of a database ---------------------------------------------------------------

  function TasksIn(rows: seq<Entity>): seq<Task> {
    if rows == [] then []
    else TasksIn(rows[..|rows| - 1]) + (if rows[|rows| - 1].TaskRow? then [rows[|rows| - 1].task] else [])
  }

  function EscalationsIn(rows: seq<Entity>): seq<Escalation> {
    if rows == [] then []
    else EscalationsIn(rows[..|rows| - 1]) + (if rows[|rows| - 1].EscalationRow? then [rows[|rows| - 1].escalation] else [])
  }

  lemma {:induction false} TasksInContents(rows: seq<Entity>)
    ensures forall t: Task :: t in TasksIn(rows) <==> TaskRow(t) in rows
  {
    if rows != [] {
      TasksInContents(rows[..|rows| - 1]);
      assert rows == rows[..|rows| - 1] + [rows[|rows| - 1]];
    }
  }

  lemma {:induction false} EscalationsInContents(rows: seq<Entity>)
    ensures forall e: Escalation :: e in EscalationsIn(rows) <==> EscalationRow(e) in rows
  {
    if rows != [] {
      EscalationsInContents(rows[..|rows| - 1]);
      assert rows == rows[..|rows| - 1] + [rows[|rows| - 1]];
    }
  }

  predicate DistinctRows(rows: seq<Entity>) {
    forall i, j | 0 <= i < j < |rows| :: rows[i].Key() != rows[j].Key()
  }

  lemma {:induction false} DistinctTasksIn(rows: seq<Entity>)
    requires DistinctRows(rows)
    ensures DistinctTasks(TasksIn(rows)) && DistinctIds(EscalationsIn(rows))
  {
    if rows != [] {
      var front, last := rows[..|rows| - 1], rows[|rows| - 1];
      DistinctTasksIn(front);
      TasksInContents(front);
      EscalationsInContents(front);
      assert forall e | e in front :: e.Key() != last.Key();
      forall t | t in TasksIn(front) ensures last.TaskRow? ==> t.id != last.task.id {
        assert TaskRow(t).Key() == RowKey(Tasks, t.id);
      }
      forall e | e in EscalationsIn(front) ensures last.EscalationRow? ==> e.id != last.escalation.id {
        assert EscalationRow(e).Key() == RowKey(Escalations, e.id);
      }
    }
  }

  lemma {:induction false} ListingIsDistinct(rows: map<RowKey, Entity>, order: seq<RowKey>, kind: Kind)
    requires (forall k | k in order :: k in rows) && (forall k | k in rows :: rows[k].Key() == k) && Distinct(order)
    ensures DistinctRows(ListingOf(rows, order, kind))
  {
    if order != [] {
      var front, last := order[..|order| - 1], order[|order| - 1];
      ListingIsDistinct(rows, front, kind);
      forall e | e in ListingOf(rows, front, kind) ensures e.Key() != last {
        ListingIsTheTable(rows, front, kind, e);
      }
    }
  }

  function TasksOf(db: Db): seq<Task>
    requires forall k | k in db.order :: k in db.rows
  {
    TasksIn(Listing(db, Tasks))
  }

  function EscalationsOf(db: Db): seq<Escalation>
    requires forall k | k in db.order :: k in db.rows
  {
    EscalationsIn(Listing(db, Escalations))
  }

  function BoardOf(db: Db): seq<JsonObject>
    requires forall k | k in db.order :: k in db.rows
  {
    Board(TasksOf(db), EscalationsOf(db))
  }

  lemma TasksOfContents(db: Db)
    requires WellFormed(db)
    ensures DistinctTasks(TasksOf(db)) && DistinctIds(EscalationsOf(db))
    ensures forall t: Task :: t in TasksOf(db) <==> Governed.TaskAt(db, t.id) == Some(t)
    ensures forall e: Escalation :: e in EscalationsOf(db) <==>
              RowKey(Escalations, e.id) in db.rows && db.rows[RowKey(Escalations, e.id)] == EscalationRow(e)
  {
    ListingIsDistinct(db.rows, db.order, Tasks);
    ListingIsDistinct(db.rows, db.order, Escalations);
    DistinctTasksIn(Listing(db, Tasks));
    DistinctTasksIn(Listing(db, Escalations));
    TasksInContents(Listing(db, Tasks));
    EscalationsInContents(Listing(db, Escalations));
    forall t: Task ensures TaskRow(t) in Listing(db, Tasks) <==> Governed.TaskAt(db, t.id) == Some(t) {
      ListingIsTheTable(db.rows, db.order, Tasks, TaskRow(t));
    }
    forall e: Escalation
      ensures EscalationRow(e) in Listing(db, Escalations) <==>
              RowKey(Escalations, e.id) in db.rows && db.rows[RowKey(Escalations, e.id)] == EscalationRow(e)
    {
      ListingIsTheTable(db.rows, db.order, Escalations, EscalationRow(e));
    }
  }

  /** The board of a file: a card for every live task and for nothing else, each with the badge of
      its own escalations, by order and then by id. */
  lemma BoardIsExact(db: Db)
    requires WellFormed(db)
    ensures var cards := BoardOf(db);
            && (forall t: Task | Governed.TaskAt(db, t.id) == Some(t) && t.deletedAt.None? ::
                  CardOf(t, BadgeOf(EscalationsOf(db), t.id)) in cards)
            && (forall c | c in cards ::
                  exists t: Task ::
                    Governed.TaskAt(db, t.id) == Some(t) && t.deletedAt.None? && c == CardOf(t, BadgeOf(EscalationsOf(db), t.id)))
            && (forall i, j | 0 <= i < j < |cards| :: PlacedBefore(cards[i], cards[j]))
  {
    TasksOfContents(db);
    var tasks, es := TasksOf(db), EscalationsOf(db);
    var ts := Sort(TaskKey, Filter(Live, tasks));
    hide TasksOf, EscalationsOf, CardOf, BadgeOf, Sort, Filter;
    SortedBoard(tasks, Live);
    MapContents(Render(es), ts);
    forall t: Task ensures Render(es)(t) == CardOf(t, BadgeOf(es, t.id)) {
    }
    forall i, j | 0 <= i < j < |ts| ensures PlacedBefore(Render(es)(ts[i]), Render(es)(ts[j])) {
      CardPlaces(ts[i], BadgeOf(es, ts[i].id));
      CardPlaces(ts[j], BadgeOf(es, ts[j].id));
    }
  }

  /** The lesser order first, and of equal orders the lesser id. */
  predicate PlacedBefore(c: JsonObject, d: JsonObject) {
    && "order" in c && "order" in d && "id" in c && "id" in d
    && c["order"].Str? && d["order"].Str? && c["id"].Str? && d["id"].Str?
    && (Less(c["order"].s, d["order"].s) || (c["order"].s == d["order"].s && Less(c["id"].s, d["id"].s)))
  }

  /** Two files with the same rows show the same board, however their rows lie. */
  lemma BoardOfRows(db: Db, other: Db)
    requires WellFormed(db) && WellFormed(other) && db.rows == other.rows
    ensures BoardOf(db) == BoardOf(other)
  {
    TasksOfContents(db);
    TasksOfContents(other);
    hide Board, TasksOf, EscalationsOf;
    BoardDependsOnContents(TasksOf(db), EscalationsOf(db), TasksOf(other), EscalationsOf(other));
  }

  lemma BadgeStatus(es: seq<Escalation>)
    ensures var badge := BadgeFor(es);
            (exists e :: e in es && Unresolved(e)) <==>
              badge.Obj? && "status" in badge.fields && badge.fields["status"] == Str("unresolved")
  {
    FilterIsEmpty(Unresolved, es);
  }

  /** The badge says "unresolved" exactly when the archive gate sees an open escalation. */
  lemma UnresolvedBadgeIffGateIsShut(db: Db, taskId: string)
    requires WellFormed(db)
    ensures var badge := BadgeOf(EscalationsOf(db), taskId);
            Governed.HasOpenEscalation(db, taskId) <==> badge.Obj? && "status" in badge.fields && badge.fields["status"] == Str("unresolved")
  {
    var es := EscalationsOf(db);
    TasksOfContents(db);
    OfTaskContents(es, taskId);
    BadgeStatus(OfTask(es, taskId));
    hide EscalationsOf, OfTask, BadgeFor;
    if Governed.HasOpenEscalation(db, taskId) {
      var k :| k in db.rows && db.rows[k].EscalationRow? && Governed.IsOpen(db.rows[k].escalation, taskId);
      assert db.rows[k].escalation in es;
    }
    if e :| e in OfTask(es, taskId) && Unresolved(e) {
      assert Governed.IsOpen(e, taskId) && RowKey(Escalations, e.id) in db.rows;
    }
  }

  // ---- Dump and load -------------------------------------------------------------------------

  lemma DumpRestoresRows(db: Db, blank: Db)
    requires WellFormed(db) && WellFormed(blank) && blank.rows == map[]
    ensures WellFormed(LoadRows(blank, DumpBlobs(db))) && LoadRows(blank, DumpBlobs(db)).rows == db.rows
  {
    var blobs := DumpBlobs(db);
    forall e ensures e in blobs <==> e.Key() in db.rows && db.rows[e.Key()] == e {
      DumpIsTheTables(db, e);
    }
    LoadRowsContents(blank, blobs);
    hide LoadRows, DumpBlobs, LastOf;
    var restored := LoadRows(blank, blobs);
    forall k
      ensures k in restored.rows <==> k in db.rows
      ensures k in db.rows ==> restored.rows[k] == db.rows[k]
    {
      LoadRowsHolds(blank, blobs, k);
      LastOfIsABlob(blobs, k);
      assert k in db.rows ==> db.rows[k] in blobs;
    }
  }

  lemma BlankFile()
    ensures Opened(EmptyDb) == EmptyDb.(hwm := Some(0)) && WellFormed(Opened(EmptyDb))
  {
    assert MaxSeqOf(DumpBlobs(EmptyDb)) == 0;
  }

  /** A fresh file after loading a dump of `db`. */
  function Restored(db: Db): Db
    requires forall k | k in db.order :: k in db.rows
  {
    var blank := Opened(EmptyDb);
    Loaded(blank, blank.hwm.value, DumpBlobs(db))
  }

  lemma RestoredContents(db: Db)
    requires WellFormed(db)
    ensures var r := Restored(db);
            && WellFormed(r) && r.rows == db.rows && r.hwm == Some(MaxSeqOf(DumpBlobs(db)))
            && r.tierAudit == [] && r.archiveAudit == [] && r.editAudit == []
  {
    BlankFile();
    var blank := Opened(EmptyDb);
    DumpRestoresRows(db, blank);
    LoadedParts(blank, blank.hwm.value, DumpBlobs(db));
    hide LoadRows, DumpBlobs, MaxSeqOf, Opened, Loaded, LoadedSeq;
  }

  /** A dump loaded into a fresh file restores every row, token included, and with them the
      board; the mark restarts at the largest prefix stored. The ledgers do not travel. */
  lemma DumpLoadRoundTrip(db: Db)
    requires WellFormed(db)
    ensures var r := Restored(db);
            && WellFormed(r) && r.rows == db.rows && BoardOf(r) == BoardOf(db)
            && r.hwm.Some? && IsMaxSeq(db.rows, r.hwm.value)
            && r.tierAudit == [] && r.archiveAudit == [] && r.editAudit == []
  {
    RestoredContents(db);
    SeedIsExact(db);
    hide BoardOf, Restored, DumpBlobs, IsMaxSeq, MaxSeqOf;
    BoardOfRows(Restored(db), db);
  }
}
