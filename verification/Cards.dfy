/** The card list a client gets: the projected board, tombstones merged in on request, then
    filtered card by card. */
module Cards {
  import opened Wrappers
  import opened JsonValue
  import opened Entities
  import opened Database
  import opened Sorting
  import opened Projection
  import opened Storage

  datatype Query = Query(column: Option<string>, tag: Option<string>, includeDeleted: bool, includeArchived: bool)

  /** The reply: the cards and a freshly minted opaque token. */
  datatype CardList = CardList(cards: seq<JsonObject>, syncToken: string)

  datatype PayloadTooLarge = PayloadTooLarge(size: nat, limit: nat)

  // ---- What a query asks for, said of tasks ----------------------------------------------------

  predicate KeepsDeleted(q: Query, t: Task) {
    q.includeDeleted || t.deletedAt.None?
  }

  predicate KeepsArchived(q: Query, t: Task) {
    q.includeArchived || t.archivedAt.None?
  }

  predicate KeepsColumn(q: Query, t: Task) {
    q.column.Some? ==> t.state == q.column.value
  }

  predicate KeepsTag(q: Query, t: Task) {
    q.tag.Some? ==> t.tier.Some? && q.tag.value == TIER_TAG_PREFIX + IntText(t.tier.value)
  }

  predicate Wanted(q: Query, t: Task) {
    KeepsDeleted(q, t) && KeepsArchived(q, t) && KeepsColumn(q, t) && KeepsTag(q, t)
  }

  /** A deleted task is rendered like a live one, without a badge and with its `deleted_at`. */
  function Tombstone(t: Task): JsonObject {
    CardOf(t, Null)["deleted_at" := OptStr(t.deletedAt)]
  }

  function RenderAny(es: seq<Escalation>): Task -> JsonObject {
    (t: Task) => if t.deletedAt.None? then CardOf(t, BadgeOf(es, t.id)) else Tombstone(t)
  }

  /** The tasks asked for, by `(order, id)`, each rendered. */
  function Snapshot(q: Query, tasks: seq<Task>, es: seq<Escalation>): seq<JsonObject> {
    Map(RenderAny(es), Sort(TaskKey, Filter((t: Task) => Wanted(q, t), tasks)))
  }

  // ---- The filters, as they look at cards ------------------------------------------------------

  predicate NotArchivedCard(c: JsonObject) {
    "archived_at" in c && c["archived_at"].Null?
  }

  predicate CardInColumn(c: JsonObject, column: string) {
    "column_id" in c && c["column_id"] == Str(column)
  }

  predicate CardHasTag(c: JsonObject, tag: string) {
    "tags" in c && c["tags"].Arr? && Str(tag) in c["tags"].items
  }

  lemma RenderedFields(es: seq<Escalation>, t: Task)
    ensures var card := RenderAny(es)(t);
            && BoardKey(card) == TaskKey(t)
            && (NotArchivedCard(card) <==> t.archivedAt.None?)
            && (forall column :: CardInColumn(card, column) <==> t.state == column)
            && (forall tag :: CardHasTag(card, tag) <==> t.tier.Some? && tag == TIER_TAG_PREFIX + IntText(t.tier.value))
  {
    CardFields(t, Null);
    CardFields(t, BadgeOf(es, t.id));
    hide CardOf, BadgeOf, TaskKey;
  }

  // ---- Lists of tasks on their way through the pipeline ------------------------------------------

  /** `ts` is the sorted list of the tasks that pass `p`. */
  ghost predicate Passing(ts: seq<Task>, tasks: seq<Task>, p: Task -> bool) {
    Sorted(TaskKey, ts) && forall t :: t in ts <==> t in tasks && p(t)
  }

  lemma PassingIsUnique(ts: seq<Task>, tasks: seq<Task>, p: Task -> bool)
    requires DistinctTasks(tasks) && Passing(ts, tasks, p)
    ensures ts == Sort(TaskKey, Filter(p, tasks))
  {
    SortedBoard(tasks, p);
    SortedIsUnique(TaskKey, ts, Sort(TaskKey, Filter(p, tasks)));
  }

  /** Filtering rendered cards is filtering the tasks behind them. */
  lemma FilterPassing(es: seq<Escalation>, ts: seq<Task>, tasks: seq<Task>, p: Task -> bool, keep: Task -> bool,
                      keepCard: JsonObject -> bool, both: Task -> bool)
    requires Passing(ts, tasks, p)
    requires forall t: Task :: keepCard(RenderAny(es)(t)) == keep(t) && both(t) == (p(t) && keep(t))
    ensures Filter(keepCard, Map(RenderAny(es), ts)) == Map(RenderAny(es), Filter(keep, ts))
    ensures Passing(Filter(keep, ts), tasks, both)
  {
    FilterCommutesWithMap(keep, keepCard, RenderAny(es), ts);
    FilterSorted(TaskKey, keep, ts);
    forall t ensures t in Filter(keep, ts) <==> t in tasks && both(t) {
      FilterContents(keep, ts, t);
    }
  }

  predicate Dead(t: Task) {
    t.deletedAt.Some?
  }

  lemma MapAgrees<T, U>(f: T -> U, g: T -> U, xs: seq<T>)
    requires forall x | x in xs :: f(x) == g(x)
    ensures Map(f, xs) == Map(g, xs)
  {
  }

  /** Merging the tombstones back in and sorting again gives every task its place. */
  lemma MergeTombstones(tasks: seq<Task>)
    requires DistinctTasks(tasks)
    ensures Passing(Sort(TaskKey, Sort(TaskKey, Filter(Live, tasks)) + Filter(Dead, tasks)), tasks, (t: Task) => true)
  {
    var live, dead := Sort(TaskKey, Filter(Live, tasks)), Filter(Dead, tasks);
    SortedBoard(tasks, Live);
    FilterDistinct(TaskKey, Dead, tasks);
    forall t ensures t in dead <==> t in tasks && Dead(t) {
      FilterContents(Dead, tasks, t);
    }
    assert DistinctKeys(TaskKey, live) by {
      SortedIsDistinct(live);
    }
    forall t, u | t in live && u in dead ensures TaskKey(t) != TaskKey(u) {
      DifferentIds(tasks, t, u);
    }
    DistinctConcat(live, dead);
    SortIsSorted(TaskKey, live + dead);
    forall t ensures t in Sort(TaskKey, live + dead) <==> t in tasks {
      SortContents(TaskKey, live + dead, t);
    }
  }

  lemma DifferentIds(tasks: seq<Task>, t: Task, u: Task)
    requires DistinctTasks(tasks) && t in tasks && u in tasks && t != u
    ensures t.id != u.id
  {
    var i :| 0 <= i < |tasks| && tasks[i] == t;
    var j :| 0 <= j < |tasks| && tasks[j] == u;
  }

  lemma SortedIsDistinct(ts: seq<Task>)
    requires Sorted(TaskKey, ts)
    ensures DistinctKeys(TaskKey, ts)
  {
    forall i, j | 0 <= i < j < |ts| ensures TaskKey(ts[i]) != TaskKey(ts[j]) {
      KeyLessIrreflexive(TaskKey(ts[i]));
    }
  }

  lemma DistinctConcat(xs: seq<Task>, ys: seq<Task>)
    requires DistinctKeys(TaskKey, xs) && DistinctKeys(TaskKey, ys)
    requires forall x, y | x in xs && y in ys :: TaskKey(x) != TaskKey(y)
    ensures DistinctKeys(TaskKey, xs + ys)
  {
  }

  // ---- The pipeline ------------------------------------------------------------------------------

  method TombstoneCard(t: Task) returns (card: JsonObject)
    ensures card == Tombstone(t)
  {
    var rendered := ToCard(Some(t.(deletedAt := None)), Null);
    card := rendered.value["deleted_at" := OptStr(t.deletedAt)];
  }

  /** The full snapshot before any filter but the one on deletion. */
  method Gather(q: Query, tasks: seq<Task>, es: seq<Escalation>) returns (cards: seq<JsonObject>, ghost ts: seq<Task>)
    requires DistinctTasks(tasks)
    ensures cards == Map(RenderAny(es), ts) && Passing(ts, tasks, (t: Task) => KeepsDeleted(q, t))
  {
    cards := Projection.Project(tasks, es);
    ts := Sort(TaskKey, Filter(Live, tasks));
    SortedBoard(tasks, Live);
    MapAgrees(Render(es), RenderAny(es), ts);
    hide CardOf, BadgeOf, Sort, Filter;
    if q.includeDeleted {
      var tombstones := [];
      var dead := Filter(Dead, tasks);
      for i := 0 to |dead|
        invariant |tombstones| == i && forall j | 0 <= j < i :: tombstones[j] == Tombstone(dead[j])
      {
        var card := TombstoneCard(dead[i]);
        tombstones := tombstones + [card];
      }
      assert tombstones == Map(RenderAny(es), dead) by {
        forall j | 0 <= j < |dead| ensures dead[j].deletedAt.Some? {
          FilterContents(Dead, tasks, dead[j]);
        }
      }
      MapConcat(RenderAny(es), ts, dead);
      forall t: Task ensures BoardKey(RenderAny(es)(t)) == TaskKey(t) {
        RenderedFields(es, t);
      }
      SortCommutesWithMap(TaskKey, BoardKey, RenderAny(es), ts + dead);
      cards := Sort(BoardKey, cards + tombstones);
      MergeTombstones(tasks);
      ts := Sort(TaskKey, ts + dead);
    }
  }

  method Select(q: Query, tasks: seq<Task>, es: seq<Escalation>) returns (cards: seq<JsonObject>)
    requires DistinctTasks(tasks)
    ensures cards == Snapshot(q, tasks, es)
  {
    ghost var ts;
    cards, ts := Gather(q, tasks, es);
    forall t: Task
      ensures NotArchivedCard(RenderAny(es)(t)) <==> t.archivedAt.None?
      ensures q.column.Some? ==> (CardInColumn(RenderAny(es)(t), q.column.value) <==> KeepsColumn(q, t))
      ensures q.tag.Some? ==> (CardHasTag(RenderAny(es)(t), q.tag.value) <==> KeepsTag(q, t))
    {
      RenderedFields(es, t);
    }
    hide RenderAny, NotArchivedCard, CardInColumn, CardHasTag, Filter, Sort, TaskKey;
    if !q.includeArchived {
      FilterPassing(es, ts, tasks, (t: Task) => KeepsDeleted(q, t), (t: Task) => t.archivedAt.None?, NotArchivedCard,
                    (t: Task) => KeepsDeleted(q, t) && KeepsArchived(q, t));
      cards, ts := Filter(NotArchivedCard, cards), Filter((t: Task) => t.archivedAt.None?, ts);
    }
    assert Passing(ts, tasks, (t: Task) => KeepsDeleted(q, t) && KeepsArchived(q, t));
    if q.column.Some? {
      FilterPassing(es, ts, tasks, (t: Task) => KeepsDeleted(q, t) && KeepsArchived(q, t), (t: Task) => KeepsColumn(q, t),
                    (c: JsonObject) => CardInColumn(c, q.column.value),
                    (t: Task) => KeepsDeleted(q, t) && KeepsArchived(q, t) && KeepsColumn(q, t));
      cards, ts := Filter((c: JsonObject) => CardInColumn(c, q.column.value), cards), Filter((t: Task) => KeepsColumn(q, t), ts);
    }
    assert Passing(ts, tasks, (t: Task) => KeepsDeleted(q, t) && KeepsArchived(q, t) && KeepsColumn(q, t));
    if q.tag.Some? {
      FilterPassing(es, ts, tasks, (t: Task) => KeepsDeleted(q, t) && KeepsArchived(q, t) && KeepsColumn(q, t),
                    (t: Task) => KeepsTag(q, t), (c: JsonObject) => CardHasTag(c, q.tag.value), (t: Task) => Wanted(q, t));
      cards, ts := Filter((c: JsonObject) => CardHasTag(c, q.tag.value), cards), Filter((t: Task) => KeepsTag(q, t), ts);
    }
    assert Passing(ts, tasks, (t: Task) => Wanted(q, t));
    PassingIsUnique(ts, tasks, (t: Task) => Wanted(q, t));
  }

  /** Open a connection, list, render, filter; complete or an error, never truncated. `size` is
      the serialized length of the whole reply. */
  method ListCards(file: File, hash: Hash, q: Query, syncToken: string, size: CardList -> nat, maxBytes: nat)
    returns (r: Result<CardList, PayloadTooLarge>)
    requires WellFormed(file.db) && (file.db.hwm.None? ==> file.writer == null)
    modifies file`db
    ensures file.db == Opened(old(file.db))
    ensures var reply := CardList(Snapshot(q, TasksOf(old(file.db)), EscalationsOf(old(file.db))), syncToken);
            r == if size(reply) > maxBytes then Failure(PayloadTooLarge(size(reply), maxBytes)) else Success(reply)
  {
    TasksOfContents(file.db);
    var store := new Store(file, hash);
    var taskRows := store.ListAll(Tasks);
    var escalationRows := store.ListAll(Escalations);
    hide Snapshot;
    var cards := Select(q, TasksIn(taskRows), EscalationsIn(escalationRows));
    var reply := CardList(cards, syncToken);
    if size(reply) > maxBytes {
      return Failure(PayloadTooLarge(size(reply), maxBytes));
    }
    return Success(reply);
  }

  /** What the flags and filters of a query let through, spelled out. */
  predicate AsksFor(q: Query, t: Task) {
    && (t.deletedAt.Some? ==> q.includeDeleted)
    && (t.archivedAt.Some? ==> q.includeArchived)
    && (q.column == None || q.column == Some(t.state))
    && (q.tag == None || (t.tier.Some? && q.tag == Some("tier:" + IntText(t.tier.value))))
  }

  /** A live task shows its card; a deleted one shows the same without a badge, and when it was
      deleted. */
  lemma RenderAnyIs(es: seq<Escalation>, t: Task)
    ensures t.deletedAt.None? ==> RenderAny(es)(t) == CardOf(t, BadgeOf(es, t.id))
    ensures t.deletedAt.Some? ==>
              var card := RenderAny(es)(t);
              && Shows(card, "deleted_at", Str(t.deletedAt.value))
              && card.Keys == CardOf(t, Null).Keys && forall k | k in card && k != "deleted_at" :: card[k] == CardOf(t, Null)[k]
  {
    CardPlaces(t, Null);
    hide CardOf, BadgeOf;
  }

  /** The list holds exactly one card per task asked for, by order and then by id. */
  lemma SnapshotIsExact(q: Query, tasks: seq<Task>, es: seq<Escalation>)
    requires DistinctTasks(tasks)
    ensures var cards := Snapshot(q, tasks, es);
            && (forall t | t in tasks && AsksFor(q, t) :: RenderAny(es)(t) in cards)
            && (forall c | c in cards :: exists t :: t in tasks && AsksFor(q, t) && c == RenderAny(es)(t))
            && (forall i, j | 0 <= i < j < |cards| :: PlacedBefore(cards[i], cards[j]))
  {
    var p := (t: Task) => Wanted(q, t);
    var ts := Sort(TaskKey, Filter(p, tasks));
    assert forall t :: AsksFor(q, t) <==> p(t);
    hide CardOf, BadgeOf, Sort, Filter, AsksFor, Wanted;
    SortedBoard(tasks, p);
    MapContents(RenderAny(es), ts);
    forall i, j | 0 <= i < j < |ts| ensures PlacedBefore(RenderAny(es)(ts[i]), RenderAny(es)(ts[j])) {
      RenderedPlace(es, ts[i]);
      RenderedPlace(es, ts[j]);
    }
  }

  lemma RenderedPlace(es: seq<Escalation>, t: Task)
    ensures Shows(RenderAny(es)(t), "order", Str(t.order)) && Shows(RenderAny(es)(t), "id", Str(t.id))
  {
    CardPlaces(t, Null);
    CardPlaces(t, BadgeOf(es, t.id));
    hide CardOf, BadgeOf;
  }
}
