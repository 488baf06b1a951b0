/** The committed contents of the store and the pure meaning of one write transaction. */
module Database {
  import opened Wrappers
  import opened Entities
  import opened Tokens

  /** `order` is the physical scan order (`rowid`); an insert-or-replace moves a row to the end.
      `hwm` is the persisted seq high-water mark, absent in a file that predates it. */
  datatype Db = Db(
    rows: map<RowKey, Entity>,
    order: seq<RowKey>,
    tierAudit: seq<TierRow>,
    archiveAudit: seq<ArchiveRow>,
    editAudit: seq<EditRow>,
    hwm: Option<nat>)

  const EmptyDb: Db := Db(map[], [], [], [], [], None)

  type Hash = Entity -> string

  ghost predicate WellFormed(db: Db) {
    && (forall k | k in db.rows :: db.rows[k].Key() == k)
    && (forall k :: k in db.order <==> k in db.rows)
    && Distinct(db.order)
    && (db.hwm.Some? ==> db.hwm.value <= SEQ_MAX)
  }

  function Without(order: seq<RowKey>, k: RowKey): (r: seq<RowKey>)
    ensures forall j :: j in r <==> j in order && j != k
  {
    if order == [] then []
    else if order[|order| - 1] == k then Without(order[..|order| - 1], k)
    else Without(order[..|order| - 1], k) + [order[|order| - 1]]
  }

  predicate Distinct(order: seq<RowKey>) {
    forall i, j | 0 <= i < j < |order| :: order[i] != order[j]
  }

  /** One key is taken out of the scan order, every other one keeps its place. */
  lemma {:induction false} WithoutSplits(before: seq<RowKey>, k: RowKey, after: seq<RowKey>)
    requires k !in before && k !in after
    ensures Without(before + [k] + after, k) == before + after && Without(before + after, k) == before + after
  {
    if after == [] {
      WithoutAbsent(before, k);
      assert before + [k] + after == before + [k] && before + after == before && (before + [k])[..|before|] == before;
    } else {
      var front, last := after[..|after| - 1], after[|after| - 1];
      WithoutSplits(before, k, front);
      assert (before + [k] + after)[..|before + [k] + after| - 1] == before + [k] + front;
      assert (before + after)[..|before + after| - 1] == before + front && before + after == before + front + [last];
    }
  }

  lemma {:induction false} WithoutAbsent(order: seq<RowKey>, k: RowKey)
    requires k !in order
    ensures Without(order, k) == order
  {
    if order != [] {
      WithoutAbsent(order[..|order| - 1], k);
    }
  }

  lemma DistinctSnoc(order: seq<RowKey>, k: RowKey)
    requires Distinct(order) && k !in order
    ensures Distinct(order + [k])
  {
  }

  lemma {:induction false} WithoutKeepsDistinct(order: seq<RowKey>, k: RowKey)
    requires Distinct(order)
    ensures Distinct(Without(order, k))
  {
    if order != [] {
      var front, last := order[..|order| - 1], order[|order| - 1];
      WithoutKeepsDistinct(front, k);
      assert last !in front;
      if last != k {
        DistinctSnoc(Without(front, k), last);
      }
    }
  }

  /** INSERT OR REPLACE */
  function Replaced(db: Db, e: Entity): Db {
    db.(rows := db.rows[e.Key() := e], order := Without(db.order, e.Key()) + [e.Key()])
  }

  lemma ReplacedWellFormed(db: Db, e: Entity)
    requires WellFormed(db)
    ensures WellFormed(Replaced(db, e))
  {
    WithoutKeepsDistinct(db.order, e.Key());
    DistinctSnoc(Without(db.order, e.Key()), e.Key());
  }

  /** UPDATE of an existing row */
  function Updated(db: Db, e: Entity): Db
    requires e.Key() in db.rows
  {
    db.(rows := db.rows[e.Key() := e])
  }

  /** The entity with a freshly minted token; the hash covers everything but the token. */
  function Stamped(hash: Hash, n: nat, e: Entity): (r: Entity)
    ensures r.Key() == e.Key() && r.Version() == Some(MakeVersion(n, hash(e.WithVersion(None))))
    ensures r == e.WithVersion(r.Version())
  {
    e.WithVersion(Some(MakeVersion(n, hash(e.WithVersion(None)))))
  }

  /** The stored token is the decimal seq, a colon and the hash of the contents without their token;
      the contents are otherwise what was to be stored. */
  lemma StampedToken(hash: Hash, n: nat, e: Entity)
    ensures var r := Stamped(hash, n, e);
            && r.Version() == Some(Decimal(n) + ":" + hash(r.WithVersion(None)))
            && r.WithVersion(None) == e.WithVersion(None) && r == e.WithVersion(r.Version())
  {
    var v := Some(MakeVersion(n, hash(e.WithVersion(None))));
    TokenParts(n, hash(e.WithVersion(None)));
    assert e.WithVersion(v).WithVersion(None) == e.WithVersion(None);
  }

  lemma StampedPrefix(hash: Hash, n: nat, e: Entity)
    requires n <= SEQ_MAX
    ensures SeqPrefix(Stamped(hash, n, e).Version()) == n
  {
    PrefixOfMinted(n, hash(e.WithVersion(None)));
  }

  // ---- One write transaction ------------------------------------------------------------

  datatype PutError = CasMiss(current: Entity) | RowGone | SeqExhausted

  /** What a transaction stages before its put: the entity and the ledger rows. */
  datatype Staged = Staged(
    entity: Entity,
    tierRows: seq<TierRow>,
    archiveRows: seq<ArchiveRow>,
    editRows: seq<EditRow>)

  function WithLedgers(db: Db, st: Staged): Db {
    db.(tierAudit := db.tierAudit + st.tierRows,
        archiveAudit := db.archiveAudit + st.archiveRows,
        editAudit := db.editAudit + st.editRows)
  }

  predicate CasHolds(db: Db, k: RowKey, expected: Option<string>) {
    expected.None? || (k in db.rows && db.rows[k].Version() == expected)
  }

  /** The one DML statement of a put. */
  function Written(view: Db, e: Entity, expected: Option<string>): (r: Db)
    requires CasHolds(view, e.Key(), expected)
    ensures r.hwm == view.hwm
  {
    if expected.None? then Replaced(view, e) else Updated(view, e)
  }

  /** The view a put leaves when it gets through: high-water mark bumped, row stamped and
      written. */
  function PutView(hash: Hash, view: Db, e: Entity, expected: Option<string>): Db
    requires view.hwm.Some? && CasHolds(view, e.Key(), expected)
  {
    var n := view.hwm.value + 1;
    Written(view.(hwm := Some(n)), Stamped(hash, n, e), expected)
  }

  predicate PutSucceeds(db: Db, e: Entity, expected: Option<string>) {
    db.hwm.Some? && db.hwm.value < SEQ_MAX && CasHolds(db, e.Key(), expected)
  }

  /** Stage, mint, compare-and-swap, commit - or leave everything as it was. */
  function Transact(hash: Hash, db: Db, st: Staged, expected: Option<string>): Db {
    if PutSucceeds(db, st.entity, expected) then PutView(hash, WithLedgers(db, st), st.entity, expected) else db
  }

  /** What a put that gets through leaves of the view it found. */
  lemma PutViewIs(hash: Hash, view: Db, e: Entity, expected: Option<string>)
    requires view.hwm.Some? && CasHolds(view, e.Key(), expected)
    ensures var after, row := PutView(hash, view, e, expected), Stamped(hash, view.hwm.value + 1, e);
            && after.rows == view.rows[e.Key() := row] && after.hwm == Some(view.hwm.value + 1)
            && after.order == (if expected.Some? then view.order else Without(view.order, e.Key()) + [e.Key()])
            && after.tierAudit == view.tierAudit && after.archiveAudit == view.archiveAudit && after.editAudit == view.editAudit
  {
  }

  /** The in-memory counter after a put: the minted seq, or the persisted mark re-read after a
      compare-and-swap miss, or what it was when no seq could be minted. */
  function CounterAfterPut(before: Db, counter: nat, e: Entity, expected: Option<string>): nat {
    if PutSucceeds(before, e, expected) then before.hwm.value + 1
    else if before.hwm.Some? && before.hwm.value < SEQ_MAX then before.hwm.value
    else counter
  }

  /** What a missed compare-and-swap reports. */
  function MissOf(db: Db, k: RowKey): PutError {
    if k in db.rows then CasMiss(db.rows[k]) else RowGone
  }

  /** What a put answers. */
  function PutReply(hash: Hash, db: Db, e: Entity, expected: Option<string>): Result<Entity, PutError>
    requires db.hwm.Some?
  {
    if PutSucceeds(db, e, expected) then Success(Stamped(hash, db.hwm.value + 1, e))
    else if db.hwm.value >= SEQ_MAX then Failure(SeqExhausted)
    else Failure(MissOf(db, e.Key()))
  }

  /** Only the row written to. */
  function Alone(e: Entity): Staged {
    Staged(e, [], [], [])
  }

  lemma WrittenWellFormed(view: Db, e: Entity, expected: Option<string>)
    requires WellFormed(view) && CasHolds(view, e.Key(), expected)
    ensures WellFormed(Written(view, e, expected))
  {
    if expected.None? {
      ReplacedWellFormed(view, e);
    }
  }

  lemma MovedMarkWellFormed(view: Db, n: nat)
    requires WellFormed(view) && n <= SEQ_MAX
    ensures WellFormed(view.(hwm := Some(n)))
  {
  }

  lemma TransactWellFormed(hash: Hash, db: Db, st: Staged, expected: Option<string>)
    requires WellFormed(db)
    ensures WellFormed(Transact(hash, db, st, expected))
  {
    if PutSucceeds(db, st.entity, expected) {
      var n := db.hwm.value + 1;
      WrittenWellFormed(WithLedgers(db, st).(hwm := Some(n)), Stamped(hash, n, st.entity), expected);
    }
  }

  /** The rows after a successful transaction: one row replaced, every other one untouched. */
  lemma TransactRows(hash: Hash, db: Db, st: Staged, expected: Option<string>)
    requires PutSucceeds(db, st.entity, expected)
    ensures var db' := Transact(hash, db, st, expected);
            var row := Stamped(hash, db.hwm.value + 1, st.entity);
            && db'.rows == db.rows[st.entity.Key() := row]
            && db'.hwm == Some(db.hwm.value + 1)
            && SeqPrefix(row.Version()) == db.hwm.value + 1
  {
    StampedPrefix(hash, db.hwm.value + 1, st.entity);
  }

  // ---- The high-water mark ---------------------------------------------------------------

  /** `m` is the largest seq prefix stored (0 when there is none). */
  ghost predicate IsMaxSeq(rows: map<RowKey, Entity>, m: nat) {
    && (forall k | k in rows :: SeqPrefix(rows[k].Version()) <= m)
    && (m == 0 || exists k :: k in rows && SeqPrefix(rows[k].Version()) == m)
  }

  predicate BoundsPrefixes(es: seq<Entity>, m: nat) {
    forall i | 0 <= i < |es| :: SeqPrefix(es[i].Version()) <= m
  }

  predicate IsSomePrefix(es: seq<Entity>, m: nat) {
    exists i :: 0 <= i < |es| && SeqPrefix(es[i].Version()) == m
  }

  function MaxSeqOf(es: seq<Entity>): (m: nat)
    ensures m <= SEQ_MAX && BoundsPrefixes(es, m) && (m == 0 || IsSomePrefix(es, m))
  {
    if es == [] then 0
    else
      var rest, last := MaxSeqOf(es[..|es| - 1]), SeqPrefix(es[|es| - 1].Version());
      var m := if last > rest then last else rest;
      PrefixesSnoc(es, rest, m);
      m
  }

  lemma PrefixesSnoc(es: seq<Entity>, rest: nat, m: nat)
    requires es != [] && rest <= m && SeqPrefix(es[|es| - 1].Version()) <= m
    ensures BoundsPrefixes(es[..|es| - 1], rest) ==> BoundsPrefixes(es, m)
    ensures m == SeqPrefix(es[|es| - 1].Version()) || (m == rest && IsSomePrefix(es[..|es| - 1], m)) ==> IsSomePrefix(es, m)
  {
    hide SeqPrefix;
    assert forall i | 0 <= i < |es| - 1 :: es[..|es| - 1][i] == es[i];
  }

  /** A table in scan order. */
  function Listing(db: Db, kind: Kind): seq<Entity>
    requires forall k | k in db.order :: k in db.rows
  {
    ListingOf(db.rows, db.order, kind)
  }

  function ListingOf(rows: map<RowKey, Entity>, order: seq<RowKey>, kind: Kind): (es: seq<Entity>)
    requires forall k | k in order :: k in rows
  {
    if order == [] then []
    else
      var rest, k := ListingOf(rows, order[..|order| - 1], kind), order[|order| - 1];
      if k.kind == kind then rest + [rows[k]] else rest
  }

  /** A listing holds the rows of its kind and nothing else. */
  lemma {:induction false} ListingIsTheTable(rows: map<RowKey, Entity>, order: seq<RowKey>, kind: Kind, e: Entity)
    requires forall k | k in order :: k in rows
    ensures e in ListingOf(rows, order, kind) <==> exists k :: k in order && k.kind == kind && rows[k] == e
  {
    if order != [] {
      var front, last := order[..|order| - 1], order[|order| - 1];
      assert order == front + [last];
      ListingIsTheTable(rows, front, kind, e);
    }
  }

  /** A scan goes through the rows in their order and takes those of its kind. */
  lemma {:induction false} ListingConcat(rows: map<RowKey, Entity>, a: seq<RowKey>, b: seq<RowKey>, kind: Kind)
    requires forall k | k in a + b :: k in rows
    ensures (forall k | k in a :: k in rows) && forall k | k in b :: k in rows
    ensures ListingOf(rows, a + b, kind) == ListingOf(rows, a, kind) + ListingOf(rows, b, kind)
    ensures |a| == 1 ==> ListingOf(rows, a, kind) == if a[0].kind == kind then [rows[a[0]]] else []
  {
    assert forall k | k in a || k in b :: k in a + b;
    if b == [] {
      assert a + b == a;
    } else {
      assert (a + b)[..|a + b| - 1] == a + b[..|b| - 1];
      ListingConcat(rows, a, b[..|b| - 1], kind);
    }
  }

  // ---- Opening, dumping and loading ----------------------------------------------------------

  /** The four collections of a dump, one after the other, tokens intact. */
  function DumpBlobs(db: Db): seq<Entity>
    requires forall k | k in db.order :: k in db.rows
  {
    Listing(db, Projects) + Listing(db, Tasks) + Listing(db, Artifacts) + Listing(db, Escalations)
  }

  lemma DumpIsTheTables(db: Db, e: Entity)
    requires WellFormed(db)
    ensures e in DumpBlobs(db) <==> e.Key() in db.rows && db.rows[e.Key()] == e
  {
    var kind := e.Key().kind;
    forall k: Kind {
      ListingIsTheTable(db.rows, db.order, k, e);
    }
    assert e in DumpBlobs(db) <==>
           e in Listing(db, Projects) || e in Listing(db, Tasks) || e in Listing(db, Artifacts) || e in Listing(db, Escalations);
  }

  /** Opening seeds an absent high-water mark from what is stored and loads a present one. */
  function Opened(db: Db): (r: Db)
    requires forall k | k in db.order :: k in db.rows
    ensures r.hwm.Some?
  {
    if db.hwm.Some? then db else db.(hwm := Some(MaxSeqOf(DumpBlobs(db))))
  }

  function LoadRows(db: Db, blobs: seq<Entity>): (r: Db)
    ensures r.tierAudit == db.tierAudit && r.archiveAudit == db.archiveAudit && r.editAudit == db.editAudit && r.hwm == db.hwm
  {
    if blobs == [] then db else Replaced(LoadRows(db, blobs[..|blobs| - 1]), blobs[|blobs| - 1])
  }

  /** The connection's counter after a load: never below what it was or what was loaded. */
  function LoadedSeq(memSeq: nat, blobs: seq<Entity>): nat {
    var m := MaxSeqOf(blobs);
    if m > memSeq then m else memSeq
  }

  /** Neither forgotten nor made up: the counter is the greater of what it was and what was loaded. */
  lemma LoadedSeqIs(memSeq: nat, blobs: seq<Entity>)
    ensures var n := LoadedSeq(memSeq, blobs);
            && n >= memSeq && (forall i | 0 <= i < |blobs| :: SeqPrefix(blobs[i].Version()) <= n)
            && (n == memSeq || exists i :: 0 <= i < |blobs| && SeqPrefix(blobs[i].Version()) == n)
  {
  }

  function Loaded(db: Db, memSeq: nat, blobs: seq<Entity>): Db {
    var n := LoadedSeq(memSeq, blobs);
    var db' := LoadRows(db, blobs);
    if db'.hwm.None? || n > db'.hwm.value then db'.(hwm := Some(n)) else db'
  }

  /** A load is its rows and a mark that only moves forward. */
  lemma LoadedParts(db: Db, memSeq: nat, blobs: seq<Entity>)
    requires db.hwm.Some? && memSeq <= db.hwm.value
    ensures var m := MaxSeqOf(blobs);
            Loaded(db, memSeq, blobs) == LoadRows(db, blobs).(hwm := Some(if m > db.hwm.value then m else db.hwm.value))
  {
    hide MaxSeqOf;
  }

  lemma {:induction false} LoadRowsContents(db: Db, blobs: seq<Entity>)
    requires WellFormed(db)
    ensures var db' := LoadRows(db, blobs);
            && WellFormed(db')
            && (forall k | k in db'.rows :: (k in db.rows && db'.rows[k] == db.rows[k]) || db'.rows[k] in blobs)
            && (forall k | k in db.rows && (forall e | e in blobs :: e.Key() != k) :: k in db'.rows && db'.rows[k] == db.rows[k])
  {
    if blobs != [] {
      var front, last := blobs[..|blobs| - 1], blobs[|blobs| - 1];
      assert blobs == front + [last];
      LoadRowsContents(db, front);
      ReplacedWellFormed(LoadRows(db, front), last);
    }
  }

  /** A blob that no later one names again is what a load leaves under its key. */
  lemma {:induction false} LastBlobWins(db: Db, blobs: seq<Entity>, i: nat)
    requires i < |blobs| && forall j | i < j < |blobs| :: blobs[j].Key() != blobs[i].Key()
    ensures blobs[i].Key() in LoadRows(db, blobs).rows && LoadRows(db, blobs).rows[blobs[i].Key()] == blobs[i]
  {
    if i < |blobs| - 1 {
      var front := blobs[..|blobs| - 1];
      assert forall j | 0 <= j < |front| :: front[j] == blobs[j];
      LastBlobWins(db, front, i);
    }
  }

  /** The last blob of an envelope with a given key. */
  function LastOf(blobs: seq<Entity>, k: RowKey): Option<Entity> {
    if blobs == [] then None
    else if blobs[|blobs| - 1].Key() == k then Some(blobs[|blobs| - 1])
    else LastOf(blobs[..|blobs| - 1], k)
  }

  /** After a load the last blob of each key is stored as it came, and every other row is as it was. */
  lemma {:induction false} LoadRowsHolds(db: Db, blobs: seq<Entity>, k: RowKey)
    ensures var rows := LoadRows(db, blobs).rows;
            match LastOf(blobs, k)
            case Some(e) => k in rows && rows[k] == e
            case None => (k in rows <==> k in db.rows) && (k in rows ==> rows[k] == db.rows[k])
  {
    if blobs != [] {
      LoadRowsHolds(db, blobs[..|blobs| - 1], k);
    }
  }

  lemma {:induction false} LastOfIsABlob(blobs: seq<Entity>, k: RowKey)
    ensures LastOf(blobs, k).Some? ==> LastOf(blobs, k).value in blobs && LastOf(blobs, k).value.Key() == k
    ensures LastOf(blobs, k).None? <==> forall e | e in blobs :: e.Key() != k
  {
    if blobs != [] {
      LastOfIsABlob(blobs[..|blobs| - 1], k);
      assert blobs == blobs[..|blobs| - 1] + [blobs[|blobs| - 1]];
    }
  }

  /** Seeding takes exactly the largest prefix stored. */
  lemma SeedIsExact(db: Db)
    requires WellFormed(db)
    ensures IsMaxSeq(db.rows, MaxSeqOf(DumpBlobs(db)))
  {
    var blobs := DumpBlobs(db);
    var m := MaxSeqOf(blobs);
    forall k | k in db.rows ensures SeqPrefix(db.rows[k].Version()) <= m {
      DumpIsTheTables(db, db.rows[k]);
    }
    if m != 0 {
      var i :| 0 <= i < |blobs| && SeqPrefix(blobs[i].Version()) == m;
      DumpIsTheTables(db, blobs[i]);
    }
  }
}
