/** Tokens never repeat, and what the persisted high-water mark is worth. */
module HighWater {
  import opened Wrappers
  import opened Entities
  import opened Tokens
  import opened Database
  import opened Governed
  import opened Protocol

  // ---- No token is minted twice --------------------------------------------------------------

  ghost function MintedBy(world: World, s: System, a: Action): seq<string> {
    match a
    case Commit(c) =>
      if Commits(s, c) then [Stamped(world.hash, s.db.hwm.value + 1, PendingOf(s, c).staged.entity).Version().value] else []
    case Put(c, e) =>
      if Idle(s, c) && PutSucceeds(s.db, e, None) then [Stamped(world.hash, s.db.hwm.value + 1, e).Version().value] else []
    case _ => []
  }

  /** The tokens minted during a run, in order, over all tables and all connections. */
  ghost function Minted(world: World, s: System, actions: seq<Action>): seq<string> {
    if actions == [] then []
    else Minted(world, s, actions[..|actions| - 1]) + MintedBy(world, Run(world, s, actions[..|actions| - 1]), actions[|actions| - 1])
  }

  lemma PutMints(hash: Hash, db: Db, st: Staged, token: Option<string>)
    requires PutSucceeds(db, st.entity, token)
    ensures var v := Stamped(hash, db.hwm.value + 1, st.entity).Version();
            && v.Some? && SeqPrefix(Some(v.value)) == db.hwm.value + 1
            && Transact(hash, db, st, token).hwm == Some(db.hwm.value + 1)
  {
    TransactRows(hash, db, st, token);
    hide SeqPrefix, Transact;
  }

  lemma MintedByStep(world: World, s: System, a: Action)
    requires Sound(s) && s.db.hwm.Some?
    ensures var m := MintedBy(world, s, a);
            && |m| <= 1
            && (m != [] ==> SeqPrefix(Some(m[0])) == s.db.hwm.value + 1 == Step(world, s, a).db.hwm.value)
    ensures Sound(Step(world, s, a)) && Step(world, s, a).db.hwm.Some? && s.db.hwm.value <= Step(world, s, a).db.hwm.value
  {
    SoundStep(world, s, a);
    hide Sound, SeqPrefix, Stamped, Transact, Prepare, CasHolds, Loaded, Opened;
    match a
    case Commit(c) =>
      if Commits(s, c) {
        PutMints(world.hash, s.db, PendingOf(s, c).staged, PendingOf(s, c).call.CasToken());
      }
    case Put(c, e) =>
      if Idle(s, c) && PutSucceeds(s.db, e, None) {
        PutMints(world.hash, s.db, Alone(e), None);
      }
    case _ =>
  }

  /** Prefixes of minted tokens strictly increase, start above the mark the run started from and
      stay within the mark it reached. */
  ghost predicate Climbing(tokens: seq<string>, low: nat, high: nat) {
    && (forall i | 0 <= i < |tokens| :: low < SeqPrefix(Some(tokens[i])) <= high)
    && (forall i, j | 0 <= i < j < |tokens| :: SeqPrefix(Some(tokens[i])) < SeqPrefix(Some(tokens[j])))
  }

  lemma ClimbingSnoc(tokens: seq<string>, more: seq<string>, low: nat, mid: nat, high: nat)
    requires Climbing(tokens, low, mid) && low <= mid <= high && |more| <= 1
    requires more != [] ==> SeqPrefix(Some(more[0])) == mid + 1 <= high
    ensures Climbing(tokens + more, low, high)
  {
    hide SeqPrefix;
  }

  lemma {:induction false} MintedClimb(world: World, s: System, actions: seq<Action>)
    requires Sound(s) && s.db.hwm.Some?
    ensures var s' := Run(world, s, actions);
            && Sound(s') && s'.db.hwm.Some? && s.db.hwm.value <= s'.db.hwm.value
            && Climbing(Minted(world, s, actions), s.db.hwm.value, s'.db.hwm.value)
  {
    if actions != [] {
      var front, a := actions[..|actions| - 1], actions[|actions| - 1];
      var mid := Run(world, s, front);
      MintedClimb(world, s, front);
      MintedByStep(world, mid, a);
      ClimbingSnoc(Minted(world, s, front), MintedBy(world, mid, a), s.db.hwm.value, mid.db.hwm.value, Step(world, mid, a).db.hwm.value);
      hide Step, MintedBy, Sound, Climbing;
    }
  }

  /** Over any run of any number of connections, loads included, no token is minted twice, and
      none equals a token that was stored when the run began. */
  lemma NoTokenMintedTwice(world: World, s: System, actions: seq<Action>)
    requires Sound(s) && s.db.hwm.Some?
    ensures var tokens := Minted(world, s, actions);
            && (forall i, j | 0 <= i < j < |tokens| :: tokens[i] != tokens[j])
            && (forall i, k | 0 <= i < |tokens| && k in s.db.rows :: s.db.rows[k].Version() != Some(tokens[i]))
  {
    MintedClimb(world, s, actions);
  }

  // ---- ABA freedom ---------------------------------------------------------------------------

  /** Tokens tell stored rows apart, across all four tables. */
  ghost predicate TokensDistinct(db: Db) {
    forall j, k | j in db.rows && k in db.rows && db.rows[j].Version().Some? && db.rows[j].Version() == db.rows[k].Version() :: j == k
  }

  /** Every row of `later` is either untouched since `db` or younger than every token of `db`. */
  ghost predicate UntouchedOrYounger(db: Db, later: Db) {
    && db.hwm.Some? && later.hwm.Some? && db.hwm.value <= later.hwm.value
    && forall k | k in later.rows ::
         (k in db.rows && later.rows[k] == db.rows[k]) || SeqPrefix(later.rows[k].Version()) > db.hwm.value
  }

  lemma TransactIsYounger(hash: Hash, base: Db, db: Db, st: Staged, token: Option<string>)
    requires UntouchedOrYounger(base, db)
    ensures UntouchedOrYounger(base, Transact(hash, db, st, token))
    ensures Bounded(db) && TokensDistinct(db) ==> TokensDistinct(Transact(hash, db, st, token))
  {
    if PutSucceeds(db, st.entity, token) {
      TransactRows(hash, db, st, token);
    }
  }

  lemma StepIsYounger(world: World, base: Db, s: System, a: Action)
    requires Sound(s) && !a.Load? && UntouchedOrYounger(base, s.db)
    ensures UntouchedOrYounger(base, Step(world, s, a).db)
    ensures TokensDistinct(s.db) ==> TokensDistinct(Step(world, s, a).db)
  {
    match a
    case Commit(c) =>
      if Waiting(s, c) {
        TransactIsYounger(world.hash, base, s.db, PendingOf(s, c).staged, PendingOf(s, c).call.CasToken());
      }
    case Put(c, e) => TransactIsYounger(world.hash, base, s.db, Alone(e), None);
    case _ =>
  }

  lemma {:induction false} RunIsYounger(world: World, s: System, actions: seq<Action>)
    requires Sound(s) && s.db.hwm.Some? && LoadFree(actions)
    ensures var s' := Run(world, s, actions);
            Sound(s') && UntouchedOrYounger(s.db, s'.db) && (TokensDistinct(s.db) ==> TokensDistinct(s'.db))
  {
    if actions != [] {
      var front, a := actions[..|actions| - 1], actions[|actions| - 1];
      RunIsYounger(world, s, front);
      SoundStep(world, Run(world, s, front), a);
      StepIsYounger(world, s.db, Run(world, s, front), a);
    }
  }

  /** ABA freedom of one row: an unchanged token after a load-free run means an unchanged row, so
      a card changed away and back again carries a different token. Nothing is asked of the
      tokens the run started with; they may repeat, be malformed or be missing. */
  lemma RowAbaFreedom(world: World, s: System, actions: seq<Action>, k: RowKey)
    requires Sound(s) && s.db.hwm.Some? && LoadFree(actions)
    requires k in s.db.rows && k in Run(world, s, actions).db.rows
    ensures s.db.rows[k].Version() == Run(world, s, actions).db.rows[k].Version() <==>
            s.db.rows[k] == Run(world, s, actions).db.rows[k]
  {
    RunIsYounger(world, s, actions);
  }

  /** ABA freedom across rows: from tokens that tell the rows apart, a token seen before and after
      a load-free run names the same row with the same contents. */
  lemma AbaFreedom(world: World, s: System, actions: seq<Action>, j: RowKey, k: RowKey)
    requires Sound(s) && s.db.hwm.Some? && TokensDistinct(s.db) && LoadFree(actions)
    requires j in s.db.rows && k in Run(world, s, actions).db.rows
    requires s.db.rows[j].Version().Some? && s.db.rows[j].Version() == Run(world, s, actions).db.rows[k].Version()
    ensures j == k && s.db.rows[j] == Run(world, s, actions).db.rows[k]
  {
    RunIsYounger(world, s, actions);
  }

  // ---- How exact the mark is -------------------------------------------------------------------

  /** The mark is the largest prefix stored, so dropping and re-seeding it loses nothing. */
  ghost predicate Exact(db: Db) {
    db.hwm.Some? && IsMaxSeq(db.rows, db.hwm.value)
  }

  /** Dropping the row and opening again restores the counter exactly when the mark is exact. */
  lemma ReseedRestoresIffExact(db: Db)
    requires WellFormed(db) && db.hwm.Some?
    ensures Opened(db.(hwm := None)).hwm == db.hwm <==> Exact(db)
  {
    var n := MaxSeqOf(DumpBlobs(db.(hwm := None)));
    SeedIsExact(db.(hwm := None));
    assert Opened(db.(hwm := None)).hwm == Some(n);
    hide MaxSeqOf, DumpBlobs, Opened;
    if Exact(db) {
      MaxSeqIsUnique(db.rows, n, db.hwm.value);
    }
  }

  lemma MaxSeqIsUnique(rows: map<RowKey, Entity>, m: nat, n: nat)
    requires IsMaxSeq(rows, m) && IsMaxSeq(rows, n)
    ensures m == n
  {
  }

  lemma TransactKeepsExact(hash: Hash, db: Db, st: Staged, token: Option<string>)
    requires Exact(db)
    ensures Exact(Transact(hash, db, st, token))
  {
    if PutSucceeds(db, st.entity, token) {
      TransactRows(hash, db, st, token);
      assert SeqPrefix(Transact(hash, db, st, token).rows[st.entity.Key()].Version()) == db.hwm.value + 1;
    }
  }

  lemma StepKeepsExact(world: World, s: System, a: Action)
    requires Sound(s) && !a.Load? && (s.db.hwm.None? || Exact(s.db))
    ensures Step(world, s, a).db.hwm.None? || Exact(Step(world, s, a).db)
  {
    match a
    case Open(c) =>
      if s.db.hwm.None? {
        SeedIsExact(s.db);
      }
    case Commit(c) =>
      if Waiting(s, c) {
        TransactKeepsExact(world.hash, s.db, PendingOf(s, c).staged, PendingOf(s, c).call.CasToken());
      }
    case Put(c, e) =>
      if Idle(s, c) {
        TransactKeepsExact(world.hash, s.db, Alone(e), None);
      }
    case _ =>
  }

  /** Mark exactness: from any file without a mark - an empty one, or one that predates it - every
      state of every load-free run has, once opened, exactly the largest stored prefix as mark. */
  lemma {:induction false} MarkIsExact(world: World, s: System, actions: seq<Action>)
    requires Initial(s) && s.db.hwm.None? && LoadFree(actions)
    ensures var s' := Run(world, s, actions);
            Sound(s') && (s'.db.hwm.None? || Exact(s'.db))
  {
    if actions != [] {
      var front, a := actions[..|actions| - 1], actions[|actions| - 1];
      MarkIsExact(world, s, front);
      SoundStep(world, Run(world, s, front), a);
      StepKeepsExact(world, Run(world, s, front), a);
    }
  }

  /** A row no blob is about carries the mark `m`. */
  ghost predicate MarkSpared(db: Db, blobs: seq<Entity>, m: nat) {
    exists k :: k in db.rows && SeqPrefix(db.rows[k].Version()) == m && LastOf(blobs, k).None?
  }

  /** A blob no later one overwrites carries the mark `m`. */
  ghost predicate MarkBrought(blobs: seq<Entity>, m: nat) {
    exists k :: LastOf(blobs, k).Some? && SeqPrefix(LastOf(blobs, k).value.Version()) == m
  }

  function LoadedMark(mark: nat, blobs: seq<Entity>): nat {
    if MaxSeqOf(blobs) > mark then MaxSeqOf(blobs) else mark
  }

  /** After a load the mark still bounds every token, and it is exact if and only if a blob that
      stays, or a row that is spared, carries it - envelopes that name a row twice included. */
  lemma ExactAfterLoadIff(db: Db, counter: nat, blobs: seq<Entity>)
    requires WellFormed(db) && Bounded(db) && db.hwm.Some? && counter <= db.hwm.value
    ensures var m := LoadedMark(db.hwm.value, blobs);
            Exact(Loaded(db, counter, blobs)) <==> m == 0 || MarkBrought(blobs, m) || MarkSpared(db, blobs, m)
  {
    var db', m := Loaded(db, counter, blobs), LoadedMark(db.hwm.value, blobs);
    LoadedIsBounded(db, counter, blobs);
    LoadedParts(db, counter, blobs);
    forall k
      ensures match LastOf(blobs, k)
              case Some(e) => k in db'.rows && db'.rows[k] == e
              case None => (k in db'.rows <==> k in db.rows) && (k in db'.rows ==> db'.rows[k] == db.rows[k])
    {
      LoadRowsHolds(db, blobs, k);
    }
    hide LoadRows, Loaded, MaxSeqOf, SeqPrefix, LoadedSeq, LastOf, WellFormed, LoadedMark;
    MarkAfterLoadIff(db, db', blobs, m);
  }

  lemma MarkAfterLoadIff(db: Db, db': Db, blobs: seq<Entity>, m: nat)
    requires db'.hwm == Some(m) && Bounded(db')
    requires forall k ::
               match LastOf(blobs, k)
               case Some(e) => k in db'.rows && db'.rows[k] == e
               case None => (k in db'.rows <==> k in db.rows) && (k in db'.rows ==> db'.rows[k] == db.rows[k])
    ensures Exact(db') <==> m == 0 || MarkBrought(blobs, m) || MarkSpared(db, blobs, m)
  {
    hide SeqPrefix, LastOf;
    if Exact(db') && m != 0 {
      var k :| k in db'.rows && SeqPrefix(db'.rows[k].Version()) == m;
      assert LastOf(blobs, k).Some? || LastOf(blobs, k).None?;
    }
    if MarkBrought(blobs, m) {
      var k :| LastOf(blobs, k).Some? && SeqPrefix(LastOf(blobs, k).value.Version()) == m;
      assert k in db'.rows;
    }
    if MarkSpared(db, blobs, m) {
      var k :| k in db.rows && SeqPrefix(db.rows[k].Version()) == m && LastOf(blobs, k).None?;
      assert k in db'.rows;
    }
  }

  /** A file with one row, whose token carries the mark. */
  function OneRow(e: Entity): Db {
    Db(map[e.Key() := e], [e.Key()], [], [], [], Some(SeqPrefix(e.Version())))
  }

  lemma OneBlob(e: Entity)
    ensures MaxSeqOf([e]) == SeqPrefix(e.Version())
    ensures forall k :: LastOf([e], k) == if k == e.Key() then Some(e) else None
  {
    hide SeqPrefix;
    assert [e][..0] == [] && MaxSeqOf([]) == 0;
  }

  lemma OneRowIsExact(e: Entity)
    ensures WellFormed(OneRow(e)) && Exact(OneRow(e)) && Bounded(OneRow(e))
  {
    hide SeqPrefix;
    assert e.Key() in OneRow(e).rows;
  }

  /** Loads that end exactness: an older token put over the only row that carries the mark. */
  lemma OlderTokenLosesTheMark(newer: Entity, older: Entity)
    requires newer.Key() == older.Key() && SeqPrefix(older.Version()) < SeqPrefix(newer.Version())
    ensures var db := OneRow(newer); WellFormed(db) && Exact(db) && !Exact(Loaded(db, db.hwm.value, [older]))
  {
    OneRowIsExact(newer);
    OneBlob(older);
    hide SeqPrefix, MaxSeqOf, LastOf, Loaded, Exact, WellFormed, Bounded;
    ExactAfterLoadIff(OneRow(newer), SeqPrefix(newer.Version()), [older]);
  }

  /** One such load. */
  lemma SuchALoad()
    ensures var newer := ProjectRow(Project("p", "", None, Some(MakeVersion(2, "h")), None));
            var older := ProjectRow(Project("p", "", None, Some(MakeVersion(1, "h")), None));
            Exact(OneRow(newer)) && !Exact(Loaded(OneRow(newer), 2, [older]))
  {
    PrefixOfMinted(1, "h");
    PrefixOfMinted(2, "h");
    hide SeqPrefix, MakeVersion, Loaded, Exact;
    OlderTokenLosesTheMark(ProjectRow(Project("p", "", None, Some(MakeVersion(2, "h")), None)),
                           ProjectRow(Project("p", "", None, Some(MakeVersion(1, "h")), None)));
  }
}
