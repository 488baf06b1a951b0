/** The store as the program runs it: one file shared by connections, each with its own open
    transaction and in-memory counter, updated in place. */
module Storage {
  import opened Wrappers
  import opened Strings
  import opened Entities
  import opened Tokens
  import opened Database

  /** The database file: what has been committed, and which connection holds the write lock. */
  class File {
    var db: Db
    var writer: Store?

    constructor ()
      ensures db == EmptyDb && writer == null
    {
      db := EmptyDb;
      writer := null;
    }
  }

  /** One connection. `txn` is the view of its open write transaction; the first write begins one
      and takes the lock, `Commit` and `Rollback` end it and give the lock back. */
  class Store {
    const file: File
    const hash: Hash
    var txn: Option<Db>
    var counter: nat

    /** This connection may write: the lock is its own while it has a transaction open, and
        nobody's otherwise. */
    ghost predicate Valid()
      reads this, file
    {
      && WellFormed(file.db) && file.db.hwm.Some?
      && (txn.Some? ==> WellFormed(txn.value) && txn.value.hwm.Some?)
      && file.writer == (if txn.Some? then this else null)
    }

    function View(): Db
      reads this, file
    {
      if txn.Some? then txn.value else file.db
    }

    constructor (file: File, hash: Hash)
      requires WellFormed(file.db) && (file.db.hwm.None? ==> file.writer == null)
      modifies file`db
      ensures this.file == file && this.hash == hash && txn.None?
      ensures file.db == Opened(old(file.db)) && counter == file.db.hwm.value
      ensures WellFormed(file.db) && (file.writer == null ==> Valid())
    {
      this.file := file;
      this.hash := hash;
      this.txn := None;
      this.counter := 0;
      new;
      var n := SeedAndLoadSeqHwm();
      counter := n;
    }

    method SeedAndLoadSeqHwm() returns (n: nat)
      requires WellFormed(file.db) && txn.None? && (file.db.hwm.None? ==> file.writer == null)
      modifies file`db
      ensures file.db == Opened(old(file.db)) && n == file.db.hwm.value
      ensures WellFormed(file.db)
    {
      if file.db.hwm.Some? {
        return file.db.hwm.value;
      }
      n := MaxTableSeq();
      file.db := file.db.(hwm := Some(n));
    }

    method MaxTableSeq() returns (m: nat)
      requires WellFormed(file.db) && txn.None?
      ensures m == MaxSeqOf(DumpBlobs(file.db))
    {
      var blobs := Dump();
      m := MaxEntitySeq(blobs);
    }

    /** The highest seq prefix among the tokens of an envelope. */
    static method MaxEntitySeq(blobs: seq<Entity>) returns (m: nat)
      ensures m == MaxSeqOf(blobs)
    {
      m := 0;
      for i := 0 to |blobs|
        invariant m == MaxSeqOf(blobs[..i])
      {
        assert blobs[..i + 1][..i] == blobs[..i];
        var n := SeqPrefix(blobs[i].Version());
        if n > m {
          m := n;
        }
      }
      assert blobs[..|blobs|] == blobs;
    }

    // ---- Reads ---------------------------------------------------------------------------

    method Get(kind: Kind, id: string) returns (e: Option<Entity>)
      ensures var k := RowKey(kind, id); e == if k in View().rows then Some(View().rows[k]) else None
    {
      var k := RowKey(kind, id);
      if k in View().rows {
        e := Some(View().rows[k]);
      } else {
        e := None;
      }
    }

    /** Every row of a table, tombstones included, in scan order. */
    method ListAll(kind: Kind) returns (es: seq<Entity>)
      requires WellFormed(View())
      ensures es == Listing(View(), kind)
    {
      var db := View();
      es := [];
      for i := 0 to |db.order|
        invariant es == ListingOf(db.rows, db.order[..i], kind)
      {
        assert db.order[..i + 1][..i] == db.order[..i];
        if db.order[i].kind == kind {
          es := es + [db.rows[db.order[i]]];
        }
      }
      assert db.order[..|db.order|] == db.order;
    }

    method Dump() returns (blobs: seq<Entity>)
      requires WellFormed(View())
      ensures blobs == DumpBlobs(View())
    {
      var projects := ListAll(Projects);
      var tasks := ListAll(Tasks);
      var artifacts := ListAll(Artifacts);
      var escalations := ListAll(Escalations);
      blobs := projects + tasks + artifacts + escalations;
    }

    // ---- Transactions --------------------------------------------------------------------

    method Commit()
      requires Valid()
      modifies this`txn, file
      ensures Valid() && txn.None? && file.db == old(View())
    {
      file.db := View();
      Rollback();
    }

    method Rollback()
      requires file.writer == (if txn.Some? then this else null)
      modifies this`txn, file`writer
      ensures txn.None? && file.writer == null
    {
      file.writer := null;
      txn := None;
    }

    /** The view of the open transaction becomes `view`; the first write begins it. */
    method Stage(view: Db)
      requires Valid() && WellFormed(view) && view.hwm.Some?
      modifies this`txn, file`writer
      ensures Valid() && txn == Some(view)
    {
      file.writer := this;
      txn := Some(view);
    }

    method AppendTierAudit(row: TierRow, commit: bool)
      requires Valid()
      modifies this`txn, file
      ensures Valid() && View() == old(View()).(tierAudit := old(View()).tierAudit + [row])
      ensures if commit then txn.None? else txn.Some? && file.db == old(file.db)
    {
      var view := View();
      Stage(view.(tierAudit := view.tierAudit + [row]));
      if commit {
        Commit();
      }
    }

    /** Rows without a reason are refused before anything is staged. */
    method AppendArchiveAudit(row: ArchiveRow, commit: bool) returns (ok: bool)
      requires Valid()
      modifies this`txn, file
      ensures Valid() && ok == !Blank(row.reason)
      ensures !ok ==> txn == old(txn) && file.db == old(file.db)
      ensures ok ==> View() == old(View()).(archiveAudit := old(View()).archiveAudit + [row])
      ensures ok ==> if commit then txn.None? else txn.Some? && file.db == old(file.db)
    {
      if Blank(row.reason) {
        return false;
      }
      var view := View();
      Stage(view.(archiveAudit := view.archiveAudit + [row]));
      if commit {
        Commit();
      }
      return true;
    }

    method AppendEditAudit(row: EditRow, commit: bool)
      requires Valid()
      modifies this`txn, file
      ensures Valid() && View() == old(View()).(editAudit := old(View()).editAudit + [row])
      ensures if commit then txn.None? else txn.Some? && file.db == old(file.db)
    {
      var view := View();
      Stage(view.(editAudit := view.editAudit + [row]));
      if commit {
        Commit();
      }
    }

    /** Mint the next seq by incrementing the persisted mark inside the transaction. */
    method NextSeq() returns (n: Option<nat>)
      requires Valid()
      modifies this, file`writer
      ensures Valid()
      ensures var mark := old(View()).hwm.value;
              if mark < SEQ_MAX
              then n == Some(mark + 1) && counter == mark + 1 && txn == Some(old(View()).(hwm := Some(mark + 1)))
              else n.None? && counter == old(counter) && txn == old(txn)
    {
      var view := View();
      var mark := view.hwm.value;
      if mark >= SEQ_MAX {
        return None;
      }
      Stage(view.(hwm := Some(mark + 1)));
      counter := mark + 1;
      return Some(mark + 1);
    }

    /** Stamp a fresh token and write the entity, committing whatever was staged before it - or
        leave the file exactly as it was. */
    method Put(e: Entity, expected: Option<string>) returns (r: Result<Entity, PutError>)
      requires Valid()
      modifies this, file
      ensures Valid() && txn.None?
      ensures PutSucceeds(old(View()), e, expected) ==>
                && r == Success(Stamped(hash, old(View()).hwm.value + 1, e))
                && file.db == PutView(hash, old(View()), e, expected)
                && counter == file.db.hwm.value
      ensures !PutSucceeds(old(View()), e, expected) ==>
                && r.Failure? && file.db == old(file.db)
                && (r == Failure(SeqExhausted) <==> old(View()).hwm.value >= SEQ_MAX)
                && counter == (if r == Failure(SeqExhausted) then old(counter) else file.db.hwm.value)
                && (r != Failure(SeqExhausted) ==> r == Failure(MissOf(file.db, e.Key())))
      // The same, of tokens, rows and mark alone.
      ensures r.Success? <==>
                && old(View()).hwm.value < SEQ_MAX
                && (expected.Some? ==> e.Key() in old(View()).rows && old(View()).rows[e.Key()].Version() == expected)
      ensures r.Success? ==>
                var was, n := old(View()), old(View()).hwm.value + 1;
                && r.value.Version() == Some(Decimal(n) + ":" + hash(r.value.WithVersion(None)))
                && r.value.WithVersion(None) == e.WithVersion(None)
                && file.db.rows == was.rows[e.Key() := r.value] && file.db.hwm == Some(n)
                && file.db.order == (if expected.Some? then was.order else Without(was.order, e.Key()) + [e.Key()])
                && file.db.tierAudit == was.tierAudit && file.db.archiveAudit == was.archiveAudit && file.db.editAudit == was.editAudit
      ensures r.Failure? ==>
                r.error == if old(View()).hwm.value >= SEQ_MAX then SeqExhausted
                           else if e.Key() in file.db.rows then CasMiss(file.db.rows[e.Key()]) else RowGone
    {
      hide WellFormed, Stamped, Written;
      ghost var was := View();
      StampedToken(hash, was.hwm.value + 1, e);
      if CasHolds(was, e.Key(), expected) {
        PutViewIs(hash, was, e, expected);
      }
      var n := NextSeq();
      if n.None? {
        Rollback();
        return Failure(SeqExhausted);
      }
      r := WriteRow(Stamped(hash, n.value, e), expected);
    }

    /** The one DML statement of a put; without a token it replaces, with one it compares and
        swaps. When no row matched, everything staged is undone. */
    method WriteRow(e: Entity, expected: Option<string>) returns (r: Result<Entity, PutError>)
      requires Valid()
      modifies this, file
      ensures Valid() && txn.None?
      ensures CasHolds(old(View()), e.Key(), expected) ==>
                r == Success(e) && file.db == Written(old(View()), e, expected) && counter == old(counter)
      ensures !CasHolds(old(View()), e.Key(), expected) ==>
                r == Failure(MissOf(file.db, e.Key())) && file.db == old(file.db) && counter == file.db.hwm.value
    {
      var view := View();
      var matches := expected.None? || (e.Key() in view.rows && view.rows[e.Key()].Version() == expected);
      if !matches {
        var error := Missed(e.Key());
        return Failure(error);
      }
      WrittenWellFormed(view, e, expected);
      hide WellFormed, Written;
      Stage(Written(view, e, expected));
      Commit();
      return Success(e);
    }

    /** A compare-and-swap miss: discard the transaction, re-read the mark and the current row. */
    method Missed(k: RowKey) returns (error: PutError)
      requires Valid()
      modifies this, file`writer
      ensures Valid() && txn.None? && counter == file.db.hwm.value
      ensures error == MissOf(file.db, k)
    {
      Rollback();
      counter := file.db.hwm.value;
      var current := Get(k.kind, k.id);
      match current
      case None => return RowGone;
      case Some(e) => return CasMiss(e);
    }

    /** All or nothing, whatever has been committed since the row was read: a put of staged work
        is the transaction the protocol's steps take, and leaves the counter where they say. */
    method PutStaged(e: Entity, expected: Option<string>, ghost st: Staged) returns (r: Result<Entity, PutError>)
      requires Valid() && st.entity == e && View() == WithLedgers(file.db, st)
      modifies this, file
      ensures Valid() && txn.None?
      ensures file.db == Transact(hash, old(file.db), st, expected)
      ensures counter == CounterAfterPut(old(file.db), old(counter), e, expected)
      ensures r == PutReply(hash, old(file.db), e, expected)
    {
      hide WellFormed, Stamped;
      r := Put(e, expected);
    }

    // ---- The whole-blob seam ---------------------------------------------------------------

    /** Write an envelope back verbatim and move the counter and the mark forward, never back. */
    method Load(blobs: seq<Entity>)
      requires Valid() && txn.None? && counter <= file.db.hwm.value
      modifies this, file
      ensures Valid() && txn.None?
      ensures file.db == Loaded(old(file.db), old(counter), blobs)
      ensures counter == LoadedSeq(old(counter), blobs)
      // The same, of prefixes and the mark alone: both move forward to the largest prefix, or stay.
      ensures counter >= old(counter) && forall i | 0 <= i < |blobs| :: SeqPrefix(blobs[i].Version()) <= counter
      ensures counter == old(counter) || exists i :: 0 <= i < |blobs| && SeqPrefix(blobs[i].Version()) == counter
      ensures file.db.hwm == Some(if counter > old(file.db).hwm.value then counter else old(file.db).hwm.value)
    {
      LoadedSeqIs(counter, blobs);
      hide LoadRows, MaxSeqOf;
      assert counter <= SEQ_MAX;
      LoadBlobs(blobs);
      var m := MaxEntitySeq(blobs);
      if m > counter {
        counter := m;
      }
      var view := View();
      MovedMarkWellFormed(view, counter);
      hide WellFormed;
      if counter > view.hwm.value {
        Stage(view.(hwm := Some(counter)));
      }
      Commit();
    }

    /** INSERT OR REPLACE every blob, in envelope order. */
    method LoadBlobs(blobs: seq<Entity>)
      requires Valid()
      modifies this`txn, file`writer
      ensures Valid() && View() == LoadRows(old(View()), blobs)
    {
      var db := View();
      hide WellFormed, Replaced;
      for i := 0 to |blobs|
        invariant txn == old(txn) && file.writer == old(file.writer)
        invariant db == LoadRows(old(View()), blobs[..i]) && WellFormed(db)
      {
        assert blobs[..i + 1][..i] == blobs[..i];
        ReplacedWellFormed(db, blobs[i]);
        db := Replaced(db, blobs[i]);
      }
      assert blobs[..|blobs|] == blobs;
      Stage(db);
    }
  }
}
