/** Many connections over one file. A guarded write reads its row outside any transaction and
    commits later, in one serialized transaction; this is every interleaving of those steps. */
module Protocol {
  import opened Wrappers
  import opened Entities
  import opened Tokens
  import opened Database
  import opened Governed
  import opened SerialRuns

  type ClientId = nat

  /** A guarded write between its read and its commit. `openEscalation` is what the archive gate
      saw, at whatever moment it looked. */
  datatype Pending = Pending(call: Call, clock: Clock, openEscalation: bool, read: Task, staged: Staged)

  /** `counter` is the connection's in-memory copy of the seq. */
  datatype Client = Client(counter: nat, pending: Option<Pending>)

  datatype System = System(db: Db, clients: map<ClientId, Client>)

  datatype Action =
    | Open(c: ClientId)
    | Guard(c: ClientId, call: Call, clock: Clock, openEscalation: bool)
    | Commit(c: ClientId)
    | Put(c: ClientId, entity: Entity)
    | Load(c: ClientId, blobs: seq<Entity>)

  predicate Idle(s: System, c: ClientId) {
    c in s.clients && s.clients[c].pending.None?
  }

  predicate Waiting(s: System, c: ClientId) {
    c in s.clients && s.clients[c].pending.Some?
  }

  function PendingOf(s: System, c: ClientId): Pending
    requires Waiting(s, c)
  {
    s.clients[c].pending.value
  }

  predicate Commits(s: System, c: ClientId) {
    Waiting(s, c) && PutSucceeds(s.db, PendingOf(s, c).staged.entity, PendingOf(s, c).call.CasToken())
  }

  ghost function Step(world: World, s: System, a: Action): System {
    match a
    case Open(c) =>
      if WellFormed(s.db) then
        var db' := Opened(s.db);
        System(db', s.clients[c := Client(db'.hwm.value, None)])
      else s
    case Guard(c, call, clock, openEscalation) =>
      if !Idle(s, c) then s
      else
        (match Prepare(world, s.db, call, clock, openEscalation)
         case Failure(_) => s
         case Success((t, st)) =>
           s.(clients := s.clients[c := s.clients[c].(pending := Some(Pending(call, clock, openEscalation, t, st)))]))
    case Commit(c) =>
      if !Waiting(s, c) then s
      else
        var p := PendingOf(s, c);
        var counter := CounterAfterPut(s.db, s.clients[c].counter, p.staged.entity, p.call.CasToken());
        System(Transact(world.hash, s.db, p.staged, p.call.CasToken()), s.clients[c := Client(counter, None)])
    case Put(c, e) =>
      if !Idle(s, c) then s
      else
        var counter := CounterAfterPut(s.db, s.clients[c].counter, e, None);
        System(Transact(world.hash, s.db, Alone(e), None), s.clients[c := Client(counter, None)])
    case Load(c, blobs) =>
      if !Idle(s, c) then s
      else
        var counter := s.clients[c].counter;
        System(Loaded(s.db, counter, blobs), s.clients[c := Client(LoadedSeq(counter, blobs), None)])
  }

  ghost function Run(world: World, s: System, actions: seq<Action>): System {
    if actions == [] then s else Step(world, Run(world, s, actions[..|actions| - 1]), actions[|actions| - 1])
  }

  // ---- What every step keeps --------------------------------------------------------------

  /** Every stored prefix is at most the persisted high-water mark. */
  ghost predicate Bounded(db: Db) {
    db.hwm.Some? ==> forall k | k in db.rows :: SeqPrefix(db.rows[k].Version()) <= db.hwm.value
  }

  ghost predicate Sound(s: System) {
    && WellFormed(s.db) && Bounded(s.db)
    && (s.clients != map[] ==> s.db.hwm.Some?)
    && (forall c | c in s.clients :: s.clients[c].counter <= s.db.hwm.value)
  }

  /** A pending write was prepared from the row it read. */
  ghost predicate Prepared(world: World, p: Pending) {
    && EarlyCheck(world, p.call).None?
    && p.read.id == p.call.taskId && p.read.deletedAt.None?
    && (p.call.CasToken().Some? ==> p.read.version == p.call.CasToken())
    && p.staged.entity.TaskRow?
    && TaskAfter(world, p.clock, p.openEscalation, p.read, p.call.op) == Success(p.staged.entity.task)
    && p.staged == StagedFor(p.clock, p.read, p.staged.entity.task, p.call.op)
  }

  /** While the stored token is still the one that was read, so is the whole row. */
  ghost predicate Undisturbed(db: Db, p: Pending) {
    p.call.CasToken().Some? ==>
      && db.hwm.Some? && SeqPrefix(p.read.version) <= db.hwm.value
      && (p.call.Key() in db.rows && db.rows[p.call.Key()].Version() == p.read.version ==> db.rows[p.call.Key()] == TaskRow(p.read))
  }

  ghost predicate Inv(world: World, s: System) {
    && Sound(s)
    && forall c | Waiting(s, c) :: Prepared(world, PendingOf(s, c)) && Undisturbed(s.db, PendingOf(s, c))
  }

  lemma OpenedIsBounded(db: Db)
    requires WellFormed(db) && Bounded(db)
    ensures WellFormed(Opened(db)) && Bounded(Opened(db)) && Opened(db).rows == db.rows
  {
    if db.hwm.None? {
      forall k | k in db.rows ensures SeqPrefix(db.rows[k].Version()) <= MaxSeqOf(DumpBlobs(db)) {
        DumpIsTheTables(db, db.rows[k]);
      }
    }
  }

  lemma TransactIsBounded(hash: Hash, db: Db, st: Staged, token: Option<string>)
    requires WellFormed(db) && Bounded(db)
    ensures var db' := Transact(hash, db, st, token);
            WellFormed(db') && Bounded(db') && (db.hwm.Some? ==> db'.hwm.Some? && db.hwm.value <= db'.hwm.value)
  {
    TransactWellFormed(hash, db, st, token);
    if PutSucceeds(db, st.entity, token) {
      TransactRows(hash, db, st, token);
    }
  }

  lemma LoadedIsBounded(db: Db, counter: nat, blobs: seq<Entity>)
    requires WellFormed(db) && Bounded(db) && db.hwm.Some? && counter <= db.hwm.value
    ensures var db' := Loaded(db, counter, blobs);
            && WellFormed(db') && Bounded(db') && db'.hwm.Some?
            && db.hwm.value <= db'.hwm.value && LoadedSeq(counter, blobs) <= db'.hwm.value
  {
    LoadRowsContents(db, blobs);
  }

  /** The mark bounds every stored prefix and never decreases, whatever the step - loads and
      forced writes included. */
  lemma SoundStep(world: World, s: System, a: Action)
    requires Sound(s)
    ensures Sound(Step(world, s, a))
    ensures s.db.hwm.Some? ==> Step(world, s, a).db.hwm.Some? && s.db.hwm.value <= Step(world, s, a).db.hwm.value
  {
    match a
    case Open(c) => OpenedIsBounded(s.db);
    case Guard(c, call, clock, openEscalation) =>
    case Commit(c) =>
      if Waiting(s, c) {
        TransactIsBounded(world.hash, s.db, PendingOf(s, c).staged, PendingOf(s, c).call.CasToken());
      }
    case Put(c, e) => TransactIsBounded(world.hash, s.db, Alone(e), None);
    case Load(c, blobs) =>
      if Idle(s, c) {
        LoadedIsBounded(s.db, s.clients[c].counter, blobs);
      }
  }

  lemma UndisturbedByTransact(hash: Hash, db: Db, st: Staged, token: Option<string>, p: Pending)
    requires Bounded(db) && Undisturbed(db, p)
    ensures Undisturbed(Transact(hash, db, st, token), p)
  {
    if PutSucceeds(db, st.entity, token) {
      TransactRows(hash, db, st, token);
    }
  }

  lemma GuardPrepares(world: World, db: Db, call: Call, clock: Clock, openEscalation: bool)
    requires WellFormed(db) && Bounded(db) && db.hwm.Some?
    ensures var r := Prepare(world, db, call, clock, openEscalation);
            r.Success? ==>
              var p := Pending(call, clock, openEscalation, r.value.0, r.value.1);
              Prepared(world, p) && Undisturbed(db, p)
  {
    TaskAtIsTheRow(db, call.taskId);
  }

  lemma InvAfterTransact(world: World, s: System, c: ClientId, st: Staged, token: Option<string>, counter: nat)
    requires Inv(world, s)
    ensures var s' := System(Transact(world.hash, s.db, st, token), s.clients[c := Client(counter, None)]);
            Sound(s') ==> Inv(world, s')
  {
    var s' := System(Transact(world.hash, s.db, st, token), s.clients[c := Client(counter, None)]);
    forall d | Waiting(s', d) ensures Prepared(world, PendingOf(s', d)) && Undisturbed(s'.db, PendingOf(s', d)) {
      assert Waiting(s, d) && PendingOf(s', d) == PendingOf(s, d);
      UndisturbedByTransact(world.hash, s.db, st, token, PendingOf(s, d));
    }
  }

  lemma InvAfterGuard(world: World, s: System, c: ClientId, call: Call, clock: Clock, openEscalation: bool)
    requires Inv(world, s) && Idle(s, c)
    ensures Inv(world, Step(world, s, Guard(c, call, clock, openEscalation)))
  {
    var s' := Step(world, s, Guard(c, call, clock, openEscalation));
    SoundStep(world, s, Guard(c, call, clock, openEscalation));
    GuardPrepares(world, s.db, call, clock, openEscalation);
    forall d | Waiting(s', d) ensures Prepared(world, PendingOf(s', d)) && Undisturbed(s'.db, PendingOf(s', d)) {
      assert d != c ==> Waiting(s, d) && PendingOf(s', d) == PendingOf(s, d);
    }
  }

  lemma InvAfterOpen(world: World, s: System, c: ClientId)
    requires Inv(world, s)
    ensures Inv(world, Step(world, s, Open(c)))
  {
    var s' := Step(world, s, Open(c));
    SoundStep(world, s, Open(c));
    forall d | Waiting(s', d) ensures Prepared(world, PendingOf(s', d)) && Undisturbed(s'.db, PendingOf(s', d)) {
      assert Waiting(s, d) && PendingOf(s', d) == PendingOf(s, d);
    }
  }

  /** The invariant that makes the compare-and-swap meaningful: only a load can break it. */
  lemma InvStep(world: World, s: System, a: Action)
    requires Inv(world, s) && !a.Load?
    ensures Inv(world, Step(world, s, a))
  {
    SoundStep(world, s, a);
    match a
    case Open(c) => InvAfterOpen(world, s, c);
    case Guard(c, call, clock, openEscalation) =>
      if Idle(s, c) {
        InvAfterGuard(world, s, c, call, clock, openEscalation);
      }
    case Commit(c) =>
      if Waiting(s, c) {
        var p := PendingOf(s, c);
        var counter := CounterAfterPut(s.db, s.clients[c].counter, p.staged.entity, p.call.CasToken());
        InvAfterTransact(world, s, c, p.staged, p.call.CasToken(), counter);
      }
    case Put(c, e) =>
      if Idle(s, c) {
        InvAfterTransact(world, s, c, Alone(e), None, CounterAfterPut(s.db, s.clients[c].counter, e, None));
      }
  }

  ghost predicate LoadFree(actions: seq<Action>) {
    forall i | 0 <= i < |actions| :: !actions[i].Load?
  }

  lemma {:induction false} InvRun(world: World, s: System, actions: seq<Action>)
    requires Inv(world, s) && LoadFree(actions)
    ensures Inv(world, Run(world, s, actions))
  {
    if actions != [] {
      InvRun(world, s, actions[..|actions| - 1]);
      InvStep(world, Run(world, s, actions[..|actions| - 1]), actions[|actions| - 1]);
    }
  }

  /** A file nobody has open yet. */
  ghost predicate Initial(s: System) {
    WellFormed(s.db) && Bounded(s.db) && s.clients == map[]
  }

  lemma InitialInv(world: World, s: System)
    requires Initial(s)
    ensures Inv(world, s)
  {
  }

  lemma PreparedKey(world: World, p: Pending)
    requires Prepared(world, p)
    ensures p.staged.entity.Key() == p.call.Key()
  {
    TaskAfterKeepsIdentity(world, p.clock, p.openEscalation, p.read, p.call.op);
  }

  lemma ReadIsCurrent(world: World, db: Db, p: Pending)
    requires Prepared(world, p) && Undisturbed(db, p) && p.call.CasToken().Some?
    requires CasHolds(db, p.staged.entity.Key(), p.call.CasToken())
    ensures TaskAt(db, p.call.taskId) == Some(p.read)
  {
    PreparedKey(world, p);
    hide TaskAfter, StagedFor;
  }

  /** No lost update: in any interleaving of any number of connections, forced and creating
      writes mixed in, a tokened write that commits replaces exactly the row it read - and
      nothing else. */
  lemma NoLostUpdate(world: World, s: System, actions: seq<Action>, c: ClientId)
    requires Initial(s) && LoadFree(actions)
    requires var now := Run(world, s, actions); Commits(now, c) && PendingOf(now, c).call.CasToken().Some?
    ensures var now := Run(world, s, actions);
            var p := PendingOf(now, c);
            var next := Step(world, now, Commit(c));
            && TaskAt(now.db, p.call.taskId) == Some(p.read) && p.read.version == p.call.expected
            && next.db.rows == now.db.rows[p.call.Key() := Stamped(world.hash, now.db.hwm.value + 1, p.staged.entity)]
  {
    hide *;
    InitialInv(world, s);
    InvRun(world, s, actions);
    CommittedRow(world, Run(world, s, actions), c);
  }

  lemma CommittedRow(world: World, s: System, c: ClientId)
    requires Inv(world, s) && Commits(s, c)
    ensures var p := PendingOf(s, c);
            && (p.call.CasToken().Some? ==> TaskAt(s.db, p.call.taskId) == Some(p.read) && p.read.version == p.call.expected)
            && Step(world, s, Commit(c)).db.rows == s.db.rows[p.call.Key() := Stamped(world.hash, s.db.hwm.value + 1, p.staged.entity)]
  {
    hide Prepared, Undisturbed;
    var p := PendingOf(s, c);
    assert Prepared(world, p) && Undisturbed(s.db, p);
    PreparedKey(world, p);
    if p.call.CasToken().Some? {
      ReadIsCurrent(world, s.db, p);
    }
    TransactRows(world.hash, s.db, p.staged, p.call.CasToken());
  }
}
