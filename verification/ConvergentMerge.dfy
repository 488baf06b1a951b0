/** The convergent merge behind the Drive sync: union of two collections by id, in which a rival of
    the kept entry moves to a slot named after its own content. */
module ConvergentMerge {
  import opened Wrappers
  import opened Strings

  /** Where a conflict copy came from. */
  datatype Origin = Origin(of: string, sourceVersion: Option<string>)

  /** An entry up to its canonical text; `content` is the canonical text of its other keys. */
  datatype Entry = Entry(
    id: string,
    version: Option<string>,
    deletedAt: Option<string>,
    origin: Option<Origin>,
    content: string)

  /** The canonical serialization and the short hash of it that names a conflict slot. The hash may
      collide. */
  datatype Coding = Coding(canon: Entry -> string, shortHash: string -> string)

  /** A collection by id. */
  type Slots = m: map<string, Entry> | forall i | i in m :: m[i].id == i

  /** Equal text means equal entries. */
  ghost predicate Faithful(w: Coding) {
    forall x, y | w.canon(x) == w.canon(y) :: x == y
  }

  // ---- The merge ---------------------------------------------------------------------------------

  predicate Dead(e: Entry) {
    e.deletedAt.Some?
  }

  function LesserCanon(w: Coding, x: Entry, y: Entry): Entry {
    if Less(w.canon(y), w.canon(x)) then y else x
  }

  function SlotId(w: Coding, e: Entry): string {
    e.id + ".conflict." + w.shortHash(w.canon(e))
  }

  function ConflictCopy(w: Coding, e: Entry): Entry {
    e.(id := SlotId(w, e), origin := Some(Origin(e.id, e.version)))
  }

  datatype Resolution = Resolution(keep: Entry, displaced: Option<Entry>)

  function Combine(w: Coding, x: Entry, y: Entry): (r: Resolution)
    requires x.id == y.id
    ensures r.keep.id == x.id && (r.displaced.Some? ==> |r.displaced.value.id| > |x.id|)
  {
    if Dead(x) && Dead(y) then Resolution(LesserCanon(w, x, y), None)
    else if Dead(x) || Dead(y) then
      var tomb, live := if Dead(x) then x else y, if Dead(x) then y else x;
      Resolution(tomb, if live.version != tomb.version then Some(ConflictCopy(w, live)) else None)
    else if x.version == y.version then Resolution(LesserCanon(w, x, y), None)
    else
      var winner := LesserCanon(w, x, y);
      Resolution(winner, Some(ConflictCopy(w, if winner == x then y else x)))
  }

  ghost function KeysFrom(m: Slots, n: nat): set<string> {
    set k | k in m && |k| >= n
  }

  /** Insert an entry, re-homing whatever it displaces; slots grow, so this ends. */
  function AddCard(w: Coding, m: Slots, e: Entry): Slots
    decreases |KeysFrom(m, |e.id|)|
  {
    if e.id !in m then m[e.id := e]
    else
      var r := Combine(w, m[e.id], e);
      match r.displaced
      case None => m[e.id := r.keep]
      case Some(copy) =>
        KeysShrink(m, e.id, r.keep, copy.id);
        AddCard(w, m[e.id := r.keep], copy)
  }

  lemma KeysShrink(m: Slots, i: string, keep: Entry, longer: string)
    requires i in m && |longer| > |i| && keep.id == i
    ensures |KeysFrom(m[i := keep], |longer|)| < |KeysFrom(m, |i|)|
  {
    assert i in KeysFrom(m, |i|) && i !in KeysFrom(m[i := keep], |longer|);
    SubsetIsSmaller(KeysFrom(m[i := keep], |longer|), KeysFrom(m, |i|));
  }

  lemma SubsetIsSmaller(a: set<string>, b: set<string>)
    requires a < b
    ensures |a| < |b|
  {
    var x :| x in b && x !in a;
    assert a <= b - {x};
    SubsetIsNoLarger(a, b - {x});
  }

  lemma {:induction false} SubsetIsNoLarger(a: set<string>, b: set<string>)
    requires a <= b
    ensures |a| <= |b|
  {
    if a != {} {
      var x :| x in a;
      SubsetIsNoLarger(a - {x}, b - {x});
    }
  }

  function AddAll(w: Coding, m: Slots, es: seq<Entry>): Slots {
    if es == [] then m else AddCard(w, AddAll(w, m, es[..|es| - 1]), es[|es| - 1])
  }

  /** Load one side, then the other. */
  method MergeCollection(w: Coding, a: seq<Entry>, b: seq<Entry>) returns (m: Slots)
    ensures m == AddAll(w, map[], a + b)
  {
    hide AddCard;
    m := map[];
    for i := 0 to |a|
      invariant m == AddAll(w, map[], a[..i])
    {
      assert a[..i + 1][..i] == a[..i];
      m := AddCard(w, m, a[i]);
    }
    assert a[..|a|] == a;
    ghost var loaded := m;
    for i := 0 to |b|
      invariant m == AddAll(w, loaded, b[..i])
    {
      assert b[..i + 1][..i] == b[..i];
      m := AddCard(w, m, b[i]);
    }
    assert b[..|b|] == b;
    AddAllConcat(w, map[], a, b);
  }

  // ---- Who keeps a slot ----------------------------------------------------------------------------

  /** Tombstones first, then the canonically lesser. */
  predicate Beats(w: Coding, k: Entry, e: Entry) {
    (Dead(k) && !Dead(e)) || (Dead(k) == Dead(e) && Less(w.canon(k), w.canon(e)))
  }

  /** `p` takes the slot and `q` leaves nothing behind: the same version, or its plain deletion. */
  predicate Absorbs(w: Coding, p: Entry, q: Entry) {
    p.id == q.id && Beats(w, p, q) && !Dead(q) && p.version == q.version
  }

  /** `r` takes the slot and `q` is preserved as a conflict copy. */
  predicate Displaces(w: Coding, r: Entry, q: Entry) {
    r.id == q.id && Beats(w, r, q) && !Dead(q) && r.version != q.version
  }

  lemma BeatsTotal(w: Coding, x: Entry, y: Entry)
    requires Faithful(w)
    ensures Beats(w, x, y) || x == y || Beats(w, y, x)
  {
    LessTotal(w.canon(x), w.canon(y));
  }

  lemma BeatsTransitive(w: Coding, x: Entry, y: Entry, z: Entry)
    requires Beats(w, x, y) && Beats(w, y, z)
    ensures Beats(w, x, z)
  {
    if Less(w.canon(x), w.canon(y)) && Less(w.canon(y), w.canon(z)) {
      LessTransitive(w.canon(x), w.canon(y), w.canon(z));
    }
  }

  lemma BeatsIrreflexive(w: Coding, x: Entry)
    ensures !Beats(w, x, x)
  {
    LessIrreflexive(w.canon(x));
  }

  lemma BeatsAsymmetric(w: Coding, x: Entry, y: Entry)
    requires Beats(w, x, y)
    ensures !Beats(w, y, x)
  {
    if Beats(w, y, x) {
      BeatsTransitive(w, x, y, x);
      BeatsIrreflexive(w, x);
    }
  }

  /** The branches of the resolution in one sentence: the better entry stays, and the other one is
      re-homed exactly when it is displaced. */
  lemma CombineKeepsTheBetter(w: Coding, x: Entry, y: Entry)
    requires Faithful(w) && x.id == y.id
    ensures Beats(w, x, y) ==> Combine(w, x, y) == Resolution(x, if Displaces(w, x, y) then Some(ConflictCopy(w, y)) else None)
    ensures Beats(w, y, x) ==> Combine(w, x, y) == Resolution(y, if Displaces(w, y, x) then Some(ConflictCopy(w, x)) else None)
    ensures x == y ==> Combine(w, x, y) == Resolution(x, None)
  {
    LessIrreflexive(w.canon(x));
    if Beats(w, x, y) {
      BeatsAsymmetric(w, x, y);
    }
    if Less(w.canon(x), w.canon(y)) {
      LessAsymmetric(w.canon(x), w.canon(y));
    }
    if Less(w.canon(y), w.canon(x)) {
      LessAsymmetric(w.canon(y), w.canon(x));
    }
    hide Less, ConflictCopy;
  }

  // ---- Everything that ever arrives somewhere --------------------------------------------------------

  ghost predicate Closed(w: Coding, xs: iset<Entry>) {
    forall q, r | q in xs && r in xs && Displaces(w, r, q) :: ConflictCopy(w, q) in xs
  }

  ghost predicate Covers(xs: iset<Entry>, es: set<Entry>) {
    forall e | e in es :: e in xs
  }

  ghost predicate InEveryClosed(w: Coding, es: set<Entry>, e: Entry) {
    forall xs: iset<Entry> | Covers(xs, es) && Closed(w, xs) :: e in xs
  }

  /** The entries put in, and the copies of everything displaced on the way. */
  ghost function Arrivals(w: Coding, es: set<Entry>): iset<Entry> {
    iset e: Entry | InEveryClosed(w, es, e)
  }

  lemma ArrivalsAreClosed(w: Coding, es: set<Entry>)
    ensures Closed(w, Arrivals(w, es)) && Covers(Arrivals(w, es), es)
  {
    var arrivals := Arrivals(w, es);
    forall q, r | q in arrivals && r in arrivals && Displaces(w, r, q) ensures ConflictCopy(w, q) in arrivals {
      assert InEveryClosed(w, es, q) && InEveryClosed(w, es, r);
      forall xs: iset<Entry> | Covers(xs, es) && Closed(w, xs) ensures ConflictCopy(w, q) in xs {
        assert q in xs && r in xs;
      }
    }
  }

  lemma ArrivalsAreLeast(w: Coding, es: set<Entry>, xs: iset<Entry>)
    requires Covers(xs, es) && Closed(w, xs)
    ensures Arrivals(w, es) <= xs
  {
    forall e | e in Arrivals(w, es) ensures e in xs {
      assert InEveryClosed(w, es, e);
    }
  }

  lemma ArrivalsGrow(w: Coding, es: set<Entry>, more: set<Entry>)
    requires es <= more
    ensures Arrivals(w, es) <= Arrivals(w, more)
  {
    ArrivalsAreClosed(w, more);
    ArrivalsAreLeast(w, es, Arrivals(w, more));
  }

  /** Nobody is absorbed by one rival and displaced by another. */
  ghost predicate Uncontested(w: Coding, xs: iset<Entry>) {
    forall p, q, r | p in xs && q in xs && r in xs && Absorbs(w, p, q) :: !Displaces(w, r, q)
  }

  /** Each slot that anything arrived at holds the best of what arrived. */
  ghost predicate HoldsBest(w: Coding, xs: iset<Entry>, m: Slots) {
    && (forall e | e in xs :: e.id in m && (m[e.id] == e || Beats(w, m[e.id], e)))
    && (forall i | i in m :: m[i] in xs && m[i].id == i)
  }

  lemma BestIsUnique(w: Coding, xs: iset<Entry>, m: Slots, n: Slots)
    requires HoldsBest(w, xs, m) && HoldsBest(w, xs, n)
    ensures m == n
  {
    forall i ensures i in m <==> i in n {
      assert i in m ==> m[i] in xs;
      assert i in n ==> n[i] in xs;
    }
    forall i | i in m ensures m[i] == n[i] {
      if m[i] != n[i] {
        BeatsAsymmetric(w, m[i], n[i]);
      }
    }
  }

  /** Closed but for the copy that is still on its way. */
  ghost predicate ClosedBut(w: Coding, xs: iset<Entry>, pending: Entry) {
    forall q, r | q in xs && r in xs && Displaces(w, r, q) :: ConflictCopy(w, q) in xs || ConflictCopy(w, q) == pending
  }

  lemma SwapKeepsBest(w: Coding, xs: iset<Entry>, m: Slots, e: Entry, keep: Entry)
    requires HoldsBest(w, xs, m) && keep.id == e.id && (keep == e || Beats(w, keep, e))
    requires e.id in m ==> keep == m[e.id] || Beats(w, keep, m[e.id])
    requires keep == e || (e.id in m && keep == m[e.id])
    ensures HoldsBest(w, xs + iset{e}, m[e.id := keep])
  {
    forall x | x in xs && x.id == e.id ensures x == keep || Beats(w, keep, x) {
      if m[e.id] != x && keep != m[e.id] {
        BeatsTransitive(w, keep, m[e.id], x);
      }
    }
    hide Beats;
  }

  lemma NewcomerLoses(w: Coding, xs: iset<Entry>, ys: iset<Entry>, m: Slots, e: Entry)
    requires Faithful(w) && HoldsBest(w, xs, m) && Uncontested(w, ys) && xs <= ys && e in ys
    requires e.id in m && Beats(w, m[e.id], e) && ClosedBut(w, xs, e)
    ensures Displaces(w, m[e.id], e) ==> ClosedBut(w, xs + iset{e}, ConflictCopy(w, e))
    ensures !Displaces(w, m[e.id], e) ==> Closed(w, xs + iset{e})
  {
    hide Less;
    var kept := m[e.id];
    BeatsIrreflexive(w, e);
    forall q, r | q in xs + iset{e} && r in xs + iset{e} && Displaces(w, r, q)
      ensures ConflictCopy(w, q) in xs + iset{e} || (Displaces(w, kept, e) && q == e)
    {
      if q == e {
        assert kept in ys && (Absorbs(w, kept, e) || Displaces(w, kept, e));
      } else if r == e {
        BeatsTransitive(w, kept, e, q);
        assert kept in ys && (Absorbs(w, kept, q) || Displaces(w, kept, q));
      }
    }
  }

  lemma NewcomerWins(w: Coding, xs: iset<Entry>, ys: iset<Entry>, m: Slots, e: Entry)
    requires Faithful(w) && HoldsBest(w, xs, m) && Uncontested(w, ys) && xs <= ys && e in ys
    requires e.id in m && Beats(w, e, m[e.id]) && ClosedBut(w, xs, e)
    ensures Displaces(w, e, m[e.id]) ==> ClosedBut(w, xs + iset{e}, ConflictCopy(w, m[e.id]))
    ensures !Displaces(w, e, m[e.id]) ==> Closed(w, xs + iset{e})
  {
    hide Less;
    var kept := m[e.id];
    BeatsIrreflexive(w, e);
    forall q, r | q in xs + iset{e} && r in xs + iset{e} && Displaces(w, r, q)
      ensures ConflictCopy(w, q) in xs + iset{e} || (Displaces(w, e, kept) && q == kept)
    {
      if q == e {
        assert r in xs && (r == kept || Beats(w, kept, r));
        if r != kept {
          BeatsTransitive(w, e, kept, r);
        }
        BeatsAsymmetric(w, r, e);
      } else if r == e && q != kept {
        assert kept in ys && (Absorbs(w, kept, q) || Displaces(w, kept, q));
      }
    }
  }

  /** One insertion, seen from a set of arrivals that still waits for `e`. */
  lemma {:induction false} AddCardHoldsBest(w: Coding, xs: iset<Entry>, ys: iset<Entry>, m: Slots, e: Entry) returns (zs: iset<Entry>)
    requires Faithful(w) && HoldsBest(w, xs, m) && Uncontested(w, ys) && Closed(w, ys) && xs <= ys && e in ys
    requires ClosedBut(w, xs, e)
    ensures xs + iset{e} <= zs <= ys && Closed(w, zs) && HoldsBest(w, zs, AddCard(w, m, e))
    decreases |KeysFrom(m, |e.id|)|
  {
    zs := xs + iset{e};
    if e.id !in m {
      SwapKeepsBest(w, xs, m, e, e);
      AloneIsClosed(w, xs, m, e);
    } else {
      var kept := m[e.id];
      CombineKeepsTheBetter(w, kept, e);
      BeatsTotal(w, kept, e);
      var keep, loser := if Beats(w, kept, e) then kept else e, if Beats(w, kept, e) then e else kept;
      SwapKeepsBest(w, xs, m, e, keep);
      if kept == e {
        assert xs + iset{e} == xs;
      } else if Beats(w, kept, e) {
        NewcomerLoses(w, xs, ys, m, e);
      } else {
        NewcomerWins(w, xs, ys, m, e);
      }
      if kept != e && Displaces(w, keep, loser) {
        var copy := ConflictCopy(w, loser);
        KeysShrink(m, e.id, keep, copy.id);
        zs := AddCardHoldsBest(w, zs, ys, m[e.id := keep], copy);
      }
    }
  }

  lemma AloneIsClosed(w: Coding, xs: iset<Entry>, m: Slots, e: Entry)
    requires HoldsBest(w, xs, m) && e.id !in m && ClosedBut(w, xs, e)
    ensures Closed(w, xs + iset{e})
  {
    BeatsIrreflexive(w, e);
    hide Beats;
  }

  ghost function Members(es: seq<Entry>): set<Entry> {
    set e | e in es
  }

  lemma UncontestedShrinks(w: Coding, xs: iset<Entry>, ys: iset<Entry>)
    requires xs <= ys && Uncontested(w, ys)
    ensures Uncontested(w, xs)
  {
  }

  /** The closed form of a merge: every slot holds the best of everything that arrives there. */
  lemma {:induction false} MergeHoldsBest(w: Coding, es: seq<Entry>)
    requires Faithful(w) && Uncontested(w, Arrivals(w, Members(es)))
    ensures HoldsBest(w, Arrivals(w, Members(es)), AddAll(w, map[], es))
  {
    if es == [] {
      ArrivalsAreLeast(w, {}, iset{});
    } else {
      var front, last := es[..|es| - 1], es[|es| - 1];
      assert Members(es) == Members(front) + {last};
      ArrivalsGrow(w, Members(front), Members(es));
      UncontestedShrinks(w, Arrivals(w, Members(front)), Arrivals(w, Members(es)));
      MergeHoldsBest(w, front);
      AddOneMore(w, Members(front), last, AddAll(w, map[], front));
    }
  }

  lemma AddOneMore(w: Coding, es: set<Entry>, e: Entry, m: Slots)
    requires Faithful(w) && HoldsBest(w, Arrivals(w, es), m) && Uncontested(w, Arrivals(w, es + {e}))
    ensures HoldsBest(w, Arrivals(w, es + {e}), AddCard(w, m, e))
  {
    var xs, ys := Arrivals(w, es), Arrivals(w, es + {e});
    ArrivalsAreClosed(w, es);
    ArrivalsAreClosed(w, es + {e});
    ArrivalsGrow(w, es, es + {e});
    hide Arrivals, HoldsBest, Uncontested, AddCard;
    var zs := AddCardHoldsBest(w, xs, ys, m, e);
    assert Covers(zs, es + {e});
    ArrivalsAreLeast(w, es + {e}, zs);
    assert zs == ys;
  }

  // ---- The laws --------------------------------------------------------------------------------------

  /** `es` lists the entries of `m`, in any order. */
  ghost predicate Lists(es: seq<Entry>, m: Slots) {
    && (forall e | e in es :: e.id in m && m[e.id] == e)
    && (forall i | i in m :: m[i] in es && m[i].id == i)
  }

  /** A merge depends on the set of entries only: not on their order, nor on repetitions. */
  lemma {:induction false} MergeDependsOnContents(w: Coding, es: seq<Entry>, fs: seq<Entry>)
    requires Faithful(w) && Members(es) == Members(fs) && Uncontested(w, Arrivals(w, Members(es)))
    ensures AddAll(w, map[], es) == AddAll(w, map[], fs)
  {
    MergeHoldsBest(w, es);
    MergeHoldsBest(w, fs);
    BestIsUnique(w, Arrivals(w, Members(es)), AddAll(w, map[], es), AddAll(w, map[], fs));
  }

  lemma {:induction false} Commutative(w: Coding, a: seq<Entry>, b: seq<Entry>)
    requires Faithful(w) && Uncontested(w, Arrivals(w, Members(a + b)))
    ensures AddAll(w, map[], a + b) == AddAll(w, map[], b + a)
  {
    assert Members(a + b) == Members(b + a);
    MergeDependsOnContents(w, a + b, b + a);
  }

  /** With `ab` and `bc` the merged collections, listed in any order. */
  lemma Associative(w: Coding, a: seq<Entry>, b: seq<Entry>, c: seq<Entry>, ab: seq<Entry>, bc: seq<Entry>)
    requires Faithful(w) && Uncontested(w, Arrivals(w, Members(a + b + c)))
    requires Lists(ab, AddAll(w, map[], a + b)) && Lists(bc, AddAll(w, map[], b + c))
    ensures AddAll(w, map[], ab + c) == AddAll(w, map[], a + bc) == AddAll(w, map[], a + b + c)
  {
    assert Members(a + b + c) == Members(c + (a + b)) == Members(a + (b + c));
    MergeAbsorbsMerge(w, a, b + c, bc);
    MergeAbsorbsMerge(w, c, a + b, ab);
    MergeDependsOnContents(w, a + (b + c), a + b + c);
    MergeDependsOnContents(w, c + (a + b), a + b + c);
    assert Members(ab + c) == Members(c + ab);
    ListedArrive(w, c, a + b, ab);
    UncontestedShrinks(w, Arrivals(w, Members(c + ab)), Arrivals(w, Members(c + (a + b))));
    MergeDependsOnContents(w, ab + c, c + ab);
  }

  lemma ListedArrive(w: Coding, a: seq<Entry>, b: seq<Entry>, merged: seq<Entry>)
    requires Faithful(w) && Uncontested(w, Arrivals(w, Members(a + b))) && Lists(merged, AddAll(w, map[], b))
    ensures Arrivals(w, Members(a + merged)) <= Arrivals(w, Members(a + b))
    ensures HoldsBest(w, Arrivals(w, Members(b)), AddAll(w, map[], b))
    ensures Arrivals(w, Members(b)) <= Arrivals(w, Members(a + b))
  {
    assert Members(b) <= Members(a + b);
    ArrivalsGrow(w, Members(b), Members(a + b));
    UncontestedShrinks(w, Arrivals(w, Members(b)), Arrivals(w, Members(a + b)));
    MergeHoldsBest(w, b);
    ArrivalsAreClosed(w, Members(a + b));
    hide Arrivals, AddAll, Closed;
    assert Covers(Arrivals(w, Members(a + b)), Members(a + merged));
    ArrivalsAreLeast(w, Members(a + merged), Arrivals(w, Members(a + b)));
  }

  /** Merging with a merged collection is merging with what went into it. */
  lemma MergeAbsorbsMerge(w: Coding, a: seq<Entry>, b: seq<Entry>, merged: seq<Entry>)
    requires Faithful(w) && Uncontested(w, Arrivals(w, Members(a + b))) && Lists(merged, AddAll(w, map[], b))
    ensures AddAll(w, map[], a + merged) == AddAll(w, map[], a + b)
  {
    var xs, bs, ys := Arrivals(w, Members(a + merged)), Arrivals(w, Members(b)), Arrivals(w, Members(a + b));
    ListedArrive(w, a, b, merged);
    ArrivalsAreClosed(w, Members(a + merged));
    ArrivalsAreClosed(w, Members(b));
    UncontestedShrinks(w, xs, ys);
    MergeHoldsBest(w, a + merged);
    MergeHoldsBest(w, a + b);
    var m := AddAll(w, map[], b);
    hide Arrivals, AddAll;
    forall i | i in m ensures m[i] in xs {
      assert m[i] in Members(a + merged);
    }
    TogetherClosed(w, xs, bs, ys, m);
    assert Covers(xs + bs, Members(a + b));
    ArrivalsAreLeast(w, Members(a + b), xs + bs);
    BestOfBoth(w, xs, bs, ys, m, AddAll(w, map[], a + merged));
    BestIsUnique(w, ys, AddAll(w, map[], a + merged), AddAll(w, map[], a + b));
  }

  /** `bs` has been merged into `m`, whose entries are in `xs`; together the two are closed. */
  lemma TogetherClosed(w: Coding, xs: iset<Entry>, bs: iset<Entry>, ys: iset<Entry>, m: Slots)
    requires Closed(w, xs) && Closed(w, bs) && xs <= ys && bs <= ys && Uncontested(w, ys)
    requires HoldsBest(w, bs, m) && forall i | i in m :: m[i] in xs
    ensures Closed(w, xs + bs)
  {
    hide Less;
    forall q, r | q in xs + bs && r in xs + bs && Displaces(w, r, q) ensures ConflictCopy(w, q) in xs + bs {
      if q in bs && r !in bs {
        var kept := m[q.id];
        if kept != q {
          assert kept in ys && (Absorbs(w, kept, q) || Displaces(w, kept, q));
        }
      } else if q in xs && r !in xs {
        var kept := m[r.id];
        if kept != r {
          BeatsTransitive(w, kept, r, q);
          assert kept in ys && (Absorbs(w, kept, q) || Displaces(w, kept, q));
        }
      }
    }
  }

  lemma BestOfBoth(w: Coding, xs: iset<Entry>, bs: iset<Entry>, ys: iset<Entry>, m: Slots, n: Slots)
    requires HoldsBest(w, bs, m) && HoldsBest(w, xs, n) && xs <= ys <= xs + bs
    requires forall i | i in m :: m[i] in xs
    ensures HoldsBest(w, ys, n)
  {
    forall e | e in ys ensures e.id in n && (n[e.id] == e || Beats(w, n[e.id], e)) {
      if e !in xs {
        var kept := m[e.id];
        assert kept in xs && Beats(w, kept, e);
        if n[e.id] != kept {
          BeatsTransitive(w, n[e.id], kept, e);
        }
      }
    }
  }

  /** Merging a collection with itself, or a merge with one of its inputs again, changes nothing. */
  lemma {:induction false} Idempotent(w: Coding, a: seq<Entry>, b: seq<Entry>, ab: seq<Entry>)
    requires Faithful(w) && Uncontested(w, Arrivals(w, Members(a + b))) && Lists(ab, AddAll(w, map[], a + b))
    ensures AddAll(w, map[], ab + ab) == AddAll(w, map[], a + b)
    ensures AddAll(w, map[], a + ab) == AddAll(w, map[], a + b)
  {
    assert Members(a + (a + b)) == Members(a + b) && Members([] + (a + b)) == Members(a + b);
    MergeAbsorbsMerge(w, a, a + b, ab);
    MergeDependsOnContents(w, a + (a + b), a + b);
    MergeAbsorbsMerge(w, [], a + b, ab);
    MergeDependsOnContents(w, [] + (a + b), a + b);
    assert [] + ab == ab;
    ListedArrive(w, [], a + b, ab);
    UncontestedShrinks(w, Arrivals(w, Members([] + ab)), Arrivals(w, Members([] + (a + b))));
    assert Members(ab + ab) == Members(ab);
    MergeDependsOnContents(w, ab + ab, ab);
  }

  // ---- What a caller can check of the inputs -----------------------------------------------------------

  /** Different entries are re-homed to different slots. */
  ghost predicate SlotsApart(w: Coding, es: set<Entry>) {
    forall p, q | p in es && q in es && p != q :: SlotId(w, p) != SlotId(w, q)
  }

  /** Nor does any entry sit in the conflict slot of another. */
  ghost predicate SlotsFree(w: Coding, es: set<Entry>) {
    SlotsApart(w, es) && forall p, q | p in es && q in es :: p.id != SlotId(w, q)
  }

  ghost function Inputs(es: set<Entry>): iset<Entry> {
    iset e | e in es
  }

  ghost function WithCopies(w: Coding, es: set<Entry>): iset<Entry> {
    iset e: Entry | e in es || exists q :: q in es && e == ConflictCopy(w, q)
  }

  lemma SlotMates(w: Coding, es: set<Entry>, x: Entry, y: Entry)
    requires SlotsFree(w, es) && x in WithCopies(w, es) && y in WithCopies(w, es) && x.id == y.id
    ensures x == y || (x in es && y in es)
  {
    forall q: Entry ensures ConflictCopy(w, q).id == SlotId(w, q) {
    }
    hide SlotId, ConflictCopy;
    if x !in es {
      var p :| p in es && x == ConflictCopy(w, p);
      if y !in es {
        var q :| q in es && y == ConflictCopy(w, q);
      }
    }
  }

  lemma CopiesGoNoFurther(w: Coding, es: set<Entry>)
    requires SlotsFree(w, es)
    ensures Arrivals(w, es) <= WithCopies(w, es)
  {
    var all := WithCopies(w, es);
    forall q, r | q in all && r in all && Displaces(w, r, q) ensures ConflictCopy(w, q) in all {
      BeatsIrreflexive(w, q);
      SlotMates(w, es, q, r);
    }
    ArrivalsAreLeast(w, es, all);
  }

  /** With the conflict slots free, only the entries themselves can contest a place. */
  lemma UncontestedIffInputsAre(w: Coding, es: set<Entry>)
    requires SlotsFree(w, es)
    ensures Uncontested(w, Arrivals(w, es)) <==> Uncontested(w, Inputs(es))
  {
    ArrivalsAreClosed(w, es);
    assert Inputs(es) <= Arrivals(w, es);
    CopiesGoNoFurther(w, es);
    if Uncontested(w, Inputs(es)) {
      forall p, q, r | p in Arrivals(w, es) && q in Arrivals(w, es) && r in Arrivals(w, es) && Absorbs(w, p, q)
        ensures !Displaces(w, r, q)
      {
        BeatsIrreflexive(w, q);
        SlotMates(w, es, p, q);
        if r.id == q.id {
          SlotMates(w, es, r, q);
        }
      }
    }
  }

  /** When, besides, a version stands for one content among the entries of an id, nothing is
      contested: such collections merge in any order and grouping. */
  lemma VersionsTellContents(w: Coding, es: set<Entry>)
    requires SlotsFree(w, es)
    requires forall x, y | x in es && y in es && x.id == y.id && x.version == y.version :: x == y
    ensures Uncontested(w, Arrivals(w, es))
  {
    forall p, q | p in Inputs(es) && q in Inputs(es) ensures !Absorbs(w, p, q) {
      BeatsIrreflexive(w, q);
    }
    UncontestedIffInputsAre(w, es);
  }

  /** Two collections that name no id twice leave nothing to contest, whatever their versions. */
  lemma TwoSidesCommute(w: Coding, a: seq<Entry>, b: seq<Entry>)
    requires Faithful(w) && SlotsFree(w, Members(a + b)) && OnePerId(a) && OnePerId(b)
    ensures Uncontested(w, Arrivals(w, Members(a + b)))
    ensures AddAll(w, map[], a + b) == AddAll(w, map[], b + a)
  {
    var xs := Inputs(Members(a + b));
    forall p, q, r | p in xs && q in xs && r in xs && Absorbs(w, p, q) ensures !Displaces(w, r, q) {
      BeatsIrreflexive(w, q);
    }
    UncontestedIffInputsAre(w, Members(a + b));
    hide *;
    Commutative(w, a, b);
  }

  ghost predicate OnePerId(es: seq<Entry>) {
    forall e, f | e in es && f in es && e.id == f.id :: e == f
  }

  // ---- What holds of every merge, contested or not ---------------------------------------------------

  lemma ReaddingChangesNothing(w: Coding, m: Slots, e: Entry)
    requires Faithful(w) && e.id in m && m[e.id] == e
    ensures AddCard(w, m, e) == m
  {
    CombineKeepsTheBetter(w, e, e);
  }

  /** Loading a collection that names no id twice just stores it. */
  lemma {:induction false} LoadingStores(w: Coding, es: seq<Entry>)
    requires Faithful(w) && OnePerId(es)
    ensures Lists(es, AddAll(w, map[], es))
  {
    if es != [] {
      var front, last := es[..|es| - 1], es[|es| - 1];
      assert es == front + [last];
      LoadingStores(w, front);
      var m := AddAll(w, map[], front);
      if last.id in m {
        ReaddingChangesNothing(w, m, last);
      }
    }
  }

  lemma {:induction false} ReaddingAllChangesNothing(w: Coding, m: Slots, es: seq<Entry>)
    requires Faithful(w) && forall e | e in es :: e.id in m && m[e.id] == e
    ensures AddAll(w, m, es) == m
  {
    if es != [] {
      assert es == es[..|es| - 1] + [es[|es| - 1]];
      ReaddingAllChangesNothing(w, m, es[..|es| - 1]);
      ReaddingChangesNothing(w, m, es[|es| - 1]);
    }
  }

  lemma {:induction false} AddAllConcat(w: Coding, m: Slots, es: seq<Entry>, fs: seq<Entry>)
    ensures AddAll(w, m, es + fs) == AddAll(w, AddAll(w, m, es), fs)
  {
    if fs == [] {
      assert es + fs == es;
    } else {
      assert (es + fs)[..|es + fs| - 1] == es + fs[..|fs| - 1];
      AddAllConcat(w, m, es, fs[..|fs| - 1]);
    }
  }

  /** Merging a collection with itself is a no-op. */
  lemma SelfMerge(w: Coding, a: seq<Entry>)
    requires Faithful(w) && OnePerId(a)
    ensures Lists(a, AddAll(w, map[], a + a))
  {
    LoadingStores(w, a);
    AddAllConcat(w, map[], a, a);
    ReaddingAllChangesNothing(w, AddAll(w, map[], a), a);
  }

  /** The ids an entry of id `base` and its conflict copies, copies of copies included, go by. */
  predicate InLineage(i: string, base: string) {
    i == base || base + ".conflict." <= i
  }

  predicate LiveAt(e: Entry, v: Option<string>, base: string) {
    !Dead(e) && e.version == v && InLineage(e.id, base)
  }

  predicate TombAt(e: Entry, v: Option<string>, base: string) {
    Dead(e) && e.version == v && InLineage(e.id, base)
  }

  ghost predicate HasLive(m: Slots, v: Option<string>, base: string) {
    exists i :: i in m && LiveAt(m[i], v, base)
  }

  ghost predicate HasTomb(m: Slots, v: Option<string>, base: string) {
    exists i :: i in m && TombAt(m[i], v, base)
  }

  lemma CopyStaysInLineage(w: Coding, e: Entry, base: string)
    requires InLineage(e.id, base)
    ensures InLineage(ConflictCopy(w, e).id, base)
  {
    var stem, hash := ".conflict.", w.shortHash(w.canon(e));
    assert e.id + stem + hash == e.id + (stem + hash);
    if e.id == base {
      assert (e.id + stem + hash)[..|base + stem|] == base + stem;
    } else {
      assert (e.id + (stem + hash))[..|base + stem|] == e.id[..|base + stem|];
    }
  }

  lemma StoredHas(m: Slots, i: string, e: Entry, v: Option<string>, base: string)
    requires e.id == i
    ensures HasLive(m[i := e], v, base) ==> HasLive(m, v, base) || LiveAt(e, v, base)
    ensures HasTomb(m[i := e], v, base) ==> HasTomb(m, v, base) || TombAt(e, v, base)
    ensures LiveAt(e, v, base) ==> HasLive(m[i := e], v, base)
    ensures HasLive(m, v, base) ==> HasLive(m[i := e], v, base) || (i in m && LiveAt(m[i], v, base))
  {
    if HasLive(m, v, base) {
      var j :| j in m && LiveAt(m[j], v, base);
      assert j != i ==> m[i := e][j] == m[j];
    }
    if LiveAt(e, v, base) {
      assert m[i := e][i] == e;
    }
    hide InLineage;
  }

  /** One insertion loses no live version of a lineage but to a tombstone of that version there,
      and makes no tombstone up. */
  lemma {:induction false} InsertionKeepsVersions(w: Coding, m: Slots, e: Entry, v: Option<string>, base: string)
    requires Faithful(w)
    ensures HasTomb(AddCard(w, m, e), v, base) ==> HasTomb(m, v, base) || TombAt(e, v, base)
    ensures HasLive(m, v, base) || LiveAt(e, v, base) ==>
              HasLive(AddCard(w, m, e), v, base) || HasTomb(m, v, base) || TombAt(e, v, base)
    decreases |KeysFrom(m, |e.id|)|
  {
    if e.id !in m {
      StoredHas(m, e.id, e, v, base);
    } else {
      var r := Combine(w, m[e.id], e);
      StoredHas(m, e.id, r.keep, v, base);
      KeptVersions(w, m, e, v, base);
      hide HasLive, HasTomb, LiveAt, TombAt, Combine;
      if r.displaced.Some? {
        KeysShrink(m, e.id, r.keep, r.displaced.value.id);
        InsertionKeepsVersions(w, m[e.id := r.keep], r.displaced.value, v, base);
      }
    }
  }

  lemma KeptVersions(w: Coding, m: Slots, e: Entry, v: Option<string>, base: string)
    requires Faithful(w) && e.id in m
    ensures var r := Combine(w, m[e.id], e);
            && (LiveAt(e, v, base) || LiveAt(m[e.id], v, base) ==>
                  || LiveAt(r.keep, v, base) || (r.displaced.Some? && LiveAt(r.displaced.value, v, base))
                  || TombAt(e, v, base) || HasTomb(m, v, base))
            && (TombAt(r.keep, v, base) ==> TombAt(e, v, base) || HasTomb(m, v, base))
            && (r.displaced.Some? ==> !TombAt(r.displaced.value, v, base))
  {
    assert TombAt(m[e.id], v, base) ==> HasTomb(m, v, base);
    if InLineage(e.id, base) {
      CopyStaysInLineage(w, e, base);
      CopyStaysInLineage(w, m[e.id], base);
    }
    hide Less, InLineage, SlotId;
  }

  /** No edit is lost: a live version that goes into a merge comes out alive, under its own id or
      as a conflict copy of it, unless a tombstone of that version went in under such an id. */
  lemma {:induction false} LiveVersionsSurvive(w: Coding, es: seq<Entry>, v: Option<string>, base: string)
    requires Faithful(w)
    ensures HasTomb(AddAll(w, map[], es), v, base) ==> exists t :: t in es && TombAt(t, v, base)
    ensures (exists e :: e in es && LiveAt(e, v, base)) ==>
              HasLive(AddAll(w, map[], es), v, base) || exists t :: t in es && TombAt(t, v, base)
  {
    if es != [] {
      var front, last := es[..|es| - 1], es[|es| - 1];
      assert es == front + [last];
      LiveVersionsSurvive(w, front, v, base);
      InsertionKeepsVersions(w, AddAll(w, map[], front), last, v, base);
      hide AddCard, HasLive, HasTomb, LiveAt, TombAt;
    }
  }

  /** A live entry of the version and content, under an id of the lineage. */
  predicate Bears(e: Entry, v: Option<string>, content: string, base: string) {
    LiveAt(e, v, base) && e.content == content
  }

  /** An entry of the version that is deleted or says something else, under an id that extends
      `base` or is extended by it. */
  predicate Takes(e: Entry, v: Option<string>, content: string, base: string) {
    e.version == v && (Dead(e) || e.content != content) && (e.id <= base || base <= e.id)
  }

  ghost predicate HasBearer(m: Slots, v: Option<string>, content: string, base: string) {
    exists i :: i in m && Bears(m[i], v, content, base)
  }

  ghost predicate HasTaker(m: Slots, v: Option<string>, content: string, base: string) {
    exists i :: i in m && Takes(m[i], v, content, base)
  }

  lemma StoredBears(m: Slots, e: Entry, v: Option<string>, content: string, base: string)
    ensures Bears(e, v, content, base) ==> HasBearer(m[e.id := e], v, content, base)
    ensures HasBearer(m, v, content, base) ==>
              HasBearer(m[e.id := e], v, content, base) || (e.id in m && Bears(m[e.id], v, content, base))
    ensures HasTaker(m[e.id := e], v, content, base) ==> HasTaker(m, v, content, base) || Takes(e, v, content, base)
    ensures e.id in m && Takes(m[e.id], v, content, base) ==> HasTaker(m, v, content, base)
  {
    hide Bears, Takes;
    if HasBearer(m, v, content, base) {
      var j :| j in m && Bears(m[j], v, content, base);
      assert j != e.id ==> m[e.id := e][j] == m[j];
    }
    assert m[e.id := e][e.id] == e;
  }

  /** A copy bears what its original bears, and takes only what its original takes. */
  lemma CopyBears(w: Coding, e: Entry, v: Option<string>, content: string, base: string)
    ensures Bears(e, v, content, base) ==> Bears(ConflictCopy(w, e), v, content, base)
    ensures Takes(ConflictCopy(w, e), v, content, base) ==> Takes(e, v, content, base)
  {
    if InLineage(e.id, base) {
      CopyStaysInLineage(w, e, base);
    }
    var i := SlotId(w, e);
    assert i[..|e.id|] == e.id;
    assert base <= i ==> e.id <= base || base <= e.id;
  }

  lemma KeptBears(w: Coding, k: Entry, e: Entry, v: Option<string>, content: string, base: string)
    requires Faithful(w) && k.id == e.id
    ensures var r := Combine(w, k, e);
            && (Bears(k, v, content, base) || Bears(e, v, content, base) ==>
                  || Bears(r.keep, v, content, base) || (r.displaced.Some? && Bears(r.displaced.value, v, content, base))
                  || Takes(k, v, content, base) || Takes(e, v, content, base))
            && (Takes(r.keep, v, content, base) ==> Takes(k, v, content, base) || Takes(e, v, content, base))
            && (r.displaced.Some? && Takes(r.displaced.value, v, content, base) ==> Takes(k, v, content, base) || Takes(e, v, content, base))
  {
    CopyBears(w, k, v, content, base);
    CopyBears(w, e, v, content, base);
    assert InLineage(k.id, base) ==> base <= k.id;
    hide Less, InLineage, SlotId, ConflictCopy;
  }

  lemma {:induction false} InsertionKeepsContents(w: Coding, m: Slots, e: Entry, v: Option<string>, content: string, base: string)
    requires Faithful(w)
    ensures HasTaker(AddCard(w, m, e), v, content, base) ==> HasTaker(m, v, content, base) || Takes(e, v, content, base)
    ensures HasBearer(m, v, content, base) || Bears(e, v, content, base) ==>
              HasBearer(AddCard(w, m, e), v, content, base) || HasTaker(m, v, content, base) || Takes(e, v, content, base)
    decreases |KeysFrom(m, |e.id|)|
  {
    if e.id !in m {
      StoredBears(m, e, v, content, base);
    } else {
      var r := Combine(w, m[e.id], e);
      StoredBears(m, r.keep, v, content, base);
      KeptBears(w, m[e.id], e, v, content, base);
      hide HasBearer, HasTaker, Bears, Takes, Combine;
      if r.displaced.Some? {
        KeysShrink(m, e.id, r.keep, r.displaced.value.id);
        InsertionKeepsContents(w, m[e.id := r.keep], r.displaced.value, v, content, base);
      }
    }
  }

  /** No contents are lost: what a live input says is said by a live entry of the merge, of the same
      version and under the same id or as a conflict copy of it - unless an input of that version
      and a related id is deleted or says something else. */
  lemma {:induction false} ContentsSurvive(w: Coding, es: seq<Entry>, v: Option<string>, content: string, base: string)
    requires Faithful(w)
    ensures HasTaker(AddAll(w, map[], es), v, content, base) ==> exists t :: t in es && Takes(t, v, content, base)
    ensures (exists e :: e in es && Bears(e, v, content, base)) ==>
              HasBearer(AddAll(w, map[], es), v, content, base) || exists t :: t in es && Takes(t, v, content, base)
  {
    if es != [] {
      var front, last := es[..|es| - 1], es[|es| - 1];
      assert es == front + [last];
      ContentsSurvive(w, front, v, content, base);
      InsertionKeepsContents(w, AddAll(w, map[], front), last, v, content, base);
      hide AddCard, HasBearer, HasTaker, Bears, Takes;
    }
  }

  /** The entry says what `e` says: same contents, version and deletion, under the same id or one
      that extends it as conflict copies do. */
  predicate ComesFrom(c: Entry, e: Entry) {
    c.content == e.content && c.version == e.version && c.deletedAt == e.deletedAt && InLineage(c.id, e.id)
  }

  lemma CopyComesFrom(w: Coding, c: Entry, e: Entry)
    requires ComesFrom(c, e)
    ensures ComesFrom(ConflictCopy(w, c), e)
  {
    CopyStaysInLineage(w, c, e.id);
  }

  lemma {:induction false} InsertionMakesNothingUp(w: Coding, m: Slots, e: Entry, from: seq<Entry>)
    requires (forall i | i in m :: exists f :: f in from && ComesFrom(m[i], f)) && exists f :: f in from && ComesFrom(e, f)
    ensures forall i | i in AddCard(w, m, e) :: exists f :: f in from && ComesFrom(AddCard(w, m, e)[i], f)
    decreases |KeysFrom(m, |e.id|)|
  {
    hide ComesFrom, SlotId, ConflictCopy;
    if e.id in m {
      var k := m[e.id];
      var r := Combine(w, k, e);
      var next := m[e.id := r.keep];
      forall i | i in next ensures exists f :: f in from && ComesFrom(next[i], f) {
        assert i != e.id ==> next[i] == m[i];
      }
      if r.displaced.Some? {
        var loser :| loser in {k, e} && r.displaced.value == ConflictCopy(w, loser);
        var f :| f in from && ComesFrom(loser, f);
        CopyComesFrom(w, loser, f);
        KeysShrink(m, e.id, r.keep, r.displaced.value.id);
        InsertionMakesNothingUp(w, next, r.displaced.value, from);
      }
    }
  }

  /** Nothing is made up: every entry of a merge says what some input says, and sits where that input
      sat or in a conflict slot that descends from there. */
  lemma {:induction false} EntriesComeFromInputs(w: Coding, es: seq<Entry>)
    ensures forall i | i in AddAll(w, map[], es) :: exists e :: e in es && ComesFrom(AddAll(w, map[], es)[i], e)
  {
    if es != [] {
      var front, last := es[..|es| - 1], es[|es| - 1];
      assert es == front + [last];
      EntriesComeFromInputs(w, front);
      var m := AddAll(w, map[], front);
      forall i | i in m ensures exists e :: e in es && ComesFrom(m[i], e) {
        var e :| e in front && ComesFrom(m[i], e);
      }
      assert ComesFrom(last, last) && last in es;
      hide AddCard, ComesFrom;
      InsertionMakesNothingUp(w, m, last, es);
    }
  }

  // ---- Two rivals, spelled out ------------------------------------------------------------------------

  /** A tombstone over a live entry; otherwise the one whose text comes first. */
  predicate Wins(w: Coding, x: Entry, y: Entry) {
    (x.deletedAt.Some? && y.deletedAt.None?)
    || (x.deletedAt.Some? == y.deletedAt.Some? && Less(w.canon(x), w.canon(y)))
  }

  /** Whichever of two rivals comes first, the winner keeps the id. A live loser of another version
      is kept whole in the slot named after its own text, with where it came from; any other loser
      is gone. */
  lemma TwoRivals(w: Coding, x: Entry, y: Entry)
    requires Faithful(w) && x.id == y.id && Wins(w, x, y)
    ensures var slot := y.id + ".conflict." + w.shortHash(w.canon(y));
            var copy := Entry(slot, y.version, None, Some(Origin(y.id, y.version)), y.content);
            && slot != x.id
            && AddAll(w, map[], [x] + [y]) == AddAll(w, map[], [y] + [x]) ==
                 if y.deletedAt.None? && x.version != y.version then map[x.id := x, slot := copy] else map[x.id := x]
  {
    assert Beats(w, x, y);
    CombineKeepsTheBetter(w, x, y);
    CombineKeepsTheBetter(w, y, x);
    assert ([x] + [y])[..1] == [x] && ([y] + [x])[..1] == [y] && [x][..0] == [] && [y][..0] == [];
    assert AddAll(w, map[], [x]) == map[x.id := x] && AddAll(w, map[], [y]) == map[y.id := y];
    hide Combine, Less, Beats, Wins;
    AddedToOne(w, x, y);
    AddedToOne(w, y, x);
    assert |SlotId(w, y)| > |y.id|;
    assert AddAll(w, map[], [x] + [y]) == AddCard(w, map[x.id := x], y);
    assert AddAll(w, map[], [y] + [x]) == AddCard(w, map[y.id := y], x);
  }

  lemma AddedToOne(w: Coding, k: Entry, e: Entry)
    requires k.id == e.id
    ensures var r := Combine(w, k, e);
            AddCard(w, map[k.id := k], e) ==
            if r.displaced.Some? then map[k.id := r.keep, r.displaced.value.id := r.displaced.value] else map[k.id := r.keep]
  {
    hide Combine;
  }

  lemma {:induction false} InsertionKeepsDeletions(w: Coding, m: Slots, e: Entry, i: string)
    requires Faithful(w)
    ensures (i in m && Dead(m[i])) || (e.id == i && Dead(e)) ==> i in AddCard(w, m, e) && Dead(AddCard(w, m, e)[i])
    decreases |KeysFrom(m, |e.id|)|
  {
    if e.id in m {
      var r := Combine(w, m[e.id], e);
      if r.displaced.Some? {
        KeysShrink(m, e.id, r.keep, r.displaced.value.id);
        InsertionKeepsDeletions(w, m[e.id := r.keep], r.displaced.value, i);
      }
    }
  }

  /** Deletion wins: an id deleted on any side is deleted in the merge. */
  lemma {:induction false} DeletionWins(w: Coding, es: seq<Entry>, t: Entry)
    requires Faithful(w) && t in es && Dead(t)
    ensures t.id in AddAll(w, map[], es) && Dead(AddAll(w, map[], es)[t.id])
  {
    var front, last := es[..|es| - 1], es[|es| - 1];
    assert es == front + [last];
    InsertionKeepsDeletions(w, AddAll(w, map[], front), last, t.id);
    if t in front {
      DeletionWins(w, front, t);
    }
  }
}
