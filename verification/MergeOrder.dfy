/** Exactly when the order and the grouping of merges matter. */
module MergeOrder {
  import opened Wrappers
  import opened Strings
  import opened ConvergentMerge

  // ---- Two rivals ----------------------------------------------------------------------------------

  function Better(w: Coding, x: Entry, y: Entry): Entry {
    if Beats(w, y, x) then y else x
  }

  function Displaced(w: Coding, x: Entry, y: Entry): set<Entry> {
    if Displaces(w, x, y) then {y} else if Displaces(w, y, x) then {x} else {}
  }

  lemma RivalOutcome(w: Coding, k: Entry, e: Entry)
    requires Faithful(w) && e.id == k.id
    ensures Combine(w, k, e).keep == Better(w, k, e)
    ensures Displaced(w, k, e) == {} ==> Combine(w, k, e).displaced.None?
    ensures Displaced(w, k, e) != {} ==>
              exists q | q in {k, e} :: Displaced(w, k, e) == {q} && Combine(w, k, e).displaced == Some(ConflictCopy(w, q))
  {
    BeatsTotal(w, k, e);
    CombineKeepsTheBetter(w, k, e);
    BeatsIrreflexive(w, k);
    if Beats(w, k, e) {
      BeatsAsymmetric(w, k, e);
    }
    if Beats(w, e, k) {
      BeatsAsymmetric(w, e, k);
    }
    hide Combine, ConflictCopy, Beats;
  }

  lemma RivalsAreSymmetric(w: Coding, x: Entry, y: Entry)
    requires Faithful(w)
    ensures Better(w, x, y) == Better(w, y, x) && Displaced(w, x, y) == Displaced(w, y, x)
    ensures Displaced(w, x, y) <= {x, y} && Better(w, x, y) in {x, y}
  {
    BeatsTotal(w, x, y);
    BeatsIrreflexive(w, x);
    if Beats(w, x, y) {
      BeatsAsymmetric(w, x, y);
    }
    if Beats(w, y, x) {
      BeatsAsymmetric(w, y, x);
    }
    hide Beats;
  }

  // ---- What a merge with free slots looks like -------------------------------------------------------

  /** Who keeps each id, and whose copies have been made. */
  datatype Form = Form(kept: Slots, copies: set<Entry>)

  const Empty: Form := Form(map[], {})

  ghost predicate HasForm(w: Coding, m: Slots, f: Form) {
    && (forall i | i in f.kept :: i in m && m[i] == f.kept[i])
    && (forall q | q in f.copies :: SlotId(w, q) in m && m[SlotId(w, q)] == ConflictCopy(w, q))
    && (forall i | i in m :: i in f.kept || exists q :: q in f.copies && i == SlotId(w, q))
  }

  /** The form speaks of entries of `es` only. */
  ghost predicate Within(f: Form, es: set<Entry>) {
    (forall i | i in f.kept :: f.kept[i] in es) && f.copies <= es
  }

  function Enter(w: Coding, f: Form, e: Entry): Form {
    if e.id in f.kept
    then Form(f.kept[e.id := BetterOf(w, f.kept[e.id], e)], f.copies + Displaced(w, f.kept[e.id], e))
    else Form(f.kept[e.id := e], f.copies)
  }

  function BetterOf(w: Coding, k: Entry, e: Entry): (r: Entry)
    requires k.id == e.id
    ensures r == Better(w, k, e) && r.id == e.id
  {
    Better(w, k, e)
  }

  function EnterAll(w: Coding, f: Form, es: seq<Entry>): Form {
    if es == [] then f else Enter(w, EnterAll(w, f, es[..|es| - 1]), es[|es| - 1])
  }

  lemma CopyIsAtItsSlot(w: Coding, q: Entry)
    ensures ConflictCopy(w, q).id == SlotId(w, q)
  {
  }

  lemma FormAddsCopy(w: Coding, m: Slots, f: Form, q: Entry, es: set<Entry>)
    requires Faithful(w) && SlotsFree(w, es) && HasForm(w, m, f) && Within(f, es) && q in es
    ensures var g := Form(f.kept, f.copies + {q}); HasForm(w, AddCard(w, m, ConflictCopy(w, q)), g) && Within(g, es)
  {
    CopyIsAtItsSlot(w, q);
    if q in f.copies {
      ReaddingChangesNothing(w, m, ConflictCopy(w, q));
      assert f.copies + {q} == f.copies;
    } else {
      hide SlotId, ConflictCopy, Combine;
      SlotIsFree(w, m, f, q, es);
      assert AddCard(w, m, ConflictCopy(w, q)) == m[SlotId(w, q) := ConflictCopy(w, q)];
      hide AddCard;
      FormStoresCopy(w, m, f, q, es);
    }
  }

  lemma SlotIsFree(w: Coding, m: Slots, f: Form, q: Entry, es: set<Entry>)
    requires SlotsFree(w, es) && HasForm(w, m, f) && Within(f, es) && q in es && q !in f.copies
    ensures SlotId(w, q) !in m
  {
    hide SlotId;
    KeptAreNotSlots(w, f, q, es);
  }

  lemma KeptAreNotSlots(w: Coding, f: Form, q: Entry, es: set<Entry>)
    requires SlotsFree(w, es) && Within(f, es) && q in es
    ensures SlotId(w, q) !in f.kept
  {
    forall i | i in f.kept ensures i != SlotId(w, q) {
      assert f.kept[i] in es && f.kept[i].id == i;
    }
  }

  lemma FormStoresCopy(w: Coding, m: Slots, f: Form, q: Entry, es: set<Entry>)
    requires SlotsFree(w, es) && HasForm(w, m, f) && Within(f, es) && q in es && SlotId(w, q) !in m
    requires ConflictCopy(w, q).id == SlotId(w, q)
    ensures HasForm(w, m[SlotId(w, q) := ConflictCopy(w, q)], Form(f.kept, f.copies + {q}))
  {
    hide SlotId, ConflictCopy;
  }

  lemma FormSwaps(w: Coding, m: Slots, f: Form, e: Entry, es: set<Entry>)
    requires SlotsFree(w, es) && HasForm(w, m, f) && Within(f, es) && e in es
    ensures HasForm(w, m[e.id := e], Form(f.kept[e.id := e], f.copies)) && Within(Form(f.kept[e.id := e], f.copies), es)
    ensures e.id in m <==> e.id in f.kept
  {
    hide SlotId, ConflictCopy;
  }

  lemma FormAddsFirst(w: Coding, m: Slots, f: Form, e: Entry, es: set<Entry>)
    requires SlotsFree(w, es) && HasForm(w, m, f) && Within(f, es) && e in es && e.id !in f.kept
    ensures HasForm(w, AddCard(w, m, e), Enter(w, f, e)) && Within(Enter(w, f, e), es)
  {
    FormSwaps(w, m, f, e, es);
    hide HasForm, Within;
  }

  lemma AddedRival(w: Coding, m: Slots, e: Entry)
    requires e.id in m
    ensures var r := Combine(w, m[e.id], e);
            AddCard(w, m, e) == if r.displaced.Some? then AddCard(w, m[e.id := r.keep], r.displaced.value) else m[e.id := r.keep]
  {
    hide Combine;
  }

  lemma EnteredRival(w: Coding, f: Form, e: Entry)
    requires e.id in f.kept
    ensures Better(w, f.kept[e.id], e).id == e.id
    ensures Enter(w, f, e) == Form(f.kept[e.id := Better(w, f.kept[e.id], e)], f.copies + Displaced(w, f.kept[e.id], e))
  {
    hide Displaced;
  }

  lemma FormAddsRival(w: Coding, m: Slots, f: Form, e: Entry, es: set<Entry>)
    requires Faithful(w) && SlotsFree(w, es) && HasForm(w, m, f) && Within(f, es) && e in es && e.id in f.kept
    requires e.id in m && m[e.id] == f.kept[e.id] && f.kept[e.id] in es
    ensures HasForm(w, AddCard(w, m, e), Enter(w, f, e)) && Within(Enter(w, f, e), es)
  {
    hide *;
    var k := f.kept[e.id];
    var best := Better(w, k, e);
    RivalOutcome(w, k, e);
    RivalsAreSymmetric(w, k, e);
    EnteredRival(w, f, e);
    AddedRival(w, m, e);
    FormSwaps(w, m, f, best, es);
    if Displaced(w, k, e) != {} {
      var q :| q in {k, e} && Displaced(w, k, e) == {q} && Combine(w, k, e).displaced == Some(ConflictCopy(w, q));
      FormAddsCopy(w, m[e.id := best], Form(f.kept[e.id := best], f.copies), q, es);
    } else {
      assert f.copies + {} == f.copies;
    }
  }

  lemma FormAdds(w: Coding, m: Slots, f: Form, e: Entry, es: set<Entry>)
    requires Faithful(w) && SlotsFree(w, es) && HasForm(w, m, f) && Within(f, es) && e in es
    ensures HasForm(w, AddCard(w, m, e), Enter(w, f, e)) && Within(Enter(w, f, e), es)
  {
    if e.id in f.kept {
      assert e.id in m && m[e.id] == f.kept[e.id] && f.kept[e.id] in es;
      hide *;
      FormAddsRival(w, m, f, e, es);
    } else {
      hide *;
      FormAddsFirst(w, m, f, e, es);
    }
  }

  lemma {:induction false} FormAddsAll(w: Coding, m: Slots, f: Form, fs: seq<Entry>, es: set<Entry>)
    requires Faithful(w) && SlotsFree(w, es) && HasForm(w, m, f) && Within(f, es) && Members(fs) <= es
    ensures HasForm(w, AddAll(w, m, fs), EnterAll(w, f, fs)) && Within(EnterAll(w, f, fs), es)
  {
    if fs != [] {
      var front, last := fs[..|fs| - 1], fs[|fs| - 1];
      assert fs == front + [last];
      assert last in Members(fs) && Members(front) <= Members(fs);
      hide HasForm, Within, SlotsFree, Enter, AddCard;
      FormAddsAll(w, m, f, front, es);
      FormAdds(w, AddAll(w, m, front), EnterAll(w, f, front), last, es);
    }
  }

  lemma FormKeptOf(w: Coding, m: Slots, f: Form, g: Form, es: set<Entry>)
    requires SlotsFree(w, es) && HasForm(w, m, f) && HasForm(w, m, g) && Within(f, es) && Within(g, es)
    ensures f.kept.Keys <= g.kept.Keys && f.copies <= g.copies
  {
    hide SlotId, ConflictCopy;
    forall i | i in f.kept ensures i in g.kept {
      assert f.kept[i] in es && f.kept[i].id == i;
    }
    forall q | q in f.copies ensures q in g.copies {
      KeptAreNotSlots(w, g, q, es);
    }
  }

  /** Two merges agree exactly when they have the same form. */
  lemma FormDetermines(w: Coding, m: Slots, f: Form, n: Slots, g: Form, es: set<Entry>)
    requires SlotsFree(w, es) && HasForm(w, m, f) && HasForm(w, n, g) && Within(f, es) && Within(g, es)
    ensures m == n <==> f == g
  {
    if m == n {
      FormKeptOf(w, m, f, g, es);
      FormKeptOf(w, m, g, f, es);
      assert f.kept == g.kept;
    }
    if f == g {
      hide SlotId, ConflictCopy;
      forall i ensures i in m <==> i in n {
      }
      forall i | i in m ensures m[i] == n[i] {
      }
    }
  }

  lemma EmptyForm(w: Coding, es: set<Entry>)
    ensures HasForm(w, map[], Empty) && Within(Empty, es)
  {
  }

  // ---- Any number of entries, in any order -----------------------------------------------------------

  ghost predicate NoRepeats(es: seq<Entry>) {
    forall i, j | 0 <= i < j < |es| :: es[i] != es[j]
  }

  /** `fs` lists the same entries, each once. */
  ghost predicate Reorders(fs: seq<Entry>, es: seq<Entry>) {
    NoRepeats(fs) && Members(fs) == Members(es)
  }

  function Others(es: seq<Entry>, p: Entry, q: Entry): (fs: seq<Entry>)
    ensures forall e :: e in fs <==> e in es && e != p && e != q
  {
    if es == [] then []
    else Others(es[..|es| - 1], p, q) + (if es[|es| - 1] in {p, q} then [] else [es[|es| - 1]])
  }

  lemma {:induction false} OthersDoNotRepeat(es: seq<Entry>, p: Entry, q: Entry)
    requires NoRepeats(es)
    ensures NoRepeats(Others(es, p, q))
  {
    if es != [] {
      var front, last := es[..|es| - 1], es[|es| - 1];
      OthersDoNotRepeat(front, p, q);
      assert last !in front;
    }
  }

  lemma FirstTwo(es: seq<Entry>, p: Entry, q: Entry)
    requires NoRepeats(es) && p in es && q in es && p != q
    ensures Reorders([p, q] + Others(es, p, q), es)
  {
    OthersDoNotRepeat(es, p, q);
    var fs := [p, q] + Others(es, p, q);
    forall i, j | 0 <= i < j < |fs| ensures fs[i] != fs[j] {
      if i < 2 <= j {
        assert Others(es, p, q)[j - 2] in Others(es, p, q);
      }
    }
    forall e ensures e in fs <==> e in es {
    }
  }

  lemma EnterTwo(w: Coding, p: Entry, q: Entry)
    requires Faithful(w) && p.id == q.id
    ensures EnterAll(w, Empty, [p, q]) == Form(map[p.id := Better(w, p, q)], Displaced(w, p, q))
  {
    assert [p, q][..1] == [p] && [p][..0] == [];
    assert EnterAll(w, Empty, []) == Empty;
    assert EnterAll(w, Empty, [p]) == Form(map[p.id := p], {});
    assert {} + Displaced(w, p, q) == Displaced(w, p, q);
    hide Displaced, Better;
    assert map[p.id := p][q.id := Better(w, p, q)] == map[p.id := Better(w, p, q)];
  }

  /** Once absorbed, an entry leaves no copy, whatever comes later - itself excepted. */
  lemma {:induction false} AbsorbedStays(w: Coding, f: Form, fs: seq<Entry>, q: Entry)
    requires Faithful(w) && q.id in f.kept && f.kept[q.id] != q && q !in f.copies && q !in fs
    ensures q !in EnterAll(w, f, fs).copies && q.id in EnterAll(w, f, fs).kept && EnterAll(w, f, fs).kept[q.id] != q
  {
    if fs != [] {
      var front, last := fs[..|fs| - 1], fs[|fs| - 1];
      assert fs == front + [last];
      AbsorbedStays(w, f, front, q);
      var g := EnterAll(w, f, front);
      if last.id in g.kept {
        RivalsAreSymmetric(w, g.kept[last.id], last);
      }
      hide Better, Displaced;
    }
  }

  lemma {:induction false} CopiesStay(w: Coding, f: Form, fs: seq<Entry>, q: Entry)
    requires q in f.copies
    ensures q in EnterAll(w, f, fs).copies
  {
    if fs != [] {
      CopiesStay(w, f, fs[..|fs| - 1], q);
    }
  }

  lemma {:induction false} EnterAllConcat(w: Coding, f: Form, es: seq<Entry>, fs: seq<Entry>)
    ensures EnterAll(w, f, es + fs) == EnterAll(w, EnterAll(w, f, es), fs)
  {
    if fs == [] {
      assert es + fs == es;
    } else {
      assert (es + fs)[..|es + fs| - 1] == es + fs[..|fs| - 1];
      EnterAllConcat(w, f, es, fs[..|fs| - 1]);
    }
  }

  /** An absorber that comes first and a displacer that comes first lead to different merges. */
  lemma ContestedOrdersDiffer(w: Coding, es: seq<Entry>, p: Entry, q: Entry, r: Entry)
    requires Faithful(w) && SlotsFree(w, Members(es)) && p in es && q in es && r in es
    requires Absorbs(w, p, q) && Displaces(w, r, q)
    ensures AddAll(w, map[], [p, q] + Others(es, p, q)) != AddAll(w, map[], [r, q] + Others(es, r, q))
  {
    BeatsIrreflexive(w, q);
    BeatsAsymmetric(w, p, q);
    var left, right := [p, q] + Others(es, p, q), [r, q] + Others(es, r, q);
    assert Members(left) <= Members(es) && Members(right) <= Members(es);
    assert q in Displaced(w, r, q) && q !in Displaced(w, p, q) && Better(w, p, q) != q && p.id == q.id == r.id;
    hide *;
    EmptyForm(w, Members(es));
    FormAddsAll(w, map[], Empty, left, Members(es));
    FormAddsAll(w, map[], Empty, right, Members(es));
    EnterTwo(w, p, q);
    EnterTwo(w, r, q);
    EnterAllConcat(w, Empty, [p, q], Others(es, p, q));
    EnterAllConcat(w, Empty, [r, q], Others(es, r, q));
    AbsorbedStays(w, EnterAll(w, Empty, [p, q]), Others(es, p, q), q);
    CopiesStay(w, EnterAll(w, Empty, [r, q]), Others(es, r, q), q);
    FormDetermines(w, AddAll(w, map[], left), EnterAll(w, Empty, left), AddAll(w, map[], right), EnterAll(w, Empty, right), Members(es));
  }

  ghost predicate OrderIrrelevant(w: Coding, es: seq<Entry>) {
    forall fs | Reorders(fs, es) :: AddAll(w, map[], fs) == AddAll(w, map[], es)
  }

  lemma OrderApplies(w: Coding, es: seq<Entry>, fs: seq<Entry>)
    requires OrderIrrelevant(w, es) && Reorders(fs, es)
    ensures AddAll(w, map[], fs) == AddAll(w, map[], es)
  {
  }

  lemma ContestedOrderMatters(w: Coding, es: seq<Entry>, p: Entry, q: Entry, r: Entry)
    requires Faithful(w) && SlotsFree(w, Members(es)) && NoRepeats(es) && p in es && q in es && r in es
    requires Absorbs(w, p, q) && Displaces(w, r, q)
    ensures !OrderIrrelevant(w, es)
  {
    BeatsIrreflexive(w, q);
    assert p != q && r != q;
    hide *;
    ContestedOrdersDiffer(w, es, p, q, r);
    FirstTwo(es, p, q);
    FirstTwo(es, r, q);
    if OrderIrrelevant(w, es) {
      OrderApplies(w, es, [p, q] + Others(es, p, q));
      OrderApplies(w, es, [r, q] + Others(es, r, q));
    }
  }

  /** Order is irrelevant exactly when nothing is contested: for any number of entries whose
      conflict slots are free, all orders of merging them agree if and only if no entry is absorbed
      by one of them and displaced by another. */
  lemma OrderIrrelevantIff(w: Coding, es: seq<Entry>)
    requires Faithful(w) && SlotsFree(w, Members(es)) && NoRepeats(es)
    ensures OrderIrrelevant(w, es) <==> Uncontested(w, Inputs(Members(es)))
  {
    hide Absorbs, Displaces, SlotsFree, AddAll, NoRepeats, Arrivals;
    if Uncontested(w, Inputs(Members(es))) {
      UncontestedIffInputsAre(w, Members(es));
      forall fs | Reorders(fs, es) ensures AddAll(w, map[], fs) == AddAll(w, map[], es) {
        MergeDependsOnContents(w, es, fs);
      }
    } else {
      var p, q, r :| p in es && q in es && r in es && Absorbs(w, p, q) && Displaces(w, r, q);
      ContestedOrderMatters(w, es, p, q, r);
    }
  }

  // ---- Merging merges ----------------------------------------------------------------------------------

  ghost predicate DistinctIds(es: seq<Entry>) {
    forall i, j | 0 <= i < j < |es| :: es[i].id != es[j].id
  }

  /** `es` lists the entries of `m`, each once, in any order. */
  ghost predicate Enumerates(es: seq<Entry>, m: Slots) {
    DistinctIds(es) && Lists(es, m)
  }

  function JoinKept(w: Coding, a: Slots, b: Slots): Slots {
    map i | i in a.Keys + b.Keys :: if i !in b then a[i] else if i !in a then b[i] else BetterOf(w, a[i], b[i])
  }

  function JoinDisplaced(w: Coding, a: Slots, b: Slots): set<Entry> {
    set i, q | i in a && i in b && q in Displaced(w, a[i], b[i]) :: q
  }

  /** What merging two merges makes of their forms. */
  function Join(w: Coding, f: Form, g: Form): Form {
    Form(JoinKept(w, f.kept, g.kept), f.copies + g.copies + JoinDisplaced(w, f.kept, g.kept))
  }

  lemma InJoinDisplaced(w: Coding, a: Slots, b: Slots, q: Entry)
    requires Faithful(w)
    ensures q in JoinDisplaced(w, a, b) <==> q.id in a && q.id in b && q in Displaced(w, a[q.id], b[q.id])
  {
    if q in JoinDisplaced(w, a, b) {
      var i :| i in a && i in b && q in Displaced(w, a[i], b[i]);
      RivalsAreSymmetric(w, a[i], b[i]);
    }
    hide Displaced;
  }

  /** The part of a form that `xs` lists. */
  ghost function Listed(w: Coding, g: Form, xs: seq<Entry>): Form {
    Form(map i | i in g.kept && g.kept[i] in xs :: g.kept[i], set q | q in g.copies && ConflictCopy(w, q) in xs)
  }

  lemma CopiesAreNotKept(w: Coding, g: Form, q: Entry, es: set<Entry>)
    requires SlotsFree(w, es) && Within(g, es) && q in es
    ensures ConflictCopy(w, q).id !in g.kept && forall i | i in g.kept :: g.kept[i] != ConflictCopy(w, q)
  {
    KeptAreNotSlots(w, g, q, es);
    CopyIsAtItsSlot(w, q);
    hide SlotId, ConflictCopy;
  }

  lemma ListedKept(w: Coding, g: Form, xs: seq<Entry>, e: Entry, es: set<Entry>)
    requires SlotsFree(w, es) && Within(g, es) && e.id in g.kept && g.kept[e.id] == e
    ensures Listed(w, g, xs + [e]) == Form(Listed(w, g, xs).kept[e.id := e], Listed(w, g, xs).copies)
  {
    forall q | q in g.copies ensures ConflictCopy(w, q) != e {
      CopiesAreNotKept(w, g, q, es);
    }
    hide ConflictCopy;
    assert Listed(w, g, xs + [e]).kept == Listed(w, g, xs).kept[e.id := e];
  }

  lemma ListedCopy(w: Coding, g: Form, xs: seq<Entry>, q: Entry, es: set<Entry>)
    requires SlotsFree(w, es) && Within(g, es) && q in g.copies
    ensures Listed(w, g, xs + [ConflictCopy(w, q)]) == Form(Listed(w, g, xs).kept, Listed(w, g, xs).copies + {q})
  {
    CopiesAreNotKept(w, g, q, es);
    forall p | p in g.copies && p != q ensures ConflictCopy(w, p) != ConflictCopy(w, q) {
      CopyIsAtItsSlot(w, p);
      CopyIsAtItsSlot(w, q);
    }
    hide ConflictCopy;
    var e := ConflictCopy(w, q);
    assert Listed(w, g, xs + [e]).copies == Listed(w, g, xs).copies + {q};
  }

  lemma JoinKeptEnters(w: Coding, a: Slots, b: Slots, e: Entry)
    requires e.id !in b
    ensures JoinKept(w, a, b[e.id := e]) == JoinKept(w, a, b)[e.id := if e.id in a then BetterOf(w, a[e.id], e) else e]
    ensures e.id in JoinKept(w, a, b) <==> e.id in a
    ensures e.id in a ==> JoinKept(w, a, b)[e.id] == a[e.id]
  {
    hide Better;
  }

  lemma JoinDisplacedEnters(w: Coding, a: Slots, b: Slots, e: Entry)
    requires Faithful(w) && e.id !in b
    ensures JoinDisplaced(w, a, b[e.id := e]) == JoinDisplaced(w, a, b) + if e.id in a then Displaced(w, a[e.id], e) else {}
  {
    forall q ensures q in JoinDisplaced(w, a, b[e.id := e]) <==>
                     q in JoinDisplaced(w, a, b) || (e.id in a && q in Displaced(w, a[e.id], e)) {
      InJoinDisplaced(w, a, b[e.id := e], q);
      InJoinDisplaced(w, a, b, q);
      if e.id in a {
        RivalsAreSymmetric(w, a[e.id], e);
      }
    }
    hide Displaced, JoinDisplaced;
  }

  lemma JoinEnters(w: Coding, f: Form, g: Form, e: Entry)
    requires Faithful(w) && e.id !in g.kept
    ensures Enter(w, Join(w, f, g), e) == Join(w, f, Form(g.kept[e.id := e], g.copies))
  {
    JoinKeptEnters(w, f.kept, g.kept, e);
    JoinDisplacedEnters(w, f.kept, g.kept, e);
    hide Displaced, JoinDisplaced, JoinKept, Better;
    var more := if e.id in f.kept then Displaced(w, f.kept[e.id], e) else {};
    Regroup(f.copies + g.copies, JoinDisplaced(w, f.kept, g.kept), more);
  }

  lemma Regroup(a: set<Entry>, b: set<Entry>, c: set<Entry>)
    ensures a + (b + c) == (a + b) + c && a + {} == a
  {
  }

  lemma JoinNothing(w: Coding, f: Form)
    ensures Join(w, f, Empty) == f
  {
    assert JoinKept(w, f.kept, map[]) == f.kept;
    assert JoinDisplaced(w, f.kept, map[]) == {};
  }

  /** Adding what another merge holds, entry by entry, joins the forms. */
  lemma {:induction false} JoinAdds(w: Coding, m: Slots, f: Form, n: Slots, g: Form, xs: seq<Entry>, es: set<Entry>)
    requires Faithful(w) && SlotsFree(w, es) && HasForm(w, m, f) && HasForm(w, n, g) && Within(f, es) && Within(g, es)
    requires DistinctIds(xs) && forall e | e in xs :: e.id in n && n[e.id] == e
    ensures HasForm(w, AddAll(w, m, xs), Join(w, f, Listed(w, g, xs))) && Within(Join(w, f, Listed(w, g, xs)), es)
  {
    if xs == [] {
      assert Listed(w, g, []) == Empty;
      JoinNothing(w, f);
    } else {
      var front, e := xs[..|xs| - 1], xs[|xs| - 1];
      assert xs == front + [e];
      JoinAdds(w, m, f, n, g, front, es);
      LastIsNew(w, g, front, e);
      JoinAddsOne(w, AddAll(w, m, front), f, n, g, front, e, es);
    }
  }

  lemma LastIsNew(w: Coding, g: Form, front: seq<Entry>, e: Entry)
    requires DistinctIds(front + [e])
    ensures e.id !in Listed(w, g, front).kept
  {
    forall x | x in front ensures x.id != e.id {
      var i :| 0 <= i < |front| && front[i] == x;
      assert (front + [e])[i] == x && (front + [e])[|front|] == e;
    }
  }

  lemma JoinAddsOne(w: Coding, m: Slots, f: Form, n: Slots, g: Form, front: seq<Entry>, e: Entry, es: set<Entry>)
    requires Faithful(w) && SlotsFree(w, es) && HasForm(w, n, g) && Within(f, es) && Within(g, es)
    requires HasForm(w, m, Join(w, f, Listed(w, g, front))) && Within(Join(w, f, Listed(w, g, front)), es)
    requires e.id in n && n[e.id] == e && e.id !in Listed(w, g, front).kept
    ensures var h := Join(w, f, Listed(w, g, front + [e])); HasForm(w, AddCard(w, m, e), h) && Within(h, es)
  {
    var l := Listed(w, g, front);
    if e.id in g.kept {
      assert g.kept[e.id] == e && e in es;
      hide *;
      ListedKept(w, g, front, e, es);
      FormAdds(w, m, Join(w, f, l), e, es);
      JoinEnters(w, f, l, e);
    } else {
      var q :| q in g.copies && e.id == SlotId(w, q);
      assert e == ConflictCopy(w, q) && q in es;
      JoinCopies(w, f, l, q);
      hide *;
      ListedCopy(w, g, front, q, es);
      FormAddsCopy(w, m, Join(w, f, l), q, es);
    }
  }

  lemma JoinCopies(w: Coding, f: Form, g: Form, q: Entry)
    ensures Join(w, f, Form(g.kept, g.copies + {q})) == Form(Join(w, f, g).kept, Join(w, f, g).copies + {q})
  {
    hide JoinKept, JoinDisplaced;
    assert Join(w, f, Form(g.kept, g.copies + {q})).copies == Join(w, f, g).copies + {q};
  }

  lemma EnumerationIsAll(w: Coding, n: Slots, g: Form, xs: seq<Entry>)
    requires HasForm(w, n, g) && Enumerates(xs, n)
    ensures Listed(w, g, xs) == g
  {
    assert Listed(w, g, xs).kept == g.kept;
    forall q | q in g.copies ensures ConflictCopy(w, q) in xs {
      assert n[SlotId(w, q)] in xs;
    }
    assert Listed(w, g, xs).copies == g.copies;
  }

  lemma JoinOfMerges(w: Coding, m: Slots, f: Form, n: Slots, g: Form, xs: seq<Entry>, es: set<Entry>)
    requires Faithful(w) && SlotsFree(w, es) && HasForm(w, m, f) && HasForm(w, n, g) && Within(f, es) && Within(g, es)
    requires Enumerates(xs, n)
    ensures HasForm(w, AddAll(w, m, xs), Join(w, f, g)) && Within(Join(w, f, g), es)
  {
    assert DistinctIds(xs) && forall e | e in xs :: e.id in n && n[e.id] == e;
    hide *;
    EnumerationIsAll(w, n, g, xs);
    JoinAdds(w, m, f, n, g, xs, es);
  }

  // ---- Exactly when three collections associate --------------------------------------------------------

  /** `q` is absorbed by one of its two rivals and displaced by the other. */
  predicate Contested(w: Coding, q: Entry, p: Entry, r: Entry) {
    (Absorbs(w, p, q) && Displaces(w, r, q)) || (Absorbs(w, r, q) && Displaces(w, p, q))
  }

  /** The middle rival is not contested, nor an outer one whose other rivals meet the wrong way round. */
  predicate Associates(w: Coding, x: Entry, y: Entry, z: Entry) {
    && !Contested(w, y, x, z)
    && !(Contested(w, x, y, z) && Beats(w, z, y))
    && !(Contested(w, z, x, y) && Beats(w, x, y))
  }

  lemma BetterAssociates(w: Coding, x: Entry, y: Entry, z: Entry)
    requires Faithful(w)
    ensures Better(w, Better(w, x, y), z) == Better(w, x, Better(w, y, z))
  {
    BeatsTotal(w, x, y);
    BeatsTotal(w, y, z);
    BeatsTotal(w, x, z);
    hide Beats;
    if Beats(w, x, y) { BeatsAsymmetric(w, x, y); }
    if Beats(w, y, z) { BeatsAsymmetric(w, y, z); }
    if Beats(w, x, z) { BeatsAsymmetric(w, x, z); }
    if Beats(w, x, y) && Beats(w, y, z) { BeatsTransitive(w, x, y, z); }
    if Beats(w, z, y) && Beats(w, y, x) { BeatsTransitive(w, z, y, x); }
  }

  /** What the two groupings of three rivals preserve. */
  function LeftCopies(w: Coding, x: Entry, y: Entry, z: Entry): set<Entry> {
    Displaced(w, x, y) + Displaced(w, Better(w, x, y), z)
  }

  function RightCopies(w: Coding, x: Entry, y: Entry, z: Entry): set<Entry> {
    Displaced(w, x, Better(w, y, z)) + Displaced(w, y, z)
  }

  lemma CopiesAssociateIff(w: Coding, x: Entry, y: Entry, z: Entry)
    requires Faithful(w) && x.id == y.id == z.id
    ensures LeftCopies(w, x, y, z) == RightCopies(w, x, y, z) <==> Associates(w, x, y, z)
  {
    BeatsTotal(w, x, y);
    BeatsTotal(w, y, z);
    BeatsTotal(w, x, z);
    BeatsIrreflexive(w, x);
    BeatsIrreflexive(w, y);
    BeatsIrreflexive(w, z);
    if Beats(w, x, y) { BeatsAsymmetric(w, x, y); }
    if Beats(w, y, z) { BeatsAsymmetric(w, y, z); }
    if Beats(w, x, z) { BeatsAsymmetric(w, x, z); }
    if Beats(w, x, y) && Beats(w, y, z) { BeatsTransitive(w, x, y, z); }
    if Beats(w, z, y) && Beats(w, y, x) { BeatsTransitive(w, z, y, x); }
    if Beats(w, y, x) && Beats(w, x, z) { BeatsTransitive(w, y, x, z); }
    if Beats(w, z, x) && Beats(w, x, y) { BeatsTransitive(w, z, x, y); }
    if Beats(w, x, z) && Beats(w, z, y) { BeatsTransitive(w, x, z, y); }
    if Beats(w, y, z) && Beats(w, z, x) { BeatsTransitive(w, y, z, x); }
    BeatsPutsTombsFirst(w, x, y);
    BeatsPutsTombsFirst(w, y, z);
    BeatsPutsTombsFirst(w, x, z);
    hide Beats;
    var left, right := LeftCopies(w, x, y, z), RightCopies(w, x, y, z);
    assert left == right <==> (x in left <==> x in right) && (y in left <==> y in right) && (z in left <==> z in right);
  }

  lemma BeatsPutsTombsFirst(w: Coding, x: Entry, y: Entry)
    ensures Dead(x) && !Dead(y) ==> Beats(w, x, y) && !Beats(w, y, x)
    ensures Dead(y) && !Dead(x) ==> Beats(w, y, x) && !Beats(w, x, y)
  {
  }

  function Plain(a: Slots): Form {
    Form(a, {})
  }

  function LeftForm(w: Coding, a: Slots, b: Slots, c: Slots): Form {
    Join(w, Join(w, Plain(a), Plain(b)), Plain(c))
  }

  function RightForm(w: Coding, a: Slots, b: Slots, c: Slots): Form {
    Join(w, Plain(a), Join(w, Plain(b), Plain(c)))
  }

  lemma JoinKeptAt(w: Coding, a: Slots, b: Slots, i: string)
    ensures i in JoinKept(w, a, b) <==> i in a || i in b
    ensures i in a && i in b ==> JoinKept(w, a, b)[i] == Better(w, a[i], b[i])
    ensures i in a && i !in b ==> JoinKept(w, a, b)[i] == a[i]
    ensures i !in a && i in b ==> JoinKept(w, a, b)[i] == b[i]
  {
    hide Better;
  }

  lemma KeptAssociatesAt(w: Coding, a: Slots, b: Slots, c: Slots, i: string)
    requires Faithful(w)
    ensures var left, right := JoinKept(w, JoinKept(w, a, b), c), JoinKept(w, a, JoinKept(w, b, c));
            (i in left <==> i in right) && (i in left ==> left[i] == right[i])
  {
    hide *;
    JoinKeptAt(w, a, b, i);
    JoinKeptAt(w, b, c, i);
    JoinKeptAt(w, JoinKept(w, a, b), c, i);
    JoinKeptAt(w, a, JoinKept(w, b, c), i);
    if i in a && i in b && i in c {
      BetterAssociates(w, a[i], b[i], c[i]);
    }
  }

  lemma KeptAssociates(w: Coding, a: Slots, b: Slots, c: Slots)
    requires Faithful(w)
    ensures LeftForm(w, a, b, c).kept == RightForm(w, a, b, c).kept
  {
    var left, right := JoinKept(w, JoinKept(w, a, b), c), JoinKept(w, a, JoinKept(w, b, c));
    forall i: string
      ensures (i in left <==> i in right) && (i in left ==> left[i] == right[i])
    {
      KeptAssociatesAt(w, a, b, c, i);
    }
    hide JoinKept, JoinDisplaced;
  }

  lemma FormCopies(w: Coding, a: Slots, b: Slots, c: Slots)
    ensures LeftForm(w, a, b, c).copies == JoinDisplaced(w, a, b) + JoinDisplaced(w, JoinKept(w, a, b), c)
    ensures RightForm(w, a, b, c).copies == JoinDisplaced(w, b, c) + JoinDisplaced(w, a, JoinKept(w, b, c))
  {
    hide JoinKept, JoinDisplaced;
  }

  lemma SumOfTwo(w: Coding, x: Entry, y: Entry, z: Entry, q: Entry)
    ensures q in LeftCopies(w, x, y, z) <==> q in Displaced(w, x, y) || q in Displaced(w, Better(w, x, y), z)
    ensures q in RightCopies(w, x, y, z) <==> q in Displaced(w, x, Better(w, y, z)) || q in Displaced(w, y, z)
  {
    hide Displaced, Better;
  }

  /** The forms of the two groupings, entry by entry. */
  lemma CopiesAt(w: Coding, a: Slots, b: Slots, c: Slots, q: Entry)
    requires Faithful(w)
    ensures q.id in a && q.id in b && q.id in c ==>
              && (q in LeftForm(w, a, b, c).copies <==> q in LeftCopies(w, a[q.id], b[q.id], c[q.id]))
              && (q in RightForm(w, a, b, c).copies <==> q in RightCopies(w, a[q.id], b[q.id], c[q.id]))
    ensures !(q.id in a && q.id in b && q.id in c) ==>
              (q in LeftForm(w, a, b, c).copies <==> q in RightForm(w, a, b, c).copies)
  {
    hide *;
    FormCopies(w, a, b, c);
    InJoinDisplaced(w, a, b, q);
    InJoinDisplaced(w, b, c, q);
    InJoinDisplaced(w, JoinKept(w, a, b), c, q);
    InJoinDisplaced(w, a, JoinKept(w, b, c), q);
    JoinKeptAt(w, a, b, q.id);
    JoinKeptAt(w, b, c, q.id);
    if q.id in a && q.id in b && q.id in c {
      SumOfTwo(w, a[q.id], b[q.id], c[q.id], q);
    }
  }

  lemma AllOfOneId(w: Coding, x: Entry, y: Entry, z: Entry, q: Entry)
    requires Faithful(w) && x.id == y.id == z.id && (q in LeftCopies(w, x, y, z) || q in RightCopies(w, x, y, z))
    ensures q.id == x.id
  {
    hide *;
    SumOfTwo(w, x, y, z, q);
    RivalsAreSymmetric(w, x, y);
    RivalsAreSymmetric(w, y, z);
    RivalsAreSymmetric(w, Better(w, x, y), z);
    RivalsAreSymmetric(w, x, Better(w, y, z));
  }

  lemma EqualFormsAssociate(w: Coding, a: Slots, b: Slots, c: Slots, i: string)
    requires Faithful(w) && i in a && i in b && i in c && LeftForm(w, a, b, c) == RightForm(w, a, b, c)
    ensures Associates(w, a[i], b[i], c[i])
  {
    hide *;
    var x, y, z := a[i], b[i], c[i];
    forall q ensures q in LeftCopies(w, x, y, z) <==> q in RightCopies(w, x, y, z) {
      if q in LeftCopies(w, x, y, z) || q in RightCopies(w, x, y, z) {
        AllOfOneId(w, x, y, z, q);
        CopiesAt(w, a, b, c, q);
      }
    }
    CopiesAssociateIff(w, x, y, z);
  }

  lemma FormsAssociateIff(w: Coding, a: Slots, b: Slots, c: Slots)
    requires Faithful(w)
    ensures LeftForm(w, a, b, c) == RightForm(w, a, b, c) <==>
            forall i | i in a && i in b && i in c :: Associates(w, a[i], b[i], c[i])
  {
    hide *;
    if forall i | i in a && i in b && i in c :: Associates(w, a[i], b[i], c[i]) {
      KeptAssociates(w, a, b, c);
      forall q ensures q in LeftForm(w, a, b, c).copies <==> q in RightForm(w, a, b, c).copies {
        CopiesAt(w, a, b, c, q);
        if q.id in a && q.id in b && q.id in c {
          CopiesAssociateIff(w, a[q.id], b[q.id], c[q.id]);
        }
      }
    }
    if LeftForm(w, a, b, c) == RightForm(w, a, b, c) {
      forall i | i in a && i in b && i in c ensures Associates(w, a[i], b[i], c[i]) {
        EqualFormsAssociate(w, a, b, c, i);
      }
    }
  }

  lemma PlainForm(w: Coding, a: seq<Entry>, es: set<Entry>)
    requires Faithful(w) && DistinctIds(a) && Members(a) <= es
    ensures var m := AddAll(w, map[], a); HasForm(w, m, Plain(m)) && Within(Plain(m), es) && Enumerates(a, m)
  {
    forall e, f | e in a && f in a && e.id == f.id ensures e == f {
      var i :| 0 <= i < |a| && a[i] == e;
      var j :| 0 <= j < |a| && a[j] == f;
    }
    LoadingStores(w, a);
    hide AddAll;
    forall i | i in AddAll(w, map[], a) ensures AddAll(w, map[], a)[i] in es {
      assert AddAll(w, map[], a)[i] in Members(a);
    }
  }

  lemma ListingDetermines(es: seq<Entry>, m: Slots, n: Slots)
    requires Lists(es, m) && Lists(es, n)
    ensures m == n
  {
    forall i ensures i in m <==> i in n {
      assert i in m ==> m[i] in es;
      assert i in n ==> n[i] in es;
    }
    forall i | i in m ensures m[i] == n[i] {
      assert m[i] in es;
    }
  }

  /** Loading the listing of a collection gives the collection back. */
  lemma LoadingListing(w: Coding, es: seq<Entry>, m: Slots)
    requires Faithful(w) && Lists(es, m)
    ensures AddAll(w, map[], es) == m
  {
    LoadingStores(w, es);
    ListingDetermines(es, AddAll(w, map[], es), m);
  }

  lemma GroupedForms(w: Coding, a: seq<Entry>, b: seq<Entry>, c: seq<Entry>, ab: seq<Entry>, bc: seq<Entry>)
    requires Faithful(w) && SlotsFree(w, Members(a + b + c)) && DistinctIds(a) && DistinctIds(b) && DistinctIds(c)
    requires Enumerates(ab, AddAll(w, map[], a + b)) && Enumerates(bc, AddAll(w, map[], b + c))
    ensures var ma, mb, mc := AddAll(w, map[], a), AddAll(w, map[], b), AddAll(w, map[], c);
            var es := Members(a + b + c);
            && HasForm(w, AddAll(w, map[], ab + c), LeftForm(w, ma, mb, mc)) && Within(LeftForm(w, ma, mb, mc), es)
            && HasForm(w, AddAll(w, map[], a + bc), RightForm(w, ma, mb, mc)) && Within(RightForm(w, ma, mb, mc), es)
            && Enumerates(a, ma) && Enumerates(b, mb) && Enumerates(c, mc)
  {
    var es := Members(a + b + c);
    assert Members(a) <= es && Members(b) <= es && Members(c) <= es;
    assert Lists(ab, AddAll(w, map[], a + b));
    assert forall x, y, z :: LeftForm(w, x, y, z) == Join(w, Join(w, Plain(x), Plain(y)), Plain(z));
    assert forall x, y, z :: RightForm(w, x, y, z) == Join(w, Plain(x), Join(w, Plain(y), Plain(z)));
    hide *;
    PlainForm(w, a, es);
    PlainForm(w, b, es);
    PlainForm(w, c, es);
    var ma, mb, mc := AddAll(w, map[], a), AddAll(w, map[], b), AddAll(w, map[], c);
    AddAllConcat(w, map[], a, b);
    JoinOfMerges(w, ma, Plain(ma), mb, Plain(mb), b, es);
    LoadingListing(w, ab, AddAll(w, map[], a + b));
    AddAllConcat(w, map[], ab, c);
    JoinOfMerges(w, AddAll(w, map[], a + b), Join(w, Plain(ma), Plain(mb)), mc, Plain(mc), c, es);
    AddAllConcat(w, map[], b, c);
    JoinOfMerges(w, mb, Plain(mb), mc, Plain(mc), c, es);
    AddAllConcat(w, map[], a, bc);
    JoinOfMerges(w, ma, Plain(ma), AddAll(w, map[], b + c), Join(w, Plain(mb), Plain(mc)), bc, es);
  }

  /** The merge is documented as associative. Three collections whose conflict slots are free
      associate - in whatever order the merges in between are listed - if and only if every three
      entries of one id do. */
  lemma AssociativeIff(w: Coding, a: seq<Entry>, b: seq<Entry>, c: seq<Entry>, ab: seq<Entry>, bc: seq<Entry>)
    requires Faithful(w) && SlotsFree(w, Members(a + b + c)) && DistinctIds(a) && DistinctIds(b) && DistinctIds(c)
    requires Enumerates(ab, AddAll(w, map[], a + b)) && Enumerates(bc, AddAll(w, map[], b + c))
    ensures AddAll(w, map[], ab + c) == AddAll(w, map[], a + bc) <==>
            forall x, y, z | x in a && y in b && z in c && x.id == y.id == z.id :: Associates(w, x, y, z)
  {
    var ma, mb, mc := AddAll(w, map[], a), AddAll(w, map[], b), AddAll(w, map[], c);
    hide SlotsFree, AddAll, HasForm, Within, LeftForm, RightForm, Associates, DistinctIds;
    GroupedForms(w, a, b, c, ab, bc);
    FormsAssociateIff(w, ma, mb, mc);
    FormDetermines(w, AddAll(w, map[], ab + c), LeftForm(w, ma, mb, mc),
                   AddAll(w, map[], a + bc), RightForm(w, ma, mb, mc), Members(a + b + c));
    EntriesById(w, a, ma, b, mb, c, mc);
  }

  lemma EntriesById(w: Coding, a: seq<Entry>, ma: Slots, b: seq<Entry>, mb: Slots, c: seq<Entry>, mc: Slots)
    requires Enumerates(a, ma) && Enumerates(b, mb) && Enumerates(c, mc)
    ensures (forall i | i in ma && i in mb && i in mc :: Associates(w, ma[i], mb[i], mc[i])) <==>
            forall x, y, z | x in a && y in b && z in c && x.id == y.id == z.id :: Associates(w, x, y, z)
  {
    hide Associates, DistinctIds;
    if forall x, y, z | x in a && y in b && z in c && x.id == y.id == z.id :: Associates(w, x, y, z) {
      forall i | i in ma && i in mb && i in mc ensures Associates(w, ma[i], mb[i], mc[i]) {
        assert ma[i] in a && mb[i] in b && mc[i] in c;
      }
    }
  }
}
