/** Exactly when two collections commute that hold entries in each other's conflict slots. */
module MergeSlots {
  import opened Wrappers
  import opened Strings
  import opened ConvergentMerge
  import opened MergeOrder

  // ---- Parts of a collection that do not meet ------------------------------------------------------

  lemma {:induction false} KeysGrow(w: Coding, m: Slots, e: Entry)
    ensures m.Keys + {e.id} <= AddCard(w, m, e).Keys
    decreases |KeysFrom(m, |e.id|)|
  {
    if e.id in m {
      AddedRival(w, m, e);
      var r := Combine(w, m[e.id], e);
      hide Combine;
      if r.displaced.Some? {
        KeysShrink(m, e.id, r.keep, r.displaced.value.id);
        KeysGrow(w, m[e.id := r.keep], r.displaced.value);
      }
    }
  }

  lemma {:induction false} KeysGrowAll(w: Coding, m: Slots, es: seq<Entry>)
    ensures m.Keys <= AddAll(w, m, es).Keys
  {
    if es != [] {
      KeysGrowAll(w, m, es[..|es| - 1]);
      KeysGrow(w, AddAll(w, m, es[..|es| - 1]), es[|es| - 1]);
      hide AddCard;
    }
  }

  /** Two collections without a common id, as one. */
  function Both(low: Slots, up: Slots): Slots {
    low + up
  }

  lemma BothAt(low: Slots, up: Slots, i: string)
    ensures i in Both(low, up) <==> i in low || i in up
    ensures i in up ==> Both(low, up)[i] == up[i]
    ensures i in low && i !in up ==> Both(low, up)[i] == low[i]
  {
  }

  lemma BothUp(low: Slots, up: Slots, i: string, e: Entry)
    requires e.id == i && i !in low
    ensures Both(low, up)[i := e] == Both(low, up[i := e])
  {
  }

  lemma BothLow(low: Slots, up: Slots, i: string, e: Entry)
    requires e.id == i && i !in up
    ensures Both(low, up)[i := e] == Both(low[i := e], up)
  {
  }

  lemma AddedNew(w: Coding, m: Slots, e: Entry)
    requires e.id !in m
    ensures AddCard(w, m, e) == m[e.id := e]
  {
  }

  /** What never reaches the slots of `low` does not notice them. */
  lemma {:induction false} AddsBeside(w: Coding, low: Slots, m: Slots, e: Entry)
    requires low.Keys !! AddCard(w, m, e).Keys
    ensures AddCard(w, Both(low, m), e) == Both(low, AddCard(w, m, e))
    decreases |KeysFrom(m, |e.id|)|
  {
    hide *;
    KeysGrow(w, m, e);
    BothAt(low, m, e.id);
    if e.id in m {
      AddedRival(w, m, e);
      AddedRival(w, Both(low, m), e);
      var r := Combine(w, m[e.id], e);
      BothUp(low, m, e.id, r.keep);
      if r.displaced.Some? {
        KeysShrink(m, e.id, r.keep, r.displaced.value.id);
        AddsBeside(w, low, m[e.id := r.keep], r.displaced.value);
      }
    } else {
      AddedNew(w, m, e);
      AddedNew(w, Both(low, m), e);
      BothUp(low, m, e.id, e);
    }
  }

  // ---- Loading a collection that does not touch the slots above --------------------------------------

  function CopyOf(w: Coding, x: Entry, y: Entry): seq<Entry> {
    if Displaces(w, x, y) then [ConflictCopy(w, y)] else if Displaces(w, y, x) then [ConflictCopy(w, x)] else []
  }

  lemma CopyOfIs(w: Coding, x: Entry, y: Entry)
    requires x.id == y.id
    ensures Displaced(w, x, y) == {} ==> CopyOf(w, x, y) == []
    ensures forall q | q in Displaced(w, x, y) :: CopyOf(w, x, y) == [ConflictCopy(w, q)] && Displaced(w, x, y) == {q}
    ensures forall q | q in Displaced(w, x, y) :: q in {x, y}
  {
    hide Displaces, ConflictCopy;
  }

  /** What adding `e` to the loaded collection `low` copies. */
  function CopiesBy(w: Coding, low: Slots, e: Entry): seq<Entry> {
    if e.id in low then CopyOf(w, low[e.id], e) else []
  }

  function KeptBy(w: Coding, low: Slots, e: Entry): (k: Entry)
    ensures k.id == e.id
  {
    if e.id in low then BetterOf(w, low[e.id], e) else e
  }

  lemma KeptByRival(w: Coding, low: Slots, e: Entry)
    ensures e.id in low ==> KeptBy(w, low, e) == Better(w, low[e.id], e) && CopiesBy(w, low, e) == CopyOf(w, low[e.id], e)
    ensures e.id !in low ==> KeptBy(w, low, e) == e && CopiesBy(w, low, e) == []
  {
    hide Better, CopyOf;
  }

  lemma AddsLow(w: Coding, low: Slots, up: Slots, e: Entry)
    requires Faithful(w) && (low.Keys + {e.id}) !! AddAll(w, up, CopiesBy(w, low, e)).Keys
    ensures AddCard(w, Both(low, up), e) == Both(low[e.id := KeptBy(w, low, e)], AddAll(w, up, CopiesBy(w, low, e)))
  {
    AddAllNone(w, up);
    hide *;
    KeysGrowAll(w, up, CopiesBy(w, low, e));
    KeptByRival(w, low, e);
    BothAt(low, up, e.id);
    BothLow(low, up, e.id, KeptBy(w, low, e));
    if e.id in low {
      var k, copies := low[e.id], CopiesBy(w, low, e);
      RivalOutcome(w, k, e);
      CopyOfIs(w, k, e);
      AddedRival(w, Both(low, up), e);
      if Displaced(w, k, e) != {} {
        var q :| q in {k, e} && Displaced(w, k, e) == {q} && Combine(w, k, e).displaced == Some(ConflictCopy(w, q));
        AddsOneBeside(w, low[e.id := KeptBy(w, low, e)], up, ConflictCopy(w, q));
      }
    } else {
      AddedNew(w, Both(low, up), e);
    }
  }

  lemma AddAllNone(w: Coding, m: Slots)
    ensures AddAll(w, m, []) == m
  {
  }

  lemma AddsOneBeside(w: Coding, low: Slots, m: Slots, e: Entry)
    requires low.Keys !! AddAll(w, m, [e]).Keys
    ensures AddCard(w, Both(low, m), e) == Both(low, AddAll(w, m, [e]))
  {
    assert [e][..0] == [] && AddAll(w, m, [e]) == AddCard(w, AddAll(w, m, []), e);
    AddAllNone(w, m);
    hide *;
    AddsBeside(w, low, m, e);
  }

  lemma LastAdded(w: Coding, m: Slots, front: seq<Entry>, e: Entry)
    ensures AddAll(w, m, front + [e]) == AddCard(w, AddAll(w, m, front), e)
  {
    assert (front + [e])[..|front|] == front;
    hide AddCard;
  }

  lemma LoadedLists(w: Coding, es: seq<Entry>)
    requires Faithful(w) && DistinctIds(es)
    ensures Enumerates(es, AddAll(w, map[], es))
  {
    hide AddAll;
    PlainForm(w, es, Members(es));
  }

  lemma LoadsOneMore(w: Coding, front: seq<Entry>, e: Entry)
    requires Faithful(w) && DistinctIds(front + [e])
    ensures DistinctIds(front) && e.id !in AddAll(w, map[], front)
    ensures AddAll(w, map[], front + [e]) == AddAll(w, map[], front)[e.id := e]
  {
    DistinctFront(front, e);
    LoadedLists(w, front);
    LastAdded(w, map[], front, e);
    hide AddAll, DistinctIds;
    var m := AddAll(w, map[], front);
    forall i | i in m ensures i != e.id {
      assert m[i] in front;
    }
    AddedNew(w, m, e);
  }

  lemma JoinKeptNext(w: Coding, low: Slots, m: Slots, e: Entry)
    requires e.id !in m
    ensures JoinKept(w, low, m[e.id := e]) == JoinKept(w, low, m)[e.id := KeptBy(w, low, e)]
    ensures KeptBy(w, JoinKept(w, low, m), e) == KeptBy(w, low, e)
    ensures CopiesBy(w, JoinKept(w, low, m), e) == CopiesBy(w, low, e)
    ensures JoinKept(w, low, m).Keys == low.Keys + m.Keys
  {
    JoinKeptEnters(w, low, m, e);
    hide Better, CopyOf;
  }

  lemma AddsNextLow(w: Coding, low: Slots, m: Slots, up: Slots, e: Entry)
    requires Faithful(w) && e.id !in m
    requires (low.Keys + m.Keys + {e.id}) !! AddAll(w, up, CopiesBy(w, low, e)).Keys
    ensures AddCard(w, Both(JoinKept(w, low, m), up), e) == Both(JoinKept(w, low, m[e.id := e]), AddAll(w, up, CopiesBy(w, low, e)))
  {
    hide *;
    JoinKeptNext(w, low, m, e);
    AddsLow(w, JoinKept(w, low, m), up, e);
  }

  // ---- A merge in two layers -------------------------------------------------------------------------

  /** The entries of a listing outside the given conflict slots. */
  function Low(es: seq<Entry>, slots: set<string>): seq<Entry> {
    if es == [] then []
    else Low(es[..|es| - 1], slots) + if es[|es| - 1].id in slots then [] else [es[|es| - 1]]
  }

  /** What reaches the slots when a listing is added to the loaded collection `low`. */
  function UpsInTurn(w: Coding, low: Slots, es: seq<Entry>, slots: set<string>): seq<Entry> {
    if es == [] then []
    else UpsInTurn(w, low, es[..|es| - 1], slots) + UpsBy(w, low, es[|es| - 1], slots)
  }

  function UpsBy(w: Coding, low: Slots, e: Entry, slots: set<string>): seq<Entry> {
    if e.id in slots then [e] else CopiesBy(w, low, e)
  }

  lemma LowOfLast(front: seq<Entry>, e: Entry, slots: set<string>)
    ensures Low(front + [e], slots) == if e.id in slots then Low(front, slots) else Low(front, slots) + [e]
  {
    assert (front + [e])[..|front|] == front;
  }

  lemma UpsOfLast(w: Coding, low: Slots, front: seq<Entry>, e: Entry, slots: set<string>)
    ensures UpsInTurn(w, low, front + [e], slots) == UpsInTurn(w, low, front, slots) + UpsBy(w, low, e, slots)
  {
    assert (front + [e])[..|front|] == front;
    hide UpsBy;
  }

  lemma UpsInTwoSteps(w: Coding, low: Slots, up: Slots, front: seq<Entry>, e: Entry, slots: set<string>)
    ensures AddAll(w, up, UpsInTurn(w, low, front + [e], slots)) ==
              AddAll(w, AddAll(w, up, UpsInTurn(w, low, front, slots)), UpsBy(w, low, e, slots))
    ensures AddAll(w, up, UpsInTurn(w, low, front, slots)).Keys <= AddAll(w, up, UpsInTurn(w, low, front + [e], slots)).Keys
  {
    hide *;
    UpsOfLast(w, low, front, e, slots);
    AddAllConcat(w, up, UpsInTurn(w, low, front, slots), UpsBy(w, low, e, slots));
    KeysGrowAll(w, AddAll(w, up, UpsInTurn(w, low, front, slots)), UpsBy(w, low, e, slots));
  }

  lemma NothingAdded(w: Coding, low: Slots, up: Slots, slots: set<string>)
    ensures AddAll(w, Both(low, up), []) == Both(JoinKept(w, low, AddAll(w, map[], Low([], slots))), AddAll(w, up, UpsInTurn(w, low, [], slots)))
    ensures AddAll(w, map[], Low([], slots)) == map[]
  {
    assert JoinKept(w, low, map[]) == low;
  }

  lemma UpsByLow(w: Coding, low: Slots, e: Entry, slots: set<string>)
    ensures e.id in slots ==> UpsBy(w, low, e, slots) == [e]
    ensures e.id !in slots ==> UpsBy(w, low, e, slots) == CopiesBy(w, low, e)
  {
    hide CopiesBy;
  }

  /** Adding a listing merges the rivals below, and adds above what reaches the slots. */
  lemma {:induction false} AddsInLayers(w: Coding, low: Slots, up: Slots, es: seq<Entry>, slots: set<string>, ids: set<string>)
    requires Faithful(w) && DistinctIds(Low(es, slots)) && low.Keys <= ids && forall e | e in es && e.id !in slots :: e.id in ids
    requires ids !! AddAll(w, up, UpsInTurn(w, low, es, slots)).Keys
    ensures AddAll(w, Both(low, up), es) ==
              Both(JoinKept(w, low, AddAll(w, map[], Low(es, slots))), AddAll(w, up, UpsInTurn(w, low, es, slots)))
    ensures AddAll(w, map[], Low(es, slots)).Keys <= ids
  {
    hide *;
    if es == [] {
      NothingAdded(w, low, up, slots);
    } else {
      var front, e := es[..|es| - 1], es[|es| - 1];
      assert es == front + [e];
      LowOfLast(front, e, slots);
      UpsInTwoSteps(w, low, up, front, e, slots);
      UpsByLow(w, low, e, slots);
      LastAdded(w, Both(low, up), front, e);
      var ups := AddAll(w, up, UpsInTurn(w, low, front, slots));
      if e.id in slots {
        AddsInLayers(w, low, up, front, slots, ids);
        JoinKeptIds(w, low, AddAll(w, map[], Low(front, slots)));
        AddsOneBeside(w, JoinKept(w, low, AddAll(w, map[], Low(front, slots))), ups, e);
      } else {
        LoadsOneMore(w, Low(front, slots), e);
        AddsInLayers(w, low, up, front, slots, ids);
        AddsNextLow(w, low, AddAll(w, map[], Low(front, slots)), ups, e);
      }
    }
  }

  lemma JoinKeptIds(w: Coding, a: Slots, b: Slots)
    ensures JoinKept(w, a, b).Keys == a.Keys + b.Keys
  {
    hide BetterOf;
  }

  // ---- One conflict slot at a time -------------------------------------------------------------------

  function Slice(us: seq<Entry>, i: string): seq<Entry> {
    if us == [] then []
    else Slice(us[..|us| - 1], i) + if us[|us| - 1].id == i then [us[|us| - 1]] else []
  }

  lemma SliceOfLast(front: seq<Entry>, e: Entry, i: string)
    ensures Slice(front + [e], i) == if e.id == i then Slice(front, i) + [e] else Slice(front, i)
  {
    assert (front + [e])[..|front|] == front;
  }

  lemma {:induction false} SliceConcat(us: seq<Entry>, vs: seq<Entry>, i: string)
    ensures Slice(us + vs, i) == Slice(us, i) + Slice(vs, i)
  {
    if vs == [] {
      assert us + vs == us;
    } else {
      var front, e := vs[..|vs| - 1], vs[|vs| - 1];
      assert us + vs == (us + front) + [e] && vs == front + [e];
      SliceConcat(us, front, i);
      SliceOfLast(us + front, e, i);
      SliceOfLast(front, e, i);
      hide Slice;
    }
  }

  ghost predicate SameAt(f: Form, g: Form, i: string) {
    && (i in f.kept <==> i in g.kept) && (i in f.kept ==> f.kept[i] == g.kept[i])
    && forall q: Entry | q.id == i :: q in f.copies <==> q in g.copies
  }

  /** The form speaks of one id only. */
  ghost predicate OnlyAt(f: Form, i: string) {
    (forall j | j in f.kept :: j == i) && forall q | q in f.copies :: q.id == i
  }

  lemma EnterAt(w: Coding, f: Form, g: Form, e: Entry, i: string)
    requires Faithful(w) && SameAt(f, g, i) && OnlyAt(g, i)
    ensures e.id == i ==> SameAt(Enter(w, f, e), Enter(w, g, e), i) && OnlyAt(Enter(w, g, e), i)
    ensures e.id != i ==> SameAt(Enter(w, f, e), g, i)
  {
    if e.id in f.kept {
      RivalsAreSymmetric(w, f.kept[e.id], e);
    }
    hide Displaced, Better;
  }

  lemma EnterLast(w: Coding, f: Form, front: seq<Entry>, e: Entry)
    ensures EnterAll(w, f, front + [e]) == Enter(w, EnterAll(w, f, front), e)
  {
    assert (front + [e])[..|front|] == front;
    hide Enter;
  }

  /** What happens at an id depends on what arrives there, in turn. */
  lemma {:induction false} Sliced(w: Coding, us: seq<Entry>, i: string)
    requires Faithful(w)
    ensures SameAt(EnterAll(w, Empty, us), EnterAll(w, Empty, Slice(us, i)), i) && OnlyAt(EnterAll(w, Empty, Slice(us, i)), i)
  {
    if us != [] {
      var front, e := us[..|us| - 1], us[|us| - 1];
      assert us == front + [e];
      hide *;
      Sliced(w, front, i);
      SliceOfLast(front, e, i);
      EnterLast(w, Empty, front, e);
      EnterLast(w, Empty, Slice(front, i), e);
      EnterAt(w, EnterAll(w, Empty, front), EnterAll(w, Empty, Slice(front, i)), e, i);
    }
  }

  lemma SameEverywhere(f: Form, g: Form)
    requires forall i: string :: SameAt(f, g, i)
    ensures f == g
  {
    forall i: string ensures (i in f.kept <==> i in g.kept) && (i in f.kept ==> f.kept[i] == g.kept[i]) {
      assert SameAt(f, g, i);
    }
    forall q ensures q in f.copies <==> q in g.copies {
      assert SameAt(f, g, q.id);
    }
    assert f.kept == g.kept && f.copies == g.copies;
  }

  lemma SameWhereItSpeaks(f: Form, g: Form, i: string)
    requires SameAt(f, g, i) && OnlyAt(f, i) && OnlyAt(g, i)
    ensures f == g
  {
    assert f.kept == g.kept && f.copies == g.copies;
  }

  lemma SameAtThrough(f: Form, f': Form, g: Form, g': Form, i: string)
    requires SameAt(f, f', i) && SameAt(g, g', i)
    ensures SameAt(f, g, i) <==> SameAt(f', g', i)
  {
  }

  lemma SameAtItself(f: Form, i: string)
    ensures SameAt(f, f, i)
  {
  }

  /** What arrives at `i` leads to the same outcome there. */
  ghost predicate SlicesAgree(w: Coding, us: seq<Entry>, vs: seq<Entry>, i: string) {
    EnterAll(w, Empty, Slice(us, i)) == EnterAll(w, Empty, Slice(vs, i))
  }

  lemma SameAtIff(w: Coding, us: seq<Entry>, vs: seq<Entry>, i: string)
    requires Faithful(w)
    ensures SameAt(EnterAll(w, Empty, us), EnterAll(w, Empty, vs), i) <==> SlicesAgree(w, us, vs, i)
  {
    var f, g := EnterAll(w, Empty, Slice(us, i)), EnterAll(w, Empty, Slice(vs, i));
    assert SlicesAgree(w, us, vs, i) <==> f == g;
    hide *;
    Sliced(w, us, i);
    Sliced(w, vs, i);
    SameAtThrough(EnterAll(w, Empty, us), f, EnterAll(w, Empty, vs), g, i);
    SameAtItself(f, i);
    if SameAt(f, g, i) {
      SameWhereItSpeaks(f, g, i);
    }
  }

  lemma FormsBySlice(w: Coding, us: seq<Entry>, vs: seq<Entry>)
    requires Faithful(w)
    ensures EnterAll(w, Empty, us) == EnterAll(w, Empty, vs) <==> forall i :: SlicesAgree(w, us, vs, i)
  {
    hide *;
    var f, g := EnterAll(w, Empty, us), EnterAll(w, Empty, vs);
    forall i ensures SameAt(f, g, i) <==> SlicesAgree(w, us, vs, i) {
      SameAtIff(w, us, vs, i);
    }
    if forall i :: SlicesAgree(w, us, vs, i) {
      SameEverywhere(f, g);
    }
    if f == g {
      forall i ensures SlicesAgree(w, us, vs, i) {
        SameAtItself(f, i);
      }
    }
  }

  // ---- Three entries in one slot ---------------------------------------------------------------------

  lemma EnterThree(w: Coding, x: Entry, y: Entry, z: Entry)
    requires Faithful(w) && x.id == y.id == z.id
    ensures EnterAll(w, Empty, [x, y, z]) == Form(map[x.id := BetterOf(w, BetterOf(w, x, y), z)], LeftCopies(w, x, y, z))
  {
    EnterTwo(w, x, y);
    EnterLast(w, Empty, [x, y], z);
    assert [x, y] + [z] == [x, y, z];
    hide Displaced, Better, EnterAll;
    assert map[x.id := BetterOf(w, x, y)][z.id := BetterOf(w, BetterOf(w, x, y), z)] == map[x.id := BetterOf(w, BetterOf(w, x, y), z)];
  }

  lemma FirstTwoSwap(w: Coding, x: Entry, y: Entry, z: Entry)
    requires Faithful(w) && x.id == y.id == z.id
    ensures EnterAll(w, Empty, [x, y, z]) == EnterAll(w, Empty, [y, x, z])
    ensures EnterAll(w, Empty, [x, y]) == EnterAll(w, Empty, [y, x])
  {
    EnterThree(w, x, y, z);
    EnterThree(w, y, x, z);
    EnterTwo(w, x, y);
    EnterTwo(w, y, x);
    RivalsAreSymmetric(w, x, y);
    hide Displaced, Better, EnterAll;
  }

  lemma MirroredCopies(w: Coding, x: Entry, y: Entry, z: Entry)
    requires Faithful(w)
    ensures LeftCopies(w, z, y, x) == RightCopies(w, x, y, z)
    ensures Better(w, Better(w, z, y), x) == Better(w, Better(w, x, y), z)
  {
    RivalsAreSymmetric(w, z, y);
    RivalsAreSymmetric(w, Better(w, z, y), x);
    BetterAssociates(w, x, y, z);
    hide Displaced, Better;
  }

  lemma OuterTwoSwapIff(w: Coding, x: Entry, y: Entry, z: Entry)
    requires Faithful(w) && x.id == y.id == z.id
    ensures EnterAll(w, Empty, [x, y, z]) == EnterAll(w, Empty, [z, y, x]) <==> Associates(w, x, y, z)
  {
    EnterThree(w, x, y, z);
    EnterThree(w, z, y, x);
    MirroredCopies(w, x, y, z);
    CopiesAssociateIff(w, x, y, z);
    hide LeftCopies, RightCopies, Better, EnterAll, Associates;
  }

  /** `p` is listed on one side and `q` on the other, and the copy `c` comes between them - unless
      `p` or `q` is listed before the rival that makes it. */
  predicate Agree(w: Coding, p: Entry, c: Entry, q: Entry, pIsLater: bool, qIsLater: bool) {
    if pIsLater && qIsLater then Associates(w, p, c, q)
    else if qIsLater then Associates(w, c, p, q)
    else if pIsLater then Associates(w, p, q, c)
    else true
  }

  lemma ThreeMeetIff(w: Coding, p: Entry, c: Entry, q: Entry, pIsLater: bool, qIsLater: bool)
    requires Faithful(w) && p.id == c.id == q.id
    ensures EnterAll(w, Empty, [p] + if qIsLater then [c, q] else [q, c]) == EnterAll(w, Empty, [q] + if pIsLater then [c, p] else [p, c]) <==>
            Agree(w, p, c, q, pIsLater, qIsLater)
  {
    assert [p] + [c, q] == [p, c, q] && [p] + [q, c] == [p, q, c] && [q] + [c, p] == [q, c, p] && [q] + [p, c] == [q, p, c];
    assert Agree(w, p, c, q, pIsLater, qIsLater) <==>
           (if pIsLater && qIsLater then Associates(w, p, c, q) else if qIsLater then Associates(w, c, p, q)
            else if pIsLater then Associates(w, p, q, c) else true);
    hide *;
    OuterTwoSwapIff(w, p, c, q);
    OuterTwoSwapIff(w, c, p, q);
    OuterTwoSwapIff(w, p, q, c);
    FirstTwoSwap(w, p, c, q);
    FirstTwoSwap(w, p, q, c);
    FirstTwoSwap(w, q, c, p);
  }

  // ---- Who meets whom in a slot ----------------------------------------------------------------------

  ghost predicate Names(es: seq<Entry>, i: string) {
    exists e :: e in es && e.id == i
  }

  /** An entry of id `i` is listed before one of id `j`. */
  ghost predicate Precedes(es: seq<Entry>, i: string, j: string) {
    exists m, n :: 0 <= m < n < |es| && es[m].id == i && es[n].id == j
  }

  lemma NamesLast(front: seq<Entry>, e: Entry, i: string)
    ensures Names(front + [e], i) <==> Names(front, i) || e.id == i
  {
    if Names(front, i) {
      var x :| x in front && x.id == i;
      assert x in front + [e];
    }
    assert e in front + [e];
  }

  lemma PrecedesLast(front: seq<Entry>, e: Entry, i: string, j: string)
    ensures Precedes(front + [e], i, j) <==> Precedes(front, i, j) || (Names(front, i) && e.id == j)
  {
    var es := front + [e];
    if Precedes(es, i, j) {
      var m, n :| 0 <= m < n < |es| && es[m].id == i && es[n].id == j;
      assert es[m] == front[m] && front[m] in front;
      assert n < |front| ==> es[n] == front[n];
    }
    if Precedes(front, i, j) {
      var m, n :| 0 <= m < n < |front| && front[m].id == i && front[n].id == j;
      assert es[m] == front[m] && es[n] == front[n];
    }
    if Names(front, i) && e.id == j {
      var x :| x in front && x.id == i;
      var m :| 0 <= m < |front| && front[m] == x;
      assert es[m] == x && es[|front|] == e;
    }
  }

  lemma DistinctFront(front: seq<Entry>, e: Entry)
    requires DistinctIds(front + [e])
    ensures DistinctIds(front) && !Names(front, e.id)
  {
    forall i, j | 0 <= i < j < |front| ensures front[i].id != front[j].id {
      assert (front + [e])[i].id != (front + [e])[j].id;
    }
    forall x | x in front ensures x.id != e.id {
      var i :| 0 <= i < |front| && front[i] == x;
      assert (front + [e])[i] == x && (front + [e])[|front|] == e;
    }
  }

  lemma {:induction false} SliceOfListing(es: seq<Entry>, i: string)
    requires DistinctIds(es)
    ensures !Names(es, i) ==> Slice(es, i) == []
    ensures forall e | e in es && e.id == i :: Slice(es, i) == [e]
  {
    if es != [] {
      var front, e := es[..|es| - 1], es[|es| - 1];
      assert es == front + [e];
      DistinctFront(front, e);
      NamesLast(front, e, i);
      SliceOfLast(front, e, i);
      hide Slice, DistinctIds;
      SliceOfListing(front, i);
      assert forall x | x in es && x.id == i :: x == e || x in front;
    }
  }

  /** What reaches slot `i` while `es` is added: its own entry, and the copy of `d` when the rival
      that displaces it, or that it loses to, is added. */
  function Meeting(w: Coding, es: seq<Entry>, i: string, d: Entry): seq<Entry> {
    if es == [] then []
    else Meeting(w, es[..|es| - 1], i, d) + MeetingBy(w, es[|es| - 1], i, d)
  }

  function MeetingBy(w: Coding, e: Entry, i: string, d: Entry): seq<Entry> {
    if e.id == i then [e] else if e.id == d.id then [ConflictCopy(w, d)] else []
  }

  lemma MeetingOfLast(w: Coding, front: seq<Entry>, e: Entry, i: string, d: Entry)
    ensures Meeting(w, front + [e], i, d) == Meeting(w, front, i, d) + MeetingBy(w, e, i, d)
  {
    assert (front + [e])[..|front|] == front;
    hide MeetingBy;
  }

  function InOrder(c: Entry, q: Entry, qIsLater: bool): seq<Entry> {
    if qIsLater then [c, q] else [q, c]
  }

  lemma {:induction false} OnlyTheCopy(w: Coding, es: seq<Entry>, i: string, d: Entry)
    requires DistinctIds(es) && !Names(es, i)
    ensures Meeting(w, es, i, d) == if Names(es, d.id) then [ConflictCopy(w, d)] else []
  {
    if es != [] {
      var front, e := es[..|es| - 1], es[|es| - 1];
      assert es == front + [e];
      hide DistinctIds, Meeting, ConflictCopy, Names;
      DistinctFront(front, e);
      NamesLast(front, e, i);
      NamesLast(front, e, d.id);
      MeetingOfLast(w, front, e, i, d);
      OnlyTheCopy(w, front, i, d);
    }
  }

  lemma NamedBy(es: seq<Entry>, q: Entry)
    requires q in es
    ensures Names(es, q.id)
  {
  }

  lemma PrecedesNames(es: seq<Entry>, i: string, j: string)
    requires Precedes(es, i, j)
    ensures Names(es, i) && Names(es, j)
  {
    var m, n :| 0 <= m < n < |es| && es[m].id == i && es[n].id == j;
    assert es[m] in es && es[n] in es;
  }

  lemma InOrderIs(c: Entry, q: Entry)
    ensures InOrder(c, q, true) == [c] + [q] && InOrder(c, q, false) == [q] + [c]
    ensures [] + [q] == [q] && [q] + [] == [q]
    ensures InOrder(c, q, true) + [] == InOrder(c, q, true) && InOrder(c, q, false) + [] == InOrder(c, q, false)
  {
  }

  lemma MeetingByIs(w: Coding, e: Entry, i: string, d: Entry)
    ensures e.id == i ==> MeetingBy(w, e, i, d) == [e]
    ensures e.id != i && e.id == d.id ==> MeetingBy(w, e, i, d) == [ConflictCopy(w, d)]
    ensures e.id != i && e.id != d.id ==> MeetingBy(w, e, i, d) == []
  {
    hide ConflictCopy;
  }

  lemma MeetsLast(w: Coding, front: seq<Entry>, i: string, d: Entry, q: Entry)
    requires DistinctIds(front + [q]) && d.id != i && q.id == i
    ensures Meeting(w, front + [q], i, d) ==
              if Names(front + [q], d.id) then InOrder(ConflictCopy(w, d), q, Precedes(front + [q], d.id, i)) else [q]
  {
    hide *;
    DistinctFront(front, q);
    NamesLast(front, q, d.id);
    PrecedesLast(front, q, d.id, i);
    MeetingOfLast(w, front, q, i, d);
    MeetingByIs(w, q, i, d);
    OnlyTheCopy(w, front, i, d);
    InOrderIs(ConflictCopy(w, d), q);
    if Precedes(front, d.id, i) {
      PrecedesNames(front, d.id, i);
    }
  }

  lemma {:induction false} BothMeet(w: Coding, es: seq<Entry>, i: string, d: Entry, q: Entry)
    requires DistinctIds(es) && d.id != i && q in es && q.id == i
    ensures Meeting(w, es, i, d) == if Names(es, d.id) then InOrder(ConflictCopy(w, d), q, Precedes(es, d.id, i)) else [q]
  {
    hide *;
    var front, e := es[..|es| - 1], es[|es| - 1];
    assert es == front + [e];
    if q in front {
      DistinctFront(front, e);
      NamedBy(front, q);
      NamesLast(front, e, d.id);
      PrecedesLast(front, e, d.id, i);
      MeetingOfLast(w, front, e, i, d);
      MeetingByIs(w, e, i, d);
      BothMeet(w, front, i, d, q);
      InOrderIs(ConflictCopy(w, d), q);
      if Precedes(front, d.id, i) {
        PrecedesNames(front, d.id, i);
      }
    } else {
      MeetsLast(w, front, i, d, q);
    }
  }

  // ---- What a merge displaces, and where it goes ---------------------------------------------------

  ghost function CopiesOf(w: Coding, ds: set<Entry>): set<Entry> {
    set d | d in ds :: ConflictCopy(w, d)
  }

  /** The entries that merging the two listings displaces. */
  ghost function Displacements(w: Coding, a: seq<Entry>, b: seq<Entry>): set<Entry> {
    set x, y, q | x in a && y in b && x.id == y.id && q in Displaced(w, x, y) :: q
  }

  /** What may reach the slots: the entries that sit there, and the copies of what the merge
      displaces below. */
  ghost function Ups(w: Coding, a: seq<Entry>, b: seq<Entry>, slots: set<string>): set<Entry> {
    (set e | e in a + b && e.id in slots) + CopiesOf(w, Displacements(w, Low(a, slots), Low(b, slots)))
  }

  /** The given conflict slots may be taken: the copies made below go there, each to its own slot,
      and the conflict slots of what is there are free. */
  ghost predicate OneDeep(w: Coding, a: seq<Entry>, b: seq<Entry>, slots: set<string>) {
    && (forall d | d in Displacements(w, Low(a, slots), Low(b, slots)) :: SlotId(w, d) in slots)
    && SlotsApart(w, Displacements(w, Low(a, slots), Low(b, slots)))
    && SlotsFree(w, Ups(w, a, b, slots))
    && (forall e, u | e in a + b && u in Ups(w, a, b, slots) :: e.id != SlotId(w, u))
  }

  lemma {:induction false} LowIs(es: seq<Entry>, slots: set<string>)
    ensures forall e :: e in Low(es, slots) <==> e in es && e.id !in slots
    ensures DistinctIds(es) ==> DistinctIds(Low(es, slots))
  {
    if es != [] {
      var front, e := es[..|es| - 1], es[|es| - 1];
      assert es == front + [e];
      LowOfLast(front, e, slots);
      LowIs(front, slots);
      hide Low;
      if DistinctIds(es) {
        DistinctFront(front, e);
        if e.id !in slots {
          DistinctWithLast(Low(front, slots), e);
        }
      }
    }
  }

  lemma DistinctWithLast(front: seq<Entry>, e: Entry)
    requires DistinctIds(front) && forall x | x in front :: x.id != e.id
    ensures DistinctIds(front + [e])
  {
    forall i, j | 0 <= i < j < |front + [e]| ensures (front + [e])[i].id != (front + [e])[j].id {
      assert front[i] in front;
    }
  }

  lemma JoinDisplacedIsSymmetric(w: Coding, a: Slots, b: Slots)
    requires Faithful(w)
    ensures JoinDisplaced(w, a, b) == JoinDisplaced(w, b, a)
  {
    forall q ensures q in JoinDisplaced(w, a, b) <==> q in JoinDisplaced(w, b, a) {
      InJoinDisplaced(w, a, b, q);
      InJoinDisplaced(w, b, a, q);
      if q.id in a && q.id in b {
        RivalsAreSymmetric(w, a[q.id], b[q.id]);
      }
    }
    hide Displaced, JoinDisplaced;
  }

  lemma JoinKeptIsSymmetric(w: Coding, a: Slots, b: Slots)
    requires Faithful(w)
    ensures JoinKept(w, a, b) == JoinKept(w, b, a)
  {
    forall i: string | i in a && i in b ensures Better(w, a[i], b[i]) == Better(w, b[i], a[i]) {
      RivalsAreSymmetric(w, a[i], b[i]);
    }
    hide Better;
  }

  lemma DisplacementsAre(w: Coding, la: seq<Entry>, lb: seq<Entry>)
    requires Faithful(w) && DistinctIds(la) && DistinctIds(lb)
    ensures JoinDisplaced(w, AddAll(w, map[], la), AddAll(w, map[], lb)) == Displacements(w, la, lb)
    ensures JoinDisplaced(w, AddAll(w, map[], lb), AddAll(w, map[], la)) == Displacements(w, la, lb)
  {
    LoadedLists(w, la);
    LoadedLists(w, lb);
    var a, b := AddAll(w, map[], la), AddAll(w, map[], lb);
    JoinDisplacedIsSymmetric(w, a, b);
    hide AddAll, Displaced;
    forall q ensures q in JoinDisplaced(w, a, b) <==> q in Displacements(w, la, lb) {
      if q in JoinDisplaced(w, a, b) {
        var i :| i in a && i in b && q in Displaced(w, a[i], b[i]);
        assert a[i] in la && b[i] in lb;
      }
    }
  }

  lemma BothDetermines(low: Slots, x: Slots, y: Slots)
    requires low.Keys !! x.Keys && low.Keys !! y.Keys
    ensures Both(low, x) == Both(low, y) <==> x == y
  {
    if Both(low, x) == Both(low, y) {
      forall i: string ensures (i in x <==> i in y) && (i in x ==> x[i] == y[i]) {
        BothAt(low, x, i);
        BothAt(low, y, i);
      }
    }
  }

  /** The copies that adding `e` to the loaded `low` makes, in terms of all displacements. */
  lemma CopiesByAre(w: Coding, low: Slots, b: seq<Entry>, e: Entry, ds: set<Entry>)
    requires Faithful(w) && Enumerates(b, AddAll(w, map[], b)) && e in b
    requires ds == JoinDisplaced(w, low, AddAll(w, map[], b))
    ensures CopiesBy(w, low, e) == [] || exists d :: d in ds && d.id == e.id && CopiesBy(w, low, e) == [ConflictCopy(w, d)]
    ensures forall d | d in ds && d.id == e.id :: CopiesBy(w, low, e) == [ConflictCopy(w, d)]
  {
    var m := AddAll(w, map[], b);
    assert e.id in m && m[e.id] == e;
    hide *;
    KeptByRival(w, low, e);
    forall d ensures d in ds <==> d.id in low && d.id in m && d in Displaced(w, low[d.id], m[d.id]) {
      InJoinDisplaced(w, low, m, d);
    }
    if e.id in low {
      CopyOfIs(w, low[e.id], e);
      if Displaced(w, low[e.id], e) != {} {
        var d :| d in Displaced(w, low[e.id], e);
        assert d.id == e.id;
      }
    }
  }

  lemma OneCopyAt(w: Coding, d: Entry, i: string)
    ensures Slice([], i) == []
    ensures Slice([ConflictCopy(w, d)], i) == if SlotId(w, d) == i then [ConflictCopy(w, d)] else []
  {
    CopyIsAtItsSlot(w, d);
    SliceOfLast([], ConflictCopy(w, d), i);
    assert [] + [ConflictCopy(w, d)] == [ConflictCopy(w, d)];
    hide ConflictCopy, SlotId;
  }

  /** Slot `i` waits for the copy of `d`. */
  lemma CopiesAtSlot(w: Coding, low: Slots, b: seq<Entry>, e: Entry, ds: set<Entry>, i: string)
    requires Faithful(w) && Enumerates(b, AddAll(w, map[], b)) && e in b && SlotsApart(w, ds)
    requires ds == JoinDisplaced(w, low, AddAll(w, map[], b))
    ensures (forall d | d in ds :: SlotId(w, d) != i) ==> Slice(CopiesBy(w, low, e), i) == []
    ensures forall d | d in ds && SlotId(w, d) == i ::
              Slice(CopiesBy(w, low, e), i) == if e.id == d.id then [ConflictCopy(w, d)] else []
  {
    assert forall p, q | p in ds && q in ds && p != q :: SlotId(w, p) != SlotId(w, q);
    hide *;
    CopiesByAre(w, low, b, e, ds);
    forall d ensures Slice([], i) == [] && Slice([ConflictCopy(w, d)], i) == if SlotId(w, d) == i then [ConflictCopy(w, d)] else [] {
      OneCopyAt(w, d, i);
    }
    if CopiesBy(w, low, e) != [] {
      var q :| q in ds && q.id == e.id && CopiesBy(w, low, e) == [ConflictCopy(w, q)];
    }
  }

  // ---- What reaches a slot -------------------------------------------------------------------------

  lemma {:induction false} UpsAtIdleSlot(w: Coding, low: Slots, es: seq<Entry>, slots: set<string>, i: string)
    requires i in slots && forall e | e in es && e.id !in slots :: Slice(CopiesBy(w, low, e), i) == []
    ensures Slice(UpsInTurn(w, low, es, slots), i) == Slice(es, i)
  {
    hide *;
    if es == [] {
      NothingReaches(w, low, slots);
    } else {
      var front, e := es[..|es| - 1], es[|es| - 1];
      assert es == front + [e];
      UpsOfLast(w, low, front, e, slots);
      SliceConcat(UpsInTurn(w, low, front, slots), UpsBy(w, low, e, slots), i);
      UpsByLow(w, low, e, slots);
      SliceOfLast(front, e, i);
      SliceOfLast([], e, i);
      assert [] + [e] == [e];
      NothingReaches(w, low, slots);
      UpsAtIdleSlot(w, low, front, slots, i);
    }
  }

  lemma NothingReaches(w: Coding, low: Slots, slots: set<string>)
    ensures UpsInTurn(w, low, [], slots) == [] && forall i :: Slice([], i) == []
    ensures forall i, d :: Meeting(w, [], i, d) == []
  {
  }

  lemma {:induction false} UpsAtSlot(w: Coding, low: Slots, es: seq<Entry>, slots: set<string>, i: string, d: Entry)
    requires i in slots && d.id !in slots
    requires forall e | e in es && e.id !in slots :: Slice(CopiesBy(w, low, e), i) == if e.id == d.id then [ConflictCopy(w, d)] else []
    ensures Slice(UpsInTurn(w, low, es, slots), i) == Meeting(w, es, i, d)
  {
    if es == [] {
      NothingReaches(w, low, slots);
    } else {
      var front, e := es[..|es| - 1], es[|es| - 1];
      assert es == front + [e];
      assert MeetingBy(w, e, i, d) == if e.id == i then [e] else if e.id == d.id then [ConflictCopy(w, d)] else [];
      hide *;
      UpsOfLast(w, low, front, e, slots);
      SliceConcat(UpsInTurn(w, low, front, slots), UpsBy(w, low, e, slots), i);
      UpsByLow(w, low, e, slots);
      MeetingOfLast(w, front, e, i, d);
      SliceOfLast([], e, i);
      assert [] + [e] == [e];
      NothingReaches(w, low, slots);
      UpsAtSlot(w, low, front, slots, i, d);
    }
  }

  /** What reaches the slots when `b` is added to `a`. */
  function Run(w: Coding, a: seq<Entry>, b: seq<Entry>, slots: set<string>): seq<Entry> {
    UpsInTurn(w, map[], a, slots) + UpsInTurn(w, AddAll(w, map[], Low(a, slots)), b, slots)
  }

  lemma DisplacedAreNamed(w: Coding, a: seq<Entry>, b: seq<Entry>)
    requires Faithful(w)
    ensures forall d | d in Displacements(w, a, b) :: Names(a, d.id) && Names(b, d.id)
  {
    forall d | d in Displacements(w, a, b) ensures Names(a, d.id) && Names(b, d.id) {
      var x, y :| x in a && y in b && x.id == y.id && d in Displaced(w, x, y);
      RivalsAreSymmetric(w, x, y);
    }
    hide Displaced;
  }

  lemma LowNames(es: seq<Entry>, slots: set<string>, i: string)
    requires Names(Low(es, slots), i)
    ensures Names(es, i) && i !in slots
  {
    LowIs(es, slots);
    hide Low;
  }

  lemma NoCopiesOfNothing(w: Coding, e: Entry)
    ensures CopiesBy(w, map[], e) == []
  {
  }

  lemma RunAt(w: Coding, a: seq<Entry>, b: seq<Entry>, slots: set<string>, i: string)
    requires Faithful(w) && DistinctIds(a) && DistinctIds(b) && SlotsApart(w, Displacements(w, Low(a, slots), Low(b, slots)))
    requires i in slots
    ensures (forall d | d in Displacements(w, Low(a, slots), Low(b, slots)) :: SlotId(w, d) != i) ==>
              Slice(Run(w, a, b, slots), i) == Slice(a, i) + Slice(b, i)
    ensures forall d | d in Displacements(w, Low(a, slots), Low(b, slots)) && SlotId(w, d) == i ::
              Slice(Run(w, a, b, slots), i) == Slice(a, i) + Meeting(w, b, i, d)
  {
    var la, lb := Low(a, slots), Low(b, slots);
    var ma, ds := AddAll(w, map[], la), Displacements(w, la, lb);
    var first, second := UpsInTurn(w, map[], a, slots), UpsInTurn(w, ma, b, slots);
    assert Run(w, a, b, slots) == first + second;
    hide *;
    LowIs(a, slots);
    LowIs(b, slots);
    LoadedLists(w, lb);
    DisplacementsAre(w, la, lb);
    DisplacedAreNamed(w, la, lb);
    SliceConcat(first, second, i);
    NothingReaches(w, map[], slots);
    forall e: Entry ensures CopiesBy(w, map[], e) == [] {
      NoCopiesOfNothing(w, e);
    }
    UpsAtIdleSlot(w, map[], a, slots, i);
    forall e | e in b && e.id !in slots
      ensures (forall d | d in ds :: SlotId(w, d) != i) ==> Slice(CopiesBy(w, ma, e), i) == []
      ensures forall d | d in ds && SlotId(w, d) == i :: Slice(CopiesBy(w, ma, e), i) == if e.id == d.id then [ConflictCopy(w, d)] else []
    {
      CopiesAtSlot(w, ma, lb, e, ds, i);
    }
    if forall d | d in ds :: SlotId(w, d) != i {
      UpsAtIdleSlot(w, ma, b, slots, i);
    }
    forall d | d in ds && SlotId(w, d) == i ensures Slice(second, i) == Meeting(w, b, i, d) {
      LowNames(a, slots, d.id);
      UpsAtSlot(w, ma, b, slots, i, d);
    }
  }

  lemma TwoMeet(w: Coding, x: Entry, y: Entry)
    requires Faithful(w) && x.id == y.id
    ensures EnterAll(w, Empty, [x] + [y]) == EnterAll(w, Empty, [y] + [x])
  {
    assert [x] + [y] == [x, y] && [y] + [x] == [y, x];
    hide *;
    FirstTwoSwap(w, x, y, y);
  }

  lemma IdleSlotAgrees(w: Coding, a: seq<Entry>, b: seq<Entry>, i: string)
    requires Faithful(w) && DistinctIds(a) && DistinctIds(b)
    ensures EnterAll(w, Empty, Slice(a, i) + Slice(b, i)) == EnterAll(w, Empty, Slice(b, i) + Slice(a, i))
  {
    assert Names(a, i) <==> exists p :: p in a && p.id == i;
    assert Names(b, i) <==> exists q :: q in b && q.id == i;
    hide *;
    SliceOfListing(a, i);
    SliceOfListing(b, i);
    if Names(a, i) && Names(b, i) {
      var p :| p in a && p.id == i;
      var q :| q in b && q.id == i;
      TwoMeet(w, p, q);
    } else if Names(a, i) {
      assert Slice(a, i) + [] == Slice(a, i) == [] + Slice(a, i);
    } else {
      assert Slice(b, i) + [] == Slice(b, i) == [] + Slice(b, i);
    }
  }

  lemma OneSideMeets(w: Coding, c: Entry, q: Entry, later: bool)
    requires Faithful(w) && c.id == q.id
    ensures EnterAll(w, Empty, InOrder(c, q, later)) == EnterAll(w, Empty, [q] + [c])
    ensures [] + InOrder(c, q, later) == InOrder(c, q, later)
  {
    assert [c] + [q] == [c, q] && [q] + [c] == [q, c];
    TwoMeet(w, c, q);
    hide EnterAll;
  }

  ghost predicate AllAgree(w: Coding, a: seq<Entry>, b: seq<Entry>, d: Entry) {
    forall p, q | p in a && q in b && p.id == q.id == SlotId(w, d) ::
      Agree(w, p, ConflictCopy(w, d), q, Precedes(a, d.id, p.id), Precedes(b, d.id, q.id))
  }

  lemma AllAgreeIff(w: Coding, a: seq<Entry>, b: seq<Entry>, d: Entry, p: Entry, q: Entry)
    requires DistinctIds(a) && DistinctIds(b) && p in a && q in b && p.id == q.id == SlotId(w, d)
    ensures AllAgree(w, a, b, d) <==>
            Agree(w, p, ConflictCopy(w, d), q, Precedes(a, d.id, SlotId(w, d)), Precedes(b, d.id, SlotId(w, d)))
  {
    forall p' | p' in a && p'.id == p.id ensures p' == p {
      SliceOfListing(a, p.id);
      assert [p'] == [p];
    }
    forall q' | q' in b && q'.id == q.id ensures q' == q {
      SliceOfListing(b, q.id);
      assert [q'] == [q];
    }
    hide Agree, ConflictCopy, SlotId, Precedes, DistinctIds;
  }

  lemma AllAgreeAlone(w: Coding, a: seq<Entry>, b: seq<Entry>, d: Entry)
    requires !Names(a, SlotId(w, d)) || !Names(b, SlotId(w, d))
    ensures AllAgree(w, a, b, d)
  {
    hide Agree, ConflictCopy, SlotId, Precedes;
  }

  lemma NamedEntry(es: seq<Entry>, i: string) returns (e: Entry)
    requires Names(es, i)
    ensures e in es && e.id == i
  {
    e :| e in es && e.id == i;
  }

  /** Both sides hold an entry in the slot of `d`. */
  lemma BothSidesMeet(w: Coding, a: seq<Entry>, b: seq<Entry>, d: Entry, p: Entry, q: Entry)
    requires Faithful(w) && DistinctIds(a) && DistinctIds(b) && d.id != SlotId(w, d) && Names(a, d.id) && Names(b, d.id)
    requires p in a && q in b && p.id == q.id == SlotId(w, d)
    ensures var i := SlotId(w, d);
            EnterAll(w, Empty, Slice(a, i) + Meeting(w, b, i, d)) == EnterAll(w, Empty, Slice(b, i) + Meeting(w, a, i, d)) <==>
            AllAgree(w, a, b, d)
  {
    assert forall x, y, later :: InOrder(x, y, later) == if later then [x, y] else [y, x];
    hide *;
    var i, c := SlotId(w, d), ConflictCopy(w, d);
    CopyIsAtItsSlot(w, d);
    SliceOfListing(a, i);
    SliceOfListing(b, i);
    BothMeet(w, a, i, d, p);
    BothMeet(w, b, i, d, q);
    ThreeMeetIff(w, p, c, q, Precedes(a, d.id, i), Precedes(b, d.id, i));
    AllAgreeIff(w, a, b, d, p, q);
  }

  /** At most the first side holds an entry there. */
  lemma OneSideHolds(w: Coding, a: seq<Entry>, b: seq<Entry>, d: Entry)
    requires Faithful(w) && DistinctIds(a) && DistinctIds(b) && d.id != SlotId(w, d) && Names(a, d.id) && Names(b, d.id)
    requires !Names(b, SlotId(w, d))
    ensures var i := SlotId(w, d);
            EnterAll(w, Empty, Slice(a, i) + Meeting(w, b, i, d)) == EnterAll(w, Empty, Slice(b, i) + Meeting(w, a, i, d))
  {
    hide *;
    var i, c := SlotId(w, d), ConflictCopy(w, d);
    CopyIsAtItsSlot(w, d);
    SliceOfListing(a, i);
    SliceOfListing(b, i);
    OnlyTheCopy(w, b, i, d);
    if Names(a, i) {
      var p := NamedEntry(a, i);
      BothMeet(w, a, i, d, p);
      OneSideMeets(w, c, p, Precedes(a, d.id, i));
    } else {
      OnlyTheCopy(w, a, i, d);
    }
  }

  lemma SlotAgreesIff(w: Coding, a: seq<Entry>, b: seq<Entry>, d: Entry)
    requires Faithful(w) && DistinctIds(a) && DistinctIds(b) && d.id != SlotId(w, d) && Names(a, d.id) && Names(b, d.id)
    ensures var i := SlotId(w, d);
            EnterAll(w, Empty, Slice(a, i) + Meeting(w, b, i, d)) == EnterAll(w, Empty, Slice(b, i) + Meeting(w, a, i, d)) <==>
            AllAgree(w, a, b, d)
  {
    hide *;
    var i := SlotId(w, d);
    if Names(a, i) && Names(b, i) {
      var p := NamedEntry(a, i);
      var q := NamedEntry(b, i);
      BothSidesMeet(w, a, b, d, p, q);
    } else {
      AllAgreeAlone(w, a, b, d);
      if Names(b, i) {
        OneSideHolds(w, b, a, d);
      } else {
        OneSideHolds(w, a, b, d);
      }
    }
  }

  // ---- Below and above, put together ---------------------------------------------------------------

  lemma AboveIsApart(w: Coding, ids: set<string>, us: seq<Entry>, ups: set<Entry>)
    requires Faithful(w) && SlotsFree(w, ups) && Members(us) <= ups
    requires forall u | u in ups :: u.id !in ids && SlotId(w, u) !in ids
    ensures ids !! AddAll(w, map[], us).Keys
  {
    EmptyForm(w, ups);
    hide SlotId, AddAll, EnterAll;
    FormAddsAll(w, map[], Empty, us, ups);
    var f := EnterAll(w, Empty, us);
    forall i | i in AddAll(w, map[], us) ensures i !in ids {
      assert i in f.kept ==> f.kept[i] in ups && f.kept[i].id == i;
    }
  }

  lemma NothingBelow(w: Coding, m: Slots)
    ensures Both(map[], map[]) == map[] && JoinKept(w, map[], m) == m
  {
    hide Better;
    assert JoinKept(w, map[], m) == m;
  }

  lemma RunKeys(w: Coding, a: seq<Entry>, b: seq<Entry>, slots: set<string>)
    ensures AddAll(w, map[], Run(w, a, b, slots)) ==
              AddAll(w, AddAll(w, map[], UpsInTurn(w, map[], a, slots)), UpsInTurn(w, AddAll(w, map[], Low(a, slots)), b, slots))
    ensures AddAll(w, map[], UpsInTurn(w, map[], a, slots)).Keys <= AddAll(w, map[], Run(w, a, b, slots)).Keys
  {
    var first, second := UpsInTurn(w, map[], a, slots), UpsInTurn(w, AddAll(w, map[], Low(a, slots)), b, slots);
    assert Run(w, a, b, slots) == first + second;
    hide *;
    AddAllConcat(w, map[], first, second);
    KeysGrowAll(w, AddAll(w, map[], first), second);
  }

  lemma RunSplits(w: Coding, a: seq<Entry>, b: seq<Entry>, slots: set<string>, ids: set<string>)
    requires Faithful(w) && DistinctIds(a) && DistinctIds(b) && forall e | e in a + b && e.id !in slots :: e.id in ids
    requires ids !! AddAll(w, map[], Run(w, a, b, slots)).Keys
    ensures AddAll(w, map[], a + b) ==
              Both(JoinKept(w, AddAll(w, map[], Low(a, slots)), AddAll(w, map[], Low(b, slots))), AddAll(w, map[], Run(w, a, b, slots)))
    ensures JoinKept(w, AddAll(w, map[], Low(a, slots)), AddAll(w, map[], Low(b, slots))).Keys <= ids
  {
    hide *;
    var ma := AddAll(w, map[], Low(a, slots));
    LowIs(a, slots);
    LowIs(b, slots);
    RunKeys(w, a, b, slots);
    NothingBelow(w, ma);
    AddsInLayers(w, map[], map[], a, slots, ids);
    AddsInLayers(w, ma, AddAll(w, map[], UpsInTurn(w, map[], a, slots)), b, slots, ids);
    AddAllConcat(w, map[], a, b);
    JoinKeptIds(w, ma, AddAll(w, map[], Low(b, slots)));
  }

  lemma {:induction false} UpsAre(w: Coding, low: Slots, es: seq<Entry>, slots: set<string>, ups: set<Entry>)
    requires forall e | e in es && e.id in slots :: e in ups
    requires forall e, c | e in es && e.id !in slots && c in CopiesBy(w, low, e) :: c in ups
    ensures Members(UpsInTurn(w, low, es, slots)) <= ups
  {
    if es != [] {
      var front, e := es[..|es| - 1], es[|es| - 1];
      assert es == front + [e];
      hide CopiesBy;
      UpsAre(w, low, front, slots, ups);
    }
  }

  lemma RunIsWithin(w: Coding, a: seq<Entry>, b: seq<Entry>, slots: set<string>)
    requires Faithful(w) && DistinctIds(a) && DistinctIds(b)
    ensures Members(Run(w, a, b, slots)) <= Ups(w, a, b, slots)
  {
    var la, lb, ups := Low(a, slots), Low(b, slots), Ups(w, a, b, slots);
    var ma, ds := AddAll(w, map[], la), Displacements(w, la, lb);
    assert forall e | e in a + b && e.id in slots :: e in ups;
    assert forall d | d in ds :: ConflictCopy(w, d) in ups;
    LowIs(a, slots);
    LowIs(b, slots);
    hide ConflictCopy, AddAll, Ups, UpsInTurn, CopiesBy, Displacements, JoinDisplaced, Low;
    LoadedLists(w, lb);
    DisplacementsAre(w, la, lb);
    forall e: Entry ensures CopiesBy(w, map[], e) == [] {
      NoCopiesOfNothing(w, e);
    }
    forall e, c | e in b && e.id !in slots && c in CopiesBy(w, ma, e) ensures c in ups {
      CopiesByAre(w, ma, lb, e, ds);
    }
    UpsAre(w, map[], a, slots, ups);
    UpsAre(w, ma, b, slots, ups);
  }

  // ---- Exactly when two collections commute --------------------------------------------------------

  lemma SidesMirror(w: Coding, a: seq<Entry>, b: seq<Entry>, slots: set<string>)
    requires Faithful(w) && DistinctIds(a) && DistinctIds(b)
    ensures Displacements(w, Low(b, slots), Low(a, slots)) == Displacements(w, Low(a, slots), Low(b, slots))
    ensures Ups(w, b, a, slots) == Ups(w, a, b, slots)
  {
    LowIs(a, slots);
    LowIs(b, slots);
    DisplacementsAre(w, Low(a, slots), Low(b, slots));
    DisplacementsAre(w, Low(b, slots), Low(a, slots));
    hide Displacements, JoinDisplaced, CopiesOf, Low, DistinctIds;
  }

  lemma UpsAreAbove(w: Coding, a: seq<Entry>, b: seq<Entry>, slots: set<string>)
    requires OneDeep(w, a, b, slots)
    ensures forall u | u in Ups(w, a, b, slots) :: u.id in slots
  {
    forall d: Entry ensures ConflictCopy(w, d).id == SlotId(w, d) {
      CopyIsAtItsSlot(w, d);
    }
    hide ConflictCopy, SlotId, Displacements, Low;
  }

  lemma {:induction false} NothingThere(us: seq<Entry>, i: string)
    requires forall u | u in us :: u.id != i
    ensures Slice(us, i) == []
  {
    if us != [] {
      assert us == us[..|us| - 1] + [us[|us| - 1]];
      NothingThere(us[..|us| - 1], i);
    }
  }

  lemma RunsAgreeElsewhere(w: Coding, a: seq<Entry>, b: seq<Entry>, slots: set<string>, i: string)
    requires Faithful(w) && DistinctIds(a) && DistinctIds(b) && OneDeep(w, a, b, slots) && i !in slots
    ensures SlicesAgree(w, Run(w, a, b, slots), Run(w, b, a, slots), i)
  {
    UpsAreAbove(w, a, b, slots);
    SidesMirror(w, a, b, slots);
    RunIsWithin(w, a, b, slots);
    RunIsWithin(w, b, a, slots);
    hide Run, Ups, OneDeep, EnterAll, Slice;
    forall u | u in Run(w, a, b, slots) || u in Run(w, b, a, slots) ensures u.id != i {
      assert u in Members(Run(w, a, b, slots)) || u in Members(Run(w, b, a, slots));
    }
    NothingThere(Run(w, a, b, slots), i);
    NothingThere(Run(w, b, a, slots), i);
  }

  lemma OneDeepIsApart(w: Coding, a: seq<Entry>, b: seq<Entry>, slots: set<string>)
    requires OneDeep(w, a, b, slots)
    ensures var ds := Displacements(w, Low(a, slots), Low(b, slots));
            SlotsApart(w, ds) && forall d | d in ds :: SlotId(w, d) in slots
    ensures SlotsFree(w, Ups(w, a, b, slots)) && forall e, u | e in a + b && u in Ups(w, a, b, slots) :: e.id != SlotId(w, u)
  {
    hide SlotId, SlotsApart, SlotsFree, Ups, Displacements, Low;
  }

  lemma RunsAgreeWaiting(w: Coding, a: seq<Entry>, b: seq<Entry>, slots: set<string>, d: Entry)
    requires Faithful(w) && DistinctIds(a) && DistinctIds(b) && OneDeep(w, a, b, slots)
    requires d in Displacements(w, Low(a, slots), Low(b, slots))
    ensures SlicesAgree(w, Run(w, a, b, slots), Run(w, b, a, slots), SlotId(w, d)) <==> AllAgree(w, a, b, d)
  {
    var i, ab, ba := SlotId(w, d), Run(w, a, b, slots), Run(w, b, a, slots);
    assert SlicesAgree(w, ab, ba, i) <==> EnterAll(w, Empty, Slice(ab, i)) == EnterAll(w, Empty, Slice(ba, i));
    hide *;
    OneDeepIsApart(w, a, b, slots);
    SidesMirror(w, a, b, slots);
    RunAt(w, a, b, slots, i);
    RunAt(w, b, a, slots, i);
    DisplacedAreNamed(w, Low(a, slots), Low(b, slots));
    LowNames(a, slots, d.id);
    LowNames(b, slots, d.id);
    SlotAgreesIff(w, a, b, d);
  }

  lemma RunsAgreeIdle(w: Coding, a: seq<Entry>, b: seq<Entry>, slots: set<string>, i: string)
    requires Faithful(w) && DistinctIds(a) && DistinctIds(b) && OneDeep(w, a, b, slots)
    requires forall d | d in Displacements(w, Low(a, slots), Low(b, slots)) :: SlotId(w, d) != i
    ensures SlicesAgree(w, Run(w, a, b, slots), Run(w, b, a, slots), i)
  {
    var ab, ba := Run(w, a, b, slots), Run(w, b, a, slots);
    assert SlicesAgree(w, ab, ba, i) <==> EnterAll(w, Empty, Slice(ab, i)) == EnterAll(w, Empty, Slice(ba, i));
    hide *;
    if i in slots {
      OneDeepIsApart(w, a, b, slots);
      SidesMirror(w, a, b, slots);
      RunAt(w, a, b, slots, i);
      RunAt(w, b, a, slots, i);
      IdleSlotAgrees(w, a, b, i);
    } else {
      RunsAgreeElsewhere(w, a, b, slots, i);
    }
  }

  lemma RunsAgreeIff(w: Coding, a: seq<Entry>, b: seq<Entry>, slots: set<string>)
    requires Faithful(w) && DistinctIds(a) && DistinctIds(b) && OneDeep(w, a, b, slots)
    ensures (forall i :: SlicesAgree(w, Run(w, a, b, slots), Run(w, b, a, slots), i)) <==>
            forall d | d in Displacements(w, Low(a, slots), Low(b, slots)) :: AllAgree(w, a, b, d)
  {
    hide *;
    var ds := Displacements(w, Low(a, slots), Low(b, slots));
    forall d | d in ds ensures SlicesAgree(w, Run(w, a, b, slots), Run(w, b, a, slots), SlotId(w, d)) <==> AllAgree(w, a, b, d) {
      RunsAgreeWaiting(w, a, b, slots, d);
    }
    forall i | forall d | d in ds :: SlotId(w, d) != i ensures SlicesAgree(w, Run(w, a, b, slots), Run(w, b, a, slots), i) {
      RunsAgreeIdle(w, a, b, slots, i);
    }
  }

  lemma AboveIsFree(w: Coding, a: seq<Entry>, b: seq<Entry>, slots: set<string>, ids: set<string>)
    requires Faithful(w) && DistinctIds(a) && DistinctIds(b) && OneDeep(w, a, b, slots)
    requires ids == set e | e in a + b && e.id !in slots :: e.id
    ensures ids !! AddAll(w, map[], Run(w, a, b, slots)).Keys && ids !! AddAll(w, map[], Run(w, b, a, slots)).Keys
    ensures SlotsFree(w, Ups(w, a, b, slots))
    ensures Members(Run(w, a, b, slots)) <= Ups(w, a, b, slots) && Members(Run(w, b, a, slots)) <= Ups(w, a, b, slots)
  {
    hide *;
    OneDeepIsApart(w, a, b, slots);
    UpsAreAbove(w, a, b, slots);
    SidesMirror(w, a, b, slots);
    RunIsWithin(w, a, b, slots);
    RunIsWithin(w, b, a, slots);
    AboveIsApart(w, ids, Run(w, a, b, slots), Ups(w, a, b, slots));
    AboveIsApart(w, ids, Run(w, b, a, slots), Ups(w, a, b, slots));
  }

  lemma RunsDetermineIff(w: Coding, us: seq<Entry>, vs: seq<Entry>, es: set<Entry>)
    requires Faithful(w) && SlotsFree(w, es) && Members(us) <= es && Members(vs) <= es
    ensures AddAll(w, map[], us) == AddAll(w, map[], vs) <==> forall i :: SlicesAgree(w, us, vs, i)
  {
    hide *;
    EmptyForm(w, es);
    FormAddsAll(w, map[], Empty, us, es);
    FormAddsAll(w, map[], Empty, vs, es);
    FormDetermines(w, AddAll(w, map[], us), EnterAll(w, Empty, us), AddAll(w, map[], vs), EnterAll(w, Empty, vs), es);
    FormsBySlice(w, us, vs);
  }

  /** The merge is documented as commutative. Two collections that may hold entries in each other's
      conflict slots commute if and only if, wherever both hold an entry in the conflict slot of an
      entry that the merge displaces, those two and the new copy agree. */
  lemma CommutativeIff(w: Coding, a: seq<Entry>, b: seq<Entry>, slots: set<string>)
    requires Faithful(w) && DistinctIds(a) && DistinctIds(b) && OneDeep(w, a, b, slots)
    ensures AddAll(w, map[], a + b) == AddAll(w, map[], b + a) <==>
            forall d | d in Displacements(w, Low(a, slots), Low(b, slots)) :: AllAgree(w, a, b, d)
  {
    var ids := set e | e in a + b && e.id !in slots :: e.id;
    assert forall e | e in a + b || e in b + a :: e.id in slots || e.id in ids;
    hide *;
    var ab, ba := Run(w, a, b, slots), Run(w, b, a, slots);
    var ma, mb := AddAll(w, map[], Low(a, slots)), AddAll(w, map[], Low(b, slots));
    AboveIsFree(w, a, b, slots, ids);
    RunSplits(w, a, b, slots, ids);
    RunSplits(w, b, a, slots, ids);
    JoinKeptIsSymmetric(w, ma, mb);
    BothDetermines(JoinKept(w, ma, mb), AddAll(w, map[], ab), AddAll(w, map[], ba));
    RunsDetermineIff(w, ab, ba, Ups(w, a, b, slots));
    RunsAgreeIff(w, a, b, slots);
  }

  lemma SlotIsLonger(w: Coding, e: Entry)
    ensures |SlotId(w, e)| > |e.id|
  {
  }

  lemma OneDisplaced(w: Coding, x: Entry, y: Entry)
    requires Displaces(w, x, y)
    ensures Displacements(w, [x], [y]) == {y}
  {
    assert Displaced(w, x, y) == {y} && x in [x] && y in [y] && x.id == y.id;
    hide Displaced, Displaces;
  }

  lemma SharedSlotsAreFree(w: Coding, es: set<Entry>, i: string)
    requires SlotsApart(w, es) && forall e | e in es :: e.id == i
    ensures SlotsFree(w, es) && forall e | e in es :: |SlotId(w, e)| > |i|
  {
    forall e: Entry ensures |SlotId(w, e)| > |e.id| {
      SlotIsLonger(w, e);
    }
    hide SlotId;
  }

  lemma LowOfTwo(x: Entry, p: Entry)
    requires x.id != p.id
    ensures Low([x, p], {p.id}) == [x]
  {
    assert [] + [x] == [x] && [x] + [p] == [x, p] && [x] + [] == [x];
    LowOfLast([], x, {p.id});
    LowOfLast([x], p, {p.id});
    assert Low([], {p.id}) == [];
    hide *;
  }

  lemma FourUps(w: Coding, x: Entry, p: Entry, y: Entry, q: Entry)
    requires Displaces(w, x, y) && p.id == q.id == SlotId(w, y) != x.id
    ensures Low([x, p], {SlotId(w, y)}) == [x] && Low([y, q], {SlotId(w, y)}) == [y]
    ensures Ups(w, [x, p], [y, q], {SlotId(w, y)}) == {p, ConflictCopy(w, y), q}
    ensures Displacements(w, [x], [y]) == {y}
  {
    OneDisplaced(w, x, y);
    assert x.id == y.id;
    hide SlotId, ConflictCopy, Displaces, Displacements, Low;
    LowOfTwo(x, p);
    LowOfTwo(y, q);
    assert CopiesOf(w, {y}) == {ConflictCopy(w, y)};
    assert (set e | e in [x, p] + [y, q] && e.id in {SlotId(w, y)}) == {p, q};
    assert {p, q} + {ConflictCopy(w, y)} == {p, ConflictCopy(w, y), q};
  }

  lemma ListedInOrder(x: Entry, p: Entry)
    requires x.id != p.id
    ensures DistinctIds([x, p]) && Precedes([x, p], x.id, p.id)
  {
    assert [x, p][0] == x && [x, p][1] == p;
  }

  lemma FourAreOneDeep(w: Coding, x: Entry, p: Entry, y: Entry, q: Entry)
    requires Displaces(w, x, y) && p.id == q.id == SlotId(w, y) && SlotsApart(w, {p, ConflictCopy(w, y), q})
    ensures OneDeep(w, [x, p], [y, q], {SlotId(w, y)}) && SlotId(w, y) != x.id == y.id
  {
    CopyIsAtItsSlot(w, y);
    SlotIsLonger(w, y);
    assert SlotsApart(w, {y}) && x.id == y.id;
    hide SlotId, ConflictCopy, Displaces, Displacements, Ups, Low, SlotsFree, SlotsApart;
    FourUps(w, x, p, y, q);
    SharedSlotsAreFree(w, {p, ConflictCopy(w, y), q}, p.id);
  }

  lemma AgreeInTurn(w: Coding, p: Entry, c: Entry, q: Entry)
    ensures Agree(w, p, c, q, true, true) <==> Associates(w, p, c, q)
  {
    hide Associates;
  }

  /** The smallest case: two live versions of an entry, and on either side an entry in the
      conflict slot of the displaced one. */
  lemma {:induction false} FourCommuteIff(w: Coding, x: Entry, p: Entry, y: Entry, q: Entry)
    requires Faithful(w) && Displaces(w, x, y) && p.id == q.id == SlotId(w, y) && SlotsApart(w, {p, ConflictCopy(w, y), q})
    ensures AddAll(w, map[], [x, p] + [y, q]) == AddAll(w, map[], [y, q] + [x, p]) <==> Associates(w, p, ConflictCopy(w, y), q)
  {
    hide *;
    AgreeInTurn(w, p, ConflictCopy(w, y), q);
    FourAreOneDeep(w, x, p, y, q);
    FourUps(w, x, p, y, q);
    ListedInOrder(x, p);
    ListedInOrder(y, q);
    CommutativeIff(w, [x, p], [y, q], {SlotId(w, y)});
    AllAgreeIff(w, [x, p], [y, q], y, p, q);
  }
}
