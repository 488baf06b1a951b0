/** LexoRank arithmetic: minting a rank between two others, the append-at-end chain, and the
    out-of-band rebalance plan. */
module Ordering {
  import opened Wrappers
  import opened Strings

  const BASE: nat := 36
  const MAX_RANK_LENGTH: nat := 64
  const DEPTH_GUARD: nat := MAX_RANK_LENGTH * 4

  datatype RankError = OutsideAlphabet | NotBelow | DepthGuard

  predicate InAlphabet(c: char) {
    '0' <= c <= '9' || 'a' <= c <= 'z'
  }

  function Val(c: char): (v: nat)
    requires InAlphabet(c)
    ensures v < BASE && Digit(v) == c
  {
    if c <= '9' then c as int - '0' as int else c as int - 'a' as int + 10
  }

  function Digit(v: nat): (c: char)
    requires v < BASE
    ensures InAlphabet(c) && forall w: nat | w < v :: Digit(w) < c
  {
    if v < 10 then ('0' as int + v) as char else ('a' as int + (v - 10)) as char
  }

  predicate IsRank(s: string) {
    forall i | 0 <= i < |s| :: InAlphabet(s[i])
  }

  /** What the spine mints: a non-empty rank that does not end in the zero digit. */
  predicate Canonical(s: string) {
    IsRank(s) && s != "" && s[|s| - 1] != '0'
  }

  /** `hi` is `lo` followed by zero digits only. */
  predicate ZeroExtension(lo: string, hi: string) {
    |lo| <= |hi| && hi[..|lo|] == lo && forall i | |lo| <= i < |hi| :: hi[i] == '0'
  }

  /** The guard a caller can check before asking for a rank below a finite `hi`. */
  predicate Room(lo: string, hi: string) {
    Less(lo, hi) && !ZeroExtension(lo, hi)
  }

  function Head(s: string): (v: nat)
    requires IsRank(s)
    ensures v < BASE
  {
    if s == "" then 0 else Val(s[0])
  }

  function Tail(s: string): (t: string)
    ensures IsRank(s) ==> IsRank(t)
  {
    if s == "" then "" else s[1..]
  }

  // The reference definition: no depth guard, no loop.

  function Above(lo: string): string
    requires IsRank(lo)
  {
    if BASE - Head(lo) >= 2 then [Digit((Head(lo) + BASE) / 2)]
    else [lo[0]] + Above(lo[1..])
  }

  function Below(lo: string, hi: string): string
    requires IsRank(lo) && IsRank(hi) && Room(lo, hi)
    decreases |hi|
  {
    var av, bv := Head(lo), Head(hi);
    if bv - av >= 2 then [Digit((av + bv) / 2)]
    else if av < bv then [Digit(av)] + Above(Tail(lo))
    else RoomTail(lo, hi); [Digit(av)] + Below(Tail(lo), hi[1..])
  }

  /** The rank strictly between `lo` and `hi`, `hi == ""` meaning after everything. */
  function Between(lo: string, hi: string): string
    requires IsRank(lo) && IsRank(hi) && (hi == "" || Room(lo, hi))
  {
    if hi == "" then Above(lo) else Below(lo, hi)
  }

  lemma HeadOrder(lo: string, hi: string)
    requires IsRank(lo) && IsRank(hi) && Less(lo, hi)
    ensures Head(lo) <= Head(hi)
  {
    if lo != "" && lo[0] < hi[0] {
      assert Digit(Val(lo[0])) == lo[0] && Digit(Val(hi[0])) == hi[0];
    }
  }

  lemma RoomTail(lo: string, hi: string)
    requires IsRank(lo) && IsRank(hi) && Room(lo, hi) && Head(lo) >= Head(hi)
    ensures Room(Tail(lo), hi[1..]) && Head(lo) == Head(hi)
  {
    HeadOrder(lo, hi);
    if lo == "" {
      assert hi[0] == Digit(0) == '0';
      var i :| 0 <= i < |hi| && hi[i] != '0';
      assert hi[1..][i - 1] == hi[i];
    } else {
      assert lo[0] == hi[0];
      ZeroExtensionCons(lo, hi);
    }
  }

  lemma ZeroExtensionCons(lo: string, hi: string)
    requires lo != "" && hi != "" && lo[0] == hi[0]
    ensures ZeroExtension(lo[1..], hi[1..]) ==> ZeroExtension(lo, hi)
  {
    if ZeroExtension(lo[1..], hi[1..]) {
      assert hi[..|lo|] == [hi[0]] + hi[1..][..|lo| - 1] == [lo[0]] + lo[1..];
      assert forall i | |lo| <= i < |hi| :: hi[i] == hi[1..][i - 1];
    }
  }

  // Strict betweenness.

  lemma {:induction false} AboveIsAbove(lo: string)
    requires IsRank(lo)
    ensures Canonical(Above(lo)) && Less(lo, Above(lo)) && |Above(lo)| <= |lo| + 1
  {
    if BASE - Head(lo) >= 2 {
      var m := (Head(lo) + BASE) / 2;
      assert Digit(Head(lo)) < Digit(m) && Digit(0) == '0';
    } else {
      AboveIsAbove(lo[1..]);
    }
  }

  lemma LessByHead(lo: string, c: char, rest: string)
    requires IsRank(lo) && Digit(Head(lo)) <= c
    requires Digit(Head(lo)) == c ==> Less(Tail(lo), rest)
    ensures Less(lo, [c] + rest)
  {
    assert ([c] + rest)[1..] == rest;
  }

  lemma LessThanHead(c: char, rest: string, hi: string)
    requires hi != "" && c <= hi[0]
    requires c == hi[0] ==> Less(rest, hi[1..])
    ensures Less([c] + rest, hi)
  {
    assert ([c] + rest)[1..] == rest;
  }

  lemma CanonicalCons(c: char, rest: string)
    requires InAlphabet(c) && Canonical(rest)
    ensures Canonical([c] + rest)
  {
  }

  lemma {:induction false} BelowIsBetween(lo: string, hi: string)
    requires IsRank(lo) && IsRank(hi) && Room(lo, hi)
    ensures Canonical(Below(lo, hi))
    ensures Less(lo, Below(lo, hi)) && Less(Below(lo, hi), hi)
    ensures |Below(lo, hi)| <= (if |lo| < |hi| then |hi| else |lo|) + 1
    decreases |hi|
  {
    var av, bv := Head(lo), Head(hi);
    HeadOrder(lo, hi);
    assert Digit(0) == '0' && Digit(bv) == hi[0];
    if bv - av >= 2 {
      var c := Digit((av + bv) / 2);
      assert Digit(av) < c < Digit(bv);
      LessByHead(lo, c, "");
      LessThanHead(c, "", hi);
    } else {
      var c := Digit(av);
      var rest := Below(lo, hi)[1..];
      if av < bv {
        AboveIsAbove(Tail(lo));
        assert rest == Above(Tail(lo)) && c < hi[0];
      } else {
        RoomTail(lo, hi);
        BelowIsBetween(Tail(lo), hi[1..]);
        assert rest == Below(Tail(lo), hi[1..]);
      }
      LessByHead(lo, c, rest);
      LessThanHead(c, rest, hi);
      CanonicalCons(c, rest);
      assert Below(lo, hi) == [c] + rest;
    }
  }

  /** Betweenness: whatever is minted lies strictly between its neighbours, is at most one
      digit longer than the longer of them and never ends in '0'. */
  lemma Betweenness(lo: string, hi: string)
    requires IsRank(lo) && IsRank(hi) && (hi == "" || Room(lo, hi))
    ensures Canonical(Between(lo, hi)) && Less(lo, Between(lo, hi))
    ensures hi != "" ==> Less(Between(lo, hi), hi)
    ensures |Between(lo, hi)| <= (if |lo| < |hi| then |hi| else |lo|) + 1
  {
    if hi == "" {
      AboveIsAbove(lo);
    } else {
      BelowIsBetween(lo, hi);
    }
  }

  // What is minted, digit by digit.

  function DigitAt(s: string, k: nat): nat
    requires IsRank(s)
  {
    if k < |s| then Val(s[k]) else 0
  }

  /** Before `k` the lower bound has fallen behind the upper one. */
  ghost predicate Parted(lo: string, hi: string, k: nat)
    requires IsRank(lo) && IsRank(hi)
  {
    exists j: nat :: j < k && DigitAt(lo, j) < DigitAt(hi, j)
  }

  /** The digit below which the one at `k` has to stay: none once the bounds have parted. */
  ghost function CeilingAt(lo: string, hi: string, k: nat): nat
    requires IsRank(lo) && IsRank(hi)
  {
    if hi == "" || Parted(lo, hi, k) then BASE else DigitAt(hi, k)
  }

  /** At `j` there is no digit strictly between the bounds, and the lower one is taken. */
  ghost predicate Follows(lo: string, hi: string, g: string, j: nat)
    requires IsRank(lo) && IsRank(hi) && IsRank(g)
  {
    DigitAt(g, j) == DigitAt(lo, j) && CeilingAt(lo, hi, j) - DigitAt(lo, j) < 2
  }

  /** At `k` there is one, and the lower middle is taken. */
  ghost predicate Halves(lo: string, hi: string, g: string, k: nat)
    requires IsRank(lo) && IsRank(hi) && IsRank(g)
  {
    var l, u, m := DigitAt(lo, k), CeilingAt(lo, hi, k), DigitAt(g, k);
    u - l >= 2 && 2 * m <= l + u <= 2 * m + 1
  }

  /** `g` follows the lower bound up to the first place where a digit fits in between. */
  ghost predicate MidOfFirstGap(lo: string, hi: string, g: string)
    requires IsRank(lo) && IsRank(hi)
  {
    IsRank(g) && g != "" && (forall j: nat | j < |g| - 1 :: Follows(lo, hi, g, j)) && Halves(lo, hi, g, |g| - 1)
  }

  lemma DigitInTail(s: string, k: nat)
    requires IsRank(s)
    ensures DigitAt(Tail(s), k) == DigitAt(s, k + 1) && DigitAt(s, 0) == Head(s)
  {
  }

  lemma DigitInCons(v: nat, rest: string, j: nat)
    requires v < BASE && IsRank(rest)
    ensures IsRank([Digit(v)] + rest) && DigitAt([Digit(v)] + rest, 0) == v && DigitAt([Digit(v)] + rest, j + 1) == DigitAt(rest, j)
  {
    assert Digit(Val(Digit(v))) == Digit(v);
  }

  lemma NotYetParted(lo: string, hi: string)
    requires IsRank(lo) && IsRank(hi)
    ensures CeilingAt(lo, hi, 0) == if hi == "" then BASE else Head(hi)
  {
    DigitInTail(hi, 0);
  }

  lemma OneDigit(lo: string, hi: string, m: nat)
    requires IsRank(lo) && IsRank(hi) && m < BASE
    requires CeilingAt(lo, hi, 0) - Head(lo) >= 2 && m == (Head(lo) + CeilingAt(lo, hi, 0)) / 2
    ensures MidOfFirstGap(lo, hi, [Digit(m)])
  {
    DigitInCons(m, "", 0);
    DigitInTail(lo, 0);
    assert [Digit(m)] + "" == [Digit(m)];
    hide CeilingAt, DigitAt, Head;
  }

  /** One digit more in front: what held of the tails at `j` holds at `j + 1`. */
  lemma NextPlace(lo: string, hi: string, hi': string, rest: string, j: nat)
    requires IsRank(lo) && IsRank(hi) && IsRank(hi') && IsRank(rest)
    requires CeilingAt(lo, hi, j + 1) == CeilingAt(Tail(lo), hi', j)
    ensures var g := [Digit(Head(lo))] + rest;
            && IsRank(g) && (Follows(Tail(lo), hi', rest, j) ==> Follows(lo, hi, g, j + 1))
            && (Halves(Tail(lo), hi', rest, j) ==> Halves(lo, hi, g, j + 1))
  {
    DigitInCons(Head(lo), rest, j);
    DigitInTail(lo, j);
    hide CeilingAt, DigitAt, Head, Tail;
  }

  lemma FirstPlace(lo: string, hi: string, rest: string)
    requires IsRank(lo) && IsRank(hi) && IsRank(rest) && CeilingAt(lo, hi, 0) - Head(lo) < 2
    ensures IsRank([Digit(Head(lo))] + rest) && Follows(lo, hi, [Digit(Head(lo))] + rest, 0)
  {
    DigitInCons(Head(lo), rest, 0);
    DigitInTail(lo, 0);
    hide CeilingAt, DigitAt, Head, Tail;
  }

  lemma NextDigit(lo: string, hi: string, hi': string, rest: string)
    requires IsRank(lo) && IsRank(hi) && IsRank(hi') && MidOfFirstGap(Tail(lo), hi', rest)
    requires CeilingAt(lo, hi, 0) - Head(lo) < 2
    requires forall j: nat :: CeilingAt(lo, hi, j + 1) == CeilingAt(Tail(lo), hi', j)
    ensures MidOfFirstGap(lo, hi, [Digit(Head(lo))] + rest)
  {
    var g := [Digit(Head(lo))] + rest;
    FirstPlace(lo, hi, rest);
    hide Follows, Halves, CeilingAt, Head, Tail;
    forall j: nat | j < |g| - 1 ensures Follows(lo, hi, g, j) {
      if j > 0 {
        NextPlace(lo, hi, hi', rest, j - 1);
      }
    }
    NextPlace(lo, hi, hi', rest, |rest| - 1);
  }

  lemma {:induction false} AboveIsMid(lo: string)
    requires IsRank(lo)
    ensures MidOfFirstGap(lo, "", Above(lo))
  {
    NotYetParted(lo, "");
    if BASE - Head(lo) >= 2 {
      OneDigit(lo, "", (Head(lo) + BASE) / 2);
    } else {
      AboveIsMid(Tail(lo));
      NextDigit(lo, "", "", Above(Tail(lo)));
      assert lo[0] == Digit(Head(lo));
    }
  }

  lemma {:induction false} BelowIsMid(lo: string, hi: string)
    requires IsRank(lo) && IsRank(hi) && Room(lo, hi)
    ensures MidOfFirstGap(lo, hi, Below(lo, hi))
    decreases |hi|
  {
    var av, bv := Head(lo), Head(hi);
    HeadOrder(lo, hi);
    NotYetParted(lo, hi);
    if bv - av >= 2 {
      OneDigit(lo, hi, (av + bv) / 2);
    } else if av < bv {
      AboveIsMid(Tail(lo));
      CeilingOpens(lo, hi);
      NextDigit(lo, hi, "", Above(Tail(lo)));
    } else {
      RoomTail(lo, hi);
      BelowIsMid(Tail(lo), Tail(hi));
      CeilingInTail(lo, hi);
      NextDigit(lo, hi, Tail(hi), Below(Tail(lo), Tail(hi)));
    }
  }

  lemma CeilingOpens(lo: string, hi: string)
    requires IsRank(lo) && IsRank(hi) && Head(lo) < Head(hi)
    ensures forall j: nat :: CeilingAt(lo, hi, j + 1) == CeilingAt(Tail(lo), "", j)
  {
    DigitInTail(lo, 0);
    DigitInTail(hi, 0);
    hide DigitAt;
    assert DigitAt(lo, 0) < DigitAt(hi, 0);
  }

  /** Tails part at `i` exactly where the whole bounds part at `i + 1`. */
  lemma PartsInTail(lo: string, hi: string, i: nat)
    requires IsRank(lo) && IsRank(hi)
    ensures DigitAt(Tail(lo), i) < DigitAt(Tail(hi), i) <==> DigitAt(lo, i + 1) < DigitAt(hi, i + 1)
  {
    DigitInTail(lo, i);
    DigitInTail(hi, i);
    hide DigitAt, Tail;
  }

  lemma PartedInTail(lo: string, hi: string, k: nat)
    requires IsRank(lo) && IsRank(hi) && Head(lo) == Head(hi)
    ensures Parted(lo, hi, k + 1) <==> Parted(Tail(lo), Tail(hi), k)
  {
    DigitInTail(lo, 0);
    DigitInTail(hi, 0);
    hide DigitAt, Head, Tail;
    if Parted(lo, hi, k + 1) {
      var i: nat :| i < k + 1 && DigitAt(lo, i) < DigitAt(hi, i);
      PartsInTail(lo, hi, i - 1);
    }
    if Parted(Tail(lo), Tail(hi), k) {
      var i: nat :| i < k && DigitAt(Tail(lo), i) < DigitAt(Tail(hi), i);
      PartsInTail(lo, hi, i);
    }
  }

  lemma CeilingInTail(lo: string, hi: string)
    requires IsRank(lo) && IsRank(hi) && Head(lo) == Head(hi) && hi != "" && Tail(hi) != ""
    ensures forall j: nat :: CeilingAt(lo, hi, j + 1) == CeilingAt(Tail(lo), Tail(hi), j)
  {
    forall j: nat ensures CeilingAt(lo, hi, j + 1) == CeilingAt(Tail(lo), Tail(hi), j) {
      PartedInTail(lo, hi, j);
      DigitInTail(hi, j);
    }
  }

  /** Which rank is minted: the bounds are followed to the first place with room for a digit strictly
      between them, and there the lower middle is taken. */
  lemma MintsTheMiddle(lo: string, hi: string)
    requires Mintable(lo, hi)
    ensures MidOfFirstGap(lo, hi, Between(lo, hi))
  {
    if hi == "" {
      AboveIsMid(lo);
    } else {
      BelowIsMid(lo, hi);
    }
  }

  /** The refusal is exact: there is room precisely when some rank not ending in '0' lies
      strictly between the two. */
  lemma RoomIffCanonicalBetween(lo: string, hi: string)
    requires IsRank(lo) && IsRank(hi)
    ensures Room(lo, hi) <==> exists x :: Canonical(x) && Less(lo, x) && Less(x, hi)
  {
    if Room(lo, hi) {
      BelowIsBetween(lo, hi);
    }
    if x :| Canonical(x) && Less(lo, x) && Less(x, hi) {
      LessTransitive(lo, x, hi);
      if ZeroExtension(lo, hi) {
        NothingInZeroExtension(lo, x, hi);
      }
    }
  }

  /** The smallest bounds in order without a rank between them that could be minted. */
  lemma NoRoomBelowZeroExtension()
    ensures IsRank("a") && IsRank("a0") && Less("a", "a0") && !Mintable("a", "a0")
  {
    assert "a0"[0] == 'a' && "a0"[1] == '0' && "a0"[1..] == "0" && "a"[1..] == "";
    assert Less("", "0") && "a0"[..1] == "a";
  }

  lemma {:induction false} NothingInZeroExtension(lo: string, x: string, hi: string)
    requires IsRank(x) && ZeroExtension(lo, hi) && Less(lo, x) && Less(x, hi)
    ensures x[|x| - 1] == '0'
    decreases |x|
  {
    assert hi[0] == if lo == "" then '0' else lo[0];
    if |x| > 1 {
      assert x[1..][|x| - 2] == x[|x| - 1];
      assert x[0] == hi[0];
      if lo == "" {
        NothingInZeroExtension("", x[1..], hi[1..]);
      } else {
        assert hi[1..][..|lo| - 1] == hi[..|lo|][1..];
        NothingInZeroExtension(lo[1..], x[1..], hi[1..]);
      }
    }
  }

  // The loop.

  function Drop(s: string, i: nat): string {
    if i <= |s| then s[i..] else ""
  }

  predicate Mintable(lo: string, hi: string) {
    IsRank(lo) && IsRank(hi) && (hi == "" || Room(lo, hi))
  }

  /** Where the loop stands on its way to `goal`: `l` and `h` are what is left of the bounds and
      `result` is what is already fixed. Without room the two remainders agree for ever. */
  ghost predicate Standing(room: bool, goal: string, result: string, l: string, h: string, unbounded: bool) {
    && IsRank(l) && IsRank(h)
    && if unbounded then room && goal == result + Above(l)
       else if room then Room(l, h) && goal == result + Below(l, h)
       else ZeroExtension(l, h)
  }

  function Ceiling(h: string, unbounded: bool): nat
    requires IsRank(h)
  {
    if unbounded then BASE else Head(h)
  }

  lemma StandingStepUnbounded(goal: string, result: string, l: string, h: string)
    requires Standing(true, goal, result, l, h, true) && BASE - Head(l) < 2
    ensures Standing(true, goal, result + [Digit(Head(l))], Tail(l), Tail(h), true)
  {
    assert result + Above(l) == result + [l[0]] + Above(Tail(l));
  }

  lemma BelowDescends(l: string, h: string)
    requires IsRank(l) && IsRank(h) && Room(l, h) && Head(h) - Head(l) < 2
    ensures Head(l) <= Head(h)
    ensures Head(l) == Head(h) ==> Room(Tail(l), Tail(h)) && Below(l, h) == [Digit(Head(l))] + Below(Tail(l), Tail(h))
    ensures Head(l) < Head(h) ==> Below(l, h) == [Digit(Head(l))] + Above(Tail(l))
  {
    HeadOrder(l, h);
    if Head(l) == Head(h) {
      RoomTail(l, h);
    }
  }

  lemma StandingStepBounded(goal: string, result: string, l: string, h: string)
    requires Standing(true, goal, result, l, h, false) && Head(h) - Head(l) < 2
    ensures Standing(true, goal, result + [Digit(Head(l))], Tail(l), Tail(h), Head(l) < Head(h))
  {
    hide Less, ZeroExtension, Below, Above;
    BelowDescends(l, h);
    var rest := if Head(l) == Head(h) then Below(Tail(l), Tail(h)) else Above(Tail(l));
    assert result + ([Digit(Head(l))] + rest) == result + [Digit(Head(l))] + rest;
  }

  lemma StandingStep(room: bool, goal: string, result: string, l: string, h: string, unbounded: bool)
    requires Standing(room, goal, result, l, h, unbounded) && Ceiling(h, unbounded) - Head(l) < 2
    ensures Standing(room, goal, result + [Digit(Head(l))], Tail(l), Tail(h), unbounded || Head(l) < Head(h))
  {
    if unbounded {
      StandingStepUnbounded(goal, result, l, h);
    } else if room {
      StandingStepBounded(goal, result, l, h);
    } else {
      ZeroExtensionTail(l, h);
    }
  }

  lemma StandingDone(room: bool, goal: string, result: string, l: string, h: string, unbounded: bool)
    requires Standing(room, goal, result, l, h, unbounded) && Ceiling(h, unbounded) - Head(l) >= 2
    ensures room && goal == result + [Digit((Head(l) + Ceiling(h, unbounded)) / 2)]
  {
    if !room {
      ZeroExtensionTail(l, h);
    }
  }

  lemma StandingIsUnfinished(room: bool, goal: string, result: string, l: string, h: string, unbounded: bool)
    requires Standing(room, goal, result, l, h, unbounded)
    ensures room ==> |goal| > |result|
  {
    if room {
      Betweenness(l, if unbounded then "" else h);
    }
  }

  lemma DropStep(s: string, i: nat)
    requires IsRank(s)
    ensures Drop(s, i + 1) == Tail(Drop(s, i)) && IsRank(Drop(s, i))
    ensures Head(Drop(s, i)) == if i < |s| then Val(s[i]) else 0
  {
  }

  lemma ZeroExtensionTail(lo: string, hi: string)
    requires IsRank(lo) && IsRank(hi) && ZeroExtension(lo, hi)
    ensures ZeroExtension(Tail(lo), Tail(hi)) && Head(lo) == Head(hi)
  {
    assert Digit(0) == '0';
    if lo != "" {
      assert hi[0] == hi[..|lo|][0] == lo[0];
      assert hi[1..][..|lo| - 1] == hi[..|lo|][1..];
    }
  }

  method RankBetween(lo: string, hi: string) returns (r: Result<string, RankError>)
    ensures r.Success? <==> Mintable(lo, hi) && |Between(lo, hi)| <= DEPTH_GUARD
    ensures r.Success? ==> r.value == Between(lo, hi)
    ensures |lo| < DEPTH_GUARD && |hi| < DEPTH_GUARD ==> (r.Success? <==> Mintable(lo, hi))
    ensures r == Failure(OutsideAlphabet) <==> !IsRank(lo) || !IsRank(hi)
    ensures r == Failure(NotBelow) <==> IsRank(lo) && IsRank(hi) && lo != "" && hi != "" && !Less(lo, hi)
  {
    if !IsRank(lo) || !IsRank(hi) {
      return Failure(OutsideAlphabet);
    }
    if lo != "" && hi != "" && !Less(lo, hi) {
      return Failure(NotBelow);
    }
    StandingAtStart(lo, hi);
    hide Standing, Room, Less, Above, Below;
    ghost var room := Mintable(lo, hi);
    if room {
      Betweenness(lo, hi);
    }
    r := Descend(lo, hi, room, if room then Between(lo, hi) else "");
  }

  lemma StandingAtStart(lo: string, hi: string)
    requires IsRank(lo) && IsRank(hi) && (lo == "" || hi == "" || Less(lo, hi))
    ensures Standing(Mintable(lo, hi), if Mintable(lo, hi) then Between(lo, hi) else "", "", lo, hi, hi == "")
  {
    if Mintable(lo, hi) {
      assert "" + Between(lo, hi) == Between(lo, hi);
    }
    hide Above, Below;
  }

  /** The digit loop of `RankBetween`; `goal` is the rank to reach when there is `room` for one. */
  method Descend(lo: string, hi: string, ghost room: bool, ghost goal: string) returns (r: Result<string, RankError>)
    requires IsRank(lo) && IsRank(hi) && Standing(room, goal, "", lo, hi, hi == "")
    ensures r == if room && |goal| <= DEPTH_GUARD then Success(goal) else Failure(DepthGuard)
  {
    var result := "";
    var i := 0;
    var hiUnbounded := hi == "";
    hide Standing, Above, Below, Less;
    ghost var l, h := lo, hi;
    while true
      invariant i == |result| <= DEPTH_GUARD
      invariant l == Drop(lo, i) && h == Drop(hi, i)
      invariant Standing(room, goal, result, l, h, hiUnbounded)
      decreases DEPTH_GUARD - i
    {
      if i >= DEPTH_GUARD {
        StandingIsUnfinished(room, goal, result, l, h, hiUnbounded);
        return Failure(DepthGuard);
      }
      DropStep(lo, i);
      DropStep(hi, i);
      var av := if i < |lo| then Val(lo[i]) else 0;
      var bv := if hiUnbounded then BASE else if i < |hi| then Val(hi[i]) else 0;
      if bv - av >= 2 {
        StandingDone(room, goal, result, l, h, hiUnbounded);
        return Success(result + [Digit((av + bv) / 2)]);
      }
      StandingStep(room, goal, result, l, h, hiUnbounded);
      result := result + [Digit(av)];
      if av < bv {
        hiUnbounded := true;
      }
      i := i + 1;
      l, h := Tail(l), Tail(h);
    }
  }

  method AppendRank(after: string) returns (r: Result<string, RankError>)
    ensures r.Success? <==> IsRank(after) && |Above(after)| <= DEPTH_GUARD
    ensures r.Success? ==> r.value == Above(after) && Less(after, r.value) && Canonical(r.value)
  {
    r := RankBetween(after, "");
    if IsRank(after) {
      AboveIsAbove(after);
    }
  }
}
