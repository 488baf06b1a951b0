/** What the rank arithmetic promises about whole lists: inserting anywhere, appending for
    ever, and the out-of-band rebalance. */
module RankLists {
  import opened Wrappers
  import opened Strings
  import opened Ordering

  // ---- Insertion closure ----------------------------------------------------------------

  /** A column's ranks: strictly increasing and none ending in the zero digit. */
  ghost predicate WellRanked(ranks: seq<string>) {
    && (forall i | 0 <= i < |ranks| :: Canonical(ranks[i]))
    && (forall i | 0 < i < |ranks| :: Less(ranks[i - 1], ranks[i]))
  }

  function Before(ranks: seq<string>, k: nat): string
    requires k <= |ranks|
  {
    if k == 0 then "" else ranks[k - 1]
  }

  function After(ranks: seq<string>, k: nat): string
    requires k <= |ranks|
  {
    if k == |ranks| then "" else ranks[k]
  }

  /** No slot of a well-ranked list is ever without room. */
  lemma SlotHasRoom(ranks: seq<string>, k: nat)
    requires WellRanked(ranks) && k <= |ranks|
    ensures Mintable(Before(ranks, k), After(ranks, k))
  {
    var lo, hi := Before(ranks, k), After(ranks, k);
    LessIrreflexive(lo);
    assert |lo| == |hi| ==> hi[..|lo|] == hi;
  }

  /** The list after minting a rank for slot `k`; `None` when the depth guard refuses. */
  function Insert(ranks: seq<string>, k: nat): Option<seq<string>>
    requires k <= |ranks|
  {
    var lo, hi := Before(ranks, k), After(ranks, k);
    if Mintable(lo, hi) && |Between(lo, hi)| <= DEPTH_GUARD
    then Some(ranks[..k] + [Between(lo, hi)] + ranks[k..])
    else None
  }

  predicate Slots(positions: seq<nat>, length: nat) {
    forall j | 0 <= j < |positions| :: positions[j] <= length + j
  }

  function InsertAll(ranks: seq<string>, positions: seq<nat>): (r: Option<seq<string>>)
    requires Slots(positions, |ranks|)
    ensures r.Some? ==> |r.value| == |ranks| + |positions|
    decreases |positions|
  {
    if positions == [] then Some(ranks)
    else
      match Insert(ranks, positions[0])
      case None => None
      case Some(next) =>
        SlotsRest(positions, |ranks|);
        InsertAll(next, positions[1..])
  }

  lemma SlotsRest(positions: seq<nat>, length: nat)
    requires Slots(positions, length) && positions != []
    ensures Slots(positions[1..], length + 1)
  {
    forall j | 0 <= j < |positions| - 1 ensures positions[1..][j] <= length + 1 + j {
      assert positions[1..][j] == positions[j + 1];
    }
  }

  ghost predicate NoLongerThan(ranks: seq<string>, m: nat) {
    forall i | 0 <= i < |ranks| :: |ranks[i]| <= m
  }

  lemma InsertKeepsOrder(ranks: seq<string>, k: nat, m: nat)
    requires WellRanked(ranks) && k <= |ranks| && NoLongerThan(ranks, m)
    ensures Insert(ranks, k).Some? ==> WellRanked(Insert(ranks, k).value) && NoLongerThan(Insert(ranks, k).value, m + 1)
    ensures Insert(ranks, k).None? ==> m >= DEPTH_GUARD
  {
    SlotHasRoom(ranks, k);
    Betweenness(Before(ranks, k), After(ranks, k));
  }

  /** Insertion closure: any run of inserts at any slots keeps the list strictly sorted and free
      of ranks ending in '0'; lengths grow by at most one digit an insert, so the depth guard is
      the only way to fail and cannot strike before the 257th insert. */
  lemma {:induction false} InsertionClosure(ranks: seq<string>, positions: seq<nat>, m: nat)
    requires WellRanked(ranks) && Slots(positions, |ranks|) && NoLongerThan(ranks, m)
    ensures var r := InsertAll(ranks, positions);
            && (r.Some? ==> WellRanked(r.value) && NoLongerThan(r.value, m + |positions|))
            && (m + |positions| <= DEPTH_GUARD ==> r.Some?)
    decreases |positions|
  {
    if positions != [] {
      InsertKeepsOrder(ranks, positions[0], m);
      if Insert(ranks, positions[0]).Some? {
        SlotsRest(positions, |ranks|);
        InsertionClosure(Insert(ranks, positions[0]).value, positions[1..], m + 1);
      }
    }
  }

  // ---- The append chain -----------------------------------------------------------------

  /** The k-th rank seeded from the empty board by appending only. */
  function Appended(k: nat): Option<string> {
    if k == 0 then Some("")
    else
      match Appended(k - 1)
      case None => None
      case Some(last) =>
        if IsRank(last) && |Above(last)| <= DEPTH_GUARD then Some(Above(last)) else None
  }

  const SEED_DIGITS: string := "irvxyz"

  function Zs(n: nat): (s: string)
    ensures |s| == n && IsRank(s)
  {
    if n == 0 then "" else "z" + Zs(n - 1)
  }

  /** The closed form of the k-th appended rank. */
  function ChainRank(k: nat): (s: string)
    requires k >= 1
    ensures IsRank(s) && |s| == (k + 5) / 6
  {
    Zs((k - 1) / 6) + [SEED_DIGITS[(k - 1) % 6]]
  }

  lemma ZIsLast()
    ensures Val('z') == 35
  {
  }

  lemma AboveOfZ(t: string)
    requires IsRank(t)
    ensures Above("z" + t) == "z" + Above(t)
  {
    ZIsLast();
    assert ("z" + t)[1..] == t;
  }

  lemma {:induction false} AboveOfZs(n: nat, s: string)
    requires IsRank(s)
    ensures Above(Zs(n) + s) == Zs(n) + Above(s)
  {
    if n == 0 {
      assert "" + s == s && "" + Above(s) == Above(s);
    } else {
      var t := Zs(n - 1) + s;
      AboveOfZs(n - 1, s);
      AboveOfZ(t);
      hide Above;
      assert Zs(n) + s == "z" + t;
      assert Zs(n) + Above(s) == "z" + (Zs(n - 1) + Above(s));
    }
  }

  lemma AboveOfDigit(c: char)
    requires InAlphabet(c)
    ensures Above([c]) == if c == 'z' then "zi" else [Digit((Val(c) + BASE) / 2)]
  {
    if c == 'z' {
      FirstAppended();
      AboveOfZ("");
      assert [c] == "z" + "";
    }
  }

  lemma FirstAppended()
    ensures Above("") == "i" == ChainRank(1)
  {
    assert Digit(18) == 'i';
  }

  lemma ZsThenZ(n: nat)
    ensures Zs(n) + "z" == Zs(n + 1)
  {
    if n > 0 {
      ZsThenZ(n - 1);
      assert Zs(n) + "z" == "z" + (Zs(n - 1) + "z");
    }
  }

  lemma ChainStep(k: nat)
    requires k >= 1
    ensures Above(ChainRank(k)) == ChainRank(k + 1)
  {
    var q, d := (k - 1) / 6, (k - 1) % 6;
    var c := SEED_DIGITS[d];
    AboveOfZs(q, [c]);
    AboveOfDigit(c);
    if d == 5 {
      assert k / 6 == q + 1 && k % 6 == 0;
      ZsThenZ(q);
      assert Zs(q) + "zi" == Zs(q) + "z" + "i";
    } else {
      assert k / 6 == q && k % 6 == d + 1;
      SeedDigitStep(d);
    }
  }

  lemma SeedDigitStep(d: nat)
    requires d < 5
    ensures InAlphabet(SEED_DIGITS[d]) && SEED_DIGITS[d] != 'z'
    ensures Digit((Val(SEED_DIGITS[d]) + BASE) / 2) == SEED_DIGITS[d + 1]
  {
  }

  /** The chain never falls back. */
  lemma ChainIncreases(k: nat)
    requires k >= 1
    ensures Less(ChainRank(k), ChainRank(k + 1))
  {
    ChainStep(k);
    AboveIsAbove(ChainRank(k));
  }

  /** Append law: the k-th appended rank is the closed form, for exactly the first 1536. */
  lemma {:induction false} AppendLaw(k: nat)
    requires k >= 1
    ensures Appended(k) == if k <= 1536 then Some(ChainRank(k)) else None
  {
    if k == 1 {
      FirstAppended();
      assert Appended(0) == Some("");
    } else {
      AppendLaw(k - 1);
      if k - 1 <= 1536 {
        ChainStep(k - 1);
        assert Appended(k - 1) == Some(ChainRank(k - 1));
        assert |ChainRank(k)| <= DEPTH_GUARD <==> k <= 1536;
      }
    }
  }

  // ---- Rebalance ------------------------------------------------------------------------

  function Power(width: nat): (p: nat)
    ensures p >= 1
  {
    if width == 0 then 1 else BASE * Power(width - 1)
  }

  /** `value` in exactly `width` base-36 digits, most significant first, wrapping beyond. */
  function Encoded(value: nat, width: nat): (s: string)
    ensures |s| == width && IsRank(s)
  {
    if width == 0 then "" else Encoded(value / BASE, width - 1) + [Digit(value % BASE)]
  }

  function Decoded(s: string): nat
    requires IsRank(s)
  {
    if s == "" then 0 else BASE * Decoded(s[..|s| - 1]) + Val(s[|s| - 1])
  }

  method EncodeFixed(value: nat, width: nat) returns (s: string)
    ensures s == Encoded(value, width)
  {
    var rest: nat := value;
    var digits: string := "";
    for i := 0 to width
      invariant Encoded(value, width) == Encoded(rest, width - i) + Reversed(digits)
    {
      ghost var before := digits;
      var d := Digit(rest % BASE);
      digits := digits + [d];
      rest := rest / BASE;
      assert Reversed(digits) == [d] + Reversed(before) by {
        assert digits[..|digits| - 1] == before;
      }
    }
    s := Reversed(digits);
  }

  function Reversed(s: string): string {
    if s == "" then "" else [s[|s| - 1]] + Reversed(s[..|s| - 1])
  }

  lemma {:induction false} DecodedEncoded(value: nat, width: nat)
    requires value < Power(width)
    ensures Decoded(Encoded(value, width)) == value
  {
    if width > 0 {
      DecodedEncoded(value / BASE, width - 1);
      var s := Encoded(value, width);
      assert s[..|s| - 1] == Encoded(value / BASE, width - 1);
      assert Digit(value % BASE) == s[|s| - 1];
      assert Digit(Val(s[|s| - 1])) == s[|s| - 1];
    }
  }

  /** Fixed-width encoding turns numeric order into string order. */
  lemma {:induction false} EncodedOrder(v: nat, w: nat, width: nat)
    requires v < w < Power(width)
    ensures Less(Encoded(v, width), Encoded(w, width))
  {
    var a, b := Encoded(v / BASE, width - 1), Encoded(w / BASE, width - 1);
    if v / BASE < w / BASE {
      EncodedOrder(v / BASE, w / BASE, width - 1);
      LessByPrefix(a, b, [Digit(v % BASE)], [Digit(w % BASE)]);
    } else {
      LessUnderPrefix(a, [Digit(v % BASE)], [Digit(w % BASE)]);
    }
  }

  function Step(n: nat, width: nat): (step: nat)
    ensures Power(width) >= n + 1 ==> step >= 1 && step * (n + 1) <= Power(width)
  {
    var step := Power(width) / (n + 1);
    if step > 1 then step else 1
  }

  lemma {:induction false} PowerIs(width: nat)
    ensures Power(0) == 1 && Power(width + 1) == 36 * Power(width)
  {
  }

  /** The step is the widest even one: it leaves room for one more of it at the end, and no wider
      one does. */
  lemma StepIsWidest(n: nat, width: nat)
    requires Power(width) >= n + 1
    ensures Step(n, width) * (n + 1) <= Power(width) < (Step(n, width) + 1) * (n + 1)
  {
    hide Power;
    QuotientIsWidest(Power(width), n + 1);
  }

  lemma QuotientIsWidest(p: nat, q: nat)
    requires p >= q >= 1
    ensures p / q >= 1 && p / q * q <= p < (p / q + 1) * q
  {
    assert p == q * (p / q) + p % q;
  }

  /** The plan: ids in their given order, evenly spaced ranks of one width. The source takes
      `width` from a logarithm; only `36^width > n` matters. */
  method Rebalance(orderedIds: seq<string>, width: nat) returns (plan: seq<(string, string)>)
    ensures |plan| == |orderedIds|
    ensures forall i | 0 <= i < |plan| :: plan[i] == (orderedIds[i], PlannedRanks(|orderedIds|, width)[i])
  {
    var n := |orderedIds|;
    var step := Step(n, width);
    plan := [];
    for i := 0 to n
      invariant |plan| == i
      invariant forall j | 0 <= j < i :: plan[j] == (orderedIds[j], Encoded(step * (j + 1), width))
    {
      var rank := EncodeFixed(step * (i + 1), width);
      plan := plan + [(orderedIds[i], rank)];
    }
  }

  function PlannedRanks(n: nat, width: nat): (ranks: seq<string>)
    ensures |ranks| == n && forall i | 0 <= i < n :: |ranks[i]| == width && IsRank(ranks[i])
  {
    seq(n, i requires 0 <= i < n => Encoded(Step(n, width) * (i + 1), width))
  }

  lemma ScaledBelow(step: nat, i: nat, n: nat, p: nat)
    requires step >= 1 && i < n && step * (n + 1) <= p
    ensures 1 <= step * (i + 1) < p
  {
    MulMonotone(step, 1, i + 1);
    MulMonotone(step, i + 2, n + 1);
    assert step * (i + 2) == step * (i + 1) + step;
  }

  lemma MulMonotone(a: nat, b: nat, c: nat)
    requires b <= c
    ensures a * b <= a * c
  {
    assert a * c == a * b + a * (c - b);
  }

  lemma PlannedValue(n: nat, width: nat, i: nat)
    requires Power(width) >= n + 1 && i < n
    ensures var rank := PlannedRanks(n, width)[i];
            Decoded(rank) == Step(n, width) * (i + 1) && !AllZero(rank)
  {
    var rank := PlannedRanks(n, width)[i];
    ScaledBelow(Step(n, width), i, n, Power(width));
    DecodedEncoded(Step(n, width) * (i + 1), width);
    if AllZero(rank) {
      DecodedZeros(rank);
    }
  }

  lemma PlannedOrder(n: nat, width: nat, i: nat)
    requires Power(width) >= n + 1 && 0 < i < n
    ensures Less(PlannedRanks(n, width)[i - 1], PlannedRanks(n, width)[i])
  {
    var step := Step(n, width);
    ScaledBelow(step, i, n, Power(width));
    assert step * (i + 1) == step * i + step;
    EncodedOrder(step * i, step * (i + 1), width);
  }

  lemma PlannedSlot(n: nat, width: nat, k: nat)
    requires Power(width) >= n + 1 && k <= n
    ensures Mintable(Before(PlannedRanks(n, width), k), After(PlannedRanks(n, width), k))
    ensures width < DEPTH_GUARD ==> Insert(PlannedRanks(n, width), k).Some?
  {
    var ranks := PlannedRanks(n, width);
    var lo, hi := Before(ranks, k), After(ranks, k);
    if k < n {
      PlannedValue(n, width, k);
      if k > 0 {
        PlannedOrder(n, width, k);
        LessIrreflexive(lo);
        assert hi[..|lo|] == hi;
      }
    }
    Betweenness(lo, hi);
  }

  /** Rebalance: no planned rank wraps, the plan is strictly increasing, and every one of its
      n + 1 slots has room for another rank within the depth guard. */
  lemma RebalancePlan(n: nat, width: nat)
    requires Power(width) >= n + 1
    ensures var ranks := PlannedRanks(n, width);
            && (forall i | 0 <= i < n :: Decoded(ranks[i]) == Step(n, width) * (i + 1))
            && (forall i | 0 < i < n :: Less(ranks[i - 1], ranks[i]))
            && (forall k: nat | k <= n :: Mintable(Before(ranks, k), After(ranks, k)))
            && (width < DEPTH_GUARD ==> forall k: nat | k <= n :: Insert(ranks, k).Some?)
  {
    forall i | 0 <= i < n { PlannedValue(n, width, i); }
    forall i | 0 < i < n { PlannedOrder(n, width, i); }
    forall k: nat | k <= n { PlannedSlot(n, width, k); }
  }

  predicate AllZero(s: string) {
    forall i | 0 <= i < |s| :: s[i] == '0'
  }

  lemma DecodedZeros(s: string)
    requires AllZero(s)
    ensures IsRank(s) && Decoded(s) == 0
  {
    if s != "" {
      DecodedZeros(s[..|s| - 1]);
      assert Digit(0) == '0' && Digit(Val('0')) == '0';
    }
  }
}
