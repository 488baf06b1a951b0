/** Ordinal string comparison: the order Python's `<` gives two `str` values and the order
    the board and the rank space are sorted by. */
module Strings {

  predicate Less(a: string, b: string) {
    if |b| == 0 then false
    else if |a| == 0 then true
    else a[0] < b[0] || (a[0] == b[0] && Less(a[1..], b[1..]))
  }

  lemma {:induction false} LessIrreflexive(a: string)
    ensures !Less(a, a)
  {
    if a != "" {
      LessIrreflexive(a[1..]);
    }
  }

  lemma {:induction false} LessTransitive(a: string, b: string, c: string)
    requires Less(a, b) && Less(b, c)
    ensures Less(a, c)
  {
    if a != "" && a[0] == b[0] == c[0] {
      LessTransitive(a[1..], b[1..], c[1..]);
    }
  }

  lemma {:induction false} LessTotal(a: string, b: string)
    ensures Less(a, b) || a == b || Less(b, a)
  {
    if a != "" && b != "" && a[0] == b[0] {
      LessTotal(a[1..], b[1..]);
      assert a == [a[0]] + a[1..] && b == [b[0]] + b[1..];
    }
  }

  lemma LessAsymmetric(a: string, b: string)
    requires Less(a, b)
    ensures !Less(b, a) && a != b
  {
    LessIrreflexive(a);
    if Less(b, a) {
      LessTransitive(a, b, a);
    }
  }

  /** A difference inside two equally long prefixes decides the comparison. */
  lemma {:induction false} LessByPrefix(a: string, b: string, c: string, d: string)
    requires |a| == |b| && Less(a, b)
    ensures Less(a + c, b + d)
  {
    assert (a + c)[0] == a[0] && (b + d)[0] == b[0];
    assert (a + c)[1..] == a[1..] + c && (b + d)[1..] == b[1..] + d;
    if a[0] == b[0] {
      LessByPrefix(a[1..], b[1..], c, d);
    }
  }

  /** A shared prefix does not take part in the comparison. */
  lemma {:induction false} LessUnderPrefix(p: string, a: string, b: string)
    ensures Less(p + a, p + b) <==> Less(a, b)
  {
    if p == "" {
      assert p + a == a && p + b == b;
    } else {
      assert (p + a)[1..] == p[1..] + a && (p + b)[1..] == p[1..] + b;
      LessUnderPrefix(p[1..], a, b);
    }
  }

  /** `a` ends at `i`, or is less there, and up to there the two agree. */
  predicate LessAt(a: string, b: string, i: nat) {
    i < |b| && i <= |a| && a[..i] == b[..i] && (i == |a| || a[i] < b[i])
  }

  lemma LessAtTail(a: string, b: string, i: nat)
    requires i > 0 && LessAt(a, b, i)
    ensures a[0] == b[0] && LessAt(a[1..], b[1..], i - 1)
  {
    assert a[0] == a[..i][0] == b[..i][0] == b[0];
    assert a[1..][..i - 1] == a[..i][1..] && b[1..][..i - 1] == b[..i][1..];
  }

  /** The order in one sentence: a proper prefix comes first, otherwise the first difference decides. */
  lemma {:induction false} LessIff(a: string, b: string)
    ensures Less(a, b) <==> exists i :: LessAt(a, b, i)
  {
    if i: nat :| LessAt(a, b, i) {
      if i > 0 {
        LessAtTail(a, b, i);
        LessIff(a[1..], b[1..]);
      }
    }
    if Less(a, b) {
      if a != "" && a[0] == b[0] {
        LessIff(a[1..], b[1..]);
        var i: nat :| LessAt(a[1..], b[1..], i);
        assert a[..i + 1] == [a[0]] + a[1..][..i] && b[..i + 1] == [b[0]] + b[1..][..i];
        assert LessAt(a, b, i + 1);
      } else {
        assert LessAt(a, b, 0);
      }
    }
  }

  // The pieces of Python's `str` the spine leans on (ASCII whitespace and digits only).

  predicate IsSpace(c: char) {
    c == ' ' || '\t' <= c <= '\r' || '\U{1C}' <= c <= '\U{1F}'
  }

  /** `not s.strip()` */
  predicate Blank(s: string) {
    forall i | 0 <= i < |s| :: IsSpace(s[i])
  }

  function Strip(s: string): string {
    if s == "" then ""
    else if IsSpace(s[0]) then Strip(s[1..])
    else if IsSpace(s[|s| - 1]) then Strip(s[..|s| - 1])
    else s
  }

  /** White space before `i` and from `j` on, and none at the ends in between. */
  predicate Core(s: string, i: nat, j: nat) {
    && i <= j <= |s| && (forall k | 0 <= k < |s| && !(i <= k < j) :: IsSpace(s[k]))
    && (i < j ==> !IsSpace(s[i]) && !IsSpace(s[j - 1]))
  }

  lemma CoreOfRest(s: string, i: nat, j: nat)
    requires s != "" && IsSpace(s[0]) && Core(s[1..], i, j)
    ensures Core(s, i + 1, j + 1) && s[1..][i..j] == s[i + 1..j + 1]
  {
    hide IsSpace;
    assert forall n | 1 <= n < |s| :: s[n] == s[1..][n - 1];
  }

  lemma CoreOfFront(s: string, i: nat, j: nat)
    requires s != "" && IsSpace(s[|s| - 1]) && Core(s[..|s| - 1], i, j)
    ensures Core(s, i, j) && s[..|s| - 1][i..j] == s[i..j]
  {
    hide IsSpace;
    assert forall n | 0 <= n < |s| - 1 :: s[n] == s[..|s| - 1][n];
  }

  /** Stripping drops white space at both ends and nothing else. */
  lemma {:induction false} StripIs(s: string) returns (i: nat, j: nat)
    ensures Core(s, i, j) && Strip(s) == s[i..j]
  {
    hide IsSpace;
    if s == "" {
      i, j := 0, 0;
    } else if IsSpace(s[0]) {
      i, j := StripIs(s[1..]);
      CoreOfRest(s, i, j);
      i, j := i + 1, j + 1;
    } else if IsSpace(s[|s| - 1]) {
      i, j := StripIs(s[..|s| - 1]);
      CoreOfFront(s, i, j);
    } else {
      i, j := 0, |s|;
    }
  }

  /** A blank text is one that strips to nothing. */
  lemma BlankIffStripsToNothing(s: string)
    ensures Blank(s) <==> Strip(s) == ""
  {
    var i, j := StripIs(s);
    hide IsSpace, Strip;
  }

  /** The part of `s` before the first `c`, or all of it. */
  function UpTo(c: char, s: string): (r: string)
    ensures r <= s && c !in r
  {
    if s == "" || s[0] == c then "" else [s[0]] + UpTo(c, s[1..])
  }

  lemma {:induction false} UpToConcat(c: char, a: string, b: string)
    requires c !in a
    ensures UpTo(c, a + [c] + b) == a
  {
    if a == "" {
      assert (a + [c] + b)[0] == c;
    } else {
      assert (a + [c] + b)[1..] == a[1..] + [c] + b;
      assert a == [a[0]] + a[1..];
      UpToConcat(c, a[1..], b);
    }
  }
}
