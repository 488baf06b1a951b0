/** Version tokens `{seq}:{content_hash}` and the one place that reads them back: the tolerant
    parse of the seq prefix. */
module Tokens {
  import opened Wrappers
  import opened Strings

  /** SQLite's largest integer. */
  const SEQ_MAX: nat := 0x7FFF_FFFF_FFFF_FFFF

  predicate IsDigit(c: char) {
    '0' <= c <= '9'
  }

  function Decimal(n: nat): (s: string)
    ensures s != "" && forall i | 0 <= i < |s| :: IsDigit(s[i])
  {
    if n < 10 then [DigitChar(n)] else Decimal(n / 10) + [DigitChar(n % 10)]
  }

  function DigitChar(d: nat): (c: char)
    requires d < 10
    ensures IsDigit(c) && c as int - '0' as int == d
  {
    ('0' as int + d) as char
  }

  function MakeVersion(seq_: nat, contentHash: string): string {
    Decimal(seq_) + ":" + contentHash
  }

  /** Decimal digits, single underscores allowed between them. */
  function Digits(s: string): Option<nat>
    decreases |s|
  {
    if s == "" || !IsDigit(s[|s| - 1]) then None
    else
      var d: nat := s[|s| - 1] as int - '0' as int;
      var front := s[..|s| - 1];
      if front == "" then Some(d)
      else
        match Digits(if front[|front| - 1] == '_' then front[..|front| - 1] else front)
        case None => None
        case Some(n) => Some(10 * n + d)
  }

  /** `int(s)`; `None` stands for `ValueError`. */
  function ParseInt(s: string): Option<int> {
    var t := Strip(s);
    if t != "" && t[0] == '-' then
      match Digits(t[1..])
      case None => None
      case Some(n) => var m: int := n; Some(-m)
    else
      Digits(if t != "" && t[0] == '+' then t[1..] else t)
  }

  /** The seq prefix of a stored token: 0 when missing or malformed, capped at `SEQ_MAX`. */
  function SeqPrefix(token: Option<string>): (n: nat)
    ensures n <= SEQ_MAX
  {
    if token.None? || ':' !in token.value then 0
    else
      match ParseInt(UpTo(':', token.value))
      case None => 0
      case Some(n) => if n < 0 then 0 else if n > SEQ_MAX then SEQ_MAX else n
  }

  lemma {:induction false} DigitsOfDecimal(n: nat)
    ensures Digits(Decimal(n)) == Some(n)
  {
    var s := Decimal(n);
    if n >= 10 {
      DigitsOfDecimal(n / 10);
      assert s[..|s| - 1] == Decimal(n / 10);
    }
  }

  lemma ParseIntOfDecimal(n: nat)
    ensures ParseInt(Decimal(n)) == Some(n)
  {
    var s := Decimal(n);
    assert !IsSpace(s[0]) && !IsSpace(s[|s| - 1]) && s[0] != '-' && s[0] != '+';
    DigitsOfDecimal(n);
  }

  /** The prefix of a minted token reads back as the seq it was minted from. */
  lemma PrefixOfMinted(n: nat, contentHash: string)
    requires n <= SEQ_MAX
    ensures SeqPrefix(Some(MakeVersion(n, contentHash))) == n
  {
    var s := Decimal(n);
    assert ':' !in s;
    UpToConcat(':', s, contentHash);
    assert MakeVersion(n, contentHash)[|s|] == ':';
    ParseIntOfDecimal(n);
  }

  /** A token is its seq in decimal, the first colon, and the content hash. */
  lemma TokenParts(n: nat, contentHash: string)
    ensures var token, s := MakeVersion(n, contentHash), Decimal(n);
            ':' !in s && token == s + ":" + contentHash && UpTo(':', token) == s && token[|s| + 1..] == contentHash
  {
    var s := Decimal(n);
    assert ':' !in s;
    UpToConcat(':', s, contentHash);
  }

  /** So a token tells both the seq and the contents it was minted for. */
  lemma TokensTellApart(m: nat, a: string, n: nat, b: string)
    requires MakeVersion(m, a) == MakeVersion(n, b)
    ensures m == n && a == b
  {
    TokenParts(m, a);
    TokenParts(n, b);
    DigitsOfDecimal(m);
    DigitsOfDecimal(n);
  }

  /** A decimal numeral as one writes it: digits only, no zero in front. */
  predicate Numeral(s: string) {
    s != "" && (forall i | 0 <= i < |s| :: IsDigit(s[i])) && (s[0] == '0' ==> |s| == 1)
  }

  lemma {:induction false} DecimalIsNumeral(n: nat)
    ensures Numeral(Decimal(n)) && (Decimal(n)[0] == '0' ==> n == 0)
  {
    if n >= 10 {
      DecimalIsNumeral(n / 10);
    }
  }

  /** Every numeral is the decimal of the number it reads as. */
  lemma {:induction false} NumeralIsDecimal(s: string)
    requires Numeral(s)
    ensures Digits(s).Some? && Decimal(Digits(s).value) == s
  {
    var front, c := s[..|s| - 1], s[|s| - 1];
    assert s == front + [c] && IsDigit(c);
    if |s| == 1 {
      assert DigitChar(c as int - '0' as int) == c;
    } else {
      assert Numeral(front) && front[0] == s[0] != '0' && s[|s| - 2] != '_';
      NumeralIsDecimal(front);
      DecimalIsNumeral(Digits(front).value);
      hide *;
      DigitsStep(s);
      LastDigit(Digits(front).value, c);
    }
  }

  lemma DigitsStep(s: string)
    requires |s| > 1 && IsDigit(s[|s| - 1]) && s[|s| - 2] != '_'
    ensures Digits(s) == match Digits(s[..|s| - 1])
                         case None => None
                         case Some(n) => Some(10 * n + (s[|s| - 1] as int - '0' as int))
  {
    assert s[..|s| - 1][|s| - 2] == s[|s| - 2];
  }

  lemma LastDigit(n: nat, c: char)
    requires IsDigit(c) && n > 0
    ensures Decimal(10 * n + (c as int - '0' as int)) == Decimal(n) + [c]
  {
    var d := c as int - '0' as int;
    assert (10 * n + d) / 10 == n && (10 * n + d) % 10 == d;
  }

  lemma DecimalExamples()
    ensures Decimal(0) == "0" && Decimal(7) == "7" && Decimal(1204) == "1204"
  {
    assert Decimal(1) == "1" && Decimal(12) == "12" && Decimal(120) == "120";
  }

  /** Text before the first colon that is no number, or a negative one, counts for nothing; so does
      a token without a colon; a number beyond the seq space counts as its end. */
  lemma PrefixOfAny(before: string, after: string)
    requires ':' !in before
    ensures SeqPrefix(None) == 0 && SeqPrefix(Some(before)) == 0
    ensures var n := ParseInt(before);
            SeqPrefix(Some(before + ":" + after)) ==
            if n.None? || n.value < 0 then 0 else if n.value > SEQ_MAX then SEQ_MAX else n.value
  {
    UpToConcat(':', before, after);
    assert (before + ":" + after)[|before|] == ':';
  }

  /** What Python's `int` makes of a few prefixes. */
  lemma ParsedNumbers()
    ensures ParseInt("12") == ParseInt("+12") == ParseInt("1_2") == ParseInt("012") == Some(12) && ParseInt("-3") == Some(-3)
  {
    assert Digits("1") == Some(1) && Digits("0") == Some(0) && "12"[..1] == "1" && "01"[..1] == "0";
    assert Digits("12") == Some(12) && Digits("01") == Some(1);
    assert "1_2"[..2] == "1_" && "1_"[..1] == "1" && "012"[..2] == "01";
    assert "+12"[1..] == "12" && "-3"[1..] == "3";
  }

  lemma ParsedSpace()
    ensures ParseInt(" 1") == ParseInt("1\t") == Some(1)
  {
    assert Strip("1") == "1" && " 1"[1..] == "1" && "1\t"[..1] == "1";
    assert Digits("1") == Some(1);
  }

  lemma NotNumbers()
    ensures ParseInt("") == ParseInt("x") == ParseInt("_1") == ParseInt("1_") == ParseInt("1__2") == None
  {
    assert "_1"[..1] == "_" && "_"[..0] == "" && "1__2"[..3] == "1__" && "1__"[..2] == "1_";
    assert Digits("") == None && Digits("1_") == None;
    assert Digits("_1") == None;
  }
}
