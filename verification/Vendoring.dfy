/** Stamping the vendored module and reading the stamp back. */
module Vendoring {
  import opened Wrappers
  import opened Strings

  newtype byte = x: int | 0 <= x < 256

  type Bytes = seq<byte>

  /** Decoding with replacement characters; only its effect on ASCII matters here. */
  type Decoder = Bytes -> string

  type BodyHash = Bytes -> string

  const HASH_LABEL := "# PROVENANCE_HASH:"

  function Line1(): string {
    "# TACTICAL " + ("SECURITY CONTROL" + (": VENDORED FROM " + "CLAUNKER-HERMES"))
  }

  function Line2(): string {
    "# DO NOT EDIT " + ("THIS FILE DIRECTLY." + (" CHANGES WILL " + "BE OVERWRITTEN."))
  }

  function Banner(): string {
    "# =====" + (" BEGIN VENDORED " + "BODY ")
  }

  function Explanation(): string {
    Promise() + ("below this line)" + " =====\n")
  }

  function Promise(): string {
    "(sha256 in header " + "covers every byte "
  }

  function Delimiter(): string {
    Banner() + Explanation()
  }

  /** Printable ASCII other than the equals sign: what the header lines are made of. */
  predicate Plain(s: string) {
    forall c | c in s :: ' ' <= c <= '~' && c != '='
  }

  predicate IsAscii(s: string) {
    forall c | c in s :: c < '\U{80}'
  }

  predicate IsHex(s: string) {
    forall c | c in s :: '0' <= c <= '9' || 'a' <= c <= 'f'
  }

  function Encode(s: string): (b: Bytes)
    requires IsAscii(s)
    ensures |b| == |s| && forall i | 0 <= i < |s| :: b[i] as int == s[i] as int
  {
    seq(|s|, i requires 0 <= i < |s| => (assert s[i] in s; s[i] as int as byte))
  }

  function Header(hash: string): string {
    Line1() + "\n" + (Line2() + "\n" + (HASH_LABEL + " " + hash + "\n"))
  }

  lemma Line1IsPlain()
    ensures Plain(Line1()) && |Line1()| > 2 && Line1()[2] == 'T'
  {
    assert Plain("# TACTICAL ") && Plain("SECURITY CONTROL") && Plain(": VENDORED FROM ") && Plain("CLAUNKER-HERMES");
  }

  lemma Line2IsPlain()
    ensures Plain(Line2()) && |Line2()| > 2 && Line2()[2] == 'D'
  {
    assert Plain("# DO NOT EDIT ") && Plain("THIS FILE DIRECTLY.") && Plain(" CHANGES WILL ") && Plain("BE OVERWRITTEN.");
  }

  lemma LabelIsPlain()
    ensures Plain(HASH_LABEL) && |HASH_LABEL| > 2 && HASH_LABEL[2] == 'P'
    ensures HASH_LABEL == "# PROVENANCE_HASH" + ":" && ':' !in "# PROVENANCE_HASH"
  {
  }

  lemma DelimiterIsAscii()
    ensures IsAscii(Delimiter())
  {
    ExplanationIsAscii();
    hide Explanation;
    assert IsAscii("# =====") && IsAscii(" BEGIN VENDORED ") && IsAscii("BODY ");
  }

  lemma ExplanationIsAscii()
    ensures IsAscii(Explanation())
  {
    PromiseIsAscii();
    hide Promise;
    assert IsAscii("below this line)") && IsAscii(" =====\n");
  }

  lemma PromiseIsAscii()
    ensures IsAscii(Promise())
  {
    assert IsAscii("(sha256 in header ") && IsAscii("covers every byte ");
  }

  lemma HeaderIsAscii(hash: string)
    requires IsAscii(hash)
    ensures IsAscii(Header(hash) + Delimiter()) && IsAscii(Header(hash)) && IsAscii(Delimiter())
  {
    Line1IsPlain();
    Line2IsPlain();
    LabelIsPlain();
    DelimiterIsAscii();
    hide Line1, Line2, Delimiter, HASH_LABEL;
  }

  function StampModule(body: Bytes, hash: string): Bytes
    requires IsAscii(hash)
  {
    HeaderIsAscii(hash);
    Encode(Header(hash) + Delimiter()) + body
  }

  predicate OccursAt(hay: Bytes, needle: Bytes, i: int) {
    0 <= i <= i + |needle| <= |hay| && hay[i..i + |needle|] == needle
  }

  /** `hay.find(needle)`: the first occurrence, or -1. */
  function Find(hay: Bytes, needle: Bytes): (i: int)
    ensures i >= 0 ==> OccursAt(hay, needle, i)
    ensures forall j | 0 <= j && (i < 0 || j < i) :: !OccursAt(hay, needle, j)
    ensures i >= -1
  {
    if |needle| > |hay| then -1
    else if hay[..|needle|] == needle then 0
    else if hay == [] then -1
    else
      var i := Find(hay[1..], needle);
      assert forall j | 0 < j && OccursAt(hay, needle, j) :: hay[j..j + |needle|] == hay[1..][j - 1..j - 1 + |needle|];
      assert forall j | 0 < j && OccursAt(hay, needle, j) :: OccursAt(hay[1..], needle, j - 1);
      if i < 0 then -1 else i + 1
  }

  function Marker(): Bytes {
    HeaderIsAscii("");
    Encode(Delimiter())
  }

  /** Everything after the first delimiter; `None` when there is none. */
  function StripHeaderBody(deployed: Bytes): Option<Bytes> {
    var i := Find(deployed, Marker());
    if i < 0 then None else Some(deployed[i + |Marker()|..])
  }

  predicate IsLineBreak(c: char) {
    '\n' <= c <= '\r' || '\U{1C}' <= c <= '\U{1E}' || c == '\U{85}' || c == '\U{2028}' || c == '\U{2029}'
  }

  function FirstLine(s: string): (line: string)
    ensures line <= s && forall c | c in line :: !IsLineBreak(c)
  {
    if s == "" || IsLineBreak(s[0]) then "" else [s[0]] + FirstLine(s[1..])
  }

  /** What `splitlines` leaves after its first line; `\r\n` is one break. */
  function OtherLines(s: string): string {
    var rest := s[|FirstLine(s)|..];
    if |rest| >= 2 && rest[0] == '\r' && rest[1] == '\n' then rest[2..]
    else if rest != "" then rest[1..]
    else ""
  }

  /** The value on the first line that carries the label. */
  function LabelledHash(text: string): Option<string>
    decreases |text|
  {
    if text == "" then None
    else if HASH_LABEL <= FirstLine(text) then Some(Strip(AfterColon(FirstLine(text))))
    else LabelledHash(OtherLines(text))
  }

  function AfterColon(s: string): string {
    if s == "" then "" else if s[0] == ':' then s[1..] else AfterColon(s[1..])
  }

  /** A missing delimiter leaves all but the last byte to search, as slicing up to -1 does. */
  function ParseHeaderHash(decode: Decoder, deployed: Bytes): Option<string> {
    var i := Find(deployed, Marker());
    var end := if i >= 0 then i else if deployed == [] then 0 else |deployed| - 1;
    LabelledHash(decode(deployed[..end]))
  }

  /** `None` is a raised error: no delimiter, or no hash line. */
  function RoundTripOk(decode: Decoder, bodyHash: BodyHash, deployed: Bytes, expected: string): Option<bool> {
    match (StripHeaderBody(deployed), ParseHeaderHash(decode, deployed))
    case (Some(body), Some(stamped)) => Some(bodyHash(body) == stamped && stamped == expected)
    case _ => None
  }

  // ---- The delimiter cannot start inside the header ----------------------------------------------

  lemma HeaderShape(hash: string)
    requires IsHex(hash)
    ensures var h := Header(hash);
            && IsAscii(hash) && '=' !in h && |h| >= 2 && h[|h| - 1] == '\n' && h[|h| - 2] != '#'
  {
    Line1IsPlain();
    Line2IsPlain();
    LabelIsPlain();
    hide Line1, Line2, HASH_LABEL;
    var h, tail := Header(hash), HASH_LABEL + " " + hash + "\n";
    assert h == (Line1() + "\n" + (Line2() + "\n")) + tail;
    assert h[|h| - 2] == tail[|tail| - 2];
    if hash != "" {
      assert tail[|tail| - 2] == hash[|hash| - 1] && hash[|hash| - 1] in hash;
    }
  }

  lemma DelimiterShape()
    ensures |Delimiter()| > 2 && Delimiter()[0] == '#' && Delimiter()[2] == '='
  {
    hide Explanation;
    assert "# ====="[0] == '#' && "# ====="[2] == '=';
  }

  /** A text that starts like the delimiter cannot start inside the header. */
  lemma NoEarlierDelimiter(hash: string, text: string, j: nat)
    requires IsHex(hash) && j < |Header(hash)| && Header(hash) <= text && j + 2 < |text|
    ensures text[j] != '#' || text[j + 2] != '='
  {
    HeaderShape(hash);
    var h := Header(hash);
    hide Header;
    assert text[j] == h[j];
    if j + 2 < |h| {
      assert text[j + 2] == h[j + 2] && h[j + 2] in h;
    }
  }

  lemma DelimiterIsFirst(body: Bytes, hash: string)
    requires IsHex(hash)
    ensures Find(StampModule(body, hash), Marker()) == |Header(hash)|
    ensures |StampModule(body, hash)| == |Header(hash)| + |Marker()| + |body|
    ensures StampModule(body, hash)[|Header(hash)| + |Marker()|..] == body
  {
    DelimiterShape();
    HeaderIsAscii(hash);
    hide Header, Delimiter;
    var deployed, h, marker := StampModule(body, hash), Header(hash), Marker();
    var text := h + Delimiter();
    assert deployed == Encode(text) + body;
    assert deployed[|h|..|h| + |marker|] == marker;
    assert OccursAt(deployed, marker, |h|);
    forall j: nat | j < |h| ensures !OccursAt(deployed, marker, j) {
      assert |marker| > 2 && marker[0] as int == '#' as int && marker[2] as int == '=' as int;
      NoEarlierDelimiter(hash, text, j);
      assert deployed[j] as int == text[j] as int && deployed[j + 2] as int == text[j + 2] as int;
      assert deployed[j] != marker[0] || deployed[j + 2] != marker[2];
      assert j + |marker| <= |deployed| ==>
               deployed[j..j + |marker|][0] == deployed[j] && deployed[j..j + |marker|][2] == deployed[j + 2];
    }
  }

  /** Stripping a stamped file gives the body back, whatever bytes it holds - the delimiter
      text included. */
  lemma StripInvertsStamp(body: Bytes, hash: string)
    requires IsHex(hash)
    ensures StripHeaderBody(StampModule(body, hash)) == Some(body)
  {
    DelimiterIsFirst(body, hash);
    hide StampModule, Header, Marker;
  }

  // ---- The stamped hash reads back ---------------------------------------------------------------

  lemma {:induction false} FirstLineOf(line: string, rest: string)
    requires forall c | c in line :: !IsLineBreak(c)
    ensures FirstLine(line + "\n" + rest) == line && OtherLines(line + "\n" + rest) == rest
  {
    var s := line + "\n" + rest;
    if line != "" {
      assert s[0] == line[0] && line[0] in line && s[1..] == line[1..] + "\n" + rest;
      FirstLineOf(line[1..], rest);
    }
    assert s[|line|..] == "\n" + rest;
  }

  lemma LabelledHashSkips(line: string, rest: string)
    requires (forall c | c in line :: !IsLineBreak(c)) && !(HASH_LABEL <= line)
    ensures LabelledHash(line + "\n" + rest) == LabelledHash(rest)
  {
    FirstLineOf(line, rest);
  }

  lemma {:induction false} StripIsNoOp(s: string)
    requires forall c | c in s :: !IsSpace(c)
    ensures Strip(s) == s && Strip(" " + s) == s
  {
    assert s != "" ==> s[0] in s && s[|s| - 1] in s;
    assert (" " + s)[1..] == s;
  }

  lemma {:induction false} AfterColonOf(a: string, b: string)
    requires ':' !in a
    ensures AfterColon(a + ":" + b) == b
  {
    var s := a + ":" + b;
    if a == "" {
      assert s[1..] == b;
    } else {
      assert s[0] == a[0] && s[1..] == a[1..] + ":" + b;
      AfterColonOf(a[1..], b);
    }
  }

  predicate OneLine(s: string) {
    forall c | c in s :: !IsLineBreak(c)
  }

  function Lines(lines: seq<string>): string {
    if lines == [] then "" else lines[0] + "\n" + Lines(lines[1..])
  }

  /** The first line that carries the label decides: what follows its first colon, stripped. */
  lemma {:induction false} FirstLabelDecides(lines: seq<string>, value: string, rest: string)
    requires (forall l | l in lines :: OneLine(l) && !(HASH_LABEL <= l)) && OneLine(value)
    ensures LabelledHash(Lines(lines) + (HASH_LABEL + value + "\n" + rest)) == Some(Strip(value))
    ensures LabelledHash(Lines(lines)) == None
  {
    LabelIsPlain();
    if lines == [] {
      var line := HASH_LABEL + value;
      LabelIsOneLine();
      FirstLineOf(line, rest);
      assert line == "# PROVENANCE_HASH" + ":" + value;
      AfterColonOf("# PROVENANCE_HASH", value);
      assert "" + (line + "\n" + rest) == line + "\n" + rest;
      hide Strip, HASH_LABEL;
    } else {
      var tail := HASH_LABEL + value + "\n" + rest;
      assert lines[0] in lines && forall l | l in lines[1..] :: l in lines;
      FirstLabelDecides(lines[1..], value, rest);
      hide *;
      LinesStep(lines, tail);
      LabelledHashSkips(lines[0], Lines(lines[1..]) + tail);
      LabelledHashSkips(lines[0], Lines(lines[1..]));
    }
  }

  lemma LinesStep(lines: seq<string>, tail: string)
    requires lines != [] && OneLine(lines[0])
    ensures Lines(lines) == lines[0] + "\n" + Lines(lines[1..])
    ensures Lines(lines) + tail == lines[0] + "\n" + (Lines(lines[1..]) + tail)
    ensures forall c | c in lines[0] :: !IsLineBreak(c)
  {
  }

  lemma LabelIsOneLine()
    ensures OneLine(HASH_LABEL)
  {
  }

  lemma HashLineReads(hash: string)
    requires IsHex(hash)
    ensures LabelledHash(HASH_LABEL + " " + hash + "\n") == Some(hash)
  {
    var line := HASH_LABEL + " " + hash;
    LabelIsPlain();
    assert line == "# PROVENANCE_HASH" + ":" + (" " + hash);
    AfterColonOf("# PROVENANCE_HASH", " " + hash);
    hide HASH_LABEL;
    assert line + "\n" + "" == line + "\n";
    FirstLineOf(line, "");
    StripIsNoOp(hash);
  }

  lemma HeaderReads(hash: string)
    requires IsHex(hash)
    ensures LabelledHash(Header(hash)) == Some(hash)
  {
    Line1IsPlain();
    Line2IsPlain();
    LabelIsPlain();
    HashLineReads(hash);
    hide LabelledHash, Line1, Line2, HASH_LABEL;
    LabelledHashSkips(Line2(), HASH_LABEL + " " + hash + "\n");
    LabelledHashSkips(Line1(), Line2() + "\n" + (HASH_LABEL + " " + hash + "\n"));
  }

  ghost predicate DecodesAscii(decode: Decoder) {
    forall s: string | IsAscii(s) :: decode(Encode(s)) == s
  }

  lemma ParseInvertsStamp(decode: Decoder, body: Bytes, hash: string)
    requires DecodesAscii(decode) && IsHex(hash)
    ensures ParseHeaderHash(decode, StampModule(body, hash)) == Some(hash)
  {
    hide StampModule, Header, Marker, LabelledHash, Delimiter, Strip;
    DelimiterIsFirst(body, hash);
    HeaderReads(hash);
    StampStartsWithHeader(body, hash);
  }

  lemma StampStartsWithHeader(body: Bytes, hash: string)
    requires IsAscii(hash)
    ensures IsAscii(Header(hash)) && |StampModule(body, hash)| >= |Header(hash)|
    ensures StampModule(body, hash)[..|Header(hash)|] == Encode(Header(hash))
  {
    HeaderIsAscii(hash);
    hide Header, Delimiter;
  }

  /** The verdict on a stamped file: accepted exactly when the body's hash is the stamped one and
      the stamped one is the one expected - so neither an edited body nor a re-stamped edit gets
      past an independently known hash without a collision. */
  lemma RoundTripVerdict(decode: Decoder, bodyHash: BodyHash, body: Bytes, stamped: string, expected: string)
    requires DecodesAscii(decode) && IsHex(stamped)
    ensures RoundTripOk(decode, bodyHash, StampModule(body, stamped), expected) ==
            Some(bodyHash(body) == stamped && stamped == expected)
  {
    StripInvertsStamp(body, stamped);
    ParseInvertsStamp(decode, body, stamped);
    hide StampModule, ParseHeaderHash, StripHeaderBody;
  }

  /** `deployed` is `head`, the delimiter and `body`, and this is the first delimiter in it. */
  ghost predicate Splits(deployed: Bytes, head: Bytes, body: Bytes) {
    deployed == head + Marker() + body && forall j | 0 <= j < |head| :: !OccursAt(deployed, Marker(), j)
  }

  /** Stripping yields what follows the first delimiter, and refuses exactly the files without one. */
  lemma StripIff(deployed: Bytes, body: Bytes)
    ensures StripHeaderBody(deployed) == Some(body) <==> exists head :: Splits(deployed, head, body)
    ensures StripHeaderBody(deployed) == None <==> forall j :: !OccursAt(deployed, Marker(), j)
  {
    hide Marker;
    var i := Find(deployed, Marker());
    if i >= 0 {
      assert deployed == deployed[..i] + Marker() + deployed[i + |Marker()|..];
      assert Splits(deployed, deployed[..i], deployed[i + |Marker()|..]);
    }
    forall head | Splits(deployed, head, body) ensures i == |head| && body == deployed[|head| + |Marker()|..] {
      assert deployed[|head|..|head| + |Marker()|] == Marker();
      assert OccursAt(deployed, Marker(), |head|);
    }
  }

  /** The hash is looked for before the first delimiter and, in a file without one, in all but the
      last byte. */
  lemma SearchedPart(decode: Decoder, deployed: Bytes, head: Bytes, tail: Bytes)
    ensures Splits(deployed, head, tail) ==> ParseHeaderHash(decode, deployed) == LabelledHash(decode(head))
    ensures (forall j :: !OccursAt(deployed, Marker(), j)) && deployed == head + tail && |tail| == 1 ==>
              ParseHeaderHash(decode, deployed) == LabelledHash(decode(head))
  {
    hide Marker, LabelledHash;
    if Splits(deployed, head, tail) {
      assert deployed[|head|..|head| + |Marker()|] == Marker();
      assert OccursAt(deployed, Marker(), |head|);
      assert head == deployed[..Find(deployed, Marker())];
    } else if deployed == head + tail && |tail| == 1 {
      assert head == deployed[..|deployed| - 1];
    }
  }

  /** The verdict is an error exactly when there is no delimiter, or no labelled hash before the
      first one; otherwise it compares the hash of the body, the labelled and the expected hash. */
  lemma VerdictIs(decode: Decoder, bodyHash: BodyHash, deployed: Bytes, expected: string)
    ensures (forall j :: !OccursAt(deployed, Marker(), j)) ==> RoundTripOk(decode, bodyHash, deployed, expected) == None
    ensures forall head, body | Splits(deployed, head, body) ::
              RoundTripOk(decode, bodyHash, deployed, expected) ==
              match LabelledHash(decode(head))
              case None => None
              case Some(stamped) => Some(bodyHash(body) == stamped && stamped == expected)
  {
    hide Marker, LabelledHash;
    var i := Find(deployed, Marker());
    forall head, body | Splits(deployed, head, body)
      ensures i == |head| && body == deployed[|head| + |Marker()|..] && head == deployed[..i]
    {
      assert deployed[|head|..|head| + |Marker()|] == Marker();
      assert OccursAt(deployed, Marker(), |head|);
    }
  }

  /** Fail-closed on any file at all: acceptance means there is a delimiter, and what follows
      its first occurrence hashes to the expected value. */
  lemma AcceptedOnlyWithExpectedBody(decode: Decoder, bodyHash: BodyHash, deployed: Bytes, expected: string)
    requires RoundTripOk(decode, bodyHash, deployed, expected) == Some(true)
    ensures exists head, body ::
              && deployed == head + Marker() + body && bodyHash(body) == expected
              && LabelledHash(decode(head)) == Some(expected)
              && forall j | 0 <= j < |head| :: !OccursAt(deployed, Marker(), j)
  {
    hide Marker, LabelledHash;
    var i := Find(deployed, Marker());
    var head, body := deployed[..i], deployed[i + |Marker()|..];
    assert deployed == head + Marker() + body;
  }
}
