/** A coding the merge theorems apply to, and the smallest merges that break the documented laws. */
module MergeExamples {
  import opened Wrappers
  import opened Strings
  import opened ConvergentMerge
  import opened MergeOrder
  import opened MergeSlots

  // ---- A coding that tells all entries apart -------------------------------------------------------

  /** A text that ends where its reader knows. */
  function Quote(s: string): string {
    if s == "" then "." else ['x', s[0]] + Quote(s[1..])
  }

  function Tag(text: Option<string>): string {
    match text
    case None => "-"
    case Some(t) => "+" + t
  }

  function QuoteOption(o: Option<string>): string {
    Tag(if o.Some? then Some(Quote(o.value)) else None)
  }

  function QuoteOrigin(o: Option<Origin>): string {
    Tag(if o.Some? then Some(QuoteLineage(o.value)) else None)
  }

  function QuoteLineage(o: Origin): string {
    Quote(o.of) + QuoteOption(o.sourceVersion)
  }

  function CanonText(e: Entry): string {
    Quote(e.id) + (QuoteOption(e.version) + (QuoteOption(e.deletedAt) + (QuoteOrigin(e.origin) + Quote(e.content))))
  }

  /** The slot of an entry is named by all of its text. */
  const PLAIN: Coding := Coding(CanonText, (s: string) => s)

  lemma {:induction false} QuoteSplits(s: string, t: string, a: string, b: string)
    requires Quote(s) + a == Quote(t) + b
    ensures s == t && a == b
  {
    assert (Quote(s) + a)[0] == Quote(s)[0] && (Quote(t) + b)[0] == Quote(t)[0];
    if s == "" {
      assert a == (Quote(s) + a)[1..] && b == (Quote(t) + b)[1..];
    } else {
      assert (Quote(s) + a)[1] == s[0] && (Quote(t) + b)[1] == t[0];
      assert (Quote(s) + a)[2..] == Quote(s[1..]) + a && (Quote(t) + b)[2..] == Quote(t[1..]) + b;
      QuoteSplits(s[1..], t[1..], a, b);
      assert s == [s[0]] + s[1..] && t == [t[0]] + t[1..];
    }
  }

  lemma TagSplits(s: Option<string>, t: Option<string>, a: string, b: string)
    requires Tag(s) + a == Tag(t) + b
    ensures s.Some? == t.Some?
    ensures if s.Some? then s.value + a == t.value + b else a == b
  {
    assert (Tag(s) + a)[0] == Tag(s)[0] && (Tag(t) + b)[0] == Tag(t)[0];
    TagRest(s, a);
    TagRest(t, b);
    hide *;
  }

  lemma TagRest(s: Option<string>, a: string)
    ensures (Tag(s) + a)[1..] == if s.Some? then s.value + a else a
  {
  }

  lemma QuoteOptionSplits(o: Option<string>, p: Option<string>, a: string, b: string)
    requires QuoteOption(o) + a == QuoteOption(p) + b
    ensures o == p && a == b
  {
    hide Quote, Tag;
    TagSplits(if o.Some? then Some(Quote(o.value)) else None, if p.Some? then Some(Quote(p.value)) else None, a, b);
    if o.Some? {
      QuoteSplits(o.value, p.value, a, b);
    }
  }

  lemma QuoteLineageSplits(u: Origin, v: Origin, a: string, b: string)
    requires QuoteLineage(u) + a == QuoteLineage(v) + b
    ensures u == v && a == b
  {
    assert QuoteLineage(u) + a == Quote(u.of) + (QuoteOption(u.sourceVersion) + a);
    assert QuoteLineage(v) + b == Quote(v.of) + (QuoteOption(v.sourceVersion) + b);
    hide *;
    QuoteSplits(u.of, v.of, QuoteOption(u.sourceVersion) + a, QuoteOption(v.sourceVersion) + b);
    QuoteOptionSplits(u.sourceVersion, v.sourceVersion, a, b);
  }

  lemma QuoteOriginSplits(o: Option<Origin>, p: Option<Origin>, a: string, b: string)
    requires QuoteOrigin(o) + a == QuoteOrigin(p) + b
    ensures o == p && a == b
  {
    hide QuoteLineage, Tag;
    TagSplits(if o.Some? then Some(QuoteLineage(o.value)) else None, if p.Some? then Some(QuoteLineage(p.value)) else None, a, b);
    if o.Some? {
      QuoteLineageSplits(o.value, p.value, a, b);
    }
  }

  lemma SameTextSameEntry(x: Entry, y: Entry)
    requires CanonText(x) == CanonText(y)
    ensures x == y
  {
    hide Quote, QuoteOption, QuoteOrigin;
    var afterId := (e: Entry) => QuoteOption(e.version) + (QuoteOption(e.deletedAt) + (QuoteOrigin(e.origin) + Quote(e.content)));
    QuoteSplits(x.id, y.id, afterId(x), afterId(y));
    var afterVersion := (e: Entry) => QuoteOption(e.deletedAt) + (QuoteOrigin(e.origin) + Quote(e.content));
    QuoteOptionSplits(x.version, y.version, afterVersion(x), afterVersion(y));
    QuoteOptionSplits(x.deletedAt, y.deletedAt, QuoteOrigin(x.origin) + Quote(x.content), QuoteOrigin(y.origin) + Quote(y.content));
    QuoteOriginSplits(x.origin, y.origin, Quote(x.content), Quote(y.content));
    assert Quote(x.content) + "" == Quote(x.content) && Quote(y.content) + "" == Quote(y.content);
    QuoteSplits(x.content, y.content, "", "");
  }

  /** The hypothesis of the merge theorems can be met. */
  lemma PlainIsFaithful()
    ensures Faithful(PLAIN)
  {
    forall x, y | PLAIN.canon(x) == PLAIN.canon(y) ensures x == y {
      SameTextSameEntry(x, y);
    }
  }

  /** So can the ones about conflict slots. */
  lemma PlainSlotsAreApart(es: set<Entry>, i: string)
    requires forall e | e in es :: e.id == i
    ensures SlotsApart(PLAIN, es) && SlotsFree(PLAIN, es)
  {
    forall p, q | p in es && q in es && p != q ensures SlotId(PLAIN, p) != SlotId(PLAIN, q) {
      assert SlotId(PLAIN, p)[|i + ".conflict."|..] == CanonText(p);
      assert SlotId(PLAIN, q)[|i + ".conflict."|..] == CanonText(q);
      if CanonText(p) == CanonText(q) {
        SameTextSameEntry(p, q);
      }
    }
    hide SlotId, SlotsFree;
    SharedSlotsAreFree(PLAIN, es, i);
  }

  lemma ListsOneMore(es: seq<Entry>, m: Slots, i: string)
    requires i in m && Enumerates(es, m - {i})
    ensures Enumerates(es + [m[i]], m)
  {
    var rest, e := m - {i}, m[i];
    forall j, k | 0 <= j < k < |es + [e]| ensures (es + [e])[j].id != (es + [e])[k].id {
      assert es[j] in es;
    }
    forall j | j in m ensures m[j] in es + [e] {
      assert j != i ==> rest[j] in es;
    }
  }

  lemma {:induction false} CanBeListed(m: Slots)
    ensures exists es: seq<Entry> :: Enumerates(es, m)
  {
    if m == map[] {
      assert Enumerates([], m);
    } else {
      var i :| i in m;
      CanBeListed(m - {i});
      var es: seq<Entry> :| Enumerates(es, m - {i});
      hide Enumerates;
      ListsOneMore(es, m, i);
    }
  }

  // ---- Merges that break the documented laws -------------------------------------------------------

  /** Two devices edited a card apart, and a third deleted the edit that loses. */
  ghost predicate DeletedLoser(w: Coding, x: Entry, y: Entry, t: Entry) {
    Displaces(w, x, y) && t.id == y.id && Dead(t) && t.version == y.version
  }

  lemma DeletedLoserIsContested(w: Coding, x: Entry, y: Entry, t: Entry)
    requires DeletedLoser(w, x, y, t)
    ensures x.id == y.id == t.id && !Associates(w, x, y, t)
  {
    hide Less;
    assert Absorbs(w, t, y);
  }

  lemma Singles(x: Entry, y: Entry, t: Entry)
    ensures DistinctIds([x]) && DistinctIds([y]) && DistinctIds([t])
    ensures Members([x] + [y] + [t]) == {x, y, t} && x in [x] && y in [y] && t in [t]
  {
  }

  /** One grouping keeps a copy of the deleted edit, the other does not. */
  lemma DeletedLoserDoesNotAssociate(w: Coding, x: Entry, y: Entry, t: Entry, xy: seq<Entry>, yt: seq<Entry>)
    requires Faithful(w) && SlotsFree(w, {x, y, t}) && DeletedLoser(w, x, y, t)
    requires Enumerates(xy, AddAll(w, map[], [x] + [y])) && Enumerates(yt, AddAll(w, map[], [y] + [t]))
    ensures AddAll(w, map[], xy + [t]) != AddAll(w, map[], [x] + yt)
  {
    hide *;
    DeletedLoserIsContested(w, x, y, t);
    Singles(x, y, t);
    AssociativeIff(w, [x], [y], [t], xy, yt);
  }

  /** `p` and `q` are conflict copies of the edit that loses, both deleted: `p` as it was made, `q`
      after one more change. */
  ghost predicate DeletedCopies(w: Coding, x: Entry, p: Entry, y: Entry, q: Entry) {
    && Displaces(w, x, y) && p.id == q.id == SlotId(w, y)
    && Dead(p) && Dead(q) && p.version == y.version != q.version
  }

  lemma DeletedCopiesAreContested(w: Coding, x: Entry, p: Entry, y: Entry, q: Entry)
    requires DeletedCopies(w, x, p, y, q)
    ensures Displaces(w, x, y) && p.id == q.id == SlotId(w, y) && !Associates(w, p, ConflictCopy(w, y), q)
  {
    hide Less, SlotId;
    assert Absorbs(w, p, ConflictCopy(w, y)) && Displaces(w, q, ConflictCopy(w, y));
  }

  /** One order preserves the copy a second time, the other does not. */
  lemma {:induction false} DeletedCopiesDoNotCommute(w: Coding, x: Entry, p: Entry, y: Entry, q: Entry)
    requires Faithful(w) && DeletedCopies(w, x, p, y, q) && SlotsApart(w, {p, ConflictCopy(w, y), q})
    ensures AddAll(w, map[], [x, p] + [y, q]) != AddAll(w, map[], [y, q] + [x, p])
  {
    hide *;
    DeletedCopiesAreContested(w, x, p, y, q);
    FourCommuteIff(w, x, p, y, q);
  }

  const FIRST := Entry("c", Some("1"), None, None, "")
  const SECOND := Entry("c", Some("2"), None, None, "b")
  const SECOND_DELETED := Entry("c", Some("2"), Some("2026-06-13"), None, "")
  const COPY_DELETED := Entry(SlotId(PLAIN, SECOND), Some("2"), Some("2026-06-13"), None, "")
  const COPY_CHANGED_AND_DELETED := Entry(SlotId(PLAIN, SECOND), Some("3"), Some("2026-06-13"), None, "")

  lemma FirstDisplacesSecond()
    ensures Displaces(PLAIN, FIRST, SECOND)
  {
    var rest := (e: Entry) => QuoteOption(e.deletedAt) + (QuoteOrigin(e.origin) + Quote(e.content));
    assert Quote("") == ".";
    assert Quote("1") == ['x', '1'] + ".";
    assert Quote("2") == ['x', '2'] + ".";
    assert QuoteOption(Some("1")) == "+x1." && QuoteOption(Some("2")) == "+x2.";
    LessUnderPrefix("+x", "1.", "2.");
    assert "+x" + "1." == "+x1." && "+x" + "2." == "+x2.";
    LessByPrefix("+x1.", "+x2.", rest(FIRST), rest(SECOND));
    LessUnderPrefix(Quote("c"), "+x1." + rest(FIRST), "+x2." + rest(SECOND));
    assert "1"[0] != "2"[0];
  }

  lemma SecondIsDeletedLoser()
    ensures DeletedLoser(PLAIN, FIRST, SECOND, SECOND_DELETED)
    ensures SlotsFree(PLAIN, {FIRST, SECOND, SECOND_DELETED})
  {
    FirstDisplacesSecond();
    hide Displaces, SlotsApart, SlotsFree;
    PlainSlotsAreApart({FIRST, SECOND, SECOND_DELETED}, "c");
  }

  lemma ThreeThatDoNotAssociate()
    ensures exists xy: seq<Entry>, yt: seq<Entry> ::
              && Enumerates(xy, AddAll(PLAIN, map[], [FIRST] + [SECOND]))
              && Enumerates(yt, AddAll(PLAIN, map[], [SECOND] + [SECOND_DELETED]))
              && AddAll(PLAIN, map[], xy + [SECOND_DELETED]) != AddAll(PLAIN, map[], [FIRST] + yt)
  {
    hide *;
    PlainIsFaithful();
    SecondIsDeletedLoser();
    CanBeListed(AddAll(PLAIN, map[], [FIRST] + [SECOND]));
    CanBeListed(AddAll(PLAIN, map[], [SECOND] + [SECOND_DELETED]));
    var xy :| Enumerates(xy, AddAll(PLAIN, map[], [FIRST] + [SECOND]));
    var yt :| Enumerates(yt, AddAll(PLAIN, map[], [SECOND] + [SECOND_DELETED]));
    DeletedLoserDoesNotAssociate(PLAIN, FIRST, SECOND, SECOND_DELETED, xy, yt);
  }

  lemma CopiesAreDeleted()
    ensures DeletedCopies(PLAIN, FIRST, COPY_DELETED, SECOND, COPY_CHANGED_AND_DELETED)
    ensures SlotsApart(PLAIN, {COPY_DELETED, ConflictCopy(PLAIN, SECOND), COPY_CHANGED_AND_DELETED})
  {
    FirstDisplacesSecond();
    CopyIsAtItsSlot(PLAIN, SECOND);
    assert "2"[0] != "3"[0];
    hide Displaces, SlotId, ConflictCopy, SlotsApart, SlotsFree;
    PlainSlotsAreApart({COPY_DELETED, ConflictCopy(PLAIN, SECOND), COPY_CHANGED_AND_DELETED}, SlotId(PLAIN, SECOND));
  }

  lemma FourThatDoNotCommute()
    ensures AddAll(PLAIN, map[], [FIRST, COPY_DELETED] + [SECOND, COPY_CHANGED_AND_DELETED]) !=
            AddAll(PLAIN, map[], [SECOND, COPY_CHANGED_AND_DELETED] + [FIRST, COPY_DELETED])
  {
    hide *;
    PlainIsFaithful();
    CopiesAreDeleted();
    DeletedCopiesDoNotCommute(PLAIN, FIRST, COPY_DELETED, SECOND, COPY_CHANGED_AND_DELETED);
  }
}
