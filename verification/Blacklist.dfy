/** Blacklist keywords: normalising a list of rules, matching a record's text against them, and which
    records a rule list hides. The two sides differ in trimming and in the regular expression they
    build for a plain keyword; rules written as `re:` call an arbitrary matcher. */
module Blacklist {
  import opened Basics
  import opened Text

  datatype Side = Go | Python

  // ----- normalising -----------------------------------------------------------------------

  predicate IsCut(c: char) {
    c == '\n' || c == ',' || c == '，'
  }

  const REGEX := "re:"

  predicate IsRegex(keyword: string) {
    |keyword| >= 3 && Lower(keyword[..3]) == REGEX
  }

  /** What one part of a rule contributes: one entry or none. */
  function EntryOf(part: string): seq<string> {
    var source := Trim(part);
    if source == "" then []
    else if IsRegex(source) then
      var pattern := Trim(source[3..]);
      if pattern == "" then [] else [REGEX + pattern]
    else
      var text := NormalizeText(source);
      if text == "" then [] else [text]
  }

  function CollectUpTo(f: string -> seq<string>, xs: seq<string>, n: nat): seq<string>
    requires n <= |xs|
  {
    if n == 0 then [] else CollectUpTo(f, xs, n - 1) + f(xs[n - 1])
  }

  /** The results of `f` for every member, one after the other. */
  function Collect(f: string -> seq<string>, xs: seq<string>): seq<string> {
    CollectUpTo(f, xs, |xs|)
  }

  function RawEntries(s: string): seq<string> {
    Collect(EntryOf, Split(IsCut, s))
  }

  /** The Go side trims a rule before splitting it. */
  function GoEntries(raw: string): seq<string> {
    RawEntries(Trim(raw))
  }

  function RuleEntries(side: Side): string -> seq<string> {
    if side.Go? then GoEntries else RawEntries
  }

  function Entries(side: Side, values: seq<string>): seq<string> {
    Collect(RuleEntries(side), values)
  }

  /** What one more member contributes, given the members before it. */
  function IfNew(x: string, before: seq<string>): seq<string> {
    if x in before then [] else [x]
  }

  function FirstUpTo(xs: seq<string>, n: nat): seq<string>
    requires n <= |xs|
  {
    if n == 0 then [] else FirstUpTo(xs, n - 1) + IfNew(xs[n - 1], xs[..n - 1])
  }

  /** The members of a list without repeats of earlier ones. */
  function FirstOccurrences(xs: seq<string>): seq<string> {
    FirstUpTo(xs, |xs|)
  }

  lemma {:induction false} FirstUpToPrefix(xs: seq<string>, ys: seq<string>, n: nat)
    requires n <= |xs|
    ensures FirstUpTo(xs + ys, n) == FirstUpTo(xs, n)
  {
    if n > 0 {
      FirstUpToPrefix(xs, ys, n - 1);
      assert (xs + ys)[..n - 1] == xs[..n - 1];
    }
  }

  lemma {:induction false} FirstStep(xs: seq<string>, last: string)
    ensures FirstOccurrences(xs + [last]) == FirstOccurrences(xs) + IfNew(last, xs)
  {
    FirstUpToPrefix(xs, [last], |xs|);
    assert (xs + [last])[..|xs|] == xs;
  }

  function Normalized(side: Side, values: seq<string>): seq<string> {
    FirstOccurrences(Entries(side, values))
  }

  /** The loop state after `entries`. */
  ghost predicate Tracks(entries: seq<string>, normalized: seq<string>, seen: set<string>) {
    normalized == FirstOccurrences(entries) && seen == set x | x in entries
  }

  lemma TracksAppend(entries: seq<string>, normalized: seq<string>, seen: set<string>, text: string)
    requires Tracks(entries, normalized, seen)
    ensures Tracks(entries + [text], if text in seen then normalized else normalized + [text], seen + {text})
  {
    FirstStep(entries, text);
  }

  lemma TracksEntry(entries: seq<string>, normalized: seq<string>, seen: set<string>, entry: seq<string>)
    requires Tracks(entries, normalized, seen) && |entry| <= 1
    ensures entry == [] ==> Tracks(entries + entry, normalized, seen)
    ensures entry != [] ==>
              Tracks(entries + entry, if entry[0] in seen then normalized else normalized + [entry[0]], seen + {entry[0]})
  {
    if entry == [] {
      assert entries + entry == entries;
    } else {
      TracksAppend(entries, normalized, seen, entry[0]);
      assert entry == [entry[0]];
    }
  }

  method AddParts(parts: seq<string>, before: seq<string>, seenBefore: set<string>, ghost entries: seq<string>)
    returns (normalized: seq<string>, seen: set<string>)
    requires Tracks(entries, before, seenBefore)
    ensures Tracks(entries + Collect(EntryOf, parts), normalized, seen)
  {
    normalized, seen := before, seenBefore;
    assert entries + CollectUpTo(EntryOf, parts, 0) == entries;
    for j := 0 to |parts|
      invariant Tracks(entries + CollectUpTo(EntryOf, parts, j), normalized, seen)
    {
      ghost var done := entries + CollectUpTo(EntryOf, parts, j);
      normalized, seen := AddEntry(EntryOf(parts[j]), normalized, seen, done);
      assert done + EntryOf(parts[j]) == entries + CollectUpTo(EntryOf, parts, j + 1);
    }
  }

  method AddEntry(entry: seq<string>, before: seq<string>, seenBefore: set<string>, ghost entries: seq<string>)
    returns (normalized: seq<string>, seen: set<string>)
    requires Tracks(entries, before, seenBefore) && |entry| <= 1
    ensures Tracks(entries + entry, normalized, seen)
  {
    normalized, seen := before, seenBefore;
    if entry != [] && entry[0] !in seen {
      normalized := normalized + [entry[0]];
    }
    if entry != [] {
      seen := seen + {entry[0]};
    }
    TracksEntry(entries, before, seenBefore, entry);
  }

  method AddRule(side: Side, raw: string, before: seq<string>, seenBefore: set<string>, ghost entries: seq<string>)
    returns (normalized: seq<string>, seen: set<string>)
    requires Tracks(entries, before, seenBefore)
    ensures Tracks(entries + RuleEntries(side)(raw), normalized, seen)
  {
    normalized, seen := AddParts(Split(IsCut, if side.Go? then Trim(raw) else raw), before, seenBefore, entries);
  }

  /** `normalize_blacklist_keywords`, `normalizeBlacklistKeywords` */
  method NormalizeKeywords(side: Side, values: seq<string>) returns (normalized: seq<string>)
    ensures normalized == Normalized(side, values)
  {
    normalized := [];
    var seen: set<string> := {};
    for i := 0 to |values|
      invariant Tracks(CollectUpTo(RuleEntries(side), values, i), normalized, seen)
    {
      normalized, seen := AddRule(side, values[i], normalized, seen, CollectUpTo(RuleEntries(side), values, i));
    }
  }

  // ----- first occurrences -------------------------------------------------------------------

  function FirstIndex(xs: seq<string>, x: string): (i: nat)
    requires x in xs
    ensures i < |xs| && xs[i] == x && forall k | 0 <= k < i :: xs[k] != x
  {
    if xs[0] == x then 0 else 1 + FirstIndex(xs[1..], x)
  }

  /** The members of `xs`, each once, in the order in which they first occur. */
  ghost predicate InFirstOrder(xs: seq<string>, r: seq<string>) {
    && (forall x :: x in r <==> x in xs)
    && (forall i, j | 0 <= i < j < |r| :: FirstIndex(xs, r[i]) < FirstIndex(xs, r[j]))
  }

  lemma FirstIndexAppend(xs: seq<string>, last: string, x: string)
    requires x in xs + [last]
    ensures x in xs ==> FirstIndex(xs + [last], x) == FirstIndex(xs, x)
    ensures x !in xs ==> FirstIndex(xs + [last], x) == |xs|
  {
    var all := xs + [last];
    var i := FirstIndex(all, x);
    if x in xs {
      var j := FirstIndex(xs, x);
      assert all[j] == x && i <= j;
      assert xs[i] == x;
    }
  }

  lemma OrderAppend(init: seq<string>, last: string, r: seq<string>)
    requires InFirstOrder(init, r)
    ensures InFirstOrder(init + [last], r + IfNew(last, init))
  {
    var xs := init + [last];
    var all := r + IfNew(last, init);
    forall i, j | 0 <= i < j < |all| ensures FirstIndex(xs, all[i]) < FirstIndex(xs, all[j]) {
      assert all[i] in all && all[j] in all && r[i] in r;
      FirstIndexAppend(init, last, all[i]);
      FirstIndexAppend(init, last, all[j]);
    }
  }

  lemma Later(xs: seq<string>, r: seq<string>, i: nat, j: nat)
    requires InFirstOrder(xs, r) && i <= j < |r|
    ensures r[i] in xs && r[j] in xs
    ensures if i < j then FirstIndex(xs, r[i]) < FirstIndex(xs, r[j]) else r[i] == r[j]
  {
    assert r[i] in r && r[j] in r;
  }

  lemma OrderIsUnique(xs: seq<string>, r: seq<string>, q: seq<string>)
    requires InFirstOrder(xs, r) && InFirstOrder(xs, q)
    ensures r == q
  {
    OrderAgreesUpTo(xs, r, q, |r|);
    OrderAgreesUpTo(xs, q, r, |q|);
  }

  lemma {:induction false} OrderAgreesUpTo(xs: seq<string>, r: seq<string>, q: seq<string>, n: nat)
    requires InFirstOrder(xs, r) && InFirstOrder(xs, q) && n <= |r|
    ensures n <= |q| && forall i | 0 <= i < n :: r[i] == q[i]
    decreases n
  {
    if n > 0 {
      OrderAgreesUpTo(xs, r, q, n - 1);
      var k := PlaceOf(xs, r, q, n - 1);
      var l := PlaceOf(xs, q, r, n - 1);
      Later(xs, q, n - 1, k);
      Later(xs, r, n - 1, l);
    }
  }

  /** Where the member `r[n]` stands in the other list, when both agree before `n`. */
  lemma PlaceOf(xs: seq<string>, r: seq<string>, q: seq<string>, n: nat) returns (k: nat)
    requires InFirstOrder(xs, r) && InFirstOrder(xs, q) && n < |r| && n <= |q|
    requires forall i | 0 <= i < n :: r[i] == q[i]
    ensures n <= k < |q| && q[k] == r[n]
  {
    assert r[n] in r && r[n] in q;
    k :| 0 <= k < |q| && q[k] == r[n];
    Later(xs, r, Min(k, n), n);
  }

  /** A list is the first occurrences of `xs` exactly when it has the members of `xs`, each once, in
      the order of their first occurrence. */
  lemma {:induction false} FirstOccurrencesIff(xs: seq<string>, r: seq<string>)
    ensures r == FirstOccurrences(xs) <==> InFirstOrder(xs, r)
    decreases |xs|
  {
    FirstOccurrencesInOrder(xs);
    if InFirstOrder(xs, r) {
      OrderIsUnique(xs, r, FirstOccurrences(xs));
    }
  }

  lemma {:induction false} FirstOccurrencesInOrder(xs: seq<string>)
    ensures InFirstOrder(xs, FirstOccurrences(xs))
    decreases |xs|
  {
    if xs != [] {
      var init, last := xs[..|xs| - 1], xs[|xs| - 1];
      FirstOccurrencesInOrder(init);
      FirstStep(init, last);
      OrderAppend(init, last, FirstOccurrences(init));
      assert xs == init + [last];
    }
  }

  lemma {:induction false} NothingToDrop(xs: seq<string>)
    requires NoRepeats(xs)
    ensures FirstOccurrences(xs) == xs
    decreases |xs|
  {
    if xs != [] {
      var init, last := xs[..|xs| - 1], xs[|xs| - 1];
      NothingToDrop(init);
      FirstStep(init, last);
      assert xs == init + [last];
    }
  }

  lemma FirstOccurrencesMembers(xs: seq<string>)
    ensures NoRepeats(FirstOccurrences(xs)) && forall x :: x in FirstOccurrences(xs) <==> x in xs
  {
    FirstOccurrencesInOrder(xs);
    var r := FirstOccurrences(xs);
    assert forall i, j | 0 <= i < j < |r| :: FirstIndex(xs, r[i]) < FirstIndex(xs, r[j]);
  }

  lemma {:induction false} AppendOne(f: seq<string>, g: seq<string>, xs: seq<string>, init: seq<string>, last: string)
    requires FirstOccurrences(f + g) == FirstOccurrences(xs + init)
    requires (last in f <==> last in xs) && (last in g <==> last in init)
    ensures FirstOccurrences(f + (g + IfNew(last, init))) == FirstOccurrences(xs + (init + [last]))
  {
    FirstStep(xs + init, last);
    FirstStep(f + g, last);
    assert xs + (init + [last]) == (xs + init) + [last] && f + (g + [last]) == (f + g) + [last] && g + [] == g;
    assert last in f + g <==> last in xs + init;
  }

  lemma {:induction false} FirstOccurrencesAppend(xs: seq<string>, ys: seq<string>)
    ensures FirstOccurrences(FirstOccurrences(xs) + FirstOccurrences(ys)) == FirstOccurrences(xs + ys)
    decreases |ys|
  {
    var f := FirstOccurrences(xs);
    FirstOccurrencesMembers(xs);
    if ys == [] {
      NothingToDrop(f);
      assert f + FirstOccurrences(ys) == f && xs + ys == xs;
    } else {
      var init, last := ys[..|ys| - 1], ys[|ys| - 1];
      FirstOccurrencesAppend(xs, init);
      FirstOccurrencesMembers(init);
      FirstStep(init, last);
      AppendOne(f, FirstOccurrences(init), xs, init, last);
      assert ys == init + [last];
    }
  }

  // ----- normalising twice ---------------------------------------------------------------------

  /** A normalised rule stands for itself. */
  predicate Canonical(e: string) {
    Trimmed(e) && Free(IsCut, e) && EntryOf(e) == [e]
  }

  lemma RegexEntryCanonical(pattern: string)
    requires pattern != "" && Trimmed(pattern) && Free(IsCut, pattern)
    ensures Canonical(REGEX + pattern)
  {
    var e := REGEX + pattern;
    assert e[|e| - 1] == pattern[|pattern| - 1];
    TrimmedStays(e);
    assert e[..3] == REGEX && e[3..] == pattern;
    TrimmedStays(pattern);
    assert Lower(REGEX) == REGEX;
  }

  lemma LowerPrefix(s: string, n: nat)
    requires n <= |s|
    ensures Lower(s[..n]) == Lower(s)[..n]
  {
  }

  lemma LowerTwice(s: string)
    ensures Lower(Lower(s)) == Lower(s)
  {
  }

  /** Normalising does not turn a plain rule into a `re:` rule. */
  lemma PlainStaysPlain(source: string)
    requires source != "" && Trimmed(source)
    ensures NormalizeText(source) != ""
    ensures IsRegex(NormalizeText(source)) ==> IsRegex(source)
  {
    var lower, n := Lower(source), NormalizeText(source);
    FirstWord(lower);
    if IsRegex(n) {
      var w := Fields(lower)[0];
      LowerPrefix(n, 3);
      assert forall k: nat | k < 3 :: LowerChar(n[k]) == Lower(n[..3])[k] == REGEX[k];
      assert forall k: nat | k < 3 :: n[k] != ' ';
      assert |w| >= 3;
      assert lower[..3] == w[..3] == n[..3];
      LowerTwice(source[..3]);
      LowerPrefix(source, 3);
    }
  }

  /** The first word of a text is where the text begins, and so does the joined text. */
  lemma FirstWord(s: string)
    requires s != "" && !IsSpace(s[0])
    ensures var words := Fields(s);
            && words != [] && words[0] != "" && |words[0]| <= |s| && words[0] == s[..|words[0]|]
            && Join(words) != "" && |Join(words)| >= |words[0]| && Join(words)[..|words[0]|] == words[0]
            && (|Join(words)| > |words[0]| ==> Join(words)[|words[0]|] == ' ')
  {
    FirstPart(s);
    var parts := Split(IsSpace, s);
    assert parts[0] != "";
  }

  lemma {:induction false} FirstPart(s: string)
    ensures var p := Split(IsSpace, s)[0];
            && |p| <= |s| && p == s[..|p|]
            && (s != "" && !IsSpace(s[0]) ==> p != "")
            && (s == "" || IsSpace(s[0]) ==> p == "")
    decreases |s|
  {
    if s != "" {
      FirstPart(s[1..]);
    }
  }

  lemma EntryCanonical(part: string)
    requires Free(IsCut, part)
    ensures forall e | e in EntryOf(part) :: Canonical(e)
  {
    var source := Trim(part);
    TrimShape(part);
    if source != "" && IsRegex(source) {
      TrimShape(source[3..]);
      if Trim(source[3..]) != "" {
        RegexEntryCanonical(Trim(source[3..]));
      }
    } else if source != "" {
      PlainCanonical(source);
    }
  }

  lemma PlainCanonical(source: string)
    requires source != "" && Trimmed(source) && !IsRegex(source) && Free(IsCut, source)
    ensures Canonical(NormalizeText(source))
  {
    var e := NormalizeText(source);
    NormalizedShape(source);
    TrimmedStays(e);
    PlainStaysPlain(source);
    NormalizeTextIdempotent(source);
    forall c | c in e ensures !IsCut(c) {
      if c != ' ' {
        LowerMembers(source, c);
        var d :| d in source && c == LowerChar(d);
      }
    }
  }

  lemma {:induction false} CollectedFrom(f: string -> seq<string>, xs: seq<string>, n: nat, e: string)
    requires n <= |xs| && e in CollectUpTo(f, xs, n)
    ensures exists x | x in xs :: e in f(x)
  {
    if n > 0 && e !in f(xs[n - 1]) {
      CollectedFrom(f, xs, n - 1, e);
    }
  }

  lemma RawEntriesCanonical(s: string, e: string)
    requires e in RawEntries(s)
    ensures Canonical(e)
  {
    CollectedFrom(EntryOf, Split(IsCut, s), |Split(IsCut, s)|, e);
    var part :| part in Split(IsCut, s) && e in EntryOf(part);
    SplitShape(IsCut, s);
    EntryCanonical(part);
  }

  lemma EntriesCanonical(side: Side, values: seq<string>, e: string)
    requires e in Entries(side, values)
    ensures Canonical(e)
  {
    CollectedFrom(RuleEntries(side), values, |values|, e);
    var raw :| raw in values && e in RuleEntries(side)(raw);
    RawEntriesCanonical(if side.Go? then Trim(raw) else raw, e);
  }

  lemma CanonicalRule(side: Side, e: string)
    requires Canonical(e)
    ensures RuleEntries(side)(e) == [e]
  {
    TrimmedStays(e);
    SplitFree(IsCut, e);
    OneMember(EntryOf, e);
  }

  lemma NormalizedIsCanonical(side: Side, values: seq<string>, e: string)
    requires e in Normalized(side, values)
    ensures Canonical(e)
  {
    FirstOccurrencesMembers(Entries(side, values));
    EntriesCanonical(side, values, e);
  }

  ghost predicate FixedBy(f: string -> seq<string>, r: seq<string>) {
    forall i | 0 <= i < |r| :: f(r[i]) == [r[i]]
  }

  lemma {:induction false} CollectFixed(f: string -> seq<string>, r: seq<string>, n: nat)
    requires n <= |r| && FixedBy(f, r)
    ensures CollectUpTo(f, r, n) == r[..n]
  {
    if n > 0 {
      CollectFixed(f, r, n - 1);
    }
  }

  lemma FixedIsNormal(f: string -> seq<string>, r: seq<string>)
    requires FixedBy(f, r) && NoRepeats(r)
    ensures FirstOccurrences(Collect(f, r)) == r
  {
    CollectFixed(f, r, |r|);
    assert r[..|r|] == r;
    NothingToDrop(r);
  }

  lemma NormalizedFixed(side: Side, values: seq<string>, again: Side)
    ensures FixedBy(RuleEntries(again), Normalized(side, values))
  {
    var r := Normalized(side, values);
    forall i | 0 <= i < |r| ensures RuleEntries(again)(r[i]) == [r[i]] {
      NormalizedIsCanonical(side, values, r[i]);
      CanonicalRule(again, r[i]);
    }
  }

  /** Normalising a normalised list changes nothing, on either side. */
  lemma NormalizeIdempotent(side: Side, again: Side, values: seq<string>)
    ensures Normalized(again, Normalized(side, values)) == Normalized(side, values)
  {
    NormalizedFixed(side, values, again);
    FirstOccurrencesMembers(Entries(side, values));
    FixedIsNormal(RuleEntries(again), Normalized(side, values));
  }

  // ----- both sides normalise alike ------------------------------------------------------------

  lemma {:induction false} CollectPrefix(f: string -> seq<string>, a: seq<string>, b: seq<string>, n: nat)
    requires n <= |a|
    ensures CollectUpTo(f, a + b, n) == CollectUpTo(f, a, n)
  {
    if n > 0 {
      CollectPrefix(f, a, b, n - 1);
    }
  }

  lemma {:induction false} CollectShift(f: string -> seq<string>, a: seq<string>, b: seq<string>, n: nat)
    requires n <= |b|
    ensures CollectUpTo(f, a + b, |a| + n) == Collect(f, a) + CollectUpTo(f, b, n)
  {
    if n > 0 {
      CollectShift(f, a, b, n - 1);
    } else {
      CollectPrefix(f, a, b, |a|);
    }
  }

  lemma {:induction false} CollectAppend(f: string -> seq<string>, a: seq<string>, b: seq<string>)
    ensures Collect(f, a + b) == Collect(f, a) + Collect(f, b)
  {
    CollectShift(f, a, b, |b|);
  }

  lemma {:induction false} OneMember(f: string -> seq<string>, x: string)
    ensures Collect(f, [x]) == f(x)
  {
    assert CollectUpTo(f, [x], 1) == CollectUpTo(f, [x], 0) + f(x);
  }

  lemma SameHead(f: string -> seq<string>, p: string, q: string, rest: seq<string>)
    requires f(p) == f(q)
    ensures Collect(f, [p] + rest) == Collect(f, [q] + rest)
  {
    CollectAppend(f, [p], rest);
    CollectAppend(f, [q], rest);
    OneMember(f, p);
    OneMember(f, q);
  }

  lemma SameTail(f: string -> seq<string>, rest: seq<string>, p: string, q: string)
    requires f(p) == f(q)
    ensures Collect(f, rest + [p]) == Collect(f, rest + [q])
  {
    CollectAppend(f, rest, [p]);
    CollectAppend(f, rest, [q]);
    OneMember(f, p);
    OneMember(f, q);
  }

  lemma EmptyAddsNothing(f: string -> seq<string>, parts: seq<string>)
    requires f("") == []
    ensures Collect(f, [""] + parts) == Collect(f, parts) == Collect(f, parts + [""])
  {
    CollectAppend(f, [""], parts);
    CollectAppend(f, parts, [""]);
    OneMember(f, "");
  }

  lemma SpaceInFront(c: char, p: string)
    requires IsSpace(c)
    ensures EntryOf([c] + p) == EntryOf(p)
  {
    TrimCons(c, p);
  }

  lemma SpaceBehind(p: string, c: char)
    requires IsSpace(c)
    ensures EntryOf(p + [c]) == EntryOf(p)
  {
    TrimSnoc(p, c);
  }

  lemma CollectCons(f: string -> seq<string>, c: char, s: string)
    requires f("") == [] && f([c] + Split(IsCut, s)[0]) == f(Split(IsCut, s)[0])
    ensures Collect(f, Split(IsCut, [c] + s)) == Collect(f, Split(IsCut, s))
  {
    var parts := Split(IsCut, s);
    SplitCons(IsCut, c, s);
    EmptyAddsNothing(f, parts);
    SameHead(f, [c] + parts[0], parts[0], parts[1..]);
    assert parts == [parts[0]] + parts[1..];
  }

  lemma CollectExtended(f: string -> seq<string>, s: string, parts: seq<string>, c: char)
    requires parts != [] && f("") == [] && f(parts[|parts| - 1] + [c]) == f(parts[|parts| - 1])
    ensures Collect(f, Extended(IsCut, s, parts, c)) == Collect(f, parts)
  {
    var n := |parts| - 1;
    EmptyAddsNothing(f, parts);
    SameTail(f, parts[..n], parts[n] + [c], parts[n]);
    assert parts == parts[..n] + [parts[n]];
  }

  lemma LeadingSpace(c: char, s: string)
    requires IsSpace(c)
    ensures RawEntries([c] + s) == RawEntries(s)
  {
    SpaceInFront(c, Split(IsCut, s)[0]);
    CollectCons(EntryOf, c, s);
  }

  lemma TrailingSpace(s: string, c: char)
    requires IsSpace(c)
    ensures RawEntries(s + [c]) == RawEntries(s)
  {
    var parts := Split(IsCut, s);
    SpaceBehind(parts[|parts| - 1], c);
    SplitSnoc(IsCut, s, c);
    CollectExtended(EntryOf, s, parts, c);
  }

  lemma {:induction false} DropSpaces(s: string, lo: nat)
    requires lo <= |s| && forall k | 0 <= k < lo :: IsSpace(s[k])
    ensures RawEntries(s[lo..]) == RawEntries(s)
    decreases lo
  {
    if lo > 0 {
      DropSpaces(s, lo - 1);
      LeadingSpace(s[lo - 1], s[lo..]);
      assert s[lo - 1..] == [s[lo - 1]] + s[lo..];
    } else {
      assert s[0..] == s;
    }
  }

  lemma {:induction false} KeepUpTo(s: string, hi: nat)
    requires hi <= |s| && forall k | hi <= k < |s| :: IsSpace(s[k])
    ensures RawEntries(s[..hi]) == RawEntries(s)
    decreases |s| - hi
  {
    if hi < |s| {
      KeepUpTo(s, hi + 1);
      TrailingSpace(s[..hi], s[hi]);
      assert s[..hi + 1] == s[..hi] + [s[hi]];
    } else {
      assert s[..hi] == s;
    }
  }

  lemma TrimKeepsEntries(s: string)
    ensures RawEntries(Trim(s)) == RawEntries(s)
  {
    var lo, hi := Trimming(s);
    DropSpaces(s, lo);
    KeepUpTo(s[lo..], hi - lo);
    assert s[lo..][..hi - lo] == s[lo..hi];
  }

  lemma {:induction false} CollectAlike(f: string -> seq<string>, g: string -> seq<string>, xs: seq<string>, n: nat)
    requires n <= |xs| && forall x | x in xs :: f(x) == g(x)
    ensures CollectUpTo(f, xs, n) == CollectUpTo(g, xs, n)
  {
    if n > 0 {
      CollectAlike(f, g, xs, n - 1);
    }
  }

  /** The trimming that only the Go side does before splitting makes no difference. */
  lemma SidesNormalizeAlike(values: seq<string>)
    ensures Entries(Go, values) == Entries(Python, values)
    ensures Normalized(Go, values) == Normalized(Python, values)
  {
    forall raw | raw in values ensures RuleEntries(Go)(raw) == RuleEntries(Python)(raw) {
      TrimKeepsEntries(raw);
    }
    CollectAlike(RuleEntries(Go), RuleEntries(Python), values, |values|);
  }

  // ----- patterns --------------------------------------------------------------------------------

  predicate IsToken(c: char) {
    'a' <= c <= 'z' || '0' <= c <= '9'
  }

  /** The regular expressions the two sides build for a plain keyword. */
  datatype Pattern =
    | Nothing
    | Exactly(c: char)
    | NonToken
    | AtStart
    | AtEnd
    | NotBehindToken
    | NotAheadToken
    | Either(left: Pattern, right: Pattern)
    | Then(first: Pattern, second: Pattern)

  predicate Matches(p: Pattern, s: string, i: nat, j: nat)
    requires i <= j <= |s|
    decreases p
  {
    match p
    case Nothing => i == j
    case Exactly(c) => j == i + 1 && s[i] == c
    case NonToken => j == i + 1 && !IsToken(s[i])
    case AtStart => i == j == 0
    case AtEnd => i == j == |s|
    case NotBehindToken => i == j && (i == 0 || !IsToken(s[i - 1]))
    case NotAheadToken => i == j && (i == |s| || !IsToken(s[i]))
    case Either(left, right) => Matches(left, s, i, j) || Matches(right, s, i, j)
    case Then(first, second) => exists k | i <= k <= j :: Matches(first, s, i, k) && Matches(second, s, k, j)
  }

  predicate Search(p: Pattern, s: string) {
    exists i, j | 0 <= i <= j <= |s| :: Matches(p, s, i, j)
  }

  function Quoted(keyword: string): Pattern
    decreases |keyword|
  {
    if keyword == "" then Nothing else Then(Exactly(keyword[0]), Quoted(keyword[1..]))
  }

  function PatternOf(side: Side, keyword: string): Pattern {
    match side
    case Go => Then(Either(AtStart, NonToken), Then(Quoted(keyword), Either(NonToken, AtEnd)))
    case Python => Then(NotBehindToken, Then(Quoted(keyword), NotAheadToken))
  }

  /** What both patterns are for: the keyword occurs with no token character next to it. */
  predicate StandsAt(keyword: string, s: string, i: int) {
    && OccursAt(keyword, s, i)
    && (i == 0 || !IsToken(s[i - 1]))
    && (i + |keyword| == |s| || !IsToken(s[i + |keyword|]))
  }

  predicate Stands(keyword: string, s: string) {
    exists i | 0 <= i <= |s| :: StandsAt(keyword, s, i)
  }

  lemma {:induction false} QuotedMatches(keyword: string, s: string, i: nat, j: nat)
    requires i <= j <= |s|
    ensures Matches(Quoted(keyword), s, i, j) <==> j == i + |keyword| && OccursAt(keyword, s, i)
    decreases |keyword|
  {
    if keyword == "" {
      assert s[i..i] == "";
    } else {
      if i < j {
        QuotedMatches(keyword[1..], s, i + 1, j);
      }
      if j == i + |keyword| {
        assert s[i..j] == [s[i]] + s[i + 1..j];
        assert keyword == [keyword[0]] + keyword[1..];
      }
    }
  }

  lemma Halves(first: Pattern, second: Pattern, s: string, i: nat, j: nat) returns (k: nat)
    requires i <= j <= |s| && Matches(Then(first, second), s, i, j)
    ensures i <= k <= j && Matches(first, s, i, k) && Matches(second, s, k, j)
  {
    k :| i <= k <= j && Matches(first, s, i, k) && Matches(second, s, k, j);
  }

  lemma Joined(first: Pattern, second: Pattern, s: string, i: nat, k: nat, j: nat)
    requires i <= k <= j <= |s| && Matches(first, s, i, k) && Matches(second, s, k, j)
    ensures Matches(Then(first, second), s, i, j)
  {
  }

  /** A pattern made of a boundary, the quoted keyword and a boundary matches in three pieces. */
  lemma ThreePieces(head: Pattern, keyword: string, tail: Pattern, s: string) returns (i: nat, k: nat, l: nat, j: nat)
    requires Search(Then(head, Then(Quoted(keyword), tail)), s)
    ensures i <= k <= l <= j <= |s| && Matches(head, s, i, k) && OccursAt(keyword, s, k) && l == k + |keyword|
    ensures Matches(tail, s, l, j)
  {
    var rest := Then(Quoted(keyword), tail);
    i, j :| 0 <= i <= j <= |s| && Matches(Then(head, rest), s, i, j);
    k := Halves(head, rest, s, i, j);
    l := Halves(Quoted(keyword), tail, s, k, j);
    QuotedMatches(keyword, s, k, l);
  }

  lemma ThreePiecesMatch(head: Pattern, keyword: string, tail: Pattern, s: string, i: nat, k: nat, j: nat)
    requires i <= k && k + |keyword| <= j <= |s| && Matches(head, s, i, k) && OccursAt(keyword, s, k)
    requires Matches(tail, s, k + |keyword|, j)
    ensures Search(Then(head, Then(Quoted(keyword), tail)), s)
  {
    QuotedMatches(keyword, s, k, k + |keyword|);
    Joined(Quoted(keyword), tail, s, k, k + |keyword|, j);
    Joined(head, Then(Quoted(keyword), tail), s, i, k, j);
  }

  lemma PythonFinds(keyword: string, s: string)
    ensures Search(PatternOf(Python, keyword), s) <==> Stands(keyword, s)
  {
    if Search(PatternOf(Python, keyword), s) {
      var i, k, l, j := ThreePieces(NotBehindToken, keyword, NotAheadToken, s);
      assert StandsAt(keyword, s, k);
    }
    if Stands(keyword, s) {
      var i :| 0 <= i <= |s| && StandsAt(keyword, s, i);
      ThreePiecesMatch(NotBehindToken, keyword, NotAheadToken, s, i, i, i + |keyword|);
    }
  }

  lemma GoFinds(keyword: string, s: string)
    ensures Search(PatternOf(Go, keyword), s) <==> Stands(keyword, s)
  {
    var head, tail := Either(AtStart, NonToken), Either(NonToken, AtEnd);
    if Search(PatternOf(Go, keyword), s) {
      var i, k, l, j := ThreePieces(head, keyword, tail, s);
      assert StandsAt(keyword, s, k);
    }
    if Stands(keyword, s) {
      var i :| 0 <= i <= |s| && StandsAt(keyword, s, i);
      var j := i + |keyword|;
      var from, to := if i == 0 then 0 else i - 1, if j == |s| then j else j + 1;
      assert Matches(head, s, from, i) by {
        assert Matches(AtStart, s, from, i) || Matches(NonToken, s, from, i);
      }
      assert Matches(tail, s, j, to) by {
        assert Matches(NonToken, s, j, to) || Matches(AtEnd, s, j, to);
      }
      ThreePiecesMatch(head, keyword, tail, s, from, i, to);
    }
  }

  /** The pattern that consumes its boundaries and the one that only looks at them accept the same
      texts, for every keyword. */
  lemma PatternsAgree(keyword: string, s: string)
    ensures Search(PatternOf(Go, keyword), s) <==> Search(PatternOf(Python, keyword), s)
    ensures Search(PatternOf(Go, keyword), s) <==> Stands(keyword, s)
  {
    GoFinds(keyword, s);
    PythonFinds(keyword, s);
  }

  // ----- matching and hiding -----------------------------------------------------------------------

  predicate AsciiKeyword(keyword: string) {
    keyword != "" && forall c | c in keyword :: IsToken(c) || c == ' '
  }

  type UserRegex = (string, string) -> bool

  predicate KeywordMatches(side: Side, user: UserRegex, keyword: string, text: string) {
    if IsRegex(keyword) then user(keyword[3..], text)
    else if !AsciiKeyword(keyword) then Contains(text, keyword)
    else Search(PatternOf(side, keyword), text)
  }

  function FilterUpTo(p: string -> bool, xs: seq<string>, n: nat): seq<string>
    requires n <= |xs|
  {
    if n == 0 then [] else FilterUpTo(p, xs, n - 1) + if p(xs[n - 1]) then [xs[n - 1]] else []
  }

  function Filter(p: string -> bool, xs: seq<string>): seq<string> {
    FilterUpTo(p, xs, |xs|)
  }

  function HitBy(side: Side, user: UserRegex, text: string): string -> bool {
    keyword => KeywordMatches(side, user, keyword, text)
  }

  function MatchedIn(side: Side, user: UserRegex, keywords: seq<string>, text: string): seq<string> {
    if text == "" then [] else Filter(HitBy(side, user, text), keywords)
  }

  /** The rules that match a record's search text. */
  function Matched(side: Side, user: UserRegex, values: seq<string>, text: string): seq<string> {
    MatchedIn(side, user, Normalized(side, values), text)
  }

  method Select(p: string -> bool, keywords: seq<string>) returns (matched: seq<string>)
    ensures matched == Filter(p, keywords)
  {
    matched := [];
    for i := 0 to |keywords|
      invariant matched == FilterUpTo(p, keywords, i)
    {
      if p(keywords[i]) {
        matched := matched + [keywords[i]];
      }
    }
  }

  /** `match_blacklist_keywords`, `matchBlacklistKeywords`, on the record's search text. */
  method MatchBlacklist(side: Side, user: UserRegex, values: seq<string>, searchText: string)
    returns (matched: seq<string>)
    ensures matched == Matched(side, user, values, NormalizeText(searchText))
  {
    var keywords := NormalizeKeywords(side, values);
    if keywords == [] {
      return [];
    }
    var text := NormalizeText(searchText);
    if text == "" {
      return [];
    }
    matched := Select(HitBy(side, user, text), keywords);
  }

  lemma {:induction false} FilterPrefix(p: string -> bool, xs: seq<string>, ys: seq<string>, n: nat)
    requires n <= |xs|
    ensures FilterUpTo(p, xs + ys, n) == FilterUpTo(p, xs, n)
  {
    if n > 0 {
      FilterPrefix(p, xs, ys, n - 1);
    }
  }

  lemma {:induction false} FilterStep(p: string -> bool, xs: seq<string>, last: string)
    ensures Filter(p, xs + [last]) == Filter(p, xs) + if p(last) then [last] else []
  {
    FilterPrefix(p, xs, [last], |xs|);
  }

  lemma {:induction false} FilterMembers(p: string -> bool, xs: seq<string>)
    ensures forall x :: x in Filter(p, xs) <==> x in xs && p(x)
    decreases |xs|
  {
    if xs != [] {
      var init, last := xs[..|xs| - 1], xs[|xs| - 1];
      FilterMembers(p, init);
      FilterStep(p, init, last);
      assert xs == init + [last];
    }
  }

  lemma {:induction false} FilterAppend(p: string -> bool, xs: seq<string>, ys: seq<string>)
    ensures Filter(p, xs + ys) == Filter(p, xs) + Filter(p, ys)
    decreases |ys|
  {
    if ys == [] {
      assert xs + ys == xs;
    } else {
      var init, last := ys[..|ys| - 1], ys[|ys| - 1];
      FilterAppend(p, xs, init);
      FilterStep(p, xs + init, last);
      FilterStep(p, init, last);
      assert ys == init + [last] && xs + ys == (xs + init) + [last];
    }
  }

  lemma {:induction false} FilterFirstStep(p: string -> bool, f: seq<string>, hits: seq<string>, init: seq<string>, last: string)
    requires Filter(p, f) == FirstOccurrences(hits) && (last in hits <==> last in init && p(last))
    ensures Filter(p, f + IfNew(last, init)) == FirstOccurrences(hits + if p(last) then [last] else [])
  {
    FilterStep(p, f, last);
    FirstStep(hits, last);
    assert f + [] == f && hits + [] == hits;
  }

  lemma {:induction false} FilterFirst(p: string -> bool, xs: seq<string>)
    ensures Filter(p, FirstOccurrences(xs)) == FirstOccurrences(Filter(p, xs))
    decreases |xs|
  {
    if xs != [] {
      var init, last := xs[..|xs| - 1], xs[|xs| - 1];
      FilterFirst(p, init);
      FilterMembers(p, init);
      FirstStep(init, last);
      FilterStep(p, init, last);
      assert xs == init + [last];
      FilterFirstStep(p, FirstOccurrences(init), Filter(p, init), init, last);
    }
  }

  /** Matching a joined list is matching both lists and dropping repeats. */
  lemma MatchedAppend(side: Side, user: UserRegex, a: seq<string>, b: seq<string>, text: string)
    ensures Matched(side, user, a + b, text)
         == FirstOccurrences(Matched(side, user, a, text) + Matched(side, user, b, text))
  {
    if text != "" {
      var p := HitBy(side, user, text);
      var x, y := Entries(side, a), Entries(side, b);
      CollectAppend(RuleEntries(side), a, b);
      FilterFirst(p, x + y);
      FilterAppend(p, x, y);
      FilterFirst(p, x);
      FilterFirst(p, y);
      FirstOccurrencesAppend(Filter(p, x), Filter(p, y));
    }
  }

  /** With one matcher for `re:` rules, both sides report the same rules for every text. */
  lemma SidesMatchAlike(user: UserRegex, values: seq<string>, text: string)
    ensures Matched(Go, user, values, text) == Matched(Python, user, values, text)
  {
    SidesNormalizeAlike(values);
    MatchedAlike(user, Normalized(Go, values), text);
  }

  lemma MatchedAlike(user: UserRegex, keywords: seq<string>, text: string)
    ensures MatchedIn(Go, user, keywords, text) == MatchedIn(Python, user, keywords, text)
  {
    FilterAlike(user, keywords, text, |keywords|);
  }

  lemma {:induction false} FilterAlike(user: UserRegex, xs: seq<string>, text: string, n: nat)
    requires n <= |xs|
    ensures FilterUpTo(HitBy(Go, user, text), xs, n) == FilterUpTo(HitBy(Python, user, text), xs, n)
  {
    if n > 0 {
      FilterAlike(user, xs, text, n - 1);
      PatternsAgree(xs[n - 1], text);
    }
  }

  datatype Reason = Shown | Expired | Manual | ByRule

  datatype Record = Record(status: string, text: string)

  /** `decorateRecordVisibility`: expiry goes before a manual status, and that before the rules. */
  function HiddenReason(status: string, matched: seq<string>): Reason {
    if status == "expired" then Expired
    else if status != "" && status != "active" then Manual
    else if matched != [] then ByRule
    else Shown
  }

  function ReasonUnder(side: Side, user: UserRegex, values: seq<string>, r: Record): Reason {
    HiddenReason(r.status, Matched(side, user, values, r.text))
  }

  function HiddenBy(side: Side, user: UserRegex, values: seq<string>, records: set<Record>, reason: Reason): set<Record> {
    set r | r in records && ReasonUnder(side, user, values, r) == reason
  }

  lemma NoneOfBoth(xs: seq<string>, ys: seq<string>)
    ensures FirstOccurrences(xs + ys) == [] <==> xs == [] && ys == []
  {
    var both := xs + ys;
    FirstOccurrencesMembers(both);
    assert both != [] ==> both[0] in FirstOccurrences(both);
    assert xs != [] ==> both[0] == xs[0];
  }

  lemma NothingMatchesIff(side: Side, user: UserRegex, a: seq<string>, b: seq<string>, text: string)
    ensures Matched(side, user, a + b, text) == [] <==>
            Matched(side, user, a, text) == [] && Matched(side, user, b, text) == []
  {
    MatchedAppend(side, user, a, b, text);
    NoneOfBoth(Matched(side, user, a, text), Matched(side, user, b, text));
  }

  lemma ReasonAppend(side: Side, user: UserRegex, a: seq<string>, b: seq<string>, r: Record)
    ensures var both, x, y := ReasonUnder(side, user, a + b, r), ReasonUnder(side, user, a, r), ReasonUnder(side, user, b, r);
            && (both == ByRule <==> x == ByRule || y == ByRule)
            && (both == Shown <==> x == Shown && y == Shown)
            && (both == Expired <==> x == Expired) && (both == Manual <==> x == Manual)
  {
    NothingMatchesIff(side, user, a, b, r.text);
  }

  /** The records hidden by rule under a joined list are exactly those hidden under either, and the
      records shown are those shown under both; a longer list moves no record that is expired or
      hidden by hand. */
  lemma HiddenUnion(side: Side, user: UserRegex, a: seq<string>, b: seq<string>, records: set<Record>)
    ensures HiddenBy(side, user, a + b, records, ByRule)
         == HiddenBy(side, user, a, records, ByRule) + HiddenBy(side, user, b, records, ByRule)
    ensures HiddenBy(side, user, a + b, records, Shown)
         == HiddenBy(side, user, a, records, Shown) * HiddenBy(side, user, b, records, Shown)
    ensures HiddenBy(side, user, a + b, records, Expired) == HiddenBy(side, user, a, records, Expired)
    ensures HiddenBy(side, user, a + b, records, Manual) == HiddenBy(side, user, a, records, Manual)
  {
    forall r | r in records
      ensures var both, x, y := ReasonUnder(side, user, a + b, r), ReasonUnder(side, user, a, r), ReasonUnder(side, user, b, r);
              && (both == ByRule <==> x == ByRule || y == ByRule)
              && (both == Shown <==> x == Shown && y == Shown)
              && (both == Expired <==> x == Expired) && (both == Manual <==> x == Manual)
    {
      ReasonAppend(side, user, a, b, r);
    }
  }
}
