/** What the rules of a blacklist are, which of them match a text, and what a record's text is collected from,
    stated on the characters and values themselves. */
module RuleReference {
  import opened Basics
  import opened Text
  import opened Blacklist
  import SearchText

  // ----- parts -------------------------------------------------------------------------------------

  /** The characters from `i` to `j` are a longest stretch without separators. */
  predicate Stretch(sep: char -> bool, s: string, i: nat, j: nat) {
    && i < j <= |s|
    && (forall k | i <= k < j :: !sep(s[k]))
    && (i == 0 || sep(s[i - 1])) && (j == |s| || sep(s[j]))
  }

  ghost predicate IsPart(sep: char -> bool, s: string, part: string) {
    exists i: nat, j: nat | i < j <= |s| :: Stretch(sep, s, i, j) && s[i..j] == part
  }

  /** The length of the stretch that `s` begins with. */
  function HeadLength(sep: char -> bool, s: string): (n: nat)
    ensures n <= |s| && (forall k | 0 <= k < n :: !sep(s[k])) && (n < |s| ==> sep(s[n]))
    decreases |s|
  {
    if s == "" || sep(s[0]) then 0 else 1 + HeadLength(sep, s[1..])
  }

  /** The first part is the stretch at the front; what follows are the parts behind it. */
  lemma {:induction false} SplitHeadIs(sep: char -> bool, s: string)
    ensures Split(sep, s)[0] == s[..HeadLength(sep, s)]
    decreases |s|
  {
    if s != "" && !sep(s[0]) {
      SplitHeadIs(sep, s[1..]);
      assert s[..HeadLength(sep, s)] == [s[0]] + s[1..][..HeadLength(sep, s[1..])];
    } else if s != "" && |s| > 1 && sep(s[1]) {
      SplitHeadIs(sep, s[1..]);
    }
  }

  lemma ShiftStretch(sep: char -> bool, s: string, i: nat, j: nat)
    requires s != "" && Stretch(sep, s[1..], i, j) && (i > 0 || sep(s[0]))
    ensures Stretch(sep, s, i + 1, j + 1) && s[i + 1..j + 1] == s[1..][i..j]
  {
    assert forall k | 0 <= k < |s| - 1 :: s[1..][k] == s[k + 1];
  }

  lemma UnshiftStretch(sep: char -> bool, s: string, i: nat, j: nat)
    requires Stretch(sep, s, i, j) && i > 0
    ensures Stretch(sep, s[1..], i - 1, j - 1) && s[i..j] == s[1..][i - 1..j - 1]
  {
    assert forall k | 0 <= k < |s| - 1 :: s[1..][k] == s[k + 1];
  }

  /** The parts of a split are what is left of the text when its longest stretches of separators are taken out. */
  lemma {:induction false} SplitPartsIff(sep: char -> bool, s: string, part: string)
    requires part != ""
    ensures part in Split(sep, s) <==> IsPart(sep, s, part)
    decreases |s|
  {
    if part in Split(sep, s) {
      PartOfSplit(sep, s, part);
    }
    if IsPart(sep, s, part) {
      var i: nat, j: nat :| i < j <= |s| && Stretch(sep, s, i, j) && s[i..j] == part;
      StretchInSplit(sep, s, i, j);
    }
  }

  lemma {:induction false} PartOfSplit(sep: char -> bool, s: string, part: string)
    requires part != "" && part in Split(sep, s)
    ensures IsPart(sep, s, part)
    decreases |s|, 1
  {
    if s != "" {
      var rest := Split(sep, s[1..]);
      SplitHeadIs(sep, s);
      if sep(s[0]) {
        PartOfSplit(sep, s[1..], part);
        var i: nat, j: nat :| i < j <= |s[1..]| && Stretch(sep, s[1..], i, j) && s[1..][i..j] == part;
        ShiftStretch(sep, s, i, j);
      } else if part == Split(sep, s)[0] {
        assert Stretch(sep, s, 0, HeadLength(sep, s)) && s[0..HeadLength(sep, s)] == part;
      } else {
        assert part in rest[1..];
        LaterPart(sep, s, part);
      }
    }
  }

  /** A part behind the first one lies behind the first stretch. */
  lemma {:induction false} LaterPart(sep: char -> bool, s: string, part: string)
    requires s != "" && part != "" && part in Split(sep, s)[1..]
    ensures exists i: nat, j: nat | 0 < i < j <= |s| :: Stretch(sep, s, i, j) && s[i..j] == part
    decreases |s|, 0
  {
    var rest := Split(sep, s[1..]);
    if !sep(s[0]) {
      assert Split(sep, s)[1..] == rest[1..];
      assert s[1..] != "";
      LaterPart(sep, s[1..], part);
      var i: nat, j: nat :| 0 < i < j <= |s[1..]| && Stretch(sep, s[1..], i, j) && s[1..][i..j] == part;
      ShiftStretch(sep, s, i, j);
    } else {
      if |s| > 1 && sep(s[1]) {
        LaterPart(sep, s[1..], part);
        var i: nat, j: nat :| 0 < i < j <= |s[1..]| && Stretch(sep, s[1..], i, j) && s[1..][i..j] == part;
        ShiftStretch(sep, s, i, j);
      } else {
        assert Split(sep, s)[1..] == rest;
        PartOfSplit(sep, s[1..], part);
        var i: nat, j: nat :| i < j <= |s[1..]| && Stretch(sep, s[1..], i, j) && s[1..][i..j] == part;
        ShiftStretch(sep, s, i, j);
      }
    }
  }

  lemma {:induction false} StretchInSplit(sep: char -> bool, s: string, i: nat, j: nat)
    requires Stretch(sep, s, i, j)
    ensures s[i..j] in Split(sep, s)
    ensures i > 0 ==> s[i..j] in Split(sep, s)[1..]
    decreases |s|
  {
    SplitHeadIs(sep, s);
    if i == 0 {
      HeadEnds(sep, s, j);
    } else {
      UnshiftStretch(sep, s, i, j);
      StretchInSplit(sep, s[1..], i - 1, j - 1);
      if !sep(s[0]) {
        assert Split(sep, s)[1..] == Split(sep, s[1..])[1..];
        assert i - 1 > 0;
      } else if |s| > 1 && sep(s[1]) {
        assert i - 1 > 0;
      } else {
        assert Split(sep, s)[1..] == Split(sep, s[1..]);
      }
    }
  }

  lemma HeadEnds(sep: char -> bool, s: string, j: nat)
    requires Stretch(sep, s, 0, j)
    ensures HeadLength(sep, s) == j && s[0..j] == s[..HeadLength(sep, s)]
  {
  }

  /** White space is the space and the five control characters from the tab on. */
  lemma SpacesAre(c: char)
    ensures IsSpace(c) <==> c as int in {9, 10, 11, 12, 13, 32}
  {
  }

  // ----- normalised text ---------------------------------------------------------------------------

  /** One character in lower case. */
  function InLower(c: char): char {
    if 65 <= c as int <= 90 then (c as int + 32) as char else c
  }

  /** The first `n` characters, read one after the other: white space is left out, and a character after some is put
      behind a single space, unless it is the first one. */
  function Read(s: string, n: nat): string
    requires n <= |s|
  {
    if n == 0 then ""
    else if IsSpace(s[n - 1]) then Read(s, n - 1)
    else Read(s, n - 1) + (if n >= 2 && IsSpace(s[n - 2]) && Read(s, n - 1) != "" then " " else "") + [s[n - 1]]
  }

  lemma LastPart(sep: char -> bool, s: string)
    ensures var parts := Split(sep, s); parts[|parts| - 1] == "" <==> s == "" || sep(s[|s| - 1])
  {
    if s != "" {
      var init, c := s[..|s| - 1], s[|s| - 1];
      SplitSnoc(sep, init, c);
      assert s == init + [c];
      if sep(c) && init != "" && sep(init[|init| - 1]) {
        LastPart(sep, init);
      }
    }
  }

  lemma {:induction false} NonEmptyJoins(parts: seq<string>, p: string)
    ensures NonEmpty(parts + [p]) == NonEmpty(parts) + if p == "" then [] else [p]
  {
    NonEmptyAppend(parts, p);
  }

  lemma {:induction false} JoinLonger(words: seq<string>, w: string, c: char)
    ensures Join(words + [w + [c]]) == Join(words + [w]) + [c]
    decreases |words|
  {
    if words != [] {
      JoinLonger(words[1..], w, c);
      assert (words + [w])[1..] == words[1..] + [w] && (words + [w + [c]])[1..] == words[1..] + [w + [c]];
    } else {
      assert words + [w] == [w] && words + [w + [c]] == [w + [c]];
    }
  }

  lemma {:induction false} JoinMore(words: seq<string>, w: string)
    requires words != []
    ensures Join(words + [w]) == Join(words) + " " + w
    decreases |words|
  {
    var rest := words[1..];
    assert (words + [w])[1..] == rest + [w] && (words + [w])[0] == words[0];
    if rest == [] {
      assert rest + [w] == [w];
      assert words[0] + " " + Join([w]) == Join(words) + " " + w;
    } else {
      JoinMore(rest, w);
      assert words[0] + " " + (Join(rest) + " " + w) == (words[0] + " " + Join(rest)) + " " + w;
    }
  }

  lemma JoinNothing(words: seq<string>)
    requires Words(words)
    ensures Join(words) == "" <==> words == []
  {
    if words != [] {
      JoinHead(words);
    }
  }

  /** One space more. */
  lemma {:induction false} SpaceBehindText(t: string, c: char)
    requires IsSpace(c)
    ensures Fields(t + [c]) == Fields(t)
  {
    SplitSnoc(IsSpace, t, c);
    NonEmptyJoins(Split(IsSpace, t), "");
  }

  /** A letter behind the end of a word makes it longer. */
  lemma {:induction false} LetterBehindWord(t: string, c: char)
    requires !IsSpace(c) && t != "" && !IsSpace(t[|t| - 1])
    ensures Join(Fields(t + [c])) == Join(Fields(t)) + [c]
  {
    var parts := Split(IsSpace, t);
    var n := |parts| - 1;
    var front, last := parts[..n], parts[n];
    assert parts == front + [last];
    SplitSnoc(IsSpace, t, c);
    LastPart(IsSpace, t);
    NonEmptyJoins(front, last);
    NonEmptyJoins(front, last + [c]);
    JoinLonger(NonEmpty(front), last, c);
  }

  /** A letter behind white space is a word of its own. */
  lemma {:induction false} LetterBehindSpace(t: string, c: char)
    requires !IsSpace(c) && (t == "" || IsSpace(t[|t| - 1]))
    ensures Join(Fields(t + [c])) == Join(Fields(t)) + (if Join(Fields(t)) != "" then " " else "") + [c]
    ensures t == "" ==> Join(Fields(t)) == ""
  {
    var parts := Split(IsSpace, t);
    var n := |parts| - 1;
    var front := parts[..n];
    LastPart(IsSpace, t);
    assert parts == front + [""];
    SplitSnoc(IsSpace, t, c);
    assert parts[n] + [c] == [c];
    assert Split(IsSpace, t + [c]) == front + [[c]];
    NonEmptyJoins(front, "");
    NonEmptyJoins(front, [c]);
    FieldsAreWords(t);
    JoinNothing(Fields(t));
    assert Fields(t + [c]) == Fields(t) + [[c]];
    if Fields(t) != [] {
      JoinMore(Fields(t), [c]);
    } else {
      assert Fields(t) + [[c]] == [[c]];
    }
    if t == "" {
      assert NonEmpty([""]) == NonEmpty([""][1..]);
    }
  }

  lemma {:induction false} FieldsAreRead(s: string, n: nat)
    requires n <= |s|
    ensures Join(Fields(s[..n])) == Read(s, n)
  {
    if n == 0 {
      assert s[..0] == "" && NonEmpty([""]) == NonEmpty([""][1..]);
    } else {
      var t, c := s[..n - 1], s[n - 1];
      FieldsAreRead(s, n - 1);
      assert t + [c] == s[..n];
      if IsSpace(c) {
        SpaceBehindText(t, c);
      } else if t == "" || IsSpace(t[|t| - 1]) {
        LetterBehindSpace(t, c);
      } else {
        LetterBehindWord(t, c);
      }
    }
  }

  /** Normalising reads the text character by character, in lower case. */
  lemma {:induction false} NormalizedIs(s: string)
    ensures NormalizeText(s) == Read(Lower(s), |s|)
  {
    assert Lower(s)[..|s|] == Lower(s);
    FieldsAreRead(Lower(s), |s|);
  }

  lemma {:induction false} LowerIs(s: string, i: nat)
    requires i < |s|
    ensures Lower(s)[i] == InLower(s[i])
  {
  }

  // ----- rules ---------------------------------------------------------------------------------------

  /** The part of an entry's text without white space around it. */
  predicate IsTrimmed(part: string, trimmed: string) {
    && Trimmed(trimmed)
    && exists lo, hi | 0 <= lo <= hi <= |part| ::
         trimmed == part[lo..hi] && (forall k | 0 <= k < lo :: IsSpace(part[k])) && forall k | hi <= k < |part| :: IsSpace(part[k])
  }

  predicate SaysRegex(text: string) {
    |text| >= 3 && (text[0] == 'r' || text[0] == 'R') && (text[1] == 'e' || text[1] == 'E') && text[2] == ':'
  }

  /** The rule that a part of a line stands for. */
  ghost predicate StandsFor(part: string, rule: string) {
    exists text | IsTrimmed(part, text) ::
      if SaysRegex(text) then exists pattern | IsTrimmed(text[3..], pattern) :: pattern != "" && rule == "re:" + pattern
      else rule != "" && rule == NormalizeText(text)
  }

  lemma TrimIff(part: string, text: string)
    ensures IsTrimmed(part, text) <==> text == Trim(part)
  {
    if IsTrimmed(part, text) {
      var lo, hi :| 0 <= lo <= hi <= |part| && text == part[lo..hi]
        && (forall k | 0 <= k < lo :: IsSpace(part[k])) && forall k | hi <= k < |part| :: IsSpace(part[k]);
      TrimIs(part, lo, hi);
    }
    if text == Trim(part) {
      var lo, hi := Trimming(part);
      assert text == part[lo..hi];
    }
  }

  lemma RegexIff(text: string)
    ensures SaysRegex(text) <==> IsRegex(text)
  {
    if |text| >= 3 {
      assert Lower(text[..3]) == [LowerChar(text[0]), LowerChar(text[1]), LowerChar(text[2])];
    }
  }

  lemma EntryIff(part: string, rule: string)
    ensures rule in EntryOf(part) <==> StandsFor(part, rule)
  {
    var text := Trim(part);
    TrimIff(part, text);
    RegexIff(text);
    if text == "" {
      assert Fields(Lower("")) == NonEmpty([""]) && NonEmpty([""]) == NonEmpty([""][1..]);
    }
    if SaysRegex(text) {
      TrimIff(text[3..], Trim(text[3..]));
    }
    if StandsFor(part, rule) {
      var other :| IsTrimmed(part, other) &&
        if SaysRegex(other) then exists pattern | IsTrimmed(other[3..], pattern) :: pattern != "" && rule == "re:" + pattern
        else rule != "" && rule == NormalizeText(other);
      TrimIff(part, other);
      if SaysRegex(text) {
        var pattern :| IsTrimmed(text[3..], pattern) && pattern != "" && rule == "re:" + pattern;
        TrimIff(text[3..], pattern);
      }
    }
  }

  /** The rules of a list: exactly those that some part of some line stands for, parts being separated by line ends and
      commas, for both sides. */
  lemma RulesIff(side: Side, values: seq<string>, rule: string)
    ensures rule in Normalized(side, values) <==>
              exists line, part :: line in values && IsPart(IsCut, line, part) && StandsFor(part, rule)
  {
    SidesNormalizeAlike(values);
    FirstOccurrencesMembers(Entries(Python, values));
    if rule in Normalized(side, values) {
      CollectedFrom(RawEntries, values, |values|, rule);
      var line :| line in values && rule in RawEntries(line);
      var part := EntryHasPart(line, rule);
    }
    if line, part :| line in values && IsPart(IsCut, line, part) && StandsFor(part, rule) {
      PartHasEntry(line, part, rule);
      assert values[..|values|] == values;
      Collects(RawEntries, values, |values|, line, rule);
    }
  }

  lemma {:induction false} Collects(f: string -> seq<string>, xs: seq<string>, n: nat, x: string, e: string)
    requires n <= |xs| && x in xs[..n] && e in f(x)
    ensures e in CollectUpTo(f, xs, n)
  {
    if x != xs[n - 1] {
      Collects(f, xs, n - 1, x, e);
    }
  }

  lemma EntryHasPart(line: string, rule: string) returns (part: string)
    requires rule in RawEntries(line)
    ensures IsPart(IsCut, line, part) && StandsFor(part, rule)
  {
    var parts := Split(IsCut, line);
    CollectedFrom(EntryOf, parts, |parts|, rule);
    part :| part in parts && rule in EntryOf(part);
    EntryIff(part, rule);
    SplitPartsIff(IsCut, line, part);
  }

  lemma PartHasEntry(line: string, part: string, rule: string)
    requires IsPart(IsCut, line, part) && StandsFor(part, rule)
    ensures rule in RawEntries(line)
  {
    PartsAreThere(IsCut, line, part);
    SplitPartsIff(IsCut, line, part);
    EntryIff(part, rule);
    var parts := Split(IsCut, line);
    assert parts[..|parts|] == parts;
    Collects(EntryOf, parts, |parts|, part, rule);
  }

  lemma PartsAreThere(sep: char -> bool, s: string, part: string)
    requires IsPart(sep, s, part)
    ensures part != ""
  {
    var i: nat, j: nat :| i < j <= |s| && Stretch(sep, s, i, j) && s[i..j] == part;
    assert |part| == j - i;
  }

  // ----- matches ---------------------------------------------------------------------------------------

  predicate IsLetterOrDigit(c: char) {
    97 <= c as int <= 122 || 48 <= c as int <= 57
  }

  predicate Simple(rule: string) {
    forall c | c in rule :: IsLetterOrDigit(c) || c == ' '
  }

  /** The rule is in the text at `i`; a simple one without a letter or digit beside it. */
  predicate FoundAt(rule: string, text: string, i: nat) {
    && i + |rule| <= |text| && text[i..i + |rule|] == rule
    && (Simple(rule) ==> (i == 0 || !IsLetterOrDigit(text[i - 1]))
                         && (i + |rule| == |text| || !IsLetterOrDigit(text[i + |rule|])))
  }

  lemma LettersAndDigits(c: char)
    ensures IsLetterOrDigit(c) <==> IsToken(c)
  {
  }

  lemma FoundIff(rule: string, text: string, i: nat)
    requires rule != ""
    ensures FoundAt(rule, text, i) <==>
              if AsciiKeyword(rule) then StandsAt(rule, text, i) else OccursAt(rule, text, i)
  {
    forall c: char ensures IsLetterOrDigit(c) <==> IsToken(c) {
      LettersAndDigits(c);
    }
  }

  /** A rule matches a text exactly when: a `re:` rule, when its pattern does; any other, when it is found in it, and a
      rule of letters, digits and spaces only where it stands by itself. Both sides. */
  lemma MatchIff(side: Side, user: UserRegex, rule: string, text: string)
    requires rule != ""
    ensures KeywordMatches(side, user, rule, text) <==>
              if SaysRegex(rule) then user(rule[3..], text) else exists i: nat | i <= |text| :: FoundAt(rule, text, i)
  {
    RegexIff(rule);
    PatternsAgree(rule, text);
    if !SaysRegex(rule) {
      forall i: nat ensures FoundAt(rule, text, i) <==> if AsciiKeyword(rule) then StandsAt(rule, text, i) else OccursAt(rule, text, i) {
        FoundIff(rule, text, i);
      }
    }
  }

  /** The rules that a text matches, in the order of the list. */
  lemma MatchedIff(side: Side, user: UserRegex, values: seq<string>, text: string, rule: string)
    ensures rule in Matched(side, user, values, text) <==>
              text != "" && rule in Normalized(side, values) && KeywordMatches(side, user, rule, text)
  {
    FilterMembers(HitBy(side, user, text), Normalized(side, values));
  }

  /** Why a record is hidden: expired before anything else, then any status of its own but active, then a rule. */
  lemma ReasonIs(side: Side, user: UserRegex, values: seq<string>, r: Record)
    ensures var reason := ReasonUnder(side, user, values, r);
            && (reason == Expired <==> r.status == "expired")
            && (reason == Manual <==> r.status !in {"", "active", "expired"})
            && (reason == ByRule <==> r.status in {"", "active"} && Matched(side, user, values, r.text) != [])
  {
  }

  // ----- keyword rules -----------------------------------------------------------------------------------

  /** The keywords of a recommendation rule are the normalised lines that are not blank. */
  lemma RuleKeywordsIff(values: seq<string>, keyword: string)
    ensures keyword in SearchText.RuleKeywords(values) <==>
              keyword != "" && exists line, text :: line in values && IsTrimmed(line, text) && keyword == NormalizeText(text)
  {
    var entries := Collect(SearchText.RuleKeyword, values);
    FirstOccurrencesMembers(entries);
    if keyword in entries {
      CollectedFrom(SearchText.RuleKeyword, values, |values|, keyword);
      var line :| line in values && keyword in SearchText.RuleKeyword(line);
      TrimIff(line, Trim(line));
      assert line in values && IsTrimmed(line, Trim(line)) && keyword == NormalizeText(Trim(line));
    }
    if line, text :| line in values && IsTrimmed(line, text) && keyword == NormalizeText(text) && keyword != "" {
      TrimIff(line, text);
      assert keyword in SearchText.RuleKeyword(line) && values[..|values|] == values;
      Collects(SearchText.RuleKeyword, values, |values|, line, keyword);
    }
  }

  /** A keyword hits a text that is not empty exactly where it is found in it, one of letters, digits and spaces only
      where it stands by itself. */
  lemma RuleHitsIff(values: seq<string>, searchText: string, keyword: string)
    ensures var text := NormalizeText(searchText);
            keyword in SearchText.RuleHits(values, searchText) <==>
              text != "" && keyword in SearchText.RuleKeywords(values) && exists i: nat | i <= |text| :: FoundAt(keyword, text, i)
  {
    var text := NormalizeText(searchText);
    FilterMembers(SearchText.HitIn(text), SearchText.RuleKeywords(values));
    RuleKeywordsIff(values, keyword);
    if keyword != "" {
      PatternsAgree(keyword, text);
      forall i: nat
        ensures FoundAt(keyword, text, i) <==> if AsciiKeyword(keyword) then StandsAt(keyword, text, i) else OccursAt(keyword, text, i)
      {
        FoundIff(keyword, text, i);
      }
    }
  }

  // ----- fragments ---------------------------------------------------------------------------------------

  /** The value at the end of a path through fields and items. */
  function AtPath(v: SearchText.Value, path: seq<nat>): Option<SearchText.Value>
    decreases |path|
  {
    if path == [] then Some(v)
    else if v.Object? && path[0] < |v.fields| then AtPath(v.fields[path[0]], path[1..])
    else if v.List? && path[0] < |v.items| then AtPath(v.items[path[0]], path[1..])
    else None
  }

  /** A text gives itself without white space around it, unless nothing is left; a number or boolean gives what it is
      printed as. */
  predicate Gives(leaf: SearchText.Value, f: string) {
    || (leaf.TextValue? && f != "" && IsTrimmed(leaf.s, f))
    || (leaf.Scalar? && f == leaf.printed)
  }

  ghost predicate Found(v: SearchText.Value, f: string) {
    exists path :: AtPath(v, path).Some? && Gives(AtPath(v, path).value, f)
  }

  lemma OwnIff(v: SearchText.Value, f: string)
    ensures f in SearchText.OwnText(v) <==> Gives(v, f)
  {
    if v.TextValue? {
      TrimIff(v.s, f);
    }
  }

  lemma {:induction false} ChildPath(v: SearchText.Value, i: nat, path: seq<nat>)
    requires i < |SearchText.Children(v)|
    ensures AtPath(v, [i] + path) == AtPath(SearchText.Children(v)[i], path)
  {
    assert ([i] + path)[1..] == path;
  }

  /** The fragments of a value are exactly what the texts, numbers and booleans at any depth of it give. */
  lemma {:induction false} FragmentsIff(v: SearchText.Value, f: string)
    ensures f in SearchText.Fragments(v) <==> Found(v, f)
    decreases v
  {
    OwnIff(v, f);
    forall i | 0 <= i < |SearchText.Children(v)|
      ensures f in SearchText.Fragments(SearchText.Children(v)[i]) <==> Found(SearchText.Children(v)[i], f)
    {
      FragmentsIff(SearchText.Children(v)[i], f);
    }
    if f in SearchText.Fragments(v) {
      if f in SearchText.OwnText(v) {
        assert AtPath(v, []) == Some(v);
      } else {
        var i := SearchText.ChildOf(v, f);
        FoundInChild(v, i, f);
      }
    }
    if Found(v, f) {
      FoundGives(v, f);
    }
  }

  lemma {:induction false} FoundInChild(v: SearchText.Value, i: nat, f: string)
    requires i < |SearchText.Children(v)| && Found(SearchText.Children(v)[i], f)
    ensures Found(v, f)
  {
    var path :| AtPath(SearchText.Children(v)[i], path).Some? && Gives(AtPath(SearchText.Children(v)[i], path).value, f);
    ChildPath(v, i, path);
  }

  lemma {:induction false} FoundGives(v: SearchText.Value, f: string)
    requires Found(v, f) && (f in SearchText.OwnText(v) <==> Gives(v, f))
    requires forall i | 0 <= i < |SearchText.Children(v)| ::
               Found(SearchText.Children(v)[i], f) ==> f in SearchText.Fragments(SearchText.Children(v)[i])
    ensures f in SearchText.Fragments(v)
  {
    var path :| AtPath(v, path).Some? && Gives(AtPath(v, path).value, f);
    if path == [] {
      SearchText.OwnIsThere(v, f);
    } else {
      assert path == [path[0]] + path[1..];
      ChildPath(v, path[0], path[1..]);
      assert Found(SearchText.Children(v)[path[0]], f);
      SearchText.OfChild(v, path[0], f);
    }
  }
}
