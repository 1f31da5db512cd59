/** Strings as both sides of the program see them: white space, ASCII lower case, trimming, splitting
    at runs of separators, joining, and searching for a piece of text. */
module Text {

  predicate IsSpace(c: char) {
    c == ' ' || '\t' <= c <= '\r'
  }

  function LowerChar(c: char): char {
    if 'A' <= c <= 'Z' then c - 'A' + 'a' else c
  }

  function Lower(s: string): (r: string)
    ensures |r| == |s|
  {
    seq(|s|, i requires 0 <= i < |s| => LowerChar(s[i]))
  }

  /** The first position from `i` on that is not white space. */
  function Lead(s: string, i: nat): nat
    requires i <= |s|
    decreases |s| - i
  {
    if i < |s| && IsSpace(s[i]) then Lead(s, i + 1) else i
  }

  /** The end of the text without its trailing white space, at least `lo`. */
  function Trail(s: string, lo: nat, j: nat): nat
    requires lo <= j <= |s|
    decreases j
  {
    if lo < j && IsSpace(s[j - 1]) then Trail(s, lo, j - 1) else j
  }

  lemma {:induction false} LeadFound(s: string, i: nat)
    requires i <= |s|
    ensures i <= Lead(s, i) <= |s| && forall k | i <= k < Lead(s, i) :: IsSpace(s[k])
    ensures Lead(s, i) < |s| ==> !IsSpace(s[Lead(s, i)])
    decreases |s| - i
  {
    if i < |s| && IsSpace(s[i]) {
      LeadFound(s, i + 1);
    }
  }

  lemma {:induction false} TrailFound(s: string, lo: nat, j: nat)
    requires lo <= j <= |s|
    ensures lo <= Trail(s, lo, j) <= j && forall k | Trail(s, lo, j) <= k < j :: IsSpace(s[k])
    ensures lo < Trail(s, lo, j) ==> !IsSpace(s[Trail(s, lo, j) - 1])
    decreases j
  {
    if lo < j && IsSpace(s[j - 1]) {
      TrailFound(s, lo, j - 1);
    }
  }

  function Trim(s: string): string {
    LeadFound(s, 0);
    var lo := Lead(s, 0);
    TrailFound(s, lo, |s|);
    s[lo..Trail(s, lo, |s|)]
  }

  /** Neither end is white space. */
  predicate Trimmed(s: string) {
    s != "" ==> !IsSpace(s[0]) && !IsSpace(s[|s| - 1])
  }

  /** The parts between maximal runs of separators, empty first and last parts included. */
  function Split(sep: char -> bool, s: string): (parts: seq<string>)
    ensures parts != []
    decreases |s|
  {
    if s == "" then [""]
    else if !sep(s[0]) then
      var rest := Split(sep, s[1..]);
      [[s[0]] + rest[0]] + rest[1..]
    else if |s| > 1 && sep(s[1]) then Split(sep, s[1..])
    else [""] + Split(sep, s[1..])
  }

  function NonEmpty(parts: seq<string>): seq<string>
    decreases |parts|
  {
    if parts == [] then []
    else (if parts[0] == "" then [] else [parts[0]]) + NonEmpty(parts[1..])
  }

  lemma {:induction false} NonEmptyAppend(parts: seq<string>, p: string)
    ensures NonEmpty(parts + [p]) == NonEmpty(parts) + if p == "" then [] else [p]
    decreases |parts|
  {
    if parts == [] {
      assert parts + [p] == [p] && [p][1..] == [];
    } else {
      assert (parts + [p])[1..] == parts[1..] + [p];
      NonEmptyAppend(parts[1..], p);
    }
  }

  function Fields(s: string): seq<string> {
    NonEmpty(Split(IsSpace, s))
  }

  function Join(words: seq<string>): string
    decreases |words|
  {
    if words == [] then ""
    else if |words| == 1 then words[0]
    else words[0] + " " + Join(words[1..])
  }

  function NormalizeText(s: string): string {
    Join(Fields(Lower(s)))
  }

  predicate OccursAt(piece: string, s: string, i: int) {
    0 <= i && i + |piece| <= |s| && s[i..i + |piece|] == piece
  }

  predicate Contains(s: string, piece: string) {
    exists i | 0 <= i <= |s| :: OccursAt(piece, s, i)
  }

  // ----- trimming --------------------------------------------------------------------------

  lemma TrimShape(s: string)
    ensures Trimmed(Trim(s)) && forall c | c in Trim(s) :: c in s
  {
    LeadFound(s, 0);
    TrailFound(s, Lead(s, 0), |s|);
  }

  lemma TrimmedStays(s: string)
    requires Trimmed(s)
    ensures Trim(s) == s
  {
  }

  /** White space around a trimmed text is all that trimming drops. */
  lemma TrimIs(s: string, lo: nat, hi: nat)
    requires lo <= hi <= |s| && Trimmed(s[lo..hi])
    requires forall k | 0 <= k < |s| && !(lo <= k < hi) :: IsSpace(s[k])
    ensures Trim(s) == s[lo..hi]
  {
    LeadFound(s, 0);
    TrailFound(s, Lead(s, 0), |s|);
    if lo < hi {
      assert s[lo..hi][0] == s[lo] && s[lo..hi][hi - lo - 1] == s[hi - 1];
      assert Lead(s, 0) == lo && Trail(s, lo, |s|) == hi;
    } else {
      assert Lead(s, 0) == |s|;
    }
  }

  lemma Trimming(s: string) returns (lo: nat, hi: nat)
    ensures lo <= hi <= |s| && Trim(s) == s[lo..hi] && Trimmed(s[lo..hi])
    ensures forall k | 0 <= k < |s| && !(lo <= k < hi) :: IsSpace(s[k])
  {
    LeadFound(s, 0);
    lo := Lead(s, 0);
    TrailFound(s, lo, |s|);
    hi := Trail(s, lo, |s|);
  }

  /** One space more at the end does not matter. */
  lemma TrimSnoc(s: string, c: char)
    requires IsSpace(c)
    ensures Trim(s + [c]) == Trim(s)
  {
    var lo, hi := Trimming(s);
    assert (s + [c])[lo..hi] == s[lo..hi];
    TrimIs(s + [c], lo, hi);
  }

  /** One space more in front does not matter. */
  lemma TrimCons(c: char, s: string)
    requires IsSpace(c)
    ensures Trim([c] + s) == Trim(s)
  {
    var lo, hi := Trimming(s);
    assert ([c] + s)[lo + 1..hi + 1] == s[lo..hi];
    TrimIs([c] + s, lo + 1, hi + 1);
  }

  // ----- splitting ---------------------------------------------------------------------------

  predicate Free(sep: char -> bool, s: string) {
    forall c | c in s :: !sep(c)
  }

  lemma {:induction false} SplitShape(sep: char -> bool, s: string)
    ensures forall p | p in Split(sep, s) :: Free(sep, p) && forall c | c in p :: c in s
    decreases |s|
  {
    if s != "" {
      SplitShape(sep, s[1..]);
      assert forall c | c in s[1..] :: c in s;
      assert Split(sep, s[1..])[0] in Split(sep, s[1..]);
      assert forall p | p in Split(sep, s[1..])[1..] :: p in Split(sep, s[1..]);
    }
  }

  lemma {:induction false} SplitFree(sep: char -> bool, s: string)
    requires Free(sep, s)
    ensures Split(sep, s) == [s]
    decreases |s|
  {
    if s != "" {
      SplitFree(sep, s[1..]);
      assert s == [s[0]] + s[1..];
    }
  }

  /** Splitting at a separator behind a separator-free, non-empty word. */
  lemma {:induction false} SplitWord(sep: char -> bool, w: string, c: char, s: string)
    requires w != "" && Free(sep, w) && sep(c) && (s != "" ==> !sep(s[0]))
    ensures Split(sep, w + [c] + s) == [w] + Split(sep, s)
    decreases |w|
  {
    var t := w + [c] + s;
    assert t[0] == w[0] && w[0] in w && t[1..] == w[1..] + [c] + s;
    if |w| == 1 {
      assert t[1..] == [c] + s && ([c] + s)[1..] == s;
      assert Split(sep, [c] + s) == [""] + Split(sep, s);
      assert w == [w[0]] + "";
    } else {
      SplitWord(sep, w[1..], c, s);
      assert w == [w[0]] + w[1..];
    }
  }

  lemma {:induction false} SplitHead(sep: char -> bool, s: string)
    requires s != "" && sep(s[0])
    ensures Split(sep, s)[0] == ""
    decreases |s|
  {
    if |s| > 1 && sep(s[1]) {
      SplitHead(sep, s[1..]);
    }
  }

  /** The parts after one character more in front. */
  function Prefixed(sep: char -> bool, c: char, s: string, parts: seq<string>): seq<string>
    requires parts != []
  {
    if !sep(c) then [[c] + parts[0]] + parts[1..]
    else if s != "" && sep(s[0]) then parts
    else [""] + parts
  }

  lemma SplitCons(sep: char -> bool, c: char, s: string)
    ensures Split(sep, [c] + s) == Prefixed(sep, c, s, Split(sep, s))
  {
    var t := [c] + s;
    assert t[0] == c && t[1..] == s && (s != "" ==> t[1] == s[0]);
  }

  /** The parts after one character more at the end. */
  function Extended(sep: char -> bool, s: string, parts: seq<string>, c: char): seq<string>
    requires parts != []
  {
    var n := |parts| - 1;
    if !sep(c) then parts[..n] + [parts[n] + [c]]
    else if s != "" && sep(s[|s| - 1]) then parts
    else parts + [""]
  }

  lemma {:induction false} SplitSnoc(sep: char -> bool, s: string, c: char)
    ensures Split(sep, s + [c]) == Extended(sep, s, Split(sep, s), c)
    decreases |s|
  {
    if s == "" {
      assert [c] == s + [c] && [c][1..] == "";
      SplitCons(sep, c, "");
      assert [c] + "" == [c];
    } else {
      var rest := s[1..];
      SplitSnoc(sep, rest, c);
      SplitCons(sep, s[0], rest);
      SplitCons(sep, s[0], rest + [c]);
      assert [s[0]] + rest == s && [s[0]] + (rest + [c]) == s + [c];
      ExtendedCons(sep, s[0], rest, Split(sep, rest), c);
    }
  }

  /** A letter in front and a letter behind. */
  lemma LettersAround(d: char, parts: seq<string>, c: char)
    requires parts != []
    ensures var n := |parts| - 1;
            var front := [[d] + parts[0]] + parts[1..];
            var behind := parts[..n] + [parts[n] + [c]];
            [[d] + behind[0]] + behind[1..] == front[..n] + [front[n] + [c]]
  {
    var n := |parts| - 1;
    if n == 0 {
      assert [d] + (parts[0] + [c]) == ([d] + parts[0]) + [c];
    }
  }

  lemma ExtendedCons(sep: char -> bool, d: char, s: string, parts: seq<string>, c: char)
    requires parts != [] && (s == "" ==> parts == [""])
    ensures Prefixed(sep, d, s + [c], Extended(sep, s, parts, c))
         == Extended(sep, [d] + s, Prefixed(sep, d, s, parts), c)
  {
    if !sep(d) && !sep(c) {
      BothLetters(sep, d, s, parts, c);
    } else if !sep(d) {
      LetterInFront(sep, d, s, parts, c);
    } else if !sep(c) {
      LetterBehind(sep, d, s, parts, c);
    } else {
      NoLetter(sep, d, s, parts, c);
    }
  }

  lemma BothLetters(sep: char -> bool, d: char, s: string, parts: seq<string>, c: char)
    requires parts != [] && !sep(d) && !sep(c)
    ensures Prefixed(sep, d, s + [c], Extended(sep, s, parts, c)) == Extended(sep, [d] + s, Prefixed(sep, d, s, parts), c)
  {
    LettersAround(d, parts, c);
  }

  lemma NoLetter(sep: char -> bool, d: char, s: string, parts: seq<string>, c: char)
    requires parts != [] && (s == "" ==> parts == [""]) && sep(d) && sep(c)
    ensures Prefixed(sep, d, s + [c], Extended(sep, s, parts, c)) == Extended(sep, [d] + s, Prefixed(sep, d, s, parts), c)
  {
    if s == "" {
      assert (s + [c])[0] == c && ([d] + s)[0] == d && |[d] + s| == 1;
    } else {
      assert (s + [c])[0] == s[0] && ([d] + s)[|s|] == s[|s| - 1] && |[d] + s| == |s| + 1;
    }
  }

  lemma LetterInFront(sep: char -> bool, d: char, s: string, parts: seq<string>, c: char)
    requires parts != [] && (s == "" ==> parts == [""]) && !sep(d) && sep(c)
    ensures Prefixed(sep, d, s + [c], Extended(sep, s, parts, c)) == Extended(sep, [d] + s, Prefixed(sep, d, s, parts), c)
  {
    assert s != "" ==> ([d] + s)[|s|] == s[|s| - 1];
  }

  lemma LetterBehind(sep: char -> bool, d: char, s: string, parts: seq<string>, c: char)
    requires parts != [] && (s == "" ==> parts == [""]) && sep(d) && !sep(c)
    ensures Prefixed(sep, d, s + [c], Extended(sep, s, parts, c)) == Extended(sep, [d] + s, Prefixed(sep, d, s, parts), c)
  {
    assert s != "" ==> (s + [c])[0] == s[0];
    var n := |parts| - 1;
    assert ([""] + parts)[..n + 1] == [""] + parts[..n];
  }

  // ----- words ---------------------------------------------------------------------------------

  predicate Word(w: string) {
    w != "" && Free(IsSpace, w)
  }

  lemma {:induction false} NonEmptyMembers(parts: seq<string>, p: string)
    ensures p in NonEmpty(parts) <==> p in parts && p != ""
    decreases |parts|
  {
    if parts != [] {
      NonEmptyMembers(parts[1..], p);
    }
  }

  lemma FieldsAreWords(s: string)
    ensures forall w | w in Fields(s) :: Word(w) && forall c | c in w :: c in s
  {
    SplitShape(IsSpace, s);
    forall w | w in Fields(s) ensures Word(w) && forall c | c in w :: c in s {
      NonEmptyMembers(Split(IsSpace, s), w);
    }
  }

  predicate Words(words: seq<string>) {
    forall i | 0 <= i < |words| :: Word(words[i])
  }

  lemma {:induction false} JoinHead(words: seq<string>)
    requires Words(words) && words != []
    ensures Join(words) != "" && Join(words)[0] == words[0][0]
    ensures Trimmed(Join(words))
    decreases |words|
  {
    assert words[0][0] in words[0];
    if |words| > 1 {
      JoinHead(words[1..]);
    } else {
      assert words[0][|words[0]| - 1] in words[0];
    }
  }

  /** Splitting undoes joining. */
  lemma {:induction false} FieldsOfJoin(words: seq<string>)
    requires Words(words)
    ensures Fields(Join(words)) == words
    decreases |words|
  {
    if |words| == 1 {
      SplitFree(IsSpace, words[0]);
      assert words == [words[0]];
      assert NonEmpty([words[0]]) == [words[0]] + NonEmpty([words[0]][1..]);
    } else if words != [] {
      var rest := words[1..];
      FieldsOfJoin(rest);
      JoinHead(rest);
      assert Join(rest)[0] in rest[0];
      SplitWord(IsSpace, words[0], ' ', Join(rest));
      var parts := Split(IsSpace, Join(rest));
      assert ([words[0]] + parts)[1..] == parts;
      assert words == [words[0]] + rest;
    } else {
      assert NonEmpty([""]) == NonEmpty([""][1..]);
    }
  }

  lemma JoinCharacters(words: seq<string>, c: char)
    requires c in Join(words)
    ensures c == ' ' || exists i | 0 <= i < |words| :: c in words[i]
    decreases |words|
  {
    if |words| > 1 && c !in words[0] && c != ' ' {
      JoinCharacters(words[1..], c);
      var i :| 0 <= i < |words[1..]| && c in words[1..][i];
      assert c in words[i + 1];
    }
  }

  predicate IsLower(s: string) {
    Lower(s) == s
  }

  lemma LowerFixed(s: string)
    requires forall c | c in s :: !('A' <= c <= 'Z')
    ensures IsLower(s)
  {
    assert forall i | 0 <= i < |s| :: s[i] in s;
  }

  lemma LowerMembers(s: string, c: char)
    requires c in Lower(s)
    ensures !('A' <= c <= 'Z')
    ensures exists d | d in s :: c == LowerChar(d)
  {
    var i :| 0 <= i < |Lower(s)| && Lower(s)[i] == c;
    assert s[i] in s;
  }

  /** Normalised text is lower case, trimmed, and made of words. */
  lemma NormalizedShape(s: string)
    ensures var n := NormalizeText(s);
            && Words(Fields(Lower(s))) && Trimmed(n)
            && (forall c | c in n :: c == ' ' || c in Lower(s))
            && (forall c | c in n :: !('A' <= c <= 'Z'))
  {
    var words := Fields(Lower(s));
    FieldsAreWords(Lower(s));
    if words != [] {
      JoinHead(words);
    }
    forall c | c in NormalizeText(s) ensures (c == ' ' || c in Lower(s)) && !('A' <= c <= 'Z') {
      JoinCharacters(words, c);
      if c != ' ' {
        var i :| 0 <= i < |words| && c in words[i];
        assert words[i] in words;
        LowerMembers(s, c);
      }
    }
  }

  /** Normalising twice is normalising once. */
  lemma NormalizeTextIdempotent(s: string)
    ensures NormalizeText(NormalizeText(s)) == NormalizeText(s)
  {
    NormalizedShape(s);
    LowerFixed(NormalizeText(s));
    FieldsOfJoin(Fields(Lower(s)));
  }
}
