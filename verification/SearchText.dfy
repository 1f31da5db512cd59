/** The text a record is searched in, collected from its nested fields, and the keyword rules that
    recommend a record. A Go map gives its fields in no particular order, so the Go side's search
    text is one of several: what a keyword matches must not depend on which. */
module SearchText {
  import opened Text
  import Blacklist

  /** A JSON value. `Scalar` carries a number or boolean as it is printed. */
  datatype Value =
    | Null
    | TextValue(s: string)
    | Scalar(printed: string)
    | Object(fields: seq<Value>)
    | List(items: seq<Value>)

  function Children(v: Value): (r: seq<Value>)
    ensures forall i | 0 <= i < |r| :: r[i] < v
  {
    match v
    case Object(fields) => fields
    case List(items) => items
    case _ => []
  }

  function OwnText(v: Value): seq<string> {
    match v
    case TextValue(s) => if Trim(s) == "" then [] else [Trim(s)]
    case Scalar(printed) => [printed]
    case _ => []
  }

  function FragmentsUpTo(v: Value, n: nat): seq<string>
    requires n <= |Children(v)|
    decreases v, n
  {
    if n == 0 then OwnText(v) else FragmentsUpTo(v, n - 1) + Fragments(Children(v)[n - 1])
  }

  function Fragments(v: Value): seq<string>
    decreases v, |Children(v)| + 1
  {
    FragmentsUpTo(v, |Children(v)|)
  }

  /** `_collect_text_fragments`, `collectTextFragments` */
  method CollectFragments(v: Value, bucket: seq<string>) returns (r: seq<string>)
    ensures r == bucket + Fragments(v)
    decreases v
  {
    r := bucket + OwnText(v);
    for i := 0 to |Children(v)|
      invariant r == bucket + FragmentsUpTo(v, i)
    {
      r := CollectFragments(Children(v)[i], r);
    }
  }

  datatype Record = Record(title: Value, product: Value, seller: Value)

  function RecordFragments(r: Record): seq<string> {
    Fragments(r.title) + Fragments(r.product) + Fragments(r.seller)
  }

  function TextOf(r: Record): string {
    NormalizeText(Join(RecordFragments(r)))
  }

  // ----- the same record with its fields in another order -------------------------------------

  /** An order for the fields of a value, at every depth: `perm[k]` is the field that comes k-th. */
  datatype Order = Order(perm: seq<nat>, inner: seq<Order>)

  predicate IsPermutation(perm: seq<nat>, n: nat) {
    && |perm| == n
    && (forall k | 0 <= k < n :: perm[k] < n)
    && (forall i: nat | i < n :: i in perm)
  }

  /** The value with the fields of every object in the given order; lists keep theirs. An order that does
      not fit changes nothing. */
  function Permuted(v: Value, o: Order): Value
    decreases v
  {
    match v
    case Object(fields) =>
      if !IsPermutation(o.perm, |fields|) || |o.inner| != |fields| then v
      else Object(seq(|fields|, k requires 0 <= k < |fields| => Permuted(fields[o.perm[k]], o.inner[o.perm[k]])))
    case List(items) =>
      if |o.inner| != |items| then v
      else List(seq(|items|, k requires 0 <= k < |items| => Permuted(items[k], o.inner[k])))
    case _ => v
  }

  datatype RecordOrder = RecordOrder(title: Order, product: Order, seller: Order)

  function Reordered(r: Record, o: RecordOrder): Record {
    Record(Permuted(r.title, o.title), Permuted(r.product, o.product), Permuted(r.seller, o.seller))
  }

  lemma {:induction false} FragmentsFrom(v: Value, n: nat, f: string)
    requires n <= |Children(v)|
    ensures f in FragmentsUpTo(v, n) <==>
            f in OwnText(v) || exists i | 0 <= i < n :: f in Fragments(Children(v)[i])
  {
    if n > 0 {
      FragmentsFrom(v, n - 1, f);
    }
  }

  lemma ChildOf(v: Value, f: string) returns (i: nat)
    requires f in Fragments(v) && f !in OwnText(v)
    ensures i < |Children(v)| && f in Fragments(Children(v)[i])
  {
    FragmentsFrom(v, |Children(v)|, f);
    i :| 0 <= i < |Children(v)| && f in Fragments(Children(v)[i]);
  }

  lemma OfChild(v: Value, i: nat, f: string)
    requires i < |Children(v)| && f in Fragments(Children(v)[i])
    ensures f in Fragments(v)
  {
    FragmentsFrom(v, |Children(v)|, f);
  }

  lemma OwnIsThere(v: Value, f: string)
    requires f in OwnText(v)
    ensures f in Fragments(v)
  {
    FragmentsFrom(v, |Children(v)|, f);
  }

  /** A value with the same own text, and every child's fragments found in some child. */
  ghost predicate Covers(w: Value, v: Value, f: string) {
    && OwnText(v) == OwnText(w)
    && forall i | 0 <= i < |Children(v)| && f in Fragments(Children(v)[i]) ::
         exists j | 0 <= j < |Children(w)| :: f in Fragments(Children(w)[j])
  }

  lemma CoveredFragment(w: Value, v: Value, f: string)
    requires Covers(w, v, f)
    ensures f in Fragments(v) ==> f in Fragments(w)
  {
    if f in Fragments(v) {
      if f in OwnText(v) {
        OwnIsThere(w, f);
      } else {
        var i := ChildOf(v, f);
        var j :| 0 <= j < |Children(w)| && f in Fragments(Children(w)[j]);
        OfChild(w, j, f);
      }
    }
  }

  /** A child that has the fragment, for every child of the other value that has it. */
  lemma CoversBy(w: Value, v: Value, f: string, partner: seq<nat>)
    requires OwnText(v) == OwnText(w) && |partner| == |Children(v)|
    requires forall i | 0 <= i < |partner| ::
               partner[i] < |Children(w)| && (f in Fragments(Children(v)[i]) ==> f in Fragments(Children(w)[partner[i]]))
    ensures Covers(w, v, f)
  {
    forall i | 0 <= i < |Children(v)| && f in Fragments(Children(v)[i])
      ensures exists j | 0 <= j < |Children(w)| :: f in Fragments(Children(w)[j])
    {
      assert f in Fragments(Children(w)[partner[i]]);
    }
  }

  /** Where a permutation puts each position. */
  function Inverse(perm: seq<nat>, n: nat): (inverse: seq<nat>)
    requires IsPermutation(perm, n)
    ensures |inverse| == n && forall i: nat | i < n :: inverse[i] < n && perm[inverse[i]] == i
  {
    seq(n, i requires 0 <= i < n => PlaceOf(perm, i))
  }

  function PlaceOf(perm: seq<nat>, i: nat): (k: nat)
    requires i in perm
    ensures k < |perm| && perm[k] == i
  {
    if perm[0] == i then 0 else 1 + PlaceOf(perm[1..], i)
  }

  lemma PermutedObject(fields: seq<Value>, o: Order, f: string)
    requires IsPermutation(o.perm, |fields|) && |o.inner| == |fields|
    requires forall i | 0 <= i < |fields| :: f in Fragments(Permuted(fields[i], o.inner[i])) <==> f in Fragments(fields[i])
    ensures f in Fragments(Permuted(Object(fields), o)) <==> f in Fragments(Object(fields))
  {
    var v, w := Object(fields), Permuted(Object(fields), o);
    assert Children(v) == fields && |Children(w)| == |fields|;
    assert forall k | 0 <= k < |fields| :: Children(w)[k] == Permuted(fields[o.perm[k]], o.inner[o.perm[k]]);
    CoversBy(w, v, f, Inverse(o.perm, |fields|));
    CoversBy(v, w, f, o.perm);
    CoveredFragment(w, v, f);
    CoveredFragment(v, w, f);
  }

  lemma PermutedList(items: seq<Value>, o: Order, f: string)
    requires |o.inner| == |items|
    requires forall i | 0 <= i < |items| :: f in Fragments(Permuted(items[i], o.inner[i])) <==> f in Fragments(items[i])
    ensures f in Fragments(Permuted(List(items), o)) <==> f in Fragments(List(items))
  {
    var v, w := List(items), Permuted(List(items), o);
    assert Children(v) == items && |Children(w)| == |items|;
    assert forall k | 0 <= k < |items| :: Children(w)[k] == Permuted(items[k], o.inner[k]);
    var same: seq<nat> := seq(|items|, i requires 0 <= i < |items| => i);
    CoversBy(w, v, f, same);
    CoversBy(v, w, f, same);
    CoveredFragment(w, v, f);
    CoveredFragment(v, w, f);
  }

  /** Reordering changes the order of the fragments, not which there are. */
  lemma {:induction false} OrderKeepsFragments(v: Value, o: Order, f: string)
    ensures f in Fragments(Permuted(v, o)) <==> f in Fragments(v)
    decreases v
  {
    match v
    case Object(fields) =>
      if IsPermutation(o.perm, |fields|) && |o.inner| == |fields| {
        forall i | 0 <= i < |fields|
          ensures f in Fragments(Permuted(fields[i], o.inner[i])) <==> f in Fragments(fields[i])
        {
          OrderKeepsFragments(fields[i], o.inner[i], f);
        }
        PermutedObject(fields, o, f);
      }
    case List(items) =>
      if |o.inner| == |items| {
        forall i | 0 <= i < |items|
          ensures f in Fragments(Permuted(items[i], o.inner[i])) <==> f in Fragments(items[i])
        {
          OrderKeepsFragments(items[i], o.inner[i], f);
        }
        PermutedList(items, o, f);
      }
    case _ =>
  }

  // ----- words of a joined text --------------------------------------------------------------

  lemma {:induction false} SplitPair(sep: char -> bool, a: string, c: char, b: string)
    requires sep(c)
    ensures NonEmpty(Split(sep, a + [c] + b)) == NonEmpty(Split(sep, a)) + NonEmpty(Split(sep, b))
    ensures a != "" ==> Split(sep, a + [c] + b)[0] == Split(sep, a)[0]
    decreases |a|
  {
    var t := a + [c] + b;
    if a == "" {
      assert t == [c] + b;
      SplitCons(sep, c, b);
      NothingFirst(Split(sep, b));
      NothingFirst([]);
    } else {
      var rest := a[1..];
      SplitPair(sep, rest, c, b);
      assert t == [a[0]] + (rest + [c] + b) && a == [a[0]] + rest;
      SplitCons(sep, a[0], rest + [c] + b);
      SplitCons(sep, a[0], rest);
      if rest == "" {
        assert rest + [c] + b == [c] + b;
        SplitHead(sep, [c] + b);
      }
      PrefixedPair(sep, a[0], rest, rest + [c] + b, Split(sep, rest), Split(sep, rest + [c] + b), NonEmpty(Split(sep, b)));
    }
  }

  lemma NothingFirst(parts: seq<string>)
    ensures NonEmpty([""] + parts) == NonEmpty(parts)
  {
    assert ([""] + parts)[1..] == parts;
  }

  lemma OneFirst(p: string, parts: seq<string>)
    ensures NonEmpty([p] + parts) == (if p == "" then [] else [p]) + NonEmpty(parts)
  {
    assert ([p] + parts)[1..] == parts;
  }

  lemma Cancel(head: seq<string>, xs: seq<string>, ys: seq<string>, more: seq<string>)
    requires head + ys == head + xs + more
    ensures ys == xs + more
  {
    assert ys == (head + ys)[|head|..];
    assert xs + more == (head + xs + more)[|head|..];
  }

  /** The same in terms of the parts that are not empty. */
  lemma LongerKept(d: char, head: string, xs: seq<string>, ys: seq<string>, more: seq<string>)
    requires (if head == "" then [] else [head]) + ys == (if head == "" then [] else [head]) + xs + more
    ensures [[d] + head] + ys == [[d] + head] + xs + more
  {
    Cancel(if head == "" then [] else [head], xs, ys, more);
  }

  lemma LongerHead(d: char, head: string, xs: seq<string>, ys: seq<string>, more: seq<string>)
    requires NonEmpty([head] + ys) == NonEmpty([head] + xs) + more
    ensures NonEmpty([[d] + head] + ys) == NonEmpty([[d] + head] + xs) + more
  {
    OneFirst(head, xs);
    OneFirst(head, ys);
    OneFirst([d] + head, xs);
    OneFirst([d] + head, ys);
    LongerKept(d, head, NonEmpty(xs), NonEmpty(ys), more);
  }

  /** Putting a character in front keeps the relation between the parts of a text's beginning and the
      parts of the whole text. */
  lemma PrefixedPair(sep: char -> bool, d: char, s: string, t: string, x: seq<string>, y: seq<string>, more: seq<string>)
    requires x != [] && y != [] && x[0] == y[0] && NonEmpty(y) == NonEmpty(x) + more
    requires t != "" && (s != "" ==> s[0] == t[0]) && (s == "" ==> sep(t[0]) && x == [""])
    ensures NonEmpty(Prefixed(sep, d, t, y)) == NonEmpty(Prefixed(sep, d, s, x)) + more
    ensures Prefixed(sep, d, t, y)[0] == Prefixed(sep, d, s, x)[0]
  {
    if !sep(d) {
      assert x == [x[0]] + x[1..] && y == [x[0]] + y[1..];
      LongerHead(d, x[0], x[1..], y[1..], more);
    } else {
      NothingFirst(x);
      NothingFirst(y);
    }
  }

  lemma FieldsPair(a: string, b: string)
    ensures Fields(a + " " + b) == Fields(a) + Fields(b)
  {
    SplitPair(IsSpace, a, ' ', b);
  }

  lemma LowerPair(a: string, b: string)
    ensures Lower(a + " " + b) == Lower(a) + " " + Lower(b)
  {
  }

  /** The words of the joined fragments are the words of the fragments. */
  lemma {:induction false} WordsOfFragments(frags: seq<string>, w: string)
    ensures w in Fields(Lower(Join(frags))) <==> exists i | 0 <= i < |frags| :: w in Fields(Lower(frags[i]))
    decreases |frags|
  {
    if |frags| > 1 {
      WordsOfFragments(frags[1..], w);
      LowerPair(frags[0], Join(frags[1..]));
      FieldsPair(Lower(frags[0]), Lower(Join(frags[1..])));
      assert forall i | 0 <= i < |frags[1..]| :: frags[1..][i] == frags[i + 1];
    } else if frags == [] {
      NoWords();
    }
  }

  lemma NoWords()
    ensures Fields(Lower("")) == []
  {
    NothingFirst([]);
    assert [""] + [] == [""];
  }

  // ----- keywords of one word -------------------------------------------------------------------

  /** The keyword occurs, as a token of its own when `whole`. */
  predicate HitAt(whole: bool, keyword: string, s: string, i: int) {
    if whole then Blacklist.StandsAt(keyword, s, i) else OccursAt(keyword, s, i)
  }

  predicate Hit(whole: bool, keyword: string, s: string) {
    exists i | 0 <= i <= |s| :: HitAt(whole, keyword, s, i)
  }

  lemma HitIsMatch(side: Blacklist.Side, user: Blacklist.UserRegex, keyword: string, s: string)
    requires !Blacklist.IsRegex(keyword)
    ensures Blacklist.KeywordMatches(side, user, keyword, s) <==> Hit(Blacklist.AsciiKeyword(keyword), keyword, s)
  {
    Blacklist.GoFinds(keyword, s);
    Blacklist.PythonFinds(keyword, s);
    assert forall i :: HitAt(true, keyword, s, i) <==> Blacklist.StandsAt(keyword, s, i);
    assert forall i :: HitAt(false, keyword, s, i) <==> OccursAt(keyword, s, i);
  }

  lemma HitBefore(whole: bool, keyword: string, a: string, b: string, i: int)
    requires 0 <= i <= |a|
    ensures HitAt(whole, keyword, a, i) <==> i + |keyword| <= |a| && HitAt(whole, keyword, a + " " + b, i)
  {
    var t := a + " " + b;
    if i + |keyword| <= |a| {
      assert t[i..i + |keyword|] == a[i..i + |keyword|];
      assert i > 0 ==> t[i - 1] == a[i - 1];
      assert t[i + |keyword|] == if i + |keyword| == |a| then ' ' else a[i + |keyword|];
    }
  }

  lemma HitBehind(whole: bool, keyword: string, a: string, b: string, i: int)
    requires 0 <= i <= |b|
    ensures HitAt(whole, keyword, b, i) <==> HitAt(whole, keyword, a + " " + b, |a| + 1 + i)
  {
    var t := a + " " + b;
    var k := |a| + 1 + i;
    if i + |keyword| <= |b| {
      assert t[k..k + |keyword|] == b[i..i + |keyword|];
      assert t[k - 1] == if i == 0 then ' ' else b[i - 1];
      assert i + |keyword| < |b| ==> t[k + |keyword|] == b[i + |keyword|];
    }
  }

  lemma NoSpaceInside(keyword: string, t: string, i: int, k: nat)
    requires Word(keyword) && OccursAt(keyword, t, i) && k < |t| && t[k] == ' '
    ensures k < i || i + |keyword| <= k
  {
    forall j | i <= j < i + |keyword| ensures t[j] != ' ' {
      assert t[j] == t[i..i + |keyword|][j - i] == keyword[j - i];
      assert keyword[j - i] in keyword;
    }
  }

  /** A keyword without white space occurs in two joined texts exactly when it occurs in one. */
  lemma HitInPair(whole: bool, keyword: string, a: string, b: string)
    requires Word(keyword)
    ensures Hit(whole, keyword, a + " " + b) <==> Hit(whole, keyword, a) || Hit(whole, keyword, b)
  {
    var t := a + " " + b;
    if Hit(whole, keyword, a) {
      var i :| 0 <= i <= |a| && HitAt(whole, keyword, a, i);
      HitBefore(whole, keyword, a, b, i);
    }
    if Hit(whole, keyword, b) {
      var i :| 0 <= i <= |b| && HitAt(whole, keyword, b, i);
      HitBehind(whole, keyword, a, b, i);
    }
    if Hit(whole, keyword, t) {
      var i :| 0 <= i <= |t| && HitAt(whole, keyword, t, i);
      NoSpaceInside(keyword, t, i, |a|);
      if i < |a| {
        HitBefore(whole, keyword, a, b, i);
      } else {
        HitBehind(whole, keyword, a, b, i - |a| - 1);
      }
    }
  }

  lemma {:induction false} HitInJoin(whole: bool, keyword: string, words: seq<string>)
    requires Word(keyword)
    ensures Hit(whole, keyword, Join(words)) <==> exists i | 0 <= i < |words| :: Hit(whole, keyword, words[i])
    decreases |words|
  {
    if |words| > 1 {
      HitInJoin(whole, keyword, words[1..]);
      HitInPair(whole, keyword, words[0], Join(words[1..]));
      assert forall i | 0 <= i < |words[1..]| :: words[1..][i] == words[i + 1];
    } else if words == [] {
      assert !Hit(whole, keyword, "");
    }
  }

  predicate HitsWordOf(whole: bool, keyword: string, frag: string) {
    exists w | w in Fields(Lower(frag)) :: Hit(whole, keyword, w)
  }

  /** A keyword without white space hits the search text exactly when it hits a word of a fragment. */
  lemma HitsAWord(whole: bool, keyword: string, frags: seq<string>)
    requires Word(keyword)
    ensures Hit(whole, keyword, NormalizeText(Join(frags))) <==>
            exists i | 0 <= i < |frags| :: HitsWordOf(whole, keyword, frags[i])
  {
    var words := Fields(Lower(Join(frags)));
    HitInJoin(whole, keyword, words);
    if k :| 0 <= k < |words| && Hit(whole, keyword, words[k]) {
      var i := FragmentOfWord(whole, keyword, frags, words[k]);
    }
    if i :| 0 <= i < |frags| && HitsWordOf(whole, keyword, frags[i]) {
      WordOfFragment(whole, keyword, frags, i);
    }
  }

  lemma HitsWith(whole: bool, keyword: string, frag: string, w: string)
    requires w in Fields(Lower(frag)) && Hit(whole, keyword, w)
    ensures HitsWordOf(whole, keyword, frag)
  {
  }

  lemma FragmentOfWord(whole: bool, keyword: string, frags: seq<string>, w: string) returns (i: nat)
    requires w in Fields(Lower(Join(frags))) && Hit(whole, keyword, w)
    ensures i < |frags| && HitsWordOf(whole, keyword, frags[i])
  {
    WordsOfFragments(frags, w);
    i :| 0 <= i < |frags| && w in Fields(Lower(frags[i]));
    HitsWith(whole, keyword, frags[i], w);
  }

  lemma WordOfFragment(whole: bool, keyword: string, frags: seq<string>, i: nat)
    requires i < |frags| && HitsWordOf(whole, keyword, frags[i])
    ensures var words := Fields(Lower(Join(frags))); exists k | 0 <= k < |words| :: Hit(whole, keyword, words[k])
  {
    var words := Fields(Lower(Join(frags)));
    var w :| w in Fields(Lower(frags[i])) && Hit(whole, keyword, w);
    WordsOfFragments(frags, w);
    var k :| 0 <= k < |words| && words[k] == w;
  }

  lemma HitKept(whole: bool, keyword: string, a: seq<string>, b: seq<string>)
    requires Word(keyword) && forall f | f in a :: f in b
    ensures Hit(whole, keyword, NormalizeText(Join(a))) ==> Hit(whole, keyword, NormalizeText(Join(b)))
  {
    HitsAWord(whole, keyword, a);
    HitsAWord(whole, keyword, b);
    if Hit(whole, keyword, NormalizeText(Join(a))) {
      var i :| 0 <= i < |a| && HitsWordOf(whole, keyword, a[i]);
      assert a[i] in a;
      var j :| 0 <= j < |b| && b[j] == a[i];
    }
  }

  /** Whatever order the maps of a record are walked in, on either side, a keyword of one word matches
      the search text or does not. */
  lemma WordIgnoresMapOrder(side: Blacklist.Side, other: Blacklist.Side, user: Blacklist.UserRegex, keyword: string,
                            r: Record, o: RecordOrder)
    requires Word(keyword) && !Blacklist.IsRegex(keyword)
    ensures Blacklist.KeywordMatches(side, user, keyword, TextOf(r))
       <==> Blacklist.KeywordMatches(other, user, keyword, TextOf(Reordered(r, o)))
  {
    var q := Reordered(r, o);
    var a, b := RecordFragments(r), RecordFragments(q);
    forall f ensures f in a <==> f in b {
      OrderKeepsFragments(r.title, o.title, f);
      OrderKeepsFragments(r.product, o.product, f);
      OrderKeepsFragments(r.seller, o.seller, f);
    }
    var whole := Blacklist.AsciiKeyword(keyword);
    HitKept(whole, keyword, a, b);
    HitKept(whole, keyword, b, a);
    HitIsMatch(side, user, keyword, TextOf(r));
    HitIsMatch(other, user, keyword, TextOf(q));
  }

  // ----- keywords of several words ---------------------------------------------------------------

  /** Text that normalising leaves alone. */
  predicate Normal(s: string) {
    s != "" && NormalizeText(s) == s
  }

  lemma NormalShape(s: string)
    requires Normal(s)
    ensures IsLower(s) && Trimmed(s) && Join(Fields(s)) == s && Fields(s) != [] && Words(Fields(s))
  {
    NormalizedShape(s);
    LowerFixed(s);
  }

  lemma {:induction false} JoinPair(a: seq<string>, b: seq<string>)
    requires a != [] && b != []
    ensures Join(a + b) == Join(a) + " " + Join(b)
    decreases |a|
  {
    assert (a + b)[1..] == a[1..] + b && (a + b)[0] == a[0];
    if |a| > 1 {
      JoinPair(a[1..], b);
      assert Join(a + b) == a[0] + " " + (Join(a[1..]) + " " + Join(b));
    } else {
      assert a[1..] + b == b;
    }
  }

  lemma NormalPair(a: string, b: string)
    requires Normal(a) && Normal(b)
    ensures Normal(a + " " + b)
  {
    NormalShape(a);
    NormalShape(b);
    LowerPair(a, b);
    FieldsPair(a, b);
    JoinPair(Fields(a), Fields(b));
  }

  lemma WordIsNormal(w: string)
    requires Word(w) && IsLower(w)
    ensures Normal(w)
  {
    FieldsOfJoin([w]);
    assert Join([w]) == w;
  }

  lemma SingleIsWord(s: string)
    requires Normal(s) && |Fields(s)| == 1
    ensures Word(s)
  {
    NormalShape(s);
    assert Join(Fields(s)) == Fields(s)[0];
  }

  /** A phrase is a word, a space, and the normal text behind it. */
  lemma FirstAndRest(s: string) returns (first: string, rest: string)
    requires Normal(s) && !Word(s)
    ensures s == first + " " + rest && Word(first) && IsLower(first) && Normal(first) && Normal(rest)
  {
    NormalShape(s);
    var words := Fields(s);
    if |words| == 1 {
      SingleIsWord(s);
    }
    first, rest := words[0], Join(words[1..]);
    assert s == first + " " + rest;
    assert Lower(s)[..|first|] == Lower(first);
    assert Lower(s)[|first| + 1..] == Lower(rest);
    WordIsNormal(first);
    FieldsOfJoin(words[1..]);
    JoinHead(words[1..]);
  }

  function Repeated(c: char, n: nat): string {
    seq(n, i requires 0 <= i < n => c)
  }

  /** A letter other than two given characters. */
  function OtherLetter(a: char, b: char): (c: char)
    ensures c != a && c != b && 'a' <= c <= 'c'
  {
    if a != 'a' && b != 'a' then 'a' else if a != 'b' && b != 'b' then 'b' else 'c'
  }

  lemma FillerIsNormal(c: char, n: nat)
    requires 'a' <= c <= 'c' && n > 0
    ensures Normal(Repeated(c, n))
  {
    WordIsNormal(Repeated(c, n));
  }

  /** With enough filler between its first word and the rest, a phrase does not occur. */
  lemma FillerBreaks(first: string, rest: string, c: char, n: nat, i: int)
    requires Word(first) && rest != "" && n > 0 && c != ' '
    requires c != rest[0] && c != first[|first| - 1]
    ensures !OccursAt(first + " " + rest, first + " " + Repeated(c, n) + " " + rest, i)
  {
    var phrase, text := first + " " + rest, first + " " + Repeated(c, n) + " " + rest;
    var p := i + |first|;
    forall k | 0 <= k < |first| ensures text[k] != ' ' {
      assert text[k] == first[k] && first[k] in first;
    }
    assert forall k | |first| < k <= |first| + n :: text[k] == c;
    assert phrase[|first|] == ' ' && phrase[|first| + 1] == rest[0] && phrase[|first| - 1] == first[|first| - 1];
    if 0 <= i && i + |phrase| <= |text| {
      var window := text[i..i + |phrase|];
      assert window[|first|] == text[p] && window[|first| + 1] == text[p + 1] && window[|first| - 1] == text[p - 1];
    }
  }

  /** The record whose three fields are given texts, and the order that swaps the last two. */
  function ThreeFields(a: string, b: string, c: string): Record {
    Record(Null, Object([TextValue(a), TextValue(b), TextValue(c)]), Null)
  }

  const LAST_TWO := Order([0, 2, 1], [Order([], []), Order([], []), Order([], [])])

  const SWAP := RecordOrder(Order([], []), LAST_TWO, Order([], []))

  lemma SwapLastTwo(a: string, b: string, c: string)
    ensures Reordered(ThreeFields(a, b, c), SWAP) == ThreeFields(a, c, b)
  {
    var fields := [TextValue(a), TextValue(b), TextValue(c)];
    var perm := LAST_TWO.perm;
    assert perm[0] == 0 && perm[1] == 2 && perm[2] == 1;
    assert IsPermutation(perm, 3) by {
      forall i: nat | i < 3 ensures i in perm {
        assert i == perm[0] || i == perm[1] || i == perm[2];
      }
    }
    PermutedTexts(fields, LAST_TWO);
  }

  lemma PermutedTexts(fields: seq<Value>, o: Order)
    requires |fields| == |o.perm| == |o.inner| == 3 && IsPermutation(o.perm, 3) && forall i | 0 <= i < 3 :: fields[i].TextValue?
    ensures Permuted(Object(fields), o) == Object([fields[o.perm[0]], fields[o.perm[1]], fields[o.perm[2]]])
  {
    assert forall k | 0 <= k < 3 :: Permuted(fields[o.perm[k]], o.inner[o.perm[k]]) == fields[o.perm[k]];
  }

  lemma FieldFragments(v: Value, a: string, b: string, c: string)
    requires v == Object([TextValue(a), TextValue(b), TextValue(c)]) && Normal(a) && Normal(b) && Normal(c)
    ensures Fragments(v) == [a] + [b] + [c]
  {
    NormalShape(a);
    NormalShape(b);
    NormalShape(c);
    TrimmedStays(a);
    TrimmedStays(b);
    TrimmedStays(c);
    var children := Children(v);
    TextFragments(children[0], a);
    TextFragments(children[1], b);
    TextFragments(children[2], c);
    assert FragmentsUpTo(v, 0) == [];
    assert FragmentsUpTo(v, 1) == FragmentsUpTo(v, 0) + [a];
    assert FragmentsUpTo(v, 2) == FragmentsUpTo(v, 1) + [b];
    assert FragmentsUpTo(v, 3) == FragmentsUpTo(v, 2) + [c];
  }

  lemma TextFragments(v: Value, s: string)
    requires v == TextValue(s) && Trim(s) == s && s != ""
    ensures Fragments(v) == [s]
  {
    assert Children(v) == [] && FragmentsUpTo(v, 0) == OwnText(v);
  }

  lemma TextOfThree(a: string, b: string, c: string)
    requires Normal(a) && Normal(b) && Normal(c)
    ensures TextOf(ThreeFields(a, b, c)) == a + " " + b + " " + c
  {
    var r := ThreeFields(a, b, c);
    FieldFragments(r.product, a, b, c);
    assert Fragments(r.title) == [] && Fragments(r.seller) == [];
    assert RecordFragments(r) == [a] + [b] + [c];
    JoinPair([a] + [b], [c]);
    JoinPair([a], [b]);
    NormalPair(a, b);
    NormalPair(a + " " + b, c);
  }

  /** Every phrase matches some record, or does not, depending on the order its fields come in. */
  lemma PhraseDependsOnMapOrder(side: Blacklist.Side, user: Blacklist.UserRegex, keyword: string) returns (r: Record)
    requires Normal(keyword) && !Word(keyword) && !Blacklist.IsRegex(keyword)
    ensures Blacklist.KeywordMatches(side, user, keyword, TextOf(r))
    ensures !Blacklist.KeywordMatches(side, user, keyword, TextOf(Reordered(r, SWAP)))
  {
    var first, rest := FirstAndRest(keyword);
    NormalShape(rest);
    var c := OtherLetter(rest[0], first[|first| - 1]);
    var filler := Repeated(c, 1);
    FillerIsNormal(c, 1);
    r := ThreeFields(first, rest, filler);
    SwapLastTwo(first, rest, filler);
    TextOfThree(first, rest, filler);
    TextOfThree(first, filler, rest);
    HitIsMatch(side, user, keyword, TextOf(r));
    HitIsMatch(side, user, keyword, TextOf(Reordered(r, SWAP)));
    PhraseStands(keyword, filler);
    forall i ensures !OccursAt(keyword, first + " " + filler + " " + rest, i) {
      FillerBreaks(first, rest, c, 1, i);
    }
  }

  lemma PhraseStands(keyword: string, filler: string)
    ensures Hit(true, keyword, keyword + " " + filler) && Hit(false, keyword, keyword + " " + filler)
  {
    var text := keyword + " " + filler;
    assert text[0..|keyword|] == keyword && text[|keyword|] == ' ';
    assert HitAt(true, keyword, text, 0) && HitAt(false, keyword, text, 0);
  }

  /** A normalised plain keyword matches the same records under every order of their maps exactly when it is
      a single word. */
  lemma MapOrderIgnoredIff(side: Blacklist.Side, user: Blacklist.UserRegex, keyword: string)
    requires Normal(keyword) && !Blacklist.IsRegex(keyword)
    ensures (forall r, o :: Blacklist.KeywordMatches(side, user, keyword, TextOf(r))
                       <==> Blacklist.KeywordMatches(side, user, keyword, TextOf(Reordered(r, o))))
            <==> Word(keyword)
  {
    if Word(keyword) {
      forall r, o
        ensures Blacklist.KeywordMatches(side, user, keyword, TextOf(r))
           <==> Blacklist.KeywordMatches(side, user, keyword, TextOf(Reordered(r, o)))
      {
        WordIgnoresMapOrder(side, side, user, keyword, r, o);
      }
    } else {
      var r := PhraseDependsOnMapOrder(side, user, keyword);
    }
  }

  // ----- keyword rules ---------------------------------------------------------------------------

  function RuleKeyword(raw: string): seq<string> {
    var text := NormalizeText(Trim(raw));
    if text == "" then [] else [text]
  }

  function RuleKeywords(values: seq<string>): seq<string> {
    Blacklist.FirstOccurrences(Blacklist.Collect(RuleKeyword, values))
  }

  /** The rule engine's `_keyword_matches` knows no `re:` rules. */
  predicate RuleMatches(keyword: string, text: string) {
    if Blacklist.AsciiKeyword(keyword) then Blacklist.Search(Blacklist.PatternOf(Blacklist.Python, keyword), text)
    else Contains(text, keyword)
  }

  function HitIn(text: string): string -> bool {
    keyword => RuleMatches(keyword, text)
  }

  /** The keywords of a rule list that hit. */
  function RuleHits(values: seq<string>, searchText: string): seq<string> {
    var text := NormalizeText(searchText);
    if text == "" then [] else Blacklist.Filter(HitIn(text), RuleKeywords(values))
  }

  method AddKeyword(raw: string, before: seq<string>, seenBefore: set<string>, ghost entries: seq<string>)
    returns (normalized: seq<string>, seen: set<string>)
    requires Blacklist.Tracks(entries, before, seenBefore)
    ensures Blacklist.Tracks(entries + RuleKeyword(raw), normalized, seen)
  {
    normalized, seen := Blacklist.AddEntry(RuleKeyword(raw), before, seenBefore, entries);
  }

  method NormalizeRules(values: seq<string>) returns (normalized: seq<string>)
    ensures normalized == RuleKeywords(values)
  {
    normalized := [];
    var seen: set<string> := {};
    for i := 0 to |values|
      invariant Blacklist.Tracks(Blacklist.CollectUpTo(RuleKeyword, values, i), normalized, seen)
    {
      normalized, seen := AddKeyword(values[i], normalized, seen, Blacklist.CollectUpTo(RuleKeyword, values, i));
    }
  }

  /** `evaluate_keyword_rules`: recommended when some keyword hits. */
  method EvaluateRules(values: seq<string>, searchText: string) returns (recommended: bool, hits: seq<string>)
    ensures hits == RuleHits(values, searchText) && recommended == (hits != [])
  {
    var text := NormalizeText(searchText);
    var keywords := NormalizeRules(values);
    if text == "" || keywords == [] {
      return false, [];
    }
    hits := Blacklist.Select(HitIn(text), keywords);
    recommended := |hits| > 0;
  }

  /** One group of keywords joined by "or": a record is recommended under two joined lists exactly when
      it is recommended under one of them, and the hits are those of both, each once. */
  lemma RulesAreAlternatives(a: seq<string>, b: seq<string>, searchText: string)
    ensures RuleHits(a + b, searchText)
         == Blacklist.FirstOccurrences(RuleHits(a, searchText) + RuleHits(b, searchText))
    ensures RuleHits(a + b, searchText) != [] <==> RuleHits(a, searchText) != [] || RuleHits(b, searchText) != []
  {
    var text := NormalizeText(searchText);
    if text != "" {
      var p := HitIn(text);
      var x, y := Blacklist.Collect(RuleKeyword, a), Blacklist.Collect(RuleKeyword, b);
      Blacklist.CollectAppend(RuleKeyword, a, b);
      Blacklist.FilterFirst(p, x + y);
      Blacklist.FilterAppend(p, x, y);
      Blacklist.FilterFirst(p, x);
      Blacklist.FilterFirst(p, y);
      Blacklist.FirstOccurrencesAppend(Blacklist.Filter(p, x), Blacklist.Filter(p, y));
    }
    Blacklist.NoneOfBoth(RuleHits(a, searchText), RuleHits(b, searchText));
  }
}
