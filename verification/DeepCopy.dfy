/** Nested values, as decoded from JSON. */
module Trees {
  datatype Tree = Text(text: string) | Nested(keys: seq<string>, subtrees: seq<Tree>)
}

/** What `copy.deepcopy` does to a nested profile. The copy reads the same and shares no object with anything
    that was there before, at any depth, so no write inside the one is seen through the other; inside the
    copy objects are shared exactly where the original shares them. Profiles are decoded from JSON, so they
    have no cycles. The seller-profile cache speaks of such objects by their roots and of what they read as;
    `Represents` is the relation between the two. */
module DeepCopy {
  import opened Trees

  type Ref = nat

  /** An object of the heap. Lists are branches without keys. */
  datatype Node = Leaf(text: string) | Branch(keys: seq<string>, children: seq<Ref>)

  type Heap = map<Ref, Node>

  predicate Reads(heap: Heap, r: Ref, t: Tree)
    decreases t
  {
    && r in heap
    && match t
       case Text(text) => heap[r] == Leaf(text)
       case Nested(keys, subtrees) =>
         && heap[r].Branch? && heap[r].keys == keys && |heap[r].children| == |subtrees|
         && forall i | 0 <= i < |subtrees| :: Reads(heap, heap[r].children[i], subtrees[i])
  }

  /** The objects that a reading goes through. */
  function Footprint(heap: Heap, r: Ref, t: Tree): set<Ref>
    requires Reads(heap, r, t)
    decreases t
  {
    match t
    case Text(_) => {r}
    case Nested(_, subtrees) =>
      {r} + set i, p | 0 <= i < |subtrees| && p in Footprint(heap, heap[r].children[i], subtrees[i]) :: p
  }

  predicate Allocated(heap: Heap, next: Ref) {
    forall r | r in heap :: r < next
  }

  /** A reading does not see writes outside its footprint. */
  lemma {:induction false} WriteOutside(heap: Heap, r: Ref, t: Tree, p: Ref, node: Node)
    requires Reads(heap, r, t) && p !in Footprint(heap, r, t)
    ensures Reads(heap[p := node], r, t) && Footprint(heap[p := node], r, t) == Footprint(heap, r, t)
    decreases t
  {
    if t.Nested? {
      forall i | 0 <= i < |t.subtrees|
        ensures Reads(heap[p := node], heap[r].children[i], t.subtrees[i])
        ensures Footprint(heap[p := node], heap[r].children[i], t.subtrees[i])
             == Footprint(heap, heap[r].children[i], t.subtrees[i])
      {
        WriteOutside(heap, heap[r].children[i], t.subtrees[i], p, node);
      }
    }
  }

  /** New objects do not change what is read, nor through which objects. */
  ghost predicate Grown(before: Heap, after: Heap) {
    forall r | r in before :: r in after && after[r] == before[r]
  }

  lemma {:induction false} GrownReads(before: Heap, after: Heap, r: Ref, t: Tree)
    requires Reads(before, r, t) && Grown(before, after)
    ensures Reads(after, r, t) && Footprint(after, r, t) == Footprint(before, r, t)
    decreases t
  {
    if t.Nested? {
      forall i | 0 <= i < |t.subtrees|
        ensures Reads(after, after[r].children[i], t.subtrees[i])
        ensures Footprint(after, after[r].children[i], t.subtrees[i]) == Footprint(before, before[r].children[i], t.subtrees[i])
      {
        GrownReads(before, after, before[r].children[i], t.subtrees[i]);
      }
    }
  }

  lemma {:induction false} FootprintAllocated(heap: Heap, next: Ref, r: Ref, t: Tree)
    requires Reads(heap, r, t) && Allocated(heap, next)
    ensures forall p | p in Footprint(heap, r, t) :: p in heap && p < next
    decreases t
  {
    if t.Nested? {
      forall i | 0 <= i < |t.subtrees|
        ensures forall p | p in Footprint(heap, heap[r].children[i], t.subtrees[i]) :: p in heap && p < next
      {
        FootprintAllocated(heap, next, heap[r].children[i], t.subtrees[i]);
      }
    }
  }

  /** A copy: it reads the same, through new objects only. */
  ghost predicate FreshCopy(heap: Heap, copy: Ref, t: Tree, from: Ref) {
    Reads(heap, copy, t) && forall p | p in Footprint(heap, copy, t) :: from <= p
  }

  /** An object reads as one tree. */
  lemma {:induction false} ReadsOnce(heap: Heap, r: Ref, t: Tree, u: Tree)
    requires Reads(heap, r, t) && Reads(heap, r, u)
    ensures t == u
    decreases t
  {
    if t.Nested? {
      forall i | 0 <= i < |t.subtrees| ensures t.subtrees[i] == u.subtrees[i] {
        ReadsOnce(heap, heap[r].children[i], t.subtrees[i], u.subtrees[i]);
      }
    }
  }

  /** Every object on the way reads as a part of the tree, so none contains what it is contained in. */
  lemma {:induction false} PartReads(heap: Heap, r: Ref, t: Tree, p: Ref) returns (part: Tree)
    requires Reads(heap, r, t) && p in Footprint(heap, r, t)
    ensures Reads(heap, p, part) && (part == t || part < t)
    decreases t
  {
    if p == r {
      part := t;
    } else {
      var i :| 0 <= i < |t.subtrees| && p in Footprint(heap, heap[r].children[i], t.subtrees[i]);
      part := PartReads(heap, heap[r].children[i], t.subtrees[i], p);
    }
  }

  lemma NotBelowItself(heap: Heap, r: Ref, t: Tree, i: nat)
    requires Reads(heap, r, t) && t.Nested? && i < |t.subtrees|
    ensures r !in Footprint(heap, heap[r].children[i], t.subtrees[i])
  {
    if r in Footprint(heap, heap[r].children[i], t.subtrees[i]) {
      var part := PartReads(heap, heap[r].children[i], t.subtrees[i], r);
      ReadsOnce(heap, r, t, part);
    }
  }

  // ----- the memo ----------------------------------------------------------------------------

  type Memo = map<Ref, Ref>

  predicate Mirrored(heap: Heap, memo: Memo, q: Ref)
    requires q in memo
  {
    && q in heap && memo[q] in heap
    && match heap[q]
       case Leaf(text) => heap[memo[q]] == Leaf(text)
       case Branch(keys, children) =>
         && heap[memo[q]].Branch? && heap[memo[q]].keys == keys && |heap[memo[q]].children| == |children|
         && forall i | 0 <= i < |children| :: children[i] in memo && heap[memo[q]].children[i] == memo[children[i]]
  }

  /** The copies made so far: new objects, one for each original, with the children copied alike. */
  ghost predicate Memoed(heap: Heap, memo: Memo, from: Ref) {
    && (forall q | q in memo :: Mirrored(heap, memo, q) && q < from <= memo[q])
    && (forall p, q | p in memo && q in memo && memo[p] == memo[q] :: p == q)
  }

  /** A memoised copy reads as its original does. */
  lemma {:induction false} MemoReads(heap: Heap, memo: Memo, from: Ref, r: Ref, t: Tree)
    requires Memoed(heap, memo, from) && r in memo && Reads(heap, r, t)
    ensures FreshCopy(heap, memo[r], t, from)
    decreases t
  {
    assert Mirrored(heap, memo, r);
    if t.Nested? {
      forall i | 0 <= i < |t.subtrees| ensures FreshCopy(heap, heap[memo[r]].children[i], t.subtrees[i], from) {
        MemoReads(heap, memo, from, heap[r].children[i], t.subtrees[i]);
      }
    }
  }

  lemma MemoGrows(before: Heap, after: Heap, memo: Memo, from: Ref)
    requires Memoed(before, memo, from) && Grown(before, after)
    ensures Memoed(after, memo, from)
  {
    forall q | q in memo ensures Mirrored(after, memo, q) {
      assert Mirrored(before, memo, q);
    }
  }

  predicate Extends(memo: Memo, more: Memo) {
    forall q | q in memo :: q in more && more[q] == memo[q]
  }

  /** Adding a new object for an original whose children have their copies. */
  lemma MemoAdds(heap: Heap, next: Ref, memo: Memo, from: Ref, r: Ref, node: Node)
    requires Allocated(heap, next) && Memoed(heap, memo, from) && r in heap && r < from <= next && r !in memo
    requires Mirrored(heap[next := node], memo[r := next], r)
    ensures Memoed(heap[next := node], memo[r := next], from)
  {
    var after, more := heap[next := node], memo[r := next];
    forall q | q in more ensures Mirrored(after, more, q) {
      if q != r {
        assert Mirrored(heap, memo, q);
      }
    }
  }

  lemma PartsInside(heap: Heap, r: Ref, t: Tree, i: nat)
    requires Reads(heap, r, t) && t.Nested? && i < |t.subtrees|
    ensures Footprint(heap, heap[r].children[i], t.subtrees[i]) <= Footprint(heap, r, t)
  {
  }

  /** The copy of a branch mirrors it, once those of its children are there. */
  lemma BranchMirrors(heap: Heap, next: Ref, found: Memo, from: Ref, r: Ref, copies: seq<Ref>)
    requires Allocated(heap, next) && r in heap && heap[r].Branch? && r < from <= next && r !in found
    requires |copies| == |heap[r].children|
    requires forall i | 0 <= i < |copies| :: heap[r].children[i] in found && copies[i] == found[heap[r].children[i]]
    ensures Mirrored(heap[next := Branch(heap[r].keys, copies)], found[r := next], r)
  {
    var more := found[r := next];
    assert forall i | 0 <= i < |copies| :: heap[r].children[i] != r;
  }

  /** The children of an object have not come back to it. */
  lemma NotFound(heap: Heap, memo: Memo, found: Memo, r: Ref, t: Tree)
    requires Reads(heap, r, t) && t.Nested? && r !in memo
    requires forall q | q in found && q !in memo ::
               exists i | 0 <= i < |t.subtrees| :: q in Footprint(heap, heap[r].children[i], t.subtrees[i])
    ensures r !in found
  {
    if r in found {
      var i :| 0 <= i < |t.subtrees| && r in Footprint(heap, heap[r].children[i], t.subtrees[i]);
      NotBelowItself(heap, r, t, i);
    }
  }

  class Memory {
    var heap: Heap
    var next: Ref

    constructor (heap: Heap, next: Ref)
      ensures this.heap == heap && this.next == next
    {
      this.heap, this.next := heap, next;
    }

    method Allocate(node: Node) returns (r: Ref)
      requires Allocated(heap, next)
      modifies this
      ensures r == old(next) && next == r + 1 && heap == old(heap)[r := node] && Allocated(heap, next)
    {
      r := next;
      heap := heap[r := node];
      next := next + 1;
    }

    /** `copy.deepcopy` of an object that reads as `t`, and whose objects are older than `from`. */
    method Copy(r: Ref, memo: Memo, ghost t: Tree, ghost from: Ref) returns (copy: Ref, more: Memo)
      requires Allocated(heap, next) && Memoed(heap, memo, from) && from <= next
      requires Reads(heap, r, t) && forall p | p in Footprint(heap, r, t) :: p < from
      modifies this
      ensures Allocated(heap, next) && old(next) <= next && Grown(old(heap), heap)
      ensures Memoed(heap, more, from) && Extends(memo, more) && r in more && more[r] == copy
      ensures forall q | q in more && q !in memo :: q in Footprint(old(heap), r, t)
      ensures FreshCopy(heap, copy, t, from)
      decreases t
    {
      if r in memo {
        MemoReads(heap, memo, from, r, t);
        return memo[r], memo;
      }
      ghost var start := heap;
      assert r in Footprint(heap, r, t);
      match heap[r]
      case Leaf(text) =>
        MemoAdds(heap, next, memo, from, r, Leaf(text));
        copy := Allocate(Leaf(text));
        more := memo[r := copy];
      case Branch(keys, children) =>
        forall i | 0 <= i < |children| ensures Footprint(heap, children[i], t.subtrees[i]) <= Footprint(heap, r, t) {
          PartsInside(heap, r, t, i);
        }
        var copies, found := CopyAll(children, memo, t.subtrees, from);
        NotFound(start, memo, found, r, t);
        BranchMirrors(heap, next, found, from, r, copies);
        MemoAdds(heap, next, found, from, r, Branch(keys, copies));
        copy := Allocate(Branch(keys, copies));
        more := found[r := copy];
      GrownReads(start, heap, r, t);
      MemoReads(heap, more, from, r, t);
    }

    method CopyAll(children: seq<Ref>, memo: Memo, ghost subtrees: seq<Tree>, ghost from: Ref)
      returns (copies: seq<Ref>, more: Memo)
      requires Allocated(heap, next) && Memoed(heap, memo, from) && from <= next && |children| == |subtrees|
      requires forall i | 0 <= i < |children| ::
                 Reads(heap, children[i], subtrees[i]) && forall p | p in Footprint(heap, children[i], subtrees[i]) :: p < from
      modifies this
      ensures Allocated(heap, next) && old(next) <= next && Grown(old(heap), heap)
      ensures Memoed(heap, more, from) && Extends(memo, more)
      ensures |copies| == |children|
      ensures forall i | 0 <= i < |children| :: children[i] in more && copies[i] == more[children[i]]
      ensures forall q | q in more && q !in memo ::
                exists i | 0 <= i < |children| :: q in Footprint(old(heap), children[i], subtrees[i])
      decreases subtrees
    {
      copies, more := [], memo;
      for k := 0 to |children|
        invariant Allocated(heap, next) && old(next) <= next && Grown(old(heap), heap)
        invariant Memoed(heap, more, from) && Extends(memo, more)
        invariant |copies| == k
        invariant forall i | 0 <= i < k :: children[i] in more && copies[i] == more[children[i]]
        invariant forall q | q in more && q !in memo ::
                    exists i | 0 <= i < k :: q in Footprint(old(heap), children[i], subtrees[i])
      {
        GrownReads(old(heap), heap, children[k], subtrees[k]);
        var copy;
        copy, more := Copy(children[k], more, subtrees[k], from);
        copies := copies + [copy];
      }
    }

    /** `_clone`: a deep copy with an empty memo. */
    method Clone(r: Ref, ghost t: Tree) returns (copy: Ref, ghost memo: Memo)
      requires Allocated(heap, next) && Reads(heap, r, t)
      modifies this
      ensures Allocated(heap, next) && old(next) <= next && Grown(old(heap), heap)
      ensures FreshCopy(heap, copy, t, old(next))
      ensures Memoed(heap, memo, old(next)) && r in memo && memo[r] == copy
      ensures memo.Keys <= Footprint(old(heap), r, t)
    {
      FootprintAllocated(heap, next, r, t);
      var more: Memo;
      copy, more := Copy(r, map[], t, next);
      memo := more;
    }
  }

  /** The copies share an object in two places exactly where the originals do. */
  lemma SharedAlike(heap: Heap, memo: Memo, from: Ref, p: Ref, i: nat, q: Ref, j: nat)
    requires Memoed(heap, memo, from) && p in memo && q in memo && heap[p].Branch? && heap[q].Branch?
    requires i < |heap[p].children| && j < |heap[q].children|
    ensures heap[memo[p]].Branch? && i < |heap[memo[p]].children| && heap[memo[q]].Branch? && j < |heap[memo[q]].children|
    ensures heap[memo[p]].children[i] == heap[memo[q]].children[j] <==> heap[p].children[i] == heap[q].children[j]
  {
    assert Mirrored(heap, memo, p) && Mirrored(heap, memo, q);
  }

  /** No write inside a fresh copy is seen through the original, and none inside the original through the
      copy. */
  lemma CopiesAreSeparate(heap: Heap, original: Ref, copy: Ref, t: Tree, from: Ref, p: Ref, node: Node)
    requires Reads(heap, original, t) && FreshCopy(heap, copy, t, from)
    requires forall q | q in Footprint(heap, original, t) :: q < from
    ensures p in Footprint(heap, copy, t) ==> Reads(heap[p := node], original, t)
    ensures p in Footprint(heap, original, t) ==> Reads(heap[p := node], copy, t)
  {
    if p in Footprint(heap, copy, t) {
      WriteOutside(heap, original, t, p, node);
    } else if p in Footprint(heap, original, t) {
      WriteOutside(heap, copy, t, p, node);
    }
  }

  /** A shallow copy: a new object with the same children. */
  predicate ShallowCopy(heap: Heap, original: Ref, copy: Ref) {
    original in heap && copy in heap && original != copy && heap[copy] == heap[original]
  }

  lemma ChildInFootprint(heap: Heap, r: Ref, t: Tree, i: nat)
    requires Reads(heap, r, t) && t.Nested? && i < |t.subtrees|
    ensures heap[r].children[i] in Footprint(heap, r, t)
  {
    assert heap[r].children[i] in Footprint(heap, heap[r].children[i], t.subtrees[i]);
  }

  /** After a write the object still reads as before. */
  predicate Undisturbed(heap: Heap, p: Ref, node: Node, r: Ref, t: Tree) {
    Reads(heap[p := node], r, t)
  }

  /** A shallow copy would not do: it is as separate as that exactly when there is nothing nested. */
  lemma ShallowIsSeparateIff(heap: Heap, original: Ref, copy: Ref, t: Tree)
    requires ShallowCopy(heap, original, copy) && Reads(heap, original, t) && Reads(heap, copy, t)
    requires original !in Footprint(heap, copy, t)
    ensures (forall p, node | p in Footprint(heap, copy, t) && p != copy :: Undisturbed(heap, p, node, original, t))
            <==> t.Text? || t.subtrees == []
  {
    if t.Nested? && t.subtrees != [] {
      ChildInFootprint(heap, copy, t, 0);
      var child := heap[copy].children[0];
      var other := if t.subtrees[0] == Text("") then Leaf("x") else Leaf("");
      assert !Reads(heap[child := other], child, t.subtrees[0]);
      assert child != original && heap[child := other][original] == heap[original];
      assert !Undisturbed(heap, child, other, original, t);
      if child == copy {
        ReadsOnce(heap, copy, t, t.subtrees[0]);
        assert false;
      }
    }
  }

  // ----- roots and what they read as -------------------------------------------------------------

  /** The objects named in `roots` read as their values and share nothing. */
  ghost predicate Represents(heap: Heap, next: Ref, roots: map<nat, Ref>, values: map<nat, Tree>) {
    && Allocated(heap, next) && roots.Keys == values.Keys
    && (forall x | x in values :: Reads(heap, roots[x], values[x]))
    && (forall x, y | x in values && y in values && x != y ::
          Footprint(heap, roots[x], values[x]) !! Footprint(heap, roots[y], values[y]))
  }

  /** A new object gets a name, as a clone or a loader's result does: nothing else changes its value. */
  lemma NewRoot(before: Heap, from: Ref, heap: Heap, next: Ref, roots: map<nat, Ref>, values: map<nat, Tree>,
                name: nat, r: Ref, t: Tree)
    requires Represents(before, from, roots, values) && name !in values
    requires Allocated(heap, next) && Grown(before, heap) && FreshCopy(heap, r, t, from)
    ensures Represents(heap, next, roots[name := r], values[name := t])
  {
    forall x | x in values
      ensures Reads(heap, roots[x], values[x])
      ensures Footprint(heap, roots[x], values[x]) == Footprint(before, roots[x], values[x])
      ensures Footprint(heap, roots[x], values[x]) !! Footprint(heap, r, t)
    {
      GrownReads(before, heap, roots[x], values[x]);
      FootprintAllocated(before, from, roots[x], values[x]);
    }
  }

  /** Cloning a named object gives the new name the value of the old one. */
  method CloneNamed(memory: Memory, ghost values: map<nat, Tree>, roots: map<nat, Ref>, x: nat, name: nat)
    returns (more: map<nat, Ref>)
    requires Represents(memory.heap, memory.next, roots, values) && x in values && name !in values
    modifies memory
    ensures Represents(memory.heap, memory.next, more, values[name := values[x]])
  {
    ghost var before, from := memory.heap, memory.next;
    var copy, _ := memory.Clone(roots[x], values[x]);
    NewRoot(before, from, memory.heap, memory.next, roots, values, name, copy, values[x]);
    more := roots[name := copy];
  }

  /** A write inside one named object, at any depth, that links in no part of another one: only the value of
      that name changes. */
  lemma WriteNamed(heap: Heap, next: Ref, roots: map<nat, Ref>, values: map<nat, Tree>, x: nat, p: Ref, node: Node, t: Tree)
    requires Represents(heap, next, roots, values) && x in values && p in Footprint(heap, roots[x], values[x])
    requires Reads(heap[p := node], roots[x], t)
    requires forall y | y in values && y != x ::
               Footprint(heap[p := node], roots[x], t) !! Footprint(heap, roots[y], values[y])
    ensures Represents(heap[p := node], next, roots, values[x := t])
  {
    FootprintAllocated(heap, next, roots[x], values[x]);
    forall y | y in values && y != x
      ensures Reads(heap[p := node], roots[y], values[y])
      ensures Footprint(heap[p := node], roots[y], values[y]) == Footprint(heap, roots[y], values[y])
    {
      WriteOutside(heap, roots[y], values[y], p, node);
    }
  }
}
