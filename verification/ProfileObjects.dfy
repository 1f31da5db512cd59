/** The cache speaks of objects by their roots and of what they read as. Here its steps are tied to the objects
    themselves: what a caller is handed is a deep copy, and what a caller writes at any depth is a `Mutate`. */
module ProfileObjects {
  import opened Basics
  import opened SellerProfileCache
  import DeepCopy

  /** The objects of a memory, by the references of the cache. */
  ghost predicate Behind(memory: DeepCopy.Heap, next: DeepCopy.Ref, roots: map<Ref, DeepCopy.Ref>, s: State) {
    DeepCopy.Represents(memory, next, roots, s.heap)
  }

  /** A deep copy of an object the cache holds is what a caller is handed. */
  lemma HandOutIsCopy(ttl: nat, s: State, caller: CallerId, seller: Seller, value: Ref, before: DeepCopy.Heap,
                      from: DeepCopy.Ref, memory: DeepCopy.Heap, next: DeepCopy.Ref, roots: map<Ref, DeepCopy.Ref>,
                      copy: DeepCopy.Ref)
    requires Reachable(ttl, s) && value in s.heap && Behind(before, from, roots, s)
    requires DeepCopy.Allocated(memory, next) && DeepCopy.Grown(before, memory)
    requires DeepCopy.FreshCopy(memory, copy, s.heap[value], from)
    ensures Behind(memory, next, roots[s.nextRef := copy], HandOut(s, caller, seller, s.heap[value]))
  {
    ReachableInv(ttl, s);
    DeepCopy.NewRoot(before, from, memory, next, roots, s.heap, s.nextRef, copy, s.heap[value]);
  }

  /** The write keeps the objects apart: it links in no part of another one. */
  ghost predicate LinksNothingElse(memory: DeepCopy.Heap, roots: map<Ref, DeepCopy.Ref>, s: State, target: Ref,
                                   after: DeepCopy.Heap, profile: Profile)
    requires roots.Keys == s.heap.Keys && target in s.heap
    requires forall r | r in s.heap :: DeepCopy.Reads(memory, roots[r], s.heap[r])
    requires DeepCopy.Reads(after, roots[target], profile)
  {
    forall r | r in s.heap && r != target ::
      DeepCopy.Footprint(after, roots[target], profile) !! DeepCopy.Footprint(memory, roots[r], s.heap[r])
  }

  /** A write at any depth of an object that a caller holds is a `Mutate` of that object. */
  lemma {:induction false} WriteIsMutate(ttl: nat, s: State, target: Ref, memory: DeepCopy.Heap, next: DeepCopy.Ref,
                                         roots: map<Ref, DeepCopy.Ref>, p: DeepCopy.Ref, node: DeepCopy.Node, profile: Profile)
    requires target in s.outside && target in s.heap && Behind(memory, next, roots, s)
    requires p in DeepCopy.Footprint(memory, roots[target], s.heap[target])
    requires DeepCopy.Reads(memory[p := node], roots[target], profile)
    requires LinksNothingElse(memory, roots, s, target, memory[p := node], profile)
    ensures Behind(memory[p := node], next, roots, Apply(ttl, s, Mutate(target, profile)))
  {
    DeepCopy.WriteNamed(memory, next, roots, s.heap, target, p, node, profile);
  }

  /** In every reachable state no such write is seen through an entry or through the result of a load: these
      read as before, at every depth. */
  lemma {:induction false} WritesStayOutside(ttl: nat, s: State, target: Ref, memory: DeepCopy.Heap, next: DeepCopy.Ref,
                                             roots: map<Ref, DeepCopy.Ref>, p: DeepCopy.Ref, node: DeepCopy.Node,
                                             seller: Seller, task: TaskId)
    requires Reachable(ttl, s) && target in s.outside && target in s.heap && Behind(memory, next, roots, s)
    requires p in DeepCopy.Footprint(memory, roots[target], s.heap[target])
    ensures seller in s.entries ==>
              var r := s.entries[seller].value; r in s.heap && DeepCopy.Reads(memory[p := node], roots[r], s.heap[r])
    ensures task in s.tasks && HasValue(s.tasks[task]) ==>
              var r := s.tasks[task].phase.value; r in s.heap && DeepCopy.Reads(memory[p := node], roots[r], s.heap[r])
  {
    ReachableInv(ttl, s);
    if seller in s.entries {
      assert Inner(s, seller, s.entries[seller].value);
      DeepCopy.WriteOutside(memory, roots[s.entries[seller].value], s.heap[s.entries[seller].value], p, node);
    }
    if task in s.tasks && HasValue(s.tasks[task]) {
      assert Inner(s, s.tasks[task].seller, s.tasks[task].phase.value);
      DeepCopy.WriteOutside(memory, roots[s.tasks[task].phase.value], s.heap[s.tasks[task].phase.value], p, node);
    }
  }
}
