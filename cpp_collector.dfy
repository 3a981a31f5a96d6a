/**
  The C++ collector (class `VM` of src/collector.cpp). Objects are identities
  into `nodes`; the intrusive list threaded from `root` through `next` is the
  sequence `list` (root first); the `marked` flags are the set `marks`; the
  root stack is a fixed array of 256 entries with `stackSize`.

  Unlike the C collector, this one can leave a pair referring to objects a
  collection has freed: `push()` pops both children before `insert` decides to
  collect. The heap therefore is not required to be free of dangling
  references, and `Mark` treats a reference to a freed object as a leaf.
 */
module CppCollector {
  import opened ObjectGraph

  /** Capacity of the root stack. */
  const MaxStack := 256
  /** Initial allocation threshold. */
  const MaxBarrier := 8

  class VM {
    /** The root stack; only `stack[..stackSize]` is live. */
    const stack: array<Id>
    var stackSize: nat
    var numObjects: nat
    var maxObjects: nat
    /** The heap list, from `root` along `next`. */
    var list: seq<Id>
    /** The payload of every allocated object. */
    var nodes: Heap
    /** The objects whose `marked` flag is set. */
    var marks: set<Id>
    /** Identities not yet handed out: every allocation gets a fresh one. */
    var nextId: Id

    /** The live part of the root stack, bottom first. */
    ghost function Stack(): seq<Id>
      reads this`stackSize, stack
      requires stackSize <= stack.Length
    {
      stack[..stackSize]
    }

    /** The root set of a collection. */
    ghost function Roots(): set<Id>
      reads this`stackSize, stack
      requires stackSize <= stack.Length
    {
      Elems(Stack())
    }

    ghost predicate Valid()
      reads this, stack
    {
      && stack.Length == MaxStack && stackSize <= MaxStack
      // the heap list holds every allocated object exactly once, and numObjects counts it
      && Distinct(list) && Elems(list) == nodes.Keys && numObjects == |list|
      // only allocated objects carry a mark
      && marks <= nodes.Keys
      // the stack refers to allocated objects only
      && Roots() <= nodes.Keys
      && (forall x | x in nodes :: x < nextId)
    }

    constructor ()
      ensures Valid() && fresh(stack) && marks == {}
      ensures stackSize == 0 && numObjects == 0 && maxObjects == MaxBarrier
      ensures list == [] && nodes == map[] && nextId == 0
    {
      stack := new Id[MaxStack];
      stackSize, numObjects, maxObjects := 0, 0, MaxBarrier;
      list, nodes, marks, nextId := [], map[], {}, 0;
    }

    /** `pop()`: an empty stack is a fatal underflow, so the caller must not pop it. */
    method Pop() returns (o: Id)
      requires Valid() && stackSize > 0
      modifies this`stackSize
      ensures Valid()
      ensures stackSize == old(stackSize) - 1
      ensures Stack() + [o] == old(Stack())
    {
      stackSize := stackSize - 1;
      o := stack[stackSize];
      assert old(Stack()) == Stack() + [o];
    }

    /** `_push`: a full stack is a fatal overflow, so the caller must not push onto it. */
    method PushObject(o: Id) returns (r: Id)
      requires Valid() && stackSize < MaxStack && o in nodes
      modifies this`stackSize, stack
      ensures Valid()
      ensures r == o && Stack() == old(Stack()) + [o]
    {
      stack[stackSize] := o;
      stackSize := stackSize + 1;
      r := o;
      assert Stack() == old(Stack()) + [o];
    }

    /**
      `mark`: returns at once on a marked object (or, here, a freed one);
      otherwise marks it before descending into head and tail, so each call
      marks one more object first and recursion ends even on cycles.
     */
    method Mark(x: Id)
      requires marks <= nodes.Keys
      modifies this`marks
      ensures marks <= nodes.Keys
      ensures old(marks) <= marks
      ensures x in nodes ==> x in marks
      ensures x in old(marks) || x !in nodes ==> marks == old(marks)
      ensures forall y | y in marks && y !in old(marks) :: Succ(nodes, y) <= marks
      ensures marks - old(marks) <= Reachable(nodes, {x})
      decreases nodes.Keys - marks
    {
      if x !in nodes || x in marks {
        return;
      }
      marks := marks + {x};
      assert x in Reachable(nodes, {x});
      match nodes[x]
      case Int(_) =>
        assert Succ(nodes, x) == {};
      case Pair(head, tail) =>
        ghost var m0 := marks;
        Mark(head);
        ghost var m1 := marks;
        Mark(tail);
        if head in nodes { ReachableStep(nodes, x, head); }
        if tail in nodes { ReachableStep(nodes, x, tail); }
        assert Succ(nodes, x) <= marks;
        assert m1 - m0 <= Reachable(nodes, {x});
        assert marks - m1 <= Reachable(nodes, {x});
    }

    /** `markSpine`: marks everything reachable from the root stack. */
    method MarkSpine()
      requires Valid() && marks == {}
      modifies this`marks
      ensures Valid()
      ensures marks == Reachable(nodes, Roots())
    {
      ghost var roots := Stack();
      for i := 0 to stackSize
        invariant marks <= nodes.Keys
        invariant Elems(roots[..i]) * nodes.Keys <= marks
        invariant Closed(nodes, marks)
        invariant marks <= Reachable(nodes, Elems(roots[..i]))
      {
        ElemsPrefix(roots, i);
        Mark(stack[i]);
        ReachableFrom(nodes, roots[i], Elems(roots[..i + 1]));
        ReachableMono(nodes, Elems(roots[..i]), Elems(roots[..i + 1]));
      }
      assert roots[..stackSize] == roots;
      ReachableExactly(nodes, Roots(), marks);
    }

    /**
      `sweep`: walks the heap list once, unlinking and counting down every
      unmarked object and clearing the mark of every survivor; the survivors
      are relinked in their original order.
     */
    method Sweep()
      requires Distinct(list) && Elems(list) == nodes.Keys && numObjects == |list| && marks <= nodes.Keys
      modifies this`list, this`nodes, this`marks, this`numObjects
      ensures Distinct(list) && Elems(list) == nodes.Keys && numObjects == |list|
      ensures marks == {}
      ensures list == Kept(old(list), old(marks))
      ensures nodes == Restrict(old(nodes), old(marks))
      ensures numObjects == old(numObjects) - (|old(list)| - |list|)
    {
      ghost var nodes0, marks0 := nodes, marks;
      var objects, survivors := list, [];
      var live, unmarked, count := nodes, marks, numObjects;
      for k := 0 to |objects|
        invariant survivors == Kept(objects[..k], marks0)
        invariant count == |survivors| + (|objects| - k)
        invariant live == nodes0 - Freed(objects, marks0, k)
        invariant unmarked == marks0 - Elems(objects[..k])
      {
        var o := objects[k];
        SweepStep(nodes0, objects, marks0, k);
        if o !in unmarked {
          // unlink and free the unreached object
          live := live - {o};
          count := count - 1;
        } else {
          // clear the survivor's mark and step past it
          unmarked := unmarked - {o};
          survivors := survivors + [o];
        }
      }
      SweptAll(nodes0, objects, marks0);
      FreedAll(nodes0, objects, marks0);
      list, nodes, marks, numObjects := survivors, live, unmarked, count;
    }

    /**
      `collect`: mark from the stack, sweep, then set the threshold to twice
      the survivors. The heap list keeps exactly the reachable objects, in
      their order, no mark is left behind, and the stack is untouched.
     */
    method Collect()
      requires Valid() && marks == {}
      modifies this
      ensures Valid() && marks == {}
      ensures list == Kept(old(list), Reachable(old(nodes), old(Roots())))
      ensures nodes == Restrict(old(nodes), Reachable(old(nodes), old(Roots())))
      ensures Elems(list) == Reachable(old(nodes), old(Roots()))
      ensures numObjects == |Reachable(old(nodes), old(Roots()))|
      ensures maxObjects == 2 * numObjects
      ensures stackSize == old(stackSize) && nextId == old(nextId)
    {
      MarkSpine();
      KeptCard(list, marks);
      Sweep();
      maxObjects := numObjects * 2;
    }

    /**
      `insert`: collects first exactly when `numObjects >= maxObjects`, then
      links the new object, unmarked, at the head of the heap list.
     */
    method Insert(n: Node) returns (o: Id)
      requires Valid() && marks == {}
      modifies this
      ensures Valid() && marks == {}
      ensures o !in old(nodes) && o == old(nextId) && nextId == o + 1
      ensures Allocated(old(nodes), old(list), old(maxObjects), old(Roots()),
                        old(numObjects) >= old(maxObjects), o, n,
                        nodes, list, maxObjects)
      ensures numObjects == |list| && stackSize == old(stackSize)
    {
      if numObjects >= maxObjects {
        Collect();
      }
      o := nextId;
      LinkFresh(list, nodes, o, n);
      nextId := nextId + 1;
      nodes := nodes[o := n];
      marks := marks - {o};
      list := [o] + list;
      numObjects := numObjects + 1;
    }

    /** `push(int)`: allocates an integer object (possibly collecting first) and pushes it. */
    method PushInt(v: int) returns (o: Id)
      requires Valid() && marks == {} && stackSize < MaxStack
      modifies this, stack
      ensures Valid() && marks == {}
      ensures Stack() == old(Stack()) + [o]
      ensures o !in old(nodes) && o == old(nextId) && nextId == o + 1 && nodes[o] == Int(v)
      ensures Allocated(old(nodes), old(list), old(maxObjects), old(Roots()),
                        old(numObjects) >= old(maxObjects), o, Int(v),
                        nodes, list, maxObjects)
    {
      o := Insert(Int(v));
      o := PushObject(o);
    }

    /**
      `push()`: pops two objects, allocates a pair of them and pushes it. The
      two pops are arguments of one call, whose evaluation order C++ leaves
      unspecified: with `leftFirst` the former top becomes the head, otherwise
      the tail. Both are popped before the allocation may collect, so the
      collection sees neither as a root.
     */
    method PushPair(leftFirst: bool) returns (o: Id)
      requires Valid() && marks == {} && stackSize >= 2
      modifies this, stack
      ensures Valid() && marks == {}
      ensures var s := old(Stack()); var n := |s|;
        && Stack() == s[..n - 2] + [o]
        && o !in old(nodes) && o == old(nextId) && nextId == o + 1
        && nodes[o] == (if leftFirst then Pair(s[n - 1], s[n - 2]) else Pair(s[n - 2], s[n - 1]))
        && Allocated(old(nodes), old(list), old(maxObjects), Elems(s[..n - 2]),
                     old(numObjects) >= old(maxObjects), o, nodes[o],
                     nodes, list, maxObjects)
    {
      ghost var s := Stack();
      var first := Pop();
      var second := Pop();
      assert Stack() == s[..|s| - 2];
      var n := if leftFirst then Pair(first, second) else Pair(second, first);
      o := Insert(n);
      o := PushObject(o);
    }

    /**
      The `tail_setter` visitor of the cycle test: makes `t` the tail of `p`
      when `p` is a pair and leaves an integer alone.
     */
    method SetTail(p: Id, t: Id)
      requires Valid() && p in nodes
      modifies this`nodes
      ensures Valid()
      ensures nodes == match old(nodes[p])
        case Int(_) => old(nodes)
        case Pair(h, _) => old(nodes)[p := Pair(h, t)]
    {
      match nodes[p]
      case Int(_) =>
      case Pair(h, _) =>
        nodes := nodes[p := Pair(h, t)];
    }
  }
}
