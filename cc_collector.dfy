/**
  The C collector (struct `VM` and its functions in src/collector.c). The
  representation is the one of the C++ model: objects are identities into
  `nodes`, the list threaded from `root` through `next` is `list` (root
  first), the `marked` flags are the set `marks`, and the root stack is a
  fixed array of 256 entries with `stackSize`.

  Here `pushPair` allocates before it pops, so a collection it triggers still
  sees both children on the stack. No pair ever refers to a freed object, and
  that is part of the heap invariant (`HeapClosed`).
 */
module CCollector {
  import opened ObjectGraph

  /** Capacity of the root stack. */
  const MaxStack := 256
  /** Initial allocation threshold. */
  const MaxBarrier := 8

  /** The tag `newObject` is given; the payload is filled in by its caller. */
  datatype ObjectType = ObjInt | ObjPair

  /**
    The payload a new object carries until its caller fills it in: the
    union of the C struct is uninitialised then, and nothing reads it
    before it is written. A pair is given itself as head and tail, so that
    the heap stays free of dangling references in between.
   */
  function Placeholder(kind: ObjectType, o: Id): (n: Node)
    ensures kind == ObjInt <==> n.Int?
    ensures n.Pair? ==> n.head == o && n.tail == o
  {
    match kind
    case ObjInt => Int(0)
    case ObjPair => Pair(o, o)
  }

  class VM {
    /** The root stack; only `stack[..stackSize]` is live. */
    const stack: array<Id>
    var stackSize: nat
    var numObjects: nat
    var maxObjects: nat
    /** The heap list, from `root` along `next`. */
    var list: seq<Id>
    /** The payload of every allocated object. */
    var nodes: Heap
    /** The objects whose `marked` flag is set. */
    var marks: set<Id>
    /** Identities not yet handed out: every allocation gets a fresh one. */
    var nextId: Id

    /** The live part of the root stack, bottom first. */
    ghost function Stack(): seq<Id>
      reads this`stackSize, stack
      requires stackSize <= stack.Length
    {
      stack[..stackSize]
    }

    /** The root set of a collection. */
    ghost function Roots(): set<Id>
      reads this`stackSize, stack
      requires stackSize <= stack.Length
    {
      Elems(Stack())
    }

    ghost predicate Valid()
      reads this, stack
    {
      && stack.Length == MaxStack && stackSize <= MaxStack
      // the heap list holds every allocated object exactly once, and numObjects counts it
      && Distinct(list) && Elems(list) == nodes.Keys && numObjects == |list|
      // only allocated objects carry a mark
      && marks <= nodes.Keys
      // the stack and every pair refer to allocated objects only
      && Roots() <= nodes.Keys
      && HeapClosed(nodes)
      && (forall x | x in nodes :: x < nextId)
    }

    /** `newVM`: an empty stack, an empty heap and the initial threshold. */
    constructor ()
      ensures Valid() && fresh(stack) && marks == {}
      ensures stackSize == 0 && numObjects == 0 && maxObjects == MaxBarrier
      ensures list == [] && nodes == map[] && nextId == 0
    {
      stack := new Id[MaxStack];
      stackSize, numObjects, maxObjects := 0, 0, MaxBarrier;
      list, nodes, marks, nextId := [], map[], {}, 0;
    }

    /** `push`: a full stack is a fatal overflow, so the caller must not push onto it. */
    method Push(o: Id)
      requires Valid() && stackSize < MaxStack && o in nodes
      modifies this`stackSize, stack
      ensures Valid()
      ensures Stack() == old(Stack()) + [o]
    {
      stack[stackSize] := o;
      stackSize := stackSize + 1;
      assert Stack() == old(Stack()) + [o];
    }

    /** `pop`: an empty stack is a fatal underflow, so the caller must not pop it. */
    method Pop() returns (o: Id)
      requires Valid() && stackSize > 0
      modifies this`stackSize
      ensures Valid()
      ensures stackSize == old(stackSize) - 1
      ensures Stack() + [o] == old(Stack())
    {
      stackSize := stackSize - 1;
      o := stack[stackSize];
      assert old(Stack()) == Stack() + [o];
    }

    /**
      `mark`: returns at once on a marked object; otherwise marks it before
      descending into head and tail, so each call marks one more object
      first and recursion ends even on cycles.
     */
    method Mark(x: Id)
      requires x in nodes && HeapClosed(nodes) && marks <= nodes.Keys
      modifies this`marks
      ensures marks <= nodes.Keys
      ensures old(marks) <= marks && x in marks
      ensures x in old(marks) ==> marks == old(marks)
      ensures forall y | y in marks && y !in old(marks) :: Succ(nodes, y) <= marks
      ensures marks - old(marks) <= Reachable(nodes, {x})
      decreases nodes.Keys - marks
    {
      if x in marks {
        return;
      }
      marks := marks + {x};
      assert x in Reachable(nodes, {x});
      if nodes[x].Pair? {
        var head, tail := nodes[x].head, nodes[x].tail;
        assert RefsAllocated(nodes, x);
        ghost var m0 := marks;
        Mark(head);
        ghost var m1 := marks;
        Mark(tail);
        ReachableStep(nodes, x, head);
        ReachableStep(nodes, x, tail);
        assert Succ(nodes, x) <= marks;
        assert m1 - m0 <= Reachable(nodes, {x});
        assert marks - m1 <= Reachable(nodes, {x});
      } else {
        assert Succ(nodes, x) == {};
      }
    }

    /** `markAll`: marks everything reachable from the root stack. */
    method MarkAll()
      requires Valid() && marks == {}
      modifies this`marks
      ensures Valid()
      ensures marks == Reachable(nodes, Roots())
    {
      ghost var roots := Stack();
      for i := 0 to stackSize
        invariant marks <= nodes.Keys
        invariant Elems(roots[..i]) <= marks
        invariant Closed(nodes, marks)
        invariant marks <= Reachable(nodes, Elems(roots[..i]))
      {
        ElemsPrefix(roots, i);
        Mark(stack[i]);
        ReachableFrom(nodes, roots[i], Elems(roots[..i + 1]));
        ReachableMono(nodes, Elems(roots[..i]), Elems(roots[..i + 1]));
      }
      assert roots[..stackSize] == roots;
      ReachableExactly(nodes, Roots(), marks);
    }

    /**
      `sweep`: walks the heap list once, unlinking and counting down every
      unmarked object and clearing the mark of every survivor; the survivors
      are relinked in their original order.
     */
    method Sweep()
      requires Distinct(list) && Elems(list) == nodes.Keys && numObjects == |list| && marks <= nodes.Keys
      modifies this`list, this`nodes, this`marks, this`numObjects
      ensures Distinct(list) && Elems(list) == nodes.Keys && numObjects == |list|
      ensures marks == {}
      ensures list == Kept(old(list), old(marks))
      ensures nodes == Restrict(old(nodes), old(marks))
      ensures numObjects == old(numObjects) - (|old(list)| - |list|)
    {
      ghost var nodes0, marks0 := nodes, marks;
      var objects, survivors := list, [];
      var live, unmarked, count := nodes, marks, numObjects;
      for k := 0 to |objects|
        invariant survivors == Kept(objects[..k], marks0)
        invariant count == |survivors| + (|objects| - k)
        invariant live == nodes0 - Freed(objects, marks0, k)
        invariant unmarked == marks0 - Elems(objects[..k])
      {
        var o := objects[k];
        SweepStep(nodes0, objects, marks0, k);
        if o !in unmarked {
          // unlink and free the unreached object
          live := live - {o};
          count := count - 1;
        } else {
          // clear the survivor's mark and step past it
          unmarked := unmarked - {o};
          survivors := survivors + [o];
        }
      }
      SweptAll(nodes0, objects, marks0);
      FreedAll(nodes0, objects, marks0);
      list, nodes, marks, numObjects := survivors, live, unmarked, count;
    }

    /**
      `gc`: mark from the stack, sweep, then set the threshold to twice the
      survivors. The heap list keeps exactly the reachable objects, in their
      order, no mark is left behind, and the stack is untouched.
     */
    method Gc()
      requires Valid() && marks == {}
      modifies this
      ensures Valid() && marks == {}
      ensures list == Kept(old(list), Reachable(old(nodes), old(Roots())))
      ensures nodes == Restrict(old(nodes), Reachable(old(nodes), old(Roots())))
      ensures Elems(list) == Reachable(old(nodes), old(Roots()))
      ensures numObjects == |Reachable(old(nodes), old(Roots()))|
      ensures maxObjects == 2 * numObjects
      ensures stackSize == old(stackSize) && nextId == old(nextId)
    {
      RestrictClosed(nodes, Reachable(nodes, Roots()));
      MarkAll();
      KeptCard(list, marks);
      Sweep();
      maxObjects := numObjects * 2;
    }

    /**
      `newObject`: collects first exactly when `numObjects == maxObjects`,
      then links a fresh, unmarked object of the given type at the head of
      the heap list. Once the count has passed the threshold, equality is
      never reached again by allocation alone, and no collection follows.
     */
    method NewObject(kind: ObjectType) returns (o: Id)
      requires Valid() && marks == {}
      modifies this
      ensures Valid() && marks == {}
      ensures o !in old(nodes) && o == old(nextId) && nextId == o + 1
      ensures Allocated(old(nodes), old(list), old(maxObjects), old(Roots()),
                        old(numObjects) == old(maxObjects), o, Placeholder(kind, o),
                        nodes, list, maxObjects)
      ensures old(numObjects) > old(maxObjects) ==> numObjects > maxObjects
      ensures numObjects == |list| && stackSize == old(stackSize)
    {
      if numObjects == maxObjects {
        Gc();
      }
      o := nextId;
      LinkFresh(list, nodes, o, Placeholder(kind, o));
      HeapClosedUpdate(nodes, o, Placeholder(kind, o));
      nextId := nextId + 1;
      nodes := nodes[o := Placeholder(kind, o)];
      marks := marks - {o};
      list := [o] + list;
      numObjects := numObjects + 1;
    }

    /**
      Writes the payload of the allocated object `o`, as `pushInt` and
      `pushPair` do right after `newObject`; every reference it holds must
      be to an allocated object.
     */
    method Fill(o: Id, n: Node)
      requires Valid() && o in nodes
      requires n.Pair? ==> n.head in nodes && n.tail in nodes
      modifies this`nodes
      ensures Valid()
      ensures nodes == old(nodes)[o := n]
    {
      HeapClosedUpdate(nodes, o, n);
      nodes := nodes[o := n];
    }

    /** `pushInt`: allocates an integer object (possibly collecting first), sets its value and pushes it. */
    method PushInt(v: int) returns (o: Id)
      requires Valid() && marks == {} && stackSize < MaxStack
      modifies this, stack
      ensures Valid() && marks == {}
      ensures Stack() == old(Stack()) + [o]
      ensures o !in old(nodes) && o == old(nextId) && nextId == o + 1 && nodes[o] == Int(v)
      ensures Allocated(old(nodes), old(list), old(maxObjects), old(Roots()),
                        old(numObjects) == old(maxObjects), o, Int(v),
                        nodes, list, maxObjects)
    {
      o := NewObject(ObjInt);
      AllocatedFill(old(nodes), old(list), old(maxObjects), old(Roots()),
                    old(numObjects) == old(maxObjects), o, Placeholder(ObjInt, o), Int(v),
                    nodes, list, maxObjects);
      Fill(o, Int(v));
      Push(o);
    }

    /**
      The rest of `pushPair` once the pair `o` is allocated: pops its head,
      the former top, and its tail, the entry below it, then pushes it.
     */
    method PopChildrenPush(o: Id, ghost s: seq<Id>)
      requires Valid() && Stack() == s && 2 <= |s| && o in nodes && nodes[o].Pair?
      modifies this`stackSize, this`nodes, stack
      ensures Valid()
      ensures var n := |s|;
        && Stack() == s[..n - 2] + [o]
        && s[n - 1] in nodes && s[n - 2] in nodes
        && nodes == old(nodes)[o := Pair(s[n - 1], s[n - 2])]
    {
      ghost var n := |s|;
      assert s[n - 1] in Roots() && s[n - 2] in Roots();
      assert RefsAllocated(nodes, o);
      var head := Pop();
      Fill(o, nodes[o].(head := head));
      var tail := Pop();
      Fill(o, nodes[o].(tail := tail));
      assert Stack() == s[..n - 2];
      Push(o);
    }

    /**
      `pushPair`: allocates a pair (possibly collecting first, with both
      children still on the stack), then pops its head and its tail and
      pushes it. The head is the former top and the tail the entry below it,
      and both survive any collection the allocation triggered.
     */
    method PushPair() returns (o: Id)
      requires Valid() && marks == {} && stackSize >= 2
      modifies this, stack
      ensures Valid() && marks == {}
      ensures var s := old(Stack()); var n := |s|;
        && Stack() == s[..n - 2] + [o]
        && o !in old(nodes) && o == old(nextId) && nextId == o + 1
        && nodes[o] == Pair(s[n - 1], s[n - 2])
        && s[n - 1] in nodes && s[n - 2] in nodes
        && Allocated(old(nodes), old(list), old(maxObjects), old(Roots()),
                     old(numObjects) == old(maxObjects), o, nodes[o],
                     nodes, list, maxObjects)
    {
      ghost var s := Stack();
      ghost var n := |s|;
      ghost var nodes0, list0, max0, collect := nodes, list, maxObjects, numObjects == maxObjects;
      o := NewObject(ObjPair);
      ghost var p := Pair(s[n - 1], s[n - 2]);
      AllocatedFill(nodes0, list0, max0, Elems(s), collect, o, Placeholder(ObjPair, o), p,
                    nodes, list, maxObjects);
      assert Stack() == s;
      PopChildrenPush(o, s);
    }

    /** The assignment `a->tail = b` of the cycle test: `t` becomes the tail of the pair `p`. */
    method SetTail(p: Id, t: Id)
      requires Valid() && p in nodes && nodes[p].Pair? && t in nodes
      modifies this`nodes
      ensures Valid()
      ensures nodes == old(nodes)[p := Pair(old(nodes[p]).head, t)]
    {
      assert RefsAllocated(nodes, p);
      Fill(p, nodes[p].(tail := t));
    }

    /** `freeVM`: empties the stack and collects, which frees every object. */
    method FreeVM()
      requires Valid() && marks == {}
      modifies this
      ensures Valid() && marks == {}
      ensures stackSize == 0 && numObjects == 0 && maxObjects == 0
      ensures list == [] && nodes == map[]
    {
      stackSize := 0;
      assert Roots() == {};
      Gc();
    }
  }
}
