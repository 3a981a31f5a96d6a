/**
  The heaps the collectors' test programs build, and the facts about them
  that the scenario methods of both models need: which objects are
  reachable from the stack and which entries of the heap list survive.
 */
module TestHeaps {
  import opened ObjectGraph

  /**
    The pair built from the former top `top` of the stack and the entry
    `below` it: C++ `push()` gives either order, C `pushPair` the first.
   */
  function PoppedPair(leftFirst: bool, top: Id, below: Id): Node
  {
    if leftFirst then Pair(top, below) else Pair(below, top)
  }

  /** The heap after pushing the integers 1 and 2, the opening of every test. */
  function OneTwoHeap(): Heap
  {
    map[0 := Int(1), 1 := Int(2)]
  }

  /** ... then pairing them. */
  function FirstPairHeap(f1: bool): Heap
  {
    OneTwoHeap()[2 := PoppedPair(f1, 1, 0)]
  }

  /** ... then pushing the integer 3. */
  function PushThreeHeap(f1: bool): Heap
  {
    FirstPairHeap(f1)[3 := Int(3)]
  }

  /** ... then pushing the integer 4. */
  function TwoIntsHeap(f1: bool): Heap
  {
    PushThreeHeap(f1)[4 := Int(4)]
  }

  /** ... then pairing 3 and 4. */
  function TwoPairsHeap(f1: bool, f2: bool): Heap
  {
    TwoIntsHeap(f1)[5 := PoppedPair(f2, 4, 3)]
  }

  /** ... then pairing the two pairs: the heap of the nested-pairs test. */
  function NestedHeap(f1: bool, f2: bool, f3: bool): Heap
  {
    TwoPairsHeap(f1, f2)[6 := PoppedPair(f3, 5, 2)]
  }

  /** ... or instead making each of the two pairs the tail of the other: the heap of the cycle test. */
  function CycleHeap(f1: bool, f2: bool): Heap
  {
    TwoPairsHeap(f1, f2)[2 := Pair(PoppedPair(f1, 1, 0).head, 5)][5 := Pair(PoppedPair(f2, 4, 3).head, 2)]
  }

  /** In the heap of the nested-pairs test every object is reachable from the outer pair. */
  lemma NestedAllReachable(f1: bool, f2: bool, f3: bool)
    ensures Reachable(NestedHeap(f1, f2, f3), {6}) == NestedHeap(f1, f2, f3).Keys
  {
    var nodes := NestedHeap(f1, f2, f3);
    assert nodes.Keys == {0, 1, 2, 3, 4, 5, 6};
    var r := Reachable(nodes, {6});
    assert 6 in r;
    assert Succ(nodes, 6) == {2, 5};
    assert Succ(nodes, 2) == {0, 1};
    assert Succ(nodes, 5) == {3, 4};
  }

  /** A collection of the one-object heap from that object keeps it. */
  lemma SingleSurvivor(nodes: Heap, list: seq<Id>)
    requires nodes == map[2 := Int(3)] && list == [2]
    ensures Reachable(nodes, {2}) == {2}
    ensures Kept(list, {2}) == list && Restrict(nodes, {2}) == nodes
  {
    assert list[..0] == [];
  }

  /**
    In the cycle test's heap the two pairs refer to each other, and each
    keeps one of its integers as head: exactly four objects are reachable.
   */
  lemma CycleReachable(f1: bool, f2: bool)
    ensures Reachable(CycleHeap(f1, f2), {2, 5}) ==
            {2, 5, PoppedPair(f1, 1, 0).head, PoppedPair(f2, 4, 3).head}
  {
    var nodes := CycleHeap(f1, f2);
    var h2, h5 := PoppedPair(f1, 1, 0).head, PoppedPair(f2, 4, 3).head;
    assert h2 in {0, 1} && h5 in {3, 4};
    var r := {2, 5, h2, h5};
    assert Succ(nodes, 2) == {h2, 5};
    assert Succ(nodes, 5) == {h5, 2};
    assert Succ(nodes, h2) == {} && Succ(nodes, h5) == {};
    ReachableExactly(nodes, {2, 5}, r);
  }

  /** Of the cycle test's heap list, the four reachable entries survive. */
  lemma CycleKept(l: seq<Id>, h2: Id, h5: Id)
    requires l == [5, 4, 3, 2, 1, 0]
    requires h2 in {0, 1} && h5 in {3, 4}
    ensures Kept(l, {2, 5, h2, h5}) == [5, h5, 2, h2]
  {
    var r := {2, 5, h2, h5};
    assert r * {3, 4} == {h5} && r * {0, 1} == {h2};
    CycleKeptFront(l, r, h5);
    CycleKeptBack(l, r, h2, h5);
  }

  /** The last three entries of the cycle test's heap list: two of them survive. */
  lemma CycleKeptBack(l: seq<Id>, r: set<Id>, h2: Id, h5: Id)
    requires l == [5, 4, 3, 2, 1, 0] && Kept(l[..3], r) == [5, h5]
    requires 2 in r && h2 in {0, 1} && r * {0, 1} == {h2}
    ensures Kept(l, r) == [5, h5, 2, h2]
  {
    assert (1 in r <==> h2 == 1) && (0 in r <==> h2 == 0) by {
      assert 1 in r <==> 1 in r * {0, 1};
      assert 0 in r <==> 0 in r * {0, 1};
    }
    KeptPrefix(l, r, 3);
    KeptPrefix(l, r, 4);
    KeptPrefix(l, r, 5);
    assert l[..6] == l;
  }

  /** The first three entries of the cycle test's heap list: two of them survive. */
  lemma CycleKeptFront(l: seq<Id>, r: set<Id>, h5: Id)
    requires l == [5, 4, 3, 2, 1, 0]
    requires 5 in r && h5 in {3, 4} && r * {3, 4} == {h5}
    ensures Kept(l[..3], r) == [5, h5]
  {
    assert (4 in r <==> h5 == 4) && (3 in r <==> h5 == 3) by {
      assert 4 in r <==> 4 in r * {3, 4};
      assert 3 in r <==> 3 in r * {3, 4};
    }
    KeptPrefix(l, r, 0);
    assert l[..1] == [5] && l[..0] == [];
    KeptPrefix(l, r, 1);
    KeptPrefix(l, r, 2);
  }
}
