/**
  The test programs of src/collector.cpp, run against the C++ model. Each
  test is split into the states it passes through, one method per step, and
  every result holds whichever order the two pops of `push()` ran in.
 */
module CppScenarios {
  import opened ObjectGraph
  import opened CppCollector
  import opened TestHeaps

  /** A fresh VM after `push(1)`. */
  method PushOne() returns (vm: VM)
    ensures fresh(vm) && fresh(vm.stack) && vm.Valid() && vm.marks == {}
    ensures vm.nodes == map[0 := Int(1)] && vm.list == [0]
    ensures vm.Stack() == [0] && vm.numObjects == 1 && vm.maxObjects == MaxBarrier
    ensures vm.nextId == 1
  {
    vm := new VM();
    var a := vm.PushInt(1);
  }

  /** Continues with `push(2)`: the opening of every test. */
  method PushOneTwo() returns (vm: VM)
    ensures fresh(vm) && fresh(vm.stack) && vm.Valid() && vm.marks == {}
    ensures vm.nodes == OneTwoHeap() && vm.list == [1, 0]
    ensures vm.Stack() == [0, 1] && vm.numObjects == 2 && vm.maxObjects == MaxBarrier
    ensures vm.nextId == 2
  {
    vm := PushOne();
    var b := vm.PushInt(2);
  }

  /** Continues with `push()`: the pair of 1 and 2, in the order the pops ran. */
  method FirstPair(f1: bool) returns (vm: VM)
    ensures fresh(vm) && fresh(vm.stack) && vm.Valid() && vm.marks == {}
    ensures vm.nodes == FirstPairHeap(f1)
    ensures vm.list == [2, 1, 0]
    ensures vm.Stack() == [2] && vm.numObjects == 3 && vm.maxObjects == MaxBarrier
    ensures vm.nextId == 3
  {
    vm := PushOneTwo();
    var a := vm.PushPair(f1);
  }

  /** Continues with `push(3)`. */
  method PushThree(f1: bool) returns (vm: VM)
    ensures fresh(vm) && fresh(vm.stack) && vm.Valid() && vm.marks == {}
    ensures vm.nodes == PushThreeHeap(f1)
    ensures vm.list == [3, 2, 1, 0]
    ensures vm.Stack() == [2, 3] && vm.numObjects == 4 && vm.maxObjects == MaxBarrier
    ensures vm.nextId == 4
  {
    vm := FirstPair(f1);
    var c := vm.PushInt(3);
  }

  /** Continues with `push(4)`. */
  method TwoInts(f1: bool) returns (vm: VM)
    ensures fresh(vm) && fresh(vm.stack) && vm.Valid() && vm.marks == {}
    ensures vm.nodes == TwoIntsHeap(f1)
    ensures vm.list == [4, 3, 2, 1, 0]
    ensures vm.Stack() == [2, 3, 4] && vm.numObjects == 5 && vm.maxObjects == MaxBarrier
    ensures vm.nextId == 5
  {
    vm := PushThree(f1);
    var d := vm.PushInt(4);
  }

  /** Continues with `push()`: two pairs on the stack. */
  method TwoPairs(f1: bool, f2: bool) returns (vm: VM)
    ensures fresh(vm) && fresh(vm.stack) && vm.Valid() && vm.marks == {}
    ensures vm.nodes == TwoPairsHeap(f1, f2)
    ensures vm.list == [5, 4, 3, 2, 1, 0]
    ensures vm.Stack() == [2, 5] && vm.numObjects == 6 && vm.maxObjects == MaxBarrier
    ensures vm.nextId == 6
  {
    vm := TwoInts(f1);
    var b := vm.PushPair(f2);
  }

  /** Continues with `push()`: one pair of pairs on the stack. */
  method NestedPairs(f1: bool, f2: bool, f3: bool) returns (vm: VM)
    ensures fresh(vm) && fresh(vm.stack) && vm.Valid() && vm.marks == {}
    ensures vm.nodes == NestedHeap(f1, f2, f3)
    ensures vm.list == [6, 5, 4, 3, 2, 1, 0] && vm.Stack() == [6]
  {
    vm := TwoPairs(f1, f2);
    var b := vm.PushPair(f3);
  }

  /** Test 1 of src/collector.cpp: objects on the stack are preserved. */
  method Test1() returns (live: nat)
    ensures live == 2
  {
    var vm := PushOneTwo();
    assert vm.Roots() == {0, 1};
    vm.Collect();
    live := vm.numObjects;
  }

  /**
    Test 2 as a state: after `push(1); push(2); pop(); pop(); collect()` the
    heap is empty and, with no floor on the threshold, so is `maxObjects`.
   */
  method Emptied() returns (vm: VM)
    ensures fresh(vm) && fresh(vm.stack) && vm.Valid() && vm.marks == {}
    ensures vm.nodes == map[] && vm.list == [] && vm.Stack() == []
    ensures vm.numObjects == 0 && vm.maxObjects == 0 && vm.nextId == 2
  {
    vm := PushOneTwo();
    var x := vm.Pop();
    var y := vm.Pop();
    assert vm.Stack() == [];
    vm.Collect();
  }

  /** Test 2: objects popped off the stack are collected. */
  method Test2() returns (live: nat)
    ensures live == 0
  {
    var vm := Emptied();
    live := vm.numObjects;
  }

  /** With a zero threshold every allocation collects first: `push(3)` on the emptied VM. */
  method EmptiedPushThree() returns (vm: VM)
    ensures fresh(vm) && fresh(vm.stack) && vm.Valid() && vm.marks == {}
    ensures vm.nodes == map[2 := Int(3)] && vm.list == [2] && vm.Stack() == [2]
    ensures vm.numObjects == 1 && vm.maxObjects == 0 && vm.nextId == 3
  {
    vm := Emptied();
    var c := vm.PushInt(3);
  }

  /** `push(4)` collects again, keeping the 3 on the stack and raising the threshold to 2. */
  method EmptiedPushFour() returns (vm: VM)
    ensures fresh(vm) && fresh(vm.stack) && vm.Valid() && vm.marks == {}
    ensures vm.nodes == map[2 := Int(3), 3 := Int(4)] && vm.Stack() == [2, 3]
    ensures vm.numObjects == 2 && vm.maxObjects == 2
  {
    vm := EmptiedPushThree();
    assert vm.Roots() == {2};
    SingleSurvivor(vm.nodes, vm.list);
    var d := vm.PushInt(4);
  }

  /**
    `push()` now pops 4 and 3 and only then collects: neither is a root any
    more, so both are freed and the new pair refers to two freed objects.
   */
  method DanglingPair(leftFirst: bool) returns (vm: VM, o: Id)
    ensures vm.Valid() && vm.nodes == map[o := PoppedPair(leftFirst, 3, 2)]
    ensures vm.nodes[o].head !in vm.nodes && vm.nodes[o].tail !in vm.nodes
  {
    vm := EmptiedPushFour();
    o := vm.PushPair(leftFirst);
  }

  /** Test 3: objects reached only through nested pairs are preserved, whatever the pop order. */
  method Test3(f1: bool, f2: bool, f3: bool) returns (live: nat)
    ensures live == 7
  {
    var vm := NestedPairs(f1, f2, f3);
    assert vm.Roots() == {6};
    NestedAllReachable(f1, f2, f3);
    KeptAll(vm.list, vm.nodes.Keys);
    vm.Collect();
    live := vm.numObjects;
  }

  /**
    Test 4: a cycle through two pairs is collected without looping, keeping
    four objects: the two pairs and the head of each, which is the former
    top or the entry below it depending on the order of the pops.
   */
  method Test4(f1: bool, f2: bool) returns (live: nat, kept: seq<Id>)
    ensures live == 4
    ensures kept == [5, PoppedPair(f2, 4, 3).head, 2, PoppedPair(f1, 1, 0).head]
  {
    var vm := TwoPairs(f1, f2);
    vm.SetTail(2, 5);
    vm.SetTail(5, 2);
    var h2, h5 := PoppedPair(f1, 1, 0).head, PoppedPair(f2, 4, 3).head;
    assert vm.Roots() == {2, 5};
    assert vm.nodes == CycleHeap(f1, f2);
    CycleReachable(f1, f2);
    CycleKept(vm.list, h2, h5);
    vm.Collect();
    live, kept := vm.numObjects, vm.list;
  }
}
