/**
  The test programs of src/collector.c, run against the C model. Each test
  is split into the states it passes through, one method per step, and
  ends, as in the source, by freeing the VM.
 */
module CScenarios {
  import opened ObjectGraph
  import opened CCollector
  import opened TestHeaps

  /** A fresh VM after `pushInt(vm, 1)`. */
  method PushOne() returns (vm: VM)
    ensures fresh(vm) && fresh(vm.stack) && vm.Valid() && vm.marks == {}
    ensures vm.nodes == map[0 := Int(1)] && vm.list == [0]
    ensures vm.Stack() == [0] && vm.numObjects == 1 && vm.maxObjects == MaxBarrier
    ensures vm.nextId == 1
  {
    vm := new VM();
    var a := vm.PushInt(1);
  }

  /** Continues with `pushInt(vm, 2)`: the opening of every test. */
  method PushOneTwo() returns (vm: VM)
    ensures fresh(vm) && fresh(vm.stack) && vm.Valid() && vm.marks == {}
    ensures vm.nodes == OneTwoHeap() && vm.list == [1, 0]
    ensures vm.Stack() == [0, 1] && vm.numObjects == 2 && vm.maxObjects == MaxBarrier
    ensures vm.nextId == 2
  {
    vm := PushOne();
    var b := vm.PushInt(2);
  }

  /** Continues with `pushPair(vm)`: the former top is the head. */
  method FirstPair() returns (vm: VM)
    ensures fresh(vm) && fresh(vm.stack) && vm.Valid() && vm.marks == {}
    ensures vm.nodes == FirstPairHeap(true)
    ensures vm.list == [2, 1, 0]
    ensures vm.Stack() == [2] && vm.numObjects == 3 && vm.maxObjects == MaxBarrier
    ensures vm.nextId == 3
  {
    vm := PushOneTwo();
    var a := vm.PushPair();
  }

  /** Continues with `pushInt(vm, 3)`. */
  method PushThree() returns (vm: VM)
    ensures fresh(vm) && fresh(vm.stack) && vm.Valid() && vm.marks == {}
    ensures vm.nodes == PushThreeHeap(true)
    ensures vm.list == [3, 2, 1, 0]
    ensures vm.Stack() == [2, 3] && vm.numObjects == 4 && vm.maxObjects == MaxBarrier
    ensures vm.nextId == 4
  {
    vm := FirstPair();
    var c := vm.PushInt(3);
  }

  /** Continues with `pushInt(vm, 4)`. */
  method TwoInts() returns (vm: VM)
    ensures fresh(vm) && fresh(vm.stack) && vm.Valid() && vm.marks == {}
    ensures vm.nodes == TwoIntsHeap(true)
    ensures vm.list == [4, 3, 2, 1, 0]
    ensures vm.Stack() == [2, 3, 4] && vm.numObjects == 5 && vm.maxObjects == MaxBarrier
    ensures vm.nextId == 5
  {
    vm := PushThree();
    var d := vm.PushInt(4);
  }

  /** Continues with `pushPair(vm)`: two pairs on the stack. */
  method TwoPairs() returns (vm: VM)
    ensures fresh(vm) && fresh(vm.stack) && vm.Valid() && vm.marks == {}
    ensures vm.nodes == TwoPairsHeap(true, true)
    ensures vm.list == [5, 4, 3, 2, 1, 0]
    ensures vm.Stack() == [2, 5] && vm.numObjects == 6 && vm.maxObjects == MaxBarrier
    ensures vm.nextId == 6
  {
    vm := TwoInts();
    var b := vm.PushPair();
  }

  /** Continues with `pushPair(vm)`: one pair of pairs on the stack. */
  method NestedPairs() returns (vm: VM)
    ensures fresh(vm) && fresh(vm.stack) && vm.Valid() && vm.marks == {}
    ensures vm.nodes == NestedHeap(true, true, true)
    ensures vm.list == [6, 5, 4, 3, 2, 1, 0] && vm.Stack() == [6]
  {
    vm := TwoPairs();
    var b := vm.PushPair();
  }

  /** Test 1 of src/collector.c: objects on the stack are preserved; freeing the VM frees them. */
  method Test1() returns (live: nat, left: nat)
    ensures live == 2 && left == 0
  {
    var vm := PushOneTwo();
    assert vm.Roots() == {0, 1};
    vm.Gc();
    live := vm.numObjects;
    vm.FreeVM();
    left := vm.numObjects;
  }

  /**
    Test 2 as a state: after `pushInt` of 1 and 2, two pops and `gc` the
    heap is empty and, with no floor on the threshold, so is `maxObjects`.
   */
  method Emptied() returns (vm: VM)
    ensures fresh(vm) && fresh(vm.stack) && vm.Valid() && vm.marks == {}
    ensures vm.nodes == map[] && vm.list == [] && vm.Stack() == []
    ensures vm.numObjects == 0 && vm.maxObjects == 0 && vm.nextId == 2
  {
    vm := PushOneTwo();
    var x := vm.Pop();
    var y := vm.Pop();
    assert vm.Stack() == [];
    vm.Gc();
  }

  /** Test 2: objects popped off the stack are collected. */
  method Test2() returns (live: nat, left: nat)
    ensures live == 0 && left == 0
  {
    var vm := Emptied();
    live := vm.numObjects;
    vm.FreeVM();
    left := vm.numObjects;
  }

  /**
    On the emptied VM count and threshold are both 0, so `pushInt(vm, 3)`
    collects (nothing) first; the threshold stays 0 and the count becomes 1.
   */
  method EmptiedPushThree() returns (vm: VM)
    ensures fresh(vm) && fresh(vm.stack) && vm.Valid() && vm.marks == {}
    ensures vm.nodes == map[2 := Int(3)] && vm.list == [2] && vm.Stack() == [2]
    ensures vm.numObjects == 1 && vm.maxObjects == 0 && vm.nextId == 3
  {
    vm := Emptied();
    var c := vm.PushInt(3);
  }

  /**
    From then on the count is past the threshold and never equals it again:
    `pushInt(vm, 4)` and every later allocation run no collection.
   */
  method EmptiedPushFour() returns (vm: VM)
    ensures fresh(vm) && fresh(vm.stack) && vm.Valid() && vm.marks == {}
    ensures vm.nodes == map[2 := Int(3), 3 := Int(4)] && vm.Stack() == [2, 3]
    ensures vm.numObjects == 2 && vm.maxObjects == 0
  {
    vm := EmptiedPushThree();
    var d := vm.PushInt(4);
  }

  /** Test 3: objects reached only through nested pairs are preserved. */
  method Test3() returns (live: nat, left: nat)
    ensures live == 7 && left == 0
  {
    var vm := NestedPairs();
    assert vm.Roots() == {6};
    NestedAllReachable(true, true, true);
    KeptAll(vm.list, vm.nodes.Keys);
    vm.Gc();
    live := vm.numObjects;
    vm.FreeVM();
    left := vm.numObjects;
  }

  /**
    Test 4: the cycle `a->tail = b; b->tail = a` is collected without
    looping, keeping four objects: the two pairs and their heads, the former
    tops 2 (object 1) and 4 (object 4). The integers 1 and 3 are the ones
    freed.
   */
  method Test4() returns (live: nat, kept: seq<Id>, left: nat)
    ensures live == 4 && kept == [5, 4, 2, 1] && left == 0
  {
    var vm := TwoPairs();
    vm.SetTail(2, 5);
    vm.SetTail(5, 2);
    assert vm.Roots() == {2, 5};
    assert vm.nodes == CycleHeap(true, true);
    CycleReachable(true, true);
    CycleKept(vm.list, 1, 4);
    vm.Gc();
    live, kept := vm.numObjects, vm.list;
    vm.FreeVM();
    left := vm.numObjects;
  }
}
