# Baby's First GC, in Dafny

A model of the small mark-and-sweep garbage collector in `src/collector.cpp`
(C++) and `src/collector.c` (C), both after Bob Nystrom's "Baby's First
Garbage Collector". A toy stack machine holds references to heap objects on a
root stack of 256 entries. A heap object is an integer or a pair of
references. Every object is threaded on one intrusive list from `root`, and
`numObjects` counts them. When an allocation meets the threshold
`maxObjects` (initially 8), the VM collects first:

- `mark` sets the mark flag on everything reachable from the stack;
- `sweep` unlinks and frees every unmarked object and clears the flag of
  every survivor;
- the threshold becomes twice the number of survivors.

## Structure

- `object_graph.dfy` (`ObjectGraph`) holds the shared vocabulary:
  - object identities and the `Node` payload (`Int` or `Pair`);
  - the heap as a map from identity to payload;
  - `Reachable`, the least set that holds the roots and is closed under
    head and tail;
  - `Kept`, the order-preserving filter a sweep performs on the heap list;
  - `Restrict`, the heap a sweep leaves behind;
  - `Allocated`, the state after one allocation, with or without a
    collection before it;
  - the lemmas about them.
- `cpp_collector.dfy` (`CppCollector`) models the C++ class `VM`.
- `cc_collector.dfy` (`CCollector`) models the C functions over `struct VM`.
- `test_heaps.dfy` (`TestHeaps`) names the heaps the test programs build and
  proves which objects are reachable in them.
- `cpp_scenarios.dfy` and `cc_scenarios.dfy` run `test1` to `test4` of each
  file against its model, one method per step.

Both VM classes have the same fields:

- `stack`: an array of 256 identities, with `stackSize`;
- `numObjects` and `maxObjects`;
- the heap list `list`, root first;
- `nodes`: the payload of every allocated object;
- `marks`: the set of marked objects;
- `nextId`: the next identity to hand out, which stands for `malloc`.

`Valid()` ties these fields together:

- the list holds every allocated object exactly once;
- `numObjects` is the list's length;
- only allocated objects are marked;
- the stack refers to allocated objects only.

In the C model `Valid()` also says that no pair refers to a freed object.
The C++ model cannot say this. `push()` pops both children before
`insert` may collect, so a collection can free them while the new pair still
points at them. `CppScenarios.DanglingPair` builds such a state: it pushes 3
and 4 on a VM whose threshold a collection has set to 2. The C version
allocates before it pops, so its collection still sees both children as
roots, and `CCollector.VM.PushPair` proves that they survive.

The two files differ in when they collect, and the model keeps each one's
rule:

- C++ collects when `numObjects >= maxObjects` (src/collector.cpp:150);
- C collects only when `numObjects == maxObjects` (src/collector.c:101).

Neither file puts a floor under the threshold (src/collector.cpp:107,
src/collector.c:95), and the model follows the code. A collection that frees
everything therefore sets `maxObjects` to 0, and the two files then behave
differently:

- C++ collects on every allocation until the count reaches the new
  threshold (`CppScenarios.EmptiedPushThree`, `EmptiedPushFour`);
- in C the count passes 0 at the next allocation and never equals the
  threshold again, so no automatic collection follows
  (`CCollector.VM.NewObject`, `CScenarios.EmptiedPushFour`).

The C++ `push()` builds its pair with `new Object(pop(), pop())`. C++ leaves
the evaluation order of these two arguments unspecified. `PushPair` takes the
order as a parameter, and every C++ scenario holds for all orders.

In the C `pushPair` the head is the former top of the stack. The cycle test
at src/collector.c:201-203 therefore frees the integers 1 and 3 and keeps 2
and 4 (`CScenarios.Test4`), although its comment names 2 and 4 as the ones
made unreachable. The live count of 4 holds either way.

## Model

| member | source | states |
|---|---|---|
| ObjectGraph.Reachable | src/collector.c:58-74 | the objects marking from a root set reaches: they hold every allocated root, are closed under head and tail, and lie inside every set that does both (least fixed point) |
| ObjectGraph.Closure | src/collector.c:58-68 | the least superset of a set of objects closed under following head and tail to allocated objects |
| ObjectGraph.Kept | src/collector.c:76-89 | the heap list a sweep leaves holds exactly the entries of the old list that are marked, and is no longer than the old list |
| ObjectGraph.Restrict | src/collector.cpp:123-136 | the heap after a sweep holds exactly the marked objects, each with its payload unchanged |
| ObjectGraph.KeptCard | src/collector.cpp:103-107 | filtering a list without repetitions by a subset of its entries leaves one entry per kept object, so `numObjects` after a collection is the number of reachable objects |
| ObjectGraph.KeptDistinct | src/collector.cpp:123-136 | a sweep never duplicates an entry of the heap list |
| ObjectGraph.KeptAll | src/collector.cpp:123-136 | a sweep in which every object is marked leaves the heap list as it was |
| ObjectGraph.KeptPrefix | src/collector.c:78-87 | one more step of the sweep keeps the visited entry exactly when it is marked, appending it after the earlier survivors |
| ObjectGraph.SweepStep | src/collector.c:78-87 | a sweep visits each entry of the list once; visiting it either keeps it, when marked, or frees it |
| ObjectGraph.FreedStep | src/collector.c:79-83 | after one more step, the freed objects are the earlier ones plus the visited entry exactly when it is unmarked |
| ObjectGraph.FreedAll | src/collector.c:76-89 | a complete sweep frees exactly the unmarked objects: what remains is the heap restricted to the marked ones |
| ObjectGraph.SweptAll | src/collector.cpp:123-136 | after a complete sweep the surviving list again holds each surviving object exactly once |
| ObjectGraph.DistinctCard | src/collector.cpp:129 | a list without repetitions has as many entries as distinct objects, so counting the list counts the objects |
| ObjectGraph.CollectIdempotent | src/collector.cpp:103-136 | a second collection with nothing changed in between keeps every object, and neither the heap nor the heap list changes |
| ObjectGraph.ReachableFrom | src/collector.cpp:97-101 | marking from one stack entry reaches only what marking from the whole stack reaches |
| ObjectGraph.ReachableMono | src/collector.c:70-74 | more roots reach at least as much |
| ObjectGraph.ReachableStep | src/collector.c:64-67 | what the head or tail of a pair reaches, the pair reaches too |
| ObjectGraph.ReachableExactly | src/collector.c:70-74 | a closed set holding the allocated roots, all of whose members are reachable, is exactly the reachable set |
| ObjectGraph.RestrictClosed | src/collector.c:91-95 | when no pair refers to a freed object and the survivors are closed under head and tail, no surviving pair refers to a freed object |
| ObjectGraph.HeapClosedUpdate | src/collector.c:114-124 | giving an object a payload whose references are allocated keeps the heap free of dangling references |
| ObjectGraph.LinkFresh | src/collector.cpp:154-157 | linking a fresh object at the head of the list keeps each object listed exactly once, and the list and the heap hold the same objects |
| ObjectGraph.AllocatedFill | src/collector.c:114-116 | writing the payload of the object just allocated gives the state that allocating it with that payload gives |
| ObjectGraph.DistinctAt | src/collector.c:78-87 | an entry of a list without repetitions occurs neither before nor after its own position |
| CppCollector.VM.constructor | src/collector.cpp:59 | a new VM has an empty stack, no objects and threshold 8 |
| CppCollector.VM.Pop | src/collector.cpp:61-64 | on a non-empty stack, returns the top entry and removes it, leaving the entries below unchanged |
| CppCollector.VM.PushObject | src/collector.cpp:143-147 | on a stack that is not full, appends the object and returns it |
| CppCollector.VM.Mark | src/collector.cpp:79-93 | a marked object is left alone; otherwise the object is marked, and every object newly marked has all its children marked; only objects reachable from the argument are newly marked; the recursion ends, even on cycles, because each call marks one more object first |
| CppCollector.VM.MarkSpine | src/collector.cpp:97-101 | starting with nothing marked, marks exactly the objects reachable from the stack |
| CppCollector.VM.Sweep | src/collector.cpp:123-136 | the list keeps exactly the marked entries, in order; the heap keeps exactly the marked objects; no mark is left; `numObjects` drops by one per freed object |
| CppCollector.VM.Collect | src/collector.cpp:103-112 | the list and the heap keep exactly the objects reachable from the stack, in their order; no mark is left; `numObjects` is the number of reachable objects and `maxObjects` twice that; the stack is untouched |
| CppCollector.VM.Insert | src/collector.cpp:149-159 | collects first exactly when `numObjects >= maxObjects`, then links the fresh, unmarked object at the head of the list and counts it |
| CppCollector.VM.PushInt | src/collector.cpp:70-72 | allocates an integer with the given value, collecting first when the threshold is met, and pushes it |
| CppCollector.VM.PushPair | src/collector.cpp:74-76 | pops two entries, then allocates a pair of them in either order, possibly collecting with neither as a root, and pushes it |
| CppCollector.VM.SetTail | src/collector.cpp:214-223 | makes `t` the tail of a pair and leaves an integer alone |
| CCollector.Placeholder | src/collector.c:105-107 | the new object has the requested type, and its payload refers to nothing but itself until its caller fills it in |
| CCollector.VM.constructor | src/collector.c:40-46 | a new VM has an empty stack, no objects and threshold 8 |
| CCollector.VM.Push | src/collector.c:48-51 | on a stack that is not full, appends the object |
| CCollector.VM.Pop | src/collector.c:53-56 | on a non-empty stack, returns the top entry and removes it |
| CCollector.VM.Mark | src/collector.c:58-68 | the object ends up marked, and an already marked one changes nothing; every object newly marked has its children marked; only objects reachable from the argument are newly marked; the recursion ends on cycles |
| CCollector.VM.MarkAll | src/collector.c:70-74 | starting with nothing marked, marks exactly the objects reachable from the stack |
| CCollector.VM.Sweep | src/collector.c:76-89 | the list keeps exactly the marked entries, in order; the heap keeps exactly the marked objects; no mark is left; `numObjects` drops by one per freed object |
| CCollector.VM.Gc | src/collector.c:91-98 | the list and the heap keep exactly the objects reachable from the stack, in their order, with no dangling reference; no mark is left; `maxObjects` is twice the survivors; the stack is untouched |
| CCollector.VM.NewObject | src/collector.c:100-112 | collects first exactly when `numObjects == maxObjects`, then links a fresh, unmarked object of the given type at the head of the list; once the count is past the threshold it stays past it |
| CCollector.VM.Fill | src/collector.c:116 | writes the payload of an allocated object, keeping the heap free of dangling references |
| CCollector.VM.PushInt | src/collector.c:114-119 | allocates an object, possibly collecting, gives it the value and pushes it |
| CCollector.VM.PopChildrenPush | src/collector.c:123-125 | the former top becomes the head and the entry below it the tail; the stack loses both and gains the pair |
| CCollector.VM.PushPair | src/collector.c:121-127 | allocates with both children still on the stack, so any collection keeps them; the head is the former top, the tail the entry below; the stack shrinks by one with the pair on top |
| CCollector.VM.SetTail | src/collector.c:202-203 | makes `t` the tail of the pair `p`, changing nothing else |
| CCollector.VM.FreeVM | src/collector.c:129-133 | empties the stack and collects, which frees every object and leaves threshold 0 |
| TestHeaps.NestedAllReachable | src/collector.cpp:189-201 | in the nested-pairs heap all seven objects are reachable from the outer pair, whatever the pop order |
| TestHeaps.SingleSurvivor | src/collector.cpp:149-152 | collecting the one-object heap from that object keeps it |
| TestHeaps.CycleReachable | src/collector.cpp:203-226 | in the cycle heap exactly the two pairs and their heads are reachable |
| TestHeaps.CycleKept | src/collector.c:191-208 | of the cycle heap's list, the two pairs and their heads survive, in list order |
| TestHeaps.CycleKeptFront | src/collector.c:194-199 | of the first three list entries, the second pair and its head survive |
| TestHeaps.CycleKeptBack | src/collector.c:194-196 | of the last three list entries, the first pair and its head survive |
| CppScenarios.PushOne | src/collector.cpp:170-171 | `push(1)` on a new VM gives one integer on the stack and in the list |
| CppScenarios.PushOneTwo | src/collector.cpp:170-172 | `push(1); push(2)` gives the two integers, no collection yet |
| CppScenarios.FirstPair | src/collector.cpp:192-194 | `push()` replaces them by their pair |
| CppScenarios.PushThree | src/collector.cpp:195 | then `push(3)` |
| CppScenarios.TwoInts | src/collector.cpp:196 | then `push(4)` |
| CppScenarios.TwoPairs | src/collector.cpp:206-211 | `push()` leaves the two pairs on the stack and six objects in the list |
| CppScenarios.NestedPairs | src/collector.cpp:198 | `push()` leaves the pair of pairs alone on the stack |
| CppScenarios.Test1 | src/collector.cpp:168-175 | the collection keeps both objects on the stack: 2 live |
| CppScenarios.Emptied | src/collector.cpp:179-184 | two pushes, two pops and `collect()` leave no object and threshold 0 |
| CppScenarios.Test2 | src/collector.cpp:177-187 | objects popped off the stack are collected: 0 live |
| CppScenarios.EmptiedPushThree | src/collector.cpp:149-152 | with threshold 0, `push(3)` collects first and leaves one object |
| CppScenarios.EmptiedPushFour | src/collector.cpp:149-152 | `push(4)` collects again, keeping the 3, and raises the threshold to 2 |
| CppScenarios.DanglingPair | src/collector.cpp:74-76 | `push()` then pops 3 and 4 before collecting: both are freed and the new pair refers to two freed objects |
| CppScenarios.Test3 | src/collector.cpp:189-201 | nested pairs keep everything reachable: 7 live, for every pop order |
| CppScenarios.Test4 | src/collector.cpp:203-226 | the two-pair cycle is collected without looping: 4 live, namely the pairs and their heads |
| CScenarios.PushOne | src/collector.c:153-154 | `pushInt(vm, 1)` on a new VM gives one integer on the stack and in the list |
| CScenarios.PushOneTwo | src/collector.c:153-155 | `pushInt(vm, 2)` gives the two integers, no collection yet |
| CScenarios.FirstPair | src/collector.c:177-180 | `pushPair` replaces them by the pair with head 2 and tail 1 |
| CScenarios.PushThree | src/collector.c:181 | then `pushInt(vm, 3)` |
| CScenarios.TwoInts | src/collector.c:182 | then `pushInt(vm, 4)` |
| CScenarios.TwoPairs | src/collector.c:193-199 | `pushPair` leaves the two pairs on the stack and six objects in the list |
| CScenarios.NestedPairs | src/collector.c:184 | `pushPair` leaves the pair of pairs alone on the stack |
| CScenarios.Test1 | src/collector.c:151-160 | 2 live after `gc`, none after `freeVM` |
| CScenarios.Emptied | src/collector.c:164-170 | two pushes, two pops and `gc` leave no object and threshold 0 |
| CScenarios.Test2 | src/collector.c:162-173 | 0 live after `gc`, none after `freeVM` |
| CScenarios.EmptiedPushThree | src/collector.c:100-103 | with count and threshold both 0, `pushInt(vm, 3)` collects first; the count becomes 1 and the threshold stays 0 |
| CScenarios.EmptiedPushFour | src/collector.c:100-103 | the count is now past the threshold: `pushInt(vm, 4)` does not collect |
| CScenarios.Test3 | src/collector.c:175-189 | 7 live after `gc`, none after `freeVM` |
| CScenarios.Test4 | src/collector.c:191-208 | the cycle is collected without looping: 4 live (the pairs and the integers 2 and 4), none after `freeVM` |

## Left out

- Printing: `objectPrint`, the `printf` in `gc`, the `DEBUG` output of `collect` and the messages of `my_assert`/`assert`.
- Aborts: a stack overflow or underflow ends the process. `Pop`, `Push`, `PushObject`, `PushInt` and `PushPair` require that it does not happen. This also covers the object that `push(int)` allocates and links before the overflow check runs.
- Memory management: `malloc`, `free`, `new`, `delete` and `free(vm)`. Freeing removes the identity from `nodes` and `list`. Identities come from the counter `nextId` and are never reused, so address reuse is not modelled.
- The mapbox `variant` and its visitors are replaced by the datatype `Node`.
- The uninitialised `root` of `newVM`: the model starts with an empty heap list, as the C++ constructor does.
- `perfTest` and `main`: drivers without assertions.
- Machine limits: the C recursion depth of `mark`, and `int` overflow of `numObjects` and of `numObjects * 2`. All counters are unbounded naturals.
- CppCollector.VM.Mark: treats a reference to a freed object as a leaf. The source dereferences freed memory there, which is undefined behaviour.
- CCollector.Placeholder: the payload of a new object is left unwritten by `newObject`. The model gives it a placeholder, which `pushInt` and `pushPair` overwrite before anything reads it.
- CCollector.VM.SetTail: requires `p` to be a pair. The source writes the tail field on any object, and the test only does so on pairs.
- CCollector.VM.PopChildrenPush: also does the closing `push` of `pushPair`. The payload is written in two steps, as in the source.
- CppCollector.VM.Sweep and CCollector.VM.Sweep: keep the shrinking heap, the marks and the count in locals and store them in the fields once, after the loop. No other code runs while the loop runs.
- ObjectGraph.CollectIdempotent: the "second collect changes nothing" property is a lemma about `Reachable`, `Kept` and `Restrict`, not a second call of `Collect`.
- The order in which `mark` visits objects and the objects' `next` links are not modelled: the list order and the set of marks stand for them.
