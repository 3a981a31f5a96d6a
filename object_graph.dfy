/**
  The object graph shared by both collectors: object identities, the two
  object variants, the heap as a map from identity to payload, the set of
  objects reachable from a root set, and the list filter that a sweep
  performs. Everything here is pure; the two VM classes are specified in
  terms of it.
 */
module ObjectGraph {

  /** The identity (address) of a heap object. */
  type Id = nat

  /** The payload of a heap object: an integer leaf or a pair of references. */
  datatype Node = Int(value: int) | Pair(head: Id, tail: Id)

  /** Every allocated object and its payload. */
  type Heap = map<Id, Node>

  /** The elements of a sequence, as a set. */
  function Elems(s: seq<Id>): set<Id>
  {
    set x | x in s
  }

  /** No identity occurs twice: each object is threaded on the heap list once. */
  ghost predicate Distinct(s: seq<Id>)
  {
    forall i, j {:trigger Apart(s, i, j)} | 0 <= i < j < |s| :: Apart(s, i, j)
  }

  /**
    The entries at positions `i` and `j` differ. Distinct is stated through
    it so that its quantifier is used only where a proof names a pair of
    positions.
   */
  ghost predicate Apart(s: seq<Id>, i: int, j: int)
    requires 0 <= i < |s| && 0 <= j < |s|
  {
    s[i] != s[j]
  }

  /** The allocated objects that `x` refers to directly (its head and tail). */
  function Succ(nodes: Heap, x: Id): set<Id>
  {
    if x in nodes && nodes[x].Pair? then {nodes[x].head, nodes[x].tail} * nodes.Keys else {}
  }

  /** `s` contains, with each object, every allocated object it refers to. */
  ghost predicate Closed(nodes: Heap, s: set<Id>)
  {
    forall x {:trigger Succ(nodes, x)} | x in s :: Succ(nodes, x) <= s
  }

  /** The references held by `x`, if it is an allocated pair, are to allocated objects. */
  ghost predicate RefsAllocated(nodes: Heap, x: Id)
  {
    x in nodes && nodes[x].Pair? ==> nodes[x].head in nodes && nodes[x].tail in nodes
  }

  /** No pair refers to an object that is not allocated (no dangling reference). */
  ghost predicate HeapClosed(nodes: Heap)
  {
    forall x {:trigger RefsAllocated(nodes, x)} :: RefsAllocated(nodes, x)
  }

  /**
    The least superset of `s` that is closed under Succ: `s` plus every
    allocated object reachable from it by following head and tail.
   */
  ghost function Closure(nodes: Heap, s: set<Id>): (r: set<Id>)
    ensures s <= r && r <= s + nodes.Keys
    ensures Closed(nodes, r)
    ensures forall c :: s <= c && Closed(nodes, c) ==> r <= c
    decreases |nodes.Keys - s|
  {
    if exists x, y :: x in s && y in Succ(nodes, x) && y !in s then
      var x, y :| x in s && y in Succ(nodes, x) && y !in s;
      assert (nodes.Keys - (s + {y})) + {y} == nodes.Keys - s;
      Closure(nodes, s + {y})
    else
      s
  }

  /** The allocated objects reachable from `roots` (the objects a collection keeps). */
  ghost function Reachable(nodes: Heap, roots: set<Id>): (r: set<Id>)
    ensures roots * nodes.Keys <= r <= nodes.Keys
    ensures Closed(nodes, r)
    ensures forall c :: roots * nodes.Keys <= c && Closed(nodes, c) ==> r <= c
  {
    Closure(nodes, roots * nodes.Keys)
  }

  /** The entries of `s` that are in `keep`, in their original order. */
  function Kept(s: seq<Id>, keep: set<Id>): (r: seq<Id>)
    ensures Elems(r) == Elems(s) * keep
    ensures |r| <= |s|
  {
    if s == [] then []
    else
      var n := |s| - 1;
      var r0 := Kept(s[..n], keep);
      assert s == s[..n] + [s[n]];
      assert Elems(r0 + [s[n]]) == Elems(r0) + {s[n]};
      if s[n] in keep then r0 + [s[n]] else r0
  }

  /** The part of `nodes` whose identities are in `keep`. */
  function Restrict(nodes: Heap, keep: set<Id>): (r: Heap)
    ensures r.Keys == nodes.Keys * keep
    ensures forall x | x in r :: r[x] == nodes[x]
  {
    map x | x in nodes && x in keep :: nodes[x]
  }

  /**
    The heap `nodes`, list `list` and threshold `max` after allocating `o`
    with payload `n`, starting from heap `nodes0`, list `list0` and threshold
    `max0`, and collecting from `roots` first exactly when `collect` holds:
    the new object heads the list, behind the survivors of the collection.
   */
  ghost predicate Allocated(nodes0: Heap, list0: seq<Id>, max0: nat, roots: set<Id>,
                            collect: bool, o: Id, n: Node,
                            nodes: Heap, list: seq<Id>, max: nat)
  {
    if collect then
      var r := Reachable(nodes0, roots);
      list == [o] + Kept(list0, r) && nodes == Restrict(nodes0, r)[o := n] && max == 2 * |r|
    else
      list == [o] + list0 && nodes == nodes0[o := n] && max == max0
  }

  /**
    Filling in the payload of the object just allocated: the allocation
    reads as if it had been made with the final payload.
   */
  lemma AllocatedFill(nodes0: Heap, list0: seq<Id>, max0: nat, roots: set<Id>,
                      collect: bool, o: Id, n0: Node, n: Node,
                      nodes: Heap, list: seq<Id>, max: nat)
    requires Allocated(nodes0, list0, max0, roots, collect, o, n0, nodes, list, max)
    ensures Allocated(nodes0, list0, max0, roots, collect, o, n, nodes[o := n], list, max)
  {
  }

  /** Linking a fresh object at the head of the heap list keeps list and heap in step. */
  lemma LinkFresh(list: seq<Id>, nodes: Heap, o: Id, n: Node)
    requires Distinct(list) && Elems(list) == nodes.Keys && o !in nodes
    ensures Distinct([o] + list) && Elems([o] + list) == nodes[o := n].Keys
  {
    var s := [o] + list;
    forall i, j | 0 <= i < j < |s| ensures Apart(s, i, j) {
      assert s[j] == list[j - 1];
      if i == 0 {
        assert s[j] in Elems(list);
      } else {
        assert Apart(list, i - 1, j - 1);
      }
    }
    assert Elems(s) == {o} + Elems(list);
  }

  /** Giving an allocated object a payload whose references are allocated keeps the heap closed. */
  lemma HeapClosedUpdate(nodes: Heap, o: Id, n: Node)
    requires HeapClosed(nodes)
    requires n.Pair? ==> n.head in nodes.Keys + {o} && n.tail in nodes.Keys + {o}
    ensures HeapClosed(nodes[o := n])
  {
    var m := nodes[o := n];
    forall x ensures RefsAllocated(m, x) {
      assert RefsAllocated(nodes, x);
    }
  }

  /** Marking from `x` can reach only what is reachable from any root set holding `x`. */
  lemma ReachableFrom(nodes: Heap, x: Id, roots: set<Id>)
    requires x in roots
    ensures Reachable(nodes, {x}) <= Reachable(nodes, roots)
  {
    var r := Reachable(nodes, roots);
    assert {x} * nodes.Keys <= r;
  }

  /** Reachability is monotone in the root set. */
  lemma ReachableMono(nodes: Heap, a: set<Id>, b: set<Id>)
    requires a <= b
    ensures Reachable(nodes, a) <= Reachable(nodes, b)
  {
    var r := Reachable(nodes, b);
    assert a * nodes.Keys <= r;
  }

  /** What a child of `x` reaches, `x` reaches too. */
  lemma ReachableStep(nodes: Heap, x: Id, y: Id)
    requires x in nodes && y in Succ(nodes, x)
    ensures Reachable(nodes, {y}) <= Reachable(nodes, {x})
  {
    var r := Reachable(nodes, {x});
    assert x in r;
    assert {y} * nodes.Keys <= r;
  }

  /** A closed set that holds the roots is exactly the reachable set when every member is reachable. */
  lemma ReachableExactly(nodes: Heap, roots: set<Id>, c: set<Id>)
    requires roots * nodes.Keys <= c && Closed(nodes, c)
    requires c <= Reachable(nodes, roots)
    ensures Reachable(nodes, roots) == c
  {
  }

  lemma {:induction false} ElemsPrefix(s: seq<Id>, k: nat)
    requires k < |s|
    ensures Elems(s[..k + 1]) == Elems(s[..k]) + {s[k]}
  {
    assert s[..k + 1] == s[..k] + [s[k]];
  }

  /** In a list without repetitions, an entry occurs neither before nor after its position. */
  lemma DistinctAt(s: seq<Id>, k: nat)
    requires Distinct(s) && k < |s|
    ensures s[k] !in Elems(s[..k]) && s[k] !in Elems(s[k + 1..])
  {
    var before := s[..k];
    forall i | 0 <= i < k ensures before[i] != s[k] {
      assert Apart(s, i, k);
    }
    var after := s[k + 1..];
    forall i | 0 <= i < |after| ensures after[i] != s[k] {
      assert Apart(s, k, k + 1 + i);
    }
  }

  /** A prefix of a list without repetitions has none either. */
  lemma DistinctPrefix(s: seq<Id>, n: nat)
    requires Distinct(s) && n <= |s|
    ensures Distinct(s[..n])
  {
    forall i, j | 0 <= i < j < n ensures Apart(s[..n], i, j) {
      assert Apart(s, i, j);
    }
  }

  /** Appending an entry not yet present keeps a list free of repetitions. */
  lemma DistinctSnoc(s: seq<Id>, x: Id)
    requires Distinct(s) && x !in Elems(s)
    ensures Distinct(s + [x])
  {
    var t := s + [x];
    forall i, j | 0 <= i < j < |t| ensures Apart(t, i, j) {
      if j < |s| {
        assert Apart(s, i, j);
      } else {
        assert t[i] == s[i] && s[i] in Elems(s);
      }
    }
  }

  /** A list without repetitions has as many entries as distinct elements. */
  lemma {:induction false} DistinctCard(s: seq<Id>)
    requires Distinct(s)
    ensures |Elems(s)| == |s|
  {
    if s != [] {
      var n := |s| - 1;
      DistinctPrefix(s, n);
      DistinctAt(s, n);
      DistinctCard(s[..n]);
      ElemsPrefix(s, n);
      assert s[..n + 1] == s;
    }
  }

  /** Filtering a list without repetitions gives a list without repetitions. */
  lemma {:induction false} KeptDistinct(s: seq<Id>, keep: set<Id>)
    requires Distinct(s)
    ensures Distinct(Kept(s, keep))
  {
    if s != [] {
      var n := |s| - 1;
      DistinctPrefix(s, n);
      DistinctAt(s, n);
      KeptDistinct(s[..n], keep);
      assert s[n] !in Elems(Kept(s[..n], keep));
      DistinctSnoc(Kept(s[..n], keep), s[n]);
    }
  }

  /** Filtering keeps the whole list when every entry is to be kept. */
  lemma {:induction false} KeptAll(s: seq<Id>, keep: set<Id>)
    requires Elems(s) <= keep
    ensures Kept(s, keep) == s
  {
    if s != [] {
      var n := |s| - 1;
      assert s[n] in Elems(s);
      assert Elems(s[..n]) <= Elems(s);
      KeptAll(s[..n], keep);
      assert s[..n] + [s[n]] == s;
    }
  }

  /** What a complete sweep leaves: the surviving list is again a list of the surviving heap. */
  lemma SweptAll(nodes: Heap, list: seq<Id>, marks: set<Id>)
    requires Distinct(list) && Elems(list) == nodes.Keys && marks <= nodes.Keys
    ensures Distinct(Kept(list, marks)) && Elems(Kept(list, marks)) == Restrict(nodes, marks).Keys
    ensures marks - Elems(list) == {} && Elems(list[|list|..]) == {} && list[..|list|] == list
  {
    KeptDistinct(list, marks);
  }

  /** The objects a sweep has freed after visiting the first `k` entries of `list`. */
  ghost function Freed(list: seq<Id>, marks: set<Id>, k: nat): set<Id>
    requires k <= |list|
  {
    Elems(list[..k]) - marks
  }

  /** Visiting one more entry frees it exactly when it is unmarked. */
  lemma FreedStep(list: seq<Id>, marks: set<Id>, k: nat)
    requires k < |list|
    ensures Freed(list, marks, k + 1) ==
      if list[k] in marks then Freed(list, marks, k) else Freed(list, marks, k) + {list[k]}
  {
    ElemsPrefix(list, k);
  }

  /** Freeing objects one by one is freeing the set of them. */
  lemma FreeOne(nodes: Heap, freed: set<Id>, x: Id)
    ensures nodes - freed - {x} == nodes - (freed + {x})
  {
  }

  /**
    One step of a sweep over a list without repetitions: the entry at `k`
    has not been visited before, and visiting it either keeps it (when
    marked) or frees it.
   */
  lemma SweepStep(nodes: Heap, list: seq<Id>, marks: set<Id>, k: nat)
    requires Distinct(list) && k < |list|
    ensures var o := list[k];
      && o !in Elems(list[..k])
      && Elems(list[..k + 1]) == Elems(list[..k]) + {o}
      && Kept(list[..k + 1], marks) ==
           (if o in marks then Kept(list[..k], marks) + [o] else Kept(list[..k], marks))
      && nodes - Freed(list, marks, k + 1) ==
           (if o in marks then nodes - Freed(list, marks, k) else nodes - Freed(list, marks, k) - {o})
  {
    KeptPrefix(list, marks, k);
    ElemsPrefix(list, k);
    FreedStep(list, marks, k);
    DistinctAt(list, k);
    FreeOne(nodes, Freed(list, marks, k), list[k]);
  }

  /** A complete sweep frees exactly the unmarked objects. */
  lemma FreedAll(nodes: Heap, list: seq<Id>, marks: set<Id>)
    requires Elems(list) == nodes.Keys
    ensures nodes - Freed(list, marks, |list|) == Restrict(nodes, marks)
  {
    assert list[..|list|] == list;
  }

  /** One more entry processed by a sweep: the filter of a prefix grows by at most that entry. */
  lemma KeptPrefix(s: seq<Id>, keep: set<Id>, k: nat)
    requires k < |s|
    ensures Kept(s[..k + 1], keep) ==
      if s[k] in keep then Kept(s[..k], keep) + [s[k]] else Kept(s[..k], keep)
  {
    assert s[..k + 1][..k] == s[..k];
  }

  /** A collection leaves a heap list whose length is the number of reachable objects. */
  lemma KeptCard(s: seq<Id>, keep: set<Id>)
    requires Distinct(s) && keep <= Elems(s)
    ensures |Kept(s, keep)| == |keep|
  {
    KeptDistinct(s, keep);
    DistinctCard(Kept(s, keep));
    assert Elems(Kept(s, keep)) == keep;
  }

  /**
    A second collection with no mutation in between changes nothing: the
    objects reachable in the collected heap are the ones already kept, so
    both the heap list and the payloads stay as they are.
   */
  lemma CollectIdempotent(nodes: Heap, list: seq<Id>, roots: set<Id>)
    ensures var r := Reachable(nodes, roots);
      var nodes' := Restrict(nodes, r);
      var list' := Kept(list, r);
      Reachable(nodes', roots) == r &&
      Restrict(nodes', Reachable(nodes', roots)) == nodes' &&
      Kept(list', Reachable(nodes', roots)) == list'
  {
    var r := Reachable(nodes, roots);
    var nodes' := Restrict(nodes, r);
    var r' := Reachable(nodes', roots);
    // r' <= r: r is closed in the restricted heap, whose keys are r.
    assert Closed(nodes', r) by {
      forall x | x in r ensures Succ(nodes', x) <= r { }
    }
    assert roots * nodes'.Keys <= r;
    assert r' <= r;
    // r <= r': r' is closed in the full heap, since r is and the payloads agree on r.
    assert Closed(nodes, r') by {
      forall x | x in r' ensures Succ(nodes, x) <= r' {
        assert x in r && x in nodes';
        assert Succ(nodes, x) <= r;
        assert Succ(nodes, x) == Succ(nodes', x);
      }
    }
    assert roots * nodes.Keys <= r';
    assert r <= r';
    assert Restrict(nodes', r') == nodes';
    KeptAll(Kept(list, r), r);
  }

  /** Restricting a heap without dangling references to a closed set leaves none. */
  lemma RestrictClosed(nodes: Heap, keep: set<Id>)
    requires HeapClosed(nodes) && Closed(nodes, keep)
    ensures HeapClosed(Restrict(nodes, keep))
  {
    var r := Restrict(nodes, keep);
    forall x ensures RefsAllocated(r, x) {
      if x in r && r[x].Pair? {
        assert RefsAllocated(nodes, x);
        assert nodes[x].head in Succ(nodes, x) && nodes[x].tail in Succ(nodes, x);
      }
    }
  }
}
