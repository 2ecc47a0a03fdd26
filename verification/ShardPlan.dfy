/** Splitting a test collection into CI shards without splitting a module. */
module ShardPlan {
  import opened Wrappers
  import opened Texts

  /** The part of a node id before its first "::". */
  function ModuleOf(node: string): string {
    if |node| < 2 then node
    else if node[0] == ':' && node[1] == ':' then ""
    else [node[0]] + ModuleOf(node[1..])
  }

  predicate Separator(node: string, i: nat) { i + 1 < |node| && node[i] == ':' && node[i + 1] == ':' }

  /** The module is the part before the first "::", or all of a node id without one. */
  lemma {:induction false} ModuleTheorem(node: string)
    ensures var m := ModuleOf(node);
      && |m| <= |node| && node[..|m|] == m
      && (forall i: nat | i < |m| :: !Separator(node, i))
      && (|m| < |node| ==> Separator(node, |m|))
  {
    if |node| >= 2 && !(node[0] == ':' && node[1] == ':') {
      var rest := node[1..];
      var m := ModuleOf(rest);
      ModuleTheorem(rest);
      assert ModuleOf(node) == [node[0]] + m;
      assert node[..|m| + 1] == [node[0]] + rest[..|m|];
      forall i: nat | i < |m| + 1 ensures !Separator(node, i) {
        if i > 0 { assert Separator(node, i) ==> Separator(rest, i - 1); }
      }
      if |m| < |rest| { assert Separator(rest, |m|); }
    }
  }

  lemma EarlierSeparator(path: string, test: string, i: nat)
    requires i < |path| && Separator(path + "::" + test, i)
    ensures Separator(path, i) || path[|path| - 1] == ':'
  {
  }

  /** A path without "::" that does not end in a colon is the module of its tests. */
  lemma ModuleOfTest(path: string, test: string)
    requires (forall i: nat | i < |path| :: !Separator(path, i)) && (path == "" || path[|path| - 1] != ':')
    ensures ModuleOf(path + "::" + test) == path
  {
    var node := path + "::" + test;
    var m := ModuleOf(node);
    ModuleTheorem(node);
    assert Separator(node, |path|);
    assert |m| <= |path|;
    if |m| < |path| { EarlierSeparator(path, test, |m|); }
    assert node[..|path|] == path;
  }

  predicate Distinct<T(==)>(xs: seq<T>) {
    forall a, b | 0 <= a < b < |xs| :: xs[a] != xs[b]
  }

  /** The nodes whose module is assigned to a shard in `chosen`, in collection order. */
  function Select(nodes: seq<string>, slots: map<string, nat>, chosen: set<int>): seq<string> {
    if nodes == [] then []
    else
      var rest := Select(nodes[..|nodes| - 1], slots, chosen);
      var last := nodes[|nodes| - 1];
      if ModuleOf(last) in slots && slots[ModuleOf(last)] in chosen then rest + [last] else rest
  }

  function Size(nodes: seq<string>, path: string): nat {
    if nodes == [] then 0
    else Size(nodes[..|nodes| - 1], path) + if ModuleOf(nodes[|nodes| - 1]) == path then 1 else 0
  }

  /** Modules in order of first appearance. */
  function Modules(nodes: seq<string>): (paths: seq<string>)
    ensures Distinct(paths)
    ensures forall n | n in nodes :: ModuleOf(n) in paths
    ensures forall p | p in paths :: Size(nodes, p) > 0
  {
    if nodes == [] then []
    else
      var front, last := nodes[..|nodes| - 1], nodes[|nodes| - 1];
      var paths := Modules(front);
      assert nodes == front + [last];
      if ModuleOf(last) in paths then paths else paths + [ModuleOf(last)]
  }

  /** Largest module first; modules of equal size by path. */
  predicate Before(nodes: seq<string>, a: string, b: string) {
    Size(nodes, a) > Size(nodes, b) || (Size(nodes, a) == Size(nodes, b) && CompareText(Codes(a), Codes(b)) < 0)
  }

  function InsertPath(nodes: seq<string>, p: string, sorted: seq<string>): seq<string> {
    if sorted == [] || Before(nodes, p, sorted[0]) then [p] + sorted
    else [sorted[0]] + InsertPath(nodes, p, sorted[1..])
  }

  function SortPaths(nodes: seq<string>, paths: seq<string>): seq<string> {
    if paths == [] then []
    else InsertPath(nodes, paths[|paths| - 1], SortPaths(nodes, paths[..|paths| - 1]))
  }

  function Schedule(nodes: seq<string>): seq<string> { SortPaths(nodes, Modules(nodes)) }

  function Weights(nodes: seq<string>, order: seq<string>): seq<nat> {
    seq(|order|, k requires 0 <= k < |order| => Size(nodes, order[k]))
  }

  /** What shard j holds once the first jobs are placed as `placed` says. */
  function Load(weights: seq<nat>, placed: seq<nat>, j: nat): nat
    requires |placed| <= |weights|
  {
    if placed == [] then 0
    else
      var k := |placed| - 1;
      Load(weights, placed[..k], j) + if placed[k] == j then weights[k] else 0
  }

  /** The first shard of least load among 0..n. */
  function LeastLoaded(weights: seq<nat>, placed: seq<nat>, n: nat): (j: nat)
    requires |placed| <= |weights|
    ensures j <= n
    ensures forall i | 0 <= i <= n :: Load(weights, placed, j) <= Load(weights, placed, i)
    ensures forall i | 0 <= i < j :: Load(weights, placed, j) < Load(weights, placed, i)
  {
    if n == 0 then 0
    else
      var j := LeastLoaded(weights, placed, n - 1);
      if Load(weights, placed, n) < Load(weights, placed, j) then n else j
  }

  /** Greedy placement of the first n jobs on `count` shards. */
  function Place(weights: seq<nat>, count: nat, n: nat): (placed: seq<nat>)
    requires n <= |weights| && count > 0
    ensures |placed| == n
    ensures forall k | 0 <= k < n :: placed[k] < count
  {
    if n == 0 then []
    else
      var placed := Place(weights, count, n - 1);
      placed + [LeastLoaded(weights, placed, count - 1)]
  }

  function Assignment(order: seq<string>, placed: seq<nat>): (slots: map<string, nat>)
    requires |order| == |placed|
    ensures forall p :: p in slots <==> p in order
  {
    if order == [] then map[]
    else
      var k := |order| - 1;
      assert order == order[..k] + [order[k]];
      Assignment(order[..k], placed[..k])[order[k] := placed[k]]
  }

  function Plan(nodes: seq<string>, count: nat): map<string, nat>
    requires count > 0
  {
    var order := Schedule(nodes);
    Assignment(order, Place(Weights(nodes, order), count, |order|))
  }

  function Shards(nodes: seq<string>, count: nat): seq<seq<string>>
    requires count > 0
  {
    seq(count, j => Select(nodes, Plan(nodes, count), {j}))
  }

  function Partitioned(nodes: seq<string>, count: int): Result<seq<seq<string>>, string> {
    if !(1 <= count <= 16) then Failure("Shard count must be between 1 and 16")
    else if !(nodes != [] && (forall n | n in nodes :: n != []) && Distinct(nodes)) then
      Failure("Empty or duplicate full collection")
    else if |Modules(nodes)| < count then Failure("More shards than collected modules")
    else Success(Shards(nodes, count))
  }

  // ---------- Sorting ----------

  ghost predicate Sorted(nodes: seq<string>, paths: seq<string>) {
    forall a, b | 0 <= a < b < |paths| :: Size(nodes, paths[a]) >= Size(nodes, paths[b])
  }

  /** Strictly by (size descending, path). */
  ghost predicate Ordered(nodes: seq<string>, paths: seq<string>) {
    forall a, b | 0 <= a < b < |paths| :: Before(nodes, paths[a], paths[b])
  }

  lemma BeforeTransitive(nodes: seq<string>, a: string, b: string, c: string)
    requires Before(nodes, a, b) && Before(nodes, b, c)
    ensures Before(nodes, a, c)
  {
    if Size(nodes, a) == Size(nodes, b) == Size(nodes, c) { CompareTextTransitive(Codes(a), Codes(b), Codes(c)); }
  }

  lemma BeforeTotal(nodes: seq<string>, a: string, b: string)
    requires a != b
    ensures Before(nodes, a, b) || Before(nodes, b, a)
  {
    CompareTextEqual(Codes(a), Codes(b));
    CodesInjective(a, b);
  }

  lemma PrependOrdered(nodes: seq<string>, head: string, tail: seq<string>)
    requires Ordered(nodes, tail) && forall k | 0 <= k < |tail| :: Before(nodes, head, tail[k])
    ensures Ordered(nodes, [head] + tail)
  {
  }

  lemma {:induction false} InsertPathKeeps(nodes: seq<string>, p: string, sorted: seq<string>)
    ensures multiset(InsertPath(nodes, p, sorted)) == multiset(sorted) + multiset{p}
  {
    if sorted != [] && !Before(nodes, p, sorted[0]) {
      InsertPathKeeps(nodes, p, sorted[1..]);
      assert sorted == [sorted[0]] + sorted[1..];
    }
  }

  lemma {:induction false} InsertPathHolds(nodes: seq<string>, p: string, sorted: seq<string>, q: string)
    ensures q in InsertPath(nodes, p, sorted) <==> q == p || q in sorted
  {
    if sorted != [] && !Before(nodes, p, sorted[0]) {
      InsertPathHolds(nodes, p, sorted[1..], q);
      assert sorted == [sorted[0]] + sorted[1..];
    }
  }

  lemma {:induction false} InsertPathOrders(nodes: seq<string>, p: string, sorted: seq<string>)
    requires Ordered(nodes, sorted) && p !in sorted
    ensures Ordered(nodes, InsertPath(nodes, p, sorted))
  {
    if sorted == [] {
    } else if Before(nodes, p, sorted[0]) {
      forall k | 0 <= k < |sorted| ensures Before(nodes, p, sorted[k]) {
        if k > 0 { BeforeTransitive(nodes, p, sorted[0], sorted[k]); }
      }
      PrependOrdered(nodes, p, sorted);
    } else {
      InsertPathOrders(nodes, p, sorted[1..]);
      var tail := InsertPath(nodes, p, sorted[1..]);
      forall k | 0 <= k < |tail| ensures Before(nodes, sorted[0], tail[k]) {
        assert tail[k] in tail;
        InsertPathHolds(nodes, p, sorted[1..], tail[k]);
        BeforeTotal(nodes, sorted[0], p);
      }
      PrependOrdered(nodes, sorted[0], tail);
    }
  }

  lemma {:induction false} SortPathsKeeps(nodes: seq<string>, paths: seq<string>)
    ensures multiset(SortPaths(nodes, paths)) == multiset(paths)
  {
    if paths != [] {
      var front := paths[..|paths| - 1];
      assert paths == front + [paths[|paths| - 1]];
      SortPathsKeeps(nodes, front);
      InsertPathKeeps(nodes, paths[|paths| - 1], SortPaths(nodes, front));
    }
  }

  lemma {:induction false} SortPathsOrders(nodes: seq<string>, paths: seq<string>)
    requires Distinct(paths)
    ensures Ordered(nodes, SortPaths(nodes, paths))
  {
    if paths != [] {
      var front, last := paths[..|paths| - 1], paths[|paths| - 1];
      SortPathsOrders(nodes, front);
      SortPathsKeeps(nodes, front);
      assert last !in front;
      assert last in SortPaths(nodes, front) <==> last in multiset(front);
      InsertPathOrders(nodes, last, SortPaths(nodes, front));
    }
  }

  lemma PermutedDistinct<T>(xs: seq<T>, ys: seq<T>)
    requires Distinct(xs) && multiset(xs) == multiset(ys)
    ensures Distinct(ys) && |xs| == |ys|
    ensures forall x :: x in xs <==> x in ys
  {
    assert |multiset(xs)| == |multiset(ys)|;
    forall x ensures x in xs <==> x in ys {
      assert x in xs <==> x in multiset(xs);
      assert x in ys <==> x in multiset(ys);
    }
    if !Distinct(ys) {
      var a, b :| 0 <= a < b < |ys| && ys[a] == ys[b];
      assert ys == ys[..a] + [ys[a]] + ys[a + 1..b] + [ys[b]] + ys[b + 1..];
      assert multiset(ys)[ys[a]] >= 2;
      DistinctOnce(xs, ys[a]);
      assert false;
    }
  }

  lemma {:induction false} DistinctOnce<T>(xs: seq<T>, x: T)
    requires Distinct(xs)
    ensures multiset(xs)[x] <= 1
  {
    if xs != [] {
      var front, last := xs[..|xs| - 1], xs[|xs| - 1];
      assert xs == front + [last];
      DistinctOnce(front, x);
      if x == last {
        assert x !in front;
        assert x !in multiset(front);
      }
    }
  }

  /** More tests, or as many and a path earlier in text order. */
  ghost predicate Earlier(nodes: seq<string>, a: string, b: string) {
    Size(nodes, a) > Size(nodes, b) || (Size(nodes, a) == Size(nodes, b) && TextLess(Codes(a), Codes(b)))
  }

  /** The schedule lists every module once, largest first, equal sizes by path. */
  lemma ScheduleSorts(nodes: seq<string>)
    ensures Ordered(nodes, Schedule(nodes))
    ensures forall a, b | 0 <= a < b < |Schedule(nodes)| :: Earlier(nodes, Schedule(nodes)[a], Schedule(nodes)[b])
    ensures Sorted(nodes, Schedule(nodes)) && Distinct(Schedule(nodes))
    ensures |Schedule(nodes)| == |Modules(nodes)|
    ensures forall p :: p in Schedule(nodes) <==> p in Modules(nodes)
  {
    SortPathsKeeps(nodes, Modules(nodes));
    SortPathsOrders(nodes, Modules(nodes));
    PermutedDistinct(Modules(nodes), Schedule(nodes));
    forall a, b | 0 <= a < b < |Schedule(nodes)| ensures Earlier(nodes, Schedule(nodes)[a], Schedule(nodes)[b]) {
      CompareTextIsLess(Codes(Schedule(nodes)[a]), Codes(Schedule(nodes)[b]));
    }
  }

  // ---------- The partitioner's own loops ----------

  ghost predicate Counted(nodes: seq<string>, paths: seq<string>, sizes: map<string, nat>, p: string) {
    && (p in sizes <==> p in paths)
    && (if p in sizes then sizes[p] == Size(nodes, p) else Size(nodes, p) == 0)
  }

  /** `paths` and `sizes` describe the modules of `nodes`. */
  ghost predicate Grouped(nodes: seq<string>, paths: seq<string>, sizes: map<string, nat>) {
    paths == Modules(nodes) && forall p :: Counted(nodes, paths, sizes, p)
  }

  lemma SizeGrows(nodes: seq<string>, k: nat, path: string)
    requires k < |nodes|
    ensures Size(nodes[..k + 1], path) == Size(nodes[..k], path) + if ModuleOf(nodes[k]) == path then 1 else 0
  {
    assert nodes[..k + 1][..k] == nodes[..k];
  }

  lemma ModulesGrow(nodes: seq<string>, k: nat)
    requires k < |nodes|
    ensures var paths, path := Modules(nodes[..k]), ModuleOf(nodes[k]);
      Modules(nodes[..k + 1]) == if path in paths then paths else paths + [path]
  {
    assert nodes[..k + 1][..k] == nodes[..k];
  }

  lemma CountOne(nodes: seq<string>, k: nat, paths: seq<string>, sizes: map<string, nat>, p: string)
    requires k < |nodes| && Counted(nodes[..k], paths, sizes, p) &&
            Counted(nodes[..k], paths, sizes, ModuleOf(nodes[k]))
    ensures var path := ModuleOf(nodes[k]);
      Counted(nodes[..k + 1], if path in sizes then paths else paths + [path],
              sizes[path := if path in sizes then sizes[path] + 1 else 1], p)
  {
    SizeGrows(nodes, k, p);
  }

  lemma GroupOne(nodes: seq<string>, k: nat, paths: seq<string>, sizes: map<string, nat>)
    requires k < |nodes| && Grouped(nodes[..k], paths, sizes)
    ensures var path := ModuleOf(nodes[k]);
      Grouped(nodes[..k + 1], if path in sizes then paths else paths + [path],
              sizes[path := if path in sizes then sizes[path] + 1 else 1])
  {
    var path := ModuleOf(nodes[k]);
    ModulesGrow(nodes, k);
    var shorter, longer := nodes[..k], nodes[..k + 1];
    assert Counted(shorter, paths, sizes, path);
    var paths' := if path in sizes then paths else paths + [path];
    var sizes' := sizes[path := if path in sizes then sizes[path] + 1 else 1];
    forall p ensures Counted(longer, paths', sizes', p) {
      assert Counted(shorter, paths, sizes, p);
      CountOne(nodes, k, paths, sizes, p);
    }
  }

  method GroupSizes(nodes: seq<string>) returns (paths: seq<string>, sizes: map<string, nat>)
    ensures paths == Modules(nodes)
    ensures forall p :: p in sizes <==> p in paths
    ensures forall p | p in paths :: sizes[p] == Size(nodes, p)
  {
    paths, sizes := [], map[];
    for k := 0 to |nodes|
      invariant Grouped(nodes[..k], paths, sizes)
    {
      GroupOne(nodes, k, paths, sizes);
      var path := ModuleOf(nodes[k]);
      if path in sizes {
        sizes := sizes[path := sizes[path] + 1];
      } else {
        paths := paths + [path];
        sizes := sizes[path := 1];
      }
    }
    assert nodes[..|nodes|] == nodes;
    forall p ensures p in sizes <==> p in paths
             ensures p in sizes ==> sizes[p] == Size(nodes, p)
    {
      assert Counted(nodes, paths, sizes, p);
    }
  }

  ghost predicate Loads(weights: seq<nat>, placed: seq<nat>, count: nat, loads: seq<nat>)
    requires |placed| <= |weights|
  {
    |loads| == count && forall j | 0 <= j < count :: loads[j] == Load(weights, placed, j)
  }

  lemma LoadsGrow(weights: seq<nat>, placed: seq<nat>, count: nat, loads: seq<nat>, index: nat)
    requires |placed| < |weights| && Loads(weights, placed, count, loads) && index < count
    ensures Loads(weights, placed + [index], count, loads[index := loads[index] + weights[|placed|]])
  {
    assert (placed + [index])[..|placed|] == placed;
  }

  /** The first index of least load. */
  method LeastIndex(weights: seq<nat>, placed: seq<nat>, count: nat, loads: seq<nat>) returns (index: nat)
    requires |placed| <= |weights| && Loads(weights, placed, count, loads) && count > 0
    ensures index == LeastLoaded(weights, placed, count - 1)
  {
    index := 0;
    for i := 1 to count
      invariant index == LeastLoaded(weights, placed, i - 1)
    {
      if loads[i] < loads[index] { index := i; }
    }
  }

  method PlaceAll(weights: seq<nat>, count: nat) returns (placed: seq<nat>)
    requires count > 0
    ensures placed == Place(weights, count, |weights|)
  {
    placed := [];
    var loads := seq(count, _ => 0);
    for k := 0 to |weights|
      invariant placed == Place(weights, count, k)
      invariant Loads(weights, placed, count, loads)
    {
      var index := LeastIndex(weights, placed, count, loads);
      LoadsGrow(weights, placed, count, loads, index);
      placed := placed + [index];
      loads := loads[index := loads[index] + weights[k]];
    }
  }

  method Distribute(nodes: seq<string>, slots: map<string, nat>, count: nat) returns (shards: seq<seq<string>>)
    requires forall n | n in nodes :: ModuleOf(n) in slots && slots[ModuleOf(n)] < count
    ensures |shards| == count
    ensures forall j | 0 <= j < count :: shards[j] == Select(nodes, slots, {j})
  {
    shards := seq(count, _ => []);
    for k := 0 to |nodes|
      invariant |shards| == count
      invariant forall j | 0 <= j < count :: shards[j] == Select(nodes[..k], slots, {j})
    {
      assert nodes[..k + 1][..k] == nodes[..k];
      assert nodes[k] in nodes;
      var index := slots[ModuleOf(nodes[k])];
      shards := shards[index := shards[index] + [nodes[k]]];
    }
    assert nodes[..|nodes|] == nodes;
  }

  lemma {:induction false} AssignmentAt(order: seq<string>, placed: seq<nat>, k: nat)
    requires |order| == |placed| && Distinct(order) && k < |order|
    ensures Assignment(order, placed)[order[k]] == placed[k]
  {
    var last := |order| - 1;
    if k < last {
      assert order[..last][k] == order[k] && placed[..last][k] == placed[k];
      AssignmentAt(order[..last], placed[..last], k);
    }
  }

  lemma PlanInRange(nodes: seq<string>, count: nat, n: string)
    requires count > 0 && n in nodes
    ensures ModuleOf(n) in Plan(nodes, count) && Plan(nodes, count)[ModuleOf(n)] < count
  {
    ScheduleSorts(nodes);
    var order := Schedule(nodes);
    var placed := Place(Weights(nodes, order), count, |order|);
    var k :| 0 <= k < |order| && order[k] == ModuleOf(n);
    AssignmentAt(order, placed, k);
  }

  method MakeShards(nodes: seq<string>, count: nat, order: seq<string>, weights: seq<nat>)
    returns (shards: seq<seq<string>>)
    requires count > 0 && order == Schedule(nodes) && weights == Weights(nodes, order)
    ensures shards == Shards(nodes, count)
  {
    var placed := PlaceAll(weights, count);
    forall n | n in nodes
      ensures ModuleOf(n) in Plan(nodes, count) && Plan(nodes, count)[ModuleOf(n)] < count
    {
      PlanInRange(nodes, count, n);
    }
    shards := Distribute(nodes, Assignment(order, placed), count);
  }

  method Balance(nodes: seq<string>, count: nat) returns (shards: Option<seq<seq<string>>>)
    requires count > 0
    ensures shards == if |Modules(nodes)| < count then None else Some(Shards(nodes, count))
  {
    var paths, sizes := GroupSizes(nodes);
    if |paths| < count { return None; }
    var order := SortPaths(nodes, paths);
    ScheduleSorts(nodes);
    forall k | 0 <= k < |order| ensures order[k] in sizes && sizes[order[k]] == Size(nodes, order[k]) {
      assert order[k] in order;
    }
    var weights := seq(|order|, k requires 0 <= k < |order| && order[k] in sizes => sizes[order[k]]);
    assert weights == Weights(nodes, order);
    var made := MakeShards(nodes, count, order, weights);
    shards := Some(made);
  }

  method Partition(nodes: seq<string>, count: int) returns (r: Result<seq<seq<string>>, string>)
    ensures r == Partitioned(nodes, count)
  {
    if !(1 <= count <= 16) { return Failure("Shard count must be between 1 and 16"); }
    if !(nodes != [] && (forall n | n in nodes :: n != []) && Distinct(nodes)) {
      return Failure("Empty or duplicate full collection");
    }
    var shards := Balance(nodes, count);
    r := if shards.None? then Failure("More shards than collected modules") else Success(shards.value);
  }

  // ---------- What is accepted ----------

  function ModuleSet(nodes: seq<string>): set<string> { set k | 0 <= k < |nodes| :: ModuleOf(nodes[k]) }

  lemma {:induction false} DistinctSize(paths: seq<string>)
    requires Distinct(paths)
    ensures |set p | p in paths| == |paths|
  {
    if paths != [] {
      var front, last := paths[..|paths| - 1], paths[|paths| - 1];
      DistinctSize(front);
      assert (set p | p in paths) == (set p | p in front) + {last} by { assert paths == front + [last]; }
      assert last !in front;
    }
  }

  lemma {:induction false} SizeCounts(nodes: seq<string>, path: string)
    ensures Size(nodes, path) > 0 <==> path in ModuleSet(nodes)
  {
    if nodes != [] {
      var n := |nodes| - 1;
      SizeCounts(nodes[..n], path);
      if path in ModuleSet(nodes[..n]) {
        var k :| 0 <= k < n && ModuleOf(nodes[..n][k]) == path;
        assert ModuleOf(nodes[k]) == path;
      }
      if path in ModuleSet(nodes) {
        var k :| 0 <= k <= n && ModuleOf(nodes[k]) == path;
        assert k < n ==> ModuleOf(nodes[..n][k]) == path;
      }
    }
  }

  lemma ModulesCount(nodes: seq<string>)
    ensures |Modules(nodes)| == |ModuleSet(nodes)|
  {
    var paths := Modules(nodes);
    DistinctSize(paths);
    forall p ensures p in paths <==> p in ModuleSet(nodes) {
      SizeCounts(nodes, p);
      if p in ModuleSet(nodes) {
        var k :| 0 <= k < |nodes| && ModuleOf(nodes[k]) == p;
        assert nodes[k] in nodes;
      }
    }
    assert (set p | p in paths) == ModuleSet(nodes);
  }

  /** A collection is partitioned exactly when the count is between 1 and 16, the node ids are
      there, not empty and distinct, and there is a module for every shard. */
  lemma AcceptTheorem(nodes: seq<string>, count: int)
    ensures Partitioned(nodes, count).Success? <==>
      && 1 <= count <= 16 && |nodes| > 0
      && (forall k | 0 <= k < |nodes| :: nodes[k] != "")
      && (forall a, b | 0 <= a < b < |nodes| :: nodes[a] != nodes[b])
      && count <= |ModuleSet(nodes)|
    ensures Partitioned(nodes, count).Success? ==> |Partitioned(nodes, count).value| == count
  {
    ModulesCount(nodes);
    if forall n | n in nodes :: n != "" {
      forall k | 0 <= k < |nodes| ensures nodes[k] != "" { assert nodes[k] in nodes; }
    }
  }
}
