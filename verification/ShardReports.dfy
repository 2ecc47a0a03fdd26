/** Merging shard reports: validated reports in distinct slots cover the collection exactly once. */
module ShardReports {
  import opened Wrappers
  import opened ShardPlan

  /** One lifecycle report of a test phase. */
  datatype Row = Row(outcome: string, wasXfail: bool)

  type Phases = map<string, seq<Row>>

  /** `sealed` is the verdict on schema and checksum; `runtime` stands for the identity, run,
      platform and interpreter fields, and `clean` for the exit code and empty error lists. */
  datatype Report = Report(
    sealed: bool, shard: int, shards: int, collected: seq<string>, selected: seq<string>,
    started: seq<string>, finished: seq<string>, outcomes: map<string, Phases>,
    clean: bool, runtime: string)

  predicate LifecycleOk(phases: Phases) {
    && phases.Keys in {{"setup", "call", "teardown"}, {"setup", "teardown"}}
    && (forall p | p in phases :: |phases[p]| == 1 && phases[p][0].outcome in {"passed", "skipped"})
    && ((phases["setup"][0].outcome == "passed") <==> "call" in phases)
  }

  /** The shard ran its own part of the collection, cleanly and once. */
  predicate RanExactly(r: Report, selected: seq<string>) {
    && r.selected == selected && r.started == selected && r.finished == selected
    && r.outcomes.Keys == (set n | n in selected)
    && (forall n | n in selected :: LifecycleOk(r.outcomes[n]))
    && r.clean
  }

  predicate Valid(r: Report) {
    && r.sealed
    && 0 <= r.shard < r.shards
    && var partition := Partitioned(r.collected, r.shards);
       partition.Success? && r.shard < |partition.value| && RanExactly(r, partition.value[r.shard])
  }

  method CheckRun(r: Report, selected: seq<string>) returns (ok: bool)
    ensures ok == RanExactly(r, selected)
  {
    if r.selected != selected || r.started != selected || r.finished != selected { return false; }
    if r.outcomes.Keys != (set n | n in selected) { return false; }
    for k := 0 to |selected|
      invariant forall i | 0 <= i < k :: LifecycleOk(r.outcomes[selected[i]])
    {
      assert selected[k] in r.outcomes.Keys;
      if !LifecycleOk(r.outcomes[selected[k]]) { return false; }
    }
    ok := r.clean;
  }

  method ValidateReport(r: Report) returns (ok: bool)
    ensures ok == Valid(r)
  {
    if !r.sealed || !(0 <= r.shard < r.shards) { return false; }
    var partition := Partition(r.collected, r.shards);
    if partition.Failure? || r.shard >= |partition.value| { return false; }
    ok := CheckRun(r, partition.value[r.shard]);
  }

  /** Setup and teardown ran once each and were passed or skipped; the call ran, once, exactly
      when the setup passed; nothing else ran. */
  ghost predicate RanOnce(phases: Phases) {
    && (forall p | p in phases :: p == "setup" || p == "call" || p == "teardown")
    && "setup" in phases && "teardown" in phases
    && (forall p | p in phases :: |phases[p]| == 1)
    && (forall p | p in phases :: phases[p][0].outcome == "passed" || phases[p][0].outcome == "skipped")
    && ("call" in phases <==> phases["setup"][0].outcome == "passed")
  }

  lemma LifecycleTheorem(phases: Phases)
    ensures LifecycleOk(phases) <==> RanOnce(phases)
  {
    var full, short := {"setup", "call", "teardown"}, {"setup", "teardown"};
    if RanOnce(phases) {
      assert phases.Keys == if "call" in phases then full else short;
    }
    if LifecycleOk(phases) {
      assert "setup" in phases.Keys && "teardown" in phases.Keys;
    }
  }

  /** The shard's part was selected, started and finished in full, and each of its tests has a
      complete lifecycle. */
  ghost predicate RanPart(r: Report, part: seq<string>) {
    && r.clean && r.selected == part && r.started == part && r.finished == part
    && (forall n :: n in r.outcomes <==> n in part)
    && (forall n | n in r.outcomes :: RanOnce(r.outcomes[n]))
  }

  lemma RanTheorem(r: Report, part: seq<string>)
    ensures RanExactly(r, part) <==> RanPart(r, part)
  {
    var tests := set n | n in part;
    if r.outcomes.Keys == tests {
      forall n | n in r.outcomes ensures LifecycleOk(r.outcomes[n]) <==> RanOnce(r.outcomes[n]) {
        LifecycleTheorem(r.outcomes[n]);
      }
      assert forall n :: n in r.outcomes <==> n in tests;
    } else {
      assert exists n :: n in r.outcomes.Keys <==> n !in tests;
    }
  }

  /** What a valid report says: sealed, a slot of its count, and its own shard run in full. */
  lemma ValidTheorem(r: Report)
    ensures
      var partition := Partitioned(r.collected, r.shards);
      Valid(r) <==>
        && r.sealed && 0 <= r.shard < r.shards && partition.Success?
        && r.shard < |partition.value| && RanPart(r, partition.value[r.shard])
  {
    var partition := Partitioned(r.collected, r.shards);
    if partition.Success? && 0 <= r.shard < |partition.value| { RanTheorem(r, partition.value[r.shard]); }
  }

  function Executed(reports: seq<Report>): seq<string> {
    if reports == [] then []
    else Executed(reports[..|reports| - 1]) + reports[|reports| - 1].finished
  }

  datatype Rejection = Missing | Empty | Invalid | Mismatch | Disagree | Union

  /** The checks that precede the final comparison of executed and collected tests. */
  ghost predicate Consistent(reports: seq<Report>, count: int) {
    && |reports| == count && count > 0
    && (forall k | 0 <= k < count :: Agrees(reports, count, k))
    && (forall a, b | 0 <= a < b < count :: reports[a].shard != reports[b].shard)
  }

  // ---------- Selecting by sets of shards ----------

  lemma {:induction false} SelectUnion(nodes: seq<string>, slots: map<string, nat>, s: set<int>, j: nat)
    requires j !in s
    ensures multiset(Select(nodes, slots, s + {j})) ==
            multiset(Select(nodes, slots, s)) + multiset(Select(nodes, slots, {j}))
  {
    if nodes != [] { SelectUnion(nodes[..|nodes| - 1], slots, s, j); }
  }

  lemma {:induction false} SelectNone(nodes: seq<string>, slots: map<string, nat>)
    ensures Select(nodes, slots, {}) == []
  {
    if nodes != [] { SelectNone(nodes[..|nodes| - 1], slots); }
  }

  lemma {:induction false} SelectAll(nodes: seq<string>, slots: map<string, nat>, s: set<int>)
    requires forall n | n in nodes :: ModuleOf(n) in slots && slots[ModuleOf(n)] in s
    ensures Select(nodes, slots, s) == nodes
  {
    if nodes != [] {
      var front, last := nodes[..|nodes| - 1], nodes[|nodes| - 1];
      assert last in nodes;
      SelectAll(front, slots, s);
      assert nodes == front + [last];
    }
  }

  function Slots(reports: seq<Report>): (slots: set<int>)
    ensures forall j | j in slots :: exists k :: 0 <= k < |reports| && reports[k].shard == j
  {
    if reports == [] then {}
    else
      var front := reports[..|reports| - 1];
      assert forall k | 0 <= k < |front| :: front[k] == reports[k];
      Slots(front) + {reports[|reports| - 1].shard}
  }

  /** The last of a consistent prefix of reports brings a new slot. */
  lemma NewSlot(reports: seq<Report>, n: nat)
    requires 0 < n <= |reports|
    requires forall a, b | 0 <= a < b < |reports| :: reports[a].shard != reports[b].shard
    ensures reports[n - 1].shard !in Slots(reports[..n - 1])
    ensures Slots(reports[..n]) == Slots(reports[..n - 1]) + {reports[n - 1].shard}
  {
    assert reports[..n][..n - 1] == reports[..n - 1];
  }

  lemma ShardIsSelection(nodes: seq<string>, count: int, j: nat)
    requires Partitioned(nodes, count).Success? && j < |Partitioned(nodes, count).value|
    ensures count > 0 && Partitioned(nodes, count).value[j] == Select(nodes, Plan(nodes, count), {j})
  {
  }

  /** A report that agrees ran exactly the tests of its shard's modules. */
  lemma ReportIsShard(reports: seq<Report>, count: nat, k: nat)
    requires k < |reports| && Agrees(reports, count, k)
    ensures count > 0 && reports[k].shard >= 0
    ensures var nodes := reports[0].collected;
      reports[k].finished == Select(nodes, Plan(nodes, count), {reports[k].shard})
  {
    var r := reports[k];
    ShardIsSelection(r.collected, r.shards, r.shard);
    assert RanExactly(r, Partitioned(r.collected, r.shards).value[r.shard]);
  }

  lemma {:induction false} ExecutedIsSelected(reports: seq<Report>, nodes: seq<string>, plan: map<string, nat>, n: nat)
    requires n <= |reports|
    requires forall k | 0 <= k < n ::
            reports[k].shard >= 0 && reports[k].finished == Select(nodes, plan, {reports[k].shard})
    requires forall a, b | 0 <= a < b < |reports| :: reports[a].shard != reports[b].shard
    ensures multiset(Executed(reports[..n])) == multiset(Select(nodes, plan, Slots(reports[..n])))
  {
    if n == 0 {
      SelectNone(nodes, plan);
    } else {
      ExecutedIsSelected(reports, nodes, plan, n - 1);
      NewSlot(reports, n);
      assert reports[..n][..n - 1] == reports[..n - 1];
      SelectUnion(nodes, plan, Slots(reports[..n - 1]), reports[n - 1].shard);
    }
  }

  lemma {:induction false} SlotsCount(reports: seq<Report>, n: nat)
    requires n <= |reports|
    requires forall a, b | 0 <= a < b < |reports| :: reports[a].shard != reports[b].shard
    ensures |Slots(reports[..n])| == n
  {
    if n > 0 {
      SlotsCount(reports, n - 1);
      NewSlot(reports, n);
    }
  }

  function Range(m: nat): (r: set<int>)
    ensures forall j :: j in r <==> 0 <= j < m
  {
    if m == 0 then {} else Range(m - 1) + {m - 1}
  }

  /** m numbers below m are all of them. */
  lemma {:induction false} FullRange(s: set<int>, m: nat)
    requires |s| == m && forall j | j in s :: 0 <= j < m
    ensures forall j | 0 <= j < m :: j in s
  {
    if m > 0 {
      var s' := s - {m - 1};
      RangeSize(s', m - 1);
      assert m - 1 in s;
      FullRange(s', m - 1);
    }
  }

  lemma {:induction false} RangeSize(s: set<int>, m: nat)
    requires forall j | j in s :: 0 <= j < m
    ensures |s| <= m
  {
    if m == 0 {
      assert forall v :: v !in s;
      assert s == {};
    } else {
      RangeSize(s - {m - 1}, m - 1);
      assert s - {m - 1} == s || s == (s - {m - 1}) + {m - 1};
    }
  }

  lemma SlotsFull(reports: seq<Report>, count: nat)
    requires Consistent(reports, count)
    ensures Slots(reports) == Range(count)
  {
    assert reports[..count] == reports;
    SlotsCount(reports, count);
    forall j | j in Slots(reports) ensures 0 <= j < count {
      var k :| 0 <= k < |reports| && reports[k].shard == j;
      assert Agrees(reports, count, k);
    }
    FullRange(Slots(reports), count);
  }

  /** Reports that validate, agree on the collection and count, and occupy distinct slots
      executed the whole collection exactly once. */
  lemma UnionTheorem(reports: seq<Report>, count: nat)
    requires Consistent(reports, count)
    ensures multiset(Executed(reports)) == multiset(reports[0].collected)
    ensures Slots(reports) == Range(count)
  {
    var nodes := reports[0].collected;
    SlotsFull(reports, count);
    forall k | 0 <= k < count ensures reports[k].shard >= 0
      && reports[k].finished == Select(nodes, Plan(nodes, count), {reports[k].shard})
    {
      assert Agrees(reports, count, k);
      ReportIsShard(reports, count, k);
    }
    ExecutedIsSelected(reports, nodes, Plan(nodes, count), count);
    assert reports[..count] == reports;
    forall n | n in nodes
      ensures ModuleOf(n) in Plan(nodes, count) && Plan(nodes, count)[ModuleOf(n)] in Slots(reports)
    {
      PlanInRange(nodes, count, n);
    }
    SelectAll(nodes, Plan(nodes, count), Slots(reports));
  }

  /** `xs` is `ys` with some elements left out. */
  predicate Subsequence<T(==)>(xs: seq<T>, ys: seq<T>) {
    xs == [] ||
    (ys != [] &&
     (Subsequence(xs, ys[..|ys| - 1]) ||
      (xs[|xs| - 1] == ys[|ys| - 1] && Subsequence(xs[..|xs| - 1], ys[..|ys| - 1]))))
  }

  lemma {:induction false} SelectIsSubsequence(nodes: seq<string>, slots: map<string, nat>, s: set<int>)
    ensures Subsequence(Select(nodes, slots, s), nodes)
  {
    if nodes != [] {
      var front := nodes[..|nodes| - 1];
      SelectIsSubsequence(front, slots, s);
      var selected := Select(front, slots, s);
      assert (selected + [nodes[|nodes| - 1]])[..|selected|] == selected;
    }
  }

  lemma {:induction false} SelectMember(nodes: seq<string>, slots: map<string, nat>, s: set<int>, n: string)
    ensures n in Select(nodes, slots, s) <==> n in nodes && ModuleOf(n) in slots && slots[ModuleOf(n)] in s
  {
    if nodes != [] {
      SelectMember(nodes[..|nodes| - 1], slots, s, n);
      assert nodes == nodes[..|nodes| - 1] + [nodes[|nodes| - 1]];
    }
  }

  /** Each shard keeps the collection's order, and tests of one module share a shard. */
  lemma ShardsKeepModules(nodes: seq<string>, count: nat, j: nat, a: string, b: string)
    requires Partitioned(nodes, count).Success? && j < count
    ensures Subsequence(Partitioned(nodes, count).value[j], nodes)
    ensures a in Partitioned(nodes, count).value[j] && b in nodes && ModuleOf(a) == ModuleOf(b) ==>
              b in Partitioned(nodes, count).value[j]
  {
    SelectIsSubsequence(nodes, Plan(nodes, count), {j});
    SelectMember(nodes, Plan(nodes, count), {j}, a);
    SelectMember(nodes, Plan(nodes, count), {j}, b);
  }

  /** Tests of one file run on one shard. */
  lemma FileStaysWhole(nodes: seq<string>, count: nat, j: nat, path: string, a: string, b: string)
    requires Partitioned(nodes, count).Success? && j < count
    requires (forall i: nat | i < |path| :: !Separator(path, i)) && (path == "" || path[|path| - 1] != ':')
    requires path + "::" + a in nodes && path + "::" + b in nodes
    ensures path + "::" + a in Partitioned(nodes, count).value[j] <==>
            path + "::" + b in Partitioned(nodes, count).value[j]
  {
    ModuleOfTest(path, a);
    ModuleOfTest(path, b);
    ShardsKeepModules(nodes, count, j, path + "::" + a, path + "::" + b);
    ShardsKeepModules(nodes, count, j, path + "::" + b, path + "::" + a);
  }

  ghost predicate Agrees(reports: seq<Report>, count: int, k: nat)
    requires k < |reports|
  {
    Valid(reports[k]) && reports[k].shards == count &&
    reports[k].collected == reports[0].collected && reports[k].runtime == reports[0].runtime
  }

  method CheckOne(reports: seq<Report>, count: int, k: nat, slots: set<int>) returns (bad: Option<Rejection>)
    requires k < |reports|
    ensures bad.None? <==> Agrees(reports, count, k) && reports[k].shard !in slots
    ensures bad.Some? ==> bad.value != Union
  {
    var ok := ValidateReport(reports[k]);
    if !ok { return Some(Invalid); }
    if reports[k].shards != count || reports[k].shard in slots { return Some(Mismatch); }
    if reports[k].collected != reports[0].collected || reports[k].runtime != reports[0].runtime {
      return Some(Disagree);
    }
    bad := None;
  }

  lemma Clash(reports: seq<Report>, count: int, i: nat, k: nat)
    requires i < k < |reports| && reports[i].shard == reports[k].shard
    ensures !Consistent(reports, count)
  {
  }

  lemma Found(reports: seq<Report>, k: nat, j: int) returns (i: nat)
    requires k <= |reports| && j in Slots(reports[..k])
    ensures i < k && reports[i].shard == j
  {
    i :| 0 <= i < |reports[..k]| && reports[..k][i].shard == j;
  }

  ghost predicate SlotsDiffer(reports: seq<Report>, k: nat, slots: set<int>)
    requires k <= |reports|
  {
    && (forall i | 0 <= i < k :: reports[i].shard in slots)
    && (forall a, b | 0 <= a < b < k :: reports[a].shard != reports[b].shard)
  }

  lemma SlotAdded(reports: seq<Report>, k: nat, slots: set<int>)
    requires k < |reports| && SlotsDiffer(reports, k, slots) && reports[k].shard !in slots
    ensures SlotsDiffer(reports, k + 1, slots + {reports[k].shard})
  {
  }

  lemma GatherRejects(reports: seq<Report>, count: nat, k: nat)
    requires k < |reports| && (Agrees(reports, count, k) ==> reports[k].shard in Slots(reports[..k]))
    ensures !Consistent(reports, count)
  {
    if Consistent(reports, count) {
      var i := Found(reports, k, reports[k].shard);
      Clash(reports, count, i, k);
    }
  }

  lemma SlotsGrow(reports: seq<Report>, k: nat)
    requires k < |reports|
    ensures Slots(reports[..k + 1]) == Slots(reports[..k]) + {reports[k].shard}
    ensures Executed(reports[..k + 1]) == Executed(reports[..k]) + reports[k].finished
  {
    assert reports[..k + 1][..k] == reports[..k];
  }

  /** What the loop over the reports has established after k of them. */
  ghost predicate Gathered(reports: seq<Report>, count: nat, k: nat, slots: set<int>, executed: seq<string>)
    requires k <= |reports|
  {
    && slots == Slots(reports[..k]) && executed == Executed(reports[..k])
    && (forall i: nat | i < k :: Agrees(reports, count, i))
    && SlotsDiffer(reports, k, slots)
  }

  lemma GatherOne(reports: seq<Report>, count: nat, k: nat, slots: set<int>, executed: seq<string>)
    requires k < |reports| && Gathered(reports, count, k, slots, executed)
    requires Agrees(reports, count, k) && reports[k].shard !in slots
    ensures Gathered(reports, count, k + 1, slots + {reports[k].shard}, executed + reports[k].finished)
  {
    SlotsGrow(reports, k);
    SlotAdded(reports, k, slots);
  }

  lemma GatherAll(reports: seq<Report>, count: nat, slots: set<int>, executed: seq<string>)
    requires |reports| == count > 0 && Gathered(reports, count, count, slots, executed)
    ensures Consistent(reports, count) && slots == Slots(reports) && executed == Executed(reports)
  {
    assert reports[..count] == reports;
  }

  method Gather(reports: seq<Report>, count: nat)
    returns (bad: Option<Rejection>, slots: set<int>, executed: seq<string>)
    requires |reports| == count > 0
    ensures bad.None? <==> Consistent(reports, count)
    ensures bad.None? ==> slots == Slots(reports) && executed == Executed(reports)
    ensures bad.Some? ==> bad.value != Union
  {
    slots, executed := {}, [];
    for k := 0 to count
      invariant Gathered(reports, count, k, slots, executed)
    {
      bad := CheckOne(reports, count, k, slots);
      if bad.Some? {
        GatherRejects(reports, count, k);
        return;
      }
      GatherOne(reports, count, k, slots, executed);
      slots := slots + {reports[k].shard};
      executed := executed + reports[k].finished;
    }
    GatherAll(reports, count, slots, executed);
    bad := None;
  }

  /** The merge of all shard reports.  Its last comparison is never the one that fails. */
  method Aggregate(reports: seq<Report>, count: int) returns (r: Result<int, Rejection>)
    ensures r.Success? <==> Consistent(reports, count)
    ensures r.Success? ==> multiset(Executed(reports)) == multiset(reports[0].collected)
    ensures r.Success? ==> r.value == |reports[0].collected|
    ensures r.Failure? ==> r.error != Union
  {
    if |reports| != count { return Failure(Missing); }
    if count == 0 { return Failure(Empty); }
    var bad, slots, executed := Gather(reports, count);
    if bad.Some? { return Failure(bad.value); }
    UnionTheorem(reports, count);
    var complete := multiset(executed) == multiset(reports[0].collected) && slots == Range(count);
    r := if complete then Success(|reports[0].collected|) else Failure(Union);
  }
}
