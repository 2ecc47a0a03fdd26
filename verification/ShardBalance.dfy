/**
 How far greedy placement can be from the best possible: the heaviest of m shards is
 at most (4/3 - 1/(3m)) times the heaviest shard of any assignment of whole modules.
 */
module ShardBalance {
  import opened ShardPlan

  function Sum(xs: seq<nat>): nat {
    if xs == [] then 0 else Sum(xs[..|xs| - 1]) + xs[|xs| - 1]
  }

  /** Load of shards 0..m-1 together. */
  function TotalLoad(weights: seq<nat>, placed: seq<nat>, m: nat): nat
    requires |placed| <= |weights|
  {
    if m == 0 then 0 else TotalLoad(weights, placed, m - 1) + Load(weights, placed, m - 1)
  }

  lemma {:induction false} TotalLoadStep(weights: seq<nat>, placed: seq<nat>, m: nat)
    requires 0 < |placed| <= |weights|
    ensures
      var k := |placed| - 1;
      TotalLoad(weights, placed, m) ==
        TotalLoad(weights, placed[..k], m) + if placed[k] < m then weights[k] else 0
  {
    if m > 0 { TotalLoadStep(weights, placed, m - 1); }
  }

  lemma {:induction false} TotalLoadIsSum(weights: seq<nat>, placed: seq<nat>, m: nat)
    requires |placed| <= |weights| && forall k | 0 <= k < |placed| :: placed[k] < m
    ensures TotalLoad(weights, placed, m) == Sum(weights[..|placed|])
  {
    if placed == [] {
      EmptyLoad(weights, m);
    } else {
      var k := |placed| - 1;
      TotalLoadIsSum(weights, placed[..k], m);
      TotalLoadStep(weights, placed, m);
      assert weights[..k + 1][..k] == weights[..k];
    }
  }

  lemma {:induction false} EmptyLoad(weights: seq<nat>, m: nat)
    ensures TotalLoad(weights, [], m) == 0
  {
    if m > 0 { EmptyLoad(weights, m - 1); }
  }

  lemma {:induction false} TotalLoadBounds(weights: seq<nat>, placed: seq<nat>, m: nat, low: nat, high: nat)
    requires |placed| <= |weights|
    requires forall j | 0 <= j < m :: low <= Load(weights, placed, j) <= high
    ensures m * low <= TotalLoad(weights, placed, m) <= m * high
  {
    if m > 0 {
      TotalLoadBounds(weights, placed, m - 1, low, high);
      assert m * low == (m - 1) * low + low;
      assert m * high == (m - 1) * high + high;
    }
  }

  lemma {:induction false} LoadGrows(weights: seq<nat>, placed: seq<nat>, n: nat, j: nat)
    requires n <= |placed| <= |weights|
    ensures Load(weights, placed[..n], j) <= Load(weights, placed, j)
    decreases |placed|
  {
    if n == |placed| {
      assert placed[..n] == placed;
    } else {
      var front := placed[..|placed| - 1];
      assert front[..n] == placed[..n];
      LoadGrows(weights, front, n, j);
    }
  }

  /** Two jobs on the same shard weigh on it together. */
  lemma TwoOnOne(weights: seq<nat>, placed: seq<nat>, x: nat, y: nat)
    requires x < y < |placed| <= |weights| && placed[x] == placed[y]
    ensures Load(weights, placed, placed[x]) >= weights[x] + weights[y]
  {
    var j := placed[x];
    LoadGrows(weights, placed, y + 1, j);
    LoadGrows(weights, placed[..y], x + 1, j);
    assert placed[..y + 1][..y] == placed[..y];
    assert placed[..y][..x + 1][..x] == placed[..x];
  }

  lemma OneOnOne(weights: seq<nat>, placed: seq<nat>, x: nat)
    requires x < |placed| <= |weights|
    ensures Load(weights, placed, placed[x]) >= weights[x]
  {
    LoadGrows(weights, placed, x + 1, placed[x]);
    assert placed[..x + 1][..x] == placed[..x];
  }

  // ---------- Counting jobs per shard ----------

  function Ones(n: nat): seq<nat> { seq(n, _ => 1) }

  /** How many jobs `placed` puts on shard j. */
  function Tally(placed: seq<nat>, j: nat): nat { Load(Ones(|placed|), placed, j) }

  lemma {:induction false} LoadByPrefix(weights: seq<nat>, weights': seq<nat>, placed: seq<nat>, j: nat)
    requires |placed| <= |weights| && |placed| <= |weights'|
    requires forall k | 0 <= k < |placed| :: weights[k] == weights'[k]
    ensures Load(weights, placed, j) == Load(weights', placed, j)
  {
    if placed != [] { LoadByPrefix(weights, weights', placed[..|placed| - 1], j); }
  }

  lemma TallyStep(placed: seq<nat>, j: nat)
    requires placed != []
    ensures var k := |placed| - 1;
      Tally(placed, j) == Tally(placed[..k], j) + if placed[k] == j then 1 else 0
  {
    var k := |placed| - 1;
    LoadByPrefix(Ones(k + 1), Ones(k), placed[..k], j);
  }

  lemma {:induction false} SumOnes(n: nat)
    ensures Sum(Ones(n)) == n
  {
    if n > 0 {
      assert Ones(n)[..n - 1] == Ones(n - 1);
      SumOnes(n - 1);
    }
  }

  lemma TalliesAddUp(placed: seq<nat>, m: nat)
    requires forall k | 0 <= k < |placed| :: placed[k] < m
    ensures TotalLoad(Ones(|placed|), placed, m) == |placed|
  {
    TotalLoadIsSum(Ones(|placed|), placed, m);
    assert Ones(|placed|)[..|placed|] == Ones(|placed|);
    SumOnes(|placed|);
  }

  /** A shard with job x holds at least that job and p for every other job. */
  lemma {:induction false} LoadByTally(weights: seq<nat>, placed: seq<nat>, j: nat, p: nat)
    requires |placed| <= |weights| && forall k | 0 <= k < |placed| :: p <= weights[k]
    ensures p * Tally(placed, j) <= Load(weights, placed, j)
    ensures forall x | 0 <= x < |placed| && placed[x] == j ::
      Tally(placed, j) >= 1 && weights[x] + p * (Tally(placed, j) - 1) <= Load(weights, placed, j)
  {
    if placed != [] {
      var k := |placed| - 1;
      LoadByTally(weights, placed[..k], j, p);
      TallyStep(placed, j);
      var t := Tally(placed[..k], j);
      if placed[k] == j {
        TimesStep(p, t);
        if t > 0 { TimesStep(p, t - 1); }
      }
      forall x | 0 <= x < |placed| && placed[x] == j
        ensures Tally(placed, j) >= 1 && weights[x] + p * (Tally(placed, j) - 1) <= Load(weights, placed, j)
      {
        if x < k { assert placed[..k][x] == j; }
      }
    }
  }

  lemma TimesStep(p: nat, t: nat)
    ensures p * (t + 1) == p * t + p
  {
  }

  /** The only job of a shard is all its load. */
  lemma {:induction false} SingleJob(weights: seq<nat>, placed: seq<nat>, j: nat) returns (x: nat)
    requires |placed| <= |weights| && Tally(placed, j) == 1
    ensures x < |placed| && placed[x] == j && weights[x] == Load(weights, placed, j)
  {
    assert placed != [];
    var k := |placed| - 1;
    TallyStep(placed, j);
    if placed[k] == j {
      x := k;
      NoJob(weights, placed[..k], j);
    } else {
      x := SingleJob(weights, placed[..k], j);
    }
  }

  lemma {:induction false} NoJob(weights: seq<nat>, placed: seq<nat>, j: nat)
    requires |placed| <= |weights| && Tally(placed, j) == 0
    ensures Load(weights, placed, j) == 0
  {
    if placed != [] {
      TallyStep(placed, j);
      NoJob(weights, placed[..|placed| - 1], j);
    }
  }

  /** Shards among 0..m-1 with exactly one job. */
  function Singles(placed: seq<nat>, m: nat): set<nat> {
    set j: nat | j < m && Tally(placed, j) == 1
  }

  lemma {:induction false} SinglesFill(placed: seq<nat>, m: nat)
    ensures (forall j | 0 <= j < m :: Tally(placed, j) >= 1) ==>
              2 * m <= TotalLoad(Ones(|placed|), placed, m) + |Singles(placed, m)|
    ensures (forall j | 0 <= j < m :: Tally(placed, j) <= 2) ==>
              TotalLoad(Ones(|placed|), placed, m) + |Singles(placed, m)| <= 2 * m
  {
    if m > 0 {
      SinglesFill(placed, m - 1);
      if Tally(placed, m - 1) == 1 {
        assert Singles(placed, m) == Singles(placed, m - 1) + {m - 1};
      } else {
        assert Singles(placed, m) == Singles(placed, m - 1);
      }
    }
  }

  lemma {:induction false} InjectionSize(from: set<nat>, into: set<nat>, f: map<nat, nat>)
    requires forall x | x in from :: x in f && f[x] in into
    requires forall x, y | x in from && y in from && x != y :: f[x] != f[y]
    ensures |from| <= |into|
    decreases |from|
  {
    if from != {} {
      var x :| x in from;
      InjectionSize(from - {x}, into - {f[x]}, f);
    }
  }

  /** load <= (4/3 - 1/(3m)) * best. */
  predicate Within(m: nat, load: nat, best: nat)
    requires m > 0
  {
    3 * m * load <= (4 * m - 1) * best
  }

  // ---------- What greedy placement does ----------

  ghost predicate Decreasing(weights: seq<nat>) {
    && (forall k | 0 <= k < |weights| :: weights[k] > 0)
    && (forall a, b | 0 <= a < b < |weights| :: weights[a] >= weights[b])
  }

  lemma {:induction false} PlacePrefix(weights: seq<nat>, m: nat, k: nat, n: nat)
    requires 0 < m && k <= n <= |weights|
    ensures Place(weights, m, n)[..k] == Place(weights, m, k)
    decreases n
  {
    if k < n {
      PlacePrefix(weights, m, k, n - 1);
      assert Place(weights, m, n)[..k] == Place(weights, m, n - 1)[..k];
    } else {
      assert Place(weights, m, n)[..k] == Place(weights, m, n);
    }
  }

  /** While empty shards remain, the first empty one is chosen. */
  lemma {:induction false} FirstJobsSpread(weights: seq<nat>, m: nat, n: nat)
    requires n <= m && n <= |weights| && 0 < m && Decreasing(weights)
    ensures forall k | 0 <= k < n :: Place(weights, m, n)[k] == k
    ensures forall j: nat :: Load(weights, Place(weights, m, n), j) > 0 <==> j < n
  {
    if n > 0 {
      FirstJobsSpread(weights, m, n - 1);
      var placed := Place(weights, m, n - 1);
      var chosen := LeastLoaded(weights, placed, m - 1);
      assert Load(weights, placed, n - 1) == 0;
      assert chosen == n - 1;
      var placed' := Place(weights, m, n);
      assert placed' == placed + [n - 1];
      assert placed'[..n - 1] == placed;
    }
  }

  /** Jobs heavier than a third of the best: no shard takes three of them, and a job that
      fills a shard alone in the greedy placement is alone on its shard in the other one,
      so the other placement would run out of room. */
  lemma HeavyJobsFit(weights: seq<nat>, m: nat, k: nat, other: seq<nat>, best: nat, low: nat)
    requires 0 < m && k < |weights| == |other| && Decreasing(weights)
    requires forall i | 0 <= i < |other| :: other[i] < m
    requires forall j | 0 <= j < m :: Load(weights, other, j) <= best
    requires low > 0 && forall j | 0 <= j < m :: low <= Load(weights, Place(weights, m, k), j)
    requires 3 * weights[k] > best
    ensures low + weights[k] <= best
  {
    var before, after, p := Place(weights, m, k), other[..k + 1], weights[k];
    if low + p > best {
      forall j | 0 <= j < m ensures Tally(before, j) >= 1 && Tally(after, j) <= 2 {
        if Tally(before, j) == 0 { NoJob(weights, before, j); }
        LoadGrows(weights, other, k + 1, j);
        LoadByTally(weights, after, j, p);
        if Tally(after, j) >= 3 { TimesMonotone(p, 3, Tally(after, j)); }
      }
      SinglesFill(before, m);
      SinglesFill(after, m);
      TalliesAddUp(before, m);
      TalliesAddUp(after, m);
      SinglesCarryOver(weights, m, k, other, best, low);
      assert false;
    }
  }

  lemma SinglesCarryOver(weights: seq<nat>, m: nat, k: nat, other: seq<nat>, best: nat, low: nat)
    requires 0 < m && k < |weights| == |other| && Decreasing(weights)
    requires forall i | 0 <= i < |other| :: other[i] < m
    requires forall j | 0 <= j < m :: Load(weights, other, j) <= best
    requires forall j | 0 <= j < m :: low <= Load(weights, Place(weights, m, k), j)
    requires low + weights[k] > best
    ensures |Singles(Place(weights, m, k), m)| <= |Singles(other[..k + 1], m)|
  {
    var before, after := Place(weights, m, k), other[..k + 1];
    var from, into := Singles(before, m), Singles(after, m);
    var jobs := map j | j in from :: JobOf(weights, before, j);
    var f := map j | j in from :: after[jobs[j]];
    forall j | j in from ensures f[j] in into {
      AloneInOther(weights, m, k, other, best, jobs[j]);
    }
    forall i, j | i in from && j in from && i != j ensures f[i] != f[j] {
      assert before[jobs[i]] == i && before[jobs[j]] == j;
      AloneInOther(weights, m, k, other, best, jobs[i]);
      if f[i] == f[j] { SharedTally(after, jobs[i], jobs[j]); }
    }
    InjectionSize(from, into, f);
  }

  ghost function JobOf(weights: seq<nat>, placed: seq<nat>, j: nat): (x: nat)
    requires |placed| <= |weights| && Tally(placed, j) == 1
    ensures x < |placed| && placed[x] == j && weights[x] == Load(weights, placed, j)
  {
    assert exists x: nat :: x < |placed| && placed[x] == j && weights[x] == Load(weights, placed, j) by {
      var x := SingleJob(weights, placed, j);
    }
    var x: nat :| x < |placed| && placed[x] == j && weights[x] == Load(weights, placed, j);
    x
  }

  lemma AloneInOther(weights: seq<nat>, m: nat, k: nat, other: seq<nat>, best: nat, x: nat)
    requires 0 < m && x < k < |weights| == |other| && Decreasing(weights)
    requires forall i | 0 <= i < |other| :: other[i] < m
    requires forall j | 0 <= j < m :: Load(weights, other, j) <= best
    requires weights[x] + weights[k] > best
    ensures Tally(other[..k + 1], other[x]) == 1
  {
    var after, p := other[..k + 1], weights[k];
    LoadGrows(weights, other, k + 1, other[x]);
    LoadWithJob(weights, after, other[x], p, x);
    OneLeft(weights[x], p, Tally(after, other[x]), best);
  }

  lemma LoadWithJob(weights: seq<nat>, placed: seq<nat>, j: nat, p: nat, x: nat)
    requires |placed| <= |weights| && x < |placed| && placed[x] == j
    requires forall k | 0 <= k < |placed| :: p <= weights[k]
    ensures Tally(placed, j) >= 1 && weights[x] + p * (Tally(placed, j) - 1) <= Load(weights, placed, j)
  {
    LoadByTally(weights, placed, j, p);
  }

  lemma OneLeft(w: nat, p: nat, t: nat, best: nat)
    ensures t >= 1 && w + p * (t - 1) <= best < w + p ==> t == 1
  {
    if t >= 2 { TimesMonotone(p, 1, t - 1); }
  }

  lemma SharedTally(placed: seq<nat>, x: nat, y: nat)
    requires x < |placed| && y < |placed| && x != y && placed[x] == placed[y]
    ensures Tally(placed, placed[x]) >= 2
  {
    if x < y { TwoOnOne(Ones(|placed|), placed, x, y); } else { TwoOnOne(Ones(|placed|), placed, y, x); }
  }

  /** The bound on the shard that the k-th job lands on, at that moment. */
  lemma JobBound(weights: seq<nat>, m: nat, k: nat, other: seq<nat>, best: nat)
    requires 0 < m && k < |weights| == |other| && Decreasing(weights)
    requires forall i | 0 <= i < |other| :: other[i] < m
    requires forall j | 0 <= j < m :: Load(weights, other, j) <= best
    ensures
      var placed := Place(weights, m, k + 1);
      Within(m, Load(weights, placed, placed[k]), best)
  {
    var before := Place(weights, m, k);
    var j := LeastLoaded(weights, before, m - 1);
    var placed := Place(weights, m, k + 1);
    assert placed == before + [j];
    assert placed[..k] == before;
    var low, p := Load(weights, before, j), weights[k];
    assert Load(weights, placed, j) == low + p;
    OneOnOne(weights, other, k);
    if low == 0 {
      SmallCase(m, p, best);
    } else if 3 * p > best {
      HeavyJobsFit(weights, m, k, other, best, low);
      SmallCase(m, low + p, best);
    } else {
      GreedyFill(weights, m, k, other, best, low);
      LargeCase(m, low, p, best);
    }
  }

  lemma {:induction false} TimesMonotone(c: nat, x: nat, y: nat)
    requires x <= y
    ensures c * x <= c * y
  {
    if c > 0 { TimesMonotone(c - 1, x, y); }
  }

  lemma Spread(m: nat, best: nat)
    requires m > 0
    ensures (4 * m - 1) * best == 4 * (m * best) - best
  {
  }

  lemma SmallCase(m: nat, p: nat, best: nat)
    requires m > 0 && p <= best
    ensures Within(m, p, best)
  {
    TimesMonotone(m, p, best);
    TimesMonotone(best, 1, m);
    Spread(m, best);
    assert best * 1 == best && best * m == m * best;
    assert 3 * m * p == 3 * (m * p);
  }

  lemma LargeCase(m: nat, low: nat, p: nat, best: nat)
    requires m > 0 && m * low + p <= m * best && 3 * p <= best
    ensures Within(m, low + p, best)
  {
    var a, b := m * low, m * p;
    TimesMonotone(m - 1, 3 * p, best);
    assert (m - 1) * (3 * p) == 3 * b - 3 * p;
    assert (m - 1) * best == m * best - best;
    Spread(m, best);
    assert m * (low + p) == a + b;
    assert 3 * m * (low + p) == 3 * (m * (low + p));
  }

  /** All shards hold at least the least load, and all jobs fit in m times the best. */
  lemma GreedyFill(weights: seq<nat>, m: nat, k: nat, other: seq<nat>, best: nat, low: nat)
    requires 0 < m && k < |weights| == |other|
    requires forall i | 0 <= i < |other| :: other[i] < m
    requires forall j | 0 <= j < m :: Load(weights, other, j) <= best
    requires forall j | 0 <= j < m :: low <= Load(weights, Place(weights, m, k), j)
    ensures m * low + weights[k] <= m * best
  {
    var before := Place(weights, m, k);
    var high := TotalLoad(weights, before, m);
    LoadUpTo(weights, before, m, high);
    TotalLoadBounds(weights, before, m, low, high);
    TotalLoadIsSum(weights, before, m);
    TotalLoadBounds(weights, other, m, 0, best);
    TotalLoadIsSum(weights, other, m);
    assert weights[..|other|] == weights;
    SumPrefix(weights, k);
  }

  lemma {:induction false} LoadUpTo(weights: seq<nat>, placed: seq<nat>, m: nat, high: nat)
    requires |placed| <= |weights| && TotalLoad(weights, placed, m) <= high
    ensures forall j | 0 <= j < m :: Load(weights, placed, j) <= high
  {
    if m > 0 { LoadUpTo(weights, placed, m - 1, high); }
  }

  lemma {:induction false} SumPrefix(xs: seq<nat>, k: nat)
    requires k < |xs|
    ensures Sum(xs[..k]) + xs[k] <= Sum(xs)
  {
    var front := xs[..|xs| - 1];
    if k < |front| {
      SumPrefix(front, k);
      assert front[..k] == xs[..k];
    }
  }

  /** No shard outgrows the bound at any moment of the placement. */
  lemma {:induction false} PlaceBound(weights: seq<nat>, m: nat, n: nat, j: nat, other: seq<nat>, best: nat)
    requires 0 < m && n <= |weights| == |other| && Decreasing(weights)
    requires forall i | 0 <= i < |other| :: other[i] < m
    requires forall i | 0 <= i < m :: Load(weights, other, i) <= best
    ensures Within(m, Load(weights, Place(weights, m, n), j), best)
  {
    if n == 0 {
      SmallCase(m, 0, best);
    } else {
      var before := Place(weights, m, n - 1);
      var placed := Place(weights, m, n);
      assert placed[..n - 1] == before;
      if placed[n - 1] == j {
        JobBound(weights, m, n - 1, other, best);
      } else {
        PlaceBound(weights, m, n - 1, j, other, best);
        assert Load(weights, placed, j) == Load(weights, before, j);
      }
    }
  }

  // ---------- From jobs back to tests ----------

  /** Tests of the modules in `order` that `slots` sends to shard j. */
  function Held(nodes: seq<string>, order: seq<string>, slots: map<string, nat>, j: nat): nat {
    if order == [] then 0
    else
      var k := |order| - 1;
      Held(nodes, order[..k], slots, j) +
        if order[k] in slots && slots[order[k]] == j then Size(nodes, order[k]) else 0
  }

  lemma {:induction false} HeldStep(nodes: seq<string>, order: seq<string>, slots: map<string, nat>, j: nat)
    requires nodes != [] && Distinct(order)
    ensures
      var last := ModuleOf(nodes[|nodes| - 1]);
      Held(nodes, order, slots, j) ==
        Held(nodes[..|nodes| - 1], order, slots, j) +
        if last in order && last in slots && slots[last] == j then 1 else 0
  {
    if order != [] {
      var k := |order| - 1;
      HeldStep(nodes, order[..k], slots, j);
      assert order == order[..k] + [order[k]];
      assert order[k] !in order[..k];
    }
  }

  lemma {:induction false} HeldNothing(order: seq<string>, slots: map<string, nat>, j: nat)
    ensures Held([], order, slots, j) == 0
  {
    if order != [] { HeldNothing(order[..|order| - 1], slots, j); }
  }

  lemma {:induction false} SelectSize(nodes: seq<string>, order: seq<string>, slots: map<string, nat>, j: nat)
    requires Distinct(order) && forall n | n in nodes :: ModuleOf(n) in order
    ensures |Select(nodes, slots, {j})| == Held(nodes, order, slots, j)
  {
    if nodes == [] {
      HeldNothing(order, slots, j);
    } else {
      var front := nodes[..|nodes| - 1];
      assert nodes[|nodes| - 1] in nodes;
      SelectSize(front, order, slots, j);
      HeldStep(nodes, order, slots, j);
    }
  }

  lemma {:induction false} HeldIsLoad(nodes: seq<string>, order: seq<string>, slots: map<string, nat>,
                                      placed: seq<nat>, n: nat, j: nat)
    requires n <= |order| == |placed|
    requires forall k | 0 <= k < |order| :: order[k] in slots && slots[order[k]] == placed[k]
    ensures Held(nodes, order[..n], slots, j) == Load(Weights(nodes, order), placed[..n], j)
  {
    if n > 0 {
      HeldIsLoad(nodes, order, slots, placed, n - 1, j);
      assert order[..n][..n - 1] == order[..n - 1];
      assert placed[..n][..n - 1] == placed[..n - 1];
    }
  }

  lemma OrderIsLoad(nodes: seq<string>, order: seq<string>, slots: map<string, nat>, placed: seq<nat>, j: nat)
    requires Distinct(order) && |placed| == |order| && forall n | n in nodes :: ModuleOf(n) in order
    requires forall k | 0 <= k < |order| :: order[k] in slots && slots[order[k]] == placed[k]
    ensures |Select(nodes, slots, {j})| == Load(Weights(nodes, order), placed, j)
  {
    SelectSize(nodes, order, slots, j);
    HeldIsLoad(nodes, order, slots, placed, |order|, j);
    assert order[..|order|] == order && placed[..|order|] == placed;
  }

  lemma ScheduleCovers(nodes: seq<string>, n: string)
    requires n in nodes
    ensures ModuleOf(n) in Schedule(nodes)
  {
    ScheduleSorts(nodes);
  }

  /** The tests a shard holds are the load of its modules. */
  lemma SelectIsLoad(nodes: seq<string>, order: seq<string>, slots: map<string, nat>, placed: seq<nat>, j: nat)
    requires order == Schedule(nodes) && |placed| == |order| && Distinct(order)
    requires forall k | 0 <= k < |order| :: order[k] in slots && slots[order[k]] == placed[k]
    ensures |Select(nodes, slots, {j})| == Load(Weights(nodes, order), placed, j)
  {
    forall n | n in nodes ensures ModuleOf(n) in order { ScheduleCovers(nodes, n); }
    OrderIsLoad(nodes, order, slots, placed, j);
  }

  lemma ScheduleDecreases(nodes: seq<string>)
    ensures Decreasing(Weights(nodes, Schedule(nodes)))
  {
    ScheduleSorts(nodes);
    var order := Schedule(nodes);
    assert forall k | 0 <= k < |order| :: order[k] in Modules(nodes);
  }

  lemma PlanBound(nodes: seq<string>, m: nat, other: map<string, nat>, best: nat, j: nat)
    requires m > 0
    requires forall n | n in nodes :: ModuleOf(n) in other && other[ModuleOf(n)] < m
    requires forall i: nat | i < m :: |Select(nodes, other, {i})| <= best
    ensures Within(m, Load(Weights(nodes, Schedule(nodes)),
                           Place(Weights(nodes, Schedule(nodes)), m, |Schedule(nodes)|), j), best)
  {
    var order := Schedule(nodes);
    var weights := Weights(nodes, order);
    ScheduleSorts(nodes);
    ScheduleDecreases(nodes);
    forall k | 0 <= k < |order| ensures order[k] in other && other[order[k]] < m {
      ModuleHasNode(nodes, order[k]);
    }
    var alternative := seq(|order|, k requires 0 <= k < |order| && order[k] in other => other[order[k]]);
    forall i | 0 <= i < m ensures Load(weights, alternative, i) <= best {
      SelectIsLoad(nodes, order, other, alternative, i);
    }
    PlaceBound(weights, m, |order|, j, alternative, best);
  }

  lemma NoShardIdle(weights: seq<nat>, m: nat, j: nat)
    requires j < m <= |weights| && Decreasing(weights)
    ensures Load(weights, Place(weights, m, |weights|), j) > 0
  {
    FirstJobsSpread(weights, m, m);
    PlacePrefix(weights, m, m, |weights|);
    LoadGrows(weights, Place(weights, m, |weights|), m, j);
  }

  lemma ShardIsLoad(nodes: seq<string>, m: nat, j: nat)
    requires j < m
    ensures |Shards(nodes, m)[j]| ==
            Load(Weights(nodes, Schedule(nodes)), Place(Weights(nodes, Schedule(nodes)), m, |Schedule(nodes)|), j)
  {
    var order := Schedule(nodes);
    var placed := Place(Weights(nodes, order), m, |order|);
    ScheduleSorts(nodes);
    forall k | 0 <= k < |order| ensures order[k] in Plan(nodes, m) && Plan(nodes, m)[order[k]] == placed[k] {
      AssignmentAt(order, placed, k);
    }
    SelectIsLoad(nodes, order, Plan(nodes, m), placed, j);
  }

  /** For every accepted collection and shard count m, and every other assignment of whole
      modules to m shards: no shard of the plan is empty, and none holds more than
      (4/3 - 1/(3m)) times, and so (3/2 - 1/(2m)) times, the heaviest shard of the other. */
  lemma BalanceTheorem(nodes: seq<string>, m: nat, other: map<string, nat>, best: nat, j: nat)
    requires Partitioned(nodes, m).Success? && j < m
    requires forall n | n in nodes :: ModuleOf(n) in other && other[ModuleOf(n)] < m
    requires forall i: nat | i < m :: |Select(nodes, other, {i})| <= best
    ensures var shards := Partitioned(nodes, m).value;
      |shards| == m && shards[j] != [] &&
      3 * m * |shards[j]| <= (4 * m - 1) * best && 2 * m * |shards[j]| <= (3 * m - 1) * best
  {
    ScheduleSorts(nodes);
    ScheduleDecreases(nodes);
    ShardIsLoad(nodes, m, j);
    PlanBound(nodes, m, other, best, j);
    NoShardIdle(Weights(nodes, Schedule(nodes)), m, j);
    Weaker(m, |Shards(nodes, m)[j]|, best);
  }

  lemma Weaker(m: nat, load: nat, best: nat)
    requires m > 0 && Within(m, load, best)
    ensures 2 * m * load <= (3 * m - 1) * best
  {
    Spread(m, best);
    TimesMonotone(best, 1, m);
    assert best * 1 == best && best * m == m * best;
    assert 3 * m * load == 3 * (m * load) && 2 * m * load == 2 * (m * load);
    assert (3 * m - 1) * best == 3 * (m * best) - best;
  }

  lemma {:induction false} ModuleHasNode(nodes: seq<string>, path: string)
    requires path in Modules(nodes)
    ensures exists n :: n in nodes && ModuleOf(n) == path
  {
    var front, last := nodes[..|nodes| - 1], nodes[|nodes| - 1];
    if ModuleOf(last) != path {
      ModuleHasNode(front, path);
      var n :| n in front && ModuleOf(n) == path;
      assert n in nodes;
    } else {
      assert last in nodes;
    }
  }
}
