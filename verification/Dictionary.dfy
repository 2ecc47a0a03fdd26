/** The capability dictionary: loading with its alias graph checked, readiness, contract drift. */
module Dictionary {
  import opened Wrappers
  import opened Sequences

  datatype Binding = NoBinding | Binding(kind: string, target: Option<string>)

  datatype Row = Row(
    id: Option<string>, binding: Binding,
    status: Option<string>, risk: Option<string>, implemented: Option<bool>,
    effect: string, retry: string, budget: string, profile: Option<string>,
    required: seq<string>, optional: seq<string>)

  type Tools = map<string, Row>

  datatype LoadError =
    | LifecycleInvalid | EffectInvalid | ProfileMissing | BindingInvalid | AliasMissing
    | MethodBindingInvalid | DependencyInvalid | AliasCycle | KeyMissing

  predicate IsAlias(row: Row) { row.binding.Binding? && row.binding.kind == "alias" }

  function Status(row: Row): string { if row.status.Some? then row.status.value else "active" }

  // ---------- Local checks ----------

  predicate WordChar(c: char) { 'a' <= c <= 'z' || 'A' <= c <= 'Z' || '0' <= c <= '9' || c == '_' }

  predicate NameChar(c: char) { WordChar(c) || c == '.' || c == '-' }

  predicate MethodName(s: string) {
    StartsWith(s, "_action_") && |s| > 8 && forall k | 8 <= k < |s| :: WordChar(s[k])
  }

  predicate Named(s: string, kind: string) {
    StartsWith(s, kind) && |s| > |kind| && forall k | |kind| <= k < |s| :: NameChar(s[k])
  }

  predicate DependencyName(s: string) { Named(s, "python:") || Named(s, "executable:") }

  predicate DependenciesNamed(deps: seq<string>) { forall k | 0 <= k < |deps| :: DependencyName(deps[k]) }

  /** The checks of one row before its aliases are followed, in order. */
  function LocalError(tools: Tools, profiles: set<string>, name: string, row: Row): Option<LoadError> {
    if Status(row) !in {"active", "retired_fixed_skill", "disabled"} then Some(LifecycleInvalid)
    else if row.effect !in {"read", "verify", "create", "write", "update", "execute"} then Some(EffectInvalid)
    else if row.profile.None? || row.profile.value !in profiles then Some(ProfileMissing)
    else if row.id != Some(name) || row.binding.NoBinding? || row.binding.kind !in {"method", "delivery", "alias"} then
      Some(BindingInvalid)
    else if IsAlias(row) && (row.binding.target.None? || row.binding.target.value !in tools) then Some(AliasMissing)
    else if row.binding.kind == "method" && (row.binding.target.None? || !MethodName(row.binding.target.value)) then
      Some(MethodBindingInvalid)
    else if !DependenciesNamed(row.required) || !DependenciesNamed(row.optional) then Some(DependencyInvalid)
    else None
  }

  /** The checks of one row, in the order they are made. */
  ghost predicate Passes(tools: Tools, profiles: set<string>, name: string, row: Row, check: LoadError) {
    match check
    case LifecycleInvalid =>
      row.status.None? || row.status.value in {"active", "retired_fixed_skill", "disabled"}
    case EffectInvalid => row.effect in {"read", "verify", "create", "write", "update", "execute"}
    case ProfileMissing => row.profile.Some? && row.profile.value in profiles
    case BindingInvalid =>
      row.id == Some(name) && row.binding.Binding? && row.binding.kind in {"method", "delivery", "alias"}
    case AliasMissing =>
      row.binding.Binding? && row.binding.kind == "alias" ==>
        row.binding.target.Some? && row.binding.target.value in tools
    case MethodBindingInvalid =>
      row.binding.Binding? && row.binding.kind == "method" ==>
        row.binding.target.Some? && MethodName(row.binding.target.value)
    case DependencyInvalid =>
      && (forall k | 0 <= k < |row.required| :: DependencyName(row.required[k]))
      && (forall k | 0 <= k < |row.optional| :: DependencyName(row.optional[k]))
    case AliasCycle => true
    case KeyMissing => true
  }

  const CHECKS := [LifecycleInvalid, EffectInvalid, ProfileMissing, BindingInvalid, AliasMissing,
                   MethodBindingInvalid, DependencyInvalid]

  ghost predicate PassesUpTo(tools: Tools, profiles: set<string>, name: string, row: Row, n: nat)
    requires n <= |CHECKS|
  {
    forall k | 0 <= k < n :: Passes(tools, profiles, name, row, CHECKS[k])
  }

  /** The local error is the first check that fails, and none exactly when all pass. */
  lemma LocalTheorem(tools: Tools, profiles: set<string>, name: string, row: Row, n: nat)
    requires n < |CHECKS|
    ensures LocalError(tools, profiles, name, row) == Some(CHECKS[n]) <==>
            PassesUpTo(tools, profiles, name, row, n) && !Passes(tools, profiles, name, row, CHECKS[n])
    ensures LocalError(tools, profiles, name, row).None? <==> PassesUpTo(tools, profiles, name, row, |CHECKS|)
  {
    assert CHECKS[0] == LifecycleInvalid && CHECKS[1] == EffectInvalid && CHECKS[2] == ProfileMissing;
    assert CHECKS[3] == BindingInvalid && CHECKS[4] == AliasMissing;
    assert CHECKS[5] == MethodBindingInvalid && CHECKS[6] == DependencyInvalid;
  }

  /** A method binding is "_action_" and at least one word character. */
  lemma MethodNameTheorem(s: string)
    ensures MethodName(s) <==> exists rest: string ::
      s == "_action_" + rest && rest != "" && forall k | 0 <= k < |rest| :: WordChar(rest[k])
  {
    if MethodName(s) {
      var rest := s[8..];
      assert s == "_action_" + rest;
    }
    if rest: string :| s == "_action_" + rest && rest != "" && forall k | 0 <= k < |rest| :: WordChar(rest[k]) {
      assert s[..8] == "_action_";
      forall k | 8 <= k < |s| ensures WordChar(s[k]) { assert s[k] == rest[k - 8]; }
    }
  }

  /** A dependency is "python:" or "executable:" and at least one name character. */
  lemma DependencyNameTheorem(s: string)
    ensures DependencyName(s) <==> exists kind: string, rest: string ::
      && kind in {"python:", "executable:"} && s == kind + rest
      && rest != "" && forall k | 0 <= k < |rest| :: NameChar(rest[k])
  {
    NamedSplits(s, "python:");
    NamedSplits(s, "executable:");
  }

  lemma NamedSplits(s: string, kind: string)
    ensures Named(s, kind) <==> exists rest: string ::
      s == kind + rest && rest != "" && forall k | 0 <= k < |rest| :: NameChar(rest[k])
  {
    if Named(s, kind) {
      var rest := s[|kind|..];
      assert s == kind + rest;
    }
    if rest: string :| s == kind + rest && rest != "" && forall k | 0 <= k < |rest| :: NameChar(rest[k]) {
      assert s[..|kind|] == kind;
      forall k | |kind| <= k < |s| ensures NameChar(s[k]) { assert s[k] == rest[k - |kind|]; }
    }
  }

  // ---------- Alias chains ----------

  function Next(tools: Tools, name: string): Option<string> {
    if name in tools && IsAlias(tools[name]) then tools[name].binding.target else None
  }

  /** The action k aliases further on, if the chain is that long. */
  function Follow(tools: Tools, name: string, k: nat): Option<string> {
    if k == 0 then Some(name)
    else
      var before := Follow(tools, name, k - 1);
      if before.None? then None else Next(tools, before.value)
  }

  predicate Terminal(tools: Tools, name: string) {
    name in tools && tools[name].binding.Binding? && !IsAlias(tools[name])
  }

  /** Following an alias from here needs a row or a field that is not there. */
  predicate Broken(tools: Tools, name: string) { !Terminal(tools, name) && Next(tools, name).None? }

  ghost predicate EndsAt(tools: Tools, name: string, k: nat, canonical: string) {
    Follow(tools, name, k) == Some(canonical) && Terminal(tools, canonical)
  }

  ghost predicate Ends(tools: Tools, name: string) { exists k: nat, c :: EndsAt(tools, name, k, c) }

  ghost predicate RepeatsAt(tools: Tools, name: string, i: nat, j: nat) {
    i < j && Follow(tools, name, i).Some? && Follow(tools, name, i) == Follow(tools, name, j)
  }

  ghost predicate Repeats(tools: Tools, name: string) { exists i: nat, j: nat :: RepeatsAt(tools, name, i, j) }

  ghost predicate BreaksAt(tools: Tools, name: string, k: nat) {
    Follow(tools, name, k).Some? && Broken(tools, Follow(tools, name, k).value)
  }

  ghost predicate Breaks(tools: Tools, name: string) { exists k: nat :: BreaksAt(tools, name, k) }

  datatype Walk = Reached(canonical: string) | Cycle | Missing

  /** The outcome of a walk says exactly which of three kinds of chain this is. */
  ghost predicate WalkIs(tools: Tools, name: string, w: Walk) {
    match w
    case Reached(c) => (exists k: nat :: EndsAt(tools, name, k, c)) && !Repeats(tools, name) && !Breaks(tools, name)
    case Cycle => Repeats(tools, name) && !Ends(tools, name) && !Breaks(tools, name)
    case Missing => Breaks(tools, name) && !Ends(tools, name) && !Repeats(tools, name)
  }

  lemma {:induction false} FollowOn(tools: Tools, name: string, i: nat, k: nat)
    requires Follow(tools, name, i).Some?
    ensures Follow(tools, name, i + k) == Follow(tools, Follow(tools, name, i).value, k)
  {
    if k > 0 { FollowOn(tools, name, i, k - 1); }
  }

  lemma {:induction false} FollowStops(tools: Tools, name: string, i: nat, j: nat)
    requires i < j && Follow(tools, name, i).Some? && Next(tools, Follow(tools, name, i).value).None?
    ensures Follow(tools, name, j).None?
  {
    if j > i + 1 { FollowStops(tools, name, i, j - 1); }
  }

  lemma {:induction false} FollowEarlier(tools: Tools, name: string, i: nat, j: nat)
    requires i <= j && Follow(tools, name, j).Some?
    ensures Follow(tools, name, i).Some?
  {
    if i < j { FollowEarlier(tools, name, i, j - 1); }
  }

  /** A chain stops in at most one place. */
  lemma StopsOnce(tools: Tools, name: string, i: nat, j: nat)
    requires Follow(tools, name, i).Some? && Next(tools, Follow(tools, name, i).value).None?
    requires Follow(tools, name, j).Some? && Next(tools, Follow(tools, name, j).value).None?
    ensures i == j
  {
    if i < j { FollowStops(tools, name, i, j); }
    if j < i { FollowStops(tools, name, j, i); }
  }

  /** A chain that repeats goes on for ever. */
  lemma {:induction false} RepeatsForever(tools: Tools, name: string, i: nat, j: nat, k: nat)
    requires RepeatsAt(tools, name, i, j)
    ensures Follow(tools, name, k).Some?
    decreases k
  {
    if k <= j {
      FollowEarlier(tools, name, k, j);
    } else {
      var d := k - j;
      FollowOn(tools, name, i, d);
      FollowOn(tools, name, j, d);
      RepeatsForever(tools, name, i, j, i + d);
    }
  }

  lemma RepeatsNeverStops(tools: Tools, name: string, k: nat)
    requires Repeats(tools, name) && Follow(tools, name, k).Some?
    ensures Next(tools, Follow(tools, name, k).value).Some?
  {
    var i: nat, j: nat :| RepeatsAt(tools, name, i, j);
    RepeatsForever(tools, name, i, j, k + 1);
  }

  /** The three kinds exclude each other. */
  lemma KindsExclude(tools: Tools, name: string)
    ensures !(Ends(tools, name) && Repeats(tools, name))
    ensures !(Breaks(tools, name) && Repeats(tools, name))
    ensures !(Ends(tools, name) && Breaks(tools, name))
  {
    if Ends(tools, name) {
      var k: nat, c :| EndsAt(tools, name, k, c);
      if Repeats(tools, name) { RepeatsNeverStops(tools, name, k); }
      if Breaks(tools, name) {
        var m: nat :| BreaksAt(tools, name, m);
        StopsOnce(tools, name, k, m);
      }
    }
    if Breaks(tools, name) {
      var m: nat :| BreaksAt(tools, name, m);
      if Repeats(tools, name) { RepeatsNeverStops(tools, name, m); }
    }
  }

  lemma CanonicalUnique(tools: Tools, name: string, i: nat, a: string, j: nat, b: string)
    requires EndsAt(tools, name, i, a) && EndsAt(tools, name, j, b)
    ensures i == j && a == b
  {
    StopsOnce(tools, name, i, j);
  }

  lemma WalkEnds(tools: Tools, name: string, k: nat, c: string)
    requires EndsAt(tools, name, k, c)
    ensures WalkIs(tools, name, Reached(c))
  {
    KindsExclude(tools, name);
  }

  lemma WalkRepeats(tools: Tools, name: string, i: nat, j: nat)
    requires RepeatsAt(tools, name, i, j)
    ensures WalkIs(tools, name, Cycle)
  {
    KindsExclude(tools, name);
  }

  lemma WalkBreaks(tools: Tools, name: string, k: nat)
    requires BreaksAt(tools, name, k)
    ensures WalkIs(tools, name, Missing)
  {
    KindsExclude(tools, name);
  }

  /** The visited names are those of the chain up to n, all of them rows but perhaps the last. */
  ghost predicate VisitedUpTo(tools: Tools, name: string, n: nat, visited: set<string>) {
    && (forall k: nat | k <= n :: Follow(tools, name, k).Some? && Follow(tools, name, k).value in visited)
    && (forall x | x in visited :: VisitedAt(tools, name, n, x))
  }

  ghost predicate VisitedAt(tools: Tools, name: string, n: nat, x: string) {
    exists k: nat :: k <= n && Follow(tools, name, k) == Some(x)
  }

  lemma VisitOne(tools: Tools, name: string, n: nat, visited: set<string>, target: string)
    requires VisitedUpTo(tools, name, n, visited) && Follow(tools, name, n + 1) == Some(target)
    ensures VisitedUpTo(tools, name, n + 1, visited + {target})
  {
    forall x | x in visited + {target} ensures VisitedAt(tools, name, n + 1, x) {
      if x in visited {
        assert VisitedAt(tools, name, n, x);
        var k: nat :| k <= n && Follow(tools, name, k) == Some(x);
        assert k <= n + 1;
      }
    }
    forall k: nat | k <= n + 1
      ensures Follow(tools, name, k).Some? && Follow(tools, name, k).value in visited + {target}
    {
      assert k <= n || k == n + 1;
    }
  }

  lemma VisitShrinks(tools: Tools, visited: set<string>, target: string)
    requires target !in visited
    ensures target in tools.Keys ==> |tools.Keys - (visited + {target})| < |tools.Keys - visited|
    ensures target !in tools.Keys ==> |tools.Keys - (visited + {target})| == |tools.Keys - visited|
  {
    if target in tools.Keys {
      SmallerSet(tools.Keys - (visited + {target}), tools.Keys - visited);
    } else {
      assert tools.Keys - (visited + {target}) == tools.Keys - visited;
    }
  }

  /** The loader's walk: a growing visited set stops it at a repeat. */
  method FollowAliases(tools: Tools, name: string) returns (w: Walk)
    ensures WalkIs(tools, name, w)
  {
    var visited := {name};
    var current := name;
    ghost var n: nat := 0;
    assert Follow(tools, name, 0) == Some(name);
    assert VisitedAt(tools, name, 0, name);
    while true
      invariant Follow(tools, name, n) == Some(current)
      invariant VisitedUpTo(tools, name, n, visited)
      decreases |tools.Keys - visited|, if current in tools.Keys then 1 else 0
    {
      if current !in tools || tools[current].binding.NoBinding? {
        WalkBreaks(tools, name, n);
        return Missing;
      }
      if tools[current].binding.kind != "alias" {
        WalkEnds(tools, name, n, current);
        return Reached(current);
      }
      if tools[current].binding.target.None? {
        WalkBreaks(tools, name, n);
        return Missing;
      }
      var target := tools[current].binding.target.value;
      assert Follow(tools, name, n + 1) == Some(target);
      if target in visited {
        assert VisitedAt(tools, name, n, target);
        ghost var k: nat :| k <= n && Follow(tools, name, k) == Some(target);
        WalkRepeats(tools, name, k, n + 1);
        return Cycle;
      }
      VisitOne(tools, name, n, visited, target);
      VisitShrinks(tools, visited, target);
      visited := visited + {target};
      current := target;
      n := n + 1;
    }
  }

  lemma SmallerSet(a: set<string>, b: set<string>)
    requires a < b
    ensures |a| < |b|
  {
    assert b == a + (b - a);
    assert b - a != {};
  }

  ghost predicate Lineage(tools: Tools, name: string, lineage: seq<string>, canonical: string) {
    && Follow(tools, name, |lineage|) == Some(canonical)
    && (forall k: nat | k < |lineage| :: Follow(tools, name, k) == Some(lineage[k]))
  }

  lemma LineageGrows(tools: Tools, name: string, lineage: seq<string>, canonical: string, target: string)
    requires Lineage(tools, name, lineage, canonical) && Next(tools, canonical) == Some(target)
    ensures Lineage(tools, name, lineage + [canonical], target)
    ensures forall k: nat | k <= |lineage| && (lineage + [canonical])[k] == target ::
            RepeatsAt(tools, name, k, |lineage| + 1)
  {
    var longer := lineage + [canonical];
    assert Follow(tools, name, |lineage| + 1) == Some(target);
    forall k: nat | k < |longer| ensures Follow(tools, name, k) == Some(longer[k]) {
      assert k < |lineage| || k == |lineage|;
    }
  }

  ghost function Elements(xs: seq<string>): set<string> { set x | x in xs }

  lemma LineageShrinks(tools: Tools, lineage: seq<string>, x: string)
    requires x !in lineage && x in tools.Keys
    ensures |tools.Keys - Elements(lineage + [x])| < |tools.Keys - Elements(lineage)|
  {
    assert x in Elements(lineage + [x]) && x !in Elements(lineage);
    SmallerSet(tools.Keys - Elements(lineage + [x]), tools.Keys - Elements(lineage));
  }

  /** The coverage report's walk: a lineage list stops it at a repeat. */
  method CanonicalAction(tools: Tools, name: string) returns (w: Walk)
    ensures WalkIs(tools, name, w)
  {
    var lineage: seq<string> := [];
    var canonical := name;
    while true
      invariant canonical !in lineage && Lineage(tools, name, lineage, canonical)
      decreases |tools.Keys - Elements(lineage)|
    {
      if canonical !in tools || tools[canonical].binding.NoBinding? {
        WalkBreaks(tools, name, |lineage|);
        return Missing;
      }
      if tools[canonical].binding.kind != "alias" {
        WalkEnds(tools, name, |lineage|, canonical);
        return Reached(canonical);
      }
      if tools[canonical].binding.target.None? {
        WalkBreaks(tools, name, |lineage|);
        return Missing;
      }
      var target := tools[canonical].binding.target.value;
      LineageGrows(tools, name, lineage, canonical, target);
      LineageShrinks(tools, lineage, canonical);
      lineage := lineage + [canonical];
      canonical := target;
      if canonical in lineage {
        ghost var k: nat :| k < |lineage| && lineage[k] == canonical;
        WalkRepeats(tools, name, k, |lineage|);
        return Cycle;
      }
    }
  }

  // ---------- Loading ----------

  ghost predicate RowAccepted(tools: Tools, profiles: set<string>, name: string)
    requires name in tools
  {
    LocalError(tools, profiles, name, tools[name]).None? && Ends(tools, name)
  }

  ghost predicate Accepted(tools: Tools, profiles: set<string>) {
    forall name {:trigger RowAccepted(tools, profiles, name)} | name in tools :: RowAccepted(tools, profiles, name)
  }

  /** The error a row that is not acceptable is reported with: its first failing local check,
      else a cycle exactly when its chain repeats, a missing key exactly when it breaks. */
  ghost predicate ErrorIs(tools: Tools, profiles: set<string>, name: string, e: LoadError)
    requires name in tools
  {
    match LocalError(tools, profiles, name, tools[name])
    case Some(local) => e == local
    case None =>
      && (e == AliasCycle <==> Repeats(tools, name))
      && (e == KeyMissing <==> Breaks(tools, name))
      && (Repeats(tools, name) || Breaks(tools, name))
  }

  method LoadRow(tools: Tools, profiles: set<string>, name: string) returns (e: Option<LoadError>)
    requires name in tools
    ensures e.None? <==> RowAccepted(tools, profiles, name)
    ensures e.Some? ==> ErrorIs(tools, profiles, name, e.value)
  {
    var local := LocalError(tools, profiles, name, tools[name]);
    if local.Some? { return local; }
    KindsExclude(tools, name);
    var w := FollowAliases(tools, name);
    match w {
      case Reached(c) =>
        ghost var k: nat :| EndsAt(tools, name, k, c);
        return None;
      case Cycle => return Some(AliasCycle);
      case Missing => return Some(KeyMissing);
    }
  }

  /** `order` lists the catalog's rows as they stand in the file. */
  ghost predicate Lists(order: seq<string>, tools: Tools) {
    && (forall k | 0 <= k < |order| :: order[k] in tools)
    && (forall name | name in tools :: exists k :: 0 <= k < |order| && order[k] == name)
  }

  ghost predicate AcceptedUpTo(tools: Tools, profiles: set<string>, order: seq<string>, n: nat)
    requires Lists(order, tools) && n <= |order|
  {
    forall i | 0 <= i < n :: RowAccepted(tools, profiles, order[i])
  }

  lemma AllRowsAccepted(tools: Tools, order: seq<string>, profiles: set<string>)
    requires Lists(order, tools) && AcceptedUpTo(tools, profiles, order, |order|)
    ensures Accepted(tools, profiles)
  {
    forall name | name in tools ensures RowAccepted(tools, profiles, name) {
      var i :| 0 <= i < |order| && order[i] == name;
    }
  }

  ghost predicate FirstBad(tools: Tools, profiles: set<string>, order: seq<string>, k: nat)
    requires Lists(order, tools)
  {
    k < |order| && AcceptedUpTo(tools, profiles, order, k) && !RowAccepted(tools, profiles, order[k])
  }

  lemma AcceptOne(tools: Tools, profiles: set<string>, order: seq<string>, k: nat)
    requires Lists(order, tools) && k < |order| && AcceptedUpTo(tools, profiles, order, k)
    ensures if RowAccepted(tools, profiles, order[k]) then AcceptedUpTo(tools, profiles, order, k + 1)
            else FirstBad(tools, profiles, order, k) && !Accepted(tools, profiles)
  {
  }

  /** Reports the first row that is not acceptable, with its error. */
  method Load(tools: Tools, order: seq<string>, profiles: set<string>) returns (r: Option<(nat, LoadError)>)
    requires Lists(order, tools)
    ensures r.None? <==> Accepted(tools, profiles)
    ensures r.Some? ==> FirstBad(tools, profiles, order, r.value.0)
    ensures r.Some? ==> ErrorIs(tools, profiles, order[r.value.0], r.value.1)
  {
    var k := 0;
    while k < |order|
      invariant 0 <= k <= |order| && AcceptedUpTo(tools, profiles, order, k)
    {
      AcceptOne(tools, profiles, order, k);
      var e := LoadRow(tools, profiles, order[k]);
      if e.Some? { return Some((k, e.value)); }
      k := k + 1;
    }
    AllRowsAccepted(tools, order, profiles);
    return None;
  }

  // ---------- A KeyError instead of a DictionaryError ----------

  function AliasRow(name: string, target: string): Row {
    Row(Some(name), Binding("alias", Some(target)), None, None, Some(true),
        "read", "never", "small", Some("small"), [], [])
  }

  /** An alias of an alias whose own target is missing. */
  function Dangling(): Tools { map["a" := AliasRow("a", "b"), "b" := AliasRow("b", "c")] }

  /** Row "a" passes its own checks and is reported with a missing key, before row "b", whose
      check would have named the missing target, is reached. */
  lemma DanglingAliasIsKeyMissing(e: LoadError)
    ensures LocalError(Dangling(), {"small"}, "a", Dangling()["a"]).None?
    ensures LocalError(Dangling(), {"small"}, "b", Dangling()["b"]) == Some(AliasMissing)
    ensures !RowAccepted(Dangling(), {"small"}, "a")
    ensures ErrorIs(Dangling(), {"small"}, "a", e) <==> e == KeyMissing
  {
    var tools := Dangling();
    assert Follow(tools, "a", 0) == Some("a");
    assert Follow(tools, "a", 1) == Some("b");
    assert Follow(tools, "a", 2) == Some("c");
    assert BreaksAt(tools, "a", 2);
    KindsExclude(tools, "a");
  }

  ghost predicate Grounded(tools: Tools) {
    forall name {:trigger Ends(tools, name)} | name in tools :: Ends(tools, name)
  }

  /** In an accepted dictionary every chain reaches an action that is no alias, after fewer
      steps than there are rows. */
  lemma AcceptedTheorem(tools: Tools, profiles: set<string>, name: string)
    requires Accepted(tools, profiles) && name in tools
    ensures Ends(tools, name) && !Repeats(tools, name) && !Breaks(tools, name)
    ensures Terminal(tools, Canonical(tools, name)) && Steps(tools, name) < |tools|
    ensures Grounded(tools)
  {
    assert RowAccepted(tools, profiles, name);
    KindsExclude(tools, name);
    forall x | x in tools ensures Ends(tools, x) { assert RowAccepted(tools, profiles, x); }
    ChainIsShort(tools, name);
  }

  ghost function Visited(tools: Tools, name: string, n: nat): set<string>
    requires forall k: nat | k <= n :: Follow(tools, name, k).Some?
  {
    if n == 0 then {name} else Visited(tools, name, n - 1) + {Follow(tools, name, n).value}
  }

  lemma {:induction false} VisitedHolds(tools: Tools, name: string, n: nat, x: string)
    requires forall k: nat | k <= n :: Follow(tools, name, k).Some?
    ensures x in Visited(tools, name, n) <==> VisitedAt(tools, name, n, x)
  {
    if n == 0 {
      assert Follow(tools, name, 0) == Some(name);
    } else {
      VisitedHolds(tools, name, n - 1, x);
      if VisitedAt(tools, name, n - 1, x) {
        var k: nat :| k <= n - 1 && Follow(tools, name, k) == Some(x);
        assert k <= n;
      }
      if VisitedAt(tools, name, n, x) {
        var k: nat :| k <= n && Follow(tools, name, k) == Some(x);
        assert k <= n - 1 || x == Follow(tools, name, n).value;
      }
    }
  }

  lemma {:induction false} VisitedSize(tools: Tools, name: string, n: nat)
    requires (forall k: nat | k <= n :: Follow(tools, name, k).Some?) && !Repeats(tools, name)
    ensures |Visited(tools, name, n)| == n + 1
  {
    if n > 0 {
      VisitedSize(tools, name, n - 1);
      var x := Follow(tools, name, n).value;
      VisitedHolds(tools, name, n - 1, x);
      if VisitedAt(tools, name, n - 1, x) { ComingBack(tools, name, n, x); }
    }
  }

  lemma ComingBack(tools: Tools, name: string, n: nat, x: string)
    requires n > 0 && VisitedAt(tools, name, n - 1, x) && Follow(tools, name, n) == Some(x)
    ensures Repeats(tools, name)
  {
    var k: nat :| k <= n - 1 && Follow(tools, name, k) == Some(x);
    assert RepeatsAt(tools, name, k, n);
  }

  lemma ChainIsShort(tools: Tools, name: string)
    requires name in tools && Ends(tools, name) && !Repeats(tools, name)
    ensures Steps(tools, name) < |tools|
  {
    var n, c := Steps(tools, name), Canonical(tools, name);
    forall k: nat | k <= n ensures Follow(tools, name, k).Some? { FollowEarlier(tools, name, k, n); }
    VisitedSize(tools, name, n);
    forall x | x in Visited(tools, name, n) ensures x in tools.Keys {
      VisitedHolds(tools, name, n, x);
      var k: nat :| k <= n && Follow(tools, name, k) == Some(x);
      if k < n { FollowEarlier(tools, name, k + 1, n); }
    }
    SubsetIsSmaller(Visited(tools, name, n), tools.Keys);
    assert |tools.Keys| == |tools|;
  }

  lemma SubsetIsSmaller(a: set<string>, b: set<string>)
    requires a <= b
    ensures |a| <= |b|
  {
    assert b == a + (b - a);
  }

  ghost function Steps(tools: Tools, name: string): (k: nat)
    requires Ends(tools, name)
    ensures exists c :: EndsAt(tools, name, k, c)
  {
    var k: nat, c :| EndsAt(tools, name, k, c);
    k
  }

  ghost function Canonical(tools: Tools, name: string): (c: string)
    requires Ends(tools, name)
    ensures EndsAt(tools, name, Steps(tools, name), c)
  {
    var c :| EndsAt(tools, name, Steps(tools, name), c);
    c
  }

  /** An alias is one step further from the same canonical action as its target. */
  lemma AliasStep(tools: Tools, name: string)
    requires name in tools && IsAlias(tools[name]) && Ends(tools, name)
    ensures Next(tools, name).Some? && Ends(tools, Next(tools, name).value) && Next(tools, name).value in tools
    ensures Steps(tools, name) == Steps(tools, Next(tools, name).value) + 1
    ensures Canonical(tools, name) == Canonical(tools, Next(tools, name).value)
  {
    var k, c := Steps(tools, name), Canonical(tools, name);
    assert k > 0;
    FollowEarlier(tools, name, 1, k);
    assert Follow(tools, name, 1) == Next(tools, Follow(tools, name, 0).value);
    var target := Next(tools, name).value;
    FollowOn(tools, name, 1, k - 1);
    assert EndsAt(tools, target, k - 1, c);
    CanonicalUnique(tools, target, k - 1, c, Steps(tools, target), Canonical(tools, target));
    assert target in tools by {
      if k == 1 { assert target == c; } else {
        FollowEarlier(tools, target, 1, k - 1);
        assert Follow(tools, target, 1) == Next(tools, Follow(tools, target, 0).value);
      }
    }
  }

  lemma NonAliasStep(tools: Tools, name: string)
    requires name in tools && !IsAlias(tools[name]) && Ends(tools, name)
    ensures Steps(tools, name) == 0 && Canonical(tools, name) == name
  {
    var k := Steps(tools, name);
    assert Next(tools, Follow(tools, name, 0).value).None?;
    StopsOnce(tools, name, 0, k);
  }

  // ---------- Readiness ----------

  /** A running host: which actions its manifest can execute, which dependencies it supplies. */
  datatype Host = Host(executable: string -> bool, supplies: string -> bool)

  function MissingDependencies(available: string -> bool, host: Option<Host>, deps: seq<string>): seq<string> {
    if deps == [] then []
    else
      var supplied := StartsWith(deps[0], "executable:") && host.Some? && host.value.supplies(deps[0]);
      var there := supplied || available(deps[0]);
      (if there then [] else ["missing:" + deps[0]]) + MissingDependencies(available, host, deps[1..])
  }

  function OwnReasons(row: Row): seq<string> {
    (if Status(row) != "active" then ["lifecycle:" + Status(row)] else [])
    + (if row.risk == Some("A5") then ["disabled_by_default"] else [])
  }

  function LateReasons(available: string -> bool, host: Option<Host>, name: string, row: Row): seq<string> {
    (if row.implemented != Some(true) then ["implementation_unavailable"] else [])
    + (if host.Some? && !host.value.executable(name) then ["execution_binding_unavailable"] else [])
    + MissingDependencies(available, host, row.required)
  }

  /** Why an action is not ready; every alias also has its target's reasons. */
  function Reasons(tools: Tools, available: string -> bool, host: Option<Host>, name: string): seq<string>
    requires Grounded(tools)
    decreases if name in tools then Steps(tools, name) + 1 else 0
  {
    if name !in tools then ["not_in_dictionary"]
    else
      var row := tools[name];
      OwnReasons(row)
      + (if IsAlias(row) then
           AliasStep(tools, name);
           Reasons(tools, available, host, row.binding.target.value)
         else [])
      + LateReasons(available, host, name, row)
  }

  /** What keeps an action from being ready in itself. */
  ghost predicate RowReason(available: string -> bool, host: Option<Host>, name: string, row: Row, r: string) {
    || (row.status.Some? && row.status.value != "active" && r == "lifecycle:" + row.status.value)
    || (row.risk == Some("A5") && r == "disabled_by_default")
    || (row.implemented != Some(true) && r == "implementation_unavailable")
    || (host.Some? && !host.value.executable(name) && r == "execution_binding_unavailable")
    || (exists d :: d in row.required && Lacks(available, host, d) && r == "missing:" + d)
  }

  /** A dependency that is not available and is no executable that the host supplies. */
  predicate Lacks(available: string -> bool, host: Option<Host>, d: string) {
    !available(d) && !(StartsWith(d, "executable:") && host.Some? && host.value.supplies(d))
  }

  lemma {:induction false} MissingExactly(available: string -> bool, host: Option<Host>, deps: seq<string>, r: string)
    ensures r in MissingDependencies(available, host, deps) <==>
            exists d :: d in deps && Lacks(available, host, d) && r == "missing:" + d
  {
    if deps != [] {
      var rest := deps[1..];
      MissingExactly(available, host, rest, r);
      assert deps == [deps[0]] + rest;
      if d :| d in rest && Lacks(available, host, d) && r == "missing:" + d { assert d in deps; }
      if d :| d in deps && Lacks(available, host, d) && r == "missing:" + d { assert d == deps[0] || d in rest; }
      if Lacks(available, host, deps[0]) && r == "missing:" + deps[0] { assert deps[0] in deps; }
    }
  }

  lemma RowReasons(available: string -> bool, host: Option<Host>, name: string, row: Row, r: string)
    ensures r in OwnReasons(row) || r in LateReasons(available, host, name, row) <==>
            RowReason(available, host, name, row, r)
  {
    MissingExactly(available, host, row.required, r);
  }

  /** What is wrong with the k-th action of a chain. */
  ghost predicate ReasonAt(
      tools: Tools, available: string -> bool, host: Option<Host>, name: string, k: nat, r: string) {
    var x := Follow(tools, name, k);
    x.Some? && x.value in tools && RowReason(available, host, x.value, tools[x.value], r)
  }

  /** The reasons of an action are exactly what is wrong with the actions along its chain. */
  lemma {:induction false} ReasonsTheorem(
      tools: Tools, available: string -> bool, host: Option<Host>, name: string, r: string)
    requires Grounded(tools) && name in tools
    ensures r in Reasons(tools, available, host, name) <==>
            exists k: nat :: ReasonAt(tools, available, host, name, k, r)
    decreases (assert Ends(tools, name); Steps(tools, name))
  {
    assert Ends(tools, name);
    var row := tools[name];
    RowReasons(available, host, name, row, r);
    assert Follow(tools, name, 0) == Some(name);
    assert ReasonAt(tools, available, host, name, 0, r) <==> RowReason(available, host, name, row, r);
    if IsAlias(row) {
      AliasStep(tools, name);
      var target := row.binding.target.value;
      ReasonsTheorem(tools, available, host, target, r);
      ReasonsShift(tools, available, host, name, target, r);
    } else {
      forall k: nat | k > 0 ensures !ReasonAt(tools, available, host, name, k, r) { FollowStops(tools, name, 0, k); }
    }
  }

  lemma ReasonsShift(
      tools: Tools, available: string -> bool, host: Option<Host>, name: string, target: string, r: string)
    requires Next(tools, name) == Some(target)
    ensures (exists k: nat :: ReasonAt(tools, available, host, name, k, r)) <==>
            || ReasonAt(tools, available, host, name, 0, r)
            || (exists k: nat :: ReasonAt(tools, available, host, target, k, r))
  {
    assert Follow(tools, name, 0) == Some(name);
    assert Follow(tools, name, 1) == Some(target);
    if k: nat :| ReasonAt(tools, available, host, name, k, r) {
      if k > 0 {
        FollowOn(tools, name, 1, k - 1);
        assert ReasonAt(tools, available, host, target, k - 1, r);
      }
    }
    if k: nat :| ReasonAt(tools, available, host, target, k, r) {
      FollowOn(tools, name, 1, k);
      assert ReasonAt(tools, available, host, name, 1 + k, r);
    }
  }

  /** For an action that is no alias: exactly its own reasons. */
  lemma OwnReasonsTheorem(tools: Tools, available: string -> bool, host: Option<Host>, name: string, r: string)
    requires Grounded(tools) && name in tools && !IsAlias(tools[name])
    ensures r in Reasons(tools, available, host, name) <==> RowReason(available, host, name, tools[name], r)
  {
    RowReasons(available, host, name, tools[name], r);
  }

  /** Active, not disabled by default, implemented, executable by the host, nothing missing. */
  ghost predicate Fit(available: string -> bool, host: Option<Host>, name: string, row: Row) {
    && (row.status.None? || row.status.value == "active") && row.risk != Some("A5")
    && row.implemented == Some(true) && (host.Some? ==> host.value.executable(name))
    && (forall d | d in row.required :: !Lacks(available, host, d))
  }

  lemma FitExactly(available: string -> bool, host: Option<Host>, name: string, row: Row)
    ensures Fit(available, host, name, row) <==> forall r :: !RowReason(available, host, name, row, r)
  {
    if forall r :: !RowReason(available, host, name, row, r) {
      assert !RowReason(available, host, name, row, "disabled_by_default");
      assert !RowReason(available, host, name, row, "implementation_unavailable");
      assert !RowReason(available, host, name, row, "execution_binding_unavailable");
      assert row.status.Some? ==> !RowReason(available, host, name, row, "lifecycle:" + row.status.value);
      forall d | d in row.required ensures !Lacks(available, host, d) {
        assert !RowReason(available, host, name, row, "missing:" + d);
      }
    }
  }

  ghost predicate FitAlong(tools: Tools, available: string -> bool, host: Option<Host>, name: string) {
    forall k: nat | Follow(tools, name, k).Some? ::
      Follow(tools, name, k).value in tools
      && Fit(available, host, Follow(tools, name, k).value, tools[Follow(tools, name, k).value])
  }

  /** An action is ready exactly when it is in the dictionary and every action along its chain
      is fit. */
  lemma ReadyTheorem(tools: Tools, available: string -> bool, host: Option<Host>, name: string)
    requires Grounded(tools)
    ensures Reasons(tools, available, host, name) == [] <==> name in tools && FitAlong(tools, available, host, name)
  {
    if name in tools {
      var reasons := Reasons(tools, available, host, name);
      if reasons == [] {
        forall k: nat | Follow(tools, name, k).Some?
          ensures Follow(tools, name, k).value in tools
          ensures Fit(available, host, Follow(tools, name, k).value, tools[Follow(tools, name, k).value])
        {
          ChainInTools(tools, name, k);
          var x := Follow(tools, name, k).value;
          forall r ensures !RowReason(available, host, x, tools[x], r) {
            ReasonsTheorem(tools, available, host, name, r);
            assert !ReasonAt(tools, available, host, name, k, r);
          }
          FitExactly(available, host, x, tools[x]);
        }
      } else if FitAlong(tools, available, host, name) {
        ReasonsTheorem(tools, available, host, name, reasons[0]);
        var k: nat :| ReasonAt(tools, available, host, name, k, reasons[0]);
        var x := Follow(tools, name, k).value;
        FitExactly(available, host, x, tools[x]);
      }
    }
  }

  /** A chain that ends never leaves the dictionary. */
  lemma ChainInTools(tools: Tools, name: string, k: nat)
    requires Grounded(tools) && name in tools && Follow(tools, name, k).Some?
    ensures Follow(tools, name, k).value in tools
  {
    assert Ends(tools, name);
    var n, c: string :| EndsAt(tools, name, n, c);
    if k < n {
      FollowEarlier(tools, name, k + 1, n);
    } else if k > n {
      FollowStops(tools, name, n, k);
    }
  }

  // ---------- Contract drift ----------

  datatype Field =
    | EffectField | RetryField | RequiredField | OptionalField | BudgetField
    | RiskField | ImplementedField | StatusField

  const CONTRACT := [EffectField, RetryField, RequiredField, OptionalField, BudgetField]
  const RUNTIME := [RiskField, ImplementedField, StatusField]

  predicate Agree(f: Field, a: Row, b: Row) {
    match f
    case EffectField => a.effect == b.effect
    case RetryField => a.retry == b.retry
    case RequiredField => a.required == b.required
    case OptionalField => a.optional == b.optional
    case BudgetField => a.budget == b.budget && a.profile == b.profile
    case RiskField => a.risk == b.risk
    case ImplementedField => a.implemented == b.implemented
    case StatusField => Status(a) == Status(b)
  }

  ghost predicate AgreeOn(fields: seq<Field>, a: Row, b: Row) { forall f | f in fields :: Agree(f, a, b) }

  /** Every alias row agrees with the row it names. */
  ghost predicate NoDrift(tools: Tools, fields: seq<Field>) {
    forall name {:trigger Next(tools, name)}
      | name in tools && IsAlias(tools[name]) && Next(tools, name).Some? && Next(tools, name).value in tools ::
      AgreeOn(fields, tools[name], tools[Next(tools, name).value])
  }

  ghost predicate DriftsAt(tools: Tools, name: string, f: Field) {
    && name in tools && Next(tools, name).Some? && Next(tools, name).value in tools
    && !Agree(f, tools[name], tools[Next(tools, name).value])
  }

  lemma NoDriftListed(tools: Tools, order: seq<string>, fields: seq<Field>)
    requires Lists(order, tools)
    requires forall i | 0 <= i < |order| :: AgreesWithNext(tools, fields, order[i])
    ensures NoDrift(tools, fields)
  {
    forall name | name in tools && IsAlias(tools[name]) && Next(tools, name).Some? && Next(tools, name).value in tools
      ensures AgreeOn(fields, tools[name], tools[Next(tools, name).value])
    {
      var i :| 0 <= i < |order| && order[i] == name;
      assert AgreesWithNext(tools, fields, order[i]);
    }
  }

  ghost predicate AgreesWithNext(tools: Tools, fields: seq<Field>, name: string) {
    name in tools && Next(tools, name).Some? && Next(tools, name).value in tools ==>
      AgreeOn(fields, tools[name], tools[Next(tools, name).value])
  }

  method Disagreement(fields: seq<Field>, row: Row, target: Row) returns (f: Option<Field>)
    ensures f.None? <==> AgreeOn(fields, row, target)
    ensures f.Some? ==> f.value in fields && !Agree(f.value, row, target)
  {
    for j := 0 to |fields|
      invariant forall i | 0 <= i < j :: Agree(fields[i], row, target)
    {
      if !Agree(fields[j], row, target) { return Some(fields[j]); }
    }
    return None;
  }

  method FindDrift(tools: Tools, order: seq<string>) returns (drift: Option<(string, Field)>)
    requires Lists(order, tools) && Grounded(tools)
    ensures drift.None? <==> NoDrift(tools, CONTRACT + RUNTIME)
    ensures drift.Some? ==> DriftsAt(tools, drift.value.0, drift.value.1)
  {
    for k := 0 to |order|
      invariant forall i | 0 <= i < k :: AgreesWithNext(tools, CONTRACT + RUNTIME, order[i])
    {
      var name := order[k];
      var row := tools[name];
      if !IsAlias(row) { continue; }
      assert Ends(tools, name);
      AliasStep(tools, name);
      var f := Disagreement(CONTRACT + RUNTIME, row, tools[row.binding.target.value]);
      if f.Some? { return Some((name, f.value)); }
    }
    NoDriftListed(tools, order, CONTRACT + RUNTIME);
    return None;
  }

  /** Agreement along one alias carries to the end of every chain. */
  lemma {:induction false} AgreesWithCanonical(tools: Tools, fields: seq<Field>, name: string)
    requires Grounded(tools) && NoDrift(tools, fields) && name in tools
    ensures AgreeOn(fields, tools[name], tools[Canonical(tools, name)])
    decreases Steps(tools, name)
  {
    if IsAlias(tools[name]) {
      AliasStep(tools, name);
      AgreesWithCanonical(tools, fields, Next(tools, name).value);
    } else {
      NonAliasStep(tools, name);
    }
  }

  /** The coverage report's comparison of an alias with its canonical action. */
  ghost predicate MetadataVerified(tools: Tools, fields: seq<Field>, name: string)
    requires name in tools && Ends(tools, name)
  {
    AgreeOn(fields, tools[name], tools[Canonical(tools, name)])
  }

  /** Two rows that agree with a third agree with each other. */
  lemma AgreeTogether(fields: seq<Field>, a: Row, b: Row, c: Row)
    requires AgreeOn(fields, a, c) && AgreeOn(fields, b, c)
    ensures AgreeOn(fields, a, b)
  {
    forall f | f in fields ensures Agree(f, a, b) { assert Agree(f, a, c) && Agree(f, b, c); }
  }

  lemma VerifiedStep(tools: Tools, fields: seq<Field>, name: string)
    requires Grounded(tools) && name in tools && IsAlias(tools[name]) && Ends(tools, name)
    requires AllVerified(tools, fields)
    ensures Next(tools, name).Some? && Next(tools, name).value in tools
    ensures AgreeOn(fields, tools[name], tools[Next(tools, name).value])
  {
    AliasStep(tools, name);
    var target := Next(tools, name).value;
    var c := Canonical(tools, name);
    if !IsAlias(tools[target]) { NonAliasStep(tools, target); }
    assert AgreeOn(fields, tools[target], tools[c]);
    AgreeTogether(fields, tools[name], tools[target], tools[c]);
  }

  /** Every alias agrees with its canonical action. */
  ghost predicate AllVerified(tools: Tools, fields: seq<Field>) {
    forall name {:trigger Ends(tools, name)} | name in tools && IsAlias(tools[name]) && Ends(tools, name) ::
      MetadataVerified(tools, fields, name)
  }

  /** Checking every alias against its target is checking it against its canonical action. */
  lemma DriftTheorem(tools: Tools, fields: seq<Field>)
    requires Grounded(tools)
    ensures NoDrift(tools, fields) <==> AllVerified(tools, fields)
  {
    if NoDrift(tools, fields) {
      forall name | name in tools && IsAlias(tools[name]) && Ends(tools, name)
        ensures MetadataVerified(tools, fields, name)
      {
        AgreesWithCanonical(tools, fields, name);
      }
    }
    if AllVerified(tools, fields) {
      forall name | name in tools && IsAlias(tools[name]) && Next(tools, name).Some? && Next(tools, name).value in tools
        ensures AgreeOn(fields, tools[name], tools[Next(tools, name).value])
      {
        assert Ends(tools, name);
        VerifiedStep(tools, fields, name);
      }
    }
  }

  // ---------- Aliases are as ready as what they name ----------

  ghost function ReasonSet(tools: Tools, available: string -> bool, host: Option<Host>, name: string): set<string>
    requires Grounded(tools)
  {
    set r | r in Reasons(tools, available, host, name)
  }

  /** The eight compared fields. */
  lemma AgreeFields(x: Row, y: Row)
    ensures AgreeOn(CONTRACT, x, y) <==>
      && x.effect == y.effect && x.retry == y.retry && x.required == y.required && x.optional == y.optional
      && x.budget == y.budget && x.profile == y.profile
    ensures AgreeOn(CONTRACT + RUNTIME, x, y) <==>
      && AgreeOn(CONTRACT, x, y) && x.risk == y.risk && x.implemented == y.implemented && Status(x) == Status(y)
  {
    var fields := CONTRACT + RUNTIME;
    assert CONTRACT == [EffectField, RetryField, RequiredField, OptionalField, BudgetField];
    assert RUNTIME == [RiskField, ImplementedField, StatusField];
    forall f ensures f in CONTRACT <==> f in {EffectField, RetryField, RequiredField, OptionalField, BudgetField} {}
    assert fields[0] == EffectField && fields[1] == RetryField && fields[2] == RequiredField;
    assert fields[3] == OptionalField && fields[4] == BudgetField && fields[5] == RiskField;
    assert fields[6] == ImplementedField && fields[7] == StatusField;
    if AgreeOn(CONTRACT, x, y) {
      assert Agree(EffectField, x, y) && Agree(RetryField, x, y) && Agree(RequiredField, x, y);
      assert Agree(OptionalField, x, y) && Agree(BudgetField, x, y);
    }
    if AgreeOn(fields, x, y) {
      assert Agree(EffectField, x, y) && Agree(RetryField, x, y) && Agree(RequiredField, x, y);
      assert Agree(OptionalField, x, y) && Agree(BudgetField, x, y);
      assert Agree(RiskField, x, y) && Agree(ImplementedField, x, y) && Agree(StatusField, x, y);
    }
  }

  lemma SameOwnReasons(available: string -> bool, a: string, b: string, x: Row, y: Row)
    requires AgreeOn(CONTRACT + RUNTIME, x, y)
    ensures OwnReasons(x) == OwnReasons(y)
    ensures LateReasons(available, None, a, x) == LateReasons(available, None, b, y)
  {
    AgreeFields(x, y);
  }

  /** Without a host, an alias has exactly its canonical action's reasons. */
  lemma {:induction false} ReadinessTheorem(tools: Tools, available: string -> bool, name: string)
    requires Grounded(tools) && NoDrift(tools, CONTRACT + RUNTIME) && name in tools
    ensures ReasonSet(tools, available, None, name) == ReasonSet(tools, available, None, Canonical(tools, name))
    ensures Reasons(tools, available, None, name) == [] <==>
            Reasons(tools, available, None, Canonical(tools, name)) == []
    decreases Steps(tools, name)
  {
    var row := tools[name];
    if IsAlias(row) {
      AliasStep(tools, name);
      var target := row.binding.target.value;
      ReadinessTheorem(tools, available, target);
      SameOwnReasons(available, name, target, row, tools[target]);
      ContainsOwn(tools, available, target);
    } else {
      NonAliasStep(tools, name);
    }
  }

  lemma ContainsOwn(tools: Tools, available: string -> bool, name: string)
    requires Grounded(tools) && name in tools
    ensures forall r | r in OwnReasons(tools[name]) + LateReasons(available, None, name, tools[name]) ::
              r in Reasons(tools, available, None, name)
  {
  }

  ghost predicate ExecutableAlong(tools: Tools, host: Host, name: string)
    requires Ends(tools, name)
  {
    forall k: nat | k < Steps(tools, name) && Follow(tools, name, k).Some? ::
          host.executable(Follow(tools, name, k).value)
  }

  /** With a host, an alias is ready exactly when its canonical action is and the host's
      manifest can execute every alias on the way. */
  lemma {:induction false} HostedReadinessTheorem(tools: Tools, available: string -> bool, host: Host, name: string)
    requires Grounded(tools) && NoDrift(tools, CONTRACT + RUNTIME) && name in tools
    ensures Reasons(tools, available, Some(host), name) == [] <==>
            Reasons(tools, available, Some(host), Canonical(tools, name)) == [] && ExecutableAlong(tools, host, name)
    decreases Steps(tools, name)
  {
    var row := tools[name];
    if IsAlias(row) {
      AliasStep(tools, name);
      var target := row.binding.target.value;
      HostedReadinessTheorem(tools, available, host, target);
      ReadyAlias(tools, available, host, name);
      ExecutableStep(tools, host, name);
    } else {
      NonAliasStep(tools, name);
    }
  }

  lemma ReadyAlias(tools: Tools, available: string -> bool, host: Host, name: string)
    requires Grounded(tools) && NoDrift(tools, CONTRACT + RUNTIME) && name in tools && IsAlias(tools[name])
    requires Next(tools, name).Some? && Next(tools, name).value in tools
    ensures Reasons(tools, available, Some(host), name) == [] <==>
            host.executable(name) && Reasons(tools, available, Some(host), Next(tools, name).value) == []
  {
    var target := Next(tools, name).value;
    var row, named := tools[name], tools[target];
    SameOwnReasons(available, name, target, row, named);
    AgreeFields(row, named);
  }

  lemma ExecutableStep(tools: Tools, host: Host, name: string)
    requires name in tools && IsAlias(tools[name]) && Ends(tools, name)
    requires Next(tools, name).Some? && Ends(tools, Next(tools, name).value)
    requires Steps(tools, name) == Steps(tools, Next(tools, name).value) + 1
    ensures ExecutableAlong(tools, host, name) <==>
            host.executable(name) && ExecutableAlong(tools, host, Next(tools, name).value)
  {
    var target := Next(tools, name).value;
    assert Follow(tools, name, 0) == Some(name);
    assert Follow(tools, name, 1) == Some(target);
    forall k: nat | k < Steps(tools, target) ensures Follow(tools, name, k + 1) == Follow(tools, target, k) {
      FollowOn(tools, name, 1, k);
    }
    if ExecutableAlong(tools, host, name) {
      forall k: nat | k < Steps(tools, target) && Follow(tools, target, k).Some?
        ensures host.executable(Follow(tools, target, k).value)
      {
        assert Follow(tools, name, k + 1).Some?;
      }
    }
    if host.executable(name) && ExecutableAlong(tools, host, target) {
      forall k: nat | k < Steps(tools, name) && Follow(tools, name, k).Some?
        ensures host.executable(Follow(tools, name, k).value)
      {
        if k > 0 { assert Follow(tools, name, k - 1 + 1) == Follow(tools, target, k - 1); }
      }
    }
  }
}
