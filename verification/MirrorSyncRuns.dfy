/** Writing every mirror and then checking them. */
module MirrorSyncRuns {
  import opened Wrappers
  import opened MirrorSync

  // ---------- What one write does, path by path ----------

  lemma {:induction false} RemovedAt(files: Files, target: Path, rels: seq<Path>, q: Path)
    ensures q in Removed(files, target, rels) <==> q in files && !exists rel :: rel in rels && q == target + rel
    ensures q in Removed(files, target, rels) ==> Removed(files, target, rels)[q] == files[q]
    decreases rels
  {
    if rels != [] {
      RemovedAt(files - {target + rels[0]}, target, rels[1..], q);
      assert rels == [rels[0]] + rels[1..];
      if q == target + rels[0] { assert rels[0] in rels; }
    }
  }

  lemma WithinJoin(root: Path, rel: Path)
    ensures Within(root, root + rel) && (root + rel)[|root|..] == rel
  {
  }

  lemma {:induction false} CopiedOverAt(files: Files, source: Path, target: Path, rels: seq<Path>, q: Path)
    requires Apart(source, target) && forall rel | rel in rels :: source + rel in files
    ensures var out := CopiedOver(files, source, target, rels);
      if Within(target, q) && q[|target|..] in rels then q in out && out[q] == files[source + q[|target|..]]
      else (q in out <==> q in files) && (q in out ==> out[q] == files[q])
    decreases rels
  {
    if rels != [] {
      var rel, rest := rels[0], rels[1..];
      var next := files[target + rel := files[source + rel]];
      assert rels == [rel] + rest && rel in rels;
      WithinJoin(target, rel);
      assert forall r: Path | r in rest :: r in rels;
      forall r: Path ensures source + r in next <==> source + r in files
                     ensures source + r in files ==> next[source + r] == files[source + r]
      {
        WithinJoin(source, r);
        ApartRoots(source, target, source + r);
        assert source + r != target + rel;
      }
      CopiedOverAt(next, source, target, rest, q);
      if Within(target, q) { assert q == target + q[|target|..]; }
    }
  }

  lemma SameTail(root: Path, rel: Path)
    ensures forall r: Path | root + r == root + rel :: r == rel
  {
    forall r: Path | root + r == root + rel ensures r == rel {
      assert r == (root + r)[|root|..] && rel == (root + rel)[|root|..];
    }
  }

  ghost predicate SameAt(a: Files, b: Files, q: Path) { (q in a <==> q in b) && (q in a ==> a[q] == b[q]) }

  /** The same files at or under a path. */
  ghost predicate SameOn(a: Files, b: Files, root: Path) { forall q | Within(root, q) :: SameAt(a, b, q) }

  /** What a directory target holds after it is written. */
  lemma WrittenAt(p: Platform, files: Files, m: Mapping, target: Path, rel: Path)
    requires Sound(p) && Apart(m.source, target) && m.source !in files
    ensures var out := Written(p, files, m, target);
      if rel == [MARKER] && !HasSuffix(target) then target + rel in out && out[target + rel] == MarkerBytes(p, files, m)
      else if !Included(rel) then SameAt(out, files, target + rel)
      else (target + rel in out <==> m.source + rel in files)
           && (target + rel in out ==> out[target + rel] == files[m.source + rel])
  {
    var extras, rels := Extras(p, files, m, target), Rels(p, files, m.source);
    var kept := Removed(files, target, extras);
    var q := target + rel;
    WithinJoin(target, rel);
    RelsExist(p, files, m.source);
    KeptSource(p, files, m, target);
    CopiedOverAt(kept, m.source, target, rels, q);
    RemovedAt(files, target, extras, q);
    UnderRoot(files, m.source, rel);
    UnderRoot(files, target, rel);
    SameTail(target, rel);
    SameTail(target, [MARKER]);
    if rel in rels { SourceKept(p, files, m, target, rel); }
    ExtrasExactly(p, files, m, target);
  }

  lemma SourceKept(p: Platform, files: Files, m: Mapping, target: Path, rel: Path)
    requires Sound(p) && Apart(m.source, target)
    ensures SameAt(Removed(files, target, Extras(p, files, m, target)), files, m.source + rel)
  {
    WithinJoin(m.source, rel);
    ApartRoots(m.source, target, m.source + rel);
    RemovedAt(files, target, Extras(p, files, m, target), m.source + rel);
    forall r: Path ensures target + r != m.source + rel { WithinJoin(target, r); }
  }

  lemma KeptSource(p: Platform, files: Files, m: Mapping, target: Path)
    requires Sound(p) && Apart(m.source, target)
    ensures forall rel | rel in Rels(p, files, m.source) ::
            m.source + rel in Removed(files, target, Extras(p, files, m, target))
  {
    RelsExist(p, files, m.source);
    forall rel | rel in Rels(p, files, m.source)
      ensures m.source + rel in Removed(files, target, Extras(p, files, m, target))
    {
      SourceKept(p, files, m, target, rel);
    }
  }

  lemma NotJoined(target: Path, q: Path, rel: Path)
    requires !Within(target, q)
    ensures target + rel != q
  {
    WithinJoin(target, rel);
  }

  lemma RemovedOutside(files: Files, target: Path, rels: seq<Path>, q: Path)
    requires !Within(target, q)
    ensures SameAt(Removed(files, target, rels), files, q)
  {
    RemovedAt(files, target, rels, q);
    forall r: Path ensures target + r != q { NotJoined(target, q, r); }
  }

  /** Nothing outside the target changes. */
  lemma WrittenOutside(p: Platform, files: Files, m: Mapping, target: Path, q: Path)
    requires Sound(p) && Apart(m.source, target) && !Within(target, q)
    ensures SameAt(Written(p, files, m, target), files, q)
  {
    if m.source in files {
      assert Within(target, target);
    } else {
      var extras, rels := Extras(p, files, m, target), Rels(p, files, m.source);
      var kept := Removed(files, target, extras);
      KeptSource(p, files, m, target);
      RemovedOutside(files, target, extras, q);
      CopiedOverAt(kept, m.source, target, rels, q);
      var full := CopiedOver(kept, m.source, target, rels);
      assert SameAt(full, kept, q);
      NotJoined(target, q, [MARKER]);
    }
  }

  lemma WrittenKeepsSource(p: Platform, files: Files, m: Mapping, target: Path)
    requires Sound(p) && Apart(m.source, target)
    ensures SameOn(Written(p, files, m, target), files, m.source)
  {
    forall q | Within(m.source, q) ensures SameAt(Written(p, files, m, target), files, q) {
      ApartRoots(m.source, target, q);
      WrittenOutside(p, files, m, target, q);
    }
  }

  // ---------- What depends on which files ----------

  lemma SameFilesUnder(a: Files, b: Files, root: Path)
    requires SameOn(a, b, root)
    ensures FilesUnder(a, root) == FilesUnder(b, root)
  {
    forall rel ensures rel in FilesUnder(a, root) <==> rel in FilesUnder(b, root) {
      UnderRoot(a, root, rel);
      UnderRoot(b, root, rel);
      WithinJoin(root, rel);
      assert SameAt(a, b, root + rel);
    }
  }

  lemma {:induction false} SameRows(p: Platform, a: Files, b: Files, source: Path, rels: seq<Path>)
    requires SameOn(a, b, source) && (forall rel | rel in rels :: source + rel in a && source + rel in b)
    ensures Rows(p, a, source, rels) == Rows(p, b, source, rels)
    decreases rels
  {
    if rels != [] {
      assert rels[0] in rels;
      WithinJoin(source, rels[0]);
      assert SameAt(a, b, source + rels[0]);
      SameRows(p, a, b, source, rels[1..]);
    }
  }

  lemma SameDigest(p: Platform, a: Files, b: Files, source: Path)
    requires Sound(p) && SameOn(a, b, source)
    ensures FilesUnder(a, source) == FilesUnder(b, source) && Digest(p, a, source) == Digest(p, b, source)
    ensures source in a <==> source in b
  {
    SameFilesUnder(a, b, source);
    RelsExist(p, a, source);
    RelsExist(p, b, source);
    SameRows(p, a, b, source, Rels(p, a, source));
    assert Within(source, source) && SameAt(a, b, source);
  }

  lemma SameCopied(a: Files, b: Files, m: Mapping, target: Path)
    requires SameOn(a, b, m.source) && SameOn(a, b, target) && Copied(a, m, target)
    ensures Copied(b, m, target)
  {
    SameFilesUnder(a, b, m.source);
    SameFilesUnder(a, b, target);
    assert Within(m.source, m.source) && SameAt(a, b, m.source);
    assert Within(target, target) && SameAt(a, b, target);
    forall rel | Included(rel) && m.source + rel in b && m.source !in b
      ensures target + rel in b && b[target + rel] == b[m.source + rel]
    {
      WithinJoin(m.source, rel);
      WithinJoin(target, rel);
      assert SameAt(a, b, m.source + rel) && SameAt(a, b, target + rel);
    }
  }

  lemma SameSettled(p: Platform, a: Files, b: Files, m: Mapping, target: Path)
    requires Sound(p) && SameOn(a, b, m.source) && SameOn(a, b, target) && Settled(p, a, m, target)
    ensures Settled(p, b, m, target)
  {
    SameCopied(a, b, m, target);
    SameDigest(p, a, b, m.source);
    WithinJoin(target, [MARKER]);
    assert SameAt(a, b, target + [MARKER]);
  }

  lemma SameMarker(p: Platform, a: Files, b: Files, m: Mapping, target: Path)
    requires Sound(p) && SameOn(a, b, m.source) && SameAt(a, b, target + [MARKER])
    ensures MarkerAccepted(p, a, m, target) <==> MarkerAccepted(p, b, m, target)
  {
    SameDigest(p, a, b, m.source);
  }

  // ---------- One target settles ----------

  lemma MarkerNotIncluded()
    ensures !Included([MARKER])
  {
  }

  lemma WrittenCopies(p: Platform, files: Files, m: Mapping, target: Path)
    requires Sound(p) && Apart(m.source, target)
    ensures Copied(Written(p, files, m, target), m, target)
  {
    var out := Written(p, files, m, target);
    WrittenKeepsSource(p, files, m, target);
    assert Within(m.source, m.source) && SameAt(out, files, m.source);
    if m.source !in files {
      SameFilesUnder(out, files, m.source);
      MarkerNotIncluded();
      forall rel ensures rel in FilesUnder(out, target) <==> rel in FilesUnder(files, m.source) {
        UnderRoot(out, target, rel);
        UnderRoot(files, m.source, rel);
        WrittenAt(p, files, m, target, rel);
      }
      forall rel | Included(rel) && m.source + rel in out
        ensures target + rel in out && out[target + rel] == out[m.source + rel]
      {
        WrittenAt(p, files, m, target, rel);
        WithinJoin(m.source, rel);
        assert SameAt(out, files, m.source + rel);
      }
    }
  }

  lemma WrittenSettles(p: Platform, files: Files, m: Mapping, target: Path)
    requires Sound(p) && Apart(m.source, target)
    ensures Settled(p, Written(p, files, m, target), m, target)
  {
    WrittenCopies(p, files, m, target);
    WrittenKeepsSource(p, files, m, target);
    SameDigest(p, Written(p, files, m, target), files, m.source);
    if m.source !in files { WrittenAt(p, files, m, target, [MARKER]); }
  }

  lemma {:induction false} CopiedOverSame(files: Files, source: Path, target: Path, rels: seq<Path>)
    requires forall rel | rel in rels && source + rel in files ::
            target + rel in files && files[target + rel] == files[source + rel]
    ensures CopiedOver(files, source, target, rels) == files
    decreases rels
  {
    if rels != [] {
      assert rels[0] in rels;
      if source + rels[0] in files { assert files[target + rels[0] := files[source + rels[0]]] == files; }
      CopiedOverSame(files, source, target, rels[1..]);
    }
  }

  /** Writing a settled target changes nothing. */
  lemma SettledStays(p: Platform, files: Files, m: Mapping, target: Path)
    requires Sound(p) && Settled(p, files, m, target)
    ensures Written(p, files, m, target) == files
  {
    if m.source in files {
      assert files[target := files[m.source]] == files;
    } else {
      assert FilesUnder(files, target) - FilesUnder(files, m.source) == {};
      ExtrasExactly(p, files, m, target);
      RelsExist(p, files, m.source);
      CopiedOverSame(files, m.source, target, Rels(p, files, m.source));
    }
  }

  // ---------- All targets ----------

  datatype Job = Job(m: Mapping, target: Path)

  function JobsOf(m: Mapping): seq<Job> { seq(|m.targets|, k requires 0 <= k < |m.targets| => Job(m, m.targets[k])) }

  function Jobs(ms: seq<Mapping>): seq<Job> { if ms == [] then [] else JobsOf(ms[0]) + Jobs(ms[1..]) }

  /** `dirs` has the source directories that exist. */
  predicate SourceExists(dirs: set<Path>, files: Files, m: Mapping) { m.source in files || m.source in dirs }

  function WriteJob(p: Platform, dirs: set<Path>, files: Files, job: Job): Files
    requires Sound(p)
  {
    if SourceExists(dirs, files, job.m) then Written(p, files, job.m, job.target) else files
  }

  function WriteJobs(p: Platform, dirs: set<Path>, files: Files, jobs: seq<Job>): Files
    requires Sound(p)
    decreases jobs
  {
    if jobs == [] then files else WriteJobs(p, dirs, WriteJob(p, dirs, files, jobs[0]), jobs[1..])
  }

  /** Targets are apart from each other and from every source. */
  ghost predicate Separate(jobs: seq<Job>) {
    && (forall i, j | 0 <= i < |jobs| && 0 <= j < |jobs| :: Apart(jobs[i].m.source, jobs[j].target))
    && (forall i, j | 0 <= i < j < |jobs| :: Apart(jobs[i].target, jobs[j].target))
  }

  lemma SeparateTail(jobs: seq<Job>)
    requires Separate(jobs) && jobs != []
    ensures Separate(jobs[1..]) && Apart(jobs[0].m.source, jobs[0].target)
    ensures forall k | 0 <= k < |jobs[1..]| :: Apart(jobs[1..][k].m.source, jobs[0].target)
    ensures forall k | 0 <= k < |jobs[1..]| :: Apart(jobs[0].m.source, jobs[1..][k].target)
    ensures forall k | 0 <= k < |jobs[1..]| :: Apart(jobs[0].target, jobs[1..][k].target)
  {
    var tail := jobs[1..];
    forall k | 0 <= k < |tail| ensures tail[k] == jobs[k + 1] {}
  }

  ghost predicate OutsideAll(jobs: seq<Job>, q: Path) { forall k | 0 <= k < |jobs| :: !Within(jobs[k].target, q) }

  lemma {:induction false} JobsOutside(p: Platform, dirs: set<Path>, files: Files, jobs: seq<Job>, q: Path)
    requires Sound(p) && Separate(jobs) && OutsideAll(jobs, q)
    ensures SameAt(WriteJobs(p, dirs, files, jobs), files, q)
    decreases jobs
  {
    if jobs != [] {
      SeparateTail(jobs);
      WrittenOutside(p, files, jobs[0].m, jobs[0].target, q);
      JobsOutside(p, dirs, WriteJob(p, dirs, files, jobs[0]), jobs[1..], q);
    }
  }

  lemma JobsApart(p: Platform, dirs: set<Path>, files: Files, jobs: seq<Job>, root: Path)
    requires Sound(p) && Separate(jobs) && forall k | 0 <= k < |jobs| :: Apart(root, jobs[k].target)
    ensures SameOn(WriteJobs(p, dirs, files, jobs), files, root)
  {
    forall q | Within(root, q) ensures SameAt(WriteJobs(p, dirs, files, jobs), files, q) {
      forall k | 0 <= k < |jobs| ensures !Within(jobs[k].target, q) { ApartRoots(root, jobs[k].target, q); }
      JobsOutside(p, dirs, files, jobs, q);
    }
  }

  lemma SourcesStay(p: Platform, dirs: set<Path>, files: Files, jobs: seq<Job>, i: nat)
    requires Sound(p) && Separate(jobs) && i < |jobs|
    ensures SameOn(WriteJobs(p, dirs, files, jobs), files, jobs[i].m.source)
    ensures SourceExists(dirs, WriteJobs(p, dirs, files, jobs), jobs[i].m) <==> SourceExists(dirs, files, jobs[i].m)
  {
    JobsApart(p, dirs, files, jobs, jobs[i].m.source);
    var source := jobs[i].m.source;
    assert Within(source, source) && SameAt(WriteJobs(p, dirs, files, jobs), files, source);
  }

  ghost predicate AllExist(dirs: set<Path>, files: Files, jobs: seq<Job>) {
    forall k | 0 <= k < |jobs| :: SourceExists(dirs, files, jobs[k].m)
  }

  lemma StepExists(p: Platform, dirs: set<Path>, files: Files, jobs: seq<Job>)
    requires Sound(p) && Separate(jobs) && jobs != [] && AllExist(dirs, files, jobs)
    ensures AllExist(dirs, Written(p, files, jobs[0].m, jobs[0].target), jobs[1..])
  {
    SeparateTail(jobs);
    forall k | 0 <= k < |jobs[1..]|
      ensures SourceExists(dirs, Written(p, files, jobs[0].m, jobs[0].target), jobs[1..][k].m)
    {
      var source := jobs[1..][k].m.source;
      assert jobs[1..][k] == jobs[k + 1];
      assert !Within(jobs[0].target, source);
      WrittenOutside(p, files, jobs[0].m, jobs[0].target, source);
    }
  }

  /** After a write every target is settled. */
  lemma {:induction false} AllSettle(p: Platform, dirs: set<Path>, files: Files, jobs: seq<Job>, i: nat)
    requires Sound(p) && Separate(jobs) && AllExist(dirs, files, jobs) && i < |jobs|
    ensures Settled(p, WriteJobs(p, dirs, files, jobs), jobs[i].m, jobs[i].target)
    decreases jobs
  {
    var m, target, rest := jobs[0].m, jobs[0].target, jobs[1..];
    assert SourceExists(dirs, files, m);
    var next := Written(p, files, m, target);
    SeparateTail(jobs);
    StepExists(p, dirs, files, jobs);
    if i == 0 {
      WrittenSettles(p, files, m, target);
      var out := WriteJobs(p, dirs, next, rest);
      JobsApart(p, dirs, next, rest, m.source);
      JobsApart(p, dirs, next, rest, target);
      SameSym(out, next, m.source);
      SameSym(out, next, target);
      SameSettled(p, next, out, m, target);
    } else {
      AllSettle(p, dirs, next, rest, i - 1);
      assert rest[i - 1] == jobs[i];
    }
  }

  lemma SameSym(a: Files, b: Files, root: Path)
    requires SameOn(a, b, root)
    ensures SameOn(b, a, root)
  {
    forall q | Within(root, q) ensures SameAt(b, a, q) { assert SameAt(a, b, q); }
  }

  lemma {:induction false} SettledJobsStay(p: Platform, dirs: set<Path>, files: Files, jobs: seq<Job>)
    requires Sound(p) && forall k | 0 <= k < |jobs| :: Settled(p, files, jobs[k].m, jobs[k].target)
    ensures WriteJobs(p, dirs, files, jobs) == files
    decreases jobs
  {
    if jobs != [] {
      SettledStays(p, files, jobs[0].m, jobs[0].target);
      SettledJobsStay(p, dirs, files, jobs[1..]);
    }
  }

  /** A file the mirror ignores: under a directory target, not included, not the marker. */
  ghost predicate Ignored(files: Files, job: Job, rel: Path) {
    job.m.source !in files && rel != [] && !Included(rel) && rel != [MARKER]
  }

  lemma {:induction false} IgnoredStay(p: Platform, dirs: set<Path>, files: Files, jobs: seq<Job>, i: nat, rel: Path)
    requires Sound(p) && Separate(jobs) && i < |jobs| && jobs[i].m.source !in files && !Included(rel)
    requires rel != [MARKER] || HasSuffix(jobs[i].target)
    ensures SameAt(WriteJobs(p, dirs, files, jobs), files, jobs[i].target + rel)
    decreases jobs
  {
    var m, target, rest := jobs[0].m, jobs[0].target, jobs[1..];
    var next := WriteJob(p, dirs, files, jobs[0]);
    var q := jobs[i].target + rel;
    SeparateTail(jobs);
    WithinJoin(jobs[i].target, rel);
    if i == 0 {
      WrittenAt(p, files, m, target, rel);
      JobsApart(p, dirs, next, rest, target);
      assert SameAt(WriteJobs(p, dirs, next, rest), next, q);
    } else {
      assert rest[i - 1] == jobs[i];
      ApartRoots(jobs[i].target, target, q);
      WrittenOutside(p, files, m, target, q);
      WrittenOutside(p, files, m, target, jobs[i].m.source);
      IgnoredStay(p, dirs, next, rest, i - 1, rel);
    }
  }

  /** A directory target whose own name has a suffix never gets a marker. */
  ghost predicate Unmarked(p: Platform, files: Files, job: Job)
    requires Sound(p)
  {
    job.m.source !in files && HasSuffix(job.target) && !MarkerAccepted(p, files, job.m, job.target)
  }

  lemma MatchesAfter(p: Platform, dirs: set<Path>, files: Files, jobs: seq<Job>, i: nat)
    requires Sound(p) && Separate(jobs) && AllExist(dirs, files, jobs) && i < |jobs|
    ensures Matches(p, WriteJobs(p, dirs, files, jobs), jobs[i].m, jobs[i].target) <==> !Unmarked(p, files, jobs[i])
  {
    var out := WriteJobs(p, dirs, files, jobs);
    var m, target := jobs[i].m, jobs[i].target;
    AllSettle(p, dirs, files, jobs, i);
    SourcesStay(p, dirs, files, jobs, i);
    assert ReadsBack(p, m.id, m.source, |Rels(p, out, m.source)|, Digest(p, out, m.source));
    assert Within(m.source, m.source) && SameAt(out, files, m.source);
    if m.source !in files && HasSuffix(target) {
      MarkerNotIncluded();
      IgnoredStay(p, dirs, files, jobs, i, [MARKER]);
      SameMarker(p, out, files, m, target);
    }
  }

  /** Write, then check: nothing is reported exactly when no directory target's name has a
      suffix without its marker already right; a second write changes nothing; sources,
      ignored files and everything outside the targets stay as they were. */
  lemma SyncTheorem(p: Platform, dirs: set<Path>, files: Files, ms: seq<Mapping>)
    requires Sound(p) && Separate(Jobs(ms)) && AllExist(dirs, files, Jobs(ms))
    ensures var jobs := Jobs(ms); var out := WriteJobs(p, dirs, files, jobs);
      && ((forall i | 0 <= i < |jobs| :: Matches(p, out, jobs[i].m, jobs[i].target)) <==>
          (forall i | 0 <= i < |jobs| :: !Unmarked(p, files, jobs[i])))
      && (forall i | 0 <= i < |jobs| :: Copied(out, jobs[i].m, jobs[i].target))
      && WriteJobs(p, dirs, out, jobs) == out
      && (forall i | 0 <= i < |jobs| :: SameOn(out, files, jobs[i].m.source))
      && (forall q | OutsideAll(jobs, q) :: SameAt(out, files, q))
      && (forall i, rel | 0 <= i < |jobs| && Ignored(files, jobs[i], rel) :: SameAt(out, files, jobs[i].target + rel))
  {
    var jobs := Jobs(ms);
    var out := WriteJobs(p, dirs, files, jobs);
    forall i | 0 <= i < |jobs|
      ensures Matches(p, out, jobs[i].m, jobs[i].target) <==> !Unmarked(p, files, jobs[i])
      ensures Settled(p, out, jobs[i].m, jobs[i].target)
      ensures SameOn(out, files, jobs[i].m.source)
    {
      MatchesAfter(p, dirs, files, jobs, i);
      AllSettle(p, dirs, files, jobs, i);
      SourcesStay(p, dirs, files, jobs, i);
    }
    SettledJobsStay(p, dirs, out, jobs);
    forall q | OutsideAll(jobs, q) ensures SameAt(out, files, q) { JobsOutside(p, dirs, files, jobs, q); }
    forall i, rel | 0 <= i < |jobs| && Ignored(files, jobs[i], rel) ensures SameAt(out, files, jobs[i].target + rel) {
      IgnoredStay(p, dirs, files, jobs, i, rel);
    }
  }

  // ---------- The script ----------

  class Workspace {
    const platform: Platform
    const dirs: set<Path>
    var files: Files

    constructor (platform: Platform, dirs: set<Path>, files: Files)
      ensures this.platform == platform && this.dirs == dirs && this.files == files
    {
      this.platform, this.dirs, this.files := platform, dirs, files;
    }

    /** Rewrites one target from the rows read at its source. */
    method WriteTarget(m: Mapping, target: Path, marker: Bytes, rels: seq<Path>)
      requires Sound(platform) && Apart(m.source, target)
      requires rels == Rels(platform, files, m.source) && marker == MarkerBytes(platform, files, m)
      modifies this
      ensures files == Written(platform, old(files), m, target)
    {
      if m.source in files {
        if target !in files || files[target] != files[m.source] { files := files[target := files[m.source]]; }
        assert files == old(files)[target := old(files)[m.source]];
        return;
      }
      var extras := platform.list(FilesUnder(files, target) - FilesUnder(files, m.source));
      ghost var kept := Removed(files, target, extras);
      for k := 0 to |extras|
        invariant Removed(files, target, extras[k..]) == kept
      {
        assert extras[k..][1..] == extras[k + 1..];
        files := files - {target + extras[k]};
      }
      assert files == kept;
      KeptSource(platform, old(files), m, target);
      CopyRows(m.source, target, rels);
      if !HasSuffix(target) { files := files[target + [MARKER] := marker]; }
    }

    method CopyRows(source: Path, target: Path, rels: seq<Path>)
      requires Apart(source, target) && forall rel | rel in rels :: source + rel in files
      modifies this
      ensures files == CopiedOver(old(files), source, target, rels)
    {
      for k := 0 to |rels|
        invariant CopiedOver(files, source, target, rels[k..]) == CopiedOver(old(files), source, target, rels)
        invariant SameOn(files, old(files), source)
      {
        var rel := rels[k];
        assert rels[k..][1..] == rels[k + 1..] && rel in rels;
        WithinJoin(source, rel);
        assert SameAt(files, old(files), source + rel);
        var at := target + rel;
        WithinJoin(target, rel);
        if at !in files || files[at] != files[source + rel] {
          files := files[at := files[source + rel]];
          forall q | Within(source, q) ensures q != at { ApartRoots(source, target, q); }
        } else {
          assert files[at := files[source + rel]] == files;
        }
      }
    }

    /** Reports exactly what is wrong with one target. */
    method CheckTarget(m: Mapping, target: Path, digest: string, rels: seq<Path>) returns (failures: seq<Failure>)
      requires Sound(platform) && rels == Rels(platform, files, m.source) && digest == Digest(platform, files, m.source)
      ensures forall f :: f in failures <==> Wrong(platform, files, m, target, f)
    {
      failures := [];
      if m.source in files {
        if target !in files || files[target] != files[m.source] {
          failures := [if target in files then Drift(m.id, target) else Missing(m.id, target)];
        }
        return;
      }
      var extras := CheckExtras(m, target);
      var copies := CheckRows(m, target, rels);
      var marker := CheckMarker(m, target, digest);
      failures := extras + copies + marker;
    }

    method CheckExtras(m: Mapping, target: Path) returns (failures: seq<Failure>)
      requires Sound(platform) && m.source !in files
      ensures forall f :: f in failures <==> f.Extra? && Wrong(platform, files, m, target, f)
    {
      failures := [];
      var extras := platform.list(FilesUnder(files, target) - FilesUnder(files, m.source));
      for k := 0 to |extras|
        invariant forall f :: f in failures <==> exists i :: 0 <= i < k && ExtraFailure(m, target, extras[i], f)
      {
        failures := failures + [Extra(m.id, target + extras[k])];
      }
      forall f ensures f in failures <==> f.Extra? && Wrong(platform, files, m, target, f) {
        ExtrasFail(platform, files, m, target, extras, f);
      }
    }

    method CheckRows(m: Mapping, target: Path, rels: seq<Path>) returns (failures: seq<Failure>)
      requires Sound(platform) && m.source !in files && rels == Rels(platform, files, m.source)
      ensures forall f :: f in failures <==> (f.Missing? || f.Drift?) && Wrong(platform, files, m, target, f)
    {
      failures := [];
      RelsExist(platform, files, m.source);
      for k := 0 to |rels|
        invariant forall f :: f in failures <==> exists i :: 0 <= i < k && RowFailure(files, m, target, rels[i], f)
      {
        var rel := rels[k];
        assert rel in rels;
        var at := target + rel;
        if at !in files {
          failures := failures + [Missing(m.id, at)];
        } else if files[at] != files[m.source + rel] {
          failures := failures + [Drift(m.id, at)];
        }
      }
      forall f ensures f in failures <==> (f.Missing? || f.Drift?) && Wrong(platform, files, m, target, f) {
        RowsFail(platform, files, m, target, rels, f);
      }
    }

    method CheckMarker(m: Mapping, target: Path, digest: string) returns (failures: seq<Failure>)
      requires Sound(platform) && m.source !in files && digest == Digest(platform, files, m.source)
      ensures forall f :: f in failures <==>
        (f.MarkerMissing? || f.MarkerDrift? || f.MarkerInvalid?) && Wrong(platform, files, m, target, f)
    {
      var at := target + [MARKER];
      if at !in files { return [MarkerMissing(m.id, target)]; }
      var payload := platform.decode(files[at]);
      if payload.None? { return [MarkerInvalid(m.id, target)]; }
      if payload.value != (m.id, digest) { return [MarkerDrift(m.id, target)]; }
      return [];
    }

    /** Write mode: missing sources are reported, every other mapping's targets rewritten. */
    method Write(ms: seq<Mapping>) returns (failures: seq<Failure>)
      requires Sound(platform) && Layout(ms)
      modifies this
      ensures files == WriteJobs(platform, dirs, old(files), Jobs(ms))
      ensures forall f :: f in failures <==> exists k :: 0 <= k < |ms| && MissingSource(dirs, old(files), ms[k], f)
    {
      failures := [];
      ghost var all := WriteJobs(platform, dirs, files, Jobs(ms));
      for k := 0 to |ms|
        invariant WriteJobs(platform, dirs, files, Jobs(ms[k..])) == all
        invariant Separate(Jobs(ms[k..]))
        invariant forall i | 0 <= i < |ms| :: SameOn(files, old(files), ms[i].source)
        invariant forall f :: f in failures <==> exists i :: 0 <= i < k && MissingSource(dirs, old(files), ms[i], f)
      {
        var m := ms[k];
        ghost var before := files;
        ghost var rest := Jobs(ms[k + 1..]);
        assert ms[k..][1..] == ms[k + 1..];
        assert Jobs(ms[k..]) == JobsOf(m) + rest;
        assert Within(m.source, m.source) && SameAt(files, old(files), m.source);
        if !SourceExists(dirs, files, m) {
          failures := failures + [SourceMissing(m.id)];
          SkipJobs(platform, dirs, files, m, JobsOf(m), rest);
        } else {
          WriteTargets(m, rest);
          forall i | 0 <= i < |ms| ensures SameOn(files, old(files), ms[i].source) {
            LayoutApart(ms, i, k);
            SameOnTrans(files, before, old(files), ms[i].source);
          }
        }
      }
    }

    method WriteTargets(m: Mapping, ghost rest: seq<Job>)
      requires Sound(platform) && Separate(JobsOf(m) + rest) && SourceExists(dirs, files, m)
      modifies this
      ensures WriteJobs(platform, dirs, files, rest) == WriteJobs(platform, dirs, old(files), JobsOf(m) + rest)
      ensures Separate(rest)
      ensures forall root | ApartFrom(root, m.targets) :: SameOn(files, old(files), root)
    {
      var rels := Rels(platform, files, m.source);
      var marker := MarkerBytes(platform, files, m);
      ghost var jobs := JobsOf(m);
      for k := 0 to |m.targets|
        invariant Separate(jobs[k..] + rest)
        invariant SameOn(files, old(files), m.source)
        invariant forall root | ApartFrom(root, m.targets) :: SameOn(files, old(files), root)
        invariant WriteJobs(platform, dirs, files, jobs[k..] + rest) ==
                  WriteJobs(platform, dirs, old(files), jobs + rest)
      {
        ghost var left := jobs[k..] + rest;
        assert left[0] == Job(m, m.targets[k]) && left[1..] == jobs[k + 1..] + rest;
        SeparateTail(left);
        SameDigest(platform, files, old(files), m.source);
        ghost var before := files;
        WriteTarget(m, m.targets[k], marker, rels);
        WrittenKeepsSource(platform, before, m, m.targets[k]);
        SameOnTrans(files, before, old(files), m.source);
        forall root | ApartFrom(root, m.targets) ensures SameOn(files, old(files), root) {
          WrittenApart(platform, before, m, m.targets[k], root);
          SameOnTrans(files, before, old(files), root);
        }
      }
      assert jobs[|m.targets|..] + rest == rest;
    }

    /** Check mode: reports exactly the missing sources and what is wrong with each target. */
    method Check(ms: seq<Mapping>) returns (failures: seq<Failure>)
      requires Sound(platform)
      ensures forall f :: f in failures <==> Reported(platform, dirs, files, ms, f)
    {
      failures := [];
      for k := 0 to |ms|
        invariant forall f :: f in failures <==> Reported(platform, dirs, files, ms[..k], f)
      {
        var m := ms[k];
        forall f ensures Reported(platform, dirs, files, ms[..k + 1], f) <==>
                         Reported(platform, dirs, files, ms[..k], f) || ReportedBy(platform, dirs, files, m, f)
        {
          ReportedOneMore(platform, dirs, files, ms, k, f);
        }
        var more := CheckMapping(m);
        failures := failures + more;
      }
      assert ms[..|ms|] == ms;
    }

    method CheckMapping(m: Mapping) returns (failures: seq<Failure>)
      requires Sound(platform)
      ensures forall f :: f in failures <==> ReportedBy(platform, dirs, files, m, f)
    {
      if !SourceExists(dirs, files, m) { return [SourceMissing(m.id)]; }
      failures := [];
      var rels := Rels(platform, files, m.source);
      var digest := Digest(platform, files, m.source);
      for k := 0 to |m.targets|
        invariant forall f :: f in failures <==> exists i :: 0 <= i < k && Wrong(platform, files, m, m.targets[i], f)
      {
        var more := CheckTarget(m, m.targets[k], digest, rels);
        failures := failures + more;
      }
    }
  }

  ghost predicate MissingSource(dirs: set<Path>, files: Files, m: Mapping, f: Failure) {
    !SourceExists(dirs, files, m) && f == SourceMissing(m.id)
  }

  ghost predicate ApartFrom(root: Path, targets: seq<Path>) { forall k | 0 <= k < |targets| :: Apart(root, targets[k]) }

  /** Targets are apart from each other and from every mapping's source. */
  ghost predicate Layout(ms: seq<Mapping>) {
    Separate(Jobs(ms)) && forall i, j | 0 <= i < |ms| && 0 <= j < |Jobs(ms)| :: Apart(ms[i].source, Jobs(ms)[j].target)
  }

  lemma LayoutApart(ms: seq<Mapping>, i: nat, k: nat)
    requires Layout(ms) && i < |ms| && k < |ms|
    ensures ApartFrom(ms[i].source, ms[k].targets)
  {
    forall t | 0 <= t < |ms[k].targets| ensures Apart(ms[i].source, ms[k].targets[t]) {
      var job := Job(ms[k], ms[k].targets[t]);
      JobsExactly(ms, job);
      var j :| 0 <= j < |Jobs(ms)| && Jobs(ms)[j] == job;
      assert Apart(ms[i].source, Jobs(ms)[j].target);
    }
  }

  lemma WrittenApart(p: Platform, files: Files, m: Mapping, target: Path, root: Path)
    requires Sound(p) && Apart(m.source, target) && Apart(root, target)
    ensures SameOn(Written(p, files, m, target), files, root)
  {
    forall q | Within(root, q) ensures SameAt(Written(p, files, m, target), files, q) {
      ApartRoots(root, target, q);
      WrittenOutside(p, files, m, target, q);
    }
  }

  ghost predicate ExtraFailure(m: Mapping, target: Path, rel: Path, f: Failure) { f == Extra(m.id, target + rel) }

  lemma ExtrasFail(p: Platform, files: Files, m: Mapping, target: Path, extras: seq<Path>, f: Failure)
    requires Sound(p) && m.source !in files && extras == Extras(p, files, m, target)
    ensures (exists i :: 0 <= i < |extras| && ExtraFailure(m, target, extras[i], f)) <==>
            f.Extra? && Wrong(p, files, m, target, f)
  {
    ExtrasExactly(p, files, m, target);
    if i :| 0 <= i < |extras| && ExtraFailure(m, target, extras[i], f) {
      assert extras[i] in extras && RelExtra(files, m, target, extras[i]);
    }
    if f.Extra? && Wrong(p, files, m, target, f) {
      var rel :| RelExtra(files, m, target, rel) && f.at == target + rel;
      assert rel in extras;
      var i :| 0 <= i < |extras| && extras[i] == rel;
      assert ExtraFailure(m, target, extras[i], f);
    }
  }

  ghost predicate RowFailure(files: Files, m: Mapping, target: Path, rel: Path, f: Failure) {
    || (f == Missing(m.id, target + rel) && target + rel !in files)
    || (f == Drift(m.id, target + rel) && target + rel in files && m.source + rel in files
        && files[target + rel] != files[m.source + rel])
  }

  lemma RowsFail(p: Platform, files: Files, m: Mapping, target: Path, rels: seq<Path>, f: Failure)
    requires Sound(p) && m.source !in files && rels == Rels(p, files, m.source)
    ensures (exists i :: 0 <= i < |rels| && RowFailure(files, m, target, rels[i], f)) <==>
            (f.Missing? || f.Drift?) && Wrong(p, files, m, target, f)
  {
    RelsExist(p, files, m.source);
    if i :| 0 <= i < |rels| && RowFailure(files, m, target, rels[i], f) {
      assert rels[i] in rels;
      assert RelMissing(files, m, target, rels[i]) || RelDrifts(files, m, target, rels[i]);
    }
    if (f.Missing? || f.Drift?) && Wrong(p, files, m, target, f) {
      var rel :| (RelMissing(files, m, target, rel) || RelDrifts(files, m, target, rel)) && f.at == target + rel
                 && (f.Missing? ==> RelMissing(files, m, target, rel))
                 && (f.Drift? ==> RelDrifts(files, m, target, rel));
      assert rel in rels;
      var i :| 0 <= i < |rels| && rels[i] == rel;
      assert RowFailure(files, m, target, rels[i], f);
    }
  }

  /** What a check says about one mapping. */
  ghost predicate ReportedBy(p: Platform, dirs: set<Path>, files: Files, m: Mapping, f: Failure)
    requires Sound(p)
  {
    if !SourceExists(dirs, files, m) then f == SourceMissing(m.id)
    else exists i :: 0 <= i < |m.targets| && Wrong(p, files, m, m.targets[i], f)
  }

  ghost predicate Reported(p: Platform, dirs: set<Path>, files: Files, ms: seq<Mapping>, f: Failure)
    requires Sound(p)
  {
    exists k :: 0 <= k < |ms| && ReportedBy(p, dirs, files, ms[k], f)
  }

  lemma ReportedOneMore(p: Platform, dirs: set<Path>, files: Files, ms: seq<Mapping>, k: nat, f: Failure)
    requires Sound(p) && k < |ms|
    ensures Reported(p, dirs, files, ms[..k + 1], f) <==>
            Reported(p, dirs, files, ms[..k], f) || ReportedBy(p, dirs, files, ms[k], f)
  {
    var longer, shorter := ms[..k + 1], ms[..k];
    if i :| 0 <= i < |longer| && ReportedBy(p, dirs, files, longer[i], f) {
      if i < k { assert shorter[i] == longer[i]; }
    }
    if i :| 0 <= i < |shorter| && ReportedBy(p, dirs, files, shorter[i], f) { assert longer[i] == shorter[i]; }
    if ReportedBy(p, dirs, files, ms[k], f) { assert longer[k] == ms[k]; }
  }

  lemma SameOnTrans(a: Files, b: Files, c: Files, root: Path)
    requires SameOn(a, b, root) && SameOn(b, c, root)
    ensures SameOn(a, c, root)
  {
    forall q | Within(root, q) ensures SameAt(a, c, q) { assert SameAt(a, b, q) && SameAt(b, c, q); }
  }

  lemma {:induction false} SkipJobs(
      p: Platform, dirs: set<Path>, files: Files, m: Mapping, jobs: seq<Job>, rest: seq<Job>)
    requires Sound(p) && !SourceExists(dirs, files, m) && Separate(jobs + rest)
    requires forall k | 0 <= k < |jobs| :: jobs[k].m == m
    ensures WriteJobs(p, dirs, files, jobs + rest) == WriteJobs(p, dirs, files, rest) && Separate(rest)
  {
    if jobs == [] {
      assert jobs + rest == rest;
    } else {
      SeparateTail(jobs + rest);
      assert (jobs + rest)[0] == jobs[0] && (jobs + rest)[1..] == jobs[1..] + rest;
      SkipJobs(p, dirs, files, m, jobs[1..], rest);
    }
  }

  lemma {:induction false} JobsExactly(ms: seq<Mapping>, job: Job)
    ensures job in Jobs(ms) <==>
            exists k, i :: 0 <= k < |ms| && ms[k] == job.m && 0 <= i < |job.m.targets| && job.m.targets[i] == job.target
  {
    if ms != [] {
      JobsExactly(ms[1..], job);
      var first := JobsOf(ms[0]);
      if job in first {
        var i :| 0 <= i < |first| && first[i] == job;
        assert ms[0] == job.m && job.m.targets[i] == job.target;
      } else if job in Jobs(ms[1..]) {
        var k, i :|
          0 <= k < |ms| - 1 && ms[1..][k] == job.m && 0 <= i < |job.m.targets| && job.m.targets[i] == job.target;
        assert ms[k + 1] == job.m;
      }
      if k, i :| 0 <= k < |ms| && ms[k] == job.m && 0 <= i < |job.m.targets| && job.m.targets[i] == job.target {
        if k == 0 { assert first[i] == job; } else { assert ms[1..][k - 1] == job.m; }
      }
    }
  }

  /** A check reports nothing exactly when every target matches. */
  lemma ReportTheorem(p: Platform, dirs: set<Path>, files: Files, ms: seq<Mapping>)
    requires Sound(p) && forall k | 0 <= k < |ms| :: SourceExists(dirs, files, ms[k])
    ensures (forall f :: !Reported(p, dirs, files, ms, f)) <==>
            forall job | job in Jobs(ms) :: Matches(p, files, job.m, job.target)
  {
    if forall f :: !Reported(p, dirs, files, ms, f) {
      forall job | job in Jobs(ms) ensures Matches(p, files, job.m, job.target) {
        JobsExactly(ms, job);
        var k, i :| 0 <= k < |ms| && ms[k] == job.m && 0 <= i < |job.m.targets| && job.m.targets[i] == job.target;
        NothingWrong(p, files, job.m, job.target);
        forall f ensures !Wrong(p, files, job.m, job.target, f) {
          assert !Reported(p, dirs, files, ms, f) && !ReportedBy(p, dirs, files, ms[k], f);
        }
      }
    }
    if f :| Reported(p, dirs, files, ms, f) {
      var k :| 0 <= k < |ms| && ReportedBy(p, dirs, files, ms[k], f);
      var i :| 0 <= i < |ms[k].targets| && Wrong(p, files, ms[k], ms[k].targets[i], f);
      JobsExactly(ms, Job(ms[k], ms[k].targets[i]));
      NothingWrong(p, files, ms[k], ms[k].targets[i]);
      assert Job(ms[k], ms[k].targets[i]) in Jobs(ms);
    }
  }

  /** After a write a check reports nothing, unless a directory target's name has a suffix and
      its marker was not already right. */
  lemma WriteThenCheck(p: Platform, dirs: set<Path>, files: Files, ms: seq<Mapping>)
    requires Sound(p) && Layout(ms) && forall k | 0 <= k < |ms| :: SourceExists(dirs, files, ms[k])
    ensures (forall f :: !Reported(p, dirs, WriteJobs(p, dirs, files, Jobs(ms)), ms, f)) <==>
            forall job | job in Jobs(ms) :: !Unmarked(p, files, job)
  {
    var jobs := Jobs(ms);
    var out := WriteJobs(p, dirs, files, jobs);
    forall i | 0 <= i < |jobs| ensures SourceExists(dirs, files, jobs[i].m) {
      assert jobs[i] in jobs;
      JobsExactly(ms, jobs[i]);
    }
    forall k | 0 <= k < |ms| ensures SourceExists(dirs, out, ms[k]) {
      JobsApart(p, dirs, files, jobs, ms[k].source);
      assert Within(ms[k].source, ms[k].source) && SameAt(out, files, ms[k].source);
    }
    ReportTheorem(p, dirs, out, ms);
    forall job | job in jobs ensures Matches(p, out, job.m, job.target) <==> !Unmarked(p, files, job) {
      var i :| 0 <= i < |jobs| && jobs[i] == job;
      MatchesAfter(p, dirs, files, jobs, i);
    }
  }

  // ---------- A target that never passes ----------

  function OneFile(): Files { map[["src", "a"] := [1]] }

  /** A directory mirrored to one whose name has a suffix. */
  function Suffixed(): seq<Mapping> { [Mapping("m", ["src"], [["out.d"]])] }

  lemma SuffixOfOut()
    ensures HasSuffix(["out.d"])
  {
    assert LastDot("out.") == 3;
    assert "out.d"[..4] == "out.";
    assert LastDot("out.d") == 3;
  }

  lemma SuffixedJob()
    ensures Jobs(Suffixed()) == [Job(Suffixed()[0], ["out.d"])]
    ensures Layout(Suffixed())
  {
    var ms := Suffixed();
    assert ms[1..] == [] && JobsOf(ms[0]) == [Job(ms[0], ["out.d"])];
    assert ["src"] != ["out.d"] by { assert "src"[0] != "out.d"[0]; }
  }

  /** A write copies its file and never its marker, so the check after it reports a failure. */
  lemma SuffixedNeverPasses(p: Platform)
    requires Sound(p)
    ensures Unmarked(p, OneFile(), Job(Suffixed()[0], ["out.d"]))
    ensures exists f :: Reported(p, {["src"]}, WriteJobs(p, {["src"]}, OneFile(), Jobs(Suffixed())), Suffixed(), f)
  {
    var job := Job(Suffixed()[0], ["out.d"]);
    SuffixOfOut();
    SuffixedJob();
    assert ["src"] !in OneFile() && ["out.d"] + [MARKER] !in OneFile() by {
      assert |["src"]| == 1 && (["out.d"] + [MARKER])[0] == "out.d" && "out.d"[0] != "src"[0];
    }
    assert job in Jobs(Suffixed());
    WriteThenCheck(p, {["src"]}, OneFile(), Suffixed());
  }
}
