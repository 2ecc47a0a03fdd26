/** Recording each autonomous execution once: a keyed cache over the life journal. */
module AutonomyFacts {
  import opened Wrappers
  import opened Sequences

  /** Ids after trimming; empty when absent. */
  datatype Payload = Payload(execution: string, request: string, run: string)

  /** `fact` holds for completed and failed actions, the only events the cache looks at. */
  datatype Event = Event(fact: bool, payload: Payload, sequence: nat)

  datatype Cached = Cached(key: string, event: Event)

  function EventKey(p: Payload): string { "event:" + p.execution }

  function RequestKey(p: Payload): string { "request:" + p.request + ":" + p.run }

  function Keys(p: Payload): seq<string> {
    (if p.execution != "" then [EventKey(p)] else [])
    + (if p.request == "" then []
       else if p.run != "" then [RequestKey(p)]
       else [RequestKey(p), "request:" + p.request + ":"])
  }

  /** The text before the last colon, or all of it. */
  function BeforeLastColon(s: string): string {
    if ':' !in s then s
    else if s[|s| - 1] == ':' then s[..|s| - 1]
    else BeforeLastColon(s[..|s| - 1])
  }

  function RequestPrefix(key: string): string { BeforeLastColon(key) + ":" }

  // ---------- The dictionary, in insertion order ----------

  function Position(cache: seq<Cached>, key: string): (k: nat)
    ensures k <= |cache|
    ensures k < |cache| ==> cache[k].key == key
    ensures forall i | 0 <= i < k :: cache[i].key != key
  {
    if cache == [] || cache[0].key == key then 0 else 1 + Position(cache[1..], key)
  }

  function Store(cache: seq<Cached>, key: string, e: Event): seq<Cached> {
    var k := Position(cache, key);
    if k < |cache| then cache[k := Cached(key, e)] else cache + [Cached(key, e)]
  }

  function StoreAll(cache: seq<Cached>, keys: seq<string>, e: Event): seq<Cached>
    decreases keys
  {
    if keys == [] then cache else StoreAll(Store(cache, keys[0], e), keys[1..], e)
  }

  /** Later events replace earlier ones under the same key. */
  function CacheOf(journal: seq<Event>): seq<Cached> {
    if journal == [] then []
    else
      var init, last := CacheOf(journal[..|journal| - 1]), journal[|journal| - 1];
      if last.fact then StoreAll(init, Keys(last.payload), last) else init
  }

  function FirstWithPrefix(cache: seq<Cached>, prefix: string): Option<Event> {
    if cache == [] then None
    else if StartsWith(cache[0].key, prefix) then Some(cache[0].event)
    else FirstWithPrefix(cache[1..], prefix)
  }

  function Find(cache: seq<Cached>, key: string): Option<Event> {
    var k := Position(cache, key);
    if k < |cache| then Some(cache[k].event)
    else if StartsWith(key, "request:") then FirstWithPrefix(cache, RequestPrefix(key))
    else None
  }

  function FindAny(cache: seq<Cached>, keys: seq<string>): Option<Event> {
    if keys == [] then None
    else
      var found := Find(cache, keys[0]);
      if found.Some? then found else FindAny(cache, keys[1..])
  }

  /** The journal after one report: nothing new if the cache knows it, else one more fact. */
  function Recorded(journal: seq<Event>, p: Payload): seq<Event> {
    if FindAny(CacheOf(journal), Keys(p)).Some? then journal
    else journal + [Event(true, p, |journal|)]
  }

  function RecordedAll(journal: seq<Event>, ps: seq<Payload>): seq<Event>
    decreases ps
  {
    if ps == [] then journal else RecordedAll(Recorded(journal, ps[0]), ps[1..])
  }

  class LifeSystem {
    var journal: seq<Event>
    var cache: Option<seq<Cached>>

    ghost predicate Valid()
      reads this
    {
      cache.Some? ==> cache.value == CacheOf(journal)
    }

    constructor (journal: seq<Event>)
      ensures Valid() && this.journal == journal
    {
      this.journal := journal;
      cache := None;
    }

    /** Builds the cache on first use. */
    method Cache() returns (c: seq<Cached>)
      requires Valid()
      modifies this`cache
      ensures Valid() && cache == Some(c) && c == CacheOf(journal)
    {
      if cache.Some? { return cache.value; }
      c := [];
      for k := 0 to |journal|
        invariant c == CacheOf(journal[..k])
        invariant cache == old(cache)
      {
        assert journal[..k + 1][..k] == journal[..k];
        if !journal[k].fact { continue; }
        c := Remember(c, journal[k]);
      }
      assert journal[..|journal|] == journal;
      cache := Some(c);
    }

    static method Remember(c: seq<Cached>, e: Event) returns (r: seq<Cached>)
      ensures r == StoreAll(c, Keys(e.payload), e)
    {
      r := c;
      var keys := Keys(e.payload);
      for k := 0 to |keys|
        invariant StoreAll(r, keys[k..], e) == StoreAll(c, keys, e)
      {
        r := Store(r, keys[k], e);
        assert keys[k..][1..] == keys[k + 1..];
      }
    }

    method RecordedEvent(p: Payload) returns (prior: Option<Event>)
      requires Valid()
      modifies this`cache
      ensures Valid() && cache.Some? && prior == FindAny(CacheOf(journal), Keys(p))
    {
      var c := Cache();
      var keys := Keys(p);
      for k := 0 to |keys|
        invariant FindAny(c, keys[k..]) == FindAny(c, keys)
      {
        assert keys[k..][1..] == keys[k + 1..];
        var at := Position(c, keys[k]);
        if at < |c| { return Some(c[at].event); }
        if StartsWith(keys[k], "request:") {
          for i := 0 to |c|
            invariant FirstWithPrefix(c[i..], RequestPrefix(keys[k])) == FirstWithPrefix(c, RequestPrefix(keys[k]))
          {
            assert c[i..][1..] == c[i + 1..];
            if StartsWith(c[i].key, RequestPrefix(keys[k])) { return Some(c[i].event); }
          }
        }
      }
      return None;
    }

    method Record(p: Payload) returns (e: Event, deduplicated: bool)
      requires Valid()
      modifies this
      ensures Valid() && journal == Recorded(old(journal), p)
      ensures deduplicated <==> journal == old(journal)
      ensures deduplicated ==> FindAny(CacheOf(old(journal)), Keys(p)) == Some(e)
      ensures !deduplicated ==> journal == old(journal) + [e]
    {
      var prior := RecordedEvent(p);
      if prior.Some? { return prior.value, true; }
      e, deduplicated := Event(true, p, |journal|), false;
      var c := Remember(cache.value, e);
      assert (journal + [e])[..|journal|] == journal;
      journal, cache := journal + [e], Some(c);
    }

    method RecordAll(ps: seq<Payload>)
      requires Valid()
      modifies this
      ensures Valid() && journal == RecordedAll(old(journal), ps)
    {
      for k := 0 to |ps|
        invariant Valid() && RecordedAll(journal, ps[k..]) == RecordedAll(old(journal), ps)
      {
        assert ps[k..][1..] == ps[k + 1..];
        var _, _ := Record(ps[k]);
      }
    }
  }

  // ---------- What the cache holds ----------

  /** The key of some fact in the journal. */
  ghost predicate HasKey(journal: seq<Event>, key: string) {
    exists e :: e in journal && e.fact && key in Keys(e.payload)
  }

  ghost predicate Holds(cache: seq<Cached>, key: string) { exists k :: 0 <= k < |cache| && cache[k].key == key }

  lemma StoreHolds(cache: seq<Cached>, key: string, e: Event)
    ensures forall other :: Holds(Store(cache, key, e), other) <==> Holds(cache, other) || other == key
    ensures forall c | c in Store(cache, key, e) :: c in cache || c == Cached(key, e)
  {
    var k := Position(cache, key);
    var next := Store(cache, key, e);
    forall other ensures Holds(next, other) <==> Holds(cache, other) || other == key {
      if Holds(cache, other) {
        var i :| 0 <= i < |cache| && cache[i].key == other;
        assert next[i].key == other;
      }
      assert next[k].key == key;
      if Holds(next, other) {
        var i :| 0 <= i < |next| && next[i].key == other;
        assert i != k ==> cache[i].key == other;
      }
    }
  }

  lemma {:induction false} StoreAllHolds(cache: seq<Cached>, keys: seq<string>, e: Event)
    ensures forall key :: Holds(StoreAll(cache, keys, e), key) <==> Holds(cache, key) || key in keys
    ensures forall c | c in StoreAll(cache, keys, e) :: c in cache || (c.event == e && c.key in keys)
    decreases keys
  {
    if keys != [] {
      StoreHolds(cache, keys[0], e);
      StoreAllHolds(Store(cache, keys[0], e), keys[1..], e);
      assert keys == [keys[0]] + keys[1..];
    }
  }

  /** The cache holds exactly the keys of the journal's facts, each with a fact of that key. */
  lemma {:induction false} CacheTheorem(journal: seq<Event>)
    ensures forall key :: Holds(CacheOf(journal), key) <==> HasKey(journal, key)
    ensures forall c | c in CacheOf(journal) :: c.event in journal && c.event.fact && c.key in Keys(c.event.payload)
  {
    if journal != [] {
      var init, last := journal[..|journal| - 1], journal[|journal| - 1];
      CacheTheorem(init);
      assert journal == init + [last];
      StoreAllHolds(CacheOf(init), Keys(last.payload), last);
      forall key ensures HasKey(journal, key) <==> HasKey(init, key) || (last.fact && key in Keys(last.payload)) {
        if e :| e in init && e.fact && key in Keys(e.payload) { assert e in journal; }
        if last.fact && key in Keys(last.payload) { assert last in journal; }
      }
    }
  }

  // ---------- Texts of keys ----------

  ghost predicate ColonFree(s: string) { ':' !in s }

  lemma {:induction false} PrefixOfKey(head: string, run: string)
    requires ColonFree(run)
    ensures BeforeLastColon(head + ":" + run) == head
    decreases |run|
  {
    var s := head + ":" + run;
    assert s[|head|] == ':';
    if run == "" {
      assert s[..|s| - 1] == head;
    } else {
      var init := run[..|run| - 1];
      assert s[..|s| - 1] == head + ":" + init;
      PrefixOfKey(head, init);
    }
  }

  lemma StartsWithHead(s: string, prefix: string)
    requires prefix != ""
    ensures StartsWith(s, prefix) ==> s != "" && s[0] == prefix[0]
  {
  }

  lemma StartsWithShift(common: string, s: string, prefix: string)
    ensures StartsWith(common + s, common + prefix) <==> StartsWith(s, prefix)
  {
    if |prefix| <= |s| {
      assert (common + s)[..|common + prefix|] == common + s[..|prefix|];
      if common + s[..|prefix|] == common + prefix {
        assert s[..|prefix|] == (common + prefix)[|common|..];
      }
    }
  }

  /** With colon-free run ids a request's prefix matches the request itself and the request
      ids that extend it past a colon. */
  lemma RequestMatches(p: Payload, q: Payload)
    requires ColonFree(p.run) && ColonFree(q.run)
    ensures StartsWith(RequestKey(q), RequestPrefix(RequestKey(p))) <==>
            q.request == p.request || StartsWith(q.request, p.request + ":")
  {
    PrefixOfKey("request:" + p.request, p.run);
    assert RequestPrefix(RequestKey(p)) == "request:" + (p.request + ":");
    assert RequestKey(q) == "request:" + (q.request + ":" + q.run);
    StartsWithShift("request:", q.request + ":" + q.run, p.request + ":");
    ColonMatches(p.request, q.request, q.run);
  }

  lemma ColonMatches(r: string, s: string, run: string)
    requires ColonFree(run)
    ensures StartsWith(s + ":" + run, r + ":") <==> s == r || StartsWith(s, r + ":")
  {
    var text := s + ":" + run;
    if |r| < |s| {
      assert text[..|r| + 1] == s[..|r| + 1];
    } else if |r| == |s| {
      assert text[..|r| + 1] == s + ":";
      if s + ":" == r + ":" { assert s == (s + ":")[..|s|] == (r + ":")[..|r|] == r; }
    } else if |r| < |text| {
      assert text[|r|] == run[|r| - |s| - 1];
      assert run[|r| - |s| - 1] in run;
      assert text[..|r| + 1][|r|] != ':' && (r + ":")[|r|] == ':';
    }
  }

  lemma KeyKinds(p: Payload, q: Payload)
    ensures !StartsWith(EventKey(p), "request:")
    ensures StartsWith(RequestKey(p), "request:")
    ensures EventKey(p) != RequestKey(q)
    ensures EventKey(p) == EventKey(q) <==> p.execution == q.execution
  {
    assert EventKey(p)[0] == 'e' && RequestKey(q)[0] == 'r' && RequestKey(p)[0] == 'r';
    assert RequestKey(p)[..8] == "request:";
    StartsWithHead(EventKey(p), "request:");
    assert EventKey(p)[6..] == p.execution && EventKey(q)[6..] == q.execution;
  }

  lemma KeysOf(p: Payload, key: string)
    ensures key in Keys(p) <==>
      (p.execution != "" && key == EventKey(p)) || (p.request != "" && key == RequestKey(p))
  {
    assert p.run == "" ==> RequestKey(p) == "request:" + p.request + ":";
  }

  // ---------- Looking up is scanning ----------

  ghost predicate SameExecution(p: Payload, q: Payload) { p.execution != "" && p.execution == q.execution }

  ghost predicate SameRequest(p: Payload, q: Payload) { p.request != "" && p.request == q.request }

  ghost predicate Same(p: Payload, q: Payload) { SameExecution(p, q) || SameRequest(p, q) }

  ghost predicate Known(journal: seq<Event>, p: Payload) {
    exists e :: e in journal && e.fact && Same(p, e.payload)
  }

  /** A fact whose request id extends p's past a colon. */
  ghost predicate Extended(journal: seq<Event>, p: Payload) {
    exists e :: e in journal && e.fact && p.request != "" && StartsWith(e.payload.request, p.request + ":")
  }

  ghost predicate RunsColonFree(journal: seq<Event>) {
    forall e | e in journal && e.fact :: ColonFree(e.payload.run)
  }

  lemma {:induction false} FirstWithPrefixFinds(cache: seq<Cached>, prefix: string)
    ensures FirstWithPrefix(cache, prefix).Some? <==> exists k :: 0 <= k < |cache| && StartsWith(cache[k].key, prefix)
    ensures FirstWithPrefix(cache, prefix).Some? ==>
            exists c :: c in cache && StartsWith(c.key, prefix) && c.event == FirstWithPrefix(cache, prefix).value
  {
    if cache != [] {
      FirstWithPrefixFinds(cache[1..], prefix);
      assert cache == [cache[0]] + cache[1..];
      if StartsWith(cache[0].key, prefix) {
        assert cache[0] in cache;
      } else if k :| 0 <= k < |cache| && StartsWith(cache[k].key, prefix) {
        assert StartsWith(cache[1..][k - 1].key, prefix);
      }
    }
  }

  /** What one key finds: its own entry, or any entry its request prefix matches. */
  ghost predicate Matches(key: string, cached: string) {
    cached == key || (StartsWith(key, "request:") && StartsWith(cached, RequestPrefix(key)))
  }

  lemma FindFinds(cache: seq<Cached>, key: string)
    ensures Find(cache, key).Some? <==> exists k :: 0 <= k < |cache| && Matches(key, cache[k].key)
    ensures Find(cache, key).Some? ==>
            exists c :: c in cache && Matches(key, c.key) && c.event == Find(cache, key).value
  {
    var k := Position(cache, key);
    FirstWithPrefixFinds(cache, RequestPrefix(key));
    if k < |cache| { assert Matches(key, cache[k].key) && cache[k] in cache; }
  }

  lemma {:induction false} FindAnyFinds(cache: seq<Cached>, keys: seq<string>)
    ensures FindAny(cache, keys).Some? <==>
            exists key, k :: key in keys && 0 <= k < |cache| && Matches(key, cache[k].key)
    ensures FindAny(cache, keys).Some? ==>
            exists key, c :: key in keys && c in cache && Matches(key, c.key) && c.event == FindAny(cache, keys).value
  {
    if keys != [] {
      var rest := keys[1..];
      FindFinds(cache, keys[0]);
      FindAnyFinds(cache, rest);
      assert keys == [keys[0]] + rest;
      if k :| 0 <= k < |cache| && Matches(keys[0], cache[k].key) {
        assert keys[0] in keys && Matches(keys[0], cache[k].key);
        var c :| c in cache && Matches(keys[0], c.key) && c.event == Find(cache, keys[0]).value;
        assert keys[0] in keys && Matches(keys[0], c.key);
      } else {
        forall key | key in keys && key !in rest ensures key == keys[0] {}
        if FindAny(cache, rest).Some? {
          var key, c :| key in rest && c in cache && Matches(key, c.key) && c.event == FindAny(cache, rest).value;
          assert key in keys;
        }
      }
    }
  }

  lemma {:induction false} ColonPrefix(s: string)
    requires !ColonFree(s)
    ensures StartsWith(s, BeforeLastColon(s) + ":")
  {
    if s[|s| - 1] == ':' {
      assert s == s[..|s| - 1] + ":";
    } else {
      var init := s[..|s| - 1];
      assert s == init + [s[|s| - 1]];
      ColonPrefix(init);
    }
  }

  /** A request key starts with its own prefix, which starts no event key. */
  lemma PrefixFacts(p: Payload, q: Payload)
    ensures StartsWith(RequestKey(p), RequestPrefix(RequestKey(p)))
    ensures !StartsWith(EventKey(q), RequestPrefix(RequestKey(p)))
  {
    var key, prefix := RequestKey(p), RequestPrefix(RequestKey(p));
    assert key[7] == ':' && key[0] == 'r' && EventKey(q)[0] == 'e';
    ColonPrefix(key);
    StartsWithHead(key, prefix);
    StartsWithHead(EventKey(q), prefix);
  }

  /** The request key of q starts as the prefix of p's request key says. */
  ghost predicate Prefixed(p: Payload, q: Payload) {
    p.request != "" && q.request != "" && StartsWith(RequestKey(q), RequestPrefix(RequestKey(p)))
  }

  /** When a key of p matches a key of q. */
  lemma MatchesExactly(p: Payload, q: Payload)
    ensures (exists key, cached :: key in Keys(p) && cached in Keys(q) && Matches(key, cached)) <==>
            SameExecution(p, q) || Prefixed(p, q)
  {
    KeyKinds(p, q);
    KeyKinds(q, p);
    PrefixFacts(p, q);
    if key, cached :| key in Keys(p) && cached in Keys(q) && Matches(key, cached) {
      KeysOf(p, key);
      KeysOf(q, cached);
    }
    if SameExecution(p, q) {
      KeysOf(p, EventKey(p));
      KeysOf(q, EventKey(q));
      assert Matches(EventKey(p), EventKey(q));
    }
    if Prefixed(p, q) {
      KeysOf(p, RequestKey(p));
      KeysOf(q, RequestKey(q));
      assert Matches(RequestKey(p), RequestKey(q));
    }
  }

  /** Some fact has the same execution id, or a request key that p's prefix starts. */
  ghost predicate Detected(journal: seq<Event>, p: Payload) {
    exists e :: e in journal && e.fact && (SameExecution(p, e.payload) || Prefixed(p, e.payload))
  }

  /** What the cache finds, for all journals and reports: a fact with the same execution id or
      with a request key that starts with this report's prefix. */
  lemma LookupTheorem(journal: seq<Event>, p: Payload)
    ensures FindAny(CacheOf(journal), Keys(p)).Some? <==> Detected(journal, p)
    ensures FindAny(CacheOf(journal), Keys(p)).Some? ==>
            var e := FindAny(CacheOf(journal), Keys(p)).value;
            e in journal && e.fact && (SameExecution(p, e.payload) || Prefixed(p, e.payload))
  {
    var cache := CacheOf(journal);
    CacheTheorem(journal);
    FindAnyFinds(cache, Keys(p));
    if FindAny(cache, Keys(p)).Some? {
      var key, c :| key in Keys(p) && c in cache && Matches(key, c.key) && c.event == FindAny(cache, Keys(p)).value;
      MatchesExactly(p, c.event.payload);
    }
    if e :| e in journal && e.fact && (SameExecution(p, e.payload) || Prefixed(p, e.payload)) {
      MatchesExactly(p, e.payload);
      var key, cached :| key in Keys(p) && cached in Keys(e.payload) && Matches(key, cached);
      assert HasKey(journal, cached) && Holds(cache, cached);
      var k :| 0 <= k < |cache| && cache[k].key == cached;
      assert Matches(key, cache[k].key);
    }
  }

  /** With colon-free run ids the cache finds the facts that share an id and those whose
      request id extends this one past a colon. */
  lemma LookupByIds(journal: seq<Event>, p: Payload)
    requires ColonFree(p.run) && RunsColonFree(journal)
    ensures FindAny(CacheOf(journal), Keys(p)).Some? <==> Known(journal, p) || Extended(journal, p)
  {
    LookupTheorem(journal, p);
    forall e | e in journal && e.fact
      ensures Prefixed(p, e.payload) <==>
        SameRequest(p, e.payload) || (p.request != "" && StartsWith(e.payload.request, p.request + ":"))
    {
      RequestMatches(p, e.payload);
    }
  }

  // ---------- One report ----------

  ghost predicate NoDuplicates(journal: seq<Event>) {
    forall i, j | 0 <= i < j < |journal| && journal[i].fact && journal[j].fact ::
      !Same(journal[i].payload, journal[j].payload)
  }

  ghost predicate Identified(p: Payload) { p.execution != "" || p.request != "" }

  ghost predicate Prefixes(a: seq<Event>, b: seq<Event>) { |a| <= |b| && b[..|a|] == a }

  /** If a fact shares an id with the report, the cache finds one. */
  ghost predicate Caught(journal: seq<Event>, p: Payload) { Known(journal, p) ==> Detected(journal, p) }

  lemma AppendKeeps(journal: seq<Event>, e: Event)
    requires NoDuplicates(journal) && e.fact
    ensures NoDuplicates(journal + [e]) <==> !Known(journal, e.payload)
  {
    var next := journal + [e];
    if Known(journal, e.payload) {
      var x :| x in journal && x.fact && Same(e.payload, x.payload);
      var i :| 0 <= i < |journal| && journal[i] == x;
      assert next[i] == x && next[|journal|] == e && Same(next[i].payload, next[|journal|].payload);
    } else {
      forall i | 0 <= i < |journal| && journal[i].fact ensures !Same(journal[i].payload, e.payload) {
        assert journal[i] in journal;
      }
    }
  }

  /** One report keeps the journal free of duplicates exactly when the cache catches every
      fact it shares an id with, and ends up known exactly when it is not taken for another. */
  lemma RecordTheorem(journal: seq<Event>, p: Payload)
    ensures Prefixes(journal, Recorded(journal, p))
    ensures NoDuplicates(journal) ==> (NoDuplicates(Recorded(journal, p)) <==> Caught(journal, p))
    ensures Identified(p) ==> (Known(Recorded(journal, p), p) <==> (Detected(journal, p) ==> Known(journal, p)))
  {
    LookupTheorem(journal, p);
    var e := Event(true, p, |journal|);
    if !Detected(journal, p) {
      assert Recorded(journal, p) == journal + [e] && e in journal + [e];
      assert Same(p, p) <==> Identified(p);
      if NoDuplicates(journal) { AppendKeeps(journal, e); }
    }
  }

  lemma ColonFreeRunIsCaught(journal: seq<Event>, p: Payload)
    requires p.request == "" || ColonFree(p.run)
    ensures Caught(journal, p)
  {
    if p.request != "" {
      PrefixOfKey("request:" + p.request, p.run);
      forall q: Payload | SameRequest(p, q) ensures Prefixed(p, q) {
        var prefix := "request:" + p.request + ":";
        assert RequestKey(q) == prefix + q.run;
      }
    }
  }

  /** A fact of the same request that was reported without a run. */
  function Earlier(p: Payload): Event { Event(true, Payload("", p.request, ""), 0) }

  lemma ColonRunMisses(p: Payload)
    requires p.request != "" && !ColonFree(p.run)
    ensures !Caught([Earlier(p)], p)
  {
    var q := Earlier(p).payload;
    assert Earlier(p) in [Earlier(p)];
    var head := "request:" + p.request + ":";
    var prefix := RequestPrefix(RequestKey(p));
    assert RequestKey(q) == head;
    LongPrefix(head, p.run);
    assert |prefix| > |head|;
  }

  /** A colon in the run id moves the prefix past the request. */
  lemma {:induction false} LongPrefix(head: string, run: string)
    requires !ColonFree(run)
    ensures |BeforeLastColon(head + run)| >= |head|
  {
    var s := head + run;
    assert s[|s| - 1] == run[|run| - 1];
    var k :| 0 <= k < |run| && run[k] == ':';
    assert s[|head| + k] == ':';
    if run[|run| - 1] != ':' {
      var init := run[..|run| - 1];
      assert s[..|s| - 1] == head + init;
      assert init[k] == ':';
      LongPrefix(head, init);
    }
  }

  /** A report can never add a duplicate, whatever the journal, exactly when it has no request
      id or its run id has no colon. */
  lemma RunIdTheorem(p: Payload)
    ensures (forall journal | NoDuplicates(journal) :: NoDuplicates(Recorded(journal, p))) <==>
            p.request == "" || ColonFree(p.run)
  {
    if p.request == "" || ColonFree(p.run) {
      forall journal | NoDuplicates(journal) ensures NoDuplicates(Recorded(journal, p)) {
        ColonFreeRunIsCaught(journal, p);
        RecordTheorem(journal, p);
      }
    } else {
      var journal := [Earlier(p)];
      ColonRunMisses(p);
      RecordTheorem(journal, p);
      assert NoDuplicates(journal) && !NoDuplicates(Recorded(journal, p));
    }
  }

  // ---------- Colon-free requests ----------

  ghost predicate RequestsColonFree(journal: seq<Event>) {
    forall e | e in journal && e.fact :: ColonFree(e.payload.request)
  }

  lemma FirstColon(a: string, x: string, b: string, y: string)
    requires StartsWith(a + ":" + x, b + ":" + y)
    ensures |a| < |b| ==> !ColonFree(b)
    ensures |b| < |a| ==> !ColonFree(a)
    ensures |a| == |b| ==> a == b
  {
    var s, t := a + ":" + x, b + ":" + y;
    assert forall k | 0 <= k < |t| :: s[k] == s[..|t|][k] == t[k];
    assert s[|a|] == ':' && t[|b|] == ':';
    if |a| < |b| { assert b[|a|] == t[|a|]; }
    if |b| < |a| { assert a[|b|] == s[|b|]; }
    if |a| == |b| { assert forall k | 0 <= k < |a| :: a[k] == s[k] == t[k] == b[k]; }
  }

  /** The prefix of a request key is the request and a colon, and perhaps more. */
  lemma {:induction false} PrefixShape(head: string, run: string) returns (more: string)
    ensures BeforeLastColon(head + ":" + run) + ":" == head + ":" + more
    decreases |run|
  {
    var s := head + ":" + run;
    assert s[|head|] == ':';
    if ColonFree(run) {
      PrefixOfKey(head, run);
      more := "";
    } else if run[|run| - 1] == ':' {
      more := run;
      assert s[..|s| - 1] + ":" == s;
    } else {
      assert s[..|s| - 1] == head + ":" + run[..|run| - 1];
      more := PrefixShape(head, run[..|run| - 1]);
    }
  }

  /** Between colon-free request ids a prefix matches only the same request. */
  lemma PrefixedIsSame(p: Payload, q: Payload)
    requires ColonFree(p.request) && ColonFree(q.request) && Prefixed(p, q)
    ensures SameRequest(p, q)
  {
    var more := PrefixShape("request:" + p.request, p.run);
    assert RequestPrefix(RequestKey(p)) == "request:" + (p.request + ":" + more);
    assert RequestKey(q) == "request:" + (q.request + ":" + q.run);
    StartsWithShift("request:", q.request + ":" + q.run, p.request + ":" + more);
    FirstColon(q.request, q.run, p.request, more);
  }

  lemma DetectedIsKnown(journal: seq<Event>, p: Payload)
    requires ColonFree(p.request) && RequestsColonFree(journal) && Detected(journal, p)
    ensures Known(journal, p)
  {
    var e :| e in journal && e.fact && (SameExecution(p, e.payload) || Prefixed(p, e.payload));
    if Prefixed(p, e.payload) { PrefixedIsSame(p, e.payload); }
  }

  /** With colon-free request ids and a colon-free run id the cache is a scan of the journal. */
  lemma LookupIsScan(journal: seq<Event>, p: Payload)
    requires ColonFree(p.request) && ColonFree(p.run) && RequestsColonFree(journal)
    ensures FindAny(CacheOf(journal), Keys(p)).Some? <==> Known(journal, p)
  {
    LookupTheorem(journal, p);
    ColonFreeRunIsCaught(journal, p);
    if Detected(journal, p) { DetectedIsKnown(journal, p); }
  }

  // ---------- Whole runs ----------

  lemma {:induction false} RunGrows(journal: seq<Event>, ps: seq<Payload>, n: nat)
    requires n <= |ps|
    ensures Prefixes(RecordedAll(journal, ps[..n]), RecordedAll(journal, ps))
    decreases |ps|
  {
    if n == 0 {
      assert ps[..0] == [];
      if ps != [] {
        var next := Recorded(journal, ps[0]);
        RecordTheorem(journal, ps[0]);
        RunGrows(next, ps[1..], 0);
        assert ps[1..][..0] == [];
        PrefixesJoin(journal, next, RecordedAll(next, ps[1..]));
      }
    } else {
      assert ps[..n][1..] == ps[1..][..n - 1];
      RunGrows(Recorded(journal, ps[0]), ps[1..], n - 1);
    }
  }

  lemma PrefixesJoin(a: seq<Event>, b: seq<Event>, c: seq<Event>)
    requires Prefixes(a, b) && Prefixes(b, c)
    ensures Prefixes(a, c)
  {
    assert c[..|a|] == c[..|b|][..|a|];
  }

  lemma PrefixDuplicates(a: seq<Event>, b: seq<Event>)
    requires Prefixes(a, b) && NoDuplicates(b)
    ensures NoDuplicates(a)
  {
    assert forall i | 0 <= i < |a| :: a[i] == b[..|a|][i] == b[i];
  }

  lemma KnownLater(a: seq<Event>, b: seq<Event>, p: Payload)
    requires Prefixes(a, b) && Known(a, p)
    ensures Known(b, p)
  {
    var e :| e in a && e.fact && Same(p, e.payload);
    assert e in b[..|a|];
  }

  /** The cache catches each report of the run when its turn comes. */
  ghost predicate AllCaught(journal: seq<Event>, ps: seq<Payload>)
    decreases ps
  {
    ps == [] || (Caught(journal, ps[0]) && AllCaught(Recorded(journal, ps[0]), ps[1..]))
  }

  lemma {:induction false} RunKeeps(journal: seq<Event>, ps: seq<Payload>)
    requires NoDuplicates(journal)
    ensures NoDuplicates(RecordedAll(journal, ps)) <==> AllCaught(journal, ps)
    decreases ps
  {
    if ps != [] {
      var next := Recorded(journal, ps[0]);
      RecordTheorem(journal, ps[0]);
      RunGrows(next, ps[1..], 0);
      assert ps[1..][..0] == [];
      if NoDuplicates(next) {
        RunKeeps(next, ps[1..]);
      } else if NoDuplicates(RecordedAll(journal, ps)) {
        PrefixDuplicates(next, RecordedAll(next, ps[1..]));
      }
    }
  }

  lemma {:induction false} ColonFreeRunsAreCaught(journal: seq<Event>, ps: seq<Payload>)
    requires forall p | p in ps :: p.request == "" || ColonFree(p.run)
    ensures AllCaught(journal, ps)
    decreases ps
  {
    if ps != [] {
      ColonFreeRunIsCaught(journal, ps[0]);
      ColonFreeRunsAreCaught(Recorded(journal, ps[0]), ps[1..]);
    }
  }

  lemma {:induction false} RunKnows(journal: seq<Event>, ps: seq<Payload>, p: Payload)
    requires RequestsColonFree(journal) && (forall q | q in ps :: ColonFree(q.request)) && p in ps && Identified(p)
    ensures Known(RecordedAll(journal, ps), p)
    decreases ps
  {
    var next := Recorded(journal, ps[0]);
    if p == ps[0] {
      RecordTheorem(journal, p);
      if Detected(journal, p) { DetectedIsKnown(journal, p); }
      RunGrows(next, ps[1..], 0);
      assert ps[1..][..0] == [];
      KnownLater(next, RecordedAll(next, ps[1..]), p);
    } else {
      RunKnows(next, ps[1..], p);
    }
  }

  lemma {:induction false} RunAdds(journal: seq<Event>, ps: seq<Payload>, k: nat)
    requires |journal| <= k < |RecordedAll(journal, ps)|
    ensures RecordedAll(journal, ps)[k].fact && RecordedAll(journal, ps)[k].payload in ps
    decreases ps
  {
    assert ps != [];
    var next := Recorded(journal, ps[0]);
    RunGrows(next, ps[1..], 0);
    assert ps[1..][..0] == [];
    if k < |next| {
      assert RecordedAll(next, ps[1..])[..|next|][k] == next[k];
    } else {
      RunAdds(next, ps[1..], k);
    }
  }

  /** Over any run of reports nothing is rewritten and only reports are added. From a journal
      without duplicates, no two facts share an id exactly when the cache caught every report;
      it does whenever run ids have no colon. With colon-free request ids every report with an
      id ends up known. */
  lemma RunTheorem(journal: seq<Event>, ps: seq<Payload>)
    ensures Prefixes(journal, RecordedAll(journal, ps))
    ensures forall k | |journal| <= k < |RecordedAll(journal, ps)| ::
              RecordedAll(journal, ps)[k].fact && RecordedAll(journal, ps)[k].payload in ps
    ensures NoDuplicates(journal) ==> (NoDuplicates(RecordedAll(journal, ps)) <==> AllCaught(journal, ps))
    ensures NoDuplicates(journal) && (forall p | p in ps :: p.request == "" || ColonFree(p.run)) ==>
              NoDuplicates(RecordedAll(journal, ps))
    ensures RequestsColonFree(journal) && (forall p | p in ps :: ColonFree(p.request)) ==>
              forall p | p in ps && Identified(p) :: Known(RecordedAll(journal, ps), p)
  {
    RunGrows(journal, ps, 0);
    assert ps[..0] == [];
    forall k | |journal| <= k < |RecordedAll(journal, ps)|
      ensures RecordedAll(journal, ps)[k].fact && RecordedAll(journal, ps)[k].payload in ps
    {
      RunAdds(journal, ps, k);
    }
    if NoDuplicates(journal) { RunKeeps(journal, ps); }
    if forall p | p in ps :: p.request == "" || ColonFree(p.run) { ColonFreeRunsAreCaught(journal, ps); }
    if RequestsColonFree(journal) && (forall p | p in ps :: ColonFree(p.request)) {
      forall p | p in ps && Identified(p) ensures Known(RecordedAll(journal, ps), p) { RunKnows(journal, ps, p); }
    }
  }

  // ---------- Ids with colons ----------

  /** A colon in a recorded request id makes a different request look recorded. */
  lemma ColonInRequestHides()
    ensures var journal := [Event(true, Payload("", "a:b", ""), 0)];
      !Known(journal, Payload("", "a", "")) && Recorded(journal, Payload("", "a", "")) == journal
  {
    var e := Event(true, Payload("", "a:b", ""), 0);
    var journal := [e];
    var p := Payload("", "a", "");
    assert e in journal && "a:b"[..2] == "a:";
    LookupByIds(journal, p);
  }

  /** A colon in a run id makes the same request be recorded twice. */
  lemma ColonInRunRepeats()
    ensures var journal := [Event(true, Payload("", "a", ""), 0)];
      Known(journal, Payload("", "a", "x:y")) && !NoDuplicates(Recorded(journal, Payload("", "a", "x:y")))
  {
    var p := Payload("", "a", "x:y");
    assert p.run[1] == ':';
    ColonRunMisses(p);
    RecordTheorem([Earlier(p)], p);
  }
}
