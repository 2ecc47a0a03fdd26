/** Folding a conversation for the model's context: completed tool exchanges go, unfinished
    calls become breakpoints, and results still awaiting an answer move to a checkpoint. */
module Folding {
  import opened Wrappers
  import opened Picking

  datatype Role = User | Assistant | Tool | OtherRole

  datatype Call = Call(name: string, id: string, arguments: string)

  /** `resultOf` is the id a tool message reports on; `calls` is None when there is no list. */
  datatype Message =
    | NotMapping
    | Message(role: Role, content: string, resultOf: string, calls: Option<seq<Call>>)

  /** Redaction of contents, of tool names, and of ids. */
  datatype Redactor = Redactor(content: string -> string, name: string -> string, id: string -> string)

  /** "There are unfinished tool calls; resume from the authoritative run checkpoint." */
  const BREAKPOINT := "存在未完成工具调用；请从权威运行断点恢复。"

  predicate Reports(m: Message) { m.Message? && m.role == Tool && m.resultOf != "" }

  predicate Announces(m: Message) { m.Message? && m.role == Assistant && m.calls.Some? }

  predicate Turn(m: Message) { m.Message? && m.role in {User, Assistant} }

  function CallIds(calls: seq<Call>): set<string> {
    set k | 0 <= k < |calls| && calls[k].id != "" :: calls[k].id
  }

  function ResultIds(ms: seq<Message>): set<string> {
    set k | 0 <= k < |ms| && Reports(ms[k]) :: ms[k].resultOf
  }

  function AnnouncedIds(ms: seq<Message>): set<string> {
    if ms == [] then {}
    else (if Announces(ms[0]) then CallIds(ms[0].calls.value) else {}) + AnnouncedIds(ms[1..])
  }

  function CompletedIds(ms: seq<Message>): set<string> { ResultIds(ms) * AnnouncedIds(ms) }

  function PendingCall(r: Redactor, done: set<string>, call: Call): Option<Call> {
    if call.id != "" && call.id in done then None
    else
      var name, id := r.name(call.name), r.id(call.id);
      if name == "" && id == "" then None
      else Some(Call(if name == "" then "unknown" else name, id, "{}"))
  }

  function Pending(r: Redactor, done: set<string>): Call -> Option<Call> { call => PendingCall(r, done, call) }

  function Project(r: Redactor, done: set<string>, m: Message): Option<Message> {
    if m.NotMapping? || m.role == OtherRole then None
    else if m.role == Assistant && m.calls.Some? then
      var pending := Pick(Pending(r, done), m.calls.value);
      if pending == [] then None else Some(Message(Assistant, BREAKPOINT, "", Some(pending)))
    else if m.role == Tool && m.resultOf in done then None
    else Some(Message(m.role, r.content(m.content), if m.role == Tool then r.id(m.resultOf) else "", None))
  }

  function Projector(r: Redactor, done: set<string>): Message -> Option<Message> { m => Project(r, done, m) }

  function Folded(r: Redactor, ms: seq<Message>): seq<Message> { Pick(Projector(r, CompletedIds(ms)), ms) }

  method PendingCalls(r: Redactor, done: set<string>, calls: seq<Call>) returns (pending: seq<Call>)
    ensures pending == Pick(Pending(r, done), calls)
  {
    pending := [];
    for k := 0 to |calls|
      invariant pending == Pick(Pending(r, done), calls[..k])
    {
      PickGrows(Pending(r, done), calls, k);
      if calls[k].id != "" && calls[k].id in done { continue; }
      var call := PendingCall(r, done, calls[k]);
      if call.Some? { pending := pending + [call.value]; }
    }
    assert calls[..|calls|] == calls;
  }

  method MessagesForContext(r: Redactor, ms: seq<Message>) returns (out: seq<Message>)
    ensures out == Folded(r, ms)
  {
    var done := ResultIds(ms) * AnnouncedIds(ms);
    out := [];
    for k := 0 to |ms|
      invariant out == Pick(Projector(r, done), ms[..k])
    {
      PickGrows(Projector(r, done), ms, k);
      var m := ms[k];
      if m.NotMapping? || m.role == OtherRole { continue; }
      if m.role == Assistant && m.calls.Some? {
        var pending := PendingCalls(r, done, m.calls.value);
        if pending == [] { continue; }
        out := out + [Message(Assistant, BREAKPOINT, "", Some(pending))];
        continue;
      }
      if m.role == Tool && m.resultOf in done { continue; }
      out := out + [Message(m.role, r.content(m.content), if m.role == Tool then r.id(m.resultOf) else "", None)];
    }
    assert ms[..|ms|] == ms;
  }

  // ---------- What survives ----------

  ghost predicate CalledAt(ms: seq<Message>, id: string, i: nat, k: nat) {
    i < |ms| && Announces(ms[i]) && k < |ms[i].calls.value| && ms[i].calls.value[k].id == id
  }

  /** A call with this id was announced and a result with this id came. */
  ghost predicate Completed(ms: seq<Message>, id: string) {
    && id != ""
    && (exists i: nat, k: nat :: CalledAt(ms, id, i, k))
    && (exists j :: 0 <= j < |ms| && Reports(ms[j]) && ms[j].resultOf == id)
  }

  lemma {:induction false} AnnouncedExactly(ms: seq<Message>, id: string)
    ensures id in AnnouncedIds(ms) <==> id != "" && exists i: nat, k: nat :: CalledAt(ms, id, i, k)
  {
    if ms != [] {
      AnnouncedExactly(ms[1..], id);
      if id != "" {
        if i: nat, k: nat :| CalledAt(ms, id, i, k) {
          if i > 0 { assert CalledAt(ms[1..], id, i - 1, k); }
        }
        if i: nat, k: nat :| CalledAt(ms[1..], id, i, k) { assert CalledAt(ms, id, i + 1, k); }
        if Announces(ms[0]) && id in CallIds(ms[0].calls.value) {
          var k :| 0 <= k < |ms[0].calls.value| && ms[0].calls.value[k].id == id;
          assert CalledAt(ms, id, 0, k);
        }
      }
    }
  }

  lemma CompletedExactly(ms: seq<Message>, id: string)
    ensures id in CompletedIds(ms) <==> Completed(ms, id)
  {
    AnnouncedExactly(ms, id);
  }

  ghost predicate Unfinished(r: Redactor, ms: seq<Message>, call: Call) {
    !Completed(ms, call.id) && (r.name(call.name) != "" || r.id(call.id) != "")
  }

  ghost predicate HasUnfinished(r: Redactor, ms: seq<Message>, calls: seq<Call>) {
    exists k :: 0 <= k < |calls| && Unfinished(r, ms, calls[k])
  }

  /** Which messages stay, said of the conversation itself. */
  ghost predicate Survives(r: Redactor, ms: seq<Message>, m: Message) {
    m.Message? &&
    match m.role
    case User => true
    case Tool => !Completed(ms, m.resultOf)
    case Assistant => m.calls.Some? ==> HasUnfinished(r, ms, m.calls.value)
    case OtherRole => false
  }

  /** `shown` is `call` without its arguments. */
  ghost predicate ShowsCall(r: Redactor, call: Call, shown: Call) {
    && shown.id == r.id(call.id) && shown.arguments == "{}"
    && shown.name == (if r.name(call.name) == "" then "unknown" else r.name(call.name))
  }

  ghost predicate ShowsCallsAt(r: Redactor, ms: seq<Message>, calls: seq<Call>, shown: seq<Call>, kept: seq<nat>) {
    && |kept| == |shown| && Increasing(kept)
    && (forall k | 0 <= k < |kept| :: kept[k] < |calls| && ShowsCall(r, calls[kept[k]], shown[k]))
    && (forall i: nat | i < |calls| :: i in kept <==> Unfinished(r, ms, calls[i]))
  }

  /** The shown calls are exactly the unfinished ones, in order. */
  ghost predicate ShowsCalls(r: Redactor, ms: seq<Message>, calls: seq<Call>, shown: seq<Call>) {
    exists kept: seq<nat> :: ShowsCallsAt(r, ms, calls, shown, kept)
  }

  ghost predicate Shows(r: Redactor, ms: seq<Message>, m: Message, shown: Message) {
    && m.Message? && shown.Message? && shown.role == m.role
    && shown.resultOf == (if m.role == Tool then r.id(m.resultOf) else "")
    && if m.role == Assistant && m.calls.Some?
       then shown.content == BREAKPOINT && shown.calls.Some?
            && ShowsCalls(r, ms, m.calls.value, shown.calls.value)
       else shown.content == r.content(m.content) && shown.calls.None?
  }

  lemma PendingExactly(r: Redactor, ms: seq<Message>, call: Call)
    ensures PendingCall(r, CompletedIds(ms), call).Some? <==> Unfinished(r, ms, call)
    ensures Unfinished(r, ms, call) ==> ShowsCall(r, call, PendingCall(r, CompletedIds(ms), call).value)
  {
    CompletedExactly(ms, call.id);
  }

  lemma CallsExactly(r: Redactor, ms: seq<Message>, calls: seq<Call>)
    ensures ShowsCalls(r, ms, calls, Pick(Pending(r, CompletedIds(ms)), calls))
    ensures Pick(Pending(r, CompletedIds(ms)), calls) != [] <==> HasUnfinished(r, ms, calls)
  {
    var f := Pending(r, CompletedIds(ms));
    var kept, shown := Picked(f, calls), Pick(f, calls);
    PickedPositions(f, calls);
    forall k | 0 <= k < |kept| ensures kept[k] < |calls| && ShowsCall(r, calls[kept[k]], shown[k]) {
      PendingExactly(r, ms, calls[kept[k]]);
    }
    forall i: nat | i < |calls| ensures i in kept <==> Unfinished(r, ms, calls[i]) {
      PendingExactly(r, ms, calls[i]);
    }
    assert ShowsCallsAt(r, ms, calls, shown, kept);
    SomeUnfinished(r, ms, calls, shown, kept);
  }

  lemma SomeUnfinished(r: Redactor, ms: seq<Message>, calls: seq<Call>, shown: seq<Call>, kept: seq<nat>)
    requires ShowsCallsAt(r, ms, calls, shown, kept)
    ensures shown != [] <==> HasUnfinished(r, ms, calls)
  {
    if shown != [] { assert kept[0] in kept && Unfinished(r, ms, calls[kept[0]]); }
    if k :| 0 <= k < |calls| && Unfinished(r, ms, calls[k]) { assert k in kept; }
  }

  lemma ProjectExactly(r: Redactor, ms: seq<Message>, m: Message)
    ensures Project(r, CompletedIds(ms), m).Some? <==> Survives(r, ms, m)
    ensures Survives(r, ms, m) ==> Shows(r, ms, m, Project(r, CompletedIds(ms), m).value)
  {
    if Announces(m) {
      CallsExactly(r, ms, m.calls.value);
    } else if m.Message? && m.role == Tool {
      CompletedExactly(ms, m.resultOf);
    }
  }

  /** The fold keeps exactly the surviving messages, in order, each shown without what it
      no longer needs: a completed exchange leaves nothing, an orphan result and every
      identifiable unfinished call stay. */
  lemma FoldTheorem(r: Redactor, ms: seq<Message>) returns (kept: seq<nat>)
    ensures Increasing(kept) && |kept| == |Folded(r, ms)|
    ensures forall k | 0 <= k < |kept| :: kept[k] < |ms|
    ensures forall k | 0 <= k < |kept| :: Shows(r, ms, ms[kept[k]], Folded(r, ms)[k])
    ensures forall i: nat | i < |ms| :: i in kept <==> Survives(r, ms, ms[i])
  {
    var f := Projector(r, CompletedIds(ms));
    PickedPositions(f, ms);
    kept := Picked(f, ms);
    forall k | 0 <= k < |kept| ensures Shows(r, ms, ms[kept[k]], Folded(r, ms)[k]) {
      ProjectExactly(r, ms, ms[kept[k]]);
    }
    forall i: nat | i < |ms| ensures i in kept <==> Survives(r, ms, ms[i]) {
      ProjectExactly(r, ms, ms[i]);
    }
  }

  // ---------- Folding twice ----------

  /** Redacting twice redacts no more. */
  ghost predicate Stable(r: Redactor) {
    && (forall x {:trigger r.content(r.content(x))} :: r.content(r.content(x)) == r.content(x))
    && (forall x {:trigger r.name(r.name(x))} :: r.name(r.name(x)) == r.name(x))
    && (forall x {:trigger r.id(r.id(x))} :: r.id(r.id(x)) == r.id(x))
    && r.name("unknown") == "unknown" && r.id("") == ""
  }

  /** An unfinished call and an orphan result whose ids redact to the same text. */
  ghost predicate ClashAt(r: Redactor, ms: seq<Message>, i: nat, k: nat, j: nat) {
    && i < |ms| && Announces(ms[i]) && k < |ms[i].calls.value|
    && j < |ms| && ms[j].Message? && ms[j].role == Tool
    && !Completed(ms, ms[i].calls.value[k].id) && !Completed(ms, ms[j].resultOf)
    && r.id(ms[i].calls.value[k].id) == r.id(ms[j].resultOf) != ""
  }

  ghost predicate Clash(r: Redactor, ms: seq<Message>) {
    exists i: nat, k: nat, j: nat :: ClashAt(r, ms, i, k, j)
  }

  lemma ClashCompletes(r: Redactor, ms: seq<Message>, i: nat, k: nat, j: nat)
    requires ClashAt(r, ms, i, k, j)
    ensures Completed(Folded(r, ms), r.id(ms[j].resultOf))
  {
    var done, out := CompletedIds(ms), Folded(r, ms);
    var id := r.id(ms[j].resultOf);
    var calls := ms[i].calls.value;
    assert Unfinished(r, ms, calls[k]);
    ProjectExactly(r, ms, ms[i]);
    ProjectExactly(r, ms, ms[j]);
    PendingExactly(r, ms, calls[k]);
    PickHas(Pending(r, done), calls, k);
    PickHas(Projector(r, done), ms, i);
    PickHas(Projector(r, done), ms, j);
    var a: nat :| a < |out| && out[a] == Project(r, done, ms[i]).value;
    var b: nat :| b < |out| && out[b] == Project(r, done, ms[j]).value;
    var c: nat :| c < |out[a].calls.value| && out[a].calls.value[c] == PendingCall(r, done, calls[k]).value;
    assert CalledAt(out, id, a, c);
    assert Reports(out[b]) && out[b].resultOf == id;
  }

  lemma CompletedClashes(r: Redactor, ms: seq<Message>, id: string)
    requires Completed(Folded(r, ms), id)
    ensures Clash(r, ms)
  {
    var done, out := CompletedIds(ms), Folded(r, ms);
    var a: nat, c: nat :| CalledAt(out, id, a, c);
    var b: nat :| b < |out| && Reports(out[b]) && out[b].resultOf == id;
    var i := PickFrom(Projector(r, done), ms, a);
    var j := PickFrom(Projector(r, done), ms, b);
    var k := PickFrom(Pending(r, done), ms[i].calls.value, c);
    ProjectExactly(r, ms, ms[j]);
    PendingExactly(r, ms, ms[i].calls.value[k]);
    assert ClashAt(r, ms, i, k, j);
  }

  lemma CallSettled(r: Redactor, done: set<string>, call: Call)
    requires Stable(r) && PendingCall(r, done, call).Some?
    ensures var p := PendingCall(r, done, call).value; PendingCall(r, {}, p) == Some(p)
  {
  }

  lemma ProjectSettled(r: Redactor, done: set<string>, m: Message)
    requires Stable(r) && Project(r, done, m).Some?
    ensures var p := Project(r, done, m).value; Project(r, {}, p) == Some(p)
  {
    if m.role == Assistant && m.calls.Some? {
      var calls := Pick(Pending(r, done), m.calls.value);
      forall k | 0 <= k < |calls| ensures Pending(r, {})(calls[k]) == Some(calls[k]) {
        var i := PickFrom(Pending(r, done), m.calls.value, k);
        CallSettled(r, done, m.calls.value[i]);
      }
      PickUnchanged(Pending(r, {}), calls);
    }
  }

  /** Folding again changes nothing exactly when redaction gives no unfinished call the id
      of an orphan result. */
  lemma FoldTwiceTheorem(r: Redactor, ms: seq<Message>)
    requires Stable(r)
    ensures Folded(r, Folded(r, ms)) == Folded(r, ms) <==> !Clash(r, ms)
  {
    var done, out := CompletedIds(ms), Folded(r, ms);
    var f := Projector(r, CompletedIds(out));
    PickUnchanged(f, out);
    if Clash(r, ms) {
      var i: nat, k: nat, j: nat :| ClashAt(r, ms, i, k, j);
      ClashCompletes(r, ms, i, k, j);
      var id := r.id(ms[j].resultOf);
      CompletedExactly(out, id);
      var b :| 0 <= b < |out| && Reports(out[b]) && out[b].resultOf == id;
      assert f(out[b]) == None;
    } else {
      forall id ensures id !in CompletedIds(out) {
        CompletedExactly(out, id);
        if Completed(out, id) { CompletedClashes(r, ms, id); }
      }
      assert CompletedIds(out) == {};
      forall b | 0 <= b < |out| ensures f(out[b]) == Some(out[b]) {
        var i := PickFrom(Projector(r, done), ms, b);
        ProjectSettled(r, done, ms[i]);
      }
    }
  }

  /** When redaction leaves ids alone, folding is idempotent and no completed exchange is left. */
  lemma FaithfulIdsFold(r: Redactor, ms: seq<Message>)
    requires Stable(r) && forall id :: r.id(id) == id
    ensures Folded(r, Folded(r, ms)) == Folded(r, ms)
    ensures forall id :: !Completed(Folded(r, ms), id)
  {
    FoldTwiceTheorem(r, ms);
    if i: nat, k: nat, j: nat :| ClashAt(r, ms, i, k, j) {
      assert CalledAt(ms, ms[i].calls.value[k].id, i, k);
      assert Reports(ms[j]);
      assert false;
    }
    forall id ensures !Completed(Folded(r, ms), id) {
      if Completed(Folded(r, ms), id) { CompletedClashes(r, ms, id); }
    }
  }

  // ---------- The checkpoint ----------

  /** Reported ids after the last user or assistant message, in order. */
  function Tail(announced: set<string>, ms: seq<Message>): seq<string> {
    if ms == [] || Turn(ms[|ms| - 1]) then []
    else
      var m := ms[|ms| - 1];
      Tail(announced, ms[..|ms| - 1])
      + (if m.Message? && m.role == Tool && m.resultOf in announced then [m.resultOf] else [])
  }

  /** First occurrences, in order. */
  function Distinct(xs: seq<string>): seq<string> {
    if xs == [] then []
    else
      var init, last := Distinct(xs[..|xs| - 1]), xs[|xs| - 1];
      if last in init then init else init + [last]
  }

  function Redacted(r: Redactor, ids: seq<string>): seq<string> {
    seq(|ids|, k requires 0 <= k < |ids| => r.id(ids[k]))
  }

  /** None when no result awaits the model's answer. */
  function FollowupIds(r: Redactor, ms: seq<Message>): Option<seq<string>> {
    var tail := Tail(AnnouncedIds(ms), ms);
    if tail == [] then None else Some(Distinct(Redacted(r, tail)))
  }

  function Reversed(xs: seq<string>): seq<string> {
    if xs == [] then [] else [xs[|xs| - 1]] + Reversed(xs[..|xs| - 1])
  }

  /** The tail read backwards, stopping at the first user or assistant message. */
  method CompletedTail(announced: set<string>, ms: seq<Message>) returns (tail: seq<string>)
    ensures Reversed(tail) == Tail(announced, ms)
  {
    tail := [];
    var n := |ms|;
    assert ms[..n] == ms;
    while n > 0
      invariant 0 <= n <= |ms|
      invariant Tail(announced, ms[..n]) + Reversed(tail) == Tail(announced, ms)
    {
      var m := ms[n - 1];
      if Turn(m) { break; }
      assert ms[..n][..n - 1] == ms[..n - 1];
      if m.Message? && m.role == Tool && m.resultOf in announced {
        ReversedGrows(tail, m.resultOf);
        tail := tail + [m.resultOf];
      }
      n := n - 1;
    }
    assert Tail(announced, ms[..n]) == [];
  }

  lemma ReversedGrows(xs: seq<string>, x: string)
    ensures Reversed(xs + [x]) == [x] + Reversed(xs)
  {
    assert (xs + [x])[..|xs|] == xs;
  }

  lemma RedactedGrows(r: Redactor, xs: seq<string>, n: nat)
    requires n < |xs|
    ensures var next := Redacted(r, xs[..n + 1]);
      |next| == n + 1 && next[n] == r.id(xs[n]) && next[..n] == Redacted(r, xs[..n])
  {
  }

  /** Redacted ids in reading order, first occurrences only. */
  method DistinctIds(r: Redactor, tail: seq<string>) returns (shown: seq<string>)
    ensures shown == Distinct(Redacted(r, Reversed(tail)))
  {
    shown := [];
    ghost var whole := Reversed(tail);
    ReversedAt(tail, 0);
    var k := |tail|;
    while k > 0
      invariant 0 <= k <= |tail|
      invariant shown == Distinct(Redacted(r, whole[..|tail| - k]))
    {
      k := k - 1;
      ghost var n := |tail| - 1 - k;
      ReversedAt(tail, n);
      RedactedGrows(r, whole, n);
      var id := r.id(tail[k]);
      if id !in shown { shown := shown + [id]; }
    }
    assert whole[..|whole|] == whole;
  }

  method ToolFollowup(r: Redactor, ms: seq<Message>) returns (ids: Option<seq<string>>)
    ensures ids == FollowupIds(r, ms)
  {
    var tail := CompletedTail(AnnouncedIds(ms), ms);
    ReversedAt(tail, 0);
    if tail == [] { return None; }
    var shown := DistinctIds(r, tail);
    ids := Some(shown);
  }

  lemma {:induction false} ReversedAt(xs: seq<string>, k: nat)
    ensures |Reversed(xs)| == |xs|
    ensures k < |xs| ==> Reversed(xs)[k] == xs[|xs| - 1 - k]
  {
    if xs != [] { ReversedAt(xs[..|xs| - 1], if k == 0 then 0 else k - 1); }
  }

  ghost predicate TurnAfter(ms: seq<Message>, i: nat) {
    exists j :: i < j < |ms| && Turn(ms[j])
  }

  /** A result on an announced call that no user or assistant message follows. */
  ghost predicate Awaiting(ms: seq<Message>, announced: set<string>, i: nat) {
    i < |ms| && ms[i].Message? && ms[i].role == Tool && ms[i].resultOf in announced && !TurnAfter(ms, i)
  }

  ghost predicate AwaitingId(ms: seq<Message>, announced: set<string>, id: string) {
    exists i: nat :: Awaiting(ms, announced, i) && ms[i].resultOf == id
  }

  lemma {:induction false} TailExactly(announced: set<string>, ms: seq<Message>, id: string)
    ensures id in Tail(announced, ms) <==> AwaitingId(ms, announced, id)
  {
    if ms != [] {
      var n := |ms| - 1;
      if Turn(ms[n]) {
        forall i: nat | i < |ms| ensures !Awaiting(ms, announced, i) {
          if i < n { assert Turn(ms[n]) && TurnAfter(ms, i); }
        }
      } else {
        TailExactly(announced, ms[..n], id);
        AwaitingLast(announced, ms, id);
      }
    }
  }

  lemma AwaitingShorter(announced: set<string>, ms: seq<Message>, i: nat)
    requires i < |ms| - 1 && !Turn(ms[|ms| - 1])
    ensures Awaiting(ms[..|ms| - 1], announced, i) <==> Awaiting(ms, announced, i)
  {
    var init := ms[..|ms| - 1];
    if TurnAfter(ms, i) {
      var j :| i < j < |ms| && Turn(ms[j]);
      assert Turn(init[j]);
    }
    if TurnAfter(init, i) {
      var j :| i < j < |init| && Turn(init[j]);
      assert Turn(ms[j]);
    }
  }

  lemma AwaitingLast(announced: set<string>, ms: seq<Message>, id: string)
    requires ms != [] && !Turn(ms[|ms| - 1])
    ensures
      var m := ms[|ms| - 1];
      AwaitingId(ms, announced, id) <==>
        || AwaitingId(ms[..|ms| - 1], announced, id)
        || (m.Message? && m.role == Tool && m.resultOf in announced && m.resultOf == id)
  {
    var n := |ms| - 1;
    var m, init := ms[n], ms[..n];
    if i: nat :| Awaiting(init, announced, i) && init[i].resultOf == id {
      AwaitingShorter(announced, ms, i);
      assert Awaiting(ms, announced, i) && ms[i].resultOf == id;
    }
    if i: nat :| Awaiting(ms, announced, i) && ms[i].resultOf == id {
      if i < n {
        AwaitingShorter(announced, ms, i);
        assert Awaiting(init, announced, i) && init[i].resultOf == id;
      }
    }
    if m.Message? && m.role == Tool && m.resultOf in announced && m.resultOf == id {
      assert Awaiting(ms, announced, n);
    }
  }

  lemma AppendDiffers(xs: seq<string>, x: string)
    requires AllDiffer(xs) && x !in xs
    ensures AllDiffer(xs + [x])
  {
  }

  lemma {:induction false} DistinctExactly(xs: seq<string>)
    ensures forall x :: x in Distinct(xs) <==> x in xs
    ensures AllDiffer(Distinct(xs))
    ensures xs != [] ==> Distinct(xs) != []
  {
    if xs != [] {
      var front, last := xs[..|xs| - 1], xs[|xs| - 1];
      DistinctExactly(front);
      assert xs == front + [last];
      if last !in Distinct(front) { AppendDiffers(Distinct(front), last); }
    }
  }

  datatype Value = TextValue(text: string) | IdList(ids: seq<string>) | OtherValue(token: int)

  type Checkpoint = map<string, Value>

  const FOLLOWUP_STATUS := TextValue("model_followup_pending")
  const FOLLOWUP_ACTION := TextValue("resume final response from authoritative tool result ledger")

  function SetDefault(c: Checkpoint, key: string, v: Value): Checkpoint { if key in c then c else c[key := v] }

  /** `active` is the projected checkpoint of the active run. */
  function Merged(active: Option<Checkpoint>, followup: Option<seq<string>>): Option<Checkpoint> {
    if followup.None? then active
    else
      var base := if active.Some? then active.value else map[];
      var status := SetDefault(base, "status", FOLLOWUP_STATUS);
      Some(SetDefault(status["completed_tool_call_ids" := IdList(followup.value)], "next_action", FOLLOWUP_ACTION))
  }

  ghost predicate InCheckpoint(c: Option<Checkpoint>, id: string) {
    && c.Some? && "completed_tool_call_ids" in c.value
    && var v := c.value["completed_tool_call_ids"]; v.IdList? && id in v.ids
  }

  ghost predicate AnyAwaiting(ms: seq<Message>) {
    exists i: nat :: Awaiting(ms, AnnouncedIds(ms), i)
  }

  ghost predicate AwaitingShown(r: Redactor, ms: seq<Message>, id: string) {
    exists i: nat :: Awaiting(ms, AnnouncedIds(ms), i) && r.id(ms[i].resultOf) == id
  }

  lemma TailNonEmpty(ms: seq<Message>)
    ensures Tail(AnnouncedIds(ms), ms) != [] <==> AnyAwaiting(ms)
  {
    var tail := Tail(AnnouncedIds(ms), ms);
    if tail != [] {
      TailExactly(AnnouncedIds(ms), ms, tail[0]);
      var i: nat :| Awaiting(ms, AnnouncedIds(ms), i) && ms[i].resultOf == tail[0];
      assert AnyAwaiting(ms);
    }
    if AnyAwaiting(ms) {
      var i: nat :| Awaiting(ms, AnnouncedIds(ms), i);
      assert AwaitingId(ms, AnnouncedIds(ms), ms[i].resultOf);
      TailExactly(AnnouncedIds(ms), ms, ms[i].resultOf);
      assert ms[i].resultOf in tail;
    }
  }

  lemma TailShown(r: Redactor, ms: seq<Message>, id: string)
    ensures id in Redacted(r, Tail(AnnouncedIds(ms), ms)) <==> AwaitingShown(r, ms, id)
  {
    var tail := Tail(AnnouncedIds(ms), ms);
    var shown := Redacted(r, tail);
    if id in shown {
      var k :| 0 <= k < |shown| && shown[k] == id;
      TailExactly(AnnouncedIds(ms), ms, tail[k]);
      var i: nat :| Awaiting(ms, AnnouncedIds(ms), i) && ms[i].resultOf == tail[k];
      assert AwaitingShown(r, ms, id);
    }
    if AwaitingShown(r, ms, id) {
      var i: nat :| Awaiting(ms, AnnouncedIds(ms), i) && r.id(ms[i].resultOf) == id;
      assert AwaitingId(ms, AnnouncedIds(ms), ms[i].resultOf);
      TailExactly(AnnouncedIds(ms), ms, ms[i].resultOf);
      var k :| 0 <= k < |tail| && tail[k] == ms[i].resultOf;
      assert shown[k] == id;
    }
  }

  ghost predicate AllDiffer(xs: seq<string>) { forall i, j | 0 <= i < j < |xs| :: xs[i] != xs[j] }

  /** The follow-up lists exactly the awaiting results, once each. */
  lemma FollowupExactly(r: Redactor, ms: seq<Message>)
    ensures FollowupIds(r, ms).Some? <==> AnyAwaiting(ms)
    ensures FollowupIds(r, ms).Some? ==> forall id :: id in FollowupIds(r, ms).value <==> AwaitingShown(r, ms, id)
    ensures FollowupIds(r, ms).Some? ==> AllDiffer(FollowupIds(r, ms).value)
  {
    TailNonEmpty(ms);
    DistinctExactly(Redacted(r, Tail(AnnouncedIds(ms), ms)));
    forall id ensures id in Redacted(r, Tail(AnnouncedIds(ms), ms)) <==> AwaitingShown(r, ms, id) {
      TailShown(r, ms, id);
    }
  }

  /** The merged checkpoint has the active run's value under this key, or else `v`. */
  ghost predicate Defaulted(active: Option<Checkpoint>, merged: Option<Checkpoint>, key: string, v: Value) {
    && merged.Some? && key in merged.value
    && merged.value[key] == if active.Some? && key in active.value then active.value[key] else v
  }

  lemma MergedKeeps(active: Option<Checkpoint>, followup: Option<seq<string>>)
    ensures active.Some? ==> Merged(active, followup).Some?
    ensures active.Some? ==> forall key | key in active.value && key != "completed_tool_call_ids" ::
              key in Merged(active, followup).value && Merged(active, followup).value[key] == active.value[key]
    ensures followup.Some? ==> forall id :: InCheckpoint(Merged(active, followup), id) <==> id in followup.value
    ensures followup.Some? ==> Defaulted(active, Merged(active, followup), "status", FOLLOWUP_STATUS)
    ensures followup.Some? ==> Defaulted(active, Merged(active, followup), "next_action", FOLLOWUP_ACTION)
  {
  }

  /** The merged checkpoint lists exactly the awaiting results and keeps what the active run
      already said; with none awaiting it is the active run's own. */
  lemma CheckpointTheorem(r: Redactor, active: Option<Checkpoint>, ms: seq<Message>)
    ensures
      var merged := Merged(active, FollowupIds(r, ms));
      && (!AnyAwaiting(ms) ==> merged == active)
      && (AnyAwaiting(ms) ==> forall id :: InCheckpoint(merged, id) <==> AwaitingShown(r, ms, id))
      && (AnyAwaiting(ms) ==> Defaulted(active, merged, "status", FOLLOWUP_STATUS))
      && (AnyAwaiting(ms) ==> Defaulted(active, merged, "next_action", FOLLOWUP_ACTION))
      && (active.Some? ==> merged.Some? && forall key | key in active.value && key != "completed_tool_call_ids" ::
            key in merged.value && merged.value[key] == active.value[key])
  {
    FollowupExactly(r, ms);
    MergedKeeps(active, FollowupIds(r, ms));
  }

  /** A result the fold drops is followed by a user or assistant message, or the checkpoint has it. */
  lemma DroppedResultTheorem(r: Redactor, active: Option<Checkpoint>, ms: seq<Message>, i: nat)
    requires i < |ms| && ms[i].Message? && ms[i].role == Tool && !Survives(r, ms, ms[i])
    ensures TurnAfter(ms, i) || InCheckpoint(Merged(active, FollowupIds(r, ms)), r.id(ms[i].resultOf))
  {
    AnnouncedExactly(ms, ms[i].resultOf);
    CheckpointTheorem(r, active, ms);
    if !TurnAfter(ms, i) {
      assert Awaiting(ms, AnnouncedIds(ms), i);
      assert AnyAwaiting(ms);
      assert AwaitingShown(r, ms, r.id(ms[i].resultOf));
    }
  }

  // ---------- Where an outcome is lost ----------

  /** A later user or assistant message is in the folded context, or the checkpoint names the result. */
  ghost predicate Represented(r: Redactor, active: Option<Checkpoint>, ms: seq<Message>, i: nat)
    requires i < |ms| && ms[i].Message?
  {
    || (exists j :: i < j < |ms| && Turn(ms[j]) && Survives(r, ms, ms[j]))
    || InCheckpoint(Merged(active, FollowupIds(r, ms)), r.id(ms[i].resultOf))
  }

  /** Every later message of a user or assistant is an assistant's list of finished calls. */
  ghost predicate OnlyFinishedCallsFollow(r: Redactor, ms: seq<Message>, i: nat) {
    forall j | i < j < |ms| && Turn(ms[j]) ::
      ms[j].role == Assistant && ms[j].calls.Some? && !HasUnfinished(r, ms, ms[j].calls.value)
  }

  /** A dropped result leaves no trace exactly when further tool calls, all finished, follow it
      and neither the results awaiting an answer nor, if there are none, the active run name it. */
  lemma LostResultTheorem(r: Redactor, active: Option<Checkpoint>, ms: seq<Message>, i: nat)
    requires i < |ms| && ms[i].Message? && ms[i].role == Tool && !Survives(r, ms, ms[i])
    ensures !Represented(r, active, ms, i) <==>
      && TurnAfter(ms, i) && OnlyFinishedCallsFollow(r, ms, i)
      && !AwaitingShown(r, ms, r.id(ms[i].resultOf))
      && (!AnyAwaiting(ms) ==> !InCheckpoint(active, r.id(ms[i].resultOf)))
  {
    var id := r.id(ms[i].resultOf);
    var merged := Merged(active, FollowupIds(r, ms));
    DroppedResultTheorem(r, active, ms, i);
    CheckpointTheorem(r, active, ms);
    assert InCheckpoint(merged, id) <==>
           AwaitingShown(r, ms, id) || (!AnyAwaiting(ms) && InCheckpoint(active, id)) by {
      if AwaitingShown(r, ms, id) { assert AnyAwaiting(ms); }
    }
    if OnlyFinishedCallsFollow(r, ms, i) {
      assert forall j | i < j < |ms| && Turn(ms[j]) :: !Survives(r, ms, ms[j]);
    } else {
      var j :| i < j < |ms| && Turn(ms[j])
        && !(ms[j].role == Assistant && ms[j].calls.Some? && !HasUnfinished(r, ms, ms[j].calls.value));
      assert Survives(r, ms, ms[j]);
    }
  }

  /** Two calls made one after the other: the first result is in neither place. */
  lemma FirstOfTwoIsLost(r: Redactor)
    requires forall id :: r.id(id) == id
    ensures Folded(r, TwoSteps()) == [] && FollowupIds(r, TwoSteps()) == Some(["b"])
    ensures !Represented(r, None, TwoSteps(), 1)
  {
    TwoStepsFold(r);
    TwoStepsFollowup(r);
    MergedKeeps(None, Some(["b"]));
    assert "a" !in ["b"];
  }

  lemma TwoStepsCompleted()
    ensures Completed(TwoSteps(), "a") && Completed(TwoSteps(), "b")
  {
    var ms := TwoSteps();
    assert CalledAt(ms, "a", 0, 0) && CalledAt(ms, "b", 2, 0);
    assert Reports(ms[1]) && Reports(ms[3]);
  }

  lemma TwoStepsFold(r: Redactor)
    ensures forall k | 0 <= k < 4 :: !Survives(r, TwoSteps(), TwoSteps()[k])
    ensures Folded(r, TwoSteps()) == []
  {
    var ms := TwoSteps();
    TwoStepsCompleted();
    assert ms[1].resultOf == "a" && ms[3].resultOf == "b";
    forall k | k == 0 || k == 2 ensures !HasUnfinished(r, ms, ms[k].calls.value) {
      assert |ms[k].calls.value| == 1 && Completed(ms, ms[k].calls.value[0].id);
    }
    SomethingSurvives(r, ms);
  }

  lemma SomethingSurvives(r: Redactor, ms: seq<Message>)
    ensures Folded(r, ms) != [] ==> exists i :: 0 <= i < |ms| && Survives(r, ms, ms[i])
  {
    var kept := FoldTheorem(r, ms);
    assert kept != [] ==> kept[0] in kept;
  }

  lemma TwoStepsFollowup(r: Redactor)
    requires forall id :: r.id(id) == id
    ensures FollowupIds(r, TwoSteps()) == Some(["b"])
  {
    var ms := TwoSteps();
    assert CalledAt(ms, "b", 2, 0);
    AnnouncedExactly(ms, "b");
    assert Turn(ms[..3][2]);
    assert Tail(AnnouncedIds(ms), ms[..3]) == [];
    assert Tail(AnnouncedIds(ms), ms) == ["b"];
    var shown := Redacted(r, ["b"]);
    assert shown == ["b"] && shown[..0] == [];
  }

  function TwoSteps(): seq<Message> {
    [ Message(Assistant, "", "", Some([Call("search", "a", "{}")])),
      Message(Tool, "found", "a", None),
      Message(Assistant, "", "", Some([Call("read", "b", "{}")])),
      Message(Tool, "text", "b", None) ]
  }

  // ---------- Where folding twice goes on ----------

  /** Ids are cut at 200 characters; nothing else is redacted. */
  function CutId(id: string): string { if |id| <= 200 then id else id[..200] }

  function Cutter(): Redactor { Redactor(x => x, x => x, id => CutId(id)) }

  function Long(last: char): string { seq(200, _ => 'x') + [last] }

  /** An unfinished call and an orphan result whose long ids differ only at the end. */
  function LongIds(): seq<Message> {
    [ Message(Assistant, "", "", Some([Call("search", Long('a'), "{}")])),
      Message(Tool, "found", Long('b'), None) ]
  }

  /** The first fold keeps both and gives them one id; the second fold drops both. */
  lemma LongIdsClash()
    ensures Stable(Cutter()) && Clash(Cutter(), LongIds())
    ensures Folded(Cutter(), Folded(Cutter(), LongIds())) != Folded(Cutter(), LongIds())
  {
    var r, ms := Cutter(), LongIds();
    assert Long('a')[200] == 'a' && Long('b')[200] == 'b';
    assert r.id(Long('a')) == Long('a')[..200] == Long('b')[..200] == r.id(Long('b'));
    assert !Completed(ms, Long('a')) && !Completed(ms, Long('b'));
    assert ClashAt(r, ms, 0, 0, 1);
    FoldTwiceTheorem(r, ms);
  }
}
