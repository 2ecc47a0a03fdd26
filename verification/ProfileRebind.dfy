/** The host-only script that rebinds an enabled trial profile to another workspace. */
module ProfileRebind {
  import opened Wrappers

  type Path = string
  type Content = string

  /** `authority` stands for every field other than the workspace and the digest over it. */
  datatype Profile = Profile(workspace: Path, authority: string)

  /** How a profile file's text is read and written. */
  datatype Codec = Codec(parse: Content -> Option<Profile>, render: Profile -> Content)

  datatype Transaction = Transaction(
    previous: Path, next: Path, previousContent: Content, nextContent: Content)

  /** Read-only: the transaction that would rebind the profile, or None without a profile.
      `reread` is the file's content when prepare looks again. */
  function Prepare(k: Codec, file: Option<Content>, reread: Option<Content>, previous: Path, next: Path)
    : Result<Option<Transaction>, string>
  {
    if file.None? then Success(None)
    else
      match k.parse(file.value)
      case None => Failure("source_profile_invalid")
      case Some(profile) =>
        if profile.workspace != previous then Failure("source_profile_workspace_binding_mismatch")
        else if reread != file then Failure("source_profile_changed_during_prepare")
        else Success(Some(Transaction(previous, next, file.value,
                                      k.render(profile.(workspace := next)))))
  }

  /** Both contents are profiles, bound to their workspaces, that differ in nothing else. */
  predicate Validates(k: Codec, tx: Transaction) {
    var was, will := k.parse(tx.previousContent), k.parse(tx.nextContent);
    was.Some? && will.Some? &&
    was.value.workspace == tx.previous && will.value.workspace == tx.next &&
    was.value.authority == will.value.authority
  }

  function Expected(tx: Transaction, rollback: bool): Content {
    if rollback then tx.nextContent else tx.previousContent
  }

  function Target(tx: Transaction, rollback: bool): Content {
    if rollback then tx.previousContent else tx.nextContent
  }

  /** The file after apply (or rollback), and whether the script reports a change. */
  function Rebound(k: Codec, file: Option<Content>, tx: Transaction, rollback: bool)
    : (Option<Content>, Result<bool, string>)
  {
    if !Validates(k, tx) then (file, Failure("source_profile_transaction_invalid"))
    else if file == Some(Target(tx, rollback)) then (file, Success(false))
    else if file != Some(Expected(tx, rollback)) then (file, Failure("source_profile_concurrent_change"))
    else (Some(Target(tx, rollback)), Success(true))
  }

  /** The script changes the file exactly when the transaction validates and the file holds the
      content to replace; it then holds the other. It succeeds exactly when that is so or the
      file already holds the other. */
  lemma ReboundTheorem(k: Codec, file: Option<Content>, tx: Transaction, rollback: bool)
    ensures
      var from := if rollback then tx.nextContent else tx.previousContent;
      var to := if rollback then tx.previousContent else tx.nextContent;
      var (after, answer) := Rebound(k, file, tx, rollback);
      && (answer.Success? <==> Validates(k, tx) && (file == Some(from) || file == Some(to)))
      && after == (if answer.Success? then Some(to) else file)
      && (answer == Success(true) <==> Validates(k, tx) && file == Some(from) && from != to)
  {
  }

  class ProfileFile {
    var content: Option<Content>

    constructor (content: Option<Content>)
      ensures this.content == content
    {
      this.content := content;
    }

    /** Compare and swap; reading and replacing is one atomic step. */
    method Replace(payload: Content, expected: Content) returns (replaced: bool)
      modifies this
      ensures replaced <==> old(content) == Some(expected)
      ensures content == if replaced then Some(payload) else old(content)
    {
      replaced := content == Some(expected);
      if replaced { content := Some(payload); }
    }

    method Apply(k: Codec, tx: Transaction, rollback: bool) returns (r: Result<bool, string>)
      modifies this
      ensures (content, r) == Rebound(k, old(content), tx, rollback)
    {
      if !Validates(k, tx) { return Failure("source_profile_transaction_invalid"); }
      var expected, target := tx.previousContent, tx.nextContent;
      if rollback { expected, target := target, expected; }
      if content == Some(target) { return Success(false); }
      var replaced := Replace(target, expected);
      if !replaced { return Failure("source_profile_concurrent_change"); }
      r := Success(true);
    }
  }

  /** Any chain of applies and rollbacks of one transaction, with `touches` of the
      outside world in between. */
  datatype Event = Script(rollback: bool) | Outside(content: Option<Content>)

  function Play(k: Codec, file: Option<Content>, tx: Transaction, events: seq<Event>): Option<Content>
    decreases |events|
  {
    if events == [] then file
    else
      var file' := match events[0]
        case Script(rollback) => Rebound(k, file, tx, rollback).0
        case Outside(content) => content;
      Play(k, file', tx, events[1..])
  }

  /** What the outside world last wrote, or the file as it was. */
  function LastOutside(file: Option<Content>, events: seq<Event>): Option<Content>
    decreases |events|
  {
    if events == [] then file
    else LastOutside(if events[0].Outside? then events[0].content else file, events[1..])
  }

  predicate Own(tx: Transaction, file: Option<Content>) {
    file == Some(tx.previousContent) || file == Some(tx.nextContent)
  }

  /** Through any chain of scripts and outside writes: foreign content (neither of the
      transaction's two) stays, the transaction's own contents only ever turn into each other,
      and an invalid transaction writes nothing. */
  lemma {:induction false} ScriptsKeepForeign(k: Codec, file: Option<Content>, tx: Transaction, events: seq<Event>)
    ensures var now, last := Play(k, file, tx, events), LastOutside(file, events);
      && (now == last || (Own(tx, now) && Own(tx, last)))
      && (!Validates(k, tx) ==> now == last)
    decreases |events|
  {
    ScriptsKeepForeignFrom(k, file, file, tx, events);
  }

  lemma {:induction false} ScriptsKeepForeignFrom(
      k: Codec, file: Option<Content>, outside: Option<Content>, tx: Transaction, events: seq<Event>)
    requires file == outside || (Validates(k, tx) && Own(tx, file) && Own(tx, outside))
    ensures var now, last := Play(k, file, tx, events), LastOutside(outside, events);
      now == last || (Validates(k, tx) && Own(tx, now) && Own(tx, last))
    decreases |events|
  {
    if events != [] {
      match events[0] {
        case Script(rollback) =>
          ScriptsKeepForeignFrom(k, Rebound(k, file, tx, rollback).0, outside, tx, events[1..]);
        case Outside(content) => ScriptsKeepForeignFrom(k, content, content, tx, events[1..]);
      }
    }
  }

  /** A rollback undoes an apply whether or not the apply took effect, and even if its
      answer was lost. */
  lemma RollbackUndoesApply(k: Codec, file: Content, tx: Transaction, applied: bool)
    requires Validates(k, tx) && file == tx.previousContent
    ensures
      var file' := if applied then Rebound(k, Some(file), tx, false).0 else Some(file);
      var undone := Rebound(k, file', tx, true);
      undone.0 == Some(file) && undone.1.Success?
  {
    assert Rebound(k, Some(file), tx, false).0 == Some(tx.nextContent);
  }

  /** A transaction that prepare builds validates exactly when the written profile reads
      back bound to the new workspace with the same authority. */
  lemma PreparedValidates(k: Codec, file: Option<Content>, reread: Option<Content>, previous: Path, next: Path)
    requires Prepare(k, file, reread, previous, next).Success?
    ensures file.None? <==> Prepare(k, file, reread, previous, next).value.None?
    ensures file.Some? ==>
      var tx := Prepare(k, file, reread, previous, next).value.value;
      && tx.previousContent == file.value && tx.previous == previous && tx.next == next
      && (Validates(k, tx) <==>
            k.parse(tx.nextContent) == Some(Profile(next, k.parse(file.value).value.authority)))
  {
  }
}
