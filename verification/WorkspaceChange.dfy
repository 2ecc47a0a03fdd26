/** Changing the committed workspace root, with rollback, behind a queue of requests. */
module WorkspaceChange {
  import opened Wrappers
  import opened ProfileRebind

  datatype Preference = Preference(workspace: Path, mode: string)

  datatype Serving = Down | Up(ready: bool)

  /** The environment aliases ("" when unset), the mode variable, the module globals, the
      preference and profile files, and the gateway service. */
  datatype Host = Host(
    desktop: Path, root: Path, force: Path, body: Path, mode: string,
    committed: Path, revision: nat,
    preference: Option<Preference>, profile: Option<Content>, serving: Serving)

  /** What the surrounding platform decides: path validation, the path comparison, the
      default workspace, and the profile codec. */
  datatype Platform = Platform(
    validate: Path -> Option<Path>,
    same: (Path, Path) -> bool,
    fallback: Option<Path>,
    sourceMode: bool,
    codec: Codec)

  datatype Touch = Leave | Write(content: Option<Content>)

  /** A child process that answers, dies before acting, or acts and loses its answer. */
  datatype Child = Answers | DiesBefore | DiesAfter

  datatype Start = Ready | NotReady | Throws

  /** Every way one change can go wrong, and what the outside world does to the profile
      file before prepare, between prepare and apply, and between the profile stage and the
      commit or the rollback, while services start or stop. */
  datatype Faults = Faults(
    lookupFails: bool, before: Touch, prepare: Child, during: Touch, apply: Child, after: Touch,
    start: Start, preferenceFails: bool, rollback: Child, restart: Start)

  datatype Reply =
    | Conflict
    | Unchanged
    | Committed
    | RolledBack
    | ProfileLeft
    | Threw

  function AllAliases(h: Host, p: Path): Host {
    h.(desktop := p, root := p, force := p, body := p)
  }

  function Effective(mode: string): string { if mode == "" then "workspace" else mode }

  function Requested(full: bool): string { if full then "full" else "workspace" }

  function Persisted(w: Platform, h: Host): Option<Path> {
    if h.preference.None? then None else w.validate(h.preference.value.workspace)
  }

  /** committedWorkspaceRoot: None when even the default workspace is unusable. */
  function Settle(w: Platform, h: Host): (Host, bool) {
    if h.committed != "" then (h, true)
    else if h.desktop != "" && w.validate(h.desktop).Some? then
      var p := w.validate(h.desktop).value;
      (h.(committed := p, root := p, force := p, body := p), true)
    else
      var h' := if h.desktop != "" then AllAliases(h, "") else h;
      match Persisted(w, h')
      case Some(p) => (AllAliases(h', p).(committed := p), true)
      case None =>
        if w.fallback.None? then (h', false)
        else (AllAliases(h', w.fallback.value).(committed := w.fallback.value), true)
  }

  function Touched(file: Option<Content>, t: Touch): Option<Content> {
    match t
    case Leave => file
    case Write(content) => content
  }

  /** The profile stage of a change: the file, the transaction if there is one, and
      whether the stage succeeded. */
  datatype Stage = Stage(profile: Option<Content>, tx: Option<Transaction>, ok: bool)

  function RebindStage(w: Platform, profile: Option<Content>, previous: Path, next: Path, f: Faults): Stage {
    if !w.sourceMode then Stage(profile, None, true)
    else if f.lookupFails then Stage(profile, None, false)
    else
      var p1 := Touched(profile, f.before);
      if profile.None? then Stage(p1, None, true)
      else if !f.prepare.Answers? then Stage(p1, None, false)
      else
        match Prepare(w.codec, p1, p1, previous, next)
        case Failure(_) => Stage(p1, None, false)
        case Success(None) => Stage(p1, None, true)
        case Success(Some(tx)) =>
          var p2 := Touched(p1, f.during);
          if f.apply.DiesBefore? then Stage(p2, Some(tx), false)
          else
            var rebound := Rebound(w.codec, p2, tx, false);
            Stage(rebound.0, Some(tx), f.apply.Answers? && rebound.1.Success?)
  }

  function Started(s: Start): Serving { if s.Throws? then Down else Up(s.Ready?) }

  /** Roll back: aliases and mode first, then the profile, then the services. */
  function RollBack(w: Platform, h: Host, previous: Path, mode: string, tx: Option<Transaction>, f: Faults)
    : (Host, Reply)
  {
    var h1 := AllAliases(h, previous).(mode := mode, profile := Touched(h.profile, f.after), serving := Down);
    if tx.None? then
      (h1.(serving := Started(f.restart)), if f.restart.Throws? then Threw else RolledBack)
    else if f.rollback.DiesBefore? then (h1, ProfileLeft)
    else
      var undone := Rebound(w.codec, h1.profile, tx.value, true);
      var h2 := h1.(profile := undone.0);
      if !f.rollback.Answers? || undone.1.Failure? then (h2, ProfileLeft)
      else (h2.(serving := Started(f.restart)), if f.restart.Throws? then Threw else RolledBack)
  }

  /** applyWorkspaceRootChange. */
  function Change(w: Platform, h: Host, workspace: Path, expected: nat, full: bool, f: Faults): (Host, Reply) {
    var (h0, settled) := Settle(w, h);
    if !settled then (h0, Threw)
    else if expected != h0.revision then (h0, Conflict)
    else if w.same(h0.committed, workspace) && Requested(full) == Effective(h0.mode) then (h0, Unchanged)
    else
      var stage := RebindStage(w, h0.profile, h0.committed, workspace, f);
      var h1 := AllAliases(h0, workspace).(mode := Requested(full), profile := stage.profile, serving := Down);
      if stage.ok && f.start.Ready? && !f.preferenceFails then
        (h1.(serving := Up(true), preference := Some(Preference(workspace, Requested(full))),
             committed := workspace, revision := h0.revision + 1,
             profile := Touched(stage.profile, f.after)), Committed)
      else RollBack(w, h1, h0.committed, Effective(h0.mode), stage.tx, f)
  }

  // ---------- The host as the program updates it ----------

  class WorkspaceHost {
    var desktop: Path
    var root: Path
    var force: Path
    var body: Path
    var mode: string
    var committed: Path
    var revision: nat
    var preference: Option<Preference>
    const file: ProfileFile
    var serving: Serving

    ghost function State(): Host
      reads this, file
    {
      Host(desktop, root, force, body, mode, committed, revision, preference, file.content, serving)
    }

    constructor (root: Path, file: ProfileFile)
      ensures this.file == file && State() ==
        Host(root, root, root, root, "", root, 0, None, file.content, Up(true))
    {
      this.desktop, this.root, this.force, this.body := root, root, root, root;
      this.mode, this.committed, this.revision := "", root, 0;
      this.preference, this.file, this.serving := None, file, Up(true);
    }

    method SetAliases(p: Path)
      modifies this`desktop, this`root, this`force, this`body
      ensures State() == AllAliases(old(State()), p)
    {
      desktop := p;
      root := p;
      force := p;
      body := p;
    }

    method CommittedRoot(w: Platform) returns (ok: bool)
      modifies this
      ensures (State(), ok) == Settle(w, old(State()))
    {
      if committed != "" { return true; }
      if desktop != "" {
        var validated := w.validate(desktop);
        if validated.Some? {
          committed := validated.value;
          root, force, body := committed, committed, committed;
          return true;
        }
        SetAliases("");
      }
      if preference.Some? {
        var persisted := w.validate(preference.value.workspace);
        if persisted.Some? {
          committed := persisted.value;
          SetAliases(persisted.value);
          return true;
        }
      }
      if w.fallback.None? { return false; }
      committed := w.fallback.value;
      SetAliases(committed);
      ok := true;
    }

    method Touch(t: Touch)
      modifies file
      ensures file.content == Touched(old(file.content), t)
    {
      if t.Write? { file.content := t.content; }
    }

    method Rebind(w: Platform, previous: Path, next: Path, f: Faults)
      returns (tx: Option<Transaction>, ok: bool)
      modifies file
      ensures Stage(file.content, tx, ok) == RebindStage(w, old(file.content), previous, next, f)
    {
      if !w.sourceMode { return None, true; }
      if f.lookupFails { return None, false; }
      var present := file.content.Some?;
      Touch(f.before);
      if !present { return None, true; }
      if !f.prepare.Answers? { return None, false; }
      var prepared := Prepare(w.codec, file.content, file.content, previous, next);
      if prepared.Failure? { return None, false; }
      if prepared.value.None? { return None, true; }
      tx := prepared.value;
      Touch(f.during);
      if f.apply.DiesBefore? { return tx, false; }
      var applied := file.Apply(w.codec, tx.value, false);
      ok := f.apply.Answers? && applied.Success?;
    }

    method Undo(w: Platform, tx: Transaction, f: Faults) returns (ok: bool)
      modifies file
      ensures f.rollback.DiesBefore? ==> file.content == old(file.content) && !ok
      ensures !f.rollback.DiesBefore? ==>
        var undone := Rebound(w.codec, old(file.content), tx, true);
        file.content == undone.0 && ok == (f.rollback.Answers? && undone.1.Success?)
    {
      if f.rollback.DiesBefore? { return false; }
      var undone := file.Apply(w.codec, tx, true);
      ok := f.rollback.Answers? && undone.Success?;
    }

    method RollBackTo(w: Platform, previous: Path, previousMode: string, tx: Option<Transaction>, f: Faults)
      returns (reply: Reply)
      modifies this, file
      ensures (State(), reply) == RollBack(w, old(State()), previous, previousMode, tx, f)
    {
      serving := Down;
      SetAliases(previous);
      mode := previousMode;
      Touch(f.after);
      if tx.Some? {
        var undone := Undo(w, tx.value, f);
        if !undone { return ProfileLeft; }
      }
      serving := Started(f.restart);
      reply := if f.restart.Throws? then Threw else RolledBack;
    }

    /** The part of a change inside its try block. */
    method Attempt(w: Platform, previous: Path, workspace: Path, nextMode: string, f: Faults)
      returns (tx: Option<Transaction>, done: bool)
      modifies this, file
      ensures
        var stage := RebindStage(w, old(file.content), previous, workspace, f);
        var h1 := old(State()).(profile := stage.profile);
        && tx == stage.tx
        && done == (stage.ok && f.start.Ready? && !f.preferenceFails)
        && (done ==> State() == h1.(serving := Up(true), preference := Some(Preference(workspace, nextMode)),
                                    committed := workspace, revision := h1.revision + 1,
                                    profile := Touched(stage.profile, f.after)))
        && (!done ==> State() == h1.(serving := serving))
    {
      var bound;
      tx, bound := Rebind(w, previous, workspace, f);
      if !bound { return tx, false; }
      serving := Started(f.start);
      if !f.start.Ready? || f.preferenceFails { return tx, false; }
      Touch(f.after);
      preference := Some(Preference(workspace, nextMode));
      committed := workspace;
      revision := revision + 1;
      done := true;
    }

    method ApplyChange(w: Platform, workspace: Path, expected: nat, full: bool, f: Faults)
      returns (reply: Reply)
      modifies this, file
      ensures (State(), reply) == Change(w, old(State()), workspace, expected, full, f)
    {
      var settled := CommittedRoot(w);
      if !settled { return Threw; }
      var previous, previousMode, nextMode := committed, Effective(mode), Requested(full);
      if expected != revision { return Conflict; }
      if w.same(previous, workspace) && nextMode == previousMode { return Unchanged; }
      serving := Down;
      SetAliases(workspace);
      mode := nextMode;
      var tx, done := Attempt(w, previous, workspace, nextMode, f);
      if done { return Committed; }
      reply := RollBackTo(w, previous, previousMode, tx, f);
    }
  }

  // ---------- All or nothing ----------

  ghost predicate Aligned(h: Host) {
    h.committed != "" && h.mode != "" && h == AllAliases(h, h.committed)
  }

  /** Rolling back puts back aliases and mode and touches nothing else but profile and services. */
  lemma RollBackRestores(w: Platform, h: Host, previous: Path, mode: string, tx: Option<Transaction>, f: Faults)
    ensures
      var (h', reply) := RollBack(w, h, previous, mode, tx, f);
      && h' == AllAliases(h, previous).(mode := mode, profile := h'.profile, serving := h'.serving)
      && reply in {RolledBack, ProfileLeft, Threw}
      && (reply.ProfileLeft? ==> h'.serving.Down?)
  {
  }

  /** The change gets as far as trying: it is neither refused nor a no-op. */
  predicate Attempted(w: Platform, h: Host, workspace: Path, expected: nat, full: bool) {
    var (h0, settled) := Settle(w, h);
    settled && expected == h0.revision && !(w.same(h0.committed, workspace) && Requested(full) == Effective(h0.mode))
  }

  /** Every reply but Committed leaves the aliases, mode, committed root, revision and
      preference as they were, up to spelling them all as the committed root. When not even the
      default workspace is usable, only unusable aliases are cleared. */
  lemma AllOrNothing(w: Platform, h: Host, workspace: Path, expected: nat, full: bool, f: Faults)
    ensures
      var (h0, settled) := Settle(w, h);
      var (h', reply) := Change(w, h, workspace, expected, full, f);
      && (!settled ==> reply.Threw? && h' == h0 == (if h.desktop != "" then AllAliases(h, "") else h))
      && (reply.Committed? ==>
            h' == AllAliases(h0, workspace).(mode := Requested(full), committed := workspace,
              preference := Some(Preference(workspace, Requested(full))), revision := h0.revision + 1,
              serving := Up(true), profile := h'.profile))
      && (reply.Conflict? || reply.Unchanged? ==> h' == h0)
      && (settled && (reply.RolledBack? || reply.ProfileLeft? || reply.Threw?) ==>
            h' == AllAliases(h0, h0.committed).(mode := Effective(h0.mode), profile := h'.profile,
              serving := h'.serving))
      && (reply.ProfileLeft? ==> h'.serving.Down?)
      && (Aligned(h0) && !reply.Committed? ==> h' == h0.(profile := h'.profile, serving := h'.serving))
      && (reply.Committed? || reply.RolledBack? || reply.ProfileLeft? ==> Attempted(w, h, workspace, expected, full))
  {
    var h0 := Settle(w, h).0;
    var stage := RebindStage(w, h0.profile, h0.committed, workspace, f);
    var h1 := AllAliases(h0, workspace).(mode := Requested(full), profile := stage.profile, serving := Down);
    RollBackRestores(w, h1, h0.committed, Effective(h0.mode), stage.tx, f);
  }

  ghost predicate Undisturbed(f: Faults) {
    f.before.Leave? && f.during.Leave? && f.after.Leave?
  }

  // ---------- Which reply ----------

  /** The profile that is there when the rebinding script reads it. */
  function ReadAt(h: Host, f: Faults): Option<Content> { Touched(h.profile, f.before) }

  /** A transaction is prepared: in source mode, with a profile bound to the committed root. */
  predicate Prepared(w: Platform, h: Host, committed: Path, f: Faults) {
    && w.sourceMode && !f.lookupFails && h.profile.Some? && f.prepare.Answers?
    && ReadAt(h, f).Some?
    && w.codec.parse(ReadAt(h, f).value).Some?
    && w.codec.parse(ReadAt(h, f).value).value.workspace == committed
  }

  /** The profile that the script would write. */
  function RebindOf(w: Platform, h: Host, workspace: Path, f: Faults): Content
    requires ReadAt(h, f).Some? && w.codec.parse(ReadAt(h, f).value).Some?
  {
    w.codec.render(w.codec.parse(ReadAt(h, f).value).value.(workspace := workspace))
  }

  /** What is written reads back bound to the new workspace with the same authority. */
  predicate ReadsBack(w: Platform, h: Host, workspace: Path, f: Faults)
    requires ReadAt(h, f).Some? && w.codec.parse(ReadAt(h, f).value).Some?
  {
    w.codec.parse(RebindOf(w, h, workspace, f)) ==
      Some(w.codec.parse(ReadAt(h, f).value).value.(workspace := workspace))
  }

  /** The file once the apply has run or died: rebound if the apply found what was read. */
  function LeftByApply(w: Platform, h: Host, workspace: Path, f: Faults): Option<Content>
    requires ReadAt(h, f).Some? && w.codec.parse(ReadAt(h, f).value).Some?
  {
    var last := Touched(ReadAt(h, f), f.during);
    if !f.apply.DiesBefore? && ReadsBack(w, h, workspace, f) && last == ReadAt(h, f)
    then Some(RebindOf(w, h, workspace, f)) else last
  }

  /** The profile part of a change succeeds: there is nothing to rebind, or everything answers
      and the apply finds one of the transaction's own two contents. */
  predicate ProfilePartOk(w: Platform, h: Host, committed: Path, workspace: Path, f: Faults) {
    || !w.sourceMode
    || (!f.lookupFails && (h.profile.None? || (f.prepare.Answers? && ReadAt(h, f).None?)))
    || (&& Prepared(w, h, committed, f) && ReadsBack(w, h, workspace, f) && f.apply.Answers?
        && Touched(ReadAt(h, f), f.during) in {ReadAt(h, f), Some(RebindOf(w, h, workspace, f))})
  }

  lemma StageOkExactly(w: Platform, h: Host, committed: Path, workspace: Path, f: Faults)
    ensures
      var stage := RebindStage(w, h.profile, committed, workspace, f);
      && (stage.ok <==> ProfilePartOk(w, h, committed, workspace, f))
      && (stage.tx.Some? <==> Prepared(w, h, committed, f))
      && (stage.tx.Some? ==>
            stage.tx.value == Transaction(committed, workspace, ReadAt(h, f).value, RebindOf(w, h, workspace, f)))
      && (stage.tx.Some? ==> (Validates(w.codec, stage.tx.value) <==> ReadsBack(w, h, workspace, f)))
      && (stage.tx.Some? ==> stage.profile == LeftByApply(w, h, workspace, f))
  {
  }

  /** Each reply, exactly: refused, nothing to do, committed when the profile part, the services
      and the preference all succeed, and otherwise rolled back, with the profile left exactly
      when a prepared transaction is not confirmed undone. */
  lemma ReplyTheorem(w: Platform, h: Host, workspace: Path, expected: nat, full: bool, f: Faults)
    ensures
      var (h0, settled) := Settle(w, h);
      var reply := Change(w, h, workspace, expected, full, f).1;
      var same := w.same(h0.committed, workspace) && Requested(full) == Effective(h0.mode);
      var tries := settled && expected == h.revision && !same;
      var commits := tries && f.start.Ready? && !f.preferenceFails && ProfilePartOk(w, h, h0.committed, workspace, f);
      var undoes := Prepared(w, h, h0.committed, f);
      && (reply.Conflict? <==> settled && expected != h.revision)
      && (reply.Unchanged? <==> settled && expected == h.revision && same)
      && (reply.Committed? <==> commits)
      && (!settled ==> reply.Threw?)
      && (reply.ProfileLeft? ==> tries && !commits && undoes)
      && (tries && !commits && !undoes ==> reply == (if f.restart.Throws? then Threw else RolledBack))
      && (tries && !commits && undoes ==>
            var found := Touched(LeftByApply(w, h, workspace, f), f.after);
            var own := found in {ReadAt(h, f), Some(RebindOf(w, h, workspace, f))};
            (reply.ProfileLeft? <==> !f.rollback.Answers? || !ReadsBack(w, h, workspace, f) || !own)
            && (!reply.ProfileLeft? ==> reply == (if f.restart.Throws? then Threw else RolledBack)))
  {
    var h0 := Settle(w, h).0;
    SettleKeepsProfile(w, h);
    StageOkExactly(w, h0, h0.committed, workspace, f);
    var stage := RebindStage(w, h0.profile, h0.committed, workspace, f);
    var h1 := AllAliases(h0, workspace).(mode := Requested(full), profile := stage.profile, serving := Down);
    RollBackReply(w, h1, h0.committed, Effective(h0.mode), stage.tx, f);
  }

  lemma RollBackReply(w: Platform, h: Host, previous: Path, mode: string, tx: Option<Transaction>, f: Faults)
    ensures
      var reply := RollBack(w, h, previous, mode, tx, f).1;
      && (reply.ProfileLeft? <==>
            && tx.Some?
            && !(f.rollback.Answers? && Validates(w.codec, tx.value) && Own(tx.value, Touched(h.profile, f.after))))
      && (!reply.ProfileLeft? ==> reply == (if f.restart.Throws? then Threw else RolledBack))
  {
  }

  /** Nothing goes wrong and nobody else writes: the change commits unless the profile in place
      cannot be rebound. */
  lemma FaultlessCommits(w: Platform, h: Host, workspace: Path, full: bool, f: Faults)
    requires Settle(w, h).1 && Undisturbed(f) && f.start.Ready? && !f.preferenceFails && !f.lookupFails
    requires f.prepare.Answers? && f.apply.Answers?
    requires !w.same(Settle(w, h).0.committed, workspace) || Requested(full) != Effective(Settle(w, h).0.mode)
    ensures
      var committed := Settle(w, h).0.committed;
      var (h', reply) := Change(w, h, workspace, h.revision, full, f);
      && (reply.Committed? <==>
            || !w.sourceMode || h.profile.None?
            || (&& w.codec.parse(h.profile.value).Some? && w.codec.parse(h.profile.value).value.workspace == committed
                && var profile := w.codec.parse(h.profile.value).value.(workspace := workspace);
                   w.codec.parse(w.codec.render(profile)) == Some(profile)))
      && (reply.Committed? ==> h'.committed == workspace && h'.revision == h.revision + 1)
  {
    ReplyTheorem(w, h, workspace, h.revision, full, f);
    AllOrNothing(w, h, workspace, h.revision, full, f);
    SettleKeepsProfile(w, h);
  }

  // ---------- Where the committed root comes from ----------

  /** The committed root is the one already known, else the usable desktop alias, else the usable
      preference, else the default; only the first is taken without setting the aliases. */
  lemma SettleTheorem(w: Platform, h: Host)
    ensures
      var (h0, settled) := Settle(w, h);
      var alias := if h.desktop == "" then None else w.validate(h.desktop);
      var wanted := if h.preference.None? then None else w.validate(h.preference.value.workspace);
      && (settled <==> h.committed != "" || alias.Some? || wanted.Some? || w.fallback.Some?)
      && (h.committed != "" ==> h0 == h)
      && (settled && h.committed == "" ==>
            && (alias.Some? ==> h0.committed == alias.value)
            && (alias.None? && wanted.Some? ==> h0.committed == wanted.value)
            && (alias.None? && wanted.None? ==> Some(h0.committed) == w.fallback)
            && h0.root == h0.force == h0.body == h0.committed
            && h0.desktop == (if alias.Some? then h.desktop else h0.committed)
            && h0.preference == h.preference && h0.mode == h.mode)
  {
  }

  // ---------- The profile, whatever others write ----------

  lemma SettleKeepsProfile(w: Platform, h: Host)
    ensures Settle(w, h).0.profile == h.profile && Settle(w, h).0.revision == h.revision
  {
  }

  /** What the profile stage leaves, for all outside writes: without a transaction nothing was
      written; with one the file holds what others last wrote, or both that and the file are
      among the transaction's contents, and success means the new binding is in place. */
  ghost predicate StageIs(w: Platform, profile: Option<Content>, next: Path, f: Faults, st: Stage) {
    var read := Touched(profile, f.before);
    var last := Touched(read, f.during);
    && (st.tx.None? ==> st.profile == read || st.profile == profile)
    && (st.tx.None? && st.ok ==> !w.sourceMode || profile.None? || read.None?)
    && (st.tx.Some? ==>
          var tx := st.tx.value;
          && w.sourceMode && profile.Some? && read == Some(tx.previousContent)
          && w.codec.parse(tx.previousContent).Some?
          && (st.profile == last || (Validates(w.codec, tx) && Own(tx, st.profile) && Own(tx, last)))
          && (st.ok ==> Validates(w.codec, tx) && Own(tx, last) && st.profile == Some(tx.nextContent))
          && (st.ok ==>
                w.codec.parse(tx.nextContent) == Some(w.codec.parse(tx.previousContent).value.(workspace := next))))
  }

  lemma StageTheorem(w: Platform, profile: Option<Content>, previous: Path, next: Path, f: Faults)
    ensures StageIs(w, profile, next, f, RebindStage(w, profile, previous, next, f))
  {
    var read := Touched(profile, f.before);
    if Prepare(w.codec, read, read, previous, next).Success? {
      PreparedValidates(w.codec, read, read, previous, next);
    }
  }

  /** What a rollback leaves of the profile it finds. */
  lemma RollBackProfile(w: Platform, h: Host, previous: Path, mode: string, tx: Option<Transaction>, f: Faults)
    ensures
      var found := Touched(h.profile, f.after);
      var (h', reply) := RollBack(w, h, previous, mode, tx, f);
      && (tx.None? ==> h'.profile == found && !reply.ProfileLeft?)
      && (tx.Some? && !reply.ProfileLeft? ==> h'.profile == Some(tx.value.previousContent) && Own(tx.value, found))
      && (tx.Some? && reply.ProfileLeft? && (f.rollback.Answers? || !Own(tx.value, found)) ==> h'.profile == found)
      && (tx.Some? && !Own(tx.value, found) ==> reply.ProfileLeft? && h'.serving.Down?)
      && (tx.Some? && f.rollback.Answers? && Validates(w.codec, tx.value) && Own(tx.value, found) ==>
            !reply.ProfileLeft?)
  {
  }

  /** Whatever others write to the profile: a commit follows an apply that left exactly the
      profile that was read, rebound to the new workspace, and keeps it exactly when nobody
      writes something else while services start; a completed rollback leaves exactly the
      profile that was read; without a transaction the change itself never writes the file. */
  lemma ProfileFollows(w: Platform, h: Host, workspace: Path, expected: nat, full: bool, f: Faults)
    ensures
      var h0 := Settle(w, h).0;
      var read := Touched(h.profile, f.before);
      var stage := RebindStage(w, h0.profile, h0.committed, workspace, f);
      var (h', reply) := Change(w, h, workspace, expected, full, f);
      && (!Attempted(w, h, workspace, expected, full) ==> h'.profile == h.profile)
      && (reply.Committed? && w.sourceMode && h.profile.Some? && read.Some? ==>
            stage.tx.Some? && w.codec.parse(read.value).Some?)
      && (reply.Committed? && stage.tx.Some? ==>
            var next := Some(stage.tx.value.nextContent);
            && read.Some? && w.codec.parse(read.value).Some?
            && w.codec.parse(next.value) == Some(w.codec.parse(read.value).value.(workspace := workspace))
            && h'.profile == Touched(next, f.after)
            && (h'.profile == next <==> f.after.Leave? || f.after.content == next))
      && (reply.Committed? && stage.tx.None? ==>
            h'.profile == Touched(stage.profile, f.after) && stage.profile in {h.profile, read})
      && (Attempted(w, h, workspace, expected, full) && !reply.Committed? && stage.tx.None? ==>
            h'.profile == Touched(stage.profile, f.after) && stage.profile in {h.profile, read})
      && (Attempted(w, h, workspace, expected, full) && reply in {RolledBack, Threw} && stage.tx.Some? ==>
            h'.profile == read)
  {
    var h0 := Settle(w, h).0;
    var stage := RebindStage(w, h0.profile, h0.committed, workspace, f);
    var h1 := AllAliases(h0, workspace).(mode := Requested(full), profile := stage.profile, serving := Down);
    SettleKeepsProfile(w, h);
    StageTheorem(w, h0.profile, h0.committed, workspace, f);
    RollBackProfile(w, h1, h0.committed, Effective(h0.mode), stage.tx, f);
  }

  /** When nothing else writes the profile, every reply but Committed leaves it as it was,
      unless the rollback script gave no answer. */
  lemma UndisturbedProfile(w: Platform, h: Host, workspace: Path, expected: nat, full: bool, f: Faults)
    requires Undisturbed(f)
    ensures
      var (h', reply) := Change(w, h, workspace, expected, full, f);
      !reply.Committed? && (reply.ProfileLeft? ==> f.rollback.Answers?) ==> h'.profile == h.profile
  {
    var h0 := Settle(w, h).0;
    var stage := RebindStage(w, h0.profile, h0.committed, workspace, f);
    var h1 := AllAliases(h0, workspace).(mode := Requested(full), profile := stage.profile, serving := Down);
    SettleKeepsProfile(w, h);
    StageTheorem(w, h0.profile, h0.committed, workspace, f);
    RollBackProfile(w, h1, h0.committed, Effective(h0.mode), stage.tx, f);
  }

  /** Foreign profile content is never overwritten. Written before the apply, it stays and the
      change does not commit; written after it, it stays under a commit, and a rollback reports
      and keeps it and leaves the services stopped. */
  lemma ForeignProfileSurvives(w: Platform, h: Host, workspace: Path, expected: nat, full: bool, f: Faults)
    ensures
      var h0 := Settle(w, h).0;
      var stage := RebindStage(w, h0.profile, h0.committed, workspace, f);
      var last := Touched(Touched(h.profile, f.before), f.during);
      var found := Touched(stage.profile, f.after);
      var (h', reply) := Change(w, h, workspace, expected, full, f);
      Attempted(w, h, workspace, expected, full) && stage.tx.Some? ==>
        && (!Own(stage.tx.value, last) ==> stage.profile == last && !stage.ok && !reply.Committed?)
        && (reply.Committed? && !Own(stage.tx.value, found) ==> h'.profile == found)
        && (!reply.Committed? && !Own(stage.tx.value, found) ==>
              reply.ProfileLeft? && h'.profile == found && h'.serving.Down?)
  {
    var h0 := Settle(w, h).0;
    var stage := RebindStage(w, h0.profile, h0.committed, workspace, f);
    var h1 := AllAliases(h0, workspace).(mode := Requested(full), profile := stage.profile, serving := Down);
    SettleKeepsProfile(w, h);
    StageTheorem(w, h0.profile, h0.committed, workspace, f);
    RollBackProfile(w, h1, h0.committed, Effective(h0.mode), stage.tx, f);
  }

  // ---------- A commit over foreign content ----------

  /** A profile is its workspace's text; only "a" and "b" are profiles. */
  function PlainCodec(): Codec {
    Codec(t => if t == "a" || t == "b" then Some(Profile(t, "")) else None, (p: Profile) => p.workspace)
  }

  function SourcePlatform(): Platform { Platform(p => Some(p), (a, b) => a == b, None, true, PlainCodec()) }

  function BoundToA(): Host { Host("a", "a", "a", "a", "workspace", "a", 0, None, Some("a"), Up(true)) }

  /** Somebody writes "x" while the services start; nothing fails. */
  function LateWrite(): Faults {
    Faults(false, Leave, Answers, Leave, Answers, Write(Some("x")), Ready, false, Answers, Ready)
  }

  /** The change to "b" commits, aliases, root and preference with it, over a foreign profile. */
  lemma LateWriteIsCommittedOver()
    ensures
      var (h, reply) := Change(SourcePlatform(), BoundToA(), "b", 0, false, LateWrite());
      && reply.Committed? && h.committed == "b" && h == AllAliases(h, "b")
      && h.preference == Some(Preference("b", "workspace")) && h.profile == Some("x")
  {
    var w, tx := SourcePlatform(), Transaction("a", "b", "a", "b");
    assert Prepare(w.codec, Some("a"), Some("a"), "a", "b") == Success(Some(tx));
    assert Validates(w.codec, tx);
    assert Rebound(w.codec, Some("a"), tx, false) == (Some("b"), Success(true));
  }

  // ---------- The queue ----------

  datatype Request = Request(workspace: Path, expected: Option<nat>, full: bool)

  datatype Queued = Queued(workspace: Path, expected: nat, full: bool)

  /** `finished` counts requests that ran and whose caller has not resumed yet. History: the
      revisions that the committed requests carried, all requests that entered the queue, and
      how many of them have run. */
  datatype Desk = Desk(
    host: Host, pending: nat, waiting: seq<Queued>, finished: nat,
    commits: seq<nat>, entered: seq<Queued>, ran: nat)

  datatype Turn =
    | Submit(request: Request)
    | Run(faults: Faults)
    | Resume

  predicate TurnEnabled(d: Desk, t: Turn) {
    match t
    case Submit(_) => true
    case Run(_) => d.waiting != []
    case Resume => d.finished > 0
  }

  /** Queueing a request, running the oldest one, and its caller's finally block. */
  function Take(w: Platform, d: Desk, t: Turn): Desk
    requires TurnEnabled(d, t)
  {
    match t
    case Submit(r) =>
      if w.validate(r.workspace).None? then d
      else
        var expected := if r.expected.Some? then r.expected.value else d.host.revision;
        var q := Queued(w.validate(r.workspace).value, expected, r.full);
        d.(pending := d.pending + 1, waiting := d.waiting + [q], entered := d.entered + [q])
    case Run(f) =>
      var q := d.waiting[0];
      var (host', reply) := Change(w, d.host, q.workspace, q.expected, q.full, f);
      d.(host := host', waiting := d.waiting[1..], finished := d.finished + 1, ran := d.ran + 1,
         commits := if reply.Committed? then d.commits + [q.expected] else d.commits)
    case Resume =>
      d.(pending := if d.pending >= 1 then d.pending - 1 else 0, finished := d.finished - 1)
  }

  ghost predicate TurnTaken(w: Platform, d: Desk, d': Desk) {
    exists t :: TurnEnabled(d, t) && d' == Take(w, d, t)
  }

  /** Any interleaving of submitted requests, runs and resumed callers. */
  ghost predicate IsSession(w: Platform, session: seq<Desk>) {
    && |session| > 0
    && session[0] == Desk(session[0].host, 0, [], 0, [], [], 0)
    && forall k :: 0 <= k < |session| - 1 ==> TurnTaken(w, session[k], session[k + 1])
  }

  ghost predicate DeskOk(start: nat, d: Desk) {
    && d.pending == |d.waiting| + d.finished
    && d.ran <= |d.entered| && d.waiting == d.entered[d.ran..]
    && d.host.revision == start + |d.commits|
    && forall k | 0 <= k < |d.commits| :: d.commits[k] == start + k
  }

  lemma TakeOk(w: Platform, start: nat, d: Desk, t: Turn)
    requires DeskOk(start, d) && TurnEnabled(d, t)
    ensures DeskOk(start, Take(w, d, t))
  {
    if t.Run? {
      var q := d.waiting[0];
      ChangeCounts(w, d.host, q.workspace, q.expected, q.full, t.faults);
    }
  }

  /** A valid request enters the queue with its own revision or the current one; a run takes the
      oldest request and does that change and no other. */
  lemma TurnTheorem(w: Platform, d: Desk, t: Turn)
    requires TurnEnabled(d, t)
    ensures var d' := Take(w, d, t);
      match t
      case Submit(r) =>
        && d'.host == d.host && d'.finished == d.finished && d'.ran == d.ran
        && (w.validate(r.workspace).None? ==> d'.entered == d.entered)
        && (w.validate(r.workspace).Some? ==>
              && d'.entered[..|d'.entered| - 1] == d.entered
              && var q := d'.entered[|d'.entered| - 1];
                 && Some(q.workspace) == w.validate(r.workspace) && q.full == r.full
                 && q.expected == (if r.expected.None? then d.host.revision else r.expected.value))
      case Run(f) =>
        var q := d.waiting[0];
        && d'.host == Change(w, d.host, q.workspace, q.expected, q.full, f).0
        && d'.ran == d.ran + 1 && d'.entered == d.entered
      case Resume => d' == d.(pending := d'.pending, finished := d.finished - 1)
  {
  }

  /** The revision moves by one on a commit, which only the current revision can make. */
  lemma ChangeCounts(w: Platform, h: Host, workspace: Path, expected: nat, full: bool, f: Faults)
    ensures
      var (h', reply) := Change(w, h, workspace, expected, full, f);
      && h'.revision == h.revision + (if reply.Committed? then 1 else 0)
      && (reply.Committed? ==> expected == h.revision)
  {
    SettleKeepsProfile(w, h);
    AllOrNothing(w, h, workspace, expected, full, f);
  }

  lemma {:induction false} SessionOk(w: Platform, session: seq<Desk>, k: nat)
    requires IsSession(w, session) && k < |session|
    ensures DeskOk(session[0].host.revision, session[k])
  {
    if k > 0 {
      SessionOk(w, session, k - 1);
      assert TurnTaken(w, session[k - 1], session[k - 1 + 1]);
      var t :| TurnEnabled(session[k - 1], t) && session[k] == Take(w, session[k - 1], t);
      TakeOk(w, session[0].host.revision, session[k - 1], t);
    }
  }

  /** In every session: the revision counts the commits, no two commits carried the same
      revision, the pending counter is the number of unanswered requests, and so it is
      positive whenever a caller decrements it. Requests run in the order they entered. */
  lemma QueueTheorem(w: Platform, session: seq<Desk>, k: nat)
    requires IsSession(w, session) && k < |session|
    ensures var d := session[k];
      && d.host.revision == session[0].host.revision + |d.commits|
      && (forall a, b | 0 <= a < b < |d.commits| :: d.commits[a] < d.commits[b])
      && d.pending == |d.waiting| + d.finished
      && d.ran <= |d.entered| && d.waiting == d.entered[d.ran..]
      && (TurnEnabled(d, Resume) ==> d.pending >= 1)
  {
    SessionOk(w, session, k);
  }
}
