/** The command objects of cola/cmds.py. Each command captures the model's
    diff view when it is built; `Do` writes its new values and `Undo` its old
    ones back. Commands whose own fields change after construction
    (AmendMode's `skip`) are classes; the others never change after they are
    built and are datatypes with `Do`/`Undo` methods. Git, the file system
    and the user's answers to prompts are parameters. */
module Cmds {
  import opened Text
  import opened ColaModel

  // =====================================================================
  // Command: the old/new snapshot protocol

  /** The `old_*` and `new_*` values of the four diff fields. */
  datatype Command = Command(oldView: DiffView, newView: DiffView) {

    /** Command.do: write the new values. */
    method Do(m: Model)
      modifies m
      ensures m.State() == old(m.State()).WithView(newView)
    {
      m.SetView(newView);
    }

    /** Command.undo: write the old values back. */
    method Undo(m: Model)
      modifies m
      ensures m.State() == old(m.State()).WithView(oldView)
    {
      m.SetView(oldView);
    }
  }

  /** Command.__init__: both snapshots are the model's current view. */
  function Capture(m: Model): (c: Command)
    reads m
    ensures c.oldView == c.newView == m.View()
  {
    Command(m.View(), m.View())
  }

  /** A freshly built command's `do` leaves the model as it is, and `undo`
      after any `do` of a command built on this state restores it. */
  lemma SnapshotRoundTrip(s: RepoState, v: DiffView)
    ensures s.WithView(s.View()) == s
    ensures s.WithView(v).WithView(s.View()) == s
  {
  }

  /** Do followed by Undo on the state the command was built on changes nothing. */
  method DoUndo(c: Command, m: Model)
    requires c.oldView == m.View()
    modifies m
    ensures m.State() == old(m.State())
  {
    c.Do(m);
    c.Undo(m);
  }

  // =====================================================================
  // The undo stack and AmendMode

  /** An entry of the factory's undo stack: an AmendMode object, or any
      other undoable command (only its class name matters here). */
  datatype UndoEntry = AmendEntry(cmd: AmendMode) | OtherEntry(name: string)

  /** The command factory's undo stack (cmdfactory is not part of this
      model beyond the stack itself). */
  class Factory {
    var undoStack: seq<UndoEntry>

    constructor (stack: seq<UndoEntry>)
      ensures undoStack == stack
    {
      undoStack := stack;
    }
  }

  predicate EntersAmend(e: UndoEntry) {
    e.AmendEntry? && e.cmd.amending
  }

  /** The commit message AmendMode(False) returns to: the message saved by
      the most recent AmendMode on the stack that entered amend mode; every
      other entry is skipped. With none, the current message is kept. */
  function RecoveredMessage(stack: seq<UndoEntry>, current: string): string {
    if |stack| == 0 then current
    else if EntersAmend(stack[|stack| - 1]) then stack[|stack| - 1].cmd.oldCommitmsg
    else RecoveredMessage(stack[..|stack| - 1], current)
  }

  /** With no AmendMode that entered amend mode on the stack, the current
      message is kept. */
  lemma {:induction false} RecoveredMessageNone(stack: seq<UndoEntry>, current: string)
    requires forall i :: 0 <= i < |stack| ==> !EntersAmend(stack[i])
    ensures RecoveredMessage(stack, current) == current
  {
    if |stack| > 0 {
      RecoveredMessageNone(stack[..|stack| - 1], current);
    }
  }

  /** Otherwise it is the message saved by the newest one. */
  lemma {:induction false} RecoveredMessageNewest(stack: seq<UndoEntry>, current: string, i: nat)
    requires i < |stack| && EntersAmend(stack[i])
    requires forall j :: i < j < |stack| ==> !EntersAmend(stack[j])
    ensures RecoveredMessage(stack, current) == stack[i].cmd.oldCommitmsg
  {
    if i < |stack| - 1 {
      var rest := stack[..|stack| - 1];
      assert rest[i] == stack[i];
      assert forall j :: i < j < |rest| ==> rest[j] == stack[j];
      RecoveredMessageNewest(rest, current, i);
    }
  }

  /** The backwards search of AmendMode.__init__ over the undo stack. */
  method FindAmendMessage(stack: seq<UndoEntry>, current: string) returns (msg: string)
    ensures msg == RecoveredMessage(stack, current)
  {
    msg := current;
    if |stack| == 0 {
      return;
    }
    var undoCount := |stack|;
    assert stack[..undoCount] == stack;
    for i := 0 to undoCount
      invariant msg == current
      invariant RecoveredMessage(stack, current) == RecoveredMessage(stack[..undoCount - i], current)
    {
      var idx := undoCount - i - 1;
      assert stack[..undoCount - i][..idx] == stack[..idx];
      var cmdobj := stack[idx];
      if !cmdobj.AmendEntry? {
        continue;
      }
      if cmdobj.cmd.amending {
        msg := cmdobj.cmd.oldCommitmsg;
        return;
      }
    }
    assert stack[..0] == [];
  }

  const MergeTitle := "Oops! Unmerged"
  const MergeMessage := "You are in the middle of a merge.\nYou cannot amend while merging."

  /** AmendMode: enter (amend = true) or leave amend mode. */
  class AmendMode {
    const base: Command
    const amending: bool
    const oldCommitmsg: string
    const newCommitmsg: string
    var skip: bool

    /** `prevCommitmsg` is what model.prev_commitmsg() reads from git; it is
        only used when entering amend mode. */
    constructor (amend: bool, m: Model, f: Factory, prevCommitmsg: string)
      ensures amending == amend && !skip && oldCommitmsg == m.commitmsg
      ensures base.oldView == m.View()
      ensures amend ==> base.newView == m.View().(mode := ModeAmend, head := "HEAD^") &&
                        newCommitmsg == prevCommitmsg
      ensures !amend ==> base.newView == m.View().(mode := ModeNone, head := "HEAD", diffText := "") &&
                         newCommitmsg == RecoveredMessage(f.undoStack, m.commitmsg)
    {
      var v := m.View();
      var recovered := FindAmendMessage(f.undoStack, m.commitmsg);
      amending := amend;
      skip := false;
      oldCommitmsg := m.commitmsg;
      if amend {
        base := Command(v, v.(mode := ModeAmend, head := "HEAD^"));
        newCommitmsg := prevCommitmsg;
      } else {
        base := Command(v, v.(mode := ModeNone, head := "HEAD", diffText := ""));
        newCommitmsg := recovered;
      }
    }

    /** `mergeInProgress` says whether .git/MERGE_HEAD exists. Entering amend
        mode during a merge is refused and marks the command to be skipped. */
    method Do(m: Model, n: Notifier, mergeInProgress: bool)
      modifies this, m, n
      ensures skip == (amending && mergeInProgress)
      ensures skip ==> m.State() == old(m.State()) &&
                       n.events == old(n.events) + [AmendChanged(false), Information(MergeTitle, MergeMessage)]
      ensures !skip ==> m.State() == old(m.State()).(commitmsg := newCommitmsg).WithView(base.newView) &&
                        n.events == old(n.events) + [AmendChanged(amending), UpdateFileStatus]
    {
      if amending && mergeInProgress {
        skip := true;
        n.Broadcast(AmendChanged(false));
        n.Broadcast(Information(MergeTitle, MergeMessage));
        return;
      }
      skip := false;
      n.Broadcast(AmendChanged(amending));
      m.SetCommitmsg(newCommitmsg);
      base.Do(m);
      n.Broadcast(UpdateFileStatus);
    }

    /** A skipped command's undo does nothing; otherwise the commit message
        and the four diff fields return to their old values. */
    method Undo(m: Model, n: Notifier)
      modifies m, n
      ensures skip ==> m.State() == old(m.State()) && n.events == old(n.events)
      ensures !skip ==> m.State() == old(m.State()).(commitmsg := oldCommitmsg).WithView(base.oldView) &&
                        n.events == old(n.events) + [UpdateFileStatus]
    {
      if skip {
        return;
      }
      m.SetCommitmsg(oldCommitmsg);
      base.Undo(m);
      n.Broadcast(UpdateFileStatus);
    }
  }

  /** Undo right after Do restores the model, whether Do was refused or not. */
  method AmendDoUndo(a: AmendMode, m: Model, n: Notifier, mergeInProgress: bool)
    requires a.base.oldView == m.View() && a.oldCommitmsg == m.commitmsg
    modifies a, m, n
    ensures m.State() == old(m.State())
  {
    a.Do(m, n, mergeInProgress);
    a.Undo(m, n);
  }

  // =====================================================================
  // ResetMode and Commit

  /** ResetMode.__init__: no special mode, HEAD, no diff text. */
  function ResetView(v: DiffView): (r: DiffView)
    ensures r.mode == ModeNone && r.head == "HEAD" && r.diffText == "" && r.filename == v.filename
  {
    v.(mode := ModeNone, head := "HEAD", diffText := "")
  }

  datatype ResetMode = ResetMode(base: Command) {
    method Do(m: Model, n: Notifier)
      modifies m, n
      ensures m.State() == old(m.State()).WithView(base.newView)
      ensures n.events == old(n.events) + [UpdateFileStatus]
    {
      base.Do(m);
      n.Broadcast(UpdateFileStatus);
    }
  }

  function NewResetMode(m: Model): (r: ResetMode)
    reads m
    ensures r.base.oldView == m.View() && r.base.newView == ResetView(m.View())
  {
    ResetMode(Command(m.View(), ResetView(m.View())))
  }

  function CommitTitle(status: int): string {
    if status == 0 then "Commit: " else "Commit failed: "
  }

  /** What Commit.do reports: the commit call, a rescan after a successful
      commit, and exactly one log_cmd whose text starts with "Commit: " on
      success and "Commit failed: " otherwise. */
  function CommitEvents(msg: string, amend: bool, status: int, output: string): (r: seq<Event>)
    ensures LogCount(r) == 1
    ensures |r| > 0 && r[|r| - 1].LogCmd? && r[|r| - 1].status == status
    ensures StartsWith(r[|r| - 1].text, "Commit: ") <==> status == 0
    ensures status != 0 ==> StartsWith(r[|r| - 1].text, "Commit failed: ")
    ensures r[|r| - 1].text[|CommitTitle(status)|..] == output
    ensures (UpdateFileStatus in r) <==> status == 0
  {
    var title := CommitTitle(status);
    var log := LogCmd(status, title + output);
    assert (title + output)[..|title|] == title;
    assert status != 0 ==> (title + output)[..8] != "Commit: " by {
      if status != 0 { assert (title + output)[7] == 'f'; }
    }
    var r := [CommitWithMsg(msg, amend)] + (if status == 0 then [UpdateFileStatus] else []) + [log];
    assert LogCount(r) == 1 by {
      LogCountAppend([CommitWithMsg(msg, amend)] + (if status == 0 then [UpdateFileStatus] else []), [log]);
      LogCountAppend([CommitWithMsg(msg, amend)], if status == 0 then [UpdateFileStatus] else []);
    }
    r
  }

  datatype Commit = Commit(base: Command, amend: bool, msg: string, oldCommitmsg: string, newCommitmsg: string) {

    /** `status` and `output` are what commit_with_msg returns. Only a
        successful commit changes the model. */
    method Do(m: Model, n: Notifier, status: int, output: string)
      modifies m, n
      ensures status == 0 ==> m.State() == old(m.State()).WithView(base.newView).(commitmsg := newCommitmsg)
      ensures status != 0 ==> m.State() == old(m.State())
      ensures n.events == old(n.events) + CommitEvents(msg, amend, status, output)
    {
      n.Broadcast(CommitWithMsg(msg, amend));
      var title;
      if status == 0 {
        ResetMode(base).Do(m, n);
        m.SetCommitmsg(newCommitmsg);
        title := "Commit: ";
      } else {
        title := "Commit failed: ";
      }
      n.Broadcast(LogCmd(status, title + output));
    }
  }

  /** Commit.__init__: the reset view, and an empty message afterwards. */
  function NewCommit(m: Model, amend: bool, msg: string): (r: Commit)
    reads m
    ensures r.base.oldView == m.View() && r.base.newView == ResetView(m.View())
    ensures r.oldCommitmsg == m.commitmsg && r.newCommitmsg == "" && r.msg == msg && r.amend == amend
  {
    Commit(NewResetMode(m).base, amend, msg, m.commitmsg, "")
  }

  /** A successful commit leaves no special mode, HEAD, no diff and no message. */
  method CommitSucceeds(m: Model, n: Notifier, amend: bool, msg: string, output: string)
    modifies m, n
    ensures m.mode == ModeNone && m.head == "HEAD" && m.diffText == "" && m.commitmsg == ""
    ensures m.filename == old(m.filename) && m.directory == old(m.directory)
  {
    var c := NewCommit(m, amend, msg);
    c.Do(m, n, 0, output);
  }

  // =====================================================================
  // SignOff

  /** The message after SignOff.do: unchanged when it already contains the
      sign-off text, otherwise with "\n" and the sign-off appended. */
  function SignedOff(msg: string, signoff: string): (r: string)
    ensures Contains(r, signoff)
    ensures StartsWith(r, msg)
    ensures r == msg <==> Contains(msg, signoff)
    ensures !Contains(msg, signoff) ==> r[|msg|..] == "\n" + signoff
  {
    if Contains(msg, signoff) then msg
    else
      ContainsSuffix(msg + "\n", signoff);
      assert (msg + "\n" + signoff)[..|msg|] == msg;
      msg + "\n" + signoff
  }

  /** Signing off twice is the same as signing off once. */
  lemma SignOffIdempotent(msg: string, signoff: string)
    ensures SignedOff(SignedOff(msg, signoff), signoff) == SignedOff(msg, signoff)
  {
  }

  /** SignOff.signoff(): the trailer built from user.name and user.email,
      defaulting to the login name and login@host. */
  function SignoffText(config: map<string, string>, user: string, node: string): (r: string)
    ensures StartsWith(r, "\nSigned-off-by: ")
    ensures "user.name" in config ==> StartsWith(r, "\nSigned-off-by: " + config["user.name"] + " <")
    ensures "user.name" !in config ==> StartsWith(r, "\nSigned-off-by: " + user + " <")
    ensures "user.email" in config ==> EndsWith(r, " <" + config["user.email"] + ">")
    ensures "user.email" !in config ==> EndsWith(r, " <" + user + "@" + node + ">")
  {
    var name := if "user.name" in config then config["user.name"] else user;
    var email := if "user.email" in config then config["user.email"] else user + "@" + node;
    var r := "\nSigned-off-by: " + name + " <" + email + ">";
    assert r[..|"\nSigned-off-by: "|] == "\nSigned-off-by: ";
    assert r[..|"\nSigned-off-by: " + name + " <"|] == "\nSigned-off-by: " + name + " <";
    assert r[|r| - |" <" + email + ">"|..] == " <" + email + ">";
    r
  }

  datatype SignOff = SignOff(base: Command, oldCommitmsg: string) {
    method Do(m: Model, signoff: string)
      modifies m
      ensures m.State() == old(m.State()).(commitmsg := SignedOff(old(m.commitmsg), signoff))
    {
      if Contains(m.commitmsg, signoff) {
        return;
      }
      m.SetCommitmsg(m.commitmsg + "\n" + signoff);
    }

    method Undo(m: Model)
      modifies m
      ensures m.State() == old(m.State()).(commitmsg := oldCommitmsg)
    {
      m.SetCommitmsg(oldCommitmsg);
    }
  }

  function NewSignOff(m: Model): (r: SignOff)
    reads m
    ensures r.oldCommitmsg == m.commitmsg && r.base == Capture(m)
  {
    SignOff(Capture(m), m.commitmsg)
  }

  // =====================================================================
  // LoadCommitMessage / LoadCommitTemplate / LoadPreviousMessage / SetDiffText

  /** errors.UsageError(title, message). */
  datatype UsageError = UsageError(title: string, message: string)

  /** Python's '%s' % path for a path that may be None. */
  function PathText(path: Option<string>): string {
    match path
    case None => "None"
    case Some(p) => p
  }

  const TemplateTitle := "Error: unconfigured commit template"
  const TemplateMessage := "A commit template has not been configured.\nUse \"git config\" to define \"commit.template\"\nso that it points to a commit template."

  datatype LoadCommitMessage = LoadCommitMessage(base: Command, path: Option<string>, oldCommitmsg: string, oldDirectory: string) {

    /** `files` maps each existing regular file to its contents. A missing
        path or file is a UsageError and leaves the model alone. */
    method Do(m: Model, files: map<string, string>) returns (err: Option<UsageError>)
      modifies m
      ensures err.Some? <==> (path.None? || path.value == "" || path.value !in files)
      ensures err.Some? ==> m.State() == old(m.State()) &&
                            err.value == UsageError("Error: cannot find commit template",
                                                    PathText(path) + ": No such file or directory.")
      ensures err.None? ==> m.State() == old(m.State()).(directory := Dirname(path.value), commitmsg := files[path.value])
    {
      if path.None? || path.value == "" || path.value !in files {
        return Some(UsageError("Error: cannot find commit template",
                               PathText(path) + ": No such file or directory."));
      }
      m.SetDirectory(Dirname(path.value));
      m.SetCommitmsg(files[path.value]);
      return None;
    }

    /** LoadCommitTemplate.do: an unconfigured template is its own error. */
    method DoTemplate(m: Model, files: map<string, string>) returns (err: Option<UsageError>)
      modifies m
      ensures path.None? ==> err == Some(UsageError(TemplateTitle, TemplateMessage)) && m.State() == old(m.State())
      ensures path.Some? ==> (err.Some? <==> (path.value == "" || path.value !in files))
      ensures path.Some? && err.Some? ==>
                m.State() == old(m.State()) &&
                err.value == UsageError("Error: cannot find commit template",
                                        PathText(path) + ": No such file or directory.")
      ensures path.Some? && err.None? ==>
                m.State() == old(m.State()).(directory := Dirname(path.value), commitmsg := files[path.value])
    {
      if path.None? {
        return Some(UsageError(TemplateTitle, TemplateMessage));
      }
      err := Do(m, files);
    }

    method Undo(m: Model)
      modifies m
      ensures m.State() == old(m.State()).(commitmsg := oldCommitmsg, directory := oldDirectory)
    {
      m.SetCommitmsg(oldCommitmsg);
      m.SetDirectory(oldDirectory);
    }
  }

  function NewLoadCommitMessage(m: Model, path: Option<string>): (r: LoadCommitMessage)
    reads m
    ensures r.path == path && r.oldCommitmsg == m.commitmsg && r.oldDirectory == m.directory
  {
    LoadCommitMessage(Capture(m), path, m.commitmsg, m.directory)
  }

  /** LoadCommitTemplate.__init__: the path is the commit.template setting. */
  function NewLoadCommitTemplate(m: Model, config: map<string, string>): (r: LoadCommitMessage)
    reads m
    ensures r.path == (if "commit.template" in config then Some(config["commit.template"]) else None)
  {
    NewLoadCommitMessage(m, if "commit.template" in config then Some(config["commit.template"]) else None)
  }

  /** Loading a message and undoing it restores the model. */
  method LoadCommitMessageDoUndo(c: LoadCommitMessage, m: Model, files: map<string, string>)
    requires c.oldCommitmsg == m.commitmsg && c.oldDirectory == m.directory
    modifies m
    ensures m.State() == old(m.State())
  {
    var _ := c.Do(m, files);
    c.Undo(m);
  }

  datatype LoadPreviousMessage = LoadPreviousMessage(base: Command, sha1: string, oldCommitmsg: string, newCommitmsg: string) {
    method Do(m: Model)
      modifies m
      ensures m.State() == old(m.State()).(commitmsg := newCommitmsg)
    {
      m.SetCommitmsg(newCommitmsg);
    }

    method Undo(m: Model)
      modifies m
      ensures m.State() == old(m.State()).(commitmsg := oldCommitmsg)
    {
      m.SetCommitmsg(oldCommitmsg);
    }
  }

  /** `prevMsg` is model.prev_commitmsg(sha1), read from git. */
  function NewLoadPreviousMessage(m: Model, sha1: string, prevMsg: string): (r: LoadPreviousMessage)
    reads m
    ensures r.oldCommitmsg == m.commitmsg && r.newCommitmsg == prevMsg && r.sha1 == sha1
  {
    LoadPreviousMessage(Capture(m), sha1, m.commitmsg, prevMsg)
  }

  /** SetDiffText: an undoable command whose new diff text is `text`. */
  function NewSetDiffText(m: Model, text: string): (r: Command)
    reads m
    ensures r.oldView == m.View() && r.newView == m.View().(diffText := text)
  {
    Command(m.View(), m.View().(diffText := text))
  }

  /** Undoing SetDiffText brings back the previous diff text. */
  method SetDiffTextDoUndo(m: Model, text: string)
    modifies m
    ensures m.State() == old(m.State())
  {
    var c := NewSetDiffText(m, text);
    c.Do(m);
    assert m.diffText == text;
    c.Undo(m);
  }

  // =====================================================================
  // UntrackedSummary

  function Plural(n: nat): string {
    if n > 1 then "s" else ""
  }

  /** The header line of the summary. */
  function UntrackedHeader(n: nat): string {
    "# " + NatToString(n) + " untracked file" + Plural(n) + "\n"
  }

  function Rules(untracked: seq<string>): (r: seq<string>)
    ensures |r| == |untracked|
    ensures forall k :: 0 <= k < |r| ==> r[k] == "/" + untracked[k]
  {
    if |untracked| == 0 then [] else ["/" + untracked[0]] + Rules(untracked[1..])
  }

  function RulesHeader(n: nat): string {
    "# possible .gitignore rule" + Plural(n) + ":\n"
  }

  /** The lines after the count line: a rule header and one '/'-rooted
      entry per file, written one after the other with no separator. */
  function UntrackedRules(untracked: seq<string>): string {
    if |untracked| > 0 then RulesHeader(|untracked|) + Concat(Rules(untracked)) else ""
  }

  /** The diff text UntrackedSummary builds. */
  function UntrackedSummaryText(untracked: seq<string>): string {
    UntrackedHeader(|untracked|) + UntrackedRules(untracked)
  }

  /** The text starts with the count line, whose "file" is plural exactly
      when there are two or more files. */
  lemma UntrackedSummaryCount(untracked: seq<string>)
    ensures StartsWith(UntrackedSummaryText(untracked), "# " + NatToString(|untracked|) + " untracked file")
    ensures StartsWith(UntrackedSummaryText(untracked), "# " + NatToString(|untracked|) + " untracked file" + "s") <==>
            |untracked| > 1
  {
    var n := |untracked|;
    var p := "# " + NatToString(n) + " untracked file";
    var tail := "\n" + UntrackedRules(untracked);
    assert UntrackedSummaryText(untracked) == p + Plural(n) + tail;
    PluralPrefix(p, n, tail);
  }

  lemma PluralPrefix(p: string, n: nat, tail: string)
    requires |tail| > 0 && tail[0] == '\n'
    ensures StartsWith(p + Plural(n) + tail, p)
    ensures StartsWith(p + Plural(n) + tail, p + "s") <==> n > 1
  {
    var t := p + Plural(n) + tail;
    assert t[..|p|] == p;
    if n > 1 {
      assert t[..|p| + 1] == p + "s";
    } else {
      assert t[|p|] == '\n';
      assert (p + "s")[|p|] == 's';
    }
  }

  /** With no untracked files the text is the count line alone. */
  lemma UntrackedSummaryEmpty()
    ensures UntrackedSummaryText([]) == "# 0 untracked file\n"
  {
    assert NatToString(0) == "0";
  }

  /** Every untracked file appears as a '/'-rooted rule. */
  lemma UntrackedSummaryRules(untracked: seq<string>, k: nat)
    requires k < |untracked|
    ensures Contains(UntrackedSummaryText(untracked), "/" + untracked[k])
  {
    var rules := Rules(untracked);
    ConcatContains(rules, k);
    ContainsPrepend(RulesHeader(|untracked|), Concat(rules), "/" + untracked[k]);
    ContainsPrepend(UntrackedHeader(|untracked|), UntrackedRules(untracked), "/" + untracked[k]);
  }

  /** One untracked file: singular wording and a single rule. */
  lemma UntrackedSummaryOne(u: string)
    ensures UntrackedSummaryText([u]) == "# " + "1" + " untracked file" + "\n" + "# possible .gitignore rule" + ":\n" + "/" + u
  {
    assert NatToString(1) == "1";
    assert Plural(1) == "";
    assert Rules([u]) == ["/" + u];
    assert Concat(["/" + u]) == "/" + u + Concat([]);
  }

  datatype UntrackedSummary = UntrackedSummary(base: Command) {
    method Do(m: Model)
      modifies m
      ensures m.State() == old(m.State()).WithView(base.newView)
    {
      base.Do(m);
    }
  }

  /** UntrackedSummary.__init__: the summary becomes the new diff text in
      untracked mode. */
  function NewUntrackedSummary(m: Model): (r: UntrackedSummary)
    reads m
    ensures r.base.oldView == m.View()
    ensures r.base.newView == m.View().(diffText := UntrackedSummaryText(m.untracked), mode := ModeUntracked)
  {
    UntrackedSummary(Command(m.View(), m.View().(diffText := UntrackedSummaryText(m.untracked), mode := ModeUntracked)))
  }

  // =====================================================================
  // DeleteBranch

  /** The log text DeleteBranch.do broadcasts: git's "error:" output is
      capitalised with no title, anything else is prefixed with "Info: ". */
  function DeleteBranchText(output: string): (r: string)
    ensures StartsWith(r, "Error:") <==> StartsWith(output, "error:")
    ensures StartsWith(output, "error:") ==> |r| == |output| && r[1..] == output[1..] && r[0] == 'E'
    ensures !StartsWith(output, "error:") ==> StartsWith(r, "Info: ") && r[|"Info: "|..] == output
  {
    if StartsWith(output, "error:") then
      var r := "E" + output[1..];
      assert r[..6] == "E" + output[1..6];
      assert output[..6] == "error:";
      r
    else
      var r := "Info: " + output;
      assert r[..6] == "Info: ";
      assert !StartsWith(r, "Error:") by { assert r[0] == 'I'; }
      r
  }

  datatype DeleteBranch = DeleteBranch(base: Command, branch: string) {
    /** `status` and `output` are what model.delete_branch returns. */
    method Do(n: Notifier, status: int, output: string)
      modifies n
      ensures n.events == old(n.events) + [DeleteBranchCall(branch), LogCmd(status, DeleteBranchText(output))]
    {
      n.Broadcast(DeleteBranchCall(branch));
      var title := "";
      var out := output;
      if StartsWith(out, "error:") {
        out := "E" + out[1..];
      } else {
        title := "Info: ";
      }
      assert title + out == DeleteBranchText(output);
      n.Broadcast(LogCmd(status, title + out));
    }
  }

  // =====================================================================
  // Ignore

  /** The lines Ignore.do adds to .gitignore: each name followed by "\n". */
  function IgnoreText(filenames: seq<string>): (r: string)
    ensures |r| == 0 <==> |filenames| == 0
  {
    if |filenames| == 0 then "" else filenames[0] + "\n" + IgnoreText(filenames[1..])
  }

  lemma {:induction false} IgnoreTextSnoc(filenames: seq<string>, f: string)
    ensures IgnoreText(filenames + [f]) == IgnoreText(filenames) + f + "\n"
  {
    if |filenames| == 0 {
      assert filenames + [f] == [f];
    } else {
      assert (filenames + [f])[1..] == filenames[1..] + [f];
      IgnoreTextSnoc(filenames[1..], f);
    }
  }

  /** Every ignored name appears in the added text followed by a newline. */
  lemma {:induction false} IgnoreTextContains(filenames: seq<string>, k: nat)
    requires k < |filenames|
    ensures Contains(IgnoreText(filenames), filenames[k] + "\n")
  {
    if k == 0 {
      ContainsSelf(filenames[0] + "\n");
      ContainsInside("", filenames[0] + "\n", IgnoreText(filenames[1..]), filenames[0] + "\n");
      assert "" + (filenames[0] + "\n") + IgnoreText(filenames[1..]) == IgnoreText(filenames);
    } else {
      IgnoreTextContains(filenames[1..], k - 1);
      assert filenames[1..][k - 1] == filenames[k];
      ContainsInside(filenames[0] + "\n", IgnoreText(filenames[1..]), "", filenames[k] + "\n");
      assert filenames[0] + "\n" + IgnoreText(filenames[1..]) + "" == IgnoreText(filenames);
    }
  }

  /** The concatenation loop of Ignore.do. */
  method IgnoreAdditions(filenames: seq<string>) returns (additions: string)
    ensures additions == IgnoreText(filenames)
  {
    additions := "";
    for i := 0 to |filenames|
      invariant additions == IgnoreText(filenames[..i])
    {
      IgnoreTextSnoc(filenames[..i], filenames[i]);
      assert filenames[..i + 1] == filenames[..i] + [filenames[i]];
      additions := additions + filenames[i] + "\n";
    }
    assert filenames[..|filenames|] == filenames;
  }

  datatype Ignore = Ignore(base: Command, filenames: seq<string>) {
    /** `gitignore` is the current content of .gitignore, None when it does
        not exist. New names go before the existing content. */
    method Do(n: Notifier, gitignore: Option<string>)
      modifies n
      ensures |filenames| == 0 ==> n.events == old(n.events)
      ensures |filenames| > 0 ==>
                n.events == old(n.events) +
                  [WriteFile(".gitignore", IgnoreText(filenames) + (if gitignore.Some? then gitignore.value else "")),
                   LogCmd(0, "Added to .gitignore:\n" + IgnoreText(filenames)),
                   UpdateFileStatus]
    {
      var newAdditions := IgnoreAdditions(filenames);
      var forStatus := newAdditions;
      if newAdditions != "" {
        if gitignore.Some? {
          newAdditions := newAdditions + gitignore.value;
        } else {
          assert newAdditions == newAdditions + "";
        }
        n.Broadcast(WriteFile(".gitignore", newAdditions));
        n.Broadcast(LogCmd(0, "Added to .gitignore:\n" + forStatus));
        n.Broadcast(UpdateFileStatus);
      }
    }
  }

  // =====================================================================
  // Stage / Unstage / Untrack

  /** The log line of Stage, Unstage and Untrack: a verb and the paths
      joined with ", ". */
  function PathsMessage(verb: string, paths: seq<string>): (r: string)
    ensures StartsWith(r, verb + ": ")
    ensures forall k :: 0 <= k < |paths| ==> Contains(r, paths[k])
  {
    var r := verb + ": " + Join(", ", paths);
    assert r[..|verb + ": "|] == verb + ": ";
    forall k | 0 <= k < |paths| ensures Contains(r, paths[k]) {
      JoinContains(", ", paths, k);
      ContainsInside(verb + ": ", Join(", ", paths), "", paths[k]);
      assert verb + ": " + Join(", ", paths) + "" == r;
    }
    r
  }

  datatype Stage = Stage(base: Command, paths: seq<string>) {
    /** One log_cmd naming the paths, then the staging call itself. */
    method Do(n: Notifier)
      modifies n
      ensures n.events == old(n.events) + [LogCmd(0, PathsMessage("Staging", paths)), StagePaths(paths)]
      ensures LogCount(n.events) == LogCount(old(n.events)) + 1
    {
      n.Broadcast(LogCmd(0, PathsMessage("Staging", paths)));
      n.Broadcast(StagePaths(paths));
      var added := [LogCmd(0, PathsMessage("Staging", paths)), StagePaths(paths)];
      assert LogCount(added) == 1 by {
        assert added[1..] == [StagePaths(paths)];
        assert LogCount([StagePaths(paths)]) == 0 by { assert [StagePaths(paths)][1..] == []; }
      }
      LogCountAppend(old(n.events), added);
    }
  }

  /** StageModified, StageUnmerged, StageUntracked: the paths are those of
      the model at construction time. */
  function StageModified(m: Model): (r: Stage)
    reads m
    ensures r.paths == m.modified
  {
    Stage(Capture(m), m.modified)
  }

  function StageUnmerged(m: Model): (r: Stage)
    reads m
    ensures r.paths == m.unmerged
  {
    Stage(Capture(m), m.unmerged)
  }

  function StageUntracked(m: Model): (r: Stage)
    reads m
    ensures r.paths == m.untracked
  {
    Stage(Capture(m), m.untracked)
  }

  datatype Unstage = Unstage(base: Command, paths: seq<string>) {
    method Do(n: Notifier)
      modifies n
      ensures n.events == old(n.events) + [LogCmd(0, PathsMessage("Unstaging", paths)), UnstagePaths(paths)]
    {
      n.Broadcast(LogCmd(0, PathsMessage("Unstaging", paths)));
      n.Broadcast(UnstagePaths(paths));
    }
  }

  datatype Untrack = Untrack(base: Command, paths: seq<string>) {
    /** `status` and `out` are what model.untrack_paths returns. */
    method Do(n: Notifier, status: int, out: string)
      modifies n
      ensures n.events == old(n.events) +
                [LogCmd(0, PathsMessage("Untracking", paths)), UntrackPaths(paths), LogCmd(status, out)]
    {
      n.Broadcast(LogCmd(0, PathsMessage("Untracking", paths)));
      n.Broadcast(UntrackPaths(paths));
      n.Broadcast(LogCmd(status, out));
    }
  }

  // =====================================================================
  // ApplyPatches

  /** 'Patch %d/%d - ' for patch `i` of `n` (numbered from 1 in the text). */
  function PatchPrefix(i: nat, n: nat): string {
    "Patch " + NatToString(i + 1) + "/" + NatToString(n) + " - "
  }

  /** '%s:\n%s\n\n' with the patch's file name and its diffstat. */
  function PatchBody(patch: string, stat: string): string {
    Basename(patch) + ":\n" + stat + "\n\n"
  }

  /** The report block of patch `i`. */
  function PatchBlock(patches: seq<string>, stats: nat -> string, i: nat): string {
    if i < |patches| then PatchPrefix(i, |patches|) + PatchBody(patches[i], stats(i)) else ""
  }

  /** The report blocks for the first `k` patches; none at all for a single
      patch. `stats(i)` is the diffstat of HEAD after the i-th patch. */
  function PatchBlocks(patches: seq<string>, stats: nat -> string, k: nat): string {
    if |patches| <= 1 then "" else ConcatMap((i: nat) => PatchBlock(patches, stats, i), k)
  }

  /** The diff text ApplyPatches.do shows; `summary` is the diffstat from
      the original HEAD. */
  function PatchReport(patches: seq<string>, stats: nat -> string, summary: string): string {
    PatchBlocks(patches, stats, |patches|) + SummarySection(summary)
  }

  function SummarySection(summary: string): string {
    "Summary:\n" + summary
  }

  /** The report always ends with the summary section, and a single patch
      gets no per-patch block. */
  lemma PatchReportSummary(patches: seq<string>, stats: nat -> string, summary: string)
    ensures EndsWith(PatchReport(patches, stats, summary), "Summary:\n" + summary)
    ensures |patches| <= 1 ==> PatchReport(patches, stats, summary) == "Summary:\n" + summary
  {
    AppendEnds(PatchBlocks(patches, stats, |patches|), SummarySection(summary));
  }

  /** With several patches the blocks come in patch order: block `i`
      follows the blocks of the patches before it. */
  lemma PatchReportOrder(patches: seq<string>, stats: nat -> string, summary: string, i: nat)
    requires 1 < |patches| && i < |patches|
    ensures StartsWith(PatchReport(patches, stats, summary), PatchBlocks(patches, stats, i) + PatchBlock(patches, stats, i))
  {
    var f := (j: nat) => PatchBlock(patches, stats, j);
    ConcatMapPiece(f, i, |patches|);
    var whole := PatchBlocks(patches, stats, |patches|);
    AppendEnds(whole, SummarySection(summary));
    StartsWithTransitive(PatchReport(patches, stats, summary), whole, PatchBlocks(patches, stats, i) + f(i));
  }

  /** With several patches, every patch has its numbered block naming its
      file and giving its diffstat. */
  lemma PatchReportBlock(patches: seq<string>, stats: nat -> string, summary: string, i: nat)
    requires 1 < |patches| && i < |patches|
    ensures Contains(PatchReport(patches, stats, summary), PatchPrefix(i, |patches|) + PatchBody(patches[i], stats(i)))
  {
    var f := (j: nat) => PatchBlock(patches, stats, j);
    ConcatMapContains(f, i, |patches|);
    ContainsAppend(PatchBlocks(patches, stats, |patches|), SummarySection(summary), f(i));
  }

  function Basenames(patches: seq<string>): (r: seq<string>)
    ensures |r| == |patches| && forall k :: 0 <= k < |r| ==> r[k] == Basename(patches[k])
  {
    if |patches| == 0 then [] else [Basename(patches[0])] + Basenames(patches[1..])
  }

  /** The text of the final information prompt. */
  function AppliedMessage(patches: seq<string>): string {
    NatToString(|patches|) + " patch(es) applied:\n\n" + Join("\n", Basenames(patches))
  }

  /** The prompt names every applied patch by its file name. */
  lemma AppliedMessageNames(patches: seq<string>, k: nat)
    requires k < |patches|
    ensures Contains(AppliedMessage(patches), Basename(patches[k]))
  {
    JoinContains("\n", Basenames(patches), k);
    ContainsInside(NatToString(|patches|) + " patch(es) applied:\n\n", Join("\n", Basenames(patches)), "", Basename(patches[k]));
    assert NatToString(|patches|) + " patch(es) applied:\n\n" + Join("\n", Basenames(patches)) + "" == AppliedMessage(patches);
  }

  /** The per-patch trace: the git-am call and its log, patch by patch. */
  function AmEvents(patches: seq<string>, am: nat -> (int, string), k: nat): seq<Event>
    requires k <= |patches|
  {
    if k == 0 then []
    else AmEvents(patches, am, k - 1) + [ApplyMailbox(patches[k - 1]), LogCmd(am(k - 1).0, am(k - 1).1)]
  }

  /** Patches are applied one at a time in the order they are given, and a
      failure does not stop the batch: every patch gets its git-am call,
      followed by the log of its outcome. */
  lemma {:induction false} AmEventsOrder(patches: seq<string>, am: nat -> (int, string), k: nat)
    requires k <= |patches|
    ensures |AmEvents(patches, am, k)| == 2 * k
    ensures forall i :: 0 <= i < k ==> AmEvents(patches, am, k)[2 * i] == ApplyMailbox(patches[i]) &&
                                       AmEvents(patches, am, k)[2 * i + 1] == LogCmd(am(i).0, am(i).1)
  {
    if k > 0 {
      AmEventsOrder(patches, am, k - 1);
    }
  }

  datatype ApplyPatches = ApplyPatches(base: Command, patches: seq<string>) {
    /** `am(i)` is the (status, output) of git am on the i-th patch. */
    method Do(m: Model, n: Notifier, am: nat -> (int, string), stats: nat -> string, summary: string)
      modifies m, n
      ensures m.State() == old(m.State()).(diffText := PatchReport(patches, stats, summary))
      ensures n.events == old(n.events) + AmEvents(patches, am, |patches|) +
                [UpdateFileStatus, Information("Patch(es) Applied", AppliedMessage(patches))]
    {
      var blocks := ApplyEach(n, am, stats);
      var diffText := blocks + "Summary:\n";
      diffText := diffText + summary;
      assert diffText == PatchReport(patches, stats, summary);
      m.SetDiffText(diffText);
      n.BroadcastAll([UpdateFileStatus, Information("Patch(es) Applied", AppliedMessage(patches))]);
    }

    /** The loop of ApplyPatches.do: apply each patch and collect its
        report block. */
    method ApplyEach(n: Notifier, am: nat -> (int, string), stats: nat -> string) returns (diffText: string)
      modifies n
      ensures diffText == PatchBlocks(patches, stats, |patches|)
      ensures n.events == old(n.events) + AmEvents(patches, am, |patches|)
    {
      diffText := "";
      var numPatches := |patches|;
      for idx := 0 to numPatches
        invariant diffText == PatchBlocks(patches, stats, idx)
        invariant n.events == old(n.events) + AmEvents(patches, am, idx)
      {
        var patch := patches[idx];
        var (status, output) := am(idx);
        n.Broadcast(ApplyMailbox(patch));
        n.Broadcast(LogCmd(status, output));
        if numPatches > 1 {
          var diff := stats(idx);
          diffText := diffText + PatchPrefix(idx, numPatches);
          diffText := diffText + PatchBody(patch, diff);
        }
      }
    }
  }

  /** ApplyPatches.__init__ sorts the patch list. */
  function NewApplyPatches(m: Model, patches: seq<string>): (r: ApplyPatches)
    reads m
    ensures Sorted(r.patches) && multiset(r.patches) == multiset(patches)
  {
    ApplyPatches(Capture(m), Sort(patches))
  }

  /** The order of application depends only on the patches given, not on
      the order they were given in. */
  lemma ApplyOrderIndependent(m: Model, p: seq<string>, q: seq<string>)
    requires multiset(p) == multiset(q)
    ensures NewApplyPatches(m, p).patches == NewApplyPatches(m, q).patches
  {
    SortedPermutationUnique(Sort(p), Sort(q));
  }

  /** Two patches given out of order are applied in sorted order. */
  lemma ApplyPatchesSortsPair(m: Model, a: string, b: string)
    requires LexLe(a, b)
    ensures NewApplyPatches(m, [b, a]).patches == [a, b]
  {
    var expected := [a, b];
    assert Sorted(expected);
    assert multiset(expected) == multiset([b, a]);
    SortedPermutationUnique(Sort([b, a]), expected);
  }

  // =====================================================================
  // Difftool, Edit, VisualizeRevision: argument lists for spawned tools

  /** The arguments Difftool.do hands to difftool.launch, None when there
      are no filenames (nothing is launched). */
  function DifftoolArgs(staged: bool, head: string, filenames: seq<string>): (r: Option<seq<string>>)
    ensures r.None? <==> |filenames| == 0
    ensures r.Some? ==>
              var k := (if staged then 1 else 0) + (if head != "HEAD" then 1 else 0);
              |r.value| == k + 1 + |filenames| && r.value[k] == "--" && r.value[k + 1..] == filenames &&
              (staged ==> r.value[0] == "--cached") &&
              (head != "HEAD" ==> r.value[k - 1] == head)
  {
    if |filenames| == 0 then None
    else Some((if staged then ["--cached"] else []) + (if head != "HEAD" then [head] else []) + ["--"] + filenames)
  }

  datatype Difftool = Difftool(base: Command, staged: bool, filenames: seq<string>) {
    method Do(m: Model, n: Notifier)
      modifies n
      ensures DifftoolArgs(staged, m.head, filenames).None? ==> n.events == old(n.events)
      ensures DifftoolArgs(staged, m.head, filenames).Some? ==>
                n.events == old(n.events) + [LaunchDifftool(DifftoolArgs(staged, m.head, filenames).value)]
    {
      if |filenames| == 0 {
        return;
      }
      var args: seq<string> := [];
      if staged {
        args := args + ["--cached"];
      }
      if m.head != "HEAD" {
        args := args + [m.head];
      }
      args := args + ["--"];
      args := args + filenames;
      assert args == DifftoolArgs(staged, m.head, filenames).value;
      n.Broadcast(LaunchDifftool(args));
    }
  }

  /** What a tool command does: raise (an empty list indexed), return
      without spawning, or spawn the given argv. */
  datatype Launch = Crash(reason: string) | Skip | Spawn(argv: seq<string>)

  /** The editor patterns of Edit.do; `*x*` is read as "contains x". */
  datatype EditorPattern = VimPattern | EmacsPattern | TextpadPattern | NotepadPattern

  function Needle(p: EditorPattern): string {
    match p
    case VimPattern => "vim"
    case EmacsPattern => "emacs"
    case TextpadPattern => "textpad"
    case NotepadPattern => "notepad++"
  }

  function PatternOpts(p: EditorPattern, filename: string, line: string): seq<string> {
    match p
    case VimPattern => ["+" + line, filename]
    case EmacsPattern => ["+" + line, filename]
    case TextpadPattern => [filename + "(" + line + ",0)"]
    case NotepadPattern => ["-n" + line, filename]
  }

  /** The line-number options of the first pattern in `order` that the
      editor matches, or the filenames when none matches. `order` is the
      iteration order of the pattern dictionary, which Python leaves
      unspecified. */
  function MatchEditor(order: seq<EditorPattern>, editor: string, filenames: seq<string>, line: string): seq<string>
    requires |filenames| > 0
  {
    if |order| == 0 then filenames
    else if Contains(editor, Needle(order[0])) then PatternOpts(order[0], filenames[0], line)
    else MatchEditor(order[1..], editor, filenames, line)
  }

  /** When the editor matches exactly one pattern, the dictionary order does
      not matter; when it matches none, the filenames are passed on. */
  lemma {:induction false} MatchEditorOrderFree(order: seq<EditorPattern>, editor: string, filenames: seq<string>, line: string, p: EditorPattern)
    requires |filenames| > 0 && p in order
    requires Contains(editor, Needle(p))
    requires forall q :: q != p ==> !Contains(editor, Needle(q))
    ensures MatchEditor(order, editor, filenames, line) == PatternOpts(p, filenames[0], line)
  {
    if order[0] != p {
      MatchEditorOrderFree(order[1..], editor, filenames, line, p);
    }
  }

  lemma {:induction false} MatchEditorNone(order: seq<EditorPattern>, editor: string, filenames: seq<string>, line: string)
    requires |filenames| > 0
    requires forall q :: !Contains(editor, Needle(q))
    ensures MatchEditor(order, editor, filenames, line) == filenames
  {
    if |order| > 0 {
      MatchEditorNone(order[1..], editor, filenames, line);
    }
  }

  /** Edit.do: `fileExists` says whether the first file exists, `editor` is
      the configured editor and `editorArgv` its shell-split form. */
  function EditLaunch(filenames: seq<string>, lineNumber: Option<string>, fileExists: bool, editor: string,
                      editorArgv: seq<string>, order: seq<EditorPattern>): (r: Launch)
    ensures r.Crash? <==> |filenames| == 0
    ensures r.Skip? <==> |filenames| > 0 && !fileExists
    ensures r.Spawn? ==> StartsWith(r.argv, editorArgv)
    ensures r.Spawn? && lineNumber.None? ==> r.argv == editorArgv + filenames
  {
    if |filenames| == 0 then Crash("IndexError: list index out of range")
    else if !fileExists then Skip
    else
      var opts := if lineNumber.None? then filenames else MatchEditor(order, editor, filenames, lineNumber.value);
      assert (editorArgv + opts)[..|editorArgv|] == editorArgv;
      Spawn(editorArgv + opts)
  }

  /** With vim (and no other editor name inside its name) a line number
      becomes "+N file", whatever the dictionary order. */
  lemma EditVimLine(filenames: seq<string>, line: string, editor: string, editorArgv: seq<string>, order: seq<EditorPattern>)
    requires |filenames| > 0 && VimPattern in order
    requires Contains(editor, "vim") && !Contains(editor, "emacs") && !Contains(editor, "textpad") && !Contains(editor, "notepad++")
    ensures EditLaunch(filenames, Some(line), true, editor, editorArgv, order) ==
            Spawn(editorArgv + ["+" + line, filenames[0]])
  {
    MatchEditorOrderFree(order, editor, filenames, line, VimPattern);
  }

  /** VisualizeRevision.do: the history browser, the revision when given,
      then "--" and the paths when there are any. */
  function VisualizeRevisionArgv(browserArgv: seq<string>, revision: string, paths: seq<string>): (r: seq<string>)
    ensures StartsWith(r, browserArgv)
    ensures |r| == |browserArgv| + (if revision != "" then 1 else 0) + (if |paths| > 0 then 1 + |paths| else 0)
    ensures revision != "" ==> r[|browserArgv|] == revision
    ensures |paths| > 0 ==> r[|r| - |paths| - 1] == "--" && r[|r| - |paths|..] == paths
  {
    var argv := browserArgv + (if revision != "" then [revision] else []);
    var r := argv + (if |paths| > 0 then ["--"] + paths else []);
    assert r[..|browserArgv|] == browserArgv;
    r
  }

  // =====================================================================
  // RunConfigAction

  /** The options of a configured tool (guitool.<name>.*). `title` and
      `prompt` are None when unset; a prompt of True is also None. */
  datatype ToolOpts = ToolOpts(
    cmd: string, title: Option<string>, prompt: Option<string>,
    needsfile: bool, revprompt: bool, argprompt: bool, confirm: bool,
    noconsole: bool, norescan: bool)

  /** What the user enters in the run_config_action dialog; an unset
      revision or argument list is the empty string. */
  datatype DialogAnswer = DialogAnswer(ok: bool, revision: string, args: string)

  datatype DialogOutcome = Cancelled | Accepted(revision: string, args: string)

  const InvalidRevisionTitle := "Invalid Revision"
  const InvalidRevisionMessage := "The revision expression cannot be empty."

  /** The dialog loop: ask until the user cancels or gives an acceptable
      answer; an empty revision is refused when a revision is required.
      Past the last given answer the user cancels. */
  function DialogOutcomeOf(revprompt: bool, answers: seq<DialogAnswer>): DialogOutcome {
    if |answers| == 0 || !answers[0].ok then Cancelled
    else if revprompt && answers[0].revision == "" then DialogOutcomeOf(revprompt, answers[1..])
    else Accepted(answers[0].revision, answers[0].args)
  }

  function DialogEvents(cmd: string, revprompt: bool, answers: seq<DialogAnswer>): seq<Event> {
    if |answers| == 0 || !answers[0].ok then [ConfigActionDialog(cmd)]
    else if revprompt && answers[0].revision == "" then
      [ConfigActionDialog(cmd), Critical(InvalidRevisionTitle, InvalidRevisionMessage)] + DialogEvents(cmd, revprompt, answers[1..])
    else [ConfigActionDialog(cmd)]
  }

  /** An accepted answer is the first answer that is neither a cancel nor
      an empty revision where one is needed; every answer before it was
      refused for its empty revision. */
  lemma {:induction false} DialogAccepted(revprompt: bool, answers: seq<DialogAnswer>)
    ensures DialogOutcomeOf(revprompt, answers).Accepted? ==>
              exists k :: 0 <= k < |answers| && answers[k].ok &&
                DialogOutcomeOf(revprompt, answers) == Accepted(answers[k].revision, answers[k].args) &&
                (revprompt ==> answers[k].revision != "") &&
                (forall j :: 0 <= j < k ==> answers[j].ok && revprompt && answers[j].revision == "")
  {
    if |answers| > 0 && answers[0].ok && revprompt && answers[0].revision == "" {
      DialogAccepted(revprompt, answers[1..]);
      if DialogOutcomeOf(revprompt, answers).Accepted? {
        var k :| 0 <= k < |answers[1..]| && answers[1..][k].ok &&
                 DialogOutcomeOf(revprompt, answers[1..]) == Accepted(answers[1..][k].revision, answers[1..][k].args) &&
                 (revprompt ==> answers[1..][k].revision != "") &&
                 (forall j :: 0 <= j < k ==> answers[1..][j].ok && revprompt && answers[1..][j].revision == "");
        assert forall j :: 0 <= j < k + 1 ==> answers[j].ok && revprompt && answers[j].revision == "" by {
          forall j | 0 <= j < k + 1 ensures answers[j].ok && revprompt && answers[j].revision == "" {
            if j > 0 { assert answers[j] == answers[1..][j - 1]; }
          }
        }
      }
    } else if DialogOutcomeOf(revprompt, answers).Accepted? {
      assert 0 < |answers| && answers[0].ok;
    }
  }

  /** The `while True` prompt loop of RunConfigAction.do. */
  method AskForRevision(cmd: string, revprompt: bool, answers: seq<DialogAnswer>) returns (r: DialogOutcome, shown: seq<Event>)
    ensures r == DialogOutcomeOf(revprompt, answers)
    ensures shown == DialogEvents(cmd, revprompt, answers)
    ensures r.Accepted? && revprompt ==> r.revision != ""
  {
    var k := 0;
    shown := [];
    while true
      invariant 0 <= k <= |answers|
      invariant DialogOutcomeOf(revprompt, answers) == DialogOutcomeOf(revprompt, answers[k..])
      invariant DialogEvents(cmd, revprompt, answers) == shown + DialogEvents(cmd, revprompt, answers[k..])
      decreases |answers| - k
    {
      shown := shown + [ConfigActionDialog(cmd)];
      if k == |answers| || !answers[k].ok {
        return Cancelled, shown;
      }
      var rev := answers[k].revision;
      var args := answers[k].args;
      if revprompt && rev == "" {
        shown := shown + [Critical(InvalidRevisionTitle, InvalidRevisionMessage)];
        assert answers[k..][1..] == answers[k + 1..];
        k := k + 1;
        continue;
      }
      return Accepted(rev, args), shown;
    }
  }

  /** The default confirmation text (the i18n lookup is the identity). */
  function DefaultPrompt(cmd: string): string {
    "Are you sure you want to run " + cmd + "?"
  }

  /** What the tool's command produced: exit status, stdout, stderr. */
  datatype RunResult = RunResult(status: int, out: string, err: string)

  /** Everything RunConfigAction.do does, as a value. */
  datatype ActionEffects = ActionEffects(env: map<string, string>, events: seq<Event>, status: Option<int>)

  function RunLog(result: RunResult): string {
    "stdout: " + RStrip(result.out) + "\nstatus: " + IntToString(result.status) + "\nstderr: " + RStrip(result.err)
  }

  const VarNames: set<string> := {"FILENAME", "REVISION", "ARGS"}

  /** The reference definition of RunConfigAction.do. `selected` is
      selection.filename() ("" for none), `answers` the dialog answers,
      `confirmed` the answer to the yes/no question and `result` what the
      shell command produced. Environment-variable expansion of titles is
      the identity here. */
  function ConfigAction(opts: ToolOpts, env0: map<string, string>, selected: string,
                        answers: seq<DialogAnswer>, confirmed: bool, result: RunResult): ActionEffects
  {
    var env1 := env0 - VarNames;
    if opts.needsfile && selected == "" then
      ActionEffects(env1, [Information("Please select a file", "\"" + opts.cmd + "\" requires a selected file")], None)
    else
      var env2 := if opts.needsfile then env1["FILENAME" := selected] else env1;
      var outcome := PromptOutcome(opts, answers, confirmed);
      var asked := PromptEvents(opts, answers);
      if outcome.Cancelled? then ActionEffects(env2, asked, None)
      else ActionEffects(WithAnswers(env2, outcome.revision, outcome.args), asked + RunEvents(opts, result), Some(result.status))
  }

  /** The answer of the dialog when the tool asks for a revision or
      arguments, else of the confirmation question when it asks one. */
  function PromptOutcome(opts: ToolOpts, answers: seq<DialogAnswer>, confirmed: bool): DialogOutcome {
    if opts.revprompt || opts.argprompt then DialogOutcomeOf(opts.revprompt, answers)
    else if opts.confirm && !confirmed then Cancelled
    else Accepted("", "")
  }

  function PromptEvents(opts: ToolOpts, answers: seq<DialogAnswer>): seq<Event> {
    if opts.revprompt || opts.argprompt then DialogEvents(opts.cmd, opts.revprompt, answers)
    else if opts.confirm then [Question(ToolTitle(opts), ToolPrompt(opts))]
    else []
  }

  function ToolTitle(opts: ToolOpts): string {
    if opts.title.Some? then opts.title.value else opts.cmd
  }

  function ToolPrompt(opts: ToolOpts): string {
    if opts.prompt.Some? then opts.prompt.value else DefaultPrompt(opts.cmd)
  }

  /** REVISION and ARGS are set only to non-empty answers. */
  function WithAnswers(env: map<string, string>, rev: string, args: string): map<string, string> {
    var env3 := if rev != "" then env["REVISION" := rev] else env;
    if args != "" then env3["ARGS" := args] else env3
  }

  /** Running the command: the "running:" log, the shell call (in the
      console dialog unless the tool is silent), the log of its outcome and
      a rescan unless the tool opts out. */
  function RunEvents(opts: ToolOpts, result: RunResult): seq<Event> {
    var argv := ["sh", "-c", opts.cmd];
    var run := if opts.noconsole then SilentRun(argv) else ConsoleRun(opts.cmd, argv);
    [LogCmd(0, "running: " + opts.cmd), run, LogCmd(result.status, RunLog(result))] +
    (if opts.norescan then [] else [UpdateStatus])
  }

  /** The three variables are always cleared first: afterwards each is set
      only by this run, and every other variable is left as it was. */
  lemma ConfigActionEnvironment(opts: ToolOpts, env0: map<string, string>, selected: string,
                                answers: seq<DialogAnswer>, confirmed: bool, result: RunResult)
    ensures var e := ConfigAction(opts, env0, selected, answers, confirmed, result);
            (forall k :: k !in VarNames ==> (k in e.env <==> k in env0) && (k in env0 ==> e.env[k] == env0[k])) &&
            ("FILENAME" in e.env <==> opts.needsfile && selected != "") &&
            ("FILENAME" in e.env ==> e.env["FILENAME"] == selected) &&
            ("REVISION" in e.env ==> e.status.Some? && e.env["REVISION"] != "") &&
            ("ARGS" in e.env ==> e.status.Some? && e.env["ARGS"] != "")
  {
  }

  /** A tool that needs a file does nothing but explain itself when no file
      is selected: no dialog, no command, no rescan. */
  lemma ConfigActionNeedsFile(opts: ToolOpts, env0: map<string, string>,
                              answers: seq<DialogAnswer>, confirmed: bool, result: RunResult)
    requires opts.needsfile
    ensures var e := ConfigAction(opts, env0, "", answers, confirmed, result);
            e.status.None? && LogCount(e.events) == 0 &&
            e.events == [Information("Please select a file", "\"" + opts.cmd + "\" requires a selected file")] &&
            e.env == env0 - VarNames
  {
  }

  /** The command runs exactly when the file requirement is met and the
      user accepted the dialog, or the confirmation when there is no
      dialog; a required revision is then never empty. */
  lemma ConfigActionRuns(opts: ToolOpts, env0: map<string, string>, selected: string,
                         answers: seq<DialogAnswer>, confirmed: bool, result: RunResult)
    ensures var e := ConfigAction(opts, env0, selected, answers, confirmed, result);
            (e.status.Some? <==>
              !(opts.needsfile && selected == "") &&
              (opts.revprompt || opts.argprompt ==> DialogOutcomeOf(opts.revprompt, answers).Accepted?) &&
              (!(opts.revprompt || opts.argprompt) && opts.confirm ==> confirmed)) &&
            (e.status.Some? ==> e.status.value == result.status) &&
            (e.status.Some? && opts.revprompt ==> "REVISION" in e.env) &&
            ((UpdateStatus in e.events) <==> e.status.Some? && !opts.norescan)
  {
    var e := ConfigAction(opts, env0, selected, answers, confirmed, result);
    if e.status.Some? && opts.revprompt {
      DialogAccepted(opts.revprompt, answers);
    }
    if opts.revprompt || opts.argprompt {
      DialogEventsNoRescan(opts.cmd, opts.revprompt, answers);
    }
  }

  lemma {:induction false} DialogEventsNoRescan(cmd: string, revprompt: bool, answers: seq<DialogAnswer>)
    ensures UpdateStatus !in DialogEvents(cmd, revprompt, answers)
  {
    if |answers| > 0 && answers[0].ok && revprompt && answers[0].revision == "" {
      DialogEventsNoRescan(cmd, revprompt, answers[1..]);
    }
  }

  datatype RunConfigAction = RunConfigAction(base: Command, name: string) {

    /** `opts` are the tool's settings under guitool.<name>. */
    method Do(env: Environ, n: Notifier, opts: ToolOpts, selected: string,
              answers: seq<DialogAnswer>, confirmed: bool, result: RunResult) returns (status: Option<int>)
      modifies env, n
      ensures var e := ConfigAction(opts, old(env.vars), selected, answers, confirmed, result);
              env.vars == e.env && n.events == old(n.events) + e.events && status == e.status
    {
      env.vars := env.vars - VarNames;
      var cmd := opts.cmd;
      if opts.needsfile {
        if selected == "" {
          n.Broadcast(Information("Please select a file", "\"" + cmd + "\" requires a selected file"));
          return None;
        }
        env.vars := env.vars["FILENAME" := selected];
      }
      var outcome := AskUser(n, opts, answers, confirmed);
      if outcome.Cancelled? {
        return None;
      }
      status := RunTool(env, n, opts, outcome.revision, outcome.args, result);
    }
  }

  /** The prompts of RunConfigAction.do: the revision/argument dialog when
      the tool asks for either, else the confirmation question when it
      asks one. No revision or arguments are entered in the latter cases. */
  method AskUser(n: Notifier, opts: ToolOpts, answers: seq<DialogAnswer>, confirmed: bool) returns (outcome: DialogOutcome)
    modifies n
    ensures outcome == PromptOutcome(opts, answers, confirmed)
    ensures n.events == old(n.events) + PromptEvents(opts, answers)
  {
    if opts.revprompt || opts.argprompt {
      var shown;
      outcome, shown := AskForRevision(opts.cmd, opts.revprompt, answers);
      n.BroadcastAll(shown);
      return;
    }
    if opts.confirm {
      n.Broadcast(Question(ToolTitle(opts), ToolPrompt(opts)));
      if !confirmed {
        return Cancelled;
      }
    }
    return Accepted("", "");
  }

  /** The second half of RunConfigAction.do, once the prompts are passed. */
  method RunTool(env: Environ, n: Notifier, opts: ToolOpts, rev: string, args: string, result: RunResult)
    returns (status: Option<int>)
    modifies env, n
    ensures env.vars == WithAnswers(old(env.vars), rev, args)
    ensures n.events == old(n.events) + RunEvents(opts, result)
    ensures status == Some(result.status)
  {
    ExportAnswers(env, rev, args);
    LaunchTool(n, opts, result);
    return Some(result.status);
  }

  method ExportAnswers(env: Environ, rev: string, args: string)
    modifies env
    ensures env.vars == WithAnswers(old(env.vars), rev, args)
  {
    if rev != "" {
      env.vars := env.vars["REVISION" := rev];
    }
    if args != "" {
      env.vars := env.vars["ARGS" := args];
    }
  }

  method LaunchTool(n: Notifier, opts: ToolOpts, result: RunResult)
    modifies n
    ensures n.events == old(n.events) + RunEvents(opts, result)
  {
    n.Broadcast(LogCmd(0, "running: " + opts.cmd));
    var argv := ["sh", "-c", opts.cmd];
    if opts.noconsole {
      n.Broadcast(SilentRun(argv));
    } else {
      n.Broadcast(ConsoleRun(opts.cmd, argv));
    }
    n.Broadcast(LogCmd(result.status, RunLog(result)));
    if !opts.norescan {
      n.Broadcast(UpdateStatus);
    }
  }

  // =====================================================================
  // register(): the signal-to-command table

  /** The signals register() maps, one constructor per signals.<name>. */
  datatype Signal =
    | SigAmendMode
    | SigApplyDiffSelection
    | SigApplyPatches
    | SigClone
    | SigCheckout
    | SigCheckoutBranch
    | SigCherryPick
    | SigCommit
    | SigDelete
    | SigDeleteBranch
    | SigDiff
    | SigDiffStaged
    | SigDiffstat
    | SigDifftool
    | SigEdit
    | SigFormatPatch
    | SigIgnore
    | SigLoadCommitMessage
    | SigLoadCommitTemplate
    | SigLoadPreviousMessage
    | SigModifiedSummary
    | SigMergetool
    | SigOpenDefaultApp
    | SigOpenRepo
    | SigRescan
    | SigRescanAndRefresh
    | SigResetMode
    | SigRunConfigAction
    | SigSetDiffText
    | SigShowUntracked
    | SigSignoff
    | SigStage
    | SigStageModified
    | SigStageUnmerged
    | SigStageUntracked
    | SigStagedSummary
    | SigTag
    | SigUntrack
    | SigUnstage
    | SigUnstageAll
    | SigUnstageSelected
    | SigUntrackedSummary
    | SigUpdateFileStatus
    | SigVisualizeAll
    | SigVisualizeCurrent
    | SigVisualizePaths
    | SigVisualizeRevision

  /** The command classes the table names. */
  datatype CommandClass =
    | AmendModeClass
    | ApplyDiffSelectionClass
    | ApplyPatchesClass
    | CloneClass
    | CheckoutClass
    | CheckoutBranchClass
    | CherryPickClass
    | CommitClass
    | DeleteClass
    | DeleteBranchClass
    | DiffClass
    | DiffStagedClass
    | DiffstatClass
    | DifftoolClass
    | EditClass
    | FormatPatchClass
    | IgnoreClass
    | LoadCommitMessageClass
    | LoadCommitTemplateClass
    | LoadPreviousMessageClass
    | MergetoolClass
    | OpenDefaultAppClass
    | OpenRepoClass
    | RescanClass
    | RescanAndRefreshClass
    | ResetModeClass
    | RunConfigActionClass
    | SetDiffTextClass
    | ShowUntrackedClass
    | SignOffClass
    | StageClass
    | StageModifiedClass
    | StageUnmergedClass
    | StageUntrackedClass
    | DiffStagedSummaryClass
    | TagClass
    | UntrackClass
    | UnstageClass
    | UnstageAllClass
    | UnstageSelectedClass
    | UntrackedSummaryClass
    | UpdateFileStatusClass
    | VisualizeAllClass
    | VisualizeCurrentClass
    | VisualizePathsClass
    | VisualizeRevisionClass

  /** signal_to_command_map: the command class the factory builds and runs
      when a signal is broadcast. */
  function CommandFor(s: Signal): CommandClass {
    match s
    case SigAmendMode => AmendModeClass
    case SigApplyDiffSelection => ApplyDiffSelectionClass
    case SigApplyPatches => ApplyPatchesClass
    case SigClone => CloneClass
    case SigCheckout => CheckoutClass
    case SigCheckoutBranch => CheckoutBranchClass
    case SigCherryPick => CherryPickClass
    case SigCommit => CommitClass
    case SigDelete => DeleteClass
    case SigDeleteBranch => DeleteBranchClass
    case SigDiff => DiffClass
    case SigDiffStaged => DiffStagedClass
    case SigDiffstat => DiffstatClass
    case SigDifftool => DifftoolClass
    case SigEdit => EditClass
    case SigFormatPatch => FormatPatchClass
    case SigIgnore => IgnoreClass
    case SigLoadCommitMessage => LoadCommitMessageClass
    case SigLoadCommitTemplate => LoadCommitTemplateClass
    case SigLoadPreviousMessage => LoadPreviousMessageClass
    case SigModifiedSummary => DiffstatClass
    case SigMergetool => MergetoolClass
    case SigOpenDefaultApp => OpenDefaultAppClass
    case SigOpenRepo => OpenRepoClass
    case SigRescan => RescanClass
    case SigRescanAndRefresh => RescanAndRefreshClass
    case SigResetMode => ResetModeClass
    case SigRunConfigAction => RunConfigActionClass
    case SigSetDiffText => SetDiffTextClass
    case SigShowUntracked => ShowUntrackedClass
    case SigSignoff => SignOffClass
    case SigStage => StageClass
    case SigStageModified => StageModifiedClass
    case SigStageUnmerged => StageUnmergedClass
    case SigStageUntracked => StageUntrackedClass
    case SigStagedSummary => DiffStagedSummaryClass
    case SigTag => TagClass
    case SigUntrack => UntrackClass
    case SigUnstage => UnstageClass
    case SigUnstageAll => UnstageAllClass
    case SigUnstageSelected => UnstageSelectedClass
    case SigUntrackedSummary => UntrackedSummaryClass
    case SigUpdateFileStatus => UpdateFileStatusClass
    case SigVisualizeAll => VisualizeAllClass
    case SigVisualizeCurrent => VisualizeCurrentClass
    case SigVisualizePaths => VisualizePathsClass
    case SigVisualizeRevision => VisualizeRevisionClass
  }

  /** diffstat and modified_summary both run the Diffstat command. */
  lemma RegisterDiffstatTwice()
    ensures CommandFor(SigDiffstat) == CommandFor(SigModifiedSummary) == DiffstatClass
  {
  }

  /** The entry of the table that names `c`; for Diffstat, the first of its
      two entries. */
  function SignalFor(c: CommandClass): Signal {
    match c
    case AmendModeClass => SigAmendMode
    case ApplyDiffSelectionClass => SigApplyDiffSelection
    case ApplyPatchesClass => SigApplyPatches
    case CloneClass => SigClone
    case CheckoutClass => SigCheckout
    case CheckoutBranchClass => SigCheckoutBranch
    case CherryPickClass => SigCherryPick
    case CommitClass => SigCommit
    case DeleteClass => SigDelete
    case DeleteBranchClass => SigDeleteBranch
    case DiffClass => SigDiff
    case DiffStagedClass => SigDiffStaged
    case DiffstatClass => SigDiffstat
    case DifftoolClass => SigDifftool
    case EditClass => SigEdit
    case FormatPatchClass => SigFormatPatch
    case IgnoreClass => SigIgnore
    case LoadCommitMessageClass => SigLoadCommitMessage
    case LoadCommitTemplateClass => SigLoadCommitTemplate
    case LoadPreviousMessageClass => SigLoadPreviousMessage
    case MergetoolClass => SigMergetool
    case OpenDefaultAppClass => SigOpenDefaultApp
    case OpenRepoClass => SigOpenRepo
    case RescanClass => SigRescan
    case RescanAndRefreshClass => SigRescanAndRefresh
    case ResetModeClass => SigResetMode
    case RunConfigActionClass => SigRunConfigAction
    case SetDiffTextClass => SigSetDiffText
    case ShowUntrackedClass => SigShowUntracked
    case SignOffClass => SigSignoff
    case StageClass => SigStage
    case StageModifiedClass => SigStageModified
    case StageUnmergedClass => SigStageUnmerged
    case StageUntrackedClass => SigStageUntracked
    case DiffStagedSummaryClass => SigStagedSummary
    case TagClass => SigTag
    case UntrackClass => SigUntrack
    case UnstageClass => SigUnstage
    case UnstageAllClass => SigUnstageAll
    case UnstageSelectedClass => SigUnstageSelected
    case UntrackedSummaryClass => SigUntrackedSummary
    case UpdateFileStatusClass => SigUpdateFileStatus
    case VisualizeAllClass => SigVisualizeAll
    case VisualizeCurrentClass => SigVisualizeCurrent
    case VisualizePathsClass => SigVisualizePaths
    case VisualizeRevisionClass => SigVisualizeRevision
  }

  /** Every command class of the table is registered under some signal. */
  lemma RegisterCovers(c: CommandClass)
    ensures CommandFor(SignalFor(c)) == c
  {
    match c {
      case AmendModeClass =>
      case ApplyDiffSelectionClass =>
      case ApplyPatchesClass =>
      case CloneClass =>
      case CheckoutClass =>
      case CheckoutBranchClass =>
      case CherryPickClass =>
      case CommitClass =>
      case DeleteClass =>
      case DeleteBranchClass =>
      case DiffClass =>
      case DiffStagedClass =>
      case DiffstatClass =>
      case DifftoolClass =>
      case EditClass =>
      case FormatPatchClass =>
      case IgnoreClass =>
      case LoadCommitMessageClass =>
      case LoadCommitTemplateClass =>
      case LoadPreviousMessageClass =>
      case MergetoolClass =>
      case OpenDefaultAppClass =>
      case OpenRepoClass =>
      case RescanClass =>
      case RescanAndRefreshClass =>
      case ResetModeClass =>
      case RunConfigActionClass =>
      case SetDiffTextClass =>
      case ShowUntrackedClass =>
      case SignOffClass =>
      case StageClass =>
      case StageModifiedClass =>
      case StageUnmergedClass =>
      case StageUntrackedClass =>
      case DiffStagedSummaryClass =>
      case TagClass =>
      case UntrackClass =>
      case UnstageClass =>
      case UnstageAllClass =>
      case UnstageSelectedClass =>
      case UntrackedSummaryClass =>
      case UpdateFileStatusClass =>
      case VisualizeAllClass =>
      case VisualizeCurrentClass =>
      case VisualizePathsClass =>
      case VisualizeRevisionClass =>
    }
  }

  /** Every signal other than modified_summary is the one entry for its class. */
  lemma RegisterOwnEntry(s: Signal)
    requires s != SigModifiedSummary
    ensures SignalFor(CommandFor(s)) == s
  {
    match s {
      case SigAmendMode =>
      case SigApplyDiffSelection =>
      case SigApplyPatches =>
      case SigClone =>
      case SigCheckout =>
      case SigCheckoutBranch =>
      case SigCherryPick =>
      case SigCommit =>
      case SigDelete =>
      case SigDeleteBranch =>
      case SigDiff =>
      case SigDiffStaged =>
      case SigDiffstat =>
      case SigDifftool =>
      case SigEdit =>
      case SigFormatPatch =>
      case SigIgnore =>
      case SigLoadCommitMessage =>
      case SigLoadCommitTemplate =>
      case SigLoadPreviousMessage =>
      case SigModifiedSummary =>
      case SigMergetool =>
      case SigOpenDefaultApp =>
      case SigOpenRepo =>
      case SigRescan =>
      case SigRescanAndRefresh =>
      case SigResetMode =>
      case SigRunConfigAction =>
      case SigSetDiffText =>
      case SigShowUntracked =>
      case SigSignoff =>
      case SigStage =>
      case SigStageModified =>
      case SigStageUnmerged =>
      case SigStageUntracked =>
      case SigStagedSummary =>
      case SigTag =>
      case SigUntrack =>
      case SigUnstage =>
      case SigUnstageAll =>
      case SigUnstageSelected =>
      case SigUntrackedSummary =>
      case SigUpdateFileStatus =>
      case SigVisualizeAll =>
      case SigVisualizeCurrent =>
      case SigVisualizePaths =>
      case SigVisualizeRevision =>
    }
  }

  /** Two signals share a command class only when they are diffstat and
      modified_summary. */
  lemma RegisterSharing(a: Signal, b: Signal)
    requires a != b && CommandFor(a) == CommandFor(b)
    ensures (a == SigDiffstat && b == SigModifiedSummary) || (a == SigModifiedSummary && b == SigDiffstat)
  {
    if a != SigModifiedSummary && b != SigModifiedSummary {
      RegisterOwnEntry(a);
      RegisterOwnEntry(b);
      assert false;
    } else if a == SigModifiedSummary {
      RegisterOwnEntry(b);
    } else {
      RegisterOwnEntry(a);
    }
  }
}
