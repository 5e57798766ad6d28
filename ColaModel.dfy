/** The collaborators the commands of cola/cmds.py work on: the main model
    (repository-facing state), the notifier (log_cmd broadcasts), and the
    process environment. Every call a command makes into something outside
    the core (a rescan, a git invocation, a prompt, a spawned process) is
    recorded in the notifier's trace as an `Event`, in order, so the model can
    state what a command asked for without running any of it. */
module ColaModel {

  /** The model's view modes (mode_none, mode_amend, mode_worktree,
      mode_index, mode_untracked). */
  datatype Mode = ModeNone | ModeAmend | ModeWorktree | ModeIndex | ModeUntracked

  /** The four fields every command snapshots when it is constructed. A
      missing filename (Python's None) is the empty string. */
  datatype DiffView = DiffView(diffText: string, filename: string, mode: Mode, head: string)

  /** The whole state of the main model, as a value. */
  datatype RepoState = RepoState(
    diffText: string, filename: string, mode: Mode, head: string,
    commitmsg: string, directory: string,
    staged: seq<string>, modified: seq<string>, unmerged: seq<string>, untracked: seq<string>)
  {
    function View(): DiffView {
      DiffView(diffText, filename, mode, head)
    }

    /** The state after the four view setters have written `v`. */
    function WithView(v: DiffView): (r: RepoState)
      ensures r.View() == v
    {
      this.(diffText := v.diffText, filename := v.filename, mode := v.mode, head := v.head)
    }
  }

  /** What the core tells the outside world, in the order it does so. */
  datatype Event =
    | LogCmd(status: int, text: string)                 // signals.log_cmd
    | AmendChanged(amending: bool)                      // signals.amend
    | Information(title: string, message: string)       // prompt_user(signals.information, ...)
    | Question(title: string, message: string)          // prompt_user(signals.question, ...)
    | Critical(title: string, message: string)          // prompt_user(signals.critical, ...)
    | ConfigActionDialog(cmd: string)                   // prompt_user(signals.run_config_action, ...)
    | ConsoleRun(title: string, argv: seq<string>)      // prompt_user(signals.run_command, ...)
    | SilentRun(argv: seq<string>)                      // utils.run_command
    | Fork(argv: seq<string>)                           // utils.fork
    | LaunchDifftool(args: seq<string>)                 // difftool.launch
    | UpdateStatus                                      // model.update_status()
    | UpdateFileStatus                                  // model.update_file_status()
    | StagePaths(paths: seq<string>)                    // model.stage_paths
    | UnstagePaths(paths: seq<string>)                  // model.unstage_paths
    | UntrackPaths(paths: seq<string>)                  // model.untrack_paths
    | DeleteBranchCall(branch: string)                  // model.delete_branch
    | CommitWithMsg(msg: string, amend: bool)           // model.commit_with_msg
    | ApplyMailbox(patch: string)                       // git am
    | WriteFile(path: string, content: string)          // utils.write

  /** Number of log_cmd broadcasts in a trace. */
  function LogCount(events: seq<Event>): nat {
    if |events| == 0 then 0
    else (if events[0].LogCmd? then 1 else 0) + LogCount(events[1..])
  }

  lemma {:induction false} LogCountAppend(a: seq<Event>, b: seq<Event>)
    ensures LogCount(a + b) == LogCount(a) + LogCount(b)
  {
    if |a| > 0 {
      assert (a + b)[1..] == a[1..] + b;
      LogCountAppend(a[1..], b);
    } else {
      assert a + b == b;
    }
  }

  /** The main model (cola.model()): its fields are written only through
      the setters below, as the commands do. */
  class Model {
    var diffText: string
    var filename: string
    var mode: Mode
    var head: string
    var commitmsg: string
    var directory: string
    var staged: seq<string>
    var modified: seq<string>
    var unmerged: seq<string>
    var untracked: seq<string>

    constructor (s: RepoState)
      ensures State() == s
    {
      diffText, filename, mode, head := s.diffText, s.filename, s.mode, s.head;
      commitmsg, directory := s.commitmsg, s.directory;
      staged, modified, unmerged, untracked := s.staged, s.modified, s.unmerged, s.untracked;
    }

    function State(): RepoState
      reads this
    {
      RepoState(diffText, filename, mode, head, commitmsg, directory,
                staged, modified, unmerged, untracked)
    }

    function View(): DiffView
      reads this
    {
      DiffView(diffText, filename, mode, head)
    }

    /** set_filename, set_head, set_mode and set_diff_text together. */
    method SetView(v: DiffView)
      modifies this
      ensures State() == old(State()).WithView(v)
    {
      filename := v.filename;
      head := v.head;
      mode := v.mode;
      diffText := v.diffText;
    }

    method SetDiffText(text: string)
      modifies this
      ensures State() == old(State()).(diffText := text)
    {
      diffText := text;
    }

    method SetCommitmsg(msg: string)
      modifies this
      ensures State() == old(State()).(commitmsg := msg)
    {
      commitmsg := msg;
    }

    method SetDirectory(dir: string)
      modifies this
      ensures State() == old(State()).(directory := dir)
    {
      directory := dir;
    }
  }

  /** The notifier and the other outside collaborators, seen as the trace of
      what they were asked. */
  class Notifier {
    var events: seq<Event>

    constructor ()
      ensures events == []
    {
      events := [];
    }

    method Broadcast(e: Event)
      modifies this
      ensures events == old(events) + [e]
    {
      events := events + [e];
    }

    method BroadcastAll(es: seq<Event>)
      modifies this
      ensures events == old(events) + es
    {
      events := events + es;
    }
  }

  /** The process environment (os.environ). */
  class Environ {
    var vars: map<string, string>

    constructor (vars: map<string, string>)
      ensures this.vars == vars
    {
      this.vars := vars;
    }
  }
}
