# git-cola command, status-tree and preferences core in Dafny

This project models three parts of git-cola, a Qt front end for git:

- **The command layer** (`cola/cmds.py`).
  - Every command snapshots the model's four diff fields (`diff_text`, `filename`, `mode`, `head`) when it is built, writes its `new_*` values in `do()` and writes the `old_*` values back in `undo()`.
  - `AmendMode` searches the factory's undo stack for the commit message to return to, and refuses to enter amend mode during a merge.
  - `Commit` changes the model only when the commit succeeds.
  - `SignOff` appends a `Signed-off-by:` trailer at most once.
  - `LoadCommitMessage`, `LoadCommitTemplate`, `LoadPreviousMessage` and `SetDiffText` are undoable message and diff loaders.
  - Several commands build log text, diff text or argument lists: `UntrackedSummary`, `DeleteBranch`, `Ignore`, `Stage`/`Unstage`/`Untrack`, `ApplyPatches`, `Difftool`, `Edit` and `VisualizeRevision`.
  - `RunConfigAction` runs a user-configured tool after its file, revision and confirmation prompts.
  - `register()` maps each notifier signal to the command class it runs.
- **The status tree** (`cola/widgets/status.py`). The tree shows four ordered lists of files: staged, unmerged, modified and untracked. The model covers:
  - the selection priority rules;
  - the flat file index of `selected_idx` / `select_by_index`;
  - up/down navigation with wrap-around;
  - the choice of what to select after a refresh (`restore_selection`);
  - the split of a selection into stage and unstage requests;
  - expansion of categories;
  - the revert argv;
  - the delete-confirmation text.
- **The preferences model** (`cola/prefs/model.py`). A `set_config`/`get_config` pair routes to the repository or the user configuration store, and `SetConfigCommand` remembers the old value and writes it back on undo.

The main model, the notifier and the process environment are classes in `ColaModel.dfy`. Every call a command makes to something outside the core is appended, in order, to the notifier's `events` trace:

- a `log_cmd` broadcast, a rescan or a prompt;
- a git call such as `stage_paths` or `git am`;
- a spawned process or a file write.

What git, the filesystem or the user answer comes in as method parameters. The commands that change the main model are proved against a whole-state function `Model.State()`. The status tree is a class whose whole state is the value `Value()`. Each of its methods is proved against a pure specification function, and the properties the source promises are lemmas about those functions.

Files:

- `Text.dfy`: `Option` and the Python string operations the core uses. These are `startswith`, `in`, `join`, `rstrip`, `%d`, `os.path.basename`/`dirname`, list sorting by code point, and `subprocess.list2cmdline`.
- `ColaModel.dfy`: the repository state, the `Model`, `Notifier` and `Environ` classes, and the `Event` trace.
- `Cmds.dfy`: the commands of `cola/cmds.py` and the `register()` table.
- `Status.dfy`: the status-tree selection logic and the `StatusTreeWidget` class.
- `Prefs.dfy`: the configuration stores, `PreferencesModel` and `SetConfigCommand`.

## Model

| member | source | states |
|---|---|---|
| Cmds.Command.Do | cola/cmds.py:64-69 | the model's four diff fields become the command's `new_*` values; every other field is unchanged |
| Cmds.Command.Undo | cola/cmds.py:71-76 | the four diff fields become the `old_*` values; every other field is unchanged |
| Cmds.Capture | cola/cmds.py:48-62 | a freshly constructed command has `new_*` equal to `old_*`, both equal to the model's current diff fields |
| Cmds.SnapshotRoundTrip | cola/cmds.py:64-76 | writing a state's own view changes nothing, and writing any view and then the previous one restores the whole state |
| Cmds.DoUndo | cola/cmds.py:64-76 | `undo()` right after `do()` restores the whole model |
| Cmds.Factory.constructor | cola/cmds.py:101-104 | the factory's undo stack is the given sequence of commands |
| Cmds.RecoveredMessageNone | cola/cmds.py:101-112 | with no AmendMode on the undo stack that entered amend mode, the current commit message is kept |
| Cmds.RecoveredMessageNewest | cola/cmds.py:104-112 | otherwise the message is the `old_commitmsg` of the newest entering AmendMode; later non-AmendMode entries and AmendModes that left amend mode are skipped |
| Cmds.FindAmendMessage | cola/cmds.py:101-112 | the backwards loop over the undo stack returns exactly the message the two lemmas above characterise |
| Cmds.AmendMode.constructor | cola/cmds.py:81-112 | entering: amend mode, head `HEAD^`, the previous commit's message and the diff text as it is; leaving: no mode, head `HEAD`, empty diff and the recovered message; `old_commitmsg` is the current message and `skip` is false |
| Cmds.AmendMode.Do | cola/cmds.py:114-130 | `skip` holds iff amend mode is being entered during a merge; then the model is untouched and the trace is `amend(False)` plus the "Oops! Unmerged" information; otherwise the message and diff fields take their new values and the trace is `amend(amending)` plus a file-status update |
| Cmds.AmendMode.Undo | cola/cmds.py:132-137 | a skipped command's undo changes nothing and reports nothing; otherwise the old message and the four old diff fields come back, followed by a file-status update |
| Cmds.AmendDoUndo | cola/cmds.py:114-137 | undo right after do restores the whole model, whether do was refused or not |
| Cmds.ResetView | cola/cmds.py:250-254 | ResetMode's new view: no mode, head `HEAD`, empty diff, same filename |
| Cmds.ResetMode.Do | cola/cmds.py:256-258 | the view is reset and one file-status update is requested |
| Cmds.NewResetMode | cola/cmds.py:250-254 | the old snapshot is the model's view and the new one is its reset |
| Cmds.CommitEvents | cola/cmds.py:270-279 | exactly one `log_cmd`, last, carrying git's status; its text starts with `Commit: ` iff the status is 0 and else with `Commit failed: `, followed by git's output; a rescan happens iff the commit succeeded |
| Cmds.Commit.Do | cola/cmds.py:270-279 | status 0 resets the view and empties the commit message; a nonzero status changes no model field; the trace is CommitEvents |
| Cmds.NewCommit | cola/cmds.py:263-268 | Commit starts from ResetMode's snapshot with an empty new message and remembers the current one |
| Cmds.CommitSucceeds | cola/cmds.py:261-279 | after a successful commit: no mode, head `HEAD`, empty diff and empty message; filename and directory are unchanged |
| Cmds.SignedOff | cola/cmds.py:679-683 | the result contains the sign-off and starts with the old message; it is the old message iff that already contained the sign-off, else exactly `"\n" + signoff` is appended |
| Cmds.SignOffIdempotent | cola/cmds.py:679-683 | signing off twice equals signing off once |
| Cmds.SignoffText | cola/cmds.py:688-697 | the trailer starts with `\nSigned-off-by: ` and the name, which is `user.name` when configured and the login name otherwise, followed by ` <`; it ends with ` <`, the email and `>`, where the email is `user.email` when configured and `login@host` otherwise |
| Cmds.SignOff.Do | cola/cmds.py:679-683 | only the commit message changes, to SignedOff of the old one |
| Cmds.SignOff.Undo | cola/cmds.py:685-686 | only the commit message changes, back to the message at construction |
| Cmds.NewSignOff | cola/cmds.py:674-677 | the command remembers the current message |
| Cmds.LoadCommitMessage.Do | cola/cmds.py:465-471 | a missing, empty or non-file path is a UsageError naming the path and leaves the model alone; otherwise the directory becomes the path's dirname and the message the file's content |
| Cmds.LoadCommitMessage.DoTemplate | cola/cmds.py:483-489 | an unconfigured template is its own UsageError with the model untouched; a configured path that is empty or names no file gives the "cannot find commit template" UsageError with the model untouched; otherwise the directory becomes the path's dirname and the message the file's contents |
| Cmds.LoadCommitMessage.Undo | cola/cmds.py:473-475 | message and directory return to their values at construction |
| Cmds.NewLoadCommitMessage | cola/cmds.py:458-463 | the command remembers the path, the current message and the current directory |
| Cmds.NewLoadCommitTemplate | cola/cmds.py:480-481 | the path is `commit.template` when configured, else None |
| Cmds.LoadCommitMessageDoUndo | cola/cmds.py:465-475 | loading, successful or not, and undoing restores the model |
| Cmds.LoadPreviousMessage.Do | cola/cmds.py:501-502 | only the message changes, to the stored previous message |
| Cmds.LoadPreviousMessage.Undo | cola/cmds.py:504-505 | only the message changes, back to the message at construction |
| Cmds.NewLoadPreviousMessage | cola/cmds.py:494-499 | the command remembers the current message and the message of the given commit |
| Cmds.NewSetDiffText | cola/cmds.py:652-656 | SetDiffText changes only the diff text of the snapshot |
| Cmds.SetDiffTextDoUndo | cola/cmds.py:652-656 | undoing SetDiffText brings back the whole previous state |
| Cmds.Rules | cola/cmds.py:822-823 | one `/`-rooted rule per untracked file, in order |
| Cmds.UntrackedSummaryCount | cola/cmds.py:816-819 | the text starts with `# N untracked file`, and `s` follows iff N > 1 |
| Cmds.UntrackedSummaryEmpty | cola/cmds.py:819-821 | with no untracked files the text is the count line alone, with no rule header |
| Cmds.UntrackedSummaryRules | cola/cmds.py:821-823 | every untracked file appears in the text as `/` + its path |
| Cmds.UntrackedSummaryOne | cola/cmds.py:816-823 | for one file, the singular count line, the singular rule header and the single rule |
| Cmds.UntrackedSummary.Do | cola/cmds.py:64-69 | the model's view becomes the summary's new view |
| Cmds.NewUntrackedSummary | cola/cmds.py:814-825 | the new diff text is the summary of the model's untracked files and the new mode is untracked |
| Cmds.DeleteBranchText | cola/cmds.py:331-338 | the text starts with `Error:` iff git's output starts with `error:`, in which case only the first letter is capitalised; any other output is prefixed with `Info: ` |
| Cmds.DeleteBranch.Do | cola/cmds.py:331-338 | the trace is the delete call, then one log line with git's status and DeleteBranchText |
| Cmds.IgnoreText | cola/cmds.py:289-291 | the added text is empty iff there are no filenames |
| Cmds.IgnoreTextSnoc | cola/cmds.py:290-291 | each further name adds that name and a newline at the end |
| Cmds.IgnoreTextContains | cola/cmds.py:289-291 | every name appears in the added text followed by a newline |
| Cmds.IgnoreAdditions | cola/cmds.py:289-291 | the concatenation loop computes IgnoreText |
| Cmds.Ignore.Do | cola/cmds.py:288-301 | no names means nothing happens; otherwise `.gitignore` is written with the new names before the old content, one log line shows only the additions, and one file-status update follows |
| Cmds.PathsMessage | cola/cmds.py:706-708 | the log line starts with the verb and `: ` and names every path |
| Cmds.Stage.Do | cola/cmds.py:706-709 | the trace is one `Staging:` log line and the staging call, so exactly one `log_cmd` is added |
| Cmds.StageModified | cola/cmds.py:712-716 | the paths are the model's modified files |
| Cmds.StageUnmerged | cola/cmds.py:719-723 | the paths are the model's unmerged files |
| Cmds.StageUntracked | cola/cmds.py:726-730 | the paths are the model's untracked files |
| Cmds.Unstage.Do | cola/cmds.py:781-784 | the trace is one `Unstaging:` log line and the unstaging call |
| Cmds.Untrack.Do | cola/cmds.py:805-809 | the trace is the `Untracking:` log line, the untrack call and a log line with its status and output |
| Cmds.PatchReportSummary | cola/cmds.py:193-194 | the report always ends with `Summary:\n` and the summary diffstat; a single patch gets no per-patch block |
| Cmds.PatchReportOrder | cola/cmds.py:180-191 | with several patches, block i follows the blocks of the patches before it |
| Cmds.PatchReportBlock | cola/cmds.py:189-191 | with several patches, every patch has its `Patch i/n - basename:` block with its diffstat |
| Cmds.Basenames | cola/cmds.py:202-205 | the i-th name is the basename of the i-th patch |
| Cmds.AppliedMessageNames | cola/cmds.py:202-205 | the final prompt names every applied patch by its basename |
| Cmds.AmEventsOrder | cola/cmds.py:180-185 | every patch, in order, gets its `git am` call followed by the log of its outcome; a failure does not stop the batch |
| Cmds.ApplyPatches.Do | cola/cmds.py:176-205 | the diff text becomes the report and no other field changes; the trace is the per-patch calls, a file-status update and the "Patch(es) Applied" prompt |
| Cmds.ApplyPatches.ApplyEach | cola/cmds.py:180-191 | the loop collects the report blocks and applies every patch in order |
| Cmds.NewApplyPatches | cola/cmds.py:171-174 | the stored patches are sorted and a permutation of those given |
| Cmds.ApplyOrderIndependent | cola/cmds.py:173 | two orderings of the same patches give the same command |
| Cmds.ApplyPatchesSortsPair | cola/cmds.py:173 | two patches given in reverse order are stored in order |
| Cmds.DifftoolArgs | cola/cmds.py:397-406 | no filenames means nothing is launched; otherwise `--cached` when staged, then the head when it is not `HEAD`, then `--` and the filenames |
| Cmds.Difftool.Do | cola/cmds.py:397-407 | difftool is launched with DifftoolArgs exactly when there are filenames |
| Cmds.MatchEditorOrderFree | cola/cmds.py:425-437 | when the editor matches exactly one pattern, that pattern's options are used whatever the dictionary order |
| Cmds.MatchEditorNone | cola/cmds.py:431-434 | when the editor matches no pattern, the filenames are passed on |
| Cmds.EditLaunch | cola/cmds.py:417-441 | it raises iff there are no filenames and does nothing iff the first file is missing; otherwise it spawns the editor's own argv followed by the options, which are the filenames when no line number is given |
| Cmds.EditVimLine | cola/cmds.py:425-441 | a vim editor with a line number gets `+N file` |
| Cmds.VisualizeRevisionArgv | cola/cmds.py:871-878 | the history browser's argv, then the revision when given, then `--` and the paths when there are any, and nothing else |
| Cmds.DialogAccepted | cola/cmds.py:609-621 | an accepted dialog is the first answer that is neither a cancel nor an empty revision where one is required; every answer before it was refused for its empty revision |
| Cmds.AskForRevision | cola/cmds.py:609-621 | the `while True` prompt loop returns the DialogOutcomeOf the answers, shows the dialog once per answer consumed plus an "Invalid Revision" error after each refused one, and never accepts an empty required revision |
| Cmds.ConfigActionEnvironment | cola/cmds.py:584-631 | FILENAME, REVISION and ARGS are always cleared first; FILENAME is set iff a file is needed and selected; REVISION and ARGS are set only non-empty and only when the command runs; every other variable is untouched |
| Cmds.ConfigActionNeedsFile | cola/cmds.py:599-605 | a tool that needs a file, with none selected, shows only the "Please select a file" information: no dialog, no command, no log |
| Cmds.ConfigActionRuns | cola/cmds.py:599-649 | the command runs iff the file requirement is met and the dialog, or else the confirmation when asked, was accepted; the returned status is the command's; a required revision is then set; a rescan happens iff the command ran and `norescan` is unset |
| Cmds.DialogEventsNoRescan | cola/cmds.py:609-621 | the prompt loop never rescans |
| Cmds.RunConfigAction.Do | cola/cmds.py:584-649 | the environment, the trace and the returned status are those of the reference definition ConfigAction |
| Cmds.AskUser | cola/cmds.py:609-627 | the dialog when a revision or arguments are asked for, else the yes/no question when `confirm` is set, else nothing |
| Cmds.RunTool | cola/cmds.py:628-649 | the answers are exported, the tool is launched and its status returned |
| Cmds.ExportAnswers | cola/cmds.py:628-631 | REVISION and ARGS are set only to non-empty answers |
| Cmds.LaunchTool | cola/cmds.py:632-647 | a `running:` log, `sh -c cmd` in the console or silently, an outcome log with the stripped stdout, the status and the stripped stderr, then a rescan unless `norescan` is set |
| Cmds.RegisterDiffstatTwice | cola/cmds.py:902-910 | `diffstat` and `modified_summary` both run Diffstat |
| Cmds.RegisterCovers | cola/cmds.py:889-937 | every command class of the table is registered under some signal |
| Cmds.RegisterOwnEntry | cola/cmds.py:889-937 | every signal other than `modified_summary` is the only entry for its command class |
| Cmds.RegisterSharing | cola/cmds.py:889-937 | two different signals run the same command class only when they are `diffstat` and `modified_summary` |
| Cmds.RecoveredMessage | cola/cmds.py:101-112 | defined here; characterised by RecoveredMessageNone and RecoveredMessageNewest |
| Cmds.UntrackedSummaryText | cola/cmds.py:814-825 | defined here; characterised by UntrackedSummaryCount, UntrackedSummaryEmpty, UntrackedSummaryRules and UntrackedSummaryOne |
| Cmds.PatchReport | cola/cmds.py:176-197 | defined here; characterised by PatchReportSummary, PatchReportOrder and PatchReportBlock |
| Cmds.AmEvents | cola/cmds.py:176-197 | defined here; characterised by AmEventsOrder |
| Cmds.MatchEditor | cola/cmds.py:425-437 | defined here; characterised by MatchEditorOrderFree and MatchEditorNone |
| Cmds.ConfigAction | cola/cmds.py:584-649 | defined here; characterised by ConfigActionEnvironment, ConfigActionNeedsFile and ConfigActionRuns |
| Cmds.CommandFor | cola/cmds.py:889-937 | defined here; characterised by RegisterDiffstatTwice, RegisterCovers, RegisterOwnEntry and RegisterSharing |
| Cmds.SignalFor | cola/cmds.py:889-937 | defined here as the inverse table; characterised by RegisterCovers and RegisterOwnEntry |
| Status.CatIndex | cola/widgets/status.py:49-54 | the categories are numbered 0 to 3 in the order staged, unmerged, modified, untracked |
| Status.Picked | cola/widgets/status.py:682-685 | a category's selection lists only files of that category, no more of them than it has |
| Status.SelectionOfGet | cola/widgets/status.py:605-608 | each category of the selection is the files at the selected rows of that category |
| Status.PickedOne | cola/widgets/status.py:682-685 | selecting one row selects exactly that file |
| Status.PickedNone | cola/widgets/status.py:682-685 | rows past the end select nothing |
| Status.OffsetValues | cola/widgets/status.py:614-616 | a category's flat offset is the total length of the categories before it, and the last is the length of all_files |
| Status.FlatIndexFile | cola/widgets/status.py:614-642 | the flat index of (category, row) points at that file in all_files |
| Status.LocateFromSound | cola/widgets/status.py:644-660 | the select_by_index scan from category k either finds a row inside a category whose flat index is the given one, or runs off the end exactly when the index is past the last file |
| Status.OffsetMonotone | cola/widgets/status.py:614-616 | later categories start at larger offsets |
| Status.LocateSound | cola/widgets/status.py:644-660 | select_by_index finds nothing iff the index is at least len(all_files); otherwise it picks the row whose flat index is the given one, which is all_files[idx] |
| Status.LocateFromFlat | cola/widgets/status.py:644-660 | scanning for a file's flat index from any earlier category finds that file's category and row |
| Status.LocateFlat | cola/widgets/status.py:644-660 | select_by_index of a file's flat index finds that file |
| Status.SelectedGroupPriority | cola/widgets/status.py:618-630 | selected_group is the first non-empty selection in the order staged, unmerged, modified, untracked |
| Status.SelectedGroupEmpty | cola/widgets/status.py:618-630 | selected_group is empty iff nothing is selected |
| Status.SingleSelectionPriority | cola/widgets/status.py:573-590 | single_selection holds the first file of the first non-empty selection in the order staged, modified, unmerged, untracked, and None in every other slot |
| Status.SingleSelectionEmpty | cola/widgets/status.py:573-590 | single_selection is all None iff nothing is selected |
| Status.PrioritiesDiffer | cola/widgets/status.py:573-630 | with one unmerged and one modified file selected, selected_group picks the unmerged file and single_selection the modified one |
| Status.IndexOfSpec | cola/widgets/status.py:639 | `list.index` of a present item points at the first occurrence |
| Status.IndexOfDistinct | cola/widgets/status.py:639 | in a list without duplicates, `list.index` of a row's file is that row |
| Status.SelectedFromAt | cola/widgets/status.py:632-642 | the selected_idx loop returns the offset of the single selection's category plus its row |
| Status.SelectedFromNone | cola/widgets/status.py:632-642 | with nothing in single_selection the loop returns None |
| Status.SelectionOfOnlyRow | cola/widgets/status.py:662-665 | selecting one file item makes the selection that one file in its category and nothing elsewhere |
| Status.SingleRank | cola/widgets/status.py:573-590 | each category has a place in single_selection's priority |
| Status.SingleCategoryFirst | cola/widgets/status.py:573-590 | the category single_selection reports is the first non-empty one in its priority |
| Status.SelectedIdxLocates | cola/widgets/status.py:632-660 | selected_idx is None iff nothing is selected; otherwise select_by_index of that index finds the file single_selection reports |
| Status.SelectByIndexRoundTrip | cola/widgets/status.py:632-665 | for every file index i, selecting by index i and then asking selected_idx gives i back |
| Status.Reversed | cola/widgets/status.py:193 | `reversed` keeps the length |
| Status.ReversedMembers | cola/widgets/status.py:193 | `reversed` keeps the members |
| Status.FirstIn | cola/widgets/status.py:192-196 | a candidate found by the inner loop survives in the new list |
| Status.FirstInNone | cola/widgets/status.py:192-196 | the inner loop finds nothing iff no candidate survives |
| Status.FirstInAppend | cola/widgets/status.py:192-193 | scanning a chain looks at the second part only when the first has no survivor |
| Status.FirstInReversed | cola/widgets/status.py:193 | scanning the reversed prefix finds the last survivor of the prefix |
| Status.CandidatesOrder | cola/widgets/status.py:192-196 | the candidate found is the first survivor after the removed item, or failing that the nearest survivor before it |
| Status.CandidatesMembers | cola/widgets/status.py:192-193 | every other old item is a candidate |
| Status.JumpScanSurvivor | cola/widgets/status.py:189-196 | the item the scan jumps to was in the old list and is in the new one |
| Status.JumpTargetSurvivor | cola/widgets/status.py:188-196 | the same holds for the whole first pass over one category |
| Status.JumpScanSkip | cola/widgets/status.py:189-191 | the scan skips old items that survived |
| Status.JumpScanNoSurvivors | cola/widgets/status.py:189-196 | when no old item survives, the scan finds nothing |
| Status.JumpTargetFirstRemoved | cola/widgets/status.py:188-196 | when a category shrank, the jump is the first surviving item after the first removed one, or failing that the nearest surviving item before it |
| Status.PlanFromReselect | cola/widgets/status.py:185-205 | the first pass falls through to reselection iff no category in restore order has a jump target, and a jump names an item of its category |
| Status.RestorePlanSpec | cola/widgets/status.py:154-205 | restore_selection reselects the old selection iff no category that shrank has a surviving candidate; a jump item is in both the old and the new contents of its category |
| Status.NoShrinkReselects | cola/widgets/status.py:185-205 | if no category shrank, the previous selection is reselected |
| Status.ReselectRowsSpec | cola/widgets/status.py:198-205 | the rows reselected are exactly those of previously selected items that still exist |
| Status.PickedMembers | cola/widgets/status.py:682-685 | a file is in a category's selection iff one of its selected rows holds it |
| Status.RestoredJump | cola/widgets/status.py:162-196 | after a jump, the selection is exactly that item in its category and nothing elsewhere |
| Status.RestoredReselect | cola/widgets/status.py:198-205 | after reselection, a file is selected in a category iff it was selected there before and still exists there |
| Status.SelectionRequestsSpec | cola/widgets/status.py:718-731 | unstage is requested iff the staged selection is non-empty; stage is requested, with unmerged, modified and untracked concatenated in that order, iff that list is non-empty; unstage comes first and no request is empty |
| Status.RevertUnstagedEdits | cola/widgets/status.py:530-554 | nothing happens unless the model is undoable; with no files to revert the "No files selected" log; declining does nothing; otherwise the checkout argv is the head (only for worktree files while amending), `--`, then the files |
| Status.FileInfoSpec | cola/widgets/status.py:515-519 | the file list is `list2cmdline` of the files when at most 2048 characters; otherwise a prefix of its first 2048 characters that does not end in white space, where every character cut from those 2048 is white space, followed by `...` |
| Status.DeleteFiles | cola/widgets/status.py:508-528 | there is no prompt iff there are no untracked files selected; the prompt's message is the header and the file list, its info is `Delete N file(s)?`; the files are deleted iff they exist and the user confirmed |
| Status.SelectedIdxBound | cola/widgets/status.py:632-642 | selected_idx is always a valid index into all_files |
| Status.MoveDownNext | cola/widgets/status.py:816-834 | from file i, move_down selects file i+1, or file 0 from the last file |
| Status.MoveUpPrevious | cola/widgets/status.py:796-814 | from file i, move_up selects file i-1, or the last file from file 0 |
| Status.FirstSurvivor | cola/widgets/status.py:192-196 | the inner loop returns the first candidate present in the new list |
| Status.FindJump | cola/widgets/status.py:187-196 | the loops over one category return the jump target of the first pass |
| Status.StatusTreeWidget.constructor | cola/widgets/status.py:62-83 | an empty tree with nothing selected, nothing expanded and no saved selection |
| Status.StatusTreeWidget.SelectItem | cola/widgets/status.py:662-665 | the item becomes the current selection |
| Status.StatusTreeWidget.AddRow | cola/widgets/status.py:19-24 | the module-level select_item adds one row to the selection |
| Status.StatusTreeWidget.SelectedIdx | cola/widgets/status.py:632-642 | the loop returns SelectedIdxOf the contents and the selection, and changes nothing |
| Status.StatusTreeWidget.SelectByIndex | cola/widgets/status.py:644-660 | the file at the flat index is selected, and nothing happens past the end |
| Status.StatusTreeWidget.MoveUp | cola/widgets/status.py:796-814 | the tree selects MoveUpTarget: the item above a selected header, else the previous file with wrap-around, else the last file |
| Status.StatusTreeWidget.MoveDown | cola/widgets/status.py:816-834 | the tree selects MoveDownTarget: the item below a selected header, else the next file with wrap-around, else the first file |
| Status.StatusTreeWidget.ExpandItems | cola/widgets/status.py:311-325 | a category joins the expanded set only when it has items, and is expanded only the first time |
| Status.StatusTreeWidget.AboutToUpdate | cola/widgets/status.py:245-247 | the current selection and contents are saved and nothing else changes |
| Status.StatusTreeWidget.ReselectCategory | cola/widgets/status.py:200-205 | the loop adds the rows of the previously selected items that still exist |
| Status.StatusTreeWidget.ReselectAll | cola/widgets/status.py:198-205 | the second pass reselects in every category |
| Status.StatusTreeWidget.RestoreSelection | cola/widgets/status.py:154-205 | the selection becomes Restored of the saved contents and selection, and nothing else changes |
| Status.StatusTreeWidget.Updated | cola/widgets/status.py:258-306 | the contents become the model's lists, each non-empty category is expanded, and the selection is cleared and then restored as RestorePlan says |
| Status.StatusTreeWidget.ProcessSelection | cola/widgets/status.py:718-731 | the requests are SelectionRequests of the current selection and nothing changes |
| Status.Locate | cola/widgets/status.py:644-660 | defined here; characterised by LocateSound and LocateFlat |
| Status.SelectedGroup | cola/widgets/status.py:618-630 | defined here; characterised by SelectedGroupPriority and SelectedGroupEmpty |
| Status.SingleSelection | cola/widgets/status.py:573-590 | defined here; characterised by SingleSelectionPriority and SingleSelectionEmpty |
| Status.SelectedIdxOf | cola/widgets/status.py:632-642 | defined here; characterised by SelectedIdxLocates, SelectByIndexRoundTrip and SelectedIdxBound |
| Status.JumpTarget | cola/widgets/status.py:154-205 | defined here; characterised by JumpTargetFirstRemoved and JumpTargetSurvivor |
| Status.RestorePlan | cola/widgets/status.py:154-205 | defined here; characterised by RestorePlanSpec and NoShrinkReselects |
| Status.Restored | cola/widgets/status.py:154-205 | defined here; characterised by RestoredJump and RestoredReselect |
| Status.SelectionRequests | cola/widgets/status.py:718-731 | defined here; characterised by SelectionRequestsSpec |
| Status.FileInfo | cola/widgets/status.py:517-519 | defined here; characterised by FileInfoSpec |
| Status.MoveUpTarget | cola/widgets/status.py:796-814 | defined here; characterised by MoveUpPrevious |
| Status.MoveDownTarget | cola/widgets/status.py:816-834 | defined here; characterised by MoveDownNext |
| Prefs.Write | cola/prefs/model.py:14-18 | source `repo` writes the repository store and leaves the user store alone; any other source writes the user store and leaves the repository store alone |
| Prefs.Read | cola/prefs/model.py:22-26 | source `repo` reads the repository store; any other source uses the general lookup |
| Prefs.ReadAfterWriteRepo | cola/prefs/model.py:14-26 | a repository value written is read back |
| Prefs.ReadAfterWriteUser | cola/prefs/model.py:14-26 | a user value written is read back unless the repository sets the same key, whose value is then read |
| Prefs.WriteOtherKeys | cola/prefs/model.py:14-18 | a write leaves every other key of both stores unchanged |
| Prefs.DoThenUndo | cola/prefs/model.py:38-45 | do then undo as written, on the stores as a value |
| Prefs.DoThenUndoRepo | cola/prefs/model.py:38-45 | for source `repo` and a key that had a value, do then undo restores both stores |
| Prefs.DoThenUndoMissing | cola/prefs/model.py:42-44 | when no old value was found, undo leaves the new value in place |
| Prefs.DoThenUndoUserOverridden | cola/prefs/model.py:38-45 | a user-store write of a key the repository also sets is undone to the repository's value, not the user's |
| Prefs.DoThenUndoOwn | cola/prefs/model.py:38-45 | do then undo when do remembers the value of the store it writes |
| Prefs.DoThenUndoOwnRestores | cola/prefs/model.py:38-45 | with that correction, do then undo restores both stores whenever the written store had a value for the key |
| Prefs.GitConfig.constructor | cola/prefs/model.py:12 | the configuration holds the given stores |
| Prefs.PreferencesModel.constructor | cola/prefs/model.py:10-12 | the model refers to the given configuration and has notified no one |
| Prefs.PreferencesModel.SetConfig | cola/prefs/model.py:14-20 | the stores become Write of the old stores, and one `config_updated (source, config, value)` notification is added |
| Prefs.PreferencesModel.GetConfig | cola/prefs/model.py:22-26 | the result is Read of the current stores, and nothing changes |
| Prefs.SetConfigCommand.constructor | cola/prefs/model.py:30-36 | the command is undoable and its old value starts as None |
| Prefs.SetConfigCommand.Do | cola/prefs/model.py:38-40 | the old value is get_config before the write; the stores become Write of the old stores; one notification is sent |
| Prefs.SetConfigCommand.Undo | cola/prefs/model.py:42-45 | nothing changes and nothing is notified when the old value is None, including before any do; otherwise the old value is written back with one notification |
| Prefs.DoUndo | cola/prefs/model.py:38-45 | do then undo on the same command leaves the stores as DoThenUndo says |
| Prefs.GetRepo | cola/prefs/model.py:24 | defined here as a direct read of the repository store; characterised by Read and ReadAfterWriteRepo |
| Prefs.GetAny | cola/prefs/model.py:26 | defined here, the repository's value winning over the user's; characterised by Read, ReadAfterWriteUser and DoThenUndoUserOverridden |
| Prefs.GitConfig.SetRepo | cola/prefs/model.py:16 | the repository store gains the key with the value and the user store is unchanged |
| Prefs.GitConfig.SetUser | cola/prefs/model.py:18 | the user store gains the key with the value and the repository store is unchanged |

## Left out

- `rstrip` is modelled on Python 2's unicode white space (the ASCII white space, U+001C to U+001F and the Unicode space characters). Where the output of a command reaches `RunConfigAction` as a byte string, Python would strip only the six ASCII white-space characters; whether that output is decoded first belongs to `utils`, which is not part of this model.
- The Qt parts of the status tree are not modelled: widget construction, menus, icons, scroll bars, tree-item creation, signal wiring, the clipboard and the context menus. The tree is four lists of files plus a set of selected rows per category, a set of selected headers and the expanded categories. `scrollToItem` and the saved scroll position are also left out.
- Qt's `setCurrentItem` in `StatusTreeWidget.select_item` is taken to make the item the only selection (Qt's default current-item behaviour in an extended-selection tree). The module-level `select_item` adds one item to the selection.
- `itemAbove` and `itemBelow` of a selected header are parameters of MoveUp and MoveDown, because tree-item geometry is Qt's.
- `list.index` in restore_selection is only ever called on items known to be present, so its ValueError path is not modelled. In selected_idx, a single-selected file that is missing from the contents gets the index `len(list)` instead of raising.
- SelectByIndexRoundTrip, MoveDownNext, MoveUpPrevious: these require each category to hold no duplicate file. Otherwise `list.index` finds the first of the duplicates and the round trip is not the identity.
- No real git command, process, file or environment expansion is run. What git answers (statuses, output, diffstats, `prev_commitmsg`), what the filesystem holds (`MERGE_HEAD`, `.gitignore`, the commit-message and template files) and what the user answers are parameters. The git calls, spawned processes and file writes appear as trace events.
- `os.path.expandvars` and the i18n lookup are the identity.
- The Python `None` filename and revision are modelled as the empty string.
- The signal values sent through the notifier are named after their `signals.<name>` attributes. `cola/signals.py` is not part of this model.
- `fnmatch` in Edit is substring containment of the pattern's text. Python 2 leaves the iteration order of the pattern dictionary unspecified, so the order is a parameter. What is proved holds for every order, when the editor matches one pattern or none.
- EditLaunch and VisualizeRevisionArgv return the argv to spawn rather than calling `utils.fork`. `shell_split` of the editor or history browser is a parameter.
- The prompt answers of RunConfigAction are a finite list, and running out of answers counts as cancelling.
- RunConfigAction's option defaults: `title` and `prompt` are Option values, and a `prompt` of True is None.
- `ApplyPatches.__init__` sorts the caller's list in place. The model stores a sorted copy and does not model the caller seeing its list reordered.
- Commands outside this core are named only in the register table: ApplyDiffSelection, Checkout, CherryPick, Clone, Delete, Diff, Diffstat, DiffStaged, DiffStagedSummary, FormatPatch, Mergetool, OpenDefaultApp, OpenRepo, Rescan, RescanAndRefresh, ShowUntracked, Tag, UnstageAll, UnstageSelected, UpdateFileStatus and VisualizeAll/Current/Paths. Also left out are `_revert_uncommitted_edits` and the difftool, editor and other launchers of the status tree.
- The factory (`cmdfactory`) is modelled only as its undo stack. Running a command through the factory, for a signal, is not modelled.
- `gitcfg` is not part of this model. Its general `get` is taken to prefer the repository's value over the user's, and `get_repo`, `set_repo` and `set_user` are direct map reads and writes. The `command_directory` table of the preferences model is not modelled. The system configuration store is not modelled either: a key set only there would be found by `gitcfg.get` and copied into the user store by the as-written undo, whereas the model's GetAny returns None for it.
- Observers of the preferences model are a list of notifications, not callbacks.
- The delete confirmation, and the one of `_revert_unstaged_edits`, are a `confirmed` parameter. The `delete` broadcast is the outcome's `delete` field.
- Where the code and its documentation differ, the model follows the code:
  - With `needsfile` set and no file selected, `RunConfigAction.do` has already removed FILENAME, REVISION and ARGS from the environment before it returns.
  - restore_selection reselects the previous selection only when no category that shrank has a surviving candidate to jump to. A shrunken category whose items were all removed falls through to the next category, and then to reselection. The weaker claim, that reselection happens whenever no category shrank, is NoShrinkReselects.
- DoThenUndoMissing: when the remembered value is None, the model states only what a read returns afterwards. It does not state that the stores keep the new value, because that is the same as the write itself.

## Findings

| source | as written | input that shows it | evidently intended | confidence | as-written member | corrected member |
|---|---|---|---|---|---|---|
| cola/prefs/model.py:38-45 | for any source other than `repo`, `do` remembers `get_config(source, key)`, which is the general lookup, where the repository's value wins over the user's; `undo` writes that value into the user store | repository `k=a`, user `k=b`; `SetConfigCommand('user', 'k', 'c').do()` then `undo()` leaves the user store with `k=a` | undo restores the user store's own value `b` | not executed; depends on gitcfg's general get preferring the repository value | Prefs.DoThenUndoUserOverridden | Prefs.DoThenUndoOwnRestores |
