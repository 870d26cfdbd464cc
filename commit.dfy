/**
 * The guided-commit command (commitizen/commands/commit.py, class `Commit`).
 *
 * The outside world the command touches is abstracted to a `State`: the
 * files it reads and writes (the backup file at the per-user backup path
 * and the commit-message file of editor mode), the messages handed to
 * `git commit`, and whether the process's standard streams are currently
 * redirected to the controlling terminal. Whether the directory is a git
 * project is a parameter of `Create`; everything `__call__` asks of git, of
 * the terminal and of the user arrives as `Oracles`.
 */
module CommitCommand {
  import opened Wrappers
  import opened PyText
  import Paths

  /** The answers of a prompt session, by question name. */
  type Answers = map<string, string>

  /** The command-line arguments the command reads. */
  datatype Arguments = Arguments(dryRun: bool, retry: bool, commitMsgFile: Option<string>)

  /**
   * A constructed command: its arguments, the backup path resolved at
   * construction, and the convention plugin's formatter `cz.message`.
   */
  datatype Commit = Commit(args: Arguments, tempFile: string, message: Answers -> string)

  /** What a `ValueError` raised by the prompt was raised while handling. */
  datatype ErrorContext = CzException(text: string) | OtherException | NoException

  datatype ValueError = ValueError(text: string, context: ErrorContext)

  /** What `questionary.prompt` does: return answers (possibly none) or raise. */
  datatype PromptResult = Answered(answers: Answers) | Raised(err: ValueError)

  /** What `git.commit(m)` reports. */
  datatype CommitResult = CommitResult(returnCode: int, out: string, err: string)

  /** The answers of everything outside the command, for one invocation. */
  datatype Oracles = Oracles(
    ttyAvailable: bool,        // "/dev/tty" can be opened
    stagingClean: bool,        // git.is_staging_clean()
    prompt: PromptResult,      // questionary.prompt(...)
    commitResult: CommitResult // git.commit(m)
  )

  /** How an invocation ends: a normal return, or the exception it raises. */
  datatype Outcome =
    | Success                  // returns after reporting success
    | NothingAdded             // returns after printing git's output as an error
    | DryRunExit
    | NotAGitProject
    | NothingToCommit
    | NoCommitBackup
    | NoAnswers
    | CustomError(text: string)
    | CommitError
    | Reraised(err: ValueError)
    | TtyUnavailable           // opening "/dev/tty" fails
    | TargetNotFound(path: string) // the commit-message file cannot be opened

  datatype State = State(files: map<string, string>, commits: seq<string>, onTty: bool)

  /**
   * `if commit_msg_file:` — editor mode needs a path; Python treats both a
   * missing path (None) and the empty path as false.
   */
  function EditorMode(args: Arguments): (editor: bool)
    ensures editor ==> args.commitMsgFile.Some?
    ensures args.commitMsgFile == None || args.commitMsgFile == Some("") ==> !editor
    ensures args.commitMsgFile.Some? && args.commitMsgFile.value != "" ==> editor
  {
    args.commitMsgFile.Some? && args.commitMsgFile.value != ""
  }

  /** `Commit(config, arguments)`: fails unless inside a git project. */
  function Create(isGitProject: bool, args: Arguments, tempDir: string, env: map<string, string>,
                  message: Answers -> string): (r: Result<Commit, Outcome>)
    ensures r.Err? <==> !isGitProject
    ensures r.Err? ==> r.error == NotAGitProject
    ensures r.Ok? ==> r.value.args == args && r.value.tempFile == Paths.BackupPath(tempDir, env)
    ensures r.Ok? ==> r.value.message == message
  {
    if !isGitProject then Err(NotAGitProject)
    else Ok(Commit(args, Paths.BackupPath(tempDir, env), message))
  }

  /**
   * `read_backup_message`: the stored text with surrounding white space
   * stripped, or `NoCommitBackup` when there is no backup file.
   */
  function ReadBackupMessage(files: map<string, string>, path: string): (r: Result<string, Outcome>)
    ensures path !in files <==> r == Err(NoCommitBackup)
    ensures path in files ==> r == Ok(Strip(ReadText(files[path])))
    ensures r.Ok? ==> Stripped(r.value) && '\r' !in r.value
    ensures path in files && Stripped(files[path]) && '\r' !in files[path] ==> r == Ok(files[path])
  {
    if path !in files then Err(NoCommitBackup)
    else
      var stored := files[path];
      var m := Strip(ReadText(stored));
      assert Stripped(stored) && '\r' !in stored ==> m == stored by {
        if Stripped(stored) && '\r' !in stored {
          ReadTextOfPlain(stored);
          StripOfStripped(stored);
        }
      }
      assert '\r' !in m by {
        if '\r' in m { StripKeepsChars(ReadText(stored), '\r'); }
      }
      Ok(m)
  }

  /**
   * `prompt_commit_questions`: a `ValueError` raised while handling a
   * convention-plugin exception becomes `CustomError` with that exception's
   * text, any other `ValueError` propagates unchanged, no answers give
   * `NoAnswers`, and answers are formatted by the plugin.
   */
  function PromptCommitQuestions(message: Answers -> string, prompt: PromptResult): (r: Result<string, Outcome>)
    ensures r.Ok? <==> prompt.Answered? && prompt.answers != map[]
    ensures r.Ok? ==> r.value == message(prompt.answers)
    ensures prompt.Answered? && prompt.answers == map[] ==> r == Err(NoAnswers)
    ensures prompt.Raised? && prompt.err.context.CzException? ==> r == Err(CustomError(prompt.err.context.text))
    ensures prompt.Raised? && !prompt.err.context.CzException? ==> r == Err(Reraised(prompt.err))
  {
    match prompt
    case Raised(err) =>
      if err.context.CzException? then Err(CustomError(err.context.text)) else Err(Reraised(err))
    case Answered(answers) =>
      if answers == map[] then Err(NoAnswers) else Ok(message(answers))
  }

  /**
   * The message of this invocation: on retry the stored backup, stripped;
   * otherwise the plugin's formatting of the prompt's answers.
   */
  function AcquireMessage(c: Commit, files: map<string, string>, prompt: PromptResult): (r: Result<string, Outcome>)
    ensures c.args.retry ==> (c.tempFile !in files <==> r == Err(NoCommitBackup))
    ensures c.args.retry && c.tempFile in files ==> r == Ok(Strip(ReadText(files[c.tempFile])))
    ensures !c.args.retry ==> (r.Ok? <==> prompt.Answered? && prompt.answers != map[])
    ensures !c.args.retry && r.Ok? ==> r.value == c.message(prompt.answers)
    ensures !c.args.retry && r.Err? ==> r.error != NoCommitBackup
    ensures !c.args.retry ==> r == PromptCommitQuestions(c.message, prompt)
  {
    if c.args.retry then ReadBackupMessage(files, c.tempFile) else PromptCommitQuestions(c.message, prompt)
  }

  /** The phrases by which git reports, with exit code 0, that nothing was committed. */
  function NothingAddedOutput(out: string): (nothing: bool)
    ensures nothing <==> (exists i: nat :: OccursAt(out, "nothing added", i))
                         || (exists i: nat :: OccursAt(out, "no changes added to commit", i))
  {
    Contains(out, "nothing added") || Contains(out, "no changes added to commit")
  }

  /** The invocation gets past the terminal and the staging checks to obtaining the message. */
  predicate Proceeds(c: Commit, o: Oracles)
  {
    (!EditorMode(c.args) || o.ttyAvailable) && !(o.stagingClean && !c.args.dryRun)
  }

  /** `Commit.__call__` on world `s`: how it ends and the world it leaves. */
  function Run(c: Commit, s: State, o: Oracles): (r: (Outcome, State))
    ensures r.0 != NotAGitProject
    // no terminal for editor mode: nothing has happened yet
    ensures EditorMode(c.args) && !o.ttyAvailable ==> r == (TtyUnavailable, s)
    // nothing staged and not a dry run: stops before the backup or the prompt
    ensures (!EditorMode(c.args) || o.ttyAvailable) && o.stagingClean && !c.args.dryRun ==>
      r.0 == NothingToCommit && r.1.files == s.files && r.1.commits == s.commits
    // no message: the error of the backup read or of the prompt, nothing written
    ensures Proceeds(c, o) && AcquireMessage(c, s.files, o.prompt).Err? ==>
      r.0 == AcquireMessage(c, s.files, o.prompt).error && r.1.files == s.files && r.1.commits == s.commits
    // a dry run writes no file and commits nothing
    ensures c.args.dryRun ==> r.1.files == s.files && r.1.commits == s.commits
    ensures c.args.dryRun ==> (r.0 == DryRunExit <==> Proceeds(c, o) && AcquireMessage(c, s.files, o.prompt).Ok?)
    // editor mode: the message is put in front of the file's contents, git is not called
    ensures EditorMode(c.args) && !c.args.dryRun && Proceeds(c, o) && AcquireMessage(c, s.files, o.prompt).Ok? ==>
      var p, m := c.args.commitMsgFile.value, AcquireMessage(c, s.files, o.prompt).value;
      r.1.commits == s.commits &&
      (p in s.files ==> r.0 == Success && r.1.files == s.files[p := m + ReadText(s.files[p])]) &&
      (p !in s.files ==> r.0 == TargetNotFound(p) && r.1.files == s.files)
    // direct commit: git is handed the message; the backup keeps it exactly when git fails
    ensures !EditorMode(c.args) && !c.args.dryRun && Proceeds(c, o) && AcquireMessage(c, s.files, o.prompt).Ok? ==>
      var m, cr := AcquireMessage(c, s.files, o.prompt).value, o.commitResult;
      r.1.commits == s.commits + [m] &&
      (cr.returnCode != 0 ==> r.0 == CommitError && r.1.files == s.files[c.tempFile := m]) &&
      (cr.returnCode == 0 && NothingAddedOutput(cr.out) ==> r.0 == NothingAdded && r.1.files == s.files) &&
      (cr.returnCode == 0 && !NothingAddedOutput(cr.out) ==> r.0 == Success && r.1.files == s.files - {c.tempFile})
    // the streams go back to what they were only when the editor branch is reached
    ensures r.1.onTty == if EditorMode(c.args) && o.ttyAvailable && !r.0.Success? && !r.0.TargetNotFound?
                         then true else s.onTty
  {
    var editor := EditorMode(c.args);
    if editor && !o.ttyAvailable then (TtyUnavailable, s)
    else
      var redirected := s.(onTty := s.onTty || editor);
      if o.stagingClean && !c.args.dryRun then (NothingToCommit, redirected)
      else match AcquireMessage(c, s.files, o.prompt)
        case Err(e) => (e, redirected)
        case Ok(m) =>
          if c.args.dryRun then (DryRunExit, redirected)
          else if editor then
            var p := c.args.commitMsgFile.value;
            if p !in s.files then (TargetNotFound(p), s)
            else (Success, s.(files := s.files[p := m + ReadText(s.files[p])]))
          else
            var attempted := s.(commits := s.commits + [m]);
            var cr := o.commitResult;
            if cr.returnCode != 0 then (CommitError, attempted.(files := s.files[c.tempFile := m]))
            else if NothingAddedOutput(cr.out) then (NothingAdded, attempted)
            else (Success, attempted.(files := s.files - {c.tempFile}))
  }

  /** `Commit(config, arguments)()`: construction, then the call. */
  function CreateAndRun(isGitProject: bool, args: Arguments, tempDir: string, env: map<string, string>,
                        message: Answers -> string, s: State, o: Oracles): (r: (Outcome, State))
    // outside a git project nothing is prompted, read, written or committed
    ensures !isGitProject ==> r == (NotAGitProject, s)
    ensures isGitProject ==> r.0 != NotAGitProject
  {
    match Create(isGitProject, args, tempDir, env, message)
    case Err(e) => (e, s)
    case Ok(c) => Run(c, s, o)
  }

  /** The files, the commit log and the standard streams, updated in place by the command. */
  class World {
    var files: map<string, string>
    var commits: seq<string>
    var onTty: bool

    function Snapshot(): State
      reads this
    {
      State(files, commits, onTty)
    }

    /** `Commit.__call__`, step by step. */
    method Call(c: Commit, o: Oracles) returns (outcome: Outcome)
      modifies this
      ensures (outcome, Snapshot()) == Run(c, old(Snapshot()), o)
    {
      var savedOnTty := onTty;
      var editor := EditorMode(c.args);
      if editor {
        if !o.ttyAvailable {
          return TtyUnavailable;
        }
        onTty := true;
      }
      if o.stagingClean && !c.args.dryRun {
        return NothingToCommit;
      }
      var acquired := AcquireMessage(c, files, o.prompt);
      if acquired.Err? {
        return acquired.error;
      }
      var m := acquired.value;
      if c.args.dryRun {
        return DryRunExit;
      }
      if editor {
        onTty := savedOnTty;
        var p := c.args.commitMsgFile.value;
        if p !in files {
          return TargetNotFound(p);
        }
        var original := ReadText(files[p]);
        files := files[p := m + original];
        return Success;
      }
      commits := commits + [m];
      var result := o.commitResult;
      if result.returnCode != 0 {
        files := files[c.tempFile := m];
        return CommitError;
      }
      if NothingAddedOutput(result.out) {
        return NothingAdded;
      }
      files := files - {c.tempFile};
      outcome := Success;
    }
  }

  /** On retry the prompt is never consulted; otherwise the backup is never consulted. */
  lemma MessageSources(c: Commit, files1: map<string, string>, files2: map<string, string>,
                       prompt1: PromptResult, prompt2: PromptResult)
    ensures c.args.retry ==> AcquireMessage(c, files1, prompt1) == AcquireMessage(c, files1, prompt2)
    ensures !c.args.retry ==> AcquireMessage(c, files1, prompt1) == AcquireMessage(c, files2, prompt1)
  {
  }

  /**
   * Only the backup file and the commit-message file can change, and the
   * backup gets new contents only from a failed commit of exactly those contents.
   */
  lemma WhatChanges(c: Commit, s: State, o: Oracles, path: string)
    requires path != c.tempFile && (EditorMode(c.args) ==> path != c.args.commitMsgFile.value)
    ensures var t := Run(c, s, o).1;
      (path in t.files <==> path in s.files) && (path in s.files ==> t.files[path] == s.files[path])
    ensures var (outcome, t) := Run(c, s, o);
      !(EditorMode(c.args) && c.args.commitMsgFile.value == c.tempFile) &&
      c.tempFile in t.files && (c.tempFile in s.files ==> t.files[c.tempFile] != s.files[c.tempFile]) ==>
      outcome == CommitError && t.commits == s.commits + [t.files[c.tempFile]]
  {
  }

  /**
   * After a commit of `m` fails, a retry with the same backup path obtains
   * `m` stripped of surrounding white space (line ends read back as "\n"),
   * and commits that.
   */
  lemma RetryAfterFailedCommit(c: Commit, s: State, o: Oracles, again: Commit, o2: Oracles)
    requires Run(c, s, o).0 == CommitError
    requires again.tempFile == c.tempFile && again.args.retry
    ensures AcquireMessage(c, s.files, o.prompt).Ok?
    ensures var m := AcquireMessage(c, s.files, o.prompt).value;
      var s2 := Run(c, s, o).1;
      AcquireMessage(again, s2.files, o2.prompt) == Ok(Strip(ReadText(m))) &&
      (!EditorMode(again.args) && !again.args.dryRun && Proceeds(again, o2) ==>
         Run(again, s2, o2).1.commits == s2.commits + [Strip(ReadText(m))])
  {
    var m := AcquireMessage(c, s.files, o.prompt).value;
    var s2 := Run(c, s, o).1;
    assert s2.files == s.files[c.tempFile := m];
    assert AcquireMessage(again, s2.files, o2.prompt) == Ok(Strip(ReadText(m)));
  }

  /** A message that has no surrounding white space and no "\r" comes back from a retry verbatim. */
  lemma RetryRecoversMessage(c: Commit, s: State, o: Oracles, again: Commit, o2: Oracles)
    requires Run(c, s, o).0 == CommitError
    requires again.tempFile == c.tempFile && again.args.retry
    requires AcquireMessage(c, s.files, o.prompt).Ok?
    requires var m := AcquireMessage(c, s.files, o.prompt).value; Stripped(m) && '\r' !in m
    ensures AcquireMessage(again, Run(c, s, o).1.files, o2.prompt) == AcquireMessage(c, s.files, o.prompt)
  {
    var m := AcquireMessage(c, s.files, o.prompt).value;
    RetryAfterFailedCommit(c, s, o, again, o2);
    ReadTextOfPlain(m);
    StripOfStripped(m);
  }

  /** A retry whose commit fails again leaves a backup from which the next retry gets the same message. */
  lemma RetryIsStable(c: Commit, s: State, o: Oracles)
    requires c.args.retry && !c.args.dryRun && !EditorMode(c.args) && !o.stagingClean
    requires c.tempFile in s.files && o.commitResult.returnCode != 0
    ensures Run(c, s, o).0 == CommitError
    ensures AcquireMessage(c, Run(c, s, o).1.files, o.prompt) == AcquireMessage(c, s.files, o.prompt)
  {
    assert Proceeds(c, o) && AcquireMessage(c, s.files, o.prompt).Ok?;
    RetryRecoversMessage(c, s, o, c, o);
  }

  /** After a successful direct commit there is no backup left to retry from. */
  lemma NoBackupAfterSuccess(c: Commit, s: State, o: Oracles, again: Commit, o2: Oracles)
    requires Run(c, s, o).0 == Success && !EditorMode(c.args)
    requires again.tempFile == c.tempFile && again.args.retry
    ensures AcquireMessage(again, Run(c, s, o).1.files, o2.prompt) == Err(NoCommitBackup)
  {
    assert !c.args.dryRun && Proceeds(c, o) && AcquireMessage(c, s.files, o.prompt).Ok?;
    assert Run(c, s, o).1.files == s.files - {c.tempFile};
  }
}
