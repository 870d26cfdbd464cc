# A verified model of commitizen's guided commit command

This project models the decision logic of the `cz commit` command
(`commitizen/commands/commit.py`, class `Commit`). The command works in one pass:

1. It refuses to start outside a git project.
2. In editor mode it redirects the standard streams to the controlling terminal.
3. It stops if nothing is staged, unless this is a dry run.
4. It gets the commit message. On `--retry` the message comes from the per-user backup file. Otherwise it comes from the convention plugin's questions.
5. A dry run stops here.
6. In editor mode the message is put in front of the commit-message file.
7. Otherwise the message goes to `git commit`. If git fails, the message is saved as the backup. If a commit really happened, the backup is deleted.

The modules are:

- `PyText` (`pytext.dfy`): Python's `str.strip()` and the white-space set it uses. It also holds the newline translation of a file read in text mode (`"\r\n"` and a lone `"\r"` read back as `"\n"`) and the substring test `pat in s`.
- `Paths` (`paths.dfy`): the backup path. This is `posixpath.join` of the temporary directory and `"cz.commit" + USER + ".backup"`, where USER is the empty string when the variable is unset.
- `CommitCommand` (`commit.dfy`) holds three things:
  - The command as a value (`Commit`) and its construction (`Create`).
  - The pure steps `ReadBackupMessage` and `PromptCommitQuestions`.
  - The specification function `Run` of `__call__`, the class `World` whose method `Call` performs `__call__` step by step, and lemmas relating several invocations.
- `Wrappers` (`wrappers.dfy`): `Option` and `Result`.

The world is a `State` with three parts:

- `files`: a map from path to contents. The backup slot is `files[tempFile]`. The editor-mode target is `files[commit_msg_file]`. The two are not assumed to differ.
- `commits`: the list of messages handed to `git commit`.
- `onTty`: whether the standard streams are currently redirected to `/dev/tty`.

Construction takes `git.is_git_project()`, `tempfile.gettempdir()` and the environment (for USER) as parameters of `Create`. Everything `__call__` asks of the outside world comes in as `Oracles`:

- whether `/dev/tty` can be opened;
- `git.is_staging_clean()`;
- the result of `questionary.prompt`;
- the return code and output of `git.commit`.

The plugin's formatter `cz.message` is a function value held by `Commit`.

Three behaviours of the source are worth stating up front:

- The standard streams are restored only once the editor branch is reached, which means success or a missing commit-message file. After `NothingToCommit`, a failed message acquisition or a dry run, they stay on the terminal. The last `ensures` of `Run` states this.
- A retry yields `Strip(ReadText(m))` for a backup holding `m`, because the backup is read in text mode and then stripped. This equals `m` when `m` has no surrounding white space and no `"\r"` (`RetryRecoversMessage`).
- The commit-message file is read in text mode too, so it becomes `m + ReadText(original)`. This is `m + original` when the original contents have no `"\r"`.

## Model

| member | source | states |
|---|---|---|
| `PyText.IsSpace` | commitizen/commands/commit.py:59 | the white-space set of `str.strip()`; among ASCII characters it is exactly space, tab, line feed, vertical tab, form feed, carriage return and U+1C..U+1F |
| `PyText.StripLeading` | commitizen/commands/commit.py:59 | the result is a suffix of the input, everything removed is white space, and the result does not start with white space |
| `PyText.StripTrailing` | commitizen/commands/commit.py:59 | the result is a prefix of the input, everything removed is white space, and the result does not end with white space |
| `PyText.Strip` | commitizen/commands/commit.py:59 | the result has no white space at either end and is no longer than the input |
| `PyText.StripIsTrimmedSlice` | commitizen/commands/commit.py:59 | `strip()` returns the slice of the input between a white-space prefix and a white-space suffix |
| `PyText.StripOfStripped` | commitizen/commands/commit.py:59 | a string without surrounding white space is returned unchanged |
| `PyText.StripIdempotent` | commitizen/commands/commit.py:59 | stripping twice is the same as stripping once |
| `PyText.ReadText` | commitizen/commands/commit.py:58-59 | a text-mode read never yields a carriage return and never lengthens the text |
| `PyText.ReadTextOfPlain` | commitizen/commands/commit.py:112-113 | text without carriage returns reads back unchanged |
| `PyText.ReadTextUnits` | commitizen/commands/commit.py:58-59 | "\r\n" and a lone "\r" each read back as "\n"; any other character reads back as itself |
| `PyText.ReadTextAppend` | commitizen/commands/commit.py:112-113 | text cut anywhere except inside a "\r\n" reads back as its two parts read apart; since every text splits into single characters and "\r\n" pairs, with `ReadTextUnits` this fixes the read of every text |
| `PyText.Contains` | commitizen/commands/commit.py:131 | `pat in s` holds exactly when `pat` occurs in `s` at some index |
| `Paths.Join` | commitizen/commands/commit.py:47-50 | `os.path.join` on POSIX: an absolute second part replaces the first; otherwise the second part follows the first, with exactly one "/" between them unless the first is empty or already ends with "/", in which case with none |
| `Paths.UserName` | commitizen/commands/commit.py:49 | the value of USER, or the empty string when it is unset |
| `Paths.BackupFileName` | commitizen/commands/commit.py:49 | the file name is "cz.commit", then the user name, then ".backup"; an unset USER gives "cz.commit.backup"; the name holds a "/" exactly when USER does |
| `Paths.BackupPath` | commitizen/commands/commit.py:47-50 | the backup path is the temporary directory, one "/" unless it already ends with one, then `cz.commit<USER>.backup`; with `BackupFileName`, when USER holds no "/" the file sits directly in the temporary directory |
| `Paths.BackupPathInjective` | commitizen/commands/commit.py:47-50 | for one temporary directory, different users get different backup paths |
| `CommitCommand.Create` | commitizen/commands/commit.py:40-50 | construction fails with NotAGitProject exactly outside a git project; otherwise the command keeps its arguments, the per-user backup path and the plugin's formatter |
| `CommitCommand.CreateAndRun` | commitizen/commands/commit.py:40-42 | outside a git project the result is NotAGitProject and the world is untouched, whatever the prompt, the backup or git would have done |
| `CommitCommand.ReadBackupMessage` | commitizen/commands/commit.py:52-59 | a missing backup gives exactly NoCommitBackup; a present backup gives the stored text read in text mode and stripped, so the message has no surrounding white space and no carriage return, and a stored text that is already clean comes back verbatim |
| `CommitCommand.PromptCommitQuestions` | commitizen/commands/commit.py:61-75 | a message is produced exactly when there are answers, and it is the plugin's formatting of them; no answers give NoAnswers; a ValueError raised during a plugin exception gives CustomError with that exception's text; any other ValueError is re-raised unchanged |
| `CommitCommand.AcquireMessage` | commitizen/commands/commit.py:92-97 | on retry, NoCommitBackup exactly when there is no backup and otherwise the stripped backup; without retry, exactly what `prompt_commit_questions` gives, error included: a message exactly when the prompt gave answers, that message being the plugin's formatting of them, and never NoCommitBackup |
| `CommitCommand.EditorMode` | commitizen/commands/commit.py:80-81 | editor mode holds exactly when a commit-message path is given and is not empty, as Python's truth test on `commit_msg_file` |
| `CommitCommand.NothingAddedOutput` | commitizen/commands/commit.py:131 | git's output counts as "nothing committed" exactly when "nothing added" or "no changes added to commit" occurs in it |
| `CommitCommand.MessageSources` | commitizen/commands/commit.py:92-97 | a retry never consults the prompt, and a fresh run never consults the backup |
| `CommitCommand.Run` | commitizen/commands/commit.py:77-138 | the behaviour of `__call__`, case by case: (a) with no terminal in editor mode, nothing happens; (b) with nothing staged and no dry run, the result is NothingToCommit before the backup or the prompt is used; (c) a failed message acquisition writes nothing; (d) a dry run writes no file and commits nothing; (e) editor mode prepends the message to the target file and never calls git; (f) in a direct commit git gets exactly the message, a non-zero code stores exactly the message as the backup and gives CommitError, "nothing added" output leaves the backup alone without raising, and any other success deletes the backup; (g) the streams are restored only when the editor branch is reached |
| `CommitCommand.World.Call` | commitizen/commands/commit.py:77-138 | the in-place execution of `__call__` ends as `Run` says and leaves the files, the commit log and the streams as `Run` says |
| `CommitCommand.WhatChanges` | commitizen/commands/commit.py:112-135 | no file other than the backup and the commit-message file changes; unless the commit-message file is the backup file itself, the backup gets new contents only from a failed commit of exactly those contents |
| `CommitCommand.RetryAfterFailedCommit` | commitizen/commands/commit.py:122-129 | after a commit of `m` fails, a retry obtains `Strip(ReadText(m))` from the backup and hands that to git |
| `CommitCommand.RetryRecoversMessage` | commitizen/commands/commit.py:52-59 | after a failed commit, a retry recovers a message without surrounding white space or carriage returns verbatim |
| `CommitCommand.RetryIsStable` | commitizen/commands/commit.py:94-95 | a retry (backup present, direct mode, not a dry run, something staged) whose commit fails ends in CommitError and leaves a backup from which the next retry gets the same message |
| `CommitCommand.NoBackupAfterSuccess` | commitizen/commands/commit.py:133-135 | after a successful direct commit, a retry fails with NoCommitBackup |

## Left out

- `WrapStdin`. Its attribute forwarding, its fixed UTF-8 encoding and the closing of the terminal streams are not modelled. Only two things remain: whether `/dev/tty` can be opened (`TtyUnavailable` when it cannot) and whether the streams are redirected (`onTty`). A failure of the second or third `open("/dev/tty")` is not modelled separately.
- Printing (`out.info`, `out.error`, `out.write`, `out.success`). It has no effect on the state.
- The convention plugin. `factory.commiter_factory`, `cz.questions()` and `cz.style` are not modelled. `cz.message` is an uninterpreted function. Answers are a map from question name to text. Answers that are booleans or lists are not distinguished.
- The exception context chain of a prompt `ValueError`. It is given as the typed field `ErrorContext`. Exceptions from the prompt other than `ValueError` are not modelled.
- `git.is_git_project`, `git.is_staging_clean` and `git.commit`. They are subprocess calls, so their answers are oracle inputs. The commit result is fixed per invocation rather than computed from the message.
- Filesystem failures other than a missing file are not modelled: permission errors, a directory at the backup path, write errors and decoding errors. Files are a map from path to text. `os.remove` of a missing backup is a no-op, as in the source.
- A USER holding "/". The backup path then names a file in a subdirectory `cz.commit...` of the temporary directory. Writing the backup there fails unless that directory exists, which loses the message. Files are a map from any path to text, so the model writes the backup as if the directory existed.
- Windows. Paths are joined as on POSIX, and writes do no newline translation, as on POSIX.
