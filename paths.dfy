/**
 * Where the commit command keeps its backup message: a per-user file name
 * joined onto the system temporary directory (commitizen/commands/commit.py,
 * `Commit.__init__`). Paths are POSIX paths.
 */
module Paths {

  const Sep: char := '/'

  /**
   * `posixpath.join(a, b)` for two components: an absolute `b` replaces `a`;
   * otherwise `b` follows `a`, with one separator between them unless `a` is
   * empty or already ends with one.
   */
  function Join(a: string, b: string): (r: string)
    ensures b != [] && b[0] == Sep ==> r == b
    ensures (b == [] || b[0] != Sep) && (a == [] || a[|a| - 1] == Sep) ==> r == a + b
    ensures (b == [] || b[0] != Sep) && a != [] && a[|a| - 1] != Sep ==> r == a + [Sep] + b
  {
    if b != [] && b[0] == Sep then b
    else if a == [] || a[|a| - 1] == Sep then a + b
    else a + [Sep] + b
  }

  /** `os.environ.get("USER", "")`. */
  function UserName(env: map<string, string>): (user: string)
    ensures "USER" in env ==> user == env["USER"]
    ensures "USER" !in env ==> user == ""
  {
    if "USER" in env then env["USER"] else ""
  }

  const FilePrefix: string := "cz.commit"
  const FileSuffix: string := ".backup"

  /**
   * The backup file name: "cz.commit", then the user name, then ".backup".
   * It holds a separator exactly when the user name does.
   */
  function BackupFileName(user: string): (name: string)
    ensures |name| == |FilePrefix| + |user| + |FileSuffix|
    ensures name[..|FilePrefix|] == FilePrefix && name[|name| - |FileSuffix|..] == FileSuffix
    ensures name[|FilePrefix|..|FilePrefix| + |user|] == user
    ensures user == "" ==> name == "cz.commit.backup"
    ensures Sep in name <==> Sep in user
  {
    FilePrefix + user + FileSuffix
  }

  /**
   * `os.path.join(tempfile.gettempdir(), "cz.commit{user}.backup")`: when the
   * user name holds no "/", the backup file sits directly in the temporary
   * directory; a "/" in it names a subdirectory "cz.commit..." instead.
   */
  function BackupPath(tempDir: string, env: map<string, string>): (path: string)
    ensures var name := BackupFileName(UserName(env));
      (tempDir == [] || tempDir[|tempDir| - 1] == Sep ==> path == tempDir + name) &&
      (tempDir != [] && tempDir[|tempDir| - 1] != Sep ==> path == tempDir + [Sep] + name)
  {
    Join(tempDir, BackupFileName(UserName(env)))
  }

  /**
   * For a fixed temporary directory, the backup path determines the user:
   * two users never share a backup file.
   */
  lemma BackupPathInjective(tempDir: string, env1: map<string, string>, env2: map<string, string>)
    requires BackupPath(tempDir, env1) == BackupPath(tempDir, env2)
    ensures UserName(env1) == UserName(env2)
  {
    var u1, u2 := UserName(env1), UserName(env2);
    var n1, n2 := BackupFileName(u1), BackupFileName(u2);
    var dir := if tempDir == [] || tempDir[|tempDir| - 1] == Sep then tempDir else tempDir + [Sep];
    assert BackupPath(tempDir, env1) == dir + n1;
    assert BackupPath(tempDir, env2) == dir + n2;
    assert n1 == (dir + n1)[|dir|..];
    assert n2 == (dir + n2)[|dir|..];
    assert |u1| == |u2|;
    assert u1 == n1[|FilePrefix|..|FilePrefix| + |u1|];
    assert u2 == n2[|FilePrefix|..|FilePrefix| + |u2|];
  }
}
