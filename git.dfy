/** The git invocations main.go makes. A command is the argument vector
    given to `git`; the program never goes through a shell. What git answers
    is an input to the model: a `Run` per command. */
module Git {

  type Command = seq<string>

  /** The result of running git: whether it exited with status 0, its
      standard output (which exec's Output returns also on failure) and its
      standard output and error together (CombinedOutput). */
  datatype Run = Run(ok: bool, stdout: string, combined: string)

  /** One record per commit: hash, subject, author name, author time,
      separated by NUL characters. */
  const LogFormat: string := "--pretty=format:%H%x00%s%x00%an%x00%at"

  /** `git diff HEAD --numstat`: staged and unstaged changes. */
  const WorkingNumstat: Command := ["diff", "HEAD", "--numstat"]

  /** `git log` of the 20 most recent commits. */
  const RecentLog: Command := ["log", "--oneline", "-20", LogFormat]

  /** `git diff <id>^ <id> --numstat`: the changes of one commit. */
  function CommitNumstat(id: string): Command {
    ["diff", id + "^", id, "--numstat"]
  }

  const RevParseHead: Command := ["rev-parse", "HEAD"]

  /** `git log <id>^..HEAD`: the commits after the parent of `id`. */
  function RangeLog(id: string): Command {
    ["log", LogFormat, id + "^..HEAD"]
  }

  /** `git log -1`: the HEAD commit alone. */
  const HeadLog: Command := ["log", "--oneline", "-1", LogFormat]

  /** `git diff --name-status <base>`: changed files against the working tree. */
  function NameStatus(base: string): Command {
    ["diff", "--name-status", base]
  }

  /** `git diff <base> --numstat -- <path>`: the counts of one file. */
  function FileNumstat(base: string, path: string): Command {
    ["diff", base, "--numstat", "--", path]
  }

  /** `git -C <root> ls-files --error-unmatch <path>`: fails unless tracked. */
  function LsFiles(root: string, path: string): Command {
    ["-C", root, "ls-files", "--error-unmatch", path]
  }

  /** `git branch -r --contains <id>`: remote-tracking branches holding `id`. */
  function BranchesContaining(id: string): Command {
    ["branch", "-r", "--contains", id]
  }

  /** `git commit --amend -m <message>`. */
  function AmendWith(message: string): Command {
    ["commit", "--amend", "-m", message]
  }
}
