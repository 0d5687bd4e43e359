/** amendCommitMessage: rewrites the message of HEAD, and only of HEAD.
    The handler runs up to four git commands one after another, and the
    repository changes in between (the amend moves HEAD), so each command's
    answer is an input of its own. */
module Amend {
  import opened Wrappers
  import opened GoStrings
  import opened Git

  /** What git answers to the four commands, in the order they run:
      `rev-parse HEAD`, `branch -r --contains <head>`, `commit --amend` and
      `rev-parse HEAD` again. */
  datatype AmendRuns = AmendRuns(revParse: Run, branches: Run, amend: Run, newHead: Run)

  datatype Outcome =
    | Refused(status: int, error: string)
    | AmendFailed(detail: string)
    | Amended(newCommit: string, warning: Option<string>)

  const EmptyMessage: string := "Commit message cannot be empty"
  const HeadUnknown: string := "Failed to get HEAD"
  const NotHead: string := "Can only amend the HEAD commit"
  const PushedWarning: string := "This commit may have been pushed to a remote. You may need to force push."

  /** The handler's outcome for amending `commitID` with `message`, and the
      git commands it ran, in order. */
  function AmendCommitMessage(commitID: string, message: string, runs: AmendRuns): (r: (Outcome, seq<Command>))
    // A blank message is refused before git is asked anything.
    ensures AllSpace(message) ==> r == (Refused(400, EmptyMessage), [])
    // When HEAD cannot be read nothing else is attempted.
    ensures !AllSpace(message) && !runs.revParse.ok ==> r == (Refused(500, HeadUnknown), [RevParseHead])
    // Only the commit HEAD names can be amended; otherwise nothing is changed.
    ensures !AllSpace(message) && runs.revParse.ok && commitID != TrimSpace(runs.revParse.stdout) ==>
      r.0 == Refused(403, NotHead) && AmendWith(message) !in r.1
    // The amend runs exactly when the message is not blank and names HEAD.
    ensures AmendWith(message) in r.1 <==>
      !AllSpace(message) && runs.revParse.ok && commitID == TrimSpace(runs.revParse.stdout)
    // A failed amend reports git's combined output.
    ensures AmendWith(message) in r.1 && !runs.amend.ok ==> r.0 == AmendFailed(runs.amend.combined)
    // After a successful amend the new HEAD is reported, with the warning
    // exactly when some remote-tracking branch holds the old HEAD.
    ensures r.0.Amended? <==> AmendWith(message) in r.1 && runs.amend.ok
    ensures r.0.Amended? ==>
      && r.0.newCommit == TrimSpace(runs.newHead.stdout)
      && (r.0.warning.Some? <==> runs.branches.ok && |runs.branches.stdout| > 0)
      && (r.0.warning.Some? ==> r.0.warning.value == PushedWarning)
  {
    if TrimSpace(message) == "" then (Refused(400, EmptyMessage), [])
    else if !runs.revParse.ok then (Refused(500, HeadUnknown), [RevParseHead])
    else
      var headHash := TrimSpace(runs.revParse.stdout);
      if commitID != headHash then (Refused(403, NotHead), [RevParseHead])
      else
        var isPushed := runs.branches.ok && |runs.branches.stdout| > 0;
        var issued := [RevParseHead, BranchesContaining(headHash), AmendWith(message)];
        if !runs.amend.ok then (AmendFailed(runs.amend.combined), issued)
        else
          var warning := if isPushed then Some(PushedWarning) else None;
          (Amended(TrimSpace(runs.newHead.stdout), warning), issued + [RevParseHead])
  }

  /** What the pushed-check answers never changes whether the amend runs or
      succeeds: the check only warns. */
  lemma ProbeNeverBlocks(commitID: string, message: string, runs: AmendRuns, branches: Run)
    ensures var other := runs.(branches := branches);
      && (AmendWith(message) in AmendCommitMessage(commitID, message, runs).1
          <==> AmendWith(message) in AmendCommitMessage(commitID, message, other).1)
      && (AmendCommitMessage(commitID, message, runs).0.Amended?
          <==> AmendCommitMessage(commitID, message, other).0.Amended?)
  {
  }
}
