/** Which diffs are refused, and for which of their lines. */
module DiffRefusals {
  import opened Wrappers
  import opened Text
  import opened EditScripts
  import opened DiffText
  import opened DiffPrinter

  /** Lines of the hunk that was begun last are missing. */
  predicate InHunk(st: DiffState) { st.pendingOld > 0 || st.pendingNew > 0 }

  /**
    A line is refused for exactly one of these: within a hunk, if it is neither an old line
    that is missing, nor a new one, nor a note; outside of one, if it gives a file no path,
    or begins a hunk before any file or with a header that cannot be read.
   */
  lemma RefusedExactlyWhen(st: DiffState, line: string)
    requires InHunk(st) ==> HasHunk(st.files)
    ensures Step(st, line) == Failure(UnexpectedLine)
       <==> InHunk(st) && !("-" <= line && st.pendingOld > 0) && !("+" <= line && st.pendingNew > 0) && !("\\" <= line)
    ensures Step(st, line) == Failure(FileWithoutPath)
       <==> !InHunk(st) && "+++ " <= line && DiffPath(line[4..], "b/").None? && st.oldPath.None?
    ensures Step(st, line) == Failure(HunkWithoutFile) <==> !InHunk(st) && "@@ -" <= line && st.files == []
    ensures Step(st, line) == Failure(BadHunkHeader)
       <==> !InHunk(st) && "@@ -" <= line && st.files != [] && HunkHeader(line[4..]).None?
    ensures Step(st, line) != Failure(LinesOutsideHunk) && Step(st, line) != Failure(TruncatedHunk)
  {
    hide DiffPath, HunkHeader;
    if |line| >= 4 { DifferentStarts(line); }
  }

  lemma DifferentStarts(line: string)
    requires |line| >= 4
    ensures "+++ " <= line ==> line[0] == '+' && !("@@ -" <= line) && !("--- " <= line) && !("diff --git " <= line)
    ensures "@@ -" <= line ==> line[0] == '@' && !("--- " <= line) && !("diff --git " <= line)
  {
    if "diff --git " <= line { assert line[0] == "diff --git "[0]; }
  }

  /** The first line that is refused is what a diff is refused for. */
  lemma FirstRefusalCounts(output: string, n: nat, st: DiffState, e: DiffError)
    requires n < |Lines(output)| && Steps(START, Lines(output)[..n]) == Success(st) && Step(st, Lines(output)[n]) == Failure(e)
    ensures ParseDiff(output) == Failure(e)
  {
    hide Step, Lines;
    var lines := Lines(output);
    assert lines == lines[..n] + lines[n..];
    StepsAppend(START, lines[..n], lines[n..]);
  }

  /** A diff without such a line is refused exactly if its last hunk misses lines. */
  lemma OtherwiseOnlyTruncated(output: string, st: DiffState)
    requires Steps(START, Lines(output)) == Success(st)
    ensures ParseDiff(output) == if InHunk(st) then Failure(TruncatedHunk) else Success(st.files)
  {
    hide Lines, Steps;
  }

  /**
    A new file begins with no path: after `diff --git`, a side that is not there needs the
    other one's line, whatever came before.
   */
  lemma PathsAreNotCarriedOver(st: DiffState, git: string, header: seq<string>)
    requires !InHunk(st) && forall k :: 0 <= k < |header| ==> Ignored(header[k])
    ensures Steps(st, ["diff --git " + git] + header + ["+++ /dev/null"]) == Failure(FileWithoutPath)
  {
    hide Step, Ignored;
    var st' := st.(oldPath := None);
    GitLine(st, git);
    SkipIgnored(st', header);
    StepsAppend(st, ["diff --git " + git], header);
    StepsAppend(st, ["diff --git " + git] + header, ["+++ /dev/null"]);
    StepsOne(st', "+++ /dev/null");
    DevNullIsNoPath("b/");
    assert "+++ /dev/null"[4..] == "/dev/null";
    RefusedExactlyWhen(st', "+++ /dev/null");
  }

  /** The path is that of the new side, if it is there, and otherwise that of the old one. */
  lemma NewPathCounts(st: DiffState, line: string, path: string)
    requires !InHunk(st) && "+++ " <= line
    requires DiffPath(line[4..], "b/") == Some(path) || (DiffPath(line[4..], "b/") == None && st.oldPath == Some(path))
    ensures Step(st, line).Success? && Step(st, line).value.files == st.files + [FileDiff(path, [])]
    ensures Step(st, line).value.oldPath == None
  {
    hide DiffPath, HunkHeader;
    DifferentStarts(line);
  }
}
