/** The review store over Git: the operations as they run, one after another, with nobody else at work. */
module TrailerStore {
  import opened Wrappers
  import opened Text
  import opened Locate
  import opened Trailers
  import opened Repositories
  import opened Reviews
  import opened Sorting
  import opened Discovery
  import Names = BranchNames

  /** The repository, as the Git operations that write to it change it. */
  class Git {
    var repo: Repo

    constructor (repo: Repo)
      ensures this.repo == repo
    {
      this.repo := repo;
    }

    /** Make a commit without changes; no branch moves. `id` is the name Git gives it. */
    method CommitEmpty(id: string, parent: string, message: string)
      modifies this
      ensures repo == old(repo).(commits := old(repo).commits + [EmptyCommit(id, parent, message)])
    {
      repo := repo.(commits := repo.commits + [EmptyCommit(id, parent, message)]);
    }

    /** Create a branch, unless it exists. */
    method CreateBranch(branch: string, id: string) returns (ok: bool)
      modifies this
      ensures ok == (branch !in old(repo).branches)
      ensures repo == if ok then old(repo).(branches := old(repo).branches[branch := id]) else old(repo)
    {
      ok := branch !in repo.branches;
      if ok {
        repo := repo.(branches := repo.branches[branch := id]);
      }
    }

    /** Move a branch, unless it no longer points at `expected`. */
    method UpdateBranch(branch: string, id: string, expected: string) returns (ok: bool)
      modifies this
      ensures (repo, ok) == Reviews.UpdateBranch(old(repo), branch, id, expected)
    {
      ok := branch in repo.branches && repo.branches[branch] == expected;
      if ok {
        repo := repo.(branches := repo.branches[branch := id]);
      }
    }
  }

  class GitTrailerStore {
    const git: Git

    constructor (git: Git)
      ensures this.git == git
    {
      this.git := git;
    }

    /** Try the base name, then numbered ones, until one is free. */
    method DefaultBranch(revision: string, head: Option<string>, subject: string) returns (branch: string)
      ensures branch == Names.DefaultName(git.repo.branches.Keys, revision, head, subject)
    {
      hide Names.Candidate, Names.BaseName, Names.Untried, Decimal;
      var source := if revision == "HEAD" then head
                    else if revision in git.repo.branches then Some(revision) else None;
      var short := match source { case Some(name) => name case None => subject[..Min(|subject|, 12)] };
      var base := "nota/review-" + short;
      assert base == Names.BaseName(git.repo.branches.Keys, revision, head, subject) by {
        BaseNameIs(git.repo.branches.Keys, revision, head, subject, base);
      }
      branch := base;
      var n := 2;
      ghost var taken := git.repo.branches.Keys;
      FirstCandidate(base);
      while branch in git.repo.branches
        invariant n >= 2 && branch == Names.Candidate(base, n - 2)
        invariant Names.FirstFree(taken, base, 0) == Names.FirstFree(taken, base, n - 2)
        decreases |Names.Untried(taken, base, n - 2)|
      {
        Names.TryingOne(taken, base, n - 2);
        branch := base + "-" + Decimal(n);
        n := n + 1;
        LaterCandidate(base, n - 2);
      }
    }

    method StartReview(
      revision: string, subject: Option<string>, branch: Option<string>, head: Option<string>, accepts: string -> bool, id: string)
      returns (started: Result<StartedReview, ReviewError>)
      modifies git
      ensures subject.Some? ==>
                var name := if branch.Some? then branch.value
                            else Names.DefaultName(old(git.repo).branches.Keys, revision, head, subject.value);
                (git.repo, started) == Reviews.StartReview(old(git.repo), revision, subject, name, accepts(name), id)
      ensures subject.None? ==> git.repo == old(git.repo) && started == Failure(UnknownRevision)
    {
      if subject.None? { return Failure(UnknownRevision); }
      var name;
      match branch {
        case Some(given) => name := given;
        case None => name := DefaultBranch(revision, head, subject.value);
      }
      if !accepts(name) { return Failure(InvalidBranchName); }
      if name in git.repo.branches { return Failure(BranchExists); }
      git.CommitEmpty(id, subject.value, MarkerMessage(revision, name, subject.value));
      var ok := git.CreateBranch(name, id);
      return if ok then Success(Reviews.StartedReview(name, id, subject.value)) else Failure(BranchExists);
    }

    /** Scan a captured history for the marker nearest its tip, and cut the history there. */
    method ReadBranchAt(branch: string, tip: string, markers: map<string, Commit>)
      returns (found: Result<Option<Branch>, ReviewError>)
      ensures found == Reviews.ReadBranchAt(git.repo.commits, branch, tip, markers)
    {
      hide Trailer, SplitTrailers, History;
      var history := History(git.repo.commits, tip);
      for position := 0 to |history|
        invariant Scan(history, markers, branch, position) == Scan(history, markers, branch, 0)
      {
        if history[position] !in markers { continue; }
        var candidate := markers[history[position]];
        var trailers := SplitTrailers(candidate.message).1;
        var review := Trailer(trailers, REVIEW_TRAILER);
        var subject := Trailer(trailers, SUBJECT_TRAILER);
        if review.None? && subject.None? { continue; }
        if review.None? { return Failure(NoReviewTrailer); }
        if subject.None? { return Failure(NoSubjectTrailer); }
        if candidate.firstParent != subject { return Failure(InvalidSubject); }
        if review.value != branch { return Failure(WrongBranch); }
        var marker := history[position];
        history := history[..position];
        return Success(Some(Branch(marker, subject.value, Reversed(history), tip)));
      }
      return Success(None);
    }

    method ReadBranch(branch: string) returns (found: Result<Branch, ReviewError>)
      ensures found == Reviews.ReadBranch(git.repo, branch)
    {
      hide Reviews.ReadBranchAt, MarkerCandidates;
      if branch !in git.repo.branches { return Failure(NoBranch); }
      var tip := git.repo.branches[branch];
      var read := ReadBranchAt(branch, tip, MarkerCandidates(git.repo.commits, [tip]));
      match read {
        case Failure(e) => return Failure(e);
        case Success(None) => return Failure(NotAReview);
        case Success(Some(b)) => return Success(b);
      }
    }

    method LoadReview(branch: string) returns (loaded: Result<Review, ReviewError>)
      ensures loaded == Reviews.LoadReview(git.repo, branch)
    {
      hide Reviews.ReadBranch, Entries;
      var read := ReadBranch(branch);
      if read.Failure? { return Failure(read.error); }
      match Entries(git.repo.commits, read.value.entries) {
        case Failure(e) => return Failure(e);
        case Success(entries) => return Success(Review(branch, read.value.marker, read.value.subject, entries));
      }
    }

    /** `length` is the number of lines of the source's file, if there is one. */
    method AddNote(branch: string, message: string, source: Option<NoteSource>, length: Option<nat>, id: string)
      returns (added: Result<ReviewEntry, ReviewError>)
      modifies git
      ensures (git.repo, added) == Reviews.AddNote(old(git.repo), branch, message, source, length, id)
    {
      hide Reviews.ReadBranch, ReadEntry, NoteMessage, Trim, SourceAccepted, EmptyCommit;
      var text := Trim(message);
      if text == [] { return Failure(EmptyMessage); }
      var read := ReadBranch(branch);
      if read.Failure? { return Failure(read.error); }
      var review := read.value;
      if source.Some? && !SourceAccepted(git.repo.commits, source.value, length) { return Failure(InvalidSource); }
      git.CommitEmpty(id, review.tip, NoteMessage(text, source));
      var ok := git.UpdateBranch(branch, id, review.tip);
      if !ok { return Failure(BranchChanged); }
      added := ReadEntry(git.repo.commits, id);
    }

    /** Summarise every local branch, reading the marker candidates of all of them at once. */
    method ListReviews(refs: seq<Ref>, subject: Option<string>) returns (index: ReviewIndex)
      ensures index == Listing(git.repo.commits, subject, refs)
    {
      hide MarkerCandidates, Sort, Tips, Reviews.ReadBranchAt, Entries, Count;
      var branches := Sort(ByName, refs);
      var markers := MarkerCandidates(git.repo.commits, Tips(branches));
      index := ReviewIndex([], []);
      if markers == map[] {
        NoCandidateNoReview(git.repo.commits, subject, branches);
        return;
      }
      for i := 0 to |branches|
        invariant index == IndexOf(git.repo.commits, markers, subject, branches[..i])
      {
        assert branches[..i + 1][..i] == branches[..i];
        var summary := Summary(branches[i], markers, subject);
        match summary {
          case Success(Some(s)) => index := index.(reviews := index.reviews + [s]);
          case Success(None) =>
          case Failure(e) => index := index.(diagnostics := index.diagnostics + [ReviewDiagnostic(branches[i].name, e)]);
        }
      }
      assert branches[..|branches|] == branches;
    }

    method Summary(ref: Ref, markers: map<string, Commit>, subject: Option<string>)
      returns (summary: Result<Option<ReviewSummary>, ReviewError>)
      ensures summary == Summarise(git.repo.commits, markers, subject, ref)
    {
      hide Reviews.ReadBranchAt, Entries;
      var read := ReadBranchAt(ref.name, ref.tip, markers);
      if read.Failure? { return Failure(read.error); }
      if read.value.None? { return Success(None); }
      var review := read.value.value;
      if subject.Some? && subject.value != review.subject { return Success(None); }
      var entries := Entries(git.repo.commits, review.entries);
      if entries.Failure? { return Failure(entries.error); }
      var notes, suggestions := 0, 0;
      for i := 0 to |entries.value|
        invariant notes == Count(entries.value[..i], Note) && suggestions == Count(entries.value[..i], Suggestion)
      {
        assert entries.value[..i + 1][..i] == entries.value[..i];
        match entries.value[i].kind {
          case Note => notes := notes + 1;
          case Suggestion => suggestions := suggestions + 1;
        }
      }
      assert entries.value[..|entries.value|] == entries.value;
      return Success(Some(ReviewSummary(ref.name, review.marker, review.subject, review.tip, notes, suggestions)));
    }
  }

  lemma BaseNameIs(taken: set<string>, revision: string, head: Option<string>, subject: string, base: string)
    requires base == "nota/review-" + Names.SourceName(taken, revision, head, subject)
    ensures base == Names.BaseName(taken, revision, head, subject)
  {
  }

  lemma FirstCandidate(base: string)
    ensures Names.Candidate(base, 0) == base
  {
  }

  lemma LaterCandidate(base: string, k: nat)
    requires k > 0
    ensures Names.Candidate(base, k) == base + "-" + Decimal(k + 1)
  {
  }

  /** Without a name given, a review starts on a free branch, and never fails because the branch exists. */
  lemma DefaultNameIsNeverTaken(
    repo: Repo, revision: string, subject: string, head: Option<string>, accepted: bool, id: string)
    ensures var name := Names.DefaultName(repo.branches.Keys, revision, head, subject);
            Reviews.StartReview(repo, revision, Some(subject), name, accepted, id).1 != Failure(BranchExists)
  {
    hide MarkerMessage, EmptyCommit, Names.DefaultName;
    Names.DefaultNameIsFirstFree(repo.branches.Keys, revision, head, subject);
  }
}
