/** A review reads back as written. */
module ReadBack {
  import opened Wrappers
  import opened Text
  import opened Locate
  import opened Trailers
  import opened Repositories
  import opened Reviews

  /** `e` is what its commit reads as, and that commit is no marker. */
  ghost predicate IsEntry(commits: seq<Commit>, e: ReviewEntry) {
    var c := Lookup(commits, e.commit);
    c.Some? && EntryOf(c.value) == Success(e) && Unmarked(c.value.message)
  }

  /** The commit `marker` starts a review of `subject` on `branch`. */
  ghost predicate IsMarker(commits: seq<Commit>, marker: string, branch: string, subject: string) {
    forall c :: c in commits && c.id == marker ==> MarkerAt(c, branch) == Success(Some(subject))
  }

  /** `branch` holds exactly `entries`, oldest first, on top of the review's marker. */
  ghost predicate InReview(repo: Repo, branch: string, marker: string, subject: string, entries: seq<ReviewEntry>) {
    && Valid(repo)
    && branch in repo.branches
    && (var h := History(repo.commits, repo.branches[branch]);
        && |h| > |entries| && h[|entries|] == marker
        && forall k :: 0 <= k < |entries| ==> h[k] == entries[|entries| - 1 - k].commit)
    && (forall k :: 0 <= k < |entries| ==> IsEntry(repo.commits, entries[k]))
    && IsMarker(repo.commits, marker, branch, subject)
  }

  // Reading.

  /** Where the nearest marker is, and what it says. */
  function FoundAt(n: nat, marker: Result<Option<string>, ReviewError>): Result<Option<(nat, string)>, ReviewError> {
    match marker
    case Failure(e) => Failure(e)
    case Success(None) => Success(None)
    case Success(Some(subject)) => Success(Some((n, subject)))
  }

  lemma {:induction false} ScanFinds(
    commits: seq<Commit>, history: seq<string>, branch: string, position: nat, n: nat,
    marker: Result<Option<string>, ReviewError>)
    requires position <= n < |history| && marker != Success(None)
    requires forall k :: position <= k < n ==>
               var c := Lookup(commits, history[k]); c.Some? && Unmarked(c.value.message)
    requires var c := Lookup(commits, history[n]); c.Some? && MarkerAt(c.value, branch) == marker
    ensures ScanAll(commits, history, branch, position) == FoundAt(n, marker)
    decreases n - position
  {
    hide TrailersOf, Trailer;
    if position < n {
      ScanFinds(commits, history, branch, position + 1, n, marker);
    }
  }

  function CommitIds(entries: seq<ReviewEntry>): (r: seq<string>)
    ensures |r| == |entries| && forall k :: 0 <= k < |entries| ==> r[k] == entries[k].commit
  {
    if entries == [] then [] else [entries[0].commit] + CommitIds(entries[1..])
  }

  lemma {:induction false} EntriesRead(commits: seq<Commit>, entries: seq<ReviewEntry>)
    requires forall k :: 0 <= k < |entries| ==> IsEntry(commits, entries[k])
    ensures var read := ReadCommits(commits, CommitIds(entries));
            |read| == |entries| && EntriesOf(read) == Success(entries)
    ensures Entries(commits, CommitIds(entries)) == Success(entries)
  {
    hide EntryOf, Unmarked;
    if entries != [] {
      assert IsEntry(commits, entries[0]);
      EntriesRead(commits, entries[1..]);
      var c := Lookup(commits, entries[0].commit).value;
      assert ([c] + ReadCommits(commits, CommitIds(entries[1..])))[1..] == ReadCommits(commits, CommitIds(entries[1..]));
      assert [entries[0]] + entries[1..] == entries;
    }
  }

  /** Under any branch name, reading the history of a review stops at its marker. */
  lemma InReviewScans(
    repo: Repo, branch: string, marker: string, subject: string, entries: seq<ReviewEntry>, name: string, c: Commit)
    requires InReview(repo, branch, marker, subject, entries)
    requires Lookup(repo.commits, marker) == Some(c) && MarkerAt(c, name) != Success(None)
    ensures var h := History(repo.commits, repo.branches[branch]);
            && ScanAll(repo.commits, h, name, 0)
               == FoundAt(|entries|, MarkerAt(c, name))
            && |h| > |entries| && h[|entries|] == marker && Reversed(h[..|entries|]) == CommitIds(entries)
  {
    hide MarkerAt, EntryOf, Unmarked, ScanAll, History, Valid, FoundAt;
    InReviewMarker(repo, branch, marker, subject, entries);
    var h := History(repo.commits, repo.branches[branch]);
    var n := |entries|;
    forall k | 0 <= k < n
      ensures var c := Lookup(repo.commits, h[k]); c.Some? && Unmarked(c.value.message)
    {
      assert IsEntry(repo.commits, entries[n - 1 - k]);
    }
    ScanFinds(repo.commits, h, name, 0, n, MarkerAt(c, name));
  }

  lemma InReviewReads(repo: Repo, branch: string, marker: string, subject: string, entries: seq<ReviewEntry>)
    requires InReview(repo, branch, marker, subject, entries)
    ensures branch in repo.branches
    ensures ReadBranch(repo, branch) == Success(Branch(marker, subject, CommitIds(entries), repo.branches[branch]))
  {
    hide InReview, MarkerCandidates, ReadBranchAt, ScanAll, History, Valid, Reversed, CommitIds;
    InReviewValid(repo, branch, marker, subject, entries);
    InReviewMarker(repo, branch, marker, subject, entries);
    InReviewScans(repo, branch, marker, subject, entries, branch, Lookup(repo.commits, marker).value);
    ReadAmongTips(repo.commits, [repo.branches[branch]], 0, branch);
  }

  /** A branch that holds a review loads as exactly that review. */
  lemma InReviewLoads(repo: Repo, branch: string, marker: string, subject: string, entries: seq<ReviewEntry>)
    requires InReview(repo, branch, marker, subject, entries)
    ensures LoadReview(repo, branch) == Success(Review(branch, marker, subject, entries))
  {
    hide ReadBranch, Entries, History, Valid, MarkerAt, IsEntry;
    InReviewReads(repo, branch, marker, subject, entries);
    EntriesRead(repo.commits, entries);
  }

  lemma InReviewMarker(repo: Repo, branch: string, marker: string, subject: string, entries: seq<ReviewEntry>)
    requires InReview(repo, branch, marker, subject, entries)
    ensures var c := Lookup(repo.commits, marker);
            && c.Some? && MarkerAt(c.value, branch) == Success(Some(subject))
            && forall name :: name != branch ==> MarkerAt(c.value, name) == Failure(WrongBranch)
  {
    hide TrailersOf, Trailer, IsEntry, Sound, History, Lookup, HasCommit;
    HistoryFacts(repo.commits, repo.branches[branch]);
    LookupFacts(repo.commits, marker);
    var c := Lookup(repo.commits, marker).value;
    assert MarkerAt(c, branch) == Success(Some(subject));
  }

  lemma MarkerKept(commits: seq<Commit>, commits': seq<Commit>, marker: string, branch: string, subject: string)
    requires Extends(commits', commits) && HasCommit(commits, marker) && IsMarker(commits, marker, branch, subject)
    ensures IsMarker(commits', marker, branch, subject)
  {
    hide MarkerAt, Sound, HasCommit, Lookup;
    forall c | c in commits' && c.id == marker ensures MarkerAt(c, branch) == Success(Some(subject)) {
      LookupIs(commits', c);
      ExtendsKeeps(commits, commits', marker);
      LookupFacts(commits, marker);
    }
  }

  /** A review is read only under the name of its own branch: another branch at its tip is refused. */
  lemma CopiedBranchIsRefused(
    repo: Repo, branch: string, marker: string, subject: string, entries: seq<ReviewEntry>, copy: string)
    requires InReview(repo, branch, marker, subject, entries)
    requires copy != branch && copy in repo.branches && repo.branches[copy] == repo.branches[branch]
    ensures LoadReview(repo, copy) == Failure(WrongBranch)
  {
    hide InReview, MarkerCandidates, ReadBranchAt, ScanAll, History, Valid, MarkerAt, Lookup;
    InReviewValid(repo, branch, marker, subject, entries);
    InReviewMarker(repo, branch, marker, subject, entries);
    InReviewScans(repo, branch, marker, subject, entries, copy, Lookup(repo.commits, marker).value);
    ReadAmongTips(repo.commits, [repo.branches[copy]], 0, copy);
  }

  // Appending.

  predicate FreshId(repo: Repo, id: string) { IsCommitId(id) && !HasCommit(repo.commits, id) }

  /** The repository with `c` made and the branch moved to it. */
  function Push(repo: Repo, branch: string, c: Commit): Repo {
    Repo(repo.commits + [c], repo.branches[branch := c.id])
  }

  lemma PushIsValid(repo: Repo, branch: string, c: Commit)
    requires Valid(repo) && FreshId(repo, c.id) && Trimmed(c.message)
    requires c.firstParent.Some? && HasCommit(repo.commits, c.firstParent.value)
    ensures Valid(Push(repo, branch, c)) && Extends(Push(repo, branch, c).commits, repo.commits)
  {
    hide IsCommitId, Trimmed, Sound;
    ExtendsBySnoc(repo.commits, c);
    var branches := repo.branches[branch := c.id];
    forall b | b in branches ensures HasCommit(repo.commits + [c], branches[b]) {
      HasCommitSnoc(repo.commits, c, branches[b]);
    }
  }

  lemma EntryKept(commits: seq<Commit>, commits': seq<Commit>, e: ReviewEntry)
    requires Extends(commits', commits) && IsEntry(commits, e)
    ensures IsEntry(commits', e)
  {
    hide EntryOf, Unmarked, Sound;
    LookupFacts(commits, e.commit);
    ExtendsKeeps(commits, commits', e.commit);
  }

  /** Work elsewhere in the repository, which leaves the branch where it is, does not change a review. */
  lemma WorkElsewhereKeeps(
    repo: Repo, repo': Repo, branch: string, marker: string, subject: string, entries: seq<ReviewEntry>)
    requires InReview(repo, branch, marker, subject, entries)
    requires Valid(repo') && Extends(repo'.commits, repo.commits)
    requires branch in repo'.branches && repo'.branches[branch] == repo.branches[branch]
    ensures InReview(repo', branch, marker, subject, entries)
  {
    hide EntryOf, Unmarked, MarkerAt, Sound;
    ExtendsKeeps(repo.commits, repo'.commits, repo.branches[branch]);
    InReviewMarker(repo, branch, marker, subject, entries);
    LookupFacts(repo.commits, marker);
    MarkerKept(repo.commits, repo'.commits, marker, branch, subject);
    forall k | 0 <= k < |entries| ensures IsEntry(repo'.commits, entries[k]) {
      EntryKept(repo.commits, repo'.commits, entries[k]);
    }
  }

  /** A commit made on the tip of a review, which reads as an entry, becomes its last entry. */
  lemma PushAppends(
    repo: Repo, branch: string, marker: string, subject: string, entries: seq<ReviewEntry>, c: Commit, e: ReviewEntry)
    requires InReview(repo, branch, marker, subject, entries)
    requires FreshId(repo, c.id) && Trimmed(c.message) && c.firstParent == Some(repo.branches[branch])
    requires EntryOf(c) == Success(e) && e.commit == c.id && Unmarked(c.message)
    ensures InReview(Push(repo, branch, c), branch, marker, subject, entries + [e])
  {
    hide EntryOf, Unmarked, MarkerAt, Sound, IsCommitId, Trimmed, History;
    var repo' := Push(repo, branch, c);
    PushIsValid(repo, branch, c);
    AddCommit(repo.commits, c);
    InReviewMarker(repo, branch, marker, subject, entries);
    LookupFacts(repo.commits, marker);
    MarkerKept(repo.commits, repo'.commits, marker, branch, subject);
    var all := entries + [e];
    forall k | 0 <= k < |all| ensures IsEntry(repo'.commits, all[k]) {
      if k < |entries| {
        EntryKept(repo.commits, repo'.commits, entries[k]);
      }
    }
  }

  // Starting.

  lemma {:induction false} SoundIds(commits: seq<Commit>, id: string)
    requires Sound(commits) && HasCommit(commits, id)
    ensures IsCommitId(id)
  {
    hide IsCommitId, Trimmed;
    var last, front := commits[|commits| - 1], commits[..|commits| - 1];
    if id != last.id {
      assert commits == front + [last];
      HasCommitSnoc(front, last, id);
      SoundIds(front, id);
    }
  }

  lemma MarkerOfStart(revision: string, branch: string, subject: string, id: string)
    requires GitBranchName(branch) && IsCommitId(subject)
    ensures var c := EmptyCommit(id, subject, MarkerMessage(revision, branch, subject));
            && Trimmed(c.message)
            && (Trim(branch) == branch ==> MarkerAt(c, branch) == Success(Some(subject)))
            && (Trim(branch) != branch ==> MarkerAt(c, branch).Failure?)
  {
    hide Trim, MarkerMessage, SplitTrailers, Trailer, GitBranchName, IsCommitId, Trimmed;
    TrimFacts(MarkerMessage(revision, branch, subject));
    MarkerReadsBack(revision, branch, subject);
    var review, from := KeyValue(REVIEW_TRAILER, Trim(branch)), KeyValue(SUBJECT_TRAILER, subject);
    NamesAreNotEmpty(branch, subject);
    KeysDiffer();
    TrailerOfTwo(review, from, REVIEW_TRAILER);
    TrailerOfTwo(review, from, SUBJECT_TRAILER);
  }

  lemma NamesAreNotEmpty(branch: string, subject: string)
    requires GitBranchName(branch) && IsCommitId(subject)
    ensures branch != [] && subject != []
  {
  }

  lemma StartHoldsReview(repo: Repo, revision: string, subject: string, branch: string, id: string)
    requires Valid(repo) && HasCommit(repo.commits, subject) && FreshId(repo, id)
    requires GitBranchName(branch) && branch !in repo.branches
    ensures var (repo', started) := StartReview(repo, revision, Some(subject), branch, true, id);
            && started == Success(StartedReview(branch, id, subject))
            && Valid(repo') && Extends(repo'.commits, repo.commits)
            && (Trimmed(branch) ==> InReview(repo', branch, id, subject, []))
            && (!Trimmed(branch) ==> LoadReview(repo', branch).Failure?)
  {
    hide MarkerMessage, MarkerAt, IsCommitId, Trim, GitBranchName, Trimmed, Sound, MarkerCandidates, ReadBranchAt, History;
    TrimFacts(branch);
    SoundIds(repo.commits, subject);
    MarkerOfStart(revision, branch, subject, id);
    var c := EmptyCommit(id, subject, MarkerMessage(revision, branch, subject));
    PushIsValid(repo, branch, c);
    AddCommit(repo.commits, c);
    var repo' := Push(repo, branch, c);
    forall c' | c' in repo'.commits && c'.id == id ensures c' == c { LookupIs(repo'.commits, c'); }
    assert StartReview(repo, revision, Some(subject), branch, true, id).0 == repo';
    ReadAmongTips(repo'.commits, [id], 0, branch);
  }

  /**
    A started review loads, empty, if and only if its branch name has no whitespace
    around it. Git's rule allows such a name, with a no-break space at its end, say,
    but the marker's trailer drops the whitespace and then names another branch.
   */
  lemma StartedReviewLoads(repo: Repo, revision: string, subject: string, branch: string, id: string)
    requires Valid(repo) && HasCommit(repo.commits, subject) && FreshId(repo, id)
    requires GitBranchName(branch) && branch !in repo.branches
    ensures var (repo', started) := StartReview(repo, revision, Some(subject), branch, true, id);
            && started.Success?
            && (LoadReview(repo', branch) == Success(Review(branch, id, subject, [])) <==> Trimmed(branch))
            && (LoadReview(repo', branch).Success? <==> Trimmed(branch))
  {
    hide LoadReview, Trimmed, StartReview, InReview, GitBranchName, FreshId, Valid;
    StartHoldsReview(repo, revision, subject, branch, id);
    if Trimmed(branch) {
      InReviewLoads(StartReview(repo, revision, Some(subject), branch, true, id).0, branch, id, subject, []);
    }
  }

  lemma NoBreakSpaceAround(branch: string)
    requires branch == "review\U{A0}"
    ensures GitBranchName(branch) && !Trimmed(branch)
  {
    assert branch[|branch| - 1] == '\U{A0}';
  }

  /** A name that Git accepts, and whose review starts and can never be loaded. */
  lemma UnloadableReview(repo: Repo, revision: string, subject: string, branch: string, id: string)
    requires Valid(repo) && HasCommit(repo.commits, subject) && FreshId(repo, id)
    requires branch == "review\U{A0}" && branch !in repo.branches
    ensures var (repo', started) := StartReview(repo, revision, Some(subject), branch, true, id);
            started.Success? && LoadReview(repo', branch).Failure?
  {
    hide LoadReview, Trimmed, StartReview, GitBranchName, FreshId, Valid;
    NoBreakSpaceAround(branch);
    StartedReviewLoads(repo, revision, subject, branch, id);
  }

  // Notes and suggestions.

  /** A note that `add_note` takes. */
  ghost predicate GoodNote(commits: seq<Commit>, message: string, source: Option<NoteSource>, length: Option<nat>) {
    Trim(message) != [] && (source.Some? ==> SourceAccepted(commits, source.value, length))
  }

  /** The entry a note reads as: its text without whitespace around it, and its source. */
  function NoteEntry(id: string, message: string, source: Option<NoteSource>): ReviewEntry {
    ReviewEntry(id, Trim(message), Note, [], source)
  }

  lemma AcceptedIsRecordable(commits: seq<Commit>, source: NoteSource, length: Option<nat>)
    requires Sound(commits) && SourceAccepted(commits, source, length)
    requires length.Some? ==> length.value <= USIZE_MAX
    ensures Recordable(source)
  {
    hide IsCommitId, Trim, Sound;
    SoundIds(commits, source.revision);
  }

  lemma NoteCommitReads(id: string, parent: string, message: string, source: Option<NoteSource>)
    requires Trim(message) != [] && (source.Some? ==> Recordable(source.value))
    ensures var c := EmptyCommit(id, parent, NoteMessage(Trim(message), source));
            EntryOf(c) == Success(NoteEntry(id, message, source)) && Unmarked(c.message) && Trimmed(c.message)
  {
    hide Trim, NoteMessage, SplitTrailers, Trailer, Recordable, Trimmed, ParseSource, FormatSource, SourceTrailer;
    var text := Trim(message);
    TrimFacts(message);
    TrimFacts(text);
    TrimFacts(NoteMessage(text, source));
    NoteReadsBack(text, source);
    NoteTrailers(source);
    if source.Some? {
      RecordableRoundTrip(source.value);
    }
  }

  lemma RecordableRoundTrip(source: NoteSource)
    requires Recordable(source)
    ensures ParseSource(FormatSource(source)) == Success(source)
  {
    SourceRoundTrip(source);
  }

  /**
    On a branch that holds a review, `add_note` succeeds exactly for a note with some
    text whose source is accepted. It then adds that note as the last entry, with the
    text trimmed and the source kept, and otherwise it changes nothing.
   */
  lemma AddNoteAppends(
    repo: Repo, branch: string, marker: string, subject: string, entries: seq<ReviewEntry>,
    message: string, source: Option<NoteSource>, length: Option<nat>, id: string)
    requires InReview(repo, branch, marker, subject, entries) && FreshId(repo, id)
    requires length.Some? ==> length.value <= USIZE_MAX
    ensures var (repo', r) := AddNote(repo, branch, message, source, length, id);
            && (r.Success? <==> GoodNote(repo.commits, message, source, length))
            && (r.Success? ==> r.value == NoteEntry(id, message, source)
                               && InReview(repo', branch, marker, subject, entries + [r.value]))
            && (r.Failure? ==> repo' == repo && (r.error == EmptyMessage || r.error == InvalidSource))
  {
    hide Trim, NoteMessage, SourceAccepted, InReview, EntryOf, Unmarked, Trimmed, ReadBranch, Recordable;
    InReviewReads(repo, branch, marker, subject, entries);
    if GoodNote(repo.commits, message, source, length) {
      InReviewValid(repo, branch, marker, subject, entries);
      if source.Some? { AcceptedIsRecordable(repo.commits, source.value, length); }
      var c := EmptyCommit(id, repo.branches[branch], NoteMessage(Trim(message), source));
      var e := NoteEntry(id, message, source);
      NoteCommitReads(id, repo.branches[branch], message, source);
      PushAppends(repo, branch, marker, subject, entries, c, e);
      AddCommit(repo.commits, c);
      EntriesRead(Push(repo, branch, c).commits, [e]);
      assert CommitIds([e]) == [id];
    }
  }

  lemma InReviewValid(repo: Repo, branch: string, marker: string, subject: string, entries: seq<ReviewEntry>)
    requires InReview(repo, branch, marker, subject, entries)
    ensures Valid(repo) && Sound(repo.commits) && branch in repo.branches
    ensures HasCommit(repo.commits, repo.branches[branch])
  {
  }

  /** A commit of someone's own work: some message, some changed files, and no Nota trailer. */
  ghost predicate GoodSuggestion(message: string, paths: seq<string>) {
    && Trimmed(message) && message != [] && paths != []
    && Trailer(TrailersOf(message), NOTE_TRAILER).None? && Unmarked(message)
  }

  lemma SuggestionReads(id: string, parent: string, message: string, paths: seq<string>)
    requires GoodSuggestion(message, paths)
    ensures EntryOf(Commit(id, Some(parent), message, paths))
         == Success(ReviewEntry(id, message, Suggestion, paths, None))
  {
    hide Trim, SplitTrailers, Trailer, Trimmed;
    TrimFacts(message);
  }

  // Whole reviews.

  datatype Append =
    | AppendNote(message: string, source: Option<NoteSource>, length: Option<nat>)
    | AppendSuggestion(message: string, paths: seq<string>)

  ghost predicate GoodAppend(commits: seq<Commit>, op: Append) {
    match op
    case AppendNote(message, source, length) =>
      GoodNote(commits, message, source, length) && (length.Some? ==> length.value <= USIZE_MAX)
    case AppendSuggestion(message, paths) => GoodSuggestion(message, paths)
  }

  function EntryFor(op: Append, id: string): ReviewEntry {
    match op
    case AppendNote(message, source, _) => NoteEntry(id, message, source)
    case AppendSuggestion(message, paths) => ReviewEntry(id, message, Suggestion, paths, None)
  }

  function Apply(repo: Repo, branch: string, op: Append, id: string): Repo {
    match op
    case AppendNote(message, source, length) => AddNote(repo, branch, message, source, length, id).0
    case AppendSuggestion(message, paths) =>
      if branch !in repo.branches then repo
      else Push(repo, branch, Commit(id, Some(repo.branches[branch]), message, paths))
  }

  lemma ApplyAppends(
    repo: Repo, branch: string, marker: string, subject: string, entries: seq<ReviewEntry>, op: Append, id: string)
    requires InReview(repo, branch, marker, subject, entries) && FreshId(repo, id) && GoodAppend(repo.commits, op)
    ensures InReview(Apply(repo, branch, op, id), branch, marker, subject, entries + [EntryFor(op, id)])
  {
    hide InReview, AddNote, EntryOf, GoodNote, Trim, FreshId, IsEntry;
    match op
    case AppendNote(message, source, length) =>
      AddNoteAppends(repo, branch, marker, subject, entries, message, source, length, id);
    case AppendSuggestion(message, paths) =>
      InReviewValid(repo, branch, marker, subject, entries);
      SuggestionReads(id, repo.branches[branch], message, paths);
      PushAppends(repo, branch, marker, subject, entries,
                  Commit(id, Some(repo.branches[branch]), message, paths), EntryFor(op, id));
  }

  /** Appends that succeed one after the other, each with an id of its own. */
  ghost predicate GoodRun(repo: Repo, branch: string, ops: seq<Append>, ids: seq<string>)
    decreases |ops|
  {
    |ops| == |ids| && (ops == [] || (
      && FreshId(repo, ids[0]) && GoodAppend(repo.commits, ops[0])
      && GoodRun(Apply(repo, branch, ops[0], ids[0]), branch, ops[1..], ids[1..])))
  }

  function ApplyAll(repo: Repo, branch: string, ops: seq<Append>, ids: seq<string>): Repo
    requires |ops| == |ids|
    decreases |ops|
  {
    if ops == [] then repo else ApplyAll(Apply(repo, branch, ops[0], ids[0]), branch, ops[1..], ids[1..])
  }

  function EntriesFor(ops: seq<Append>, ids: seq<string>): seq<ReviewEntry>
    requires |ops| == |ids|
  {
    if ops == [] then [] else [EntryFor(ops[0], ids[0])] + EntriesFor(ops[1..], ids[1..])
  }

  lemma {:induction false} RunAppends(
    repo: Repo, branch: string, marker: string, subject: string, entries: seq<ReviewEntry>, ops: seq<Append>, ids: seq<string>)
    requires InReview(repo, branch, marker, subject, entries) && GoodRun(repo, branch, ops, ids)
    ensures InReview(ApplyAll(repo, branch, ops, ids), branch, marker, subject, entries + EntriesFor(ops, ids))
    decreases |ops|
  {
    hide InReview, FreshId, GoodAppend, Apply, EntryFor;
    if ops == [] {
      assert entries + [] == entries;
    } else {
      ApplyAppends(repo, branch, marker, subject, entries, ops[0], ids[0]);
      RunAppends(Apply(repo, branch, ops[0], ids[0]), branch, marker, subject,
                 entries + [EntryFor(ops[0], ids[0])], ops[1..], ids[1..]);
      assert entries + [EntryFor(ops[0], ids[0])] + EntriesFor(ops[1..], ids[1..]) == entries + EntriesFor(ops, ids);
    }
  }

  /**
    A review reads back as written: a review started on any commit, even one on
    another review's branch, followed by any notes and suggestions, loads as exactly
    those entries, oldest first, with their kinds, texts, files and sources.
   */
  lemma ReviewReadsBack(
    repo: Repo, revision: string, subject: string, branch: string, id: string, ops: seq<Append>, ids: seq<string>)
    requires Valid(repo) && HasCommit(repo.commits, subject) && FreshId(repo, id)
    requires GitBranchName(branch) && Trimmed(branch) && branch !in repo.branches
    requires |ops| == |ids|
    requires GoodRun(StartReview(repo, revision, Some(subject), branch, true, id).0, branch, ops, ids)
    ensures LoadReview(ApplyAll(StartReview(repo, revision, Some(subject), branch, true, id).0, branch, ops, ids), branch)
         == Success(Review(branch, id, subject, EntriesFor(ops, ids)))
  {
    hide LoadReview, Trimmed, StartReview, InReview, GitBranchName, FreshId, Valid, GoodRun, ApplyAll, EntriesFor;
    StartHoldsReview(repo, revision, subject, branch, id);
    var start := StartReview(repo, revision, Some(subject), branch, true, id).0;
    RunAppends(start, branch, id, subject, [], ops, ids);
    assert [] + EntriesFor(ops, ids) == EntriesFor(ops, ids);
    InReviewLoads(ApplyAll(start, branch, ops, ids), branch, id, subject, EntriesFor(ops, ids));
  }
}
