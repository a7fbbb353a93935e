/**
  Several writers adding notes to one review at the same time.

  Each writer takes the steps of `add_note`: it reads the branch, makes a commit on the
  tip that it read, and moves the branch if it still points there. Between any two of
  those steps other writers take theirs, suggestions are committed on the branch's
  tip, and anything may happen elsewhere in the repository.
 */
module ConcurrentAppends {
  import opened Wrappers
  import opened Text
  import opened Locate
  import opened Trailers
  import opened Repositories
  import opened Reviews
  import opened ReadBack

  /** A call of `add_note`; `length` is the number of lines of the source's file, if there is one. */
  datatype Request = Request(message: string, source: Option<NoteSource>, length: Option<nat>)

  /** How far a call is. */
  datatype Progress =
    | Idle
    | Refused(error: ReviewError)
    | HasRead(review: Branch)
    | Created(review: Branch, id: string)
    | Done(review: Branch, id: string, entry: ReviewEntry)
    | Lost(review: Branch, id: string)
    | Broken(error: ReviewError)

  datatype State = State(repo: Repo, requests: seq<Request>, writers: seq<Progress>)

  datatype Event =
    | Read(w: nat)
    | Create(w: nat, id: string)
    | Swap(w: nat)
    | Suggest(id: string, message: string, paths: seq<string>)
    | Elsewhere(repo: Repo)

  function AfterRead(repo: Repo, branch: string, r: Request): Progress {
    if Trim(r.message) == [] then Refused(EmptyMessage) else
      match ReadBranch(repo, branch)
      case Failure(e) => Refused(e)
      case Success(review) =>
        if r.source.Some? && !SourceAccepted(repo.commits, r.source.value, r.length) then Refused(InvalidSource)
        else HasRead(review)
  }

  function NoteCommit(id: string, parent: string, r: Request): Commit {
    EmptyCommit(id, parent, NoteMessage(Trim(r.message), r.source))
  }

  /** Making a commit. Git names it by its contents, so making the same one twice changes nothing. */
  function Made(repo: Repo, c: Commit): Repo {
    if HasCommit(repo.commits, c.id) then repo else repo.(commits := repo.commits + [c])
  }

  function AfterSwap(repo: Repo, moved: bool, review: Branch, id: string): Progress {
    if !moved then Lost(review, id) else
      match ReadEntry(repo.commits, id)
      case Failure(e) => Broken(e)
      case Success(entry) => Done(review, id, entry)
  }

  ghost predicate Step(branch: string, s: State, e: Event, s': State) {
    match e
    case Read(w) =>
      && w < |s.writers| == |s.requests| && s.writers[w].Idle?
      && s' == s.(writers := s.writers[w := AfterRead(s.repo, branch, s.requests[w])])
    case Create(w, id) =>
      && w < |s.writers| == |s.requests| && s.writers[w].HasRead?
      && (var c := NoteCommit(id, s.writers[w].review.tip, s.requests[w]);
          && (FreshId(s.repo, id) || Lookup(s.repo.commits, id) == Some(c))
          && s' == s.(repo := Made(s.repo, c), writers := s.writers[w := Created(s.writers[w].review, id)]))
    case Swap(w) =>
      && w < |s.writers| && s.writers[w].Created?
      && (var Created(review, id) := s.writers[w];
          var (repo', moved) := UpdateBranch(s.repo, branch, id, review.tip);
          s' == s.(repo := repo', writers := s.writers[w := AfterSwap(repo', moved, review, id)]))
    case Suggest(id, message, paths) =>
      && branch in s.repo.branches && FreshId(s.repo, id) && GoodSuggestion(message, paths)
      && s' == s.(repo := Push(s.repo, branch, Commit(id, Some(s.repo.branches[branch]), message, paths)))
    case Elsewhere(repo') =>
      && Valid(repo') && Extends(repo'.commits, s.repo.commits)
      && branch in repo'.branches && branch in s.repo.branches && repo'.branches[branch] == s.repo.branches[branch]
      && s' == s.(repo := repo')
  }

  /** The steps of one writer, one straight after the other. */
  function Alone(repo: Repo, branch: string, r: Request, id: string): (Repo, Progress) {
    var read := AfterRead(repo, branch, r);
    if !read.HasRead? then (repo, read) else
      var (repo', moved) := UpdateBranch(Made(repo, NoteCommit(id, read.review.tip, r)), branch, id, read.review.tip);
      (repo', AfterSwap(repo', moved, read.review, id))
  }

  /** What a call that is over returns. */
  function Returned(status: Progress): Option<Result<ReviewEntry, ReviewError>> {
    match status
    case Refused(e) => Some(Failure(e))
    case Lost(_, _) => Some(Failure(BranchChanged))
    case Broken(e) => Some(Failure(e))
    case Done(_, _, entry) => Some(Success(entry))
    case _ => None
  }

  /** They come to what `add_note` does when nothing happens in between. */
  lemma AloneIsAddNote(repo: Repo, branch: string, r: Request, id: string)
    requires FreshId(repo, id)
    ensures var (repo', added) := AddNote(repo, branch, r.message, r.source, r.length, id);
            var (alone, status) := Alone(repo, branch, r, id);
            repo' == alone && Returned(status) == Some(added)
  {
    hide ReadBranch, Trim, NoteMessage, SourceAccepted, ReadEntry, HasCommit, IsCommitId;
  }

  // The invariant.

  /** The tip of the review when it had the first `n` of its entries. */
  function TipAt(marker: string, entries: seq<ReviewEntry>, n: nat): string
    requires n <= |entries|
  {
    if n == 0 then marker else entries[n - 1].commit
  }

  predicate GoodRequest(r: Request) {
    Trim(r.message) != [] && (r.source.Some? ==> Recordable(r.source.value))
  }

  /** A review that was read when it had at least `n` entries, of which it still has all. */
  predicate Seen(marker: string, n: nat, entries: seq<ReviewEntry>, review: Branch) {
    n <= |review.entries| <= |entries| && review.tip == TipAt(marker, entries, |review.entries|)
  }

  predicate WriterOk(commits: seq<Commit>, marker: string, n: nat, entries: seq<ReviewEntry>, r: Request, w: Progress) {
    match w
    case Idle => true
    case Refused(_) => true
    case Broken(_) => false
    case HasRead(review) => GoodRequest(r) && Seen(marker, n, entries, review)
    case Created(review, id) =>
      && GoodRequest(r) && Seen(marker, n, entries, review)
      && Lookup(commits, id) == Some(NoteCommit(id, review.tip, r))
    case Done(review, id, entry) =>
      && Seen(marker, n, entries, review) && |review.entries| < |entries|
      && entries[|review.entries|] == entry == NoteEntry(id, r.message, r.source)
    case Lost(review, id) =>
      && GoodRequest(r) && Seen(marker, n, entries, review) && |review.entries| < |entries|
      && Lookup(commits, id) == Some(NoteCommit(id, review.tip, r))
  }

  /** Every note from the `n`th entry on was added by a writer that succeeded. */
  ghost predicate NotesAreAccounted(n: nat, entries: seq<ReviewEntry>, writers: seq<Progress>) {
    forall p :: n <= p < |entries| && entries[p].kind == Note ==>
      exists w :: 0 <= w < |writers| && writers[w].Done? && |writers[w].review.entries| == p
  }

  /** Two writers that succeeded did so one after the other. */
  ghost predicate NoSharedPlace(writers: seq<Progress>) {
    forall v, w :: 0 <= v < w < |writers| && writers[v].Done? && writers[w].Done? ==>
      |writers[v].review.entries| != |writers[w].review.entries|
  }

  /** `n` is the number of entries that the review began with. */
  ghost predicate Inv(branch: string, marker: string, subject: string, n: nat, s: State, entries: seq<ReviewEntry>) {
    && InReview(s.repo, branch, marker, subject, entries)
    && |s.writers| == |s.requests| && n <= |entries|
    && (forall w :: 0 <= w < |s.requests| && s.requests[w].length.Some? ==> s.requests[w].length.value <= USIZE_MAX)
    && (forall w :: 0 <= w < |s.writers| ==> WriterOk(s.repo.commits, marker, n, entries, s.requests[w], s.writers[w]))
    && NotesAreAccounted(n, entries, s.writers)
    && NoSharedPlace(s.writers)
  }

  /** `h'` is `h` with newer commits at its tip. */
  predicate Grew(h: seq<string>, h': seq<string>) { |h| <= |h'| && h'[|h'| - |h|..] == h }

  function HistoryOf(repo: Repo, branch: string): seq<string> {
    if branch in repo.branches then History(repo.commits, repo.branches[branch]) else []
  }

  // Repository facts.

  lemma {:induction false} ParentIsThere(commits: seq<Commit>, id: string)
    requires Sound(commits) && Lookup(commits, id).Some?
    requires Lookup(commits, id).value.firstParent.Some?
    ensures HasCommit(commits, Lookup(commits, id).value.firstParent.value)
  {
    hide IsCommitId, Trimmed;
    var last, front := commits[|commits| - 1], commits[..|commits| - 1];
    assert commits == front + [last];
    if last.id != id {
      ParentIsThere(front, id);
    }
    HasCommitSnoc(front, last, Lookup(commits, id).value.firstParent.value);
  }

  /** A commit's history is itself and then its first parent's. */
  lemma {:induction false} HistoryStep(commits: seq<Commit>, id: string)
    requires Sound(commits) && Lookup(commits, id).Some?
    requires Lookup(commits, id).value.firstParent.Some?
    ensures History(commits, id) == [id] + History(commits, Lookup(commits, id).value.firstParent.value)
  {
    hide IsCommitId, Trimmed, HasCommit;
    var last, front := commits[|commits| - 1], commits[..|commits| - 1];
    if last.id != id {
      HistoryStep(front, id);
      ParentIsThere(front, id);
    }
  }

  /** Tips of the review at different lengths are different commits. */
  lemma TipsDiffer(
    repo: Repo, branch: string, marker: string, subject: string, entries: seq<ReviewEntry>, m: nat, n: nat)
    requires InReview(repo, branch, marker, subject, entries) && m < n <= |entries|
    ensures TipAt(marker, entries, m) != TipAt(marker, entries, n)
  {
    hide IsEntry, MarkerAt, Sound, History, HasCommit;
    HistoryFacts(repo.commits, repo.branches[branch]);
    TipInHistory(repo, branch, marker, subject, entries, m);
    TipInHistory(repo, branch, marker, subject, entries, n);
  }

  lemma TipInHistory(
    repo: Repo, branch: string, marker: string, subject: string, entries: seq<ReviewEntry>, m: nat)
    requires InReview(repo, branch, marker, subject, entries) && m <= |entries|
    ensures var h := History(repo.commits, repo.branches[branch]);
            |h| > |entries| && h[|entries| - m] == TipAt(marker, entries, m)
  {
    hide IsEntry, MarkerAt, Sound, History, HasCommit;
  }

  lemma TipIsLast(repo: Repo, branch: string, marker: string, subject: string, entries: seq<ReviewEntry>)
    requires InReview(repo, branch, marker, subject, entries)
    ensures TipAt(marker, entries, |entries|) == repo.branches[branch]
  {
    hide IsEntry, MarkerAt, Sound, History, HasCommit;
    HistoryFacts(repo.commits, repo.branches[branch]);
    TipInHistory(repo, branch, marker, subject, entries, |entries|);
  }

  /** Moving a review's branch to a commit on its tip, which reads as an entry, makes that its last entry. */
  lemma MoveAppends(
    repo: Repo, branch: string, marker: string, subject: string, entries: seq<ReviewEntry>, id: string, e: ReviewEntry)
    requires InReview(repo, branch, marker, subject, entries)
    requires var c := Lookup(repo.commits, id);
             && c.Some? && c.value.firstParent == Some(repo.branches[branch])
             && EntryOf(c.value) == Success(e) && e.commit == id && Unmarked(c.value.message)
    ensures var repo' := repo.(branches := repo.branches[branch := id]);
            && InReview(repo', branch, marker, subject, entries + [e])
            && Grew(HistoryOf(repo, branch), HistoryOf(repo', branch))
  {
    hide EntryOf, Unmarked, MarkerAt, Sound, History;
    var repo' := repo.(branches := repo.branches[branch := id]);
    LookupFacts(repo.commits, id);
    HistoryStep(repo.commits, id);
    var all := entries + [e];
    forall k | 0 <= k < |all| ensures IsEntry(repo'.commits, all[k]) {
      if k < |entries| { assert IsEntry(repo.commits, entries[k]); }
    }
  }

  // Each kind of step keeps the invariant.

  lemma WritersKept(
    commits: seq<Commit>, commits': seq<Commit>, marker: string, n: nat,
    entries: seq<ReviewEntry>, entries': seq<ReviewEntry>, requests: seq<Request>, writers: seq<Progress>)
    requires Extends(commits', commits) && entries <= entries' && |requests| == |writers|
    requires forall w :: 0 <= w < |writers| ==> WriterOk(commits, marker, n, entries, requests[w], writers[w])
    ensures forall w :: 0 <= w < |writers| ==> WriterOk(commits', marker, n, entries', requests[w], writers[w])
  {
    hide NoteCommit, GoodRequest, NoteEntry, Sound, Lookup;
    forall w | 0 <= w < |writers| ensures WriterOk(commits', marker, n, entries', requests[w], writers[w]) {
      assert WriterOk(commits, marker, n, entries, requests[w], writers[w]);
      if writers[w].Created? || writers[w].Lost? {
        LookupFacts(commits, writers[w].id);
        ExtendsKeeps(commits, commits', writers[w].id);
      }
    }
  }

  lemma ReadKeeps(branch: string, marker: string, subject: string, n: nat, s: State, w: nat, s': State, entries: seq<ReviewEntry>)
    requires Inv(branch, marker, subject, n, s, entries) && Step(branch, s, Read(w), s')
    ensures Inv(branch, marker, subject, n, s', entries) && s'.repo == s.repo
  {
    hide InReview, ReadBranch, SourceAccepted, Trim, Recordable, NoteCommit, NoteEntry, Lookup;
    var r := s.requests[w];
    InReviewValid(s.repo, branch, marker, subject, entries);
    InReviewReads(s.repo, branch, marker, subject, entries);
    TipIsLast(s.repo, branch, marker, subject, entries);
    if r.source.Some? && SourceAccepted(s.repo.commits, r.source.value, r.length) {
      AcceptedIsRecordable(s.repo.commits, r.source.value, r.length);
    }
    assert WriterOk(s.repo.commits, marker, n, entries, r, s'.writers[w]);
    assert NotesAreAccounted(n, entries, s'.writers) by { AccountedAfter(n, entries, s.writers, w, s'.writers[w]); }
  }

  lemma AccountedAfter(n: nat, entries: seq<ReviewEntry>, writers: seq<Progress>, w: nat, status: Progress)
    requires NotesAreAccounted(n, entries, writers)
    requires w < |writers| && !writers[w].Done?
    ensures NotesAreAccounted(n, entries, writers[w := status])
  {
    var writers' := writers[w := status];
    forall p | n <= p < |entries| && entries[p].kind == Note
      ensures exists w :: 0 <= w < |writers'| && writers'[w].Done? && |writers'[w].review.entries| == p
    {
      var v :| 0 <= v < |writers| && writers[v].Done? && |writers[v].review.entries| == p;
      assert writers'[v] == writers[v];
    }
  }

  lemma CreateKeeps(
    branch: string, marker: string, subject: string, n: nat, s: State, w: nat, id: string, s': State, entries: seq<ReviewEntry>)
    requires Inv(branch, marker, subject, n, s, entries) && Step(branch, s, Create(w, id), s')
    ensures Inv(branch, marker, subject, n, s', entries)
    ensures HistoryOf(s'.repo, branch) == HistoryOf(s.repo, branch)
  {
    hide InReview, NoteMessage, Trim, Recordable, EntryOf, NoteEntry, Lookup, History, Sound, Unmarked, IsCommitId;
    var review := s.writers[w].review;
    var c := NoteCommit(id, review.tip, s.requests[w]);
    assert WriterOk(s.repo.commits, marker, n, entries, s.requests[w], s.writers[w]);
    InReviewValid(s.repo, branch, marker, subject, entries);
    TipExists(s.repo, branch, marker, subject, entries, |review.entries|);
    NoteCommitReads(id, review.tip, s.requests[w].message, s.requests[w].source);
    LookupFacts(s.repo.commits, id);
    if !HasCommit(s.repo.commits, id) {
      MadeIsValid(s.repo, c);
      AddCommit(s.repo.commits, c);
      WorkElsewhereKeeps(s.repo, s'.repo, branch, marker, subject, entries);
      ExtendsKeeps(s.repo.commits, s'.repo.commits, s.repo.branches[branch]);
      WritersKept(s.repo.commits, s'.repo.commits, marker, n, entries, entries, s.requests, s.writers);
    }
    AccountedAfter(n, entries, s.writers, w, s'.writers[w]);
  }

  lemma TipExists(
    repo: Repo, branch: string, marker: string, subject: string, entries: seq<ReviewEntry>, m: nat)
    requires InReview(repo, branch, marker, subject, entries) && m <= |entries|
    ensures HasCommit(repo.commits, TipAt(marker, entries, m))
  {
    hide IsEntry, MarkerAt, Sound, History, HasCommit;
    HistoryFacts(repo.commits, repo.branches[branch]);
    TipInHistory(repo, branch, marker, subject, entries, m);
  }

  lemma MadeIsValid(repo: Repo, c: Commit)
    requires Valid(repo) && FreshId(repo, c.id) && Trimmed(c.message)
    requires c.firstParent.Some? && HasCommit(repo.commits, c.firstParent.value)
    ensures Valid(repo.(commits := repo.commits + [c])) && Extends(repo.commits + [c], repo.commits)
  {
    hide IsCommitId, Trimmed, Sound;
    ExtendsBySnoc(repo.commits, c);
    forall b | b in repo.branches ensures HasCommit(repo.commits + [c], repo.branches[b]) {
      HasCommitSnoc(repo.commits, c, repo.branches[b]);
    }
  }

  lemma SwapKeeps(
    branch: string, marker: string, subject: string, n: nat, s: State, w: nat, s': State, entries: seq<ReviewEntry>)
    returns (entries': seq<ReviewEntry>)
    requires Inv(branch, marker, subject, n, s, entries) && Step(branch, s, Swap(w), s')
    ensures Inv(branch, marker, subject, n, s', entries') && entries <= entries'
    ensures Grew(HistoryOf(s.repo, branch), HistoryOf(s'.repo, branch))
  {
    hide InReview, NoteMessage, Trim, Recordable, EntryOf, Lookup, History, Sound, Unmarked, ReadEntry, GoodRequest, NoteEntry;
    var Created(review, id) := s.writers[w];
    var r := s.requests[w];
    assert WriterOk(s.repo.commits, marker, n, entries, r, s.writers[w]);
    TipIsLast(s.repo, branch, marker, subject, entries);
    InReviewValid(s.repo, branch, marker, subject, entries);
    if s.repo.branches[branch] == review.tip {
      entries' := SwapSucceeds(branch, marker, subject, n, s, w, s', entries);
    } else {
      entries' := entries;
      AccountedAfter(n, entries, s.writers, w, s'.writers[w]);
    }
  }

  lemma SwapSucceeds(
    branch: string, marker: string, subject: string, n: nat, s: State, w: nat, s': State, entries: seq<ReviewEntry>)
    returns (entries': seq<ReviewEntry>)
    requires Inv(branch, marker, subject, n, s, entries) && Step(branch, s, Swap(w), s')
    requires branch in s.repo.branches && s.repo.branches[branch] == s.writers[w].review.tip
    ensures Inv(branch, marker, subject, n, s', entries') && entries <= entries'
    ensures Grew(HistoryOf(s.repo, branch), HistoryOf(s'.repo, branch))
  {
    hide InReview, NoteMessage, Trim, Recordable, EntryOf, Lookup, History, Sound, Unmarked, ReadEntry, IsEntry, Trimmed;
    var Created(review, id) := s.writers[w];
    var r := s.requests[w];
    assert WriterOk(s.repo.commits, marker, n, entries, r, s.writers[w]);
    InReviewValid(s.repo, branch, marker, subject, entries);
    TipIsLast(s.repo, branch, marker, subject, entries);
    if |review.entries| < |entries| {
      TipsDiffer(s.repo, branch, marker, subject, entries, |review.entries|, |entries|);
    }
    assert |review.entries| == |entries|;
    var e := NoteEntry(id, r.message, r.source);
    NoteCommitReads(id, review.tip, r.message, r.source);
    MoveAppends(s.repo, branch, marker, subject, entries, id, e);
    EntryReads(s.repo.commits, e);
    entries' := entries + [e];
    WritersKept(s.repo.commits, s.repo.commits, marker, n, entries, entries', s.requests, s.writers);
    assert s'.writers[w] == Done(review, id, e);
    AccountedOneMore(n, entries, s.writers, w, Done(review, id, e), e);
  }

  lemma EntryReads(commits: seq<Commit>, e: ReviewEntry)
    requires var c := Lookup(commits, e.commit); c.Some? && EntryOf(c.value) == Success(e) && Unmarked(c.value.message)
    ensures ReadEntry(commits, e.commit) == Success(e)
  {
    hide EntryOf, Unmarked;
    assert IsEntry(commits, e);
    EntriesRead(commits, [e]);
    assert CommitIds([e]) == [e.commit];
  }

  lemma AccountedOneMore(n: nat, entries: seq<ReviewEntry>, writers: seq<Progress>, w: nat, status: Progress, e: ReviewEntry)
    requires NotesAreAccounted(n, entries, writers) && w < |writers| && !writers[w].Done?
    requires status.Done? && |status.review.entries| == |entries|
    ensures NotesAreAccounted(n, entries + [e], writers[w := status])
  {
    AccountedAfter(n, entries, writers, w, status);
    var writers' := writers[w := status];
    assert writers'[w].Done?;
    forall p | n <= p < |entries + [e]| && (entries + [e])[p].kind == Note
      ensures exists w :: 0 <= w < |writers'| && writers'[w].Done? && |writers'[w].review.entries| == p
    {
      if p < |entries| { assert entries[p].kind == Note; }
    }
  }

  lemma SuggestKeeps(
    branch: string, marker: string, subject: string, n: nat, s: State,
    id: string, message: string, paths: seq<string>, s': State, entries: seq<ReviewEntry>)
    returns (entries': seq<ReviewEntry>)
    requires Inv(branch, marker, subject, n, s, entries) && Step(branch, s, Suggest(id, message, paths), s')
    ensures Inv(branch, marker, subject, n, s', entries') && entries <= entries'
    ensures Grew(HistoryOf(s.repo, branch), HistoryOf(s'.repo, branch))
  {
    hide InReview, EntryOf, Lookup, History, Sound, Unmarked, IsCommitId, WriterOk, TrailersOf;
    var e := ReviewEntry(id, message, Suggestion, paths, None);
    var c := Commit(id, Some(s.repo.branches[branch]), message, paths);
    InReviewValid(s.repo, branch, marker, subject, entries);
    SuggestionReads(id, s.repo.branches[branch], message, paths);
    PushAppends(s.repo, branch, marker, subject, entries, c, e);
    PushIsValid(s.repo, branch, c);
    AddCommit(s.repo.commits, c);
    entries' := entries + [e];
    WritersKept(s.repo.commits, s'.repo.commits, marker, n, entries, entries', s.requests, s.writers);
    forall p | n <= p < |entries'| && entries'[p].kind == Note
      ensures exists w :: 0 <= w < |s.writers| && s.writers[w].Done? && |s.writers[w].review.entries| == p
    {
      assert entries[p].kind == Note;
    }
  }

  lemma ElsewhereKeeps(
    branch: string, marker: string, subject: string, n: nat, s: State, repo': Repo, s': State, entries: seq<ReviewEntry>)
    requires Inv(branch, marker, subject, n, s, entries) && Step(branch, s, Elsewhere(repo'), s')
    ensures Inv(branch, marker, subject, n, s', entries)
    ensures HistoryOf(s'.repo, branch) == HistoryOf(s.repo, branch)
  {
    hide InReview, WriterOk, History, Sound;
    InReviewValid(s.repo, branch, marker, subject, entries);
    WorkElsewhereKeeps(s.repo, repo', branch, marker, subject, entries);
    ExtendsKeeps(s.repo.commits, repo'.commits, s.repo.branches[branch]);
    WritersKept(s.repo.commits, repo'.commits, marker, n, entries, entries, s.requests, s.writers);
  }

  /** Every step keeps the invariant; entries are only ever added at the end, and commits at the tip. */
  lemma StepKeeps(
    branch: string, marker: string, subject: string, n: nat, s: State, e: Event, s': State, entries: seq<ReviewEntry>)
    returns (entries': seq<ReviewEntry>)
    requires Inv(branch, marker, subject, n, s, entries) && Step(branch, s, e, s')
    ensures Inv(branch, marker, subject, n, s', entries') && entries <= entries'
    ensures Grew(HistoryOf(s.repo, branch), HistoryOf(s'.repo, branch))
    ensures s'.requests == s.requests
  {
    entries' := entries;
    StepKeepsRequests(branch, s, e, s');
    match e {
      case Read(w) => ReadKeeps(branch, marker, subject, n, s, w, s', entries);
      case Create(w, id) => CreateKeeps(branch, marker, subject, n, s, w, id, s', entries);
      case Swap(w) => entries' := SwapKeeps(branch, marker, subject, n, s, w, s', entries);
      case Suggest(id, message, paths) =>
        entries' := SuggestKeeps(branch, marker, subject, n, s, id, message, paths, s', entries);
      case Elsewhere(repo') => ElsewhereKeeps(branch, marker, subject, n, s, repo', s', entries);
    }
  }

  lemma StepKeepsRequests(branch: string, s: State, e: Event, s': State)
    requires Step(branch, s, e, s')
    ensures s'.requests == s.requests && |s'.writers| == |s.writers|
  {
  }

  // Runs.

  /** States in order, each reached from the one before by an event. */
  ghost predicate Run(branch: string, states: seq<State>, events: seq<Event>) {
    && |states| == |events| + 1
    && forall i :: 0 <= i < |events| ==> Step(branch, states[i], events[i], states[i + 1])
  }

  /** A review with the entries given, and writers that have not begun. */
  ghost predicate Initial(branch: string, marker: string, subject: string, s: State, entries: seq<ReviewEntry>) {
    && InReview(s.repo, branch, marker, subject, entries)
    && |s.writers| == |s.requests|
    && (forall w :: 0 <= w < |s.requests| && s.requests[w].length.Some? ==> s.requests[w].length.value <= USIZE_MAX)
    && (forall w :: 0 <= w < |s.writers| ==> s.writers[w].Idle?)
  }

  lemma {:induction false} RunKeeps(
    branch: string, marker: string, subject: string, n: nat, states: seq<State>, events: seq<Event>,
    entries: seq<ReviewEntry>, i: nat, j: nat)
    returns (entries': seq<ReviewEntry>)
    requires Run(branch, states, events) && i <= j < |states|
    requires Inv(branch, marker, subject, n, states[i], entries)
    ensures Inv(branch, marker, subject, n, states[j], entries') && entries <= entries'
    ensures Grew(HistoryOf(states[i].repo, branch), HistoryOf(states[j].repo, branch))
    decreases j - i
  {
    hide Inv, HistoryOf, Step;
    if i == j {
      entries' := entries;
    } else {
      entries' := RunKeeps(branch, marker, subject, n, states, events, entries, i, j - 1);
      assert Step(branch, states[j - 1], events[j - 1], states[j - 1 + 1]);
      entries' := StepKeeps(branch, marker, subject, n, states[j - 1], events[j - 1], states[j], entries');
      GrewTransitive(HistoryOf(states[i].repo, branch), HistoryOf(states[j - 1].repo, branch), HistoryOf(states[j].repo, branch));
    }
  }

  lemma GrewTransitive(a: seq<string>, b: seq<string>, c: seq<string>)
    requires Grew(a, b) && Grew(b, c)
    ensures Grew(a, c)
  {
    assert c[|c| - |a|..] == c[|c| - |b|..][|b| - |a|..];
  }

  lemma InitialInv(branch: string, marker: string, subject: string, s: State, entries: seq<ReviewEntry>)
    requires Initial(branch, marker, subject, s, entries)
    ensures Inv(branch, marker, subject, |entries|, s, entries)
  {
    hide InReview;
  }

  function AllIdle(n: nat): (r: seq<Progress>)
    ensures |r| == n && forall w :: 0 <= w < n ==> r[w] == Idle
  {
    seq(n, _ => Idle)
  }

  /** A review that was just started is one that writers can begin with. */
  lemma StartedReviewIsInitial(
    repo: Repo, revision: string, subject: string, branch: string, id: string, requests: seq<Request>)
    requires Valid(repo) && HasCommit(repo.commits, subject) && FreshId(repo, id)
    requires GitBranchName(branch) && Trimmed(branch) && branch !in repo.branches
    requires forall w :: 0 <= w < |requests| && requests[w].length.Some? ==> requests[w].length.value <= USIZE_MAX
    ensures var s := State(StartReview(repo, revision, Some(subject), branch, true, id).0, requests, AllIdle(|requests|));
            Initial(branch, id, subject, s, []) && Run(branch, [s], [])
  {
    hide StartReview, InReview, GitBranchName, Trimmed, FreshId, Valid;
    StartHoldsReview(repo, revision, subject, branch, id);
  }

  /** The entries that a review of `marker` loads with; none, if it does not. */
  function EntriesAt(s: State, branch: string): seq<ReviewEntry> {
    match LoadReview(s.repo, branch) case Success(review) => review.entries case Failure(_) => []
  }

  lemma InvLoads(branch: string, marker: string, subject: string, n: nat, s: State, entries: seq<ReviewEntry>)
    requires Inv(branch, marker, subject, n, s, entries)
    ensures LoadReview(s.repo, branch) == Success(Review(branch, marker, subject, entries))
    ensures EntriesAt(s, branch) == entries
  {
    hide InReview, LoadReview, WriterOk;
    InReviewLoads(s.repo, branch, marker, subject, entries);
  }

  /**
    Through any run, the review goes on loading, with the same marker and subject; its
    entries only grow at the end, and the history of its branch only at the tip.
   */
  lemma ReviewOnlyGrows(
    branch: string, marker: string, subject: string, states: seq<State>, events: seq<Event>,
    entries: seq<ReviewEntry>, i: nat, j: nat)
    requires Run(branch, states, events) && i <= j < |states|
    requires Initial(branch, marker, subject, states[0], entries)
    ensures LoadReview(states[j].repo, branch) == Success(Review(branch, marker, subject, EntriesAt(states[j], branch)))
    ensures entries <= EntriesAt(states[i], branch) <= EntriesAt(states[j], branch)
    ensures Grew(HistoryOf(states[i].repo, branch), HistoryOf(states[j].repo, branch))
  {
    hide Inv, Initial, HistoryOf, LoadReview, Run, EntriesAt;
    InitialInv(branch, marker, subject, states[0], entries);
    var first := RunKeeps(branch, marker, subject, |entries|, states, events, entries, 0, i);
    var later := RunKeeps(branch, marker, subject, |entries|, states, events, first, i, j);
    InvLoads(branch, marker, subject, |entries|, states[i], first);
    InvLoads(branch, marker, subject, |entries|, states[j], later);
  }

  predicate OccursOnce(entries: seq<ReviewEntry>, from: nat, e: ReviewEntry) {
    exists p :: from <= p < |entries| && entries[p] == e
                && forall q :: 0 <= q < |entries| && entries[q].commit == e.commit ==> q == p
  }

  lemma EntryCommitsDiffer(
    repo: Repo, branch: string, marker: string, subject: string, entries: seq<ReviewEntry>, p: nat, q: nat)
    requires InReview(repo, branch, marker, subject, entries)
    requires p < |entries| && q < |entries| && entries[p].commit == entries[q].commit
    ensures p == q
  {
    hide InReview;
    if p < q {
      TipsDiffer(repo, branch, marker, subject, entries, p + 1, q + 1);
    } else if q < p {
      TipsDiffer(repo, branch, marker, subject, entries, q + 1, p + 1);
    }
  }

  /** In a history, each commit is followed by its first parent. */
  lemma {:induction false} HistoryLinks(commits: seq<Commit>, id: string, k: nat)
    requires Sound(commits) && HasCommit(commits, id) && k + 1 < |History(commits, id)|
    ensures var c := Lookup(commits, History(commits, id)[k]);
            c.Some? && c.value.firstParent == Some(History(commits, id)[k + 1])
    decreases k
  {
    hide Sound, History, HasCommit, Lookup;
    LookupFacts(commits, id);
    HistoryFacts(commits, id);
    if Lookup(commits, id).value.firstParent.None? {
      RootIsLast(commits, id);
    }
    var parent := Lookup(commits, id).value.firstParent.value;
    HistoryStep(commits, id);
    ParentIsThere(commits, id);
    HistoryFacts(commits, parent);
    if k > 0 {
      HistoryLinks(commits, parent, k - 1);
    }
  }

  lemma {:induction false} RootIsLast(commits: seq<Commit>, id: string)
    requires Lookup(commits, id).Some? && Lookup(commits, id).value.firstParent.None?
    ensures History(commits, id) == [id]
  {
    if commits[|commits| - 1].id != id {
      RootIsLast(commits[..|commits| - 1], id);
    }
  }

  /** An entry's commit has the tip before it for its first parent. */
  lemma EntryParent(repo: Repo, branch: string, marker: string, subject: string, entries: seq<ReviewEntry>, p: nat)
    requires InReview(repo, branch, marker, subject, entries) && p < |entries|
    ensures var c := Lookup(repo.commits, entries[p].commit);
            c.Some? && c.value.firstParent == Some(TipAt(marker, entries, p)) && EntryOf(c.value) == Success(entries[p])
  {
    hide EntryOf, MarkerAt, Sound, History, HasCommit, Lookup, Unmarked;
    assert IsEntry(repo.commits, entries[p]);
    TipInHistory(repo, branch, marker, subject, entries, p);
    TipInHistory(repo, branch, marker, subject, entries, p + 1);
    HistoryLinks(repo.commits, repo.branches[branch], |entries| - p - 1);
  }

  /** A writer that lost finds its commit among the entries only if another made the very same note, and won. */
  lemma LostMeansTaken(
    branch: string, marker: string, subject: string, n: nat, s: State, entries: seq<ReviewEntry>, w: nat, p: nat)
    requires Inv(branch, marker, subject, n, s, entries)
    requires w < |s.writers| && s.writers[w].Lost? && p < |entries| && entries[p].commit == s.writers[w].id
    ensures exists v :: 0 <= v < |s.writers| && s.writers[v].Done? && s.writers[v].id == s.writers[w].id
  {
    hide InReview, Trim, NoteMessage, Recordable, EntryOf, Lookup, Unmarked, Trimmed;
    var Lost(review, id) := s.writers[w];
    var r := s.requests[w];
    assert WriterOk(s.repo.commits, marker, n, entries, r, s.writers[w]);
    EntryParent(s.repo, branch, marker, subject, entries, p);
    NoteCommitReads(id, review.tip, r.message, r.source);
    var q := |review.entries|;
    assert TipAt(marker, entries, p) == TipAt(marker, entries, q);
    if p < q { TipsDiffer(s.repo, branch, marker, subject, entries, p, q); }
    if q < p { TipsDiffer(s.repo, branch, marker, subject, entries, q, p); }
    assert p == q && entries[p].kind == Note;
    var v :| 0 <= v < |s.writers| && s.writers[v].Done? && |s.writers[v].review.entries| == p;
    assert WriterOk(s.repo.commits, marker, n, entries, s.requests[v], s.writers[v]);
  }

  /** What a run guarantees every writer, given the entries that the review now loads with. */
  ghost predicate WriterOutcome(s: State, start: nat, entries: seq<ReviewEntry>, w: nat)
    requires w < |s.writers| == |s.requests|
  {
    var writer := s.writers[w];
    && (writer.Done? ==>
          && writer.entry == NoteEntry(writer.id, s.requests[w].message, s.requests[w].source)
          && OccursOnce(entries, start, writer.entry)
          && forall v :: 0 <= v < |s.writers| && v != w && s.writers[v].Done? ==> s.writers[v].id != writer.id)
    && (writer.Lost? ==>
          ((exists e :: e in entries && e.commit == writer.id)
           <==> (exists v :: 0 <= v < |s.writers| && s.writers[v].Done? && s.writers[v].id == writer.id)))
    && !writer.Broken?
  }

  lemma DoneOutcome(
    branch: string, marker: string, subject: string, n: nat, s: State, entries: seq<ReviewEntry>, w: nat)
    requires Inv(branch, marker, subject, n, s, entries) && w < |s.writers| && s.writers[w].Done?
    ensures WriterOutcome(s, n, entries, w)
  {
    hide InReview, NoteEntry;
    assert WriterOk(s.repo.commits, marker, n, entries, s.requests[w], s.writers[w]);
    var p := |s.writers[w].review.entries|;
    var e := s.writers[w].entry;
    assert e.commit == s.writers[w].id by { EntryIsNamed(s.writers[w].id, s.requests[w]); }
    forall q | 0 <= q < |entries| && entries[q].commit == e.commit ensures q == p {
      EntryCommitsDiffer(s.repo, branch, marker, subject, entries, p, q);
    }
    assert OccursOnce(entries, n, e);
    forall v | 0 <= v < |s.writers| && v != w && s.writers[v].Done? ensures s.writers[v].id != s.writers[w].id {
      assert WriterOk(s.repo.commits, marker, n, entries, s.requests[v], s.writers[v]);
      EntryIsNamed(s.writers[v].id, s.requests[v]);
      assert |s.writers[v].review.entries| != p;
    }
  }

  lemma EntryIsNamed(id: string, r: Request)
    ensures NoteEntry(id, r.message, r.source).commit == id
  {
  }

  lemma LostOutcome(
    branch: string, marker: string, subject: string, n: nat, s: State, entries: seq<ReviewEntry>, w: nat)
    requires Inv(branch, marker, subject, n, s, entries) && w < |s.writers| && s.writers[w].Lost?
    ensures WriterOutcome(s, n, entries, w)
  {
    hide InReview, NoteEntry, NoteCommit, OccursOnce, GoodRequest;
    var id := s.writers[w].id;
    if e :| e in entries && e.commit == id {
      var p :| 0 <= p < |entries| && entries[p] == e;
      LostMeansTaken(branch, marker, subject, n, s, entries, w, p);
    }
    forall v | 0 <= v < |s.writers| && s.writers[v].Done? && s.writers[v].id == id
      ensures exists e :: e in entries && e.commit == id
    {
      assert WriterOk(s.repo.commits, marker, n, entries, s.requests[v], s.writers[v]);
      EntryIsNamed(s.writers[v].id, s.requests[v]);
      assert s.writers[v].entry in entries;
    }
  }

  /**
    Concurrent appends are safe. In every state of every run, each writer that succeeded
    has its note in the review exactly once, after the entries that were there at the
    start; a writer that failed has its commit there only if another writer made that
    very commit and succeeded; no success is reported as a failure; and every note that
    was added is that of a writer which succeeded.
   */
  lemma AppendsAreSafe(
    branch: string, marker: string, subject: string, states: seq<State>, events: seq<Event>, entries: seq<ReviewEntry>, i: nat)
    requires Run(branch, states, events) && i < |states| && Initial(branch, marker, subject, states[0], entries)
    ensures var s := states[i];
            && |s.writers| == |s.requests|
            && (forall w :: 0 <= w < |s.writers| ==> WriterOutcome(s, |entries|, EntriesAt(s, branch), w))
            && NotesAreAccounted(|entries|, EntriesAt(s, branch), s.writers)
  {
    hide InReview, WriterOutcome, Run, WriterOk, EntriesAt;
    InitialInv(branch, marker, subject, states[0], entries);
    var now := RunKeeps(branch, marker, subject, |entries|, states, events, entries, 0, i);
    InvLoads(branch, marker, subject, |entries|, states[i], now);
    forall w | 0 <= w < |states[i].writers| ensures WriterOutcome(states[i], |entries|, now, w) {
      OneOutcome(branch, marker, subject, |entries|, states[i], now, w);
    }
  }

  lemma OneOutcome(
    branch: string, marker: string, subject: string, n: nat, s: State, entries: seq<ReviewEntry>, w: nat)
    requires Inv(branch, marker, subject, n, s, entries) && w < |s.writers|
    ensures WriterOutcome(s, n, entries, w)
  {
    hide InReview, NotesAreAccounted, NoSharedPlace, NoteCommit, NoteEntry, GoodRequest, Seen;
    assert WriterOk(s.repo.commits, marker, n, entries, s.requests[w], s.writers[w]);
    if s.writers[w].Done? {
      DoneOutcome(branch, marker, subject, n, s, entries, w);
    } else if s.writers[w].Lost? {
      LostOutcome(branch, marker, subject, n, s, entries, w);
    }
  }

  // When no two commits are the same.

  predicate HasId(w: Progress) { w.Created? || w.Done? || w.Lost? }

  /** Writers have made commits of their own. */
  ghost predicate IdsDiffer(s: State) {
    && (forall w :: 0 <= w < |s.writers| && HasId(s.writers[w]) ==> HasCommit(s.repo.commits, s.writers[w].id))
    && (forall v, w :: 0 <= v < w < |s.writers| && HasId(s.writers[v]) && HasId(s.writers[w]) ==>
          s.writers[v].id != s.writers[w].id)
  }

  lemma CommitsKept(branch: string, s: State, e: Event, s': State, id: string)
    requires Step(branch, s, e, s') && HasCommit(s.repo.commits, id)
    ensures HasCommit(s'.repo.commits, id)
  {
    hide ReadBranch, NoteCommit, Sound, Trim, SourceAccepted, GoodSuggestion, IsCommitId, ReadEntry;
    var k :| 0 <= k < |s.repo.commits| && s.repo.commits[k].id == id;
    assert s'.repo.commits[k].id == id;
  }

  lemma FreshStepKeeps(branch: string, s: State, e: Event, s': State)
    requires Step(branch, s, e, s') && IdsDiffer(s) && |s.writers| == |s.requests|
    requires e.Create? ==> FreshId(s.repo, e.id)
    ensures IdsDiffer(s')
  {
    hide ReadBranch, EmptyCommit, HasCommit, Trim, SourceAccepted, GoodSuggestion, IsCommitId, ReadEntry, Valid, Extends;
    forall w | 0 <= w < |s'.writers| && HasId(s'.writers[w]) ensures HasCommit(s'.repo.commits, s'.writers[w].id) {
      if HasId(s.writers[w]) {
        CommitsKept(branch, s, e, s', s.writers[w].id);
      } else {
        CreatedCommit(branch, s, e, s', w);
      }
    }
  }

  lemma CreatedCommit(branch: string, s: State, e: Event, s': State, w: nat)
    requires Step(branch, s, e, s') && w < |s.writers| && |s.writers| == |s.requests|
    requires !HasId(s.writers[w]) && HasId(s'.writers[w])
    ensures HasCommit(s'.repo.commits, s'.writers[w].id)
  {
    hide ReadBranch, Sound, Trim, SourceAccepted, GoodSuggestion, IsCommitId, ReadEntry, NoteMessage, Lookup;
    assert e.Create? && e.w == w;
    var c := NoteCommit(e.id, s.writers[w].review.tip, s.requests[w]);
    HasCommitSnoc(s.repo.commits, c, e.id);
  }

  lemma {:induction false} FreshRunKeeps(branch: string, states: seq<State>, events: seq<Event>, i: nat)
    requires Run(branch, states, events) && i < |states| && |states[0].writers| == |states[0].requests|
    requires forall w :: 0 <= w < |states[0].writers| ==> states[0].writers[w].Idle?
    requires forall k :: 0 <= k < |events| && events[k].Create? ==> FreshId(states[k].repo, events[k].id)
    ensures IdsDiffer(states[i]) && |states[i].writers| == |states[i].requests|
  {
    hide Step, FreshId;
    if i > 0 {
      FreshRunKeeps(branch, states, events, i - 1);
      assert Step(branch, states[i - 1], events[i - 1], states[i - 1 + 1]);
      StepKeepsRequests(branch, states[i - 1], events[i - 1], states[i]);
      FreshStepKeeps(branch, states[i - 1], events[i - 1], states[i]);
    }
  }

  /** When every commit made is a new one, a note whose writer failed is never in the review. */
  lemma FailedNotesLeaveNoEntry(
    branch: string, marker: string, subject: string, states: seq<State>, events: seq<Event>, entries: seq<ReviewEntry>,
    i: nat, w: nat)
    requires Run(branch, states, events) && i < |states| && Initial(branch, marker, subject, states[0], entries)
    requires forall k :: 0 <= k < |events| && events[k].Create? ==> FreshId(states[k].repo, events[k].id)
    requires w < |states[i].writers| && states[i].writers[w].Lost?
    ensures forall e :: e in EntriesAt(states[i], branch) ==> e.commit != states[i].writers[w].id
  {
    hide InReview, EntriesAt, OccursOnce, NotesAreAccounted, FreshId, HasCommit, NoteEntry, Run;
    AppendsAreSafe(branch, marker, subject, states, events, entries, i);
    FreshRunKeeps(branch, states, events, i);
    assert WriterOutcome(states[i], |entries|, EntriesAt(states[i], branch), w);
  }

  // A run in which a note that failed is there.

  /** The states of two writers adding the same note at once, both commits being the same. */
  function Doubled(repo: Repo, branch: string, r: Request, review: Branch, id: string): seq<State> {
    var made := repo.(commits := repo.commits + [NoteCommit(id, review.tip, r)]);
    var moved := made.(branches := made.branches[branch := id]);
    var done := Done(review, id, NoteEntry(id, r.message, r.source));
    [ State(repo, [r, r], AllIdle(2)),
      State(repo, [r, r], [HasRead(review), Idle]),
      State(repo, [r, r], [HasRead(review), HasRead(review)]),
      State(made, [r, r], [Created(review, id), HasRead(review)]),
      State(made, [r, r], [Created(review, id), Created(review, id)]),
      State(moved, [r, r], [done, Created(review, id)]),
      State(moved, [r, r], [done, Lost(review, id)]) ]
  }

  function DoubledEvents(id: string): seq<Event> {
    [Read(0), Read(1), Create(0, id), Create(1, id), Swap(0), Swap(1)]
  }

  lemma DoubledReads(repo: Repo, branch: string, marker: string, subject: string, entries: seq<ReviewEntry>, r: Request, id: string)
    requires InReview(repo, branch, marker, subject, entries) && GoodNote(repo.commits, r.message, r.source, r.length)
    ensures branch in repo.branches
    ensures var s := Doubled(repo, branch, r, Branch(marker, subject, CommitIds(entries), repo.branches[branch]), id);
            Step(branch, s[0], Read(0), s[1]) && Step(branch, s[1], Read(1), s[2])
  {
    hide InReview, ReadBranch, SourceAccepted, Trim, NoteCommit, NoteEntry, CommitIds;
    InReviewReads(repo, branch, marker, subject, entries);
    var review := Branch(marker, subject, CommitIds(entries), repo.branches[branch]);
    assert AfterRead(repo, branch, r) == HasRead(review);
    assert AllIdle(2)[0 := HasRead(review)] == [HasRead(review), Idle];
  }

  lemma DoubledCreates(repo: Repo, branch: string, r: Request, review: Branch, id: string)
    requires FreshId(repo, id)
    ensures var s := Doubled(repo, branch, r, review, id);
            Step(branch, s[2], Create(0, id), s[3]) && Step(branch, s[3], Create(1, id), s[4])
  {
    hide NoteEntry, NoteMessage, Trim, IsCommitId, HasCommit;
    var c := NoteCommit(id, review.tip, r);
    AddCommit(repo.commits, c);
    HasCommitSnoc(repo.commits, c, id);
    var s := Doubled(repo, branch, r, review, id);
    assert Step(branch, s[2], Create(0, id), s[3]);
    assert Step(branch, s[3], Create(1, id), s[4]);
  }

  lemma DoubledSwaps(repo: Repo, branch: string, r: Request, review: Branch, id: string)
    requires branch in repo.branches && repo.branches[branch] == review.tip != id && GoodRequest(r)
    ensures var s := Doubled(repo, branch, r, review, id);
            Step(branch, s[4], Swap(0), s[5]) && Step(branch, s[5], Swap(1), s[6])
  {
    hide NoteMessage, Trim, EntryOf, Unmarked, ReadEntry, Recordable, Lookup;
    var c := NoteCommit(id, review.tip, r);
    AddCommit(repo.commits, c);
    NoteCommitReads(id, review.tip, r.message, r.source);
    EntryReads(repo.commits + [c], NoteEntry(id, r.message, r.source));
    var s := Doubled(repo, branch, r, review, id);
    assert Step(branch, s[4], Swap(0), s[5]);
    assert Step(branch, s[5], Swap(1), s[6]);
  }

  /**
    On every review and for every note that can be added: two writers add the note at
    once, and make the same commit. One succeeds; the other is told that the branch
    changed, although the note is in the review.
   */
  lemma SameNoteTwice(
    repo: Repo, branch: string, marker: string, subject: string, entries: seq<ReviewEntry>, r: Request, id: string)
    requires InReview(repo, branch, marker, subject, entries) && FreshId(repo, id)
    requires GoodNote(repo.commits, r.message, r.source, r.length) && (r.length.Some? ==> r.length.value <= USIZE_MAX)
    ensures exists states: seq<State>, events: seq<Event> ::
              && Run(branch, states, events) && states[0] == State(repo, [r, r], AllIdle(2))
              && Initial(branch, marker, subject, states[0], entries)
              && var s := states[|states| - 1];
                 && |s.writers| == 2 && Returned(s.writers[0]) == Some(Success(NoteEntry(id, r.message, r.source)))
                 && Returned(s.writers[1]) == Some(Failure(BranchChanged))
                 && HasId(s.writers[1]) && s.writers[1].id == id
                 && NoteEntry(id, r.message, r.source) in EntriesAt(s, branch)
  {
    hide InReview, EntriesAt, NoteEntry, NoteCommit, Step, NotesAreAccounted, Valid, GoodNote, CommitIds, Run;
    DoubledRuns(repo, branch, marker, subject, entries, r, id);
    var review := Branch(marker, subject, CommitIds(entries), repo.branches[branch]);
    var states, events := Doubled(repo, branch, r, review, id), DoubledEvents(id);
    AppendsAreSafe(branch, marker, subject, states, events, entries, 6);
    assert WriterOutcome(states[6], |entries|, EntriesAt(states[6], branch), 0);
    assert NoteEntry(id, r.message, r.source) in EntriesAt(states[6], branch);
  }

  lemma DoubledRuns(
    repo: Repo, branch: string, marker: string, subject: string, entries: seq<ReviewEntry>, r: Request, id: string)
    requires InReview(repo, branch, marker, subject, entries) && FreshId(repo, id)
    requires GoodNote(repo.commits, r.message, r.source, r.length) && (r.length.Some? ==> r.length.value <= USIZE_MAX)
    ensures branch in repo.branches
    ensures Run(branch, Doubled(repo, branch, r, Branch(marker, subject, CommitIds(entries), repo.branches[branch]), id),
                DoubledEvents(id))
  {
    hide InReview, NoteEntry, NoteCommit, ReadBranch, Step, GoodRequest, HasCommit, Valid, GoodNote, CommitIds;
    InReviewValid(repo, branch, marker, subject, entries);
    var review := Branch(marker, subject, CommitIds(entries), repo.branches[branch]);
    GoodNoteIsGood(repo.commits, r);
    DoubledReads(repo, branch, marker, subject, entries, r, id);
    DoubledCreates(repo, branch, r, review, id);
    DoubledSwaps(repo, branch, r, review, id);
  }

  lemma GoodNoteIsGood(commits: seq<Commit>, r: Request)
    requires Sound(commits) && GoodNote(commits, r.message, r.source, r.length)
    requires r.length.Some? ==> r.length.value <= USIZE_MAX
    ensures GoodRequest(r)
  {
    hide SourceAccepted, Recordable, Sound;
    if r.source.Some? { AcceptedIsRecordable(commits, r.source.value, r.length); }
  }
}
