/** Reviews as branches: reading, starting and appending, on repository values. */
module Reviews {
  import opened Wrappers
  import opened Text
  import opened Locate
  import opened Trailers
  import opened Repositories

  datatype Kind = Note | Suggestion

  datatype ReviewEntry = ReviewEntry(commit: string, message: string, kind: Kind, paths: seq<string>, source: Option<NoteSource>)

  datatype Review = Review(branch: string, marker: string, subject: string, entries: seq<ReviewEntry>)

  datatype StartedReview = StartedReview(branch: string, marker: string, subject: string)

  datatype ReviewError =
    | UnknownRevision
    | InvalidBranchName
    | BranchExists
    | NoBranch
    | NotAReview
    | NoReviewTrailer
    | NoSubjectTrailer
    | InvalidSubject
    | WrongBranch
    | EmptyMessage
    | InvalidSource
    | BranchChanged
    | WrongCount
    | NoteChangesFiles
    | NoteWithoutText
    | UnreadableSource
    | EmptySuggestion
    | SuggestionWithoutFiles

  /** A review branch before its entries are validated; entries are oldest first. */
  datatype Branch = Branch(marker: string, subject: string, entries: seq<string>, tip: string)

  function Reversed<T>(s: seq<T>): (r: seq<T>)
    ensures |r| == |s| && forall k :: 0 <= k < |s| ==> r[k] == s[|s| - 1 - k]
  {
    if s == [] then [] else Reversed(s[1..]) + [s[0]]
  }

  // Markers.

  function TrailersOf(message: string): seq<KeyValue> { SplitTrailers(message).1 }

  /** The subject of the review that `c` starts on `branch`, if `c` is a marker at all. */
  function MarkerAt(c: Commit, branch: string): Result<Option<string>, ReviewError> {
    var review := Trailer(TrailersOf(c.message), REVIEW_TRAILER);
    var subject := Trailer(TrailersOf(c.message), SUBJECT_TRAILER);
    if review.None? && subject.None? then Success(None)
    else if review.None? then Failure(NoReviewTrailer)
    else if subject.None? then Failure(NoSubjectTrailer)
    else if c.firstParent != subject then Failure(InvalidSubject)
    else if review.value != branch then Failure(WrongBranch)
    else Success(subject)
  }

  /** Neither kind of marker trailer. */
  predicate Unmarked(message: string) {
    Trailer(TrailersOf(message), REVIEW_TRAILER).None? && Trailer(TrailersOf(message), SUBJECT_TRAILER).None?
  }

  /** The position and subject of the first marker in `history` from `position` on, among the candidates given. */
  function Scan(history: seq<string>, markers: map<string, Commit>, branch: string, position: nat)
    : Result<Option<(nat, string)>, ReviewError>
    decreases |history| - position
  {
    if position >= |history| then Success(None)
    else if history[position] !in markers then Scan(history, markers, branch, position + 1)
    else
      match MarkerAt(markers[history[position]], branch)
      case Failure(e) => Failure(e)
      case Success(None) => Scan(history, markers, branch, position + 1)
      case Success(Some(subject)) => Success(Some((position, subject)))
  }

  /** The same, with every commit of the history a candidate. */
  function ScanAll(commits: seq<Commit>, history: seq<string>, branch: string, position: nat)
    : Result<Option<(nat, string)>, ReviewError>
    decreases |history| - position
  {
    if position >= |history| then Success(None)
    else
      match Lookup(commits, history[position])
      case None => ScanAll(commits, history, branch, position + 1)
      case Some(c) =>
        match MarkerAt(c, branch)
        case Failure(e) => Failure(e)
        case Success(None) => ScanAll(commits, history, branch, position + 1)
        case Success(Some(subject)) => Success(Some((position, subject)))
  }

  function BranchFrom(history: seq<string>, tip: string, found: Result<Option<(nat, string)>, ReviewError>)
    : Result<Option<Branch>, ReviewError>
  {
    match found
    case Failure(e) => Failure(e)
    case Success(None) => Success(None)
    case Success(Some((position, subject))) =>
      if position >= |history| then Success(None)
      else Success(Some(Branch(history[position], subject, Reversed(history[..position]), tip)))
  }

  function ReadBranchAt(commits: seq<Commit>, branch: string, tip: string, markers: map<string, Commit>)
    : Result<Option<Branch>, ReviewError>
  {
    var history := History(commits, tip);
    BranchFrom(history, tip, Scan(history, markers, branch, 0))
  }

  function MarkerCandidates(commits: seq<Commit>, tips: seq<string>): map<string, Commit> {
    CommitsWithKeys(commits, tips, REVIEW_TRAILER, SUBJECT_TRAILER)
  }

  function ReadBranch(repo: Repo, branch: string): Result<Branch, ReviewError> {
    if branch !in repo.branches then Failure(NoBranch) else
      var tip := repo.branches[branch];
      match ReadBranchAt(repo.commits, branch, tip, MarkerCandidates(repo.commits, [tip]))
      case Failure(e) => Failure(e)
      case Success(None) => Failure(NotAReview)
      case Success(Some(b)) => Success(b)
  }

  // Entries.

  function EntryOf(c: Commit): Result<ReviewEntry, ReviewError> {
    var (text, trailers) := SplitTrailers(c.message);
    if Trailer(trailers, NOTE_TRAILER).Some? then
      if c.paths != [] then Failure(NoteChangesFiles)
      else if Trim(text) == [] then Failure(NoteWithoutText)
      else
        match Trailer(trailers, SOURCE_TRAILER)
        case None => Success(ReviewEntry(c.id, text, Note, c.paths, None))
        case Some(value) =>
          match ParseSource(value)
          case Failure(_) => Failure(UnreadableSource)
          case Success(source) => Success(ReviewEntry(c.id, text, Note, c.paths, Some(source)))
    else if Trim(c.message) == [] then Failure(EmptySuggestion)
    else if c.paths == [] then Failure(SuggestionWithoutFiles)
    else Success(ReviewEntry(c.id, c.message, Suggestion, c.paths, None))
  }

  function EntriesOf(commits: seq<Commit>): Result<seq<ReviewEntry>, ReviewError> {
    if commits == [] then Success([]) else
      match EntryOf(commits[0])
      case Failure(e) => Failure(e)
      case Success(first) =>
        match EntriesOf(commits[1..])
        case Failure(e) => Failure(e)
        case Success(rest) => Success([first] + rest)
  }

  function Entries(commits: seq<Commit>, ids: seq<string>): Result<seq<ReviewEntry>, ReviewError> {
    var read := ReadCommits(commits, ids);
    if |read| != |ids| then Failure(WrongCount) else EntriesOf(read)
  }

  function LoadReview(repo: Repo, branch: string): Result<Review, ReviewError> {
    match ReadBranch(repo, branch)
    case Failure(e) => Failure(e)
    case Success(b) =>
      match Entries(repo.commits, b.entries)
      case Failure(e) => Failure(e)
      case Success(entries) => Success(Review(branch, b.marker, b.subject, entries))
  }

  // Writing.

  /** What Git stores for a commit without changes: the message without whitespace around it. */
  function EmptyCommit(id: string, parent: string, message: string): Commit {
    Commit(id, Some(parent), Trim(message), [])
  }

  /**
    Start a review of the commit `subject`, which `revision` resolves to, on a branch
    name that Git accepts or not. `id` names the commit that Git makes.
   */
  function StartReview(
    repo: Repo, revision: string, subject: Option<string>, branch: string, accepted: bool, id: string)
    : (Repo, Result<StartedReview, ReviewError>)
  {
    if subject.None? then (repo, Failure(UnknownRevision))
    else if !accepted then (repo, Failure(InvalidBranchName))
    else if branch in repo.branches then (repo, Failure(BranchExists))
    else
      var marker := EmptyCommit(id, subject.value, MarkerMessage(revision, branch, subject.value));
      (Repo(repo.commits + [marker], repo.branches[branch := id]), Success(StartedReview(branch, id, subject.value)))
  }

  /** Whether `check_source` accepts the source; `length` is the number of lines of its file, if there is one. */
  predicate SourceAccepted(commits: seq<Commit>, source: NoteSource, length: Option<nat>) {
    && HasCommit(commits, source.revision)
    && source.path != [] && '\n' !in source.path && Trim(source.path) == source.path
    && length.Some?
    && source.first != 0 && source.first <= source.last <= Max(length.value, 1)
  }

  /** `update_branch`: move the branch, unless it no longer points at `expected`. */
  function UpdateBranch(repo: Repo, branch: string, id: string, expected: string): (Repo, bool) {
    if branch in repo.branches && repo.branches[branch] == expected
    then (repo.(branches := repo.branches[branch := id]), true)
    else (repo, false)
  }

  /** Read one entry back. */
  function ReadEntry(commits: seq<Commit>, id: string): Result<ReviewEntry, ReviewError> {
    match Entries(commits, [id])
    case Failure(e) => Failure(e)
    case Success(entries) => if entries == [] then Failure(WrongCount) else Success(entries[0])
  }

  function AddNote(
    repo: Repo, branch: string, message: string, source: Option<NoteSource>, length: Option<nat>, id: string)
    : (Repo, Result<ReviewEntry, ReviewError>)
  {
    var text := Trim(message);
    if text == [] then (repo, Failure(EmptyMessage)) else
      match ReadBranch(repo, branch)
      case Failure(e) => (repo, Failure(e))
      case Success(review) =>
        if source.Some? && !SourceAccepted(repo.commits, source.value, length) then (repo, Failure(InvalidSource)) else
          var note := EmptyCommit(id, review.tip, NoteMessage(text, source));
          var made := repo.(commits := repo.commits + [note]);
          var (moved, ok) := UpdateBranch(made, branch, id, review.tip);
          if !ok then (moved, Failure(BranchChanged)) else
            (moved, ReadEntry(moved.commits, id))
  }

  // The prefilter loses no marker.

  lemma {:induction false} TrailerKeyIsThere(trailers: seq<KeyValue>, key: string) returns (k: nat)
    requires Trailer(trailers, key).Some?
    ensures k < |trailers| && trailers[k].key == key
  {
    var last := |trailers| - 1;
    if trailers[last].key == key {
      k := last;
    } else {
      k := TrailerKeyIsThere(trailers[..last], key);
    }
  }

  lemma {:induction false} CollectedFrom<S, T>(f: S -> Option<T>, items: seq<S>, k: nat)
    requires CollectMap(f, items).Some? && k < |CollectMap(f, items).value|
    ensures k < |items| && f(items[k]) == Some(CollectMap(f, items).value[k])
  {
    if k > 0 {
      CollectedFrom(f, items[1..], k - 1);
    }
  }

  lemma KeyStartsLine(line: string)
    ensures TrailerLine(line).Some? ==> TrailerLine(line).value.key + ":" <= line
  {
    hide Trim, IsToken, FindFrom;
    if Find(line, ":").Some? {
      var k := Find(line, ":").value;
      assert line[..k] + line[k..k + 1] == line[..k + 1];
    }
  }

  lemma StartsLineInside(message: string, from: nat, paragraph: string, line: string, prefix: string, at: nat)
    requires from <= |message| && paragraph <= message[from..] && (from == 0 || message[from - 1] == '\n')
    requires StartsLine(paragraph, line, at) && prefix <= line
    ensures StartsLine(message, prefix, from + at)
  {
    assert paragraph[at..at + |prefix|] == line[..|prefix|] == prefix;
    assert message[from + at..from + at + |prefix|] == paragraph[at..at + |prefix|];
    assert at > 0 ==> message[from + at - 1] == paragraph[at - 1];
  }

  /**
    The line-prefix filter is sound: a message that has a trailer has a line that
    starts with its key and a colon.
   */
  lemma TrailerHasKeyLine(message: string, key: string)
    ensures Trailer(TrailersOf(message), key).Some? ==> HasKeyLine(message, key)
  {
    hide TrailerLine, Lines, CollectMap, Trailer, TrimEnd, RFindFrom;
    if Trailer(TrailersOf(message), key).None? { return; }
    var trailers := TrailersOf(message);
    var k := TrailerKeyIsThere(trailers, key);
    var whole := TrimEnd(message);
    assert RFind(whole, "\n\n").Some?;
    var split := RFind(whole, "\n\n").value;
    var paragraph := whole[split + 2..];
    var lines := Lines(paragraph);
    assert TrailerLines(lines) == Some(trailers);
    CollectedFrom(TrailerLine, lines, k);
    KeyStartsLine(lines[k]);
    var at := LineIsThere(paragraph, k);
    assert message[split + 1] == whole[split..split + 2][1] == '\n';
    StartsLineInside(message, split + 2, paragraph, lines[k], key + ":", at);
  }

  /** Whatever other tips the candidates were gathered for, scanning a history finds the same marker. */
  lemma {:induction false} CandidatesSuffice(
    commits: seq<Commit>, tips: seq<string>, history: seq<string>, branch: string, position: nat)
    requires forall k :: 0 <= k < |history| ==> history[k] in Reachable(commits, tips)
    ensures Scan(history, MarkerCandidates(commits, tips), branch, position) == ScanAll(commits, history, branch, position)
    decreases |history| - position
  {
    hide HasKeyLine, Trailer, TrailersOf, MarkerAt;
    if position < |history| {
      CandidatesSuffice(commits, tips, history, branch, position + 1);
      var id := history[position];
      if id !in MarkerCandidates(commits, tips) && Lookup(commits, id).Some? {
        UnfilteredIsUnmarked(Lookup(commits, id).value, branch);
      }
    }
  }

  lemma UnfilteredIsUnmarked(c: Commit, branch: string)
    requires !HasKeyLine(c.message, REVIEW_TRAILER) && !HasKeyLine(c.message, SUBJECT_TRAILER)
    ensures MarkerAt(c, branch) == Success(None)
  {
    hide HasKeyLine, Trailer, TrailersOf;
    TrailerHasKeyLine(c.message, REVIEW_TRAILER);
    TrailerHasKeyLine(c.message, SUBJECT_TRAILER);
  }

  /** Reading a branch among the candidates of many tips is reading it by itself. */
  lemma ReadAmongTips(commits: seq<Commit>, tips: seq<string>, k: nat, branch: string)
    requires k < |tips|
    ensures ReadBranchAt(commits, branch, tips[k], MarkerCandidates(commits, tips))
         == ReadBranchAt(commits, branch, tips[k], MarkerCandidates(commits, [tips[k]]))
         == BranchFrom(History(commits, tips[k]), tips[k], ScanAll(commits, History(commits, tips[k]), branch, 0))
  {
    hide MarkerCandidates, Scan, ScanAll, History;
    ReachableFromTip(commits, tips, k);
    ReachableFromTip(commits, [tips[k]], 0);
    CandidatesSuffice(commits, tips, History(commits, tips[k]), branch, 0);
    CandidatesSuffice(commits, [tips[k]], History(commits, tips[k]), branch, 0);
  }
}
