/** What any branch reads as, whoever made its commits, and what is refused. */
module StoredReviews {
  import opened Wrappers
  import opened Text
  import opened EditScripts
  import opened Locate
  import opened NoteSources
  import opened Trailers
  import opened Repositories
  import opened Reviews
  import opened ReadBack
  import opened Discovery
  import opened BranchNames

  // Trailers.

  /** A line is a trailer if it starts with a key of letters, digits and dashes before a colon. */
  lemma TrailerLineExactly(line: string, key: string, value: string)
    ensures TrailerLine(line) == Some(KeyValue(key, value))
       <==> && key != []
            && (forall k :: 0 <= k < |key| ==>
                  '0' <= key[k] <= '9' || 'a' <= key[k] <= 'z' || 'A' <= key[k] <= 'Z' || key[k] == '-')
            && exists rest :: line == key + ":" + rest && Trim(rest) == value
  {
    hide Trim;
    if TrailerLine(line) == Some(KeyValue(key, value)) {
      var rest := SplitOnce(line, ":").value.1;
      assert line == key + ":" + rest by { SplitParts(line); }
    }
    if IsToken(key) && exists rest :: line == key + ":" + rest && Trim(rest) == value {
      var rest :| line == key + ":" + rest && Trim(rest) == value;
      assert ':' !in key;
      SplitAtFirst(key, ':', rest);
      assert key + [':'] + rest == line;
    }
  }

  lemma SplitParts(line: string)
    ensures SplitOnce(line, ":").Some? ==> line == SplitOnce(line, ":").value.0 + ":" + SplitOnce(line, ":").value.1
  {
    if Find(line, ":").Some? {
      var k := Find(line, ":").value;
      assert line[k..k + 1] == ":" && line == line[..k] + line[k..k + 1] + line[k + 1..];
    }
  }

  lemma {:induction false} AllCollected<S, T>(f: S -> Option<T>, items: seq<S>)
    ensures CollectMap(f, items).Some? <==> forall k :: 0 <= k < |items| ==> f(items[k]).Some?
    ensures CollectMap(f, items).Some? ==>
              |CollectMap(f, items).value| == |items|
              && forall k :: 0 <= k < |items| ==> f(items[k]) == Some(CollectMap(f, items).value[k])
  {
    if items != [] {
      AllCollected(f, items[1..]);
      assert forall k :: 0 < k < |items| ==> items[k] == items[1..][k - 1];
      assert forall k :: 0 <= k < |items| - 1 ==> items[1..][k] == items[k + 1];
    }
  }

  /** The last paragraph of a message, if it is not the first, starts here. */
  ghost predicate StartsLastParagraph(message: string, split: nat) {
    At(message, "\n\n", split) && forall k :: split < k ==> !At(message, "\n\n", k)
  }

  /**
    A message has trailers if and only if it has a blank line, and all that is below the
    last one are trailer lines. They are its trailers then, and its text is what is above;
    otherwise all of it is text. Whitespace at the end of the message or the text is not.
   */
  lemma TrailersExactly(message: string, split: nat)
    requires StartsLastParagraph(TrimEnd(message), split)
    ensures var whole := TrimEnd(message);
            var lines, (text, trailers) := Lines(whole[split + 2..]), SplitTrailers(message);
            if lines != [] && forall k :: 0 <= k < |lines| ==> TrailerLine(lines[k]).Some? then
              && text == TrimEnd(whole[..split]) && |trailers| == |lines|
              && forall k :: 0 <= k < |lines| ==> Some(trailers[k]) == TrailerLine(lines[k])
            else text == whole && trailers == []
  {
    hide TrailerLine, Lines, TrimEnd;
    var whole := TrimEnd(message);
    assert RFind(whole, "\n\n") == Some(split);
    AllCollected(TrailerLine, Lines(whole[split + 2..]));
  }

  lemma NoBlankLineNoTrailers(message: string)
    requires forall k :: !At(TrimEnd(message), "\n\n", k)
    ensures SplitTrailers(message) == (TrimEnd(message), [])
  {
    hide TrimEnd;
  }

  /** Of several trailers of one key, the last one counts that says something. */
  lemma {:induction false} LastTrailerCounts(trailers: seq<KeyValue>, key: string, k: nat)
    requires k < |trailers| && trailers[k].key == key && trailers[k].value != []
    requires forall j :: k < j < |trailers| ==> trailers[j].key != key || trailers[j].value == []
    ensures Trailer(trailers, key) == Some(trailers[k].value)
  {
    if k < |trailers| - 1 { LastTrailerCounts(trailers[..|trailers| - 1], key, k); }
  }

  lemma {:induction false} NoSuchTrailer(trailers: seq<KeyValue>, key: string)
    requires forall j :: 0 <= j < |trailers| ==> trailers[j].key != key || trailers[j].value == []
    ensures Trailer(trailers, key) == None
  {
    if trailers != [] { NoSuchTrailer(trailers[..|trailers| - 1], key); }
  }

  /** What is stored: the messages of markers and notes, which other programs read, too. */
  lemma StoredMessages(revision: string, branch: string, subject: string, text: string, source: NoteSource)
    ensures MarkerMessage(revision, branch, subject)
         == "Start review of " + revision + "\n\n" + "Nota-Review" + ": " + branch + "\n" + "Nota-Subject" + ": " + subject + "\n"
    ensures NoteMessage(text, None) == text + "\n\n" + "Nota-Note" + ": true\n"
    ensures NoteMessage(text, Some(source)) == NoteMessage(text, None) + ("Nota-Source" + ": " + FormatSource(source) + "\n")
  {
    hide FormatSource;
    NothingAppended(text + "\n\n" + "Nota-Note" + ": true\n");
  }

  lemma NothingAppended(s: string)
    ensures s + "" == s
  {
  }

  lemma RSplitParts(s: string)
    ensures RSplitOnce(s, ":").Some? ==> s == RSplitOnce(s, ":").value.0 + ":" + RSplitOnce(s, ":").value.1
  {
    if RFind(s, ":").Some? {
      var k := RFind(s, ":").value;
      assert s[k..k + 1] == ":" && s == s[..k] + s[k..k + 1] + s[k + 1..];
    }
  }

  lemma DashParts(s: string)
    ensures SplitOnce(s, "-").Some? ==> s == SplitOnce(s, "-").value.0 + "-" + SplitOnce(s, "-").value.1
  {
    if Find(s, "-").Some? {
      var k := Find(s, "-").value;
      assert s[k..k + 1] == "-" && s == s[..k] + s[k..k + 1] + s[k + 1..];
    }
  }

  lemma NumberText(s: string)
    requires ParseUsize(s).Some?
    ensures ':' !in s && '-' !in s
  {
    var digits := if s != [] && s[0] == '+' then s[1..] else s;
    assert AllDigits(digits);
    forall k | 0 <= k < |s| ensures s[k] != ':' && s[k] != '-' {
      if s != digits && k > 0 { assert s[k] == digits[k - 1]; }
    }
  }

  /** A source as it may be written: with the first and the last line as any numbers that Rust reads. */
  ghost predicate IsSourceText(value: string, source: NoteSource) {
    && (|source.revision| == 40 || |source.revision| == 64)
    && (forall k :: 0 <= k < |source.revision| ==> '0' <= source.revision[k] <= '9' || 'a' <= source.revision[k] <= 'f')
    && source.path != [] && 1 <= source.first <= source.last
    && exists first, last ::
         && ParseUsize(first) == Some(source.first) && ParseUsize(last) == Some(source.last)
         && value == source.revision + ":" + (source.path + ":" + (first + "-" + last))
  }

  /** What is read as a source is exactly a full commit id, a path, and a range of lines from 1 on. */
  lemma SourceReadsExactly(value: string, source: NoteSource)
    ensures ParseSource(value) == Success(source) <==> IsSourceText(value, source)
  {
    hide ParseUsize, SplitOnce, RSplitOnce;
    if ParseSource(value) == Success(source) {
      SplitParts(value);
      var rest := SplitOnce(value, ":").value.1;
      RSplitParts(rest);
      DashParts(RSplitOnce(rest, ":").value.1);
    }
    if IsSourceText(value, source) {
      SourceTextReads(value, source);
    }
  }

  lemma SourceTextReads(value: string, source: NoteSource)
    requires IsSourceText(value, source)
    ensures ParseSource(value) == Success(source)
  {
    hide ParseUsize, SplitOnce, RSplitOnce;
    var first, last :| ParseUsize(first) == Some(source.first) && ParseUsize(last) == Some(source.last)
                       && value == source.revision + ":" + (source.path + ":" + (first + "-" + last));
    NumberText(first);
    NumberText(last);
    var lines := first + "-" + last;
    NoColonInCommitId(source.revision);
    SplitAtFirst(source.revision, ':', source.path + ":" + lines);
    SplitAtLast(source.path, ':', lines);
    SplitAtFirst(first, '-', last);
  }

  // Markers.

  /** What the commit says that it starts a review of, and on which branch. */
  function ReviewSaid(c: Commit): Option<string> { Trailer(TrailersOf(c.message), "Nota-Review") }

  function SubjectSaid(c: Commit): Option<string> { Trailer(TrailersOf(c.message), "Nota-Subject") }

  ghost predicate SaysNeither(commits: seq<Commit>, id: string) {
    var c := Lookup(commits, id); c.Some? && ReviewSaid(c.value).None? && SubjectSaid(c.value).None?
  }

  /**
    Reading a branch is decided by the commit nearest its tip that says either: it must say
    both, name its own first parent and this branch. The entries are then all commits above.
   */
  lemma NearestMarkerDecides(repo: Repo, branch: string, n: nat, c: Commit)
    requires Valid(repo) && branch in repo.branches
    requires var h := History(repo.commits, repo.branches[branch]);
             && n < |h| && Lookup(repo.commits, h[n]) == Some(c)
             && (forall k :: 0 <= k < n ==> SaysNeither(repo.commits, h[k]))
    requires ReviewSaid(c).Some? || SubjectSaid(c).Some?
    ensures var r, h := ReadBranch(repo, branch), History(repo.commits, repo.branches[branch]);
            if ReviewSaid(c).None? then r == Failure(NoReviewTrailer)
            else if SubjectSaid(c).None? then r == Failure(NoSubjectTrailer)
            else if c.firstParent != SubjectSaid(c) then r == Failure(InvalidSubject)
            else if ReviewSaid(c).value != branch then r == Failure(WrongBranch)
            else
              && r.Success? && r.value.marker == h[n] && Some(r.value.subject) == c.firstParent
              && r.value.tip == repo.branches[branch] && |r.value.entries| == n
              && forall k :: 0 <= k < n ==> r.value.entries[k] == h[n - 1 - k]
  {
    hide TrailersOf, Trailer, MarkerCandidates, Scan, ScanAll, History, Valid, ReadBranchAt;
    var tip := repo.branches[branch];
    var h := History(repo.commits, tip);
    forall k | 0 <= k < n ensures var c := Lookup(repo.commits, h[k]); c.Some? && Unmarked(c.value.message) {
      assert SaysNeither(repo.commits, h[k]);
    }
    ScanFinds(repo.commits, h, branch, 0, n, MarkerAt(c, branch));
    ReadAmongTips(repo.commits, [tip], 0, branch);
  }

  lemma {:induction false} NothingFound(commits: seq<Commit>, history: seq<string>, branch: string, position: nat)
    requires forall k :: position <= k < |history| ==> SaysNeither(commits, history[k])
    ensures ScanAll(commits, history, branch, position) == Success(None)
    decreases |history| - position
  {
    hide TrailersOf, Trailer;
    if position < |history| {
      assert SaysNeither(commits, history[position]);
      NothingFound(commits, history, branch, position + 1);
    }
  }

  /** A branch whose history says nothing of the kind is no review. */
  lemma NoMarkerNoReview(repo: Repo, branch: string)
    requires Valid(repo)
    ensures branch !in repo.branches ==> ReadBranch(repo, branch) == Failure(NoBranch)
    ensures branch in repo.branches
            && (forall k :: 0 <= k < |History(repo.commits, repo.branches[branch])| ==>
                  SaysNeither(repo.commits, History(repo.commits, repo.branches[branch])[k])) ==>
              ReadBranch(repo, branch) == Failure(NotAReview)
  {
    hide TrailersOf, Trailer, MarkerCandidates, Scan, ScanAll, History, Valid, ReadBranchAt, SaysNeither;
    if branch in repo.branches {
      var tip := repo.branches[branch];
      if forall k :: 0 <= k < |History(repo.commits, tip)| ==> SaysNeither(repo.commits, History(repo.commits, tip)[k]) {
        NothingFound(repo.commits, History(repo.commits, tip), branch, 0);
        ReadAmongTips(repo.commits, [tip], 0, branch);
      }
    }
  }

  // Entries.

  /** A commit with a note's trailer is a note. */
  predicate IsNote(c: Commit) { Trailer(TrailersOf(c.message), "Nota-Note").Some? }

  /** `e` is what the commit says: a note without files and with a text, or a suggestion with both. */
  predicate SaysEntry(c: Commit, e: ReviewEntry) {
    && e.commit == c.id && e.paths == c.paths && !Blank(e.message)
    && (if IsNote(c) then
          && e.kind == Note && c.paths == [] && e.message == SplitTrailers(c.message).0
          && (match Trailer(TrailersOf(c.message), "Nota-Source")
              case None => e.source == None
              case Some(value) => e.source.Some? && ParseSource(value) == Success(e.source.value))
        else
          e.kind == Suggestion && c.paths != [] && e.message == c.message && e.source == None)
  }

  /** What is wrong with the commit. */
  predicate IsWrong(c: Commit, e: ReviewError) {
    match e
    case NoteChangesFiles => IsNote(c) && c.paths != []
    case NoteWithoutText => IsNote(c) && c.paths == [] && Blank(SplitTrailers(c.message).0)
    case UnreadableSource =>
      && IsNote(c) && c.paths == [] && !Blank(SplitTrailers(c.message).0)
      && (match Trailer(TrailersOf(c.message), "Nota-Source") case None => false case Some(value) => ParseSource(value).Failure?)
    case EmptySuggestion => !IsNote(c) && Blank(c.message)
    case SuggestionWithoutFiles => !IsNote(c) && !Blank(c.message) && c.paths == []
    case _ => false
  }

  ghost predicate SaysSomething(c: Commit) { exists e :: SaysEntry(c, e) }

  lemma CommitSays(c: Commit, e: ReviewEntry, error: ReviewError)
    ensures EntryOf(c) == Success(e) <==> SaysEntry(c, e)
    ensures EntryOf(c) == Failure(error) <==> IsWrong(c, error)
  {
    hide SplitTrailers, Trailer, Trim, ParseSource, Blank;
    TrimFacts(SplitTrailers(c.message).0);
    TrimFacts(c.message);
  }

  lemma {:induction false} EntriesDecide(commits: seq<Commit>, entries: seq<ReviewEntry>)
    ensures EntriesOf(commits) == Success(entries)
       <==> |entries| == |commits| && forall k :: 0 <= k < |commits| ==> SaysEntry(commits[k], entries[k])
    decreases |commits|
  {
    hide EntryOf, SaysEntry;
    if commits != [] && entries != [] {
      CommitSays(commits[0], entries[0], WrongCount);
      EntriesDecide(commits[1..], entries[1..]);
      assert entries == [entries[0]] + entries[1..];
      assert forall k :: 0 < k < |commits| ==> commits[k] == commits[1..][k - 1];
      assert |entries| == |commits| ==> forall k :: 0 < k < |commits| ==> entries[k] == entries[1..][k - 1];
      assert forall k :: 0 <= k < |commits| - 1 ==> commits[1..][k] == commits[k + 1];
      assert |entries| == |commits| ==> forall k :: 0 <= k < |commits| - 1 ==> entries[1..][k] == entries[k + 1];
    } else if commits != [] {
      EntriesAreNot(commits);
    }
  }

  lemma EntriesAreNot(commits: seq<Commit>)
    requires commits != []
    ensures EntriesOf(commits) != Success([])
  {
    hide EntryOf;
  }

  lemma {:induction false} FirstWrongDecides(commits: seq<Commit>, k: nat, error: ReviewError)
    requires k < |commits| && IsWrong(commits[k], error)
    requires forall j :: 0 <= j < k ==> SaysSomething(commits[j])
    ensures EntriesOf(commits) == Failure(error)
    decreases |commits|
  {
    hide EntryOf, SaysEntry, IsWrong, SaysSomething;
    if k == 0 {
      CommitSays(commits[0], ReviewEntry("", "", Note, [], None), error);
    } else {
      var e := WhatItSays(commits[0]);
      CommitSays(commits[0], e, error);
      assert forall j :: 0 <= j < k - 1 ==> commits[1..][j] == commits[j + 1];
      FirstWrongDecides(commits[1..], k - 1, error);
    }
  }

  lemma WhatItSays(c: Commit) returns (e: ReviewEntry)
    requires SaysSomething(c)
    ensures SaysEntry(c, e)
  {
    e :| SaysEntry(c, e);
  }

  lemma {:induction false} AllRead(commits: seq<Commit>, ids: seq<string>, read: seq<Commit>)
    requires |read| == |ids| && forall k :: 0 <= k < |ids| ==> Lookup(commits, ids[k]) == Some(read[k])
    ensures ReadCommits(commits, ids) == read
  {
    hide Lookup;
    if ids != [] {
      AllRead(commits, ids[1..], read[1..]);
      assert read == [read[0]] + read[1..];
    }
  }

  /**
    A branch that reads as a review loads if and only if each of its commits says an entry,
    and as these; otherwise the first commit that is wrong, from the oldest on, is reported.
   */
  lemma CommitsDecide(repo: Repo, branch: string, read: seq<Commit>, entries: seq<ReviewEntry>, k: nat, error: ReviewError)
    requires ReadBranch(repo, branch).Success?
    requires var ids := ReadBranch(repo, branch).value.entries;
             |read| == |ids| && forall k :: 0 <= k < |ids| ==> Lookup(repo.commits, ids[k]) == Some(read[k])
    ensures var b := ReadBranch(repo, branch).value;
            LoadReview(repo, branch) == Success(Review(branch, b.marker, b.subject, entries))
            <==> |entries| == |read| && forall k :: 0 <= k < |read| ==> SaysEntry(read[k], entries[k])
    ensures k < |read| && IsWrong(read[k], error) && (forall j :: 0 <= j < k ==> SaysSomething(read[j])) ==>
              LoadReview(repo, branch) == Failure(error)
  {
    hide ReadBranch, EntriesOf, SaysEntry, IsWrong, Lookup, SaysSomething;
    AllRead(repo.commits, ReadBranch(repo, branch).value.entries, read);
    EntriesDecide(read, entries);
    if k < |read| && IsWrong(read[k], error) && (forall j :: 0 <= j < k ==> SaysSomething(read[j])) {
      FirstWrongDecides(read, k, error);
    }
  }

  lemma {:induction false} HowManyRead(commits: seq<Commit>, ids: seq<string>)
    ensures |ReadCommits(commits, ids)| <= |ids|
    ensures |ReadCommits(commits, ids)| == |ids| <==> forall k :: 0 <= k < |ids| ==> Lookup(commits, ids[k]).Some?
  {
    hide Lookup;
    if ids != [] {
      HowManyRead(commits, ids[1..]);
      assert forall k :: 0 < k < |ids| ==> ids[k] == ids[1..][k - 1];
      assert forall k :: 0 <= k < |ids| - 1 ==> ids[1..][k] == ids[k + 1];
    }
  }

  lemma {:induction false} NoWrongCount(commits: seq<Commit>)
    ensures EntriesOf(commits) != Failure(WrongCount)
  {
    hide EntryOf;
    if commits != [] {
      CommitSays(commits[0], ReviewEntry("", "", Note, [], None), WrongCount);
      NoWrongCount(commits[1..]);
    }
  }

  /** Entries are refused for their number if and only if some of them has no commit. */
  lemma MissingCommitIsNoticed(commits: seq<Commit>, ids: seq<string>)
    ensures Entries(commits, ids) == Failure(WrongCount) <==> exists k :: 0 <= k < |ids| && Lookup(commits, ids[k]).None?
  {
    hide EntriesOf, ReadCommits, Lookup;
    HowManyRead(commits, ids);
    NoWrongCount(ReadCommits(commits, ids));
  }

  /**
    A review is started if and only if the revision names a commit, Git accepts the branch's
    name and there is no such branch; or the first of these that fails is reported.
   */
  lemma ReviewIsStartedExactlyWhen(
    repo: Repo, revision: string, subject: Option<string>, branch: string, accepted: bool, id: string)
    ensures var (repo', r) := StartReview(repo, revision, subject, branch, accepted, id);
            && (r == Failure(UnknownRevision) <==> subject == None)
            && (r == Failure(InvalidBranchName) <==> subject != None && !accepted)
            && (r == Failure(BranchExists) <==> subject != None && accepted && branch in repo.branches)
            && (r.Success? <==> subject != None && accepted && branch !in repo.branches)
            && (r.Failure? ==> repo' == repo)
  {
    hide MarkerMessage;
  }

  // Notes that are refused.

  /** The source names a commit by its full id, a file of it by a path that a trailer can hold, and lines of the file. */
  lemma SourceAcceptedExactly(commits: seq<Commit>, source: NoteSource, text: seq<Line>)
    ensures SourceAccepted(commits, source, Some(|text|))
       <==> && HasCommit(commits, source.revision)
            && source.path != [] && '\n' !in source.path && Trimmed(source.path)
            && LinesInText(source, text)
    ensures !SourceAccepted(commits, source, None)
  {
    hide TrimStart, TrimEnd, HasCommit;
    TrimFacts(source.path);
  }

  /** A note on a review is added exactly with some text and a source like that, and refused for the first that is wrong. */
  lemma NoteIsAddedExactlyWhen(
    repo: Repo, branch: string, marker: string, subject: string, entries: seq<ReviewEntry>,
    message: string, source: Option<NoteSource>, text: Option<seq<Line>>, id: string)
    requires InReview(repo, branch, marker, subject, entries) && FreshId(repo, id)
    requires text.Some? ==> |text.value| <= USIZE_MAX
    ensures var length := if text.Some? then Some(|text.value|) else None;
            var (repo', r) := AddNote(repo, branch, message, source, length, id);
            var good := source.Some? ==>
                          && HasCommit(repo.commits, source.value.revision)
                          && source.value.path != [] && '\n' !in source.value.path && Trimmed(source.value.path)
                          && text.Some? && LinesInText(source.value, text.value);
            if Blank(message) then r == Failure(EmptyMessage) && repo' == repo
            else if !good then r == Failure(InvalidSource) && repo' == repo
            else
              && r == Success(ReviewEntry(id, Trim(message), Note, [], source))
              && InReview(repo', branch, marker, subject, entries + [r.value])
  {
    hide InReview, Trim, NoteMessage, ReadBranch, ReadEntry, HasCommit, Blank, IsCommitId;
    var length := if text.Some? then Some(|text.value|) else None;
    TrimFacts(message);
    AddNoteAppends(repo, branch, marker, subject, entries, message, source, length, id);
    if source.Some? { SourceAcceptedExactly(repo.commits, source.value, if text.Some? then text.value else []); }
    InReviewReads(repo, branch, marker, subject, entries);
  }

  // Counts and names.

  /** The places of the entries of a kind. */
  function PlacesOf(entries: seq<ReviewEntry>, kind: Kind): set<nat> { set k | 0 <= k < |entries| && entries[k].kind == kind }

  lemma OnePlaceMore(entries: seq<ReviewEntry>, e: ReviewEntry, kind: Kind)
    ensures PlacesOf(entries + [e], kind) == PlacesOf(entries, kind) + (if e.kind == kind then {|entries|} else {})
    ensures |PlacesOf(entries + [e], kind)| == |PlacesOf(entries, kind)| + (if e.kind == kind then 1 else 0)
  {
    assert |entries| !in PlacesOf(entries, kind);
    assert PlacesOf(entries + [e], kind) == PlacesOf(entries, kind) + (if e.kind == kind then {|entries|} else {});
  }

  /** A listed review counts all its entries, each as what it is. */
  lemma {:induction false} CountsAreRight(entries: seq<ReviewEntry>, kind: Kind)
    ensures Count(entries, kind) == |PlacesOf(entries, kind)|
    ensures Count(entries, Note) + Count(entries, Suggestion) == |entries|
  {
    hide PlacesOf;
    if entries == [] {
      assert PlacesOf(entries, kind) == {} by { NoPlaces(kind); }
    } else {
      var front, last := entries[..|entries| - 1], entries[|entries| - 1];
      CountsAreRight(front, kind);
      OnePlaceMore(front, last, kind);
      assert front + [last] == entries;
    }
  }

  lemma NoPlaces(kind: Kind)
    ensures PlacesOf([], kind) == {}
  {
  }

  /**
    The names that are tried for a review without a name: after the branch checked out, for
    `HEAD`; after the branch named; and otherwise after the start of the commit's id.
   */
  lemma NamesAreTriedInOrder(taken: set<string>, revision: string, head: Option<string>, subject: string)
    requires |subject| >= 12
    ensures var name := DefaultName(taken, revision, head, subject);
            var source := if revision == "HEAD" && head.Some? then head.value
                          else if revision != "HEAD" && revision in taken then revision else subject[..12];
            var base := "nota/review-" + source;
            && (base !in taken ==> name == base)
            && (base in taken && base + "-2" !in taken ==> name == base + "-2")
            && (base in taken && base + "-2" in taken && base + "-3" !in taken ==> name == base + "-3")
  {
    hide Candidate;
    var base := BaseName(taken, revision, head, subject);
    DefaultNameIsFirstFree(taken, revision, head, subject);
    FirstFreeIsFirst(taken, base, 0);
    ThreeCandidates(base);
  }

  lemma ThreeCandidates(base: string)
    ensures Candidate(base, 0) == base && Candidate(base, 1) == base + "-2" && Candidate(base, 2) == base + "-3"
  {
    assert Decimal(2) == "2" && Decimal(3) == "3";
    assert base + "-" + "2" == base + "-2" && base + "-" + "3" == base + "-3";
  }
}
