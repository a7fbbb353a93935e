/** Finding the reviews of a repository in one pass over its branches. */
module Discovery {
  import opened Wrappers
  import opened Text
  import opened Sorting
  import opened Trailers
  import opened Repositories
  import opened Reviews

  datatype ReviewSummary = ReviewSummary(
    branch: string, marker: string, subject: string, tip: string, notes: nat, suggestions: nat)

  datatype ReviewDiagnostic = ReviewDiagnostic(branch: string, error: ReviewError)

  datatype ReviewIndex = ReviewIndex(reviews: seq<ReviewSummary>, diagnostics: seq<ReviewDiagnostic>)

  /** A local branch and its tip. */
  datatype Ref = Ref(name: string, tip: string)

  predicate ByName(a: Ref, b: Ref) { NotAfter(a.name, b.name) }

  lemma ByNameOrders()
    ensures TotalPreorder(ByName)
  {
    forall a: Ref, b: Ref ensures ByName(a, b) || ByName(b, a) { NotAfterTotal(a.name, b.name); }
    forall a: Ref, b: Ref, c: Ref | ByName(a, b) && ByName(b, c) ensures ByName(a, c) {
      NotAfterTransitive(a.name, b.name, c.name);
    }
  }

  /** `refs` are the branches of the repository, each once, in some order. */
  ghost predicate Lists(repo: Repo, refs: seq<Ref>) {
    && (forall k :: 0 <= k < |refs| ==> refs[k].name in repo.branches && repo.branches[refs[k].name] == refs[k].tip)
    && (forall name :: name in repo.branches ==> exists k :: 0 <= k < |refs| && refs[k].name == name)
    && (forall j, k :: 0 <= j < k < |refs| ==> refs[j].name != refs[k].name)
  }

  function Tips(refs: seq<Ref>): (r: seq<string>)
    ensures |r| == |refs| && forall k :: 0 <= k < |refs| ==> r[k] == refs[k].tip
  {
    seq(|refs|, k requires 0 <= k < |refs| => refs[k].tip)
  }

  function Count(entries: seq<ReviewEntry>, kind: Kind): nat {
    if entries == [] then 0 else Count(entries[..|entries| - 1], kind) + (if entries[|entries| - 1].kind == kind then 1 else 0)
  }

  /** What one branch contributes: a summary, nothing, or an error. */
  function Summarise(commits: seq<Commit>, markers: map<string, Commit>, subject: Option<string>, ref: Ref)
    : Result<Option<ReviewSummary>, ReviewError>
  {
    match ReadBranchAt(commits, ref.name, ref.tip, markers)
    case Failure(e) => Failure(e)
    case Success(None) => Success(None)
    case Success(Some(b)) =>
      if subject.Some? && subject.value != b.subject then Success(None) else
        match Entries(commits, b.entries)
        case Failure(e) => Failure(e)
        case Success(entries) =>
          Success(Some(ReviewSummary(ref.name, b.marker, b.subject, b.tip, Count(entries, Note), Count(entries, Suggestion))))
  }

  function AddTo(index: ReviewIndex, ref: Ref, summary: Result<Option<ReviewSummary>, ReviewError>): ReviewIndex {
    match summary
    case Success(None) => index
    case Success(Some(s)) => index.(reviews := index.reviews + [s])
    case Failure(e) => index.(diagnostics := index.diagnostics + [ReviewDiagnostic(ref.name, e)])
  }

  /** The index of `refs`, in their order. */
  function IndexOf(commits: seq<Commit>, markers: map<string, Commit>, subject: Option<string>, refs: seq<Ref>): ReviewIndex
    decreases |refs|
  {
    if refs == [] then ReviewIndex([], []) else
      var last := refs[|refs| - 1];
      AddTo(IndexOf(commits, markers, subject, refs[..|refs| - 1]), last, Summarise(commits, markers, subject, last))
  }

  /** The index of a repository whose branches Git lists as `refs`. */
  function Listing(commits: seq<Commit>, subject: Option<string>, refs: seq<Ref>): ReviewIndex {
    var sorted := Sort(ByName, refs);
    IndexOf(commits, MarkerCandidates(commits, Tips(sorted)), subject, sorted)
  }

  // Without any marker candidate there is nothing to list.

  lemma {:induction false} NoCandidateNoMarker(history: seq<string>, branch: string, position: nat)
    ensures Scan(history, map[], branch, position) == Success(None)
    decreases |history| - position
  {
    if position < |history| {
      NoCandidateNoMarker(history, branch, position + 1);
    }
  }

  lemma {:induction false} NoCandidateNoReview(commits: seq<Commit>, subject: Option<string>, refs: seq<Ref>)
    ensures IndexOf(commits, map[], subject, refs) == ReviewIndex([], [])
    decreases |refs|
  {
    hide Scan;
    if refs != [] {
      var last := refs[|refs| - 1];
      NoCandidateNoMarker(History(commits, last.tip), last.name, 0);
      NoCandidateNoReview(commits, subject, refs[..|refs| - 1]);
    }
  }

  // What is in an index.

  lemma {:induction false} InIndex(
    commits: seq<Commit>, markers: map<string, Commit>, subject: Option<string>, refs: seq<Ref>, s: ReviewSummary)
    ensures s in IndexOf(commits, markers, subject, refs).reviews
       <==> exists k :: 0 <= k < |refs| && Summarise(commits, markers, subject, refs[k]) == Success(Some(s))
    decreases |refs|
  {
    hide Summarise;
    if refs != [] {
      var front := refs[..|refs| - 1];
      InIndex(commits, markers, subject, front, s);
      assert forall k :: 0 <= k < |front| ==> front[k] == refs[k];
    }
  }

  lemma {:induction false} InDiagnostics(
    commits: seq<Commit>, markers: map<string, Commit>, subject: Option<string>, refs: seq<Ref>, d: ReviewDiagnostic)
    ensures d in IndexOf(commits, markers, subject, refs).diagnostics
       <==> exists k :: 0 <= k < |refs| && refs[k].name == d.branch
                        && Summarise(commits, markers, subject, refs[k]) == Failure(d.error)
    decreases |refs|
  {
    hide Summarise;
    if refs != [] {
      var front := refs[..|refs| - 1];
      InDiagnostics(commits, markers, subject, front, d);
      assert forall k :: 0 <= k < |front| ==> front[k] == refs[k];
    }
  }

  ghost predicate OrderedByBranch(reviews: seq<ReviewSummary>) {
    forall i, j :: 0 <= i < j < |reviews| ==>
      NotAfter(reviews[i].branch, reviews[j].branch) && reviews[i].branch != reviews[j].branch
  }

  ghost predicate OrderedRefs(refs: seq<Ref>) {
    forall i, j :: 0 <= i < j < |refs| ==> NotAfter(refs[i].name, refs[j].name) && refs[i].name != refs[j].name
  }

  lemma {:induction false} IndexIsOrdered(
    commits: seq<Commit>, markers: map<string, Commit>, subject: Option<string>, refs: seq<Ref>)
    requires OrderedRefs(refs)
    ensures var reviews := IndexOf(commits, markers, subject, refs).reviews;
            && OrderedByBranch(reviews)
            && forall i :: 0 <= i < |reviews| ==> exists k :: 0 <= k < |refs| && refs[k].name == reviews[i].branch
    decreases |refs|
  {
    hide ReadBranchAt, Entries, Count, NotAfter;
    if refs != [] {
      var front := refs[..|refs| - 1];
      IndexIsOrdered(commits, markers, subject, front);
      assert forall k :: 0 <= k < |front| ==> front[k] == refs[k];
    }
  }

  // Listing and loading agree.

  /** What a listing says of a review that loads. */
  function SummaryOf(review: Review, tip: string): ReviewSummary {
    ReviewSummary(review.branch, review.marker, review.subject, tip,
                  Count(review.entries, Note), Count(review.entries, Suggestion))
  }

  /** What loading `branch` leads a query for `subject` to say of it. */
  function Expected(repo: Repo, subject: Option<string>, branch: string): Result<Option<ReviewSummary>, ReviewError>
    requires branch in repo.branches
  {
    match ReadBranch(repo, branch)
    case Failure(NotAReview) => Success(None)
    case Failure(e) => Failure(e)
    case Success(b) =>
      if subject.Some? && subject.value != b.subject then Success(None) else
        match LoadReview(repo, branch)
        case Success(review) => Success(Some(SummaryOf(review, repo.branches[branch])))
        case Failure(e) => Failure(e)
  }

  lemma {:induction false} ScanErrors(commits: seq<Commit>, history: seq<string>, branch: string, position: nat)
    ensures ScanAll(commits, history, branch, position) != Failure(NotAReview)
    ensures ScanAll(commits, history, branch, position).Success? && ScanAll(commits, history, branch, position).value.Some?
        ==> ScanAll(commits, history, branch, position).value.value.0 < |history|
    decreases |history| - position
  {
    hide TrailersOf;
    if position < |history| {
      ScanErrors(commits, history, branch, position + 1);
    }
  }

  /** Among the candidates of all tips, a branch is summarised as loading it says. */
  lemma SummaryIsExpected(repo: Repo, subject: Option<string>, refs: seq<Ref>, k: nat)
    requires k < |refs| && refs[k].name in repo.branches && repo.branches[refs[k].name] == refs[k].tip
    ensures Summarise(repo.commits, MarkerCandidates(repo.commits, Tips(refs)), subject, refs[k])
         == Expected(repo, subject, refs[k].name)
  {
    hide MarkerCandidates, Scan, ScanAll, History, Entries, Count, Tips;
    var ref := refs[k];
    ReadAmongTips(repo.commits, Tips(refs), k, ref.name);
    ReadAmongTips(repo.commits, [ref.tip], 0, ref.name);
    ScanErrors(repo.commits, History(repo.commits, ref.tip), ref.name, 0);
  }

  lemma ListedAreDistinct(repo: Repo, refs: seq<Ref>)
    requires Lists(repo, refs)
    ensures Distinct(refs)
  {
  }

  lemma RearrangedLists(repo: Repo, refs: seq<Ref>, sorted: seq<Ref>)
    requires Lists(repo, refs) && multiset(sorted) == multiset(refs)
    ensures Lists(repo, sorted)
  {
    ListedAreDistinct(repo, refs);
    RearrangedIsDistinct(refs, sorted);
    forall k | 0 <= k < |sorted|
      ensures sorted[k].name in repo.branches && repo.branches[sorted[k].name] == sorted[k].tip
    {
      assert sorted[k] in refs;
    }
    forall name | name in repo.branches ensures exists k :: 0 <= k < |sorted| && sorted[k].name == name {
      var k :| 0 <= k < |refs| && refs[k].name == name;
      assert refs[k] in sorted;
    }
  }

  lemma SortedLists(repo: Repo, refs: seq<Ref>)
    requires Lists(repo, refs)
    ensures Lists(repo, Sort(ByName, refs)) && OrderedRefs(Sort(ByName, refs))
  {
    hide NotAfter, Sort;
    ByNameOrders();
    SortSorts(ByName, refs);
    RearrangedLists(repo, refs, Sort(ByName, refs));
  }

  /**
    One-pass discovery says of every branch what reading it by itself says: it is
    listed with its own counts exactly when it loads and has the subject asked for,
    reported with its error exactly when it has a marker and still does not load,
    and left out otherwise. The reviews are in the order of their branch names.
   */
  lemma ListingRefinesLoading(repo: Repo, subject: Option<string>, refs: seq<Ref>)
    requires Lists(repo, refs)
    ensures var index := Listing(repo.commits, subject, refs);
            && OrderedByBranch(index.reviews)
            && (forall s :: s in index.reviews <==>
                 s.branch in repo.branches && Expected(repo, subject, s.branch) == Success(Some(s)))
            && (forall d :: d in index.diagnostics <==>
                 d.branch in repo.branches && Expected(repo, subject, d.branch) == Failure(d.error))
  {
    hide MarkerCandidates, Summarise, Sort, Expected, IndexOf, Tips;
    var sorted := Sort(ByName, refs);
    var markers := MarkerCandidates(repo.commits, Tips(sorted));
    SortedLists(repo, refs);
    IndexIsOrdered(repo.commits, markers, subject, sorted);
    forall k | 0 <= k < |sorted|
      ensures Summarise(repo.commits, markers, subject, sorted[k]) == Expected(repo, subject, sorted[k].name)
    {
      SummaryIsExpected(repo, subject, sorted, k);
    }
    var index := Listing(repo.commits, subject, refs);
    forall s ensures s in index.reviews <==> s.branch in repo.branches && Expected(repo, subject, s.branch) == Success(Some(s)) {
      InIndex(repo.commits, markers, subject, sorted, s);
      ExpectedNames(repo, subject, sorted, s);
    }
    forall d ensures d in index.diagnostics <==> d.branch in repo.branches && Expected(repo, subject, d.branch) == Failure(d.error) {
      InDiagnostics(repo.commits, markers, subject, sorted, d);
    }
  }

  lemma ExpectedNames(repo: Repo, subject: Option<string>, refs: seq<Ref>, s: ReviewSummary)
    ensures forall branch :: branch in repo.branches && Expected(repo, subject, branch) == Success(Some(s)) ==> branch == s.branch
  {
    hide ReadBranch, Entries, Count;
  }

  lemma OneEntryError(c: Commit)
    ensures EntryOf(c) != Failure(NotAReview)
  {
    hide SplitTrailers, Trailer, ParseSource, Trim;
  }

  lemma {:induction false} EntryErrors(commits: seq<Commit>)
    ensures EntriesOf(commits) != Failure(NotAReview)
  {
    hide EntryOf;
    if commits != [] {
      OneEntryError(commits[0]);
      EntryErrors(commits[1..]);
    }
  }

  /**
    With nothing asked for, a branch is listed exactly when its review loads, and
    reported exactly when it fails to load as a review that it is.
   */
  lemma EverythingLoadableIsListed(repo: Repo, refs: seq<Ref>, branch: string)
    requires Lists(repo, refs) && branch in repo.branches
    ensures var index := Listing(repo.commits, None, refs);
            var loaded := LoadReview(repo, branch);
            && (loaded.Success? <==> exists s :: s in index.reviews && s.branch == branch)
            && (loaded.Success? ==> SummaryOf(loaded.value, repo.branches[branch]) in index.reviews)
            && ((exists d :: d in index.diagnostics && d.branch == branch)
                  <==> loaded.Failure? && loaded.error != NotAReview)
            && (forall d :: d in index.diagnostics && d.branch == branch ==> loaded == Failure(d.error))
  {
    hide ReadBranch, EntriesOf, Count, Listing, Lists, OrderedByBranch;
    ListingRefinesLoading(repo, None, refs);
    var index := Listing(repo.commits, None, refs);
    var loaded := LoadReview(repo, branch);
    if ReadBranch(repo, branch).Success? {
      EntryErrors(ReadCommits(repo.commits, ReadBranch(repo, branch).value.entries));
    }
    if loaded.Success? {
      assert SummaryOf(loaded.value, repo.branches[branch]).branch == branch;
    } else if ReadBranch(repo, branch) != Failure(NotAReview) {
      assert ReviewDiagnostic(branch, loaded.error) in index.diagnostics;
    }
  }
}
