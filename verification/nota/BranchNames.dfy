/** The name of a new review branch, when none is given. */
module BranchNames {
  import opened Wrappers
  import opened Text
  import opened Locate

  /** `base`, `base-2`, `base-3` and so on. */
  function Candidate(base: string, k: nat): string {
    if k == 0 then base else base + "-" + Decimal(k + 1)
  }

  /** The branch that `revision` names, `head` being the checked-out one, or else a short commit id. */
  function SourceName(taken: set<string>, revision: string, head: Option<string>, subject: string): string {
    var source := if revision == "HEAD" then head else if revision in taken then Some(revision) else None;
    match source case Some(branch) => branch case None => subject[..Min(|subject|, 12)]
  }

  function BaseName(taken: set<string>, revision: string, head: Option<string>, subject: string): string {
    "nota/review-" + SourceName(taken, revision, head, subject)
  }

  lemma CandidatesDiffer(base: string, j: nat, k: nat)
    requires j != k
    ensures Candidate(base, j) != Candidate(base, k)
  {
    hide Decimal;
    var a, b := Candidate(base, j), Candidate(base, k);
    assert DigitsValue(Decimal(j + 1)) == j + 1 && DigitsValue(Decimal(k + 1)) == k + 1;
    assert j > 0 ==> a[|base| + 1..] == Decimal(j + 1);
    assert k > 0 ==> b[|base| + 1..] == Decimal(k + 1);
  }

  /** The existing branches that are not among the first `n` candidates. */
  function Untried(taken: set<string>, base: string, n: nat): (r: set<string>)
    ensures r <= taken
    ensures forall name :: name in r <==> name in taken && forall k :: 0 <= k < n ==> name != Candidate(base, k)
  {
    if n == 0 then taken else Untried(taken, base, n - 1) - {Candidate(base, n - 1)}
  }

  /** Every candidate that is taken leaves one branch fewer to collide with. */
  lemma TryingOne(taken: set<string>, base: string, n: nat)
    requires Candidate(base, n) in taken
    ensures |Untried(taken, base, n + 1)| == |Untried(taken, base, n)| - 1
  {
    hide Candidate;
    forall k | 0 <= k < n ensures Candidate(base, n) != Candidate(base, k) {
      CandidatesDiffer(base, k, n);
    }
  }

  /** How many candidates are taken before the first free one, from `n` on. */
  function FirstFree(taken: set<string>, base: string, n: nat): nat
    decreases |Untried(taken, base, n)|
  {
    if Candidate(base, n) !in taken then n else
      TryingOne(taken, base, n);
      FirstFree(taken, base, n + 1)
  }

  lemma {:induction false} FirstFreeIsFirst(taken: set<string>, base: string, n: nat)
    ensures var r := FirstFree(taken, base, n);
            n <= r && Candidate(base, r) !in taken && forall k :: n <= k < r ==> Candidate(base, k) in taken
    decreases |Untried(taken, base, n)|
  {
    hide Candidate, Untried;
    if Candidate(base, n) in taken {
      TryingOne(taken, base, n);
      FirstFreeIsFirst(taken, base, n + 1);
    }
  }

  /** The search ends after at most as many steps as there are branches. */
  lemma {:induction false} SearchIsShort(taken: set<string>, base: string, n: nat)
    ensures FirstFree(taken, base, n) <= n + |Untried(taken, base, n)|
    decreases |Untried(taken, base, n)|
  {
    hide Candidate;
    if Candidate(base, n) in taken {
      TryingOne(taken, base, n);
      SearchIsShort(taken, base, n + 1);
    }
  }

  function DefaultName(taken: set<string>, revision: string, head: Option<string>, subject: string): string {
    var base := BaseName(taken, revision, head, subject);
    Candidate(base, FirstFree(taken, base, 0))
  }

  /** The name is unused, and every name the search passed over, in order from the base name, is used. */
  lemma DefaultNameIsFirstFree(taken: set<string>, revision: string, head: Option<string>, subject: string)
    ensures var base := BaseName(taken, revision, head, subject);
            var name := DefaultName(taken, revision, head, subject);
            && name !in taken
            && exists n :: 0 <= n <= |taken| && name == Candidate(base, n)
                           && forall k :: 0 <= k < n ==> Candidate(base, k) in taken
  {
    hide Candidate, BaseName;
    var base := BaseName(taken, revision, head, subject);
    SearchIsShort(taken, base, 0);
    FirstFreeIsFirst(taken, base, 0);
    assert DefaultName(taken, revision, head, subject) == Candidate(base, FirstFree(taken, base, 0));
  }
}
