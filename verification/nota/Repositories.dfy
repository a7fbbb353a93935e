/**
  A Git repository as Nota sees it: commits with their first parents, and branches.

  Commits are kept in an order in which every first parent comes before its
  children, such as that of their creation.
 */
module Repositories {
  import opened Wrappers
  import opened Text
  import opened Trailers

  datatype Commit = Commit(id: string, firstParent: Option<string>, message: string, paths: seq<string>)

  datatype Repo = Repo(commits: seq<Commit>, branches: map<string, string>)

  predicate HasCommit(commits: seq<Commit>, id: string) {
    exists k :: 0 <= k < |commits| && commits[k].id == id
  }

  /** The commit named `id`. */
  function Lookup(commits: seq<Commit>, id: string): Option<Commit> {
    if commits == [] then None else
      var last := commits[|commits| - 1];
      if last.id == id then Some(last) else Lookup(commits[..|commits| - 1], id)
  }

  /** `id` and its first-parent ancestors, newest first. */
  function History(commits: seq<Commit>, id: string): seq<string> {
    if commits == [] then [] else
      var last, front := commits[|commits| - 1], commits[..|commits| - 1];
      if last.id != id then History(front, id)
      else [id] + (match last.firstParent case None => [] case Some(parent) => History(front, parent))
  }

  /** Full, distinct ids, messages without whitespace around them, and parents before their children. */
  ghost predicate Sound(commits: seq<Commit>) {
    commits == [] || (
      var last, front := commits[|commits| - 1], commits[..|commits| - 1];
      && Sound(front)
      && IsCommitId(last.id) && !HasCommit(front, last.id)
      && Trimmed(last.message)
      && (last.firstParent.Some? ==> HasCommit(front, last.firstParent.value)))
  }

  ghost predicate Valid(repo: Repo) {
    && Sound(repo.commits)
    && forall branch :: branch in repo.branches ==> HasCommit(repo.commits, repo.branches[branch])
  }

  lemma {:induction false} LookupFacts(commits: seq<Commit>, id: string)
    ensures Lookup(commits, id).Some? <==> HasCommit(commits, id)
    ensures Lookup(commits, id).Some? ==> Lookup(commits, id).value.id == id && Lookup(commits, id).value in commits
  {
    if commits != [] && commits[|commits| - 1].id != id {
      LookupFacts(commits[..|commits| - 1], id);
    }
  }

  lemma {:induction false} LookupIs(commits: seq<Commit>, c: Commit)
    requires Sound(commits) && c in commits
    ensures Lookup(commits, c.id) == Some(c)
  {
    hide IsCommitId, Trimmed;
    var last, front := commits[|commits| - 1], commits[..|commits| - 1];
    if c != last {
      assert commits == front + [last];
      var k :| 0 <= k < |front| && front[k] == c;
      assert HasCommit(front, c.id);
      LookupIs(front, c);
    }
  }

  lemma HasCommitSnoc(commits: seq<Commit>, c: Commit, id: string)
    ensures HasCommit(commits + [c], id) <==> HasCommit(commits, id) || c.id == id
  {
    var all := commits + [c];
    assert all[|commits|] == c;
    assert forall k :: 0 <= k < |commits| ==> all[k] == commits[k];
  }

  /** A new commit changes neither what older commits are nor their histories. */
  lemma AddCommit(commits: seq<Commit>, c: Commit)
    ensures Lookup(commits + [c], c.id) == Some(c)
    ensures forall id :: id != c.id ==>
              Lookup(commits + [c], id) == Lookup(commits, id) && History(commits + [c], id) == History(commits, id)
    ensures History(commits + [c], c.id)
         == [c.id] + (if c.firstParent.None? then [] else History(commits, c.firstParent.value))
  {
    assert (commits + [c])[..|commits|] == commits;
  }

  lemma {:induction false} HistoryFacts(commits: seq<Commit>, id: string)
    requires Sound(commits)
    ensures var h := History(commits, id);
            && (HasCommit(commits, id) <==> h != []) && (h != [] ==> h[0] == id)
            && (forall k :: 0 <= k < |h| ==> HasCommit(commits, h[k]))
            && (forall k, l :: 0 <= k < l < |h| ==> h[k] != h[l])
  {
    if commits != [] {
      var last, front := commits[|commits| - 1], commits[..|commits| - 1];
      assert commits == front + [last];
      HistoryFacts(front, id);
      if last.firstParent.Some? {
        HistoryFacts(front, last.firstParent.value);
      }
      assert HasCommit(commits, last.id);
      forall other ensures HasCommit(commits, other) <==> HasCommit(front, other) || other == last.id {
        HasCommitSnoc(front, last, other);
      }
    }
  }

  /** `commits'` has all of `commits`, followed by later ones. */
  ghost predicate Extends(commits': seq<Commit>, commits: seq<Commit>) {
    Sound(commits') && commits <= commits'
  }

  /** Commits already there keep their contents and histories as others are added. */
  lemma {:induction false} ExtendsKeeps(commits: seq<Commit>, commits': seq<Commit>, id: string)
    requires Extends(commits', commits) && HasCommit(commits, id)
    ensures HasCommit(commits', id)
    ensures Lookup(commits', id) == Lookup(commits, id) && History(commits', id) == History(commits, id)
    decreases |commits'|
  {
    if |commits'| > |commits| {
      var last, front := commits'[|commits'| - 1], commits'[..|commits'| - 1];
      ExtendsKeeps(commits, front, id);
    } else {
      assert commits' == commits;
    }
  }

  lemma ExtendsBySnoc(commits: seq<Commit>, c: Commit)
    requires Sound(commits) && IsCommitId(c.id) && !HasCommit(commits, c.id) && Trimmed(c.message)
    requires c.firstParent.Some? ==> HasCommit(commits, c.firstParent.value)
    ensures Extends(commits + [c], commits)
  {
    assert (commits + [c])[..|commits|] == commits;
  }

  /** The commits of `ids`, in the order given; ids that name no commit are not read. */
  function ReadCommits(commits: seq<Commit>, ids: seq<string>): seq<Commit> {
    if ids == [] then [] else
      (match Lookup(commits, ids[0]) case Some(c) => [c] case None => []) + ReadCommits(commits, ids[1..])
  }

  /** Some line of the message starts with `<key>:`. */
  predicate HasKeyLine(message: string, key: string) {
    exists at :: 0 <= at <= |message| && StartsLine(message, key + ":", at)
  }

  /** The ids on the first-parent histories of `tips`. */
  function Reachable(commits: seq<Commit>, tips: seq<string>): set<string> {
    if tips == [] then {} else (set id | id in History(commits, tips[0])) + Reachable(commits, tips[1..])
  }

  /**
    The commits on the first-parent histories of `tips` whose message has a line
    starting with one of the two keys, by id.
   */
  function CommitsWithKeys(commits: seq<Commit>, tips: seq<string>, key: string, key': string): map<string, Commit> {
    map id | id in Reachable(commits, tips) && Lookup(commits, id).Some?
             && (HasKeyLine(Lookup(commits, id).value.message, key) || HasKeyLine(Lookup(commits, id).value.message, key'))
      :: Lookup(commits, id).value
  }

  lemma {:induction false} ReachableFromTip(commits: seq<Commit>, tips: seq<string>, k: nat)
    requires k < |tips|
    ensures forall id :: id in History(commits, tips[k]) ==> id in Reachable(commits, tips)
  {
    if k > 0 {
      ReachableFromTip(commits, tips[1..], k - 1);
    }
  }
}
