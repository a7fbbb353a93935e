/** Placing all items of a review in one version of the files, diffing each version they come from only once. */
module Placement {
  import opened Wrappers
  import opened EditScripts
  import opened DiffText
  import opened Text
  import opened Locate
  import opened Trailers
  import opened Repositories
  import opened Reviews

  /**
    What Git answers: whether a version can be diffed against the target, the changes
    from a file of that version to the target's, if it differs, and the changes that a
    commit makes to its parent's files. A file is diffed alike whichever files are diffed
    with it.
   */
  datatype Diffs = Diffs(
    known: string -> bool,
    changed: (string, string) -> Option<seq<Hunk>>,
    own: string -> Option<map<string, seq<Hunk>>>)

  datatype PlacedEntry = PlacedEntry(entry: ReviewEntry, locations: seq<Location>)

  /** The diffs made, by version and path; `None` for a version that cannot be diffed. */
  type Table = map<string, Option<map<string, seq<Hunk>>>>

  function NotPlaced(path: string): Location { Location(path, None, 0, Unknown, None) }

  function Parent(commit: string): string { commit + "^" }

  function HunksIn(table: Table): (string, string) -> Option<seq<Hunk>> {
    (revision, path) =>
      if revision in table && table[revision].Some? && path in table[revision].value
      then Some(table[revision].value[path]) else None
  }

  /** The changes from one file of one version to the target, diffed by itself. */
  function HunksTo(d: Diffs): (string, string) -> Option<seq<Hunk>> {
    (revision, path) =>
      if !d.known(revision) then None else Some(match d.changed(revision, path) case Some(hunks) => hunks case None => [])
  }

  /** A suggestion's files in order; one whose changes have no lines, such as a binary one, has no hunks. */
  function FilesOf(paths: seq<string>, hunks: map<string, seq<Hunk>>): seq<FileDiff>
    decreases |paths|
  {
    if paths == [] then [] else
      [FileDiff(paths[0], if paths[0] in hunks then hunks[paths[0]] else [])] + FilesOf(paths[1..], hunks - {paths[0]})
  }

  function HunkLocation(at: (string, string) -> Option<seq<Hunk>>, commit: string, path: string, h: Hunk): Location {
    match (at(Parent(commit), path), at(commit, path))
    case (Some(toParent), Some(toCommit)) => PlaceHunk(toParent, toCommit, path, h)
    case _ => NotPlaced(path)
  }

  function FileLocations(at: (string, string) -> Option<seq<Hunk>>, commit: string, file: FileDiff): (r: seq<Location>)
    ensures |r| == if file.hunks == [] then 1 else |file.hunks|
  {
    if file.hunks == [] then [NotPlaced(file.path)]
    else seq(|file.hunks|, k requires 0 <= k < |file.hunks| => HunkLocation(at, commit, file.path, file.hunks[k]))
  }

  function FilesLocations(at: (string, string) -> Option<seq<Hunk>>, commit: string, files: seq<FileDiff>): seq<Location>
    decreases |files|
  {
    if files == [] then [] else FileLocations(at, commit, files[0]) + FilesLocations(at, commit, files[1..])
  }

  function NoteLocation(at: (string, string) -> Option<seq<Hunk>>, source: NoteSource): Location
    requires source.first <= source.last
  {
    match at(source.revision, source.path)
    case Some(hunks) => PlaceNote(hunks, source)
    case None => NotPlaced(source.path)
  }

  /** As entries are loaded: the lines of a source are a range, and a suggestion has no source. */
  predicate SoundEntry(e: ReviewEntry) {
    e.source.Some? ==> e.kind == Note && e.source.value.first <= e.source.value.last
  }

  /** Entries are loaded that way. */
  lemma LoadedEntryIsSound(c: Commit)
    ensures EntryOf(c).Success? ==> SoundEntry(EntryOf(c).value)
  {
    hide SplitTrailers, Trailer, Trim, ParseSource;
    var trailers := SplitTrailers(c.message).1;
    if Trailer(trailers, SOURCE_TRAILER).Some? {
      ParsedSourceIsSound(Trailer(trailers, SOURCE_TRAILER).value);
    }
  }

  /** Where an entry's items are, by the changes that `at` tells. */
  function LocationsOf(at: (string, string) -> Option<seq<Hunk>>, e: ReviewEntry, files: seq<FileDiff>): seq<Location>
    requires SoundEntry(e)
  {
    (if e.source.Some? then [NoteLocation(at, e.source.value)] else []) + FilesLocations(at, e.commit, files)
  }

  /** The files of an entry: those that a suggestion changes. */
  function EntryFiles(d: Diffs, e: ReviewEntry): Option<seq<FileDiff>> {
    if e.kind == Note then Some([]) else
      match d.own(e.commit) case None => None case Some(hunks) => Some(FilesOf(e.paths, hunks))
  }

  ghost predicate SoundEntries(entries: seq<ReviewEntry>) {
    forall k :: 0 <= k < |entries| ==> SoundEntry(entries[k])
  }

  /** Every entry placed by itself, with a diff of its own for each of its items. */
  function PlacedOneByOne(d: Diffs, entries: seq<ReviewEntry>): Option<seq<PlacedEntry>>
    requires SoundEntries(entries)
    decreases |entries|
  {
    if entries == [] then Some([]) else
      match EntryFiles(d, entries[0])
      case None => None
      case Some(files) =>
        match PlacedOneByOne(d, entries[1..])
        case None => None
        case Some(rest) => Some([PlacedEntry(entries[0], LocationsOf(HunksTo(d), entries[0], files))] + rest)
  }

  // The versions and paths that are needed.

  type Needs = map<string, set<string>>

  function Need(needed: Needs, revision: string, path: string): (r: Needs)
    ensures revision in r && path in r[revision]
    ensures forall v :: v in needed ==> v in r && needed[v] <= r[v]
  {
    needed[revision := (if revision in needed then needed[revision] else {}) + {path}]
  }

  predicate Has(needed: Needs, revision: string, path: string) { revision in needed && path in needed[revision] }

  ghost predicate HasFiles(needed: Needs, commit: string, files: seq<FileDiff>) {
    forall k :: 0 <= k < |files| ==> Has(needed, Parent(commit), files[k].path) && Has(needed, commit, files[k].path)
  }

  /** All that placing an entry looks up. */
  ghost predicate CoversEntry(needed: Needs, e: ReviewEntry, files: seq<FileDiff>) {
    && (e.kind == Note && e.source.Some? ==> Has(needed, e.source.value.revision, e.source.value.path))
    && HasFiles(needed, e.commit, files)
  }

  predicate Within(a: Needs, b: Needs) { forall v :: v in a ==> v in b && a[v] <= b[v] }

  lemma CoversMore(a: Needs, b: Needs, e: ReviewEntry, files: seq<FileDiff>)
    requires CoversEntry(a, e, files) && Within(a, b)
    ensures CoversEntry(b, e, files)
  {
  }

  method NeedFiles(needed: Needs, commit: string, files: seq<FileDiff>) returns (more: Needs)
    ensures Within(needed, more) && HasFiles(more, commit, files)
  {
    more := needed;
    for k := 0 to |files|
      invariant Within(needed, more) && HasFiles(more, commit, files[..k])
    {
      var before := more;
      more := Need(Need(more, Parent(commit), files[k].path), commit, files[k].path);
      assert Within(before, more);
      assert files[..k + 1][..k] == files[..k];
      assert forall i :: 0 <= i < k ==> files[..k + 1][i] == files[..k][i];
    }
    assert files[..|files|] == files;
  }

  /** Each entry's own changes, and what needs diffing to place the entries. */
  method Collect(d: Diffs, entries: seq<ReviewEntry>) returns (changes: Option<seq<seq<FileDiff>>>, needed: Needs)
    ensures changes.None? <==> exists k :: 0 <= k < |entries| && EntryFiles(d, entries[k]).None?
    ensures changes.Some? ==>
              && |changes.value| == |entries|
              && (forall k :: 0 <= k < |entries| ==> EntryFiles(d, entries[k]) == Some(changes.value[k]))
              && (forall k :: 0 <= k < |entries| ==> CoversEntry(needed, entries[k], changes.value[k]))
  {
    hide CoversEntry, Within, FilesOf;
    var collected := [];
    needed := map[];
    for i := 0 to |entries|
      invariant |collected| == i
      invariant forall k :: 0 <= k < i ==> EntryFiles(d, entries[k]) == Some(collected[k])
      invariant forall k :: 0 <= k < i ==> CoversEntry(needed, entries[k], collected[k])
    {
      var files, more := CollectEntry(d, entries[i], needed);
      if files.None? { return None, needed; }
      forall k | 0 <= k < i ensures CoversEntry(more, entries[k], collected[k]) {
        CoversMore(needed, more, entries[k], collected[k]);
      }
      needed := more;
      collected := collected + [files.value];
    }
    changes := Some(collected);
  }

  method CollectEntry(d: Diffs, e: ReviewEntry, needed: Needs) returns (files: Option<seq<FileDiff>>, more: Needs)
    ensures files == EntryFiles(d, e)
    ensures files.Some? ==> Within(needed, more) && CoversEntry(more, e, files.value)
  {
    more := needed;
    match e.kind {
      case Suggestion =>
        var own := d.own(e.commit);
        if own.None? { return None, more; }
        var list := FilesOf(e.paths, own.value);
        more := NeedFiles(needed, e.commit, list);
        files := Some(list);
      case Note =>
        if e.source.Some? {
          more := Need(needed, e.source.value.revision, e.source.value.path);
        }
        files := Some([]);
    }
  }

  // The diffs, one for each version.

  /** One diff of a version's files that are needed; no changes are reported for a file that is the same. */
  function Batch(d: Diffs, revision: string, paths: set<string>): Option<map<string, seq<Hunk>>> {
    if !d.known(revision) then None
    else Some(map path | path in paths && d.changed(revision, path).Some? :: d.changed(revision, path).value)
  }

  method DiffAll(d: Diffs, needed: Needs) returns (table: Table)
    ensures forall revision, path :: Has(needed, revision, path) ==> HunksIn(table)(revision, path) == HunksTo(d)(revision, path)
  {
    table := map[];
    var left := needed.Keys;
    while left != {}
      invariant left <= needed.Keys
      invariant forall revision, path :: Has(needed, revision, path) && revision !in left ==>
                  HunksIn(table)(revision, path) == HunksTo(d)(revision, path)
      decreases |left|
    {
      var revision :| revision in left;
      left := left - {revision};
      var files := Batch(d, revision, needed[revision]);
      var byPath := None;
      if files.Some? {
        var same: map<string, seq<Hunk>> := map path | path in needed[revision] :: [];
        byPath := Some(same + files.value);
      }
      table := table[revision := byPath];
    }
  }

  // Tables that agree on what is needed place alike.

  lemma {:induction false} SameFilesLocations(
    at: (string, string) -> Option<seq<Hunk>>, at': (string, string) -> Option<seq<Hunk>>, commit: string, files: seq<FileDiff>)
    requires forall k :: 0 <= k < |files| ==>
               && at(Parent(commit), files[k].path) == at'(Parent(commit), files[k].path)
               && at(commit, files[k].path) == at'(commit, files[k].path)
    ensures FilesLocations(at, commit, files) == FilesLocations(at', commit, files)
    decreases |files|
  {
    hide PlaceHunk;
    if files != [] {
      var rest := files[1..];
      assert forall k :: 0 <= k < |rest| ==> rest[k] == files[k + 1];
      SameFilesLocations(at, at', commit, rest);
      SameFileLocations(at, at', commit, files[0]);
    }
  }

  lemma SameFileLocations(
    at: (string, string) -> Option<seq<Hunk>>, at': (string, string) -> Option<seq<Hunk>>, commit: string, file: FileDiff)
    requires at(Parent(commit), file.path) == at'(Parent(commit), file.path)
    requires at(commit, file.path) == at'(commit, file.path)
    ensures FileLocations(at, commit, file) == FileLocations(at', commit, file)
  {
    hide PlaceHunk;
  }

  lemma SameLocations(d: Diffs, table: Table, needed: Needs, e: ReviewEntry, files: seq<FileDiff>)
    requires SoundEntry(e) && CoversEntry(needed, e, files)
    requires forall revision, path :: Has(needed, revision, path) ==> HunksIn(table)(revision, path) == HunksTo(d)(revision, path)
    ensures LocationsOf(HunksIn(table), e, files) == LocationsOf(HunksTo(d), e, files)
  {
    hide HunksIn, HunksTo, PlaceNote, FilesLocations;
    SameFilesLocations(HunksIn(table), HunksTo(d), e.commit, files);
  }

  lemma {:induction false} OneByOneFails(d: Diffs, entries: seq<ReviewEntry>, k: nat)
    requires SoundEntries(entries) && k < |entries| && EntryFiles(d, entries[k]).None?
    ensures PlacedOneByOne(d, entries).None?
    decreases |entries|
  {
    hide LocationsOf, EntryFiles;
    if k > 0 { OneByOneFails(d, entries[1..], k - 1); }
  }

  /**
    Placing a whole review, with one diff for each version, is placing each entry by
    itself, with a diff for each of its items.
   */
  method Place(d: Diffs, entries: seq<ReviewEntry>) returns (placed: Option<seq<PlacedEntry>>)
    requires SoundEntries(entries)
    ensures placed == PlacedOneByOne(d, entries)
  {
    hide LocationsOf, EntryFiles, CoversEntry, HunksIn, HunksTo;
    var changes, needed := Collect(d, entries);
    if changes.None? {
      ghost var k :| 0 <= k < |entries| && EntryFiles(d, entries[k]).None?;
      OneByOneFails(d, entries, k);
      return None;
    }
    var table := DiffAll(d, needed);
    var list := [];
    PrependNothing(PlacedOneByOne(d, entries));
    for i := 0 to |entries|
      invariant Prepend(list, PlacedOneByOne(d, entries[i..])) == PlacedOneByOne(d, entries)
    {
      assert entries[i..][1..] == entries[i + 1..];
      SameLocations(d, table, needed, entries[i], changes.value[i]);
      var one := PlacedEntry(entries[i], LocationsOf(HunksIn(table), entries[i], changes.value[i]));
      PrependOne(list, one, PlacedOneByOne(d, entries[i + 1..]));
      list := list + [one];
    }
    assert entries[|entries|..] == [] && list + [] == list;
    placed := Some(list);
  }

  function Prepend(list: seq<PlacedEntry>, rest: Option<seq<PlacedEntry>>): Option<seq<PlacedEntry>> {
    match rest case None => None case Some(entries) => Some(list + entries)
  }

  lemma PrependNothing(rest: Option<seq<PlacedEntry>>)
    ensures Prepend([], rest) == rest
  {
    if rest.Some? { assert [] + rest.value == rest.value; }
  }

  lemma PrependOne(list: seq<PlacedEntry>, one: PlacedEntry, rest: Option<seq<PlacedEntry>>)
    ensures Prepend(list + [one], rest) == Prepend(list, Prepend([one], rest))
  {
    if rest.Some? { assert list + [one] + rest.value == list + ([one] + rest.value); }
  }

  // Changes without lines.

  lemma {:induction false} FileOfPath(paths: seq<string>, hunks: map<string, seq<Hunk>>, k: nat)
    requires k < |paths|
    ensures |FilesOf(paths, hunks)| == |paths|
    ensures var file := FilesOf(paths, hunks)[k];
            && file.path == paths[k]
            && file.hunks == (if paths[k] in hunks && paths[k] !in paths[..k] then hunks[paths[k]] else [])
    decreases |paths|
  {
    if |paths| > 1 {
      FileOfPath(paths[1..], hunks - {paths[0]}, if k > 0 then k - 1 else 0);
    }
    if k > 0 {
      assert paths[..k] == [paths[0]] + paths[1..][..k - 1];
    }
  }

  /** A suggestion's file for which Git tells no changed lines, such as a binary one, is not placed. */
  lemma FileWithoutLinesIsUnknown(
    at: (string, string) -> Option<seq<Hunk>>, commit: string, paths: seq<string>, hunks: map<string, seq<Hunk>>, k: nat)
    requires k < |paths| && (paths[k] in hunks ==> hunks[paths[k]] == [])
    ensures |FilesOf(paths, hunks)| == |paths|
    ensures FileLocations(at, commit, FilesOf(paths, hunks)[k]) == [NotPlaced(paths[k])]
  {
    FileOfPath(paths, hunks, k);
  }

  /**
    A note on a file for whose change Git tells no lines, such as a binary one, is placed
    on the lines of its source and reported as current, although having no hunks is right
    only for a file that did not change.
   */
  lemma NoteOnBinaryFileIsCurrent(d: Diffs, source: NoteSource, text: seq<Line>, target: seq<Line>)
    requires 1 <= source.first <= source.last <= USIZE_MAX && |text| < USIZE_MAX && |target| < USIZE_MAX
    requires d.known(source.revision)
    requires d.changed(source.revision, source.path) == None || d.changed(source.revision, source.path) == Some([])
    ensures NoteLocation(HunksTo(d), source)
         == Location(source.path, Some(source.first), source.last - source.first + 1, Current, None)
    ensures Script([], text, target) <==> text == target
  {
    NoHunksMeansTheSame(text, target);
  }

  lemma NoHunksMeansTheSame(a: seq<Line>, b: seq<Line>)
    requires |a| < USIZE_MAX && |b| < USIZE_MAX
    ensures Script([], a, b) <==> a == b
  {
    if Script([], a, b) {
      forall k | 0 <= k < |a| ensures a[k] == b[k] { assert a[0 + k] == b[0 + k]; }
    }
  }
}
