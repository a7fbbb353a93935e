# Verified models of Nota, Genta and Driva

This project models the parts of three programs in which a small slip would be
hard to notice, and proves what the rest of the system relies on.

**Nota** keeps a code review as a Git branch: an empty commit marks its start, empty
commits with trailers are notes, and ordinary commits are suggestions.

- `nota/EditScripts.dfy` says what a zero-context diff is: hunks in order, an
  unchanged line at least between two of them, equal text outside of them, and Git's
  numbering, in which a side without lines starts at the line it follows.
- `nota/Locate.dfy` carries lines, gaps and ranges across such a script, in either
  direction, and tells what survived. `nota/PartialApplication.dfy` places the hunks of
  a suggestion in a text that has taken any subset of them. `nota/NoteSources.dfy`
  follows a note from the lines that were asked for to a commit and back, and
  `nota/ChangedLines.dfy` lines and gaps that a change touches.
  `nota/Placement.dfy` places a whole review with one diff for each version, and
  `nota/PlacedReviews.dfy` says what is then reported.
- `nota/DiffText.dfy` reads `git diff --unified=0` output; `nota/DiffPrinter.dfy` is an
  independent printer of that format, which the parser inverts, and `nota/DiffRefusals.dfy`
  says what the parser refuses. `nota/LogText.dfy` prints and reads the records of `git log`.
- `nota/Trailers.dfy` is the text encoding of markers, notes and sources.
  `nota/Repositories.dfy` is the repository: commits with first parents, and branches.
  `nota/Reviews.dfy` reads and writes reviews on repository values, and
  `nota/TrailerStore.dfy` does so as the program does, with loops and a repository that
  changes in place. `nota/ReadBack.dfy`, `nota/Discovery.dfy` and
  `nota/BranchNames.dfy` hold what is proved of them, and `nota/StoredReviews.dfy` what
  any branch reads as, whoever made its commits.
- `nota/ConcurrentAppends.dfy` is a state machine in which any number of writers take
  the steps of adding a note in any order, while suggestions arrive on the branch and
  anything happens on other branches.

**Genta** talks to coding agents. `genta/AppServer.dfy` and `genta/ClaudeStream.dfy` are
two stateful protocol clients. `genta/AppServerRuns.dfy` is a state machine in which any
number of threads use the first, and `genta/AppServerLines.dfy` says what each line leads
to; `genta/ClaudeRuns.dfy` puts the second together with a Claude that answers at its own
pace. `genta/Usage.dfy` works out what turns spend,
`genta/Sessions.dfy` converts recorded sessions between two formats, of which
`genta/RecordReading.dfy` and `genta/RecordWriting.dfy` tell what is read and written, and
`genta/TerminalText.dfy` removes escape sequences, of which `genta/EscapeForms.dfy` has all
the standard forms.

**Driva** runs commands in a sandbox. `driva/MountPlan.dfy` validates mounts, orders
them, and says what is seen where once they are laid down; `driva/Sandbox.dfy` says what
is accepted, seen and can be written to.

`Wrappers.dfy`, `Text.dfy` and `Sorting.dfy` are what the others share: options and
results, the string operations of Rust's standard library, and its stable sort.

A method follows the source's loop or its updates in place and is proved equal to a
function; what the source promises is proved of that function.

## What was found

- A review on a branch whose name has whitespace around it that Git allows, such as a
  no-break space, can be started and never be loaded: the marker's trailer is read
  without the whitespace and then names another branch (`ReadBack.StartedReviewLoads`
  gives the exact condition, `ReadBack.UnloadableReview` an example).
- A note on a file that is committed empty is recorded as line 1, which the file does not
  have. Over any diff it is then reported as current, on the line below the end of the
  target (`NoteSources.NoteOnEmptyFile`, `NoteSources.EmptyFileNoteIsRecorded`). On all
  other recorded notes the report is right, given a diff that has all changed lines
  (`NoteSources.PlacedLinesAreThere` is an equivalence).
- A note on a file whose change Git reports without lines, as of a binary file, is placed on
  the lines of its source and reported as current, although the file changed
  (`Placement.NoteOnBinaryFileIsCurrent`). A suggestion's file without lines is unknown.
- A message with the character U+001E makes every `git log` that it is in unreadable: such
  a note is committed, moves the branch, and the review can then not be read
  (`LogText.NoteBreaksTheLog`).
- The paths of a suggestion are read from `git log` as they are printed. A path that Git
  prints in quotes, by default any with a character outside of ASCII, comes back quoted
  (`LogText.QuotedPathIsNotThePath`), so that its changes are not among those of that path
  and are not placed (`Placement.FileWithoutLinesIsUnknown`); and the path printed last
  loses whitespace at its end (`LogText.LastPathLosesItsSpace`). `LogText.LogReadsBack`
  gives the exact condition.
- Git names commits by their contents. Two writers who add the same note on the same
  tip make the same commit; one of them is told that the branch changed, and finds its
  note there: `ConcurrentAppends.SameNoteTwice` exhibits the run, on every review and for
  every note. A failed note is otherwise never in the review
  (`ConcurrentAppends.AppendsAreSafe`).
- `map_gap` is a plain shift strictly inside a replaced block and can then point below
  the other text (`Locate.GapStaysInText` gives the exact condition,
  `Locate.GapInsideAChangeMayLeaveTheText` an example).
- Content lines of a diff that end in a carriage return come back without it
  (`DiffPrinter.DiffRoundTrip` is an equivalence, `DiffPrinter.ReturnIsLost` an example).
- A session without messages cannot be read back from Claude's format, and user texts
  in `<user_query>` tags are not kept (`Sessions.ClaudeRoundTrip` and
  `Sessions.ChainsPreserveMessages` are equivalences, `Sessions.TaggedQueryIsNotKept` an
  example).
- A message that `AppServer` queues loses the model and effort it was sent with; only
  its text is kept. A turn carries the options of its message if and only if the thread
  was known when the message was sent, or there were none
  (`AppServerRuns.OptionsArriveExactlyWhen`).
- Messages keep their order, in every interleaving, if and only if none is submitted while
  the queue is being sent (`AppServerRuns.OrderIsKeptExactlyWhen`). That is the order in
  which they get their ids; the lines themselves are written after the lock is released.
  `AppServerRuns.QueuedMessageIsOvertakenAndLosesItsModel` is a run in which both go wrong.
- Choosing the recorded model again while a change to another one is pending does not take
  that change back (`ClaudeStreams.ReturningIsIgnored`); nor does a message that rides along
  with an earlier change than the last. `ClaudeStreams.LastChoiceIsRecordedExactlyWhen` says
  exactly when the model chosen last is the one recorded in the end.
- A message with the recorded model is sent at once, also behind a change to another model
  that Claude has not answered, and then runs on that one
  (`ClaudeRuns.TurnRunsOnAnotherModel`). A turn runs on the model that was named last
  before it was sent (`ClaudeRuns.TurnsRunOnTheModelNamedLast`), and so on its own when no
  change is pending (`ClaudeRuns.SettledTurnRunsOnItsModel`).
- Of the escapes that the standards have, `clean_terminal_text` knows those that begin with
  ESC, have two characters or are control sequences or operating system commands, and end
  such a command at BEL or ESC `\`. Of the others it shows a part, and after a command that
  U+009C ends it drops what should be shown: `EscapeForms.PlainTextIsLeftExactlyWhen` gives
  the exact condition, and the table has an example of each.
- What `UsageTracker` derives for turns misses exactly what a running total grows by
  between the end of a turn and the start of the next (`Usage.DerivedSpendsAddUp`, and
  `Usage.SpendBetweenTurnsIsLost` for two turns that add up to twelve tokens of fifteen).
- Two binds that validation accepts can be for one place, when a destination has `..`: a
  read-only bind at `/b` is hidden by a writable one at `/a/../b`
  (`MountPlans.HiddenExactlyWhen` gives the exact condition,
  `MountPlans.UpwardDestinationHides` this example). Without `..` nothing is hidden
  (`MountPlans.NothingIsHidden`).

## Reading the model

- Texts have fewer than `usize::MAX` lines, and so have two texts together where a
  statement needs it. Line numbers are unbounded otherwise, and the saturating addition
  of `map_line` and `map_gap` is written out.
- Request counters, ids and lengths are unbounded. Token counters are 64-bit and wrap
  around, as in a build without overflow checks; with them, such a sum stops the program.
- Ids that Git, UUIDs or the caller provide are parameters. What a file has, which names
  Git accepts, what it resolves a revision to, and which files exist are parameters too.
- Commits are listed with parents before children, and are not removed.
- Strings are sequences of Unicode characters, except in the two diff modules, where a
  character is a byte.

## Model

| member | source | states |
|---|---|---|
| EditScripts.InvertIsScript | nota/src/git.rs:104-115 | swapping the two sides of every hunk of a script from one text to another gives a script back; the numbering rule for empty sides is symmetric |
| Locate.MapLine | nota/src/locate.rs:315-331 | the loop over hunks with a growing shift is the mapping whose alignment, order, range and places of changed lines are stated below |
| Locate.MapGap | nota/src/locate.rs:335-344 | the same for the gap after a line |
| Locate.Alignment | nota/src/locate.rs:310-331 | a line that no hunk covers goes to a line in range with the same text that no hunk covers either, and mapping that one on the other side gives the first one back; in both directions |
| Locate.Monotone | nota/src/locate.rs:310-331 | the mapping keeps the order of all lines from 1 on, on either side, and strictly so for unchanged lines |
| ChangedLines.ChangedLineKeepsItsPlace | nota/src/locate.rs:310-325 | on either side of any script, a hunk's nth line goes to the nth of its lines on the other side while there is one, then to the last one, and to the line above them if there is none |
| ChangedLines.ChangedLineComesBack | nota/src/locate.rs:310-325 | a changed line whose place there is on both sides comes back to itself, and another one to the last place there is |
| Locate.ShiftsNeverSaturate | nota/src/locate.rs:329-344 | on either side of a script the saturating addition gives the plain sum for unchanged lines and for the gaps above them, which stay within the other text |
| Locate.GapStaysInText | nota/src/locate.rs:333-344 | a gap goes within the other text unless one hunk changes the lines on both sides of it, and then if and only if it is no further below the hunk's start than the other text goes |
| ChangedLines.GapStaysAbove | nota/src/locate.rs:333-344 | a gap above an unchanged line, or below the text, stays right above where that line goes; above the first of a hunk's lines it goes above the first of its other lines, and between two of them as far below that as it was |
| Locate.GapInsideAChangeMayLeaveTheText | nota/src/locate.rs:335-344 | a concrete script on which the gap inside a replaced block maps below the end of the other text |
| Locate.IntactRange | nota/src/locate.rs:346-363 | a non-empty range is intact if and only if each of its lines is unchanged and neighbours map to neighbours |
| Locate.IntactGap | nota/src/locate.rs:346-363 | a gap is intact if and only if the line above and the line below it are unchanged and stay next to each other, the places above and below the text counting as lines; it then goes below where the line above goes |
| Locate.SurvivorsAreThere | nota/src/locate.rs:315-363 | a range is intact if and only if its lines survive together, and they are then found in the target from where its first line goes; for a gap, the lines around it |
| Locate.HunkStatus | nota/src/locate.rs:219-246 | over any two scripts to any target, a hunk is pending if and only if its original lines survive, applied if and only if only the suggested ones do, stale otherwise; pending or applied, the target has those lines where the hunk is placed, and stale, it is placed where its original lines were |
| PartialApplication.DiffsLeadToTarget | nota/src/locate.rs:219-246 | the text with any subset of the hunks applied is reached from the parent by those hunks renumbered and from the suggestion by the others reversed; none applied is the parent and all applied is the suggestion |
| PartialApplication.PartialApplicationIsClassified | nota/src/locate.rs:219-246 | for every subset, each hunk in it is reported applied and each other one pending, none stale, insertions and deletions included, and each is placed where its lines are |
| PartialApplication.NothingApplied | nota/src/locate.rs:219-246 | in the parent every hunk is pending at its old start with its old count |
| PartialApplication.EverythingApplied | nota/src/locate.rs:219-246 | in the suggestion every hunk is applied at its new start with its new count |
| PartialApplication.PlacementIsExact | nota/src/locate.rs:219-246 | replacing the reported lines, or inserting below the reported line, by a pending hunk's new lines gives the text that has taken that hunk too, and an applied hunk's old lines take it back |
| PartialApplication.ApplyingInAnyOrder | nota/src/locate.rs:219-246 | from any partly applied text, applying the missing hunks one at a time in any order, each where it is then placed, ends at the suggestion's text |
| NoteSources.SourceIsInTheRevision | nota/src/locate.rs:248-284 | whatever non-empty range is asked for, the source recorded is a range of the revision's lines that the range test of `check_source` accepts; the request fails exactly for an empty range |
| NoteSources.CurrentNoteKeepsItsLines | nota/src/locate.rs:201-217 | a note on lines of the text that is reported current covers as many lines in the target as in its source, within the target, and the same text |
| NoteSources.NoteOnEmptyFile | nota/src/locate.rs:201-217 | the only source that the range test accepts on an empty file is line 1, and over any diff it is placed below the end of the target and reported current |
| NoteSources.EmptyFileNoteIsRecorded | nota/src/locate.rs:248-284 | asking for the first line of new text in a file that is committed empty records that source |
| NoteSources.PlacedLinesAreThere | nota/src/trailer_store.rs:293-314 | for every source that the range test accepts: a note reported current covers the same lines as in its source if and only if its file has any lines, and a placed note lies within the target if and only if its file and the target have any |
| NoteSources.NoteStatus | nota/src/locate.rs:201-217 | every source that the range test accepts is placed on at least one line from line 1 on, and is current if and only if all its lines are unchanged and neighbours stay neighbours |
| NoteSources.NoteComesBack | nota/src/locate.rs:201-284 | when both end lines are ones the revision has, placing the recorded source over the same diff gives the lines that were asked for, current if and only if the revision has all of them next to each other |
| ChangedLines.EditedLinesAreRecorded | nota/src/locate.rs:248-284 | a note on edited lines is recorded from the old line of the first to that of the last: at the same place among the lines that were replaced, at the last of them, or at the line above |
| ChangedLines.NoteCoversItsLines | nota/src/locate.rs:201-217 | a placed note reaches from where its first line goes to where its last one goes, and covers where each line in between goes |
| Placement.Place | nota/src/locate.rs:80-189 | placing a review with one diff for each version gives every entry the locations it gets with a diff of its own for each of its items, of which the rows of `PlacedReviews` say what they are |
| PlacedReviews.PlacedSuggestion | nota/src/locate.rs:154-189 | in what placing a review returns, each hunk of each suggestion, file by file in order, is pending if and only if its original lines survive, applied if and only if only the suggested ones do, stale otherwise, and placed where those lines are, or where its original ones were, whenever Git answers with scripts from the parent and from the suggestion |
| PlacedReviews.PartlyAppliedSuggestion | nota/src/locate.rs:154-189 | in a target that has taken any of a suggestion's hunks, these are reported applied and the others pending, each with its lines and its place |
| PlacedReviews.UnknownSuggestion | nota/src/locate.rs:161-175 | a hunk is reported unknown when Git cannot diff the suggestion or its parent, and so is a file without hunks |
| PlacedReviews.PlacedNote | nota/src/locate.rs:154-163 | each note with a source has one location, from where its first line goes to where its last one does, which is current if and only if its lines are unchanged and stay together, and unknown if and only if Git cannot diff its version; any other one has none |
| PlacedReviews.PlacingFails | nota/src/locate.rs:89-112 | placing fails if and only if some suggestion's own changes cannot be read |
| Placement.FileWithoutLinesIsUnknown | nota/src/locate.rs:94-171 | a suggestion's file for which Git tells no changed lines, such as a binary one, has one location, which is unknown |
| Placement.NoteOnBinaryFileIsCurrent | nota/src/locate.rs:133-162 | a note on a file for whose change Git tells no lines is placed on the lines of its source and reported current, whatever the target's text is, although no hunks are a script only between equal texts |
| Placement.Collect | nota/src/locate.rs:89-132 | the versions and paths collected cover all that placing the entries looks up, and collecting fails if and only if some suggestion's own changes cannot be read |
| Placement.DiffAll | nota/src/locate.rs:133-153 | for every version and path that is needed, the table of batched diffs answers as a diff of that file alone |
| Placement.LoadedEntryIsSound | nota/src/trailer_store.rs:330-369 | an entry that loads has a source only if it is a note, and then a range of lines that is not empty |
| DiffText.ReadOctal | nota/src/git.rs:386-417 | one to three octal digits are read as one byte, of which the low eight bits count |
| DiffText.UnquoteBytes | nota/src/git.rs:386-417 | the loop over a quoted path computes the unquoting that the next row inverts |
| DiffPrinter.QuoteRoundTrip | nota/src/git.rs:386-417 | unquoting Git's C-style quoting, with one-letter and octal escapes, gives back every sequence of bytes, with or without escapes for bytes from 128 on |
| DiffPrinter.PathRoundTrip | nota/src/git.rs:374-383 | a path printed with its prefix, quoted or not, with a trailing tab or not, is read back |
| DiffPrinter.DevNullIsNoPath | nota/src/git.rs:374-383 | `/dev/null` is read as no path |
| DiffPrinter.RangeRoundTrip | nota/src/git.rs:419-426 | a range of a hunk header is read back, also when a count of 1 is left out |
| DiffPrinter.HeaderRoundTrip | nota/src/git.rs:345-365 | a hunk header is read back as its two ranges, whatever section text follows it |
| DiffText.ReadDiff | nota/src/git.rs:309-372 | the loop over the lines of a diff computes the parse that the next two rows are about |
| DiffPrinter.DiffRoundTrip | nota/src/git.rs:309-372 | parsing inverts printing for every list of files and hunks: content lines that look like headers, added, deleted and binary files, quoted paths, trailing tabs, counts left out and missing last line feeds; each line comes back without a carriage return at its end, and so all of them exactly if and only if none has one |
| DiffPrinter.ReturnIsLost | nota/src/git.rs:309-372 | an added line that ends in a carriage return, which comes back without it |
| DiffText.AcceptedHunksAreComplete | nota/src/git.rs:309-372 | in every diff that is accepted each hunk has exactly the old and new lines that its header counts, and the error for lines outside of a hunk is never reached |
| DiffRefusals.RefusedExactlyWhen | nota/src/git.rs:309-372 | the lines that a diff is refused for, each with its reason: within a hunk those that are neither a missing line nor a note, and outside of one a file without a path, a hunk without a file, and a header that cannot be read |
| DiffRefusals.FirstRefusalCounts | nota/src/git.rs:309-372 | the first such line is what a diff is refused for |
| DiffRefusals.OtherwiseOnlyTruncated | nota/src/git.rs:309-372 | without one a diff is refused if and only if its last hunk misses lines |
| DiffRefusals.PathsAreNotCarriedOver | nota/src/git.rs:309-372 | a file takes no path from the one before it |
| DiffRefusals.NewPathCounts | nota/src/git.rs:309-372 | a file's path is that of its new side, or of the old one if there is no new one |
| LogText.LogReadsBack | nota/src/git.rs:428-474 | the output of `git log` is read if and only if no message holds the character that separates records; every commit then comes back, in order, with its id, first parent and message, and with its paths as Git prints them, but for whitespace at the end of the path printed last; so the commits come back as they are if and only if, besides, Git prints no path in quotes and the path printed last does not end in whitespace |
| LogText.NamesAreAsInDiffs | nota/src/git.rs:374-417 | by default a path is printed as its UTF-8 bytes are in a diff, so that the unquoting that reading a diff does, and reading a log does not, would give it back |
| LogText.QuotedPathIsNotThePath | nota/src/git.rs:430-474 | a commit of `späce.rs`, which is read as one of a path in quotes with octal escapes |
| LogText.LastPathLosesItsSpace | nota/src/git.rs:509-541 | a commit of a path with a space at its end, which is read without it |
| LogText.NoteBreaksTheLog | nota/src/git.rs:428-466 | a log with a note whose text holds that character cannot be read |
| Trailers.SourceRoundTrip | nota/src/trailer_store.rs:371-401 | reading a formatted source gives it back, whatever colons and dashes its path has |
| Trailers.ParsedSourceIsSound | nota/src/trailer_store.rs:381-401 | whatever is accepted as a source names a full commit, a path, and a non-empty range of lines from 1 on |
| StoredReviews.SourceReadsExactly | nota/src/trailer_store.rs:381-401 | what is read as a source is exactly 40 or 64 hexadecimal digits, a path and a range of numbers from 1 on |
| Trailers.SplitWithTrailers | nota/src/trailer_store.rs:403-418 | a stored message whose last paragraph is made of trailers splits into exactly these and the text above, whatever the text holds |
| StoredReviews.TrailersExactly | nota/src/trailer_store.rs:403-418 | a message has trailers if and only if all that is below its last blank line are trailer lines; these are its trailers then, and its text is what is above |
| StoredReviews.NoBlankLineNoTrailers | nota/src/trailer_store.rs:403-418 | a message without a blank line is all text |
| StoredReviews.TrailerLineExactly | nota/src/trailer_store.rs:420-424 | a line is a trailer if and only if letters, digits and dashes are before its first colon; its value is the rest without whitespace around it |
| StoredReviews.LastTrailerCounts | nota/src/trailer_store.rs:426-433 | of several trailers of one key the last one counts that says something |
| Trailers.NoteReadsBack | nota/src/trailer_store.rs:93-117 | every text without whitespace around it comes back whole from a note, with the note's own trailers and no others, so that no text forges or hides a marker or a source |
| Trailers.MarkerReadsBack | nota/src/trailer_store.rs:73-75 | a marker reads back as its subject and its branch without whitespace around it |
| StoredReviews.StoredMessages | nota/src/trailer_store.rs:57-117 | the messages that are stored, with their keys |
| Trailers.NoteTrailers | nota/src/trailer_store.rs:330-369 | a note's trailers make it a note with its source and not a marker |
| Repositories.HistoryFacts | nota/src/git.rs:55-56 | a first-parent history starts at its commit, has only commits of the repository, and none twice |
| Repositories.ExtendsKeeps | nota/src/git.rs:41-43 | making commits changes neither older commits nor their histories |
| Reviews.TrailerHasKeyLine | nota/src/git.rs:58-66 | a message with a trailer has a line that starts with its key and a colon, so the line filter loses no marker |
| Reviews.CandidatesSuffice | nota/src/trailer_store.rs:222-289 | scanning a history among the candidates gathered for any tips that reach it finds the same marker, or the same error, as reading every commit |
| Reviews.ReadAmongTips | nota/src/trailer_store.rs:212-289 | reading a branch among the candidates of many tips is reading it by itself |
| StoredReviews.NearestMarkerDecides | nota/src/trailer_store.rs:241-289 | reading any branch is decided by the commit nearest its tip with a review or a subject trailer: it must have both, name its own first parent and this branch, or the first of these that fails is reported; the entries are then all commits above it, oldest first |
| StoredReviews.NoMarkerNoReview | nota/src/trailer_store.rs:212-220 | a branch without such a commit is no review |
| StoredReviews.CommitSays | nota/src/trailer_store.rs:330-369 | what each commit reads as, or which of its faults is reported |
| StoredReviews.CommitsDecide | nota/src/trailer_store.rs:119-129 | a branch that reads as a review loads if and only if each of its commits reads as an entry, and as exactly these; otherwise the fault of the first commit that has one is reported |
| StoredReviews.MissingCommitIsNoticed | nota/src/trailer_store.rs:316-328 | entries are refused for their number if and only if some of them has no commit |
| TrailerStore.Git.CommitEmpty | nota/src/git.rs:41-43 | a commit is added whose only parent and stored message are those given, and no branch moves |
| TrailerStore.Git.CreateBranch | nota/src/git.rs:37-39 | the branch is created if and only if it does not exist, and nothing else changes |
| TrailerStore.Git.UpdateBranch | nota/src/git.rs:45-53 | the branch moves if and only if it still points where expected, and nothing else changes |
| TrailerStore.GitTrailerStore.DefaultBranch | nota/src/trailer_store.rs:190-211 | the loop ends, its measure being the existing branches that no candidate has named yet, at the name that `BranchNames.DefaultNameIsFirstFree` is about |
| TrailerStore.GitTrailerStore.StartReview | nota/src/trailer_store.rs:57-84 | the new repository and the result, including each failure, which changes nothing, are those of the review started on values |
| StoredReviews.ReviewIsStartedExactlyWhen | nota/src/trailer_store.rs:57-84 | a review is started if and only if the revision names a commit, Git accepts the branch's name and there is no such branch; the first of these that fails is reported, and nothing changed |
| TrailerStore.GitTrailerStore.ReadBranchAt | nota/src/trailer_store.rs:241-289 | scanning, truncating and reversing the history gives the nearest marker and the entries above it, oldest first, or the first malformed marker's error |
| TrailerStore.GitTrailerStore.LoadReview | nota/src/trailer_store.rs:119-129 | loading reads the branch and then all its entries, and fails as they do |
| TrailerStore.GitTrailerStore.AddNote | nota/src/trailer_store.rs:93-117 | the new repository and the result, including each failure, are those of the note added on values |
| TrailerStore.GitTrailerStore.ListReviews | nota/src/trailer_store.rs:131-187 | the loop over the sorted branches, and the early return without candidates, compute the listing that `Discovery.ListingRefinesLoading` is about |
| TrailerStore.GitTrailerStore.Summary | nota/src/trailer_store.rs:150-176 | one branch is read, left out for another subject, and its notes and suggestions are counted |
| TrailerStore.DefaultNameIsNeverTaken | nota/src/trailer_store.rs:57-84 | without a name given, starting a review never fails because the branch exists |
| BranchNames.CandidatesDiffer | nota/src/trailer_store.rs:203-209 | the candidate names are pairwise different |
| BranchNames.TryingOne | nota/src/trailer_store.rs:203-209 | each candidate that is taken leaves exactly one existing branch fewer that a later one could collide with |
| BranchNames.SearchIsShort | nota/src/trailer_store.rs:203-209 | the search takes at most as many steps as there are branches |
| BranchNames.DefaultNameIsFirstFree | nota/src/trailer_store.rs:190-211 | the name is unused, and all earlier candidates, in order from the base name, are used |
| StoredReviews.NamesAreTriedInOrder | nota/src/trailer_store.rs:190-211 | the names tried, in order: after the branch checked out, for `HEAD`, after a branch named, or after the first twelve characters of the commit's id; then with 2, 3 and so on |
| ReadBack.InReviewLoads | nota/src/trailer_store.rs:119-129 | a branch that holds certain entries above its marker loads as exactly these, oldest first |
| ReadBack.StartedReviewLoads | nota/src/trailer_store.rs:57-84 | a started review loads, empty, if and only if its branch name has no whitespace around it |
| ReadBack.UnloadableReview | nota/src/trailer_store.rs:57-84 | a name that Git accepts under which a review starts and then fails to load |
| ReadBack.NoteCommitReads | nota/src/trailer_store.rs:330-369 | the commit of a note reads as that note, with its text without whitespace around it and its source, and is no marker |
| ReadBack.SuggestionReads | nota/src/trailer_store.rs:330-369 | a commit with a message, changed files and no Nota trailer reads as that suggestion |
| ReadBack.AddNoteAppends | nota/src/trailer_store.rs:93-117 | adding a note succeeds if and only if its text is not blank and its source is accepted, and then adds exactly that entry at the end; otherwise the repository stays as it is |
| StoredReviews.SourceAcceptedExactly | nota/src/trailer_store.rs:291-314 | a source is accepted if and only if it names a commit by its full id, a file of it by a path without line feeds or whitespace around it, and lines of the file |
| StoredReviews.NoteIsAddedExactlyWhen | nota/src/trailer_store.rs:93-117 | on a review a note is added if and only if its text is not blank and its source is like that, and otherwise refused for the first that fails, with nothing changed |
| ReadBack.WorkElsewhereKeeps | nota/src/trailer_store.rs:212-289 | what happens elsewhere in the repository does not change a review |
| ReadBack.CopiedBranchIsRefused | nota/src/trailer_store.rs:241-289 | a review is read only under its own branch's name: another branch at the same tip is refused |
| ReadBack.ReviewReadsBack | nota/src/trailer_store.rs:57-129 | a review started on any commit, also on another review's branch, followed by any notes and suggestions, loads as exactly those entries, oldest first, with kind, text, files and source |
| Discovery.SummaryIsExpected | nota/src/trailer_store.rs:150-176 | among the candidates of all tips, a branch is summarised as loading it by itself says |
| Discovery.ListingRefinesLoading | nota/src/trailer_store.rs:131-187 | for any subject asked for, a branch is listed with its own counts, reported with its error, or left out, exactly as loading it by itself says, and reviews are in the order of their branch names |
| Discovery.EverythingLoadableIsListed | nota/src/trailer_store.rs:131-187 | with nothing asked for, a branch is listed if and only if its review loads, and reported if and only if it is a review that fails to load |
| StoredReviews.CountsAreRight | nota/src/trailer_store.rs:150-176 | the counts of notes and of suggestions are the numbers of those entries, and add up to all |
| ConcurrentAppends.AloneIsAddNote | nota/src/trailer_store.rs:93-117 | the separate steps of one writer, with nothing in between, come to what `add_note` does |
| ConcurrentAppends.StepKeeps | nota/src/trailer_store.rs:93-117 | every step of every writer, a suggestion, or work elsewhere keeps the review, the marker, and each writer's standing; entries are only added at the end and commits at the tip |
| ConcurrentAppends.StartedReviewIsInitial | nota/src/trailer_store.rs:57-84 | any writers can begin with a review that was just started, so the runs of the next rows exist |
| ConcurrentAppends.ReviewOnlyGrows | nota/src/trailer_store.rs:93-129 | in every run the review goes on loading, with the same marker and subject, its entries only grow at the end, and its history only at the tip |
| ConcurrentAppends.AppendsAreSafe | nota/src/trailer_store.rs:93-117 | in every state of every run, each writer that succeeded has its note in the review exactly once, after what was there before; a writer that lost finds its commit there if and only if another one made that very commit and succeeded; and every note added is that of a writer which succeeded |
| ConcurrentAppends.SameNoteTwice | nota/src/trailer_store.rs:93-117 | on every review and for every note that can be added, a run in which two writers make the same commit: one succeeds, and the other fails although the note is in the review |
| ConcurrentAppends.FailedNotesLeaveNoEntry | nota/src/trailer_store.rs:93-117 | when every commit made is new, a note whose writer failed is never in the review |
| AppServers.AppServer.constructor | genta/src/appserver.rs:112-126 | a new client knows no thread, has nothing queued, and counts requests from 3 |
| AppServers.AppServer.SendWithOptions | genta/src/appserver.rs:311-351 | a message is queued until the thread is known, and starts a turn with the next id from then on |
| AppServers.AppServer.SetCwd | genta/src/appserver.rs:353-357 | only the directory changes |
| AppServers.AppServer.Interrupt | genta/src/appserver.rs:363-385 | an interrupt takes the next id, or fails and changes nothing |
| AppServers.AppServer.BecomeReady | genta/src/appserver.rs:387-404 | the first thread is kept, and the loop sends what was queued, in order |
| AppServers.AppServer.HandleLine | genta/src/appserver.rs:143-278 | each kind of line changes the state and answers as the handshake and the notifications ask |
| AppServers.DeliveryIsInOrder | genta/src/appserver.rs:311-404 | over every sequence of calls, the texts of the turns started, followed by those queued, are the texts submitted, in order; requests since the handshake are numbered from 3 without a gap |
| AppServers.FirstThreadLastTurn | genta/src/appserver.rs:143-278 | over every sequence of calls, the thread is the one named first, and an interrupt is for the turn named last, and possible if and only if there are both |
| AppServers.HandshakeDeliversTheQueue | genta/src/appserver.rs:134-278 | whatever was called before, the answer to the first request asks to start or resume the thread and changes nothing; the answer to that makes the client ready if and only if it gives a thread or one was named before, and the first answer to do so sends all that was submitted until then, in order, on that thread |
| AppServerLines.TurnCarriesItsMessage | genta/src/appserver.rs:311-357 | after any calls, a message goes to the thread that was named first, with its text and options, in the directory set last, or is queued if no thread was named |
| AppServerLines.LinesAreAnswered | genta/src/appserver.rs:143-278 | what each kind of line leads to: replies to calls of tools, warnings of other requests, the error of a thread that cannot be opened, and nothing for other answers |
| AppServerLines.ReadyIsAnnounced | genta/src/appserver.rs:387-404 | the line that makes the client ready is announced, with the thread, before what is sent then |
| AppServerLines.NothingElseIsAnswered | genta/src/appserver.rs:143-278 | replies, warnings, errors and the steps of the handshake are for those lines only |
| AppServerLines.ShownOnce | genta/src/appserver.rs:143-278 | a line is shown as an event at most once, after what it leads to, and if and only if it is no JSON, opens the thread, or is a notification that the decoder knows and that does not name a thread again |
| AppServerRuns.EveryMessageIsInOnePlace | genta/src/appserver.rs:311-404 | in every interleaving each submission is sent, about to be sent or queued, exactly once; a turn is on the text of its submission; the client is ready if and only if the thread is known, which then stays the same with nothing queued; ids are all different and above 2 |
| AppServerRuns.TextsAreConserved | genta/src/appserver.rs:311-404 | in every interleaving the texts submitted are those sent, about to be sent and queued, and those sent once the queue is sent |
| AppServerRuns.OrderIsKeptExactlyWhen | genta/src/appserver.rs:311-404 | in every interleaving submissions are sent in order if and only if none is made while the queue is being sent; for texts that differ, the same of the texts |
| AppServerRuns.OptionsArriveExactlyWhen | genta/src/appserver.rs:311-351 | in every interleaving a turn carries the model and effort of its submission if and only if the thread was known when it was made, or it had neither |
| AppServerRuns.SubmissionsStay | genta/src/appserver.rs:311-351 | what was submitted, and whether the thread was known then, is recorded when it happens and not changed later |
| AppServerRuns.QueuedMessageIsOvertakenAndLosesItsModel | genta/src/appserver.rs:387-404 | an interleaving in which the second message is sent before the first, and the first without its model |
| ClaudeStreams.ClaudeStream.SendTurn | genta/src/claude_stream.rs:44-61 | a turn is sent at once, rides along with a bare switch to its model, or waits for a change of its own; which of several switches it rides on is left open, as the order of a hash map is |
| ClaudeStreams.ClaudeStream.ChooseModel | genta/src/claude_stream.rs:63-72 | choosing another model asks for it, and choosing the recorded one does nothing |
| ClaudeStreams.ClaudeStream.RequestModel | genta/src/claude_stream.rs:74-92 | a request takes the next id and is remembered with what it holds back |
| ClaudeStreams.ClaudeStream.InterruptTurn | genta/src/claude_stream.rs:94-109 | an interrupt takes the next id and is remembered |
| ClaudeStreams.ClaudeStream.HandleLine | genta/src/claude_stream.rs:111-178 | each answer settles the request that it names, and any other line changes nothing |
| ClaudeStreams.StepKeeps | genta/src/claude_stream.rs:44-178 | every call keeps the accounting of turns, completions and ids |
| ClaudeStreams.TurnsAreConserved | genta/src/claude_stream.rs:44-178 | in every run, with answers in any order, repeated or unknown, each submission is sent, held or rejected, exactly once; a turn submitted with a model is sent only while that model is recorded; each rejection of a held turn and each acknowledged interrupt completes exactly one turn; no id is used twice |
| ClaudeStreams.HeldUntilAnswered | genta/src/claude_stream.rs:111-178 | a held turn stays held until its own request is answered, and is then sent under its model or rejected |
| ClaudeStreams.LastChoiceIsRecordedExactlyWhen | genta/src/claude_stream.rs:44-178 | in every run, when all changes pending since the last choice are acknowledged in order, the model chosen last is recorded if and only if the choice made a request, or the last change pending, or else the recorded model, was that one already |
| ClaudeStreams.ReturningIsIgnored | genta/src/claude_stream.rs:63-72 | a run in which the recorded model is chosen again while another one is pending, and the other one is recorded in the end |
| ClaudeRuns.PendingModelIsTheOneNamed | genta/src/claude_stream.rs:74-92 | over every run, the model that a pending change would record is the only one that Claude was asked for under its id |
| ClaudeRuns.RecordedIsWhatClaudeIsOn | genta/src/claude_stream.rs:44-178 | over every run with a Claude that reads messages and answers each request once, in order, accepting it or not, the model that it is on is the one recorded once its answers under way are heard, and so the recorded one when none of these is to a change |
| ClaudeRuns.TurnIsSentOnItsModel | genta/src/claude_stream.rs:44-178 | a turn submitted with a model is sent while that is the recorded one, and Claude's if no answer to a change is under way |
| ClaudeRuns.TurnsRunOnTheModelNamedLast | genta/src/claude_stream.rs:44-178 | when Claude refuses no change, it runs the turns that were sent, in order, each on the model that was named last before it |
| ClaudeRuns.SettledTurnRunsOnItsModel | genta/src/claude_stream.rs:44-61 | a turn sent with the recorded model while no change is pending runs on it |
| ClaudeRuns.TurnRunsOnAnotherModel | genta/src/claude_stream.rs:44-61 | a run in which a turn is sent with the recorded model behind a change, and runs on the other model |
| Usage.UsageTracker.Observe | genta/src/event.rs:1746-1775 | the update in place of the three fields and of the event is the step that the lemmas below are about |
| Usage.AccumulatedIsTheSum | genta/src/event.rs:1746-1775 | whatever the provider states, the accumulated total is the sum, modulo 64 bits, of the spends that turns end up with since the last thread started |
| Usage.PerTurnTotalsAreSums | genta/src/event.rs:1746-1775 | with per-turn spends only, each turn keeps the spend it stated and its total is the componentwise sum of those since the last thread started |
| Usage.DerivedSpendsAddUp | genta/src/event.rs:44-73 | with running totals only, the derived spends never add up to more than the running total, so adding them never overflows, and at the end of a turn they add up to it if and only if it did not grow between turns |
| Usage.SpendBetweenTurnsIsLost | genta/src/event.rs:44-73 | two turns whose spends add up to twelve tokens of a running total of fifteen |
| Usage.NothingIsLost | genta/src/event.rs:1746-1775 | when totals are stated only during turns, the spends of the turns add up to the running total |
| Usage.EndOfTurnReports | genta/src/event.rs:1746-1775 | whatever was stated before, the end of a turn reports the spend that it states, else what each counter of the running total grew by since the last start or end of a turn, and the total that it states, else the running one, else the sum of the spends |
| Sessions.ReadClaudeContent | genta/src/session.rs:158-179 | the loop over content blocks collects the parts that the readers join |
| Sessions.ReadClaude | genta/src/session.rs:114-156 | one pass over the records finds the first id, directory and timestamp and all messages |
| Sessions.ReadCodexMessages | genta/src/session.rs:207-232 | the loop collects the messages of the response items, in order |
| RecordReading.ConversationAddsItsMessage | genta/src/session.rs:114-179 | in any records, one of the user's or the assistant's that is neither meta nor of a side chain and has text adds exactly one message at its place, with its role, text and timestamp; its text is a string, or what its blocks say, each in order: texts as they are, calls and results of tools as notes, unknown blocks as markers, thinking left out |
| RecordReading.OtherRecordsAddNothing | genta/src/session.rs:114-156 | any other record adds none, and taking it out leaves the messages as they are |
| RecordReading.FirstRecordCounts | genta/src/session.rs:114-156 | the id, directory and timestamp are those of the first record of any kind that has one, and `sessionId` comes before `session_id` |
| RecordReading.ReadableExactlyWhen | genta/src/session.rs:114-156 | a Claude file can be read if and only if some record has each of the three, and the first that is missing is reported |
| RecordReading.ItemAddsItsMessage | genta/src/session.rs:192-260 | in any records of Codex's, a response item that is a message of the user's or the assistant's and has text adds exactly one message at its place, with refusals as text and unknown blocks as markers |
| RecordReading.OtherItemsAddNothing | genta/src/session.rs:192-260 | any other record adds none |
| RecordReading.MetadataCounts | genta/src/session.rs:192-206 | a Codex file is read by the payload of its first metadata record, with `id` before `session_id` and its own timestamp before the record's; the first that is missing is reported |
| RecordReading.WithoutMetadata | genta/src/session.rs:192-206 | without a metadata record it cannot be read |
| RecordReading.WithoutPayload | genta/src/session.rs:192-206 | nor without a payload in it |
| Sessions.WriteClaude | genta/src/session.rs:291-313 | the loop that remembers the parent writes the records that `Sessions.OneParentChain` is about |
| Sessions.WriteCodex | genta/src/session.rs:262-289 | the loop that counts turns writes the records that `Sessions.CodexNumbersTurns` is about |
| RecordWriting.ClaudeRecordHas | genta/src/session.rs:291-313 | a Claude file has one record for each message, with its role, text and time, and the session's id and directory |
| RecordWriting.CodexFileHas | genta/src/session.rs:262-289 | a Codex file begins with the session's id, directory and time, and says each message once as an event, in order |
| RecordWriting.CompletionIs | genta/src/session.rs:262-289 | the record that ends the last turn names it |
| Sessions.ConvertSession | genta/src/session.rs:64-86 | the changes to the parsed session's fields and its serialization are one conversion |
| RecordWriting.ConvertedSessionIs | genta/src/session.rs:64-86 | a converted session reads back with the id asked for, else a new one when the format changes, else its own, and with the directory and timestamp asked for, else its own |
| Sessions.UnwrappingChanges | genta/src/session.rs:181-190 | a user text is read back as it is if and only if it is not a query in tags |
| RecordReading.UnwrappedExactly | genta/src/session.rs:181-190 | a text is unwrapped if and only if without whitespace around it it is a query in tags that is not blank, and to that query without whitespace around it |
| Sessions.CodexRoundTrip | genta/src/session.rs:192-289 | every session reads back from Codex's format as it was, with missing timestamps filled in |
| Sessions.ClaudeReadsBack | genta/src/session.rs:114-313 | what a session reads back as from Claude's format, with its first message's timestamp, and that without messages it cannot be read |
| Sessions.ClaudeRoundTrip | genta/src/session.rs:114-313 | the messages survive Claude's format, with missing timestamps filled in, if and only if there is a message and no user text is a query in tags |
| Sessions.QueryInTagsIsUnwrapped | genta/src/session.rs:181-190 | what is in the tags, without whitespace around it, is what is read, unless it is blank |
| Sessions.TaggedQueryIsNotKept | genta/src/session.rs:114-313 | a session of one tagged query that reads back without the tags |
| Sessions.OneParentChain | genta/src/session.rs:291-313 | each record of a Claude file names the one before it as its parent, in the order of the messages, and the first names none |
| Sessions.CodexNumbersTurns | genta/src/session.rs:262-289 | a Codex file starts one turn for each user message, numbered from 1 in order, and ends with the completion of the last |
| Sessions.KeepingCommutes | genta/src/session.rs:64-86 | for any formats, texts and number, keeping the first messages commutes with converting; the file can be read if and only if it is Codex's or has a message |
| Sessions.ChainsPreserveMessages | genta/src/session.rs:64-86 | through any chain of conversions the messages keep their roles, texts and order, and those without a timestamp get the session's, if and only if the chain never goes to Claude's format, or there is a message and no user text is a query in tags |
| TerminalText.CleanTerminalText | genta/src/event.rs:1932-1978 | the loop with its two inner loops computes the cleaning that the lemmas below are about |
| TerminalText.CleaningIsIdempotent | genta/src/event.rs:1932-1978 | cleaning twice is cleaning once, and a text is left as it is if and only if it has no control character but newlines |
| TerminalText.CleanIsShowable | genta/src/event.rs:1932-1978 | what comes out has no control character but newlines |
| TerminalText.CharactersAreShown | genta/src/event.rs:1932-1978 | outside of escapes line feeds stay, a tab is four spaces, other control characters go, and all other characters stay |
| TerminalText.OnlyEscapesAreErased | genta/src/event.rs:1932-1978 | of any interleaving of runs, complete control sequences that ESC `[` starts (section 5.4 of ECMA-48), operating system commands that ESC `]` starts and BEL or ESC `\` ends (section 5.6) and two-character escapes, with one cut short at the end, exactly the runs are left, with tabs as four spaces |
| TerminalText.EveryTextIsSegments | genta/src/event.rs:1932-1978 | every text is such an interleaving |
| EscapeForms.PlainTextIsLeftExactlyWhen | genta/src/event.rs:1932-1978 | of any interleaving of plain text, control sequences and control strings in both forms of their start and end (sections 5.4 and 5.6 of ECMA-48) and escapes of any length (section 13 of ECMA-35), exactly the characters of the plain text are shown if and only if, outside of what is taken for a command, no control sequence begins with U+009B, no escape is longer than two characters, and no string but one from ESC `]` has text to show; and within it, which lasts from such a string that U+009C ends to the next BEL or ESC `\`, there is no plain text to show; that text is then what comes out |
| EscapeForms.TextsCanAgreeByChance | genta/src/event.rs:1932-1978 | why that is said of characters: a text in which what is shown too much makes up for what is dropped |
| EscapeForms.KnownFormsAreRight | genta/src/event.rs:1932-1978 | so it is for every interleaving of the forms that the code knows |
| EscapeForms.SingleControlIsShown | genta/src/event.rs:1942-1950 | a control sequence that U+009B starts, which is shown |
| EscapeForms.SingleCommandIsShown | genta/src/event.rs:1951-1963 | an operating system command that U+009D starts, whose text is shown |
| EscapeForms.SingleEndIsPassedBy | genta/src/event.rs:1951-1963 | an operating system command that U+009C ends, after which text is dropped |
| EscapeForms.DeviceControlIsShown | genta/src/event.rs:1964-1967 | a device control string, whose text is shown |
| EscapeForms.LongEscapeLeavesItsTail | genta/src/event.rs:1964-1967 | ESC ( B, of which the B is shown |
| MountPlans.ValidateMounts | driva/src/lib.rs:335-356 | the loop that rewrites mounts and remembers destinations is the validation of the next two rows |
| MountPlans.ValidationIsSound | driva/src/lib.rs:335-356 | validated mounts have absolute destinations that all differ, their kinds and access as requested, and canonical sources |
| MountPlans.ValidationIsComplete | driva/src/lib.rs:335-356 | a request's mounts are accepted if and only if each one is by itself and no two destinations are the same |
| Sandboxes.AcceptedExactly | driva/src/lib.rs:335-376 | validation returns exactly one mount for each that was asked for, in order, at the place that it names, from the real path of its source, with `~` in sources and in temporary mounts standing for the home directory, if all places differ |
| Sandboxes.WhyRefused | driva/src/lib.rs:335-376 | which of a mount's faults is reported |
| MountPlans.PlanIsStablePermutation | driva/src/bwrap.rs:44-53 | the plan rearranges the mounts by depth and keeps the order of those of one depth |
| MountPlans.PlanIsValidated | driva/src/bwrap.rs:18-53 | in either mode the plan's destinations are absolute and all differ |
| MountPlans.OverlaidPlanBindsNothingForWriting | driva/src/bwrap.rs:18-42 | with overlays the plan binds nothing for writing; each of its mounts is one that was asked for, or the overlay of a writable bind |
| MountPlans.DirectPlanIsTheRequest | driva/src/bwrap.rs:18-42 | otherwise the plan has exactly the mounts that were asked for |
| MountPlans.AppendMounts | driva/src/bwrap.rs:458-497 | the loop gives each bind and overlay its operation, in order, and a temporary mount none |
| MountPlans.LastMountIsSeen | driva/src/bwrap.rs:44-53 | whatever the destinations, every path shows the bind or overlay around it, if there is one, that has the most components, and of those with as many the one requested last |
| MountPlans.HiddenExactlyWhen | driva/src/bwrap.rs:44-53 | a mount is hidden at its own destination if and only if another one around that place is laid down after it |
| MountPlans.UpwardDestinationHides | driva/src/lib.rs:335-356 | two binds that validation accepts, of which the one at `/a/../b` hides the one at `/b` |
| MountPlans.DeepestMountIsSeen | driva/src/bwrap.rs:44-53 | when no destination has `..`, every path shows the bind or overlay with the deepest destination around it, if there is one |
| MountPlans.NothingIsHidden | driva/src/bwrap.rs:44-53 | when no destination has `..`, every bind and overlay that was asked for is seen at its own destination |
| Sandboxes.SeenAsAsked | driva/src/bwrap.rs:458-497 | wherever a mount is seen, a bind for reading is seen as one from its source, a bind for writing as one unless it is overlaid, and an overlay as one from its source or, for a file, as its private copy |
| Sandboxes.EachSeenAsAsked | driva/src/bwrap.rs:44-53 | so it is for every mount at its own destination when no destination has `..` |
| Sandboxes.WritableExactly | driva/src/bwrap.rs:18-497 | what is laid down for writing are the sources of binds that asked for it, when they are not overlaid, and the private copies of files that are |
| Sandboxes.OverlaidWritesReachCopiesOnly | driva/src/bwrap.rs:18-497 | with overlays only private copies can be written to |
| Sorting.SortSorts | driva/src/bwrap.rs:49-53 | sorting by a total preorder gives a sorted permutation |
| Sorting.SortKeepsTies | driva/src/bwrap.rs:44-53 | the sort is stable |
| Sorting.StableOrder | driva/src/bwrap.rs:44-53 | when no element occurs twice, of two ties the one that comes first stays first |

## Left out

- Running `git`, `bwrap` and agents, files, locks, threads, and the text of JSON: their answers are parameters or tagged values.
- How `SystemGit` asks `git` and reads its answers, other than diffs and logs: the models of reviews start from what the `Git` trait documents, which reading a log keeps to exactly when `LogText.LogReadsBack` says.
- Git's choice between several diffs of two texts: every statement about places is relative to the script given.
- Removal of commits by Git while a note is being added, and branches that are moved other than forward.
- UTF-8 decoding in front of the diff and log readers, which replaces bytes that are not UTF-8: paths in a log are of Unicode characters.
- `check-ref-format`: which names Git accepts is a parameter; the model uses only that they have no space or control character.
- The events that Genta decodes from provider lines, and their rendering.
- Tools that the host executes for `AppServer`: such a call is answered with one reply.
- Temporary mounts in what is seen where: they are part of the floor below all binds.
- Symbolic links in destinations: `..` is resolved on the components.
- Prepared root file systems, base capabilities and templates of Driva; Linka, Orka, Styra and all user interfaces.
- PerTurnTotalsAreSums: sums are modulo 64 bits, because spends that a provider states by themselves have no limit on their sum.
