# Ice-breaker app, modelled in Dafny

The ice-breaker app gives teams random conversation questions. A question a team has used
or skipped is not offered to that team again. It also publishes release notes built from
the git log. This project models the app's core and proves properties of the model:

- **`Server`** (`server.dfy`): the Express backend. It has four collections: questions,
  teams, the usage ledger and the skip ledger. They are the fields of the `Database` class.
  Each REST handler is a method of that class. What a handler decides (the error it answers
  with, the record it stores, the question it draws) is a function beside the class. Lemmas
  about those functions give the handler's meaning: a used or skipped question is not
  offered again, a reset brings every question back, and the ledgers hold at most one
  record per team and question.
- **`ReleaseScript`** (`release_script.dfy`): the release-notes script. It parses the
  `%h|%s|%an|%ad` git log, sorts commits into buckets by their subject keywords, computes
  the author statistics, writes the Markdown notes and the entry it adds to
  `releases.json`, and keeps at most fifty releases.
- **`VersionBump`** (`increment_version.dfy`): the major/minor/patch bump of the version
  script.
- **`Releases`** (`use_releases.dfy`): the `useReleases` hook. It holds the loaded release
  list, falls back to an empty list, and answers the queries the page makes of that list.
- **`ReleaseNotesView`** (`release_notes_view.dfy`): the release-notes page. It covers the
  expand/collapse toggle, the category labels, the per-category commit sections (fixed
  order, keyword filters, at most ten commits shown) and the contributor lists.
- **`TeamScreen`** (`team_interface.dfy`): the team screen. The `TeamInterface` class holds
  the component's eight state values, and one method per handler updates them. Beside the
  class are the merge and filter of name suggestions, the guard of the use and skip
  buttons, the outcomes of a question fetch and the choice of the shown view.
- **`Text`, `Seqs`, `Wrappers`**: the JavaScript built-ins these rely on, in the same
  style. Covered are `trim`, ASCII `toLowerCase`, `includes` and `startsWith`, `split` and
  `join`, decimal printing and parsing, the `new Set` de-duplication, `filter`, `slice`,
  and sorting by code points.

The effects of the source become parameters of the model:

- `Math.random()` becomes a `draw` in [0, 1).
- The current time becomes the string `now`.
- Fresh document ids are passed in.
- An HTTP reply is a `Reply` value: the data, an error status, or no response.

## Model

| member | source | states |
|---|---|---|
| Server.ParseCategory | backend/models/Question.js:9-14 | a category string is accepted exactly when it is one of the six enum values |
| Server.ParseDifficulty | backend/models/Question.js:15-20 | a difficulty string is accepted exactly when it is easy, medium or hard |
| Server.Status | backend/server.js:203-309 | every error answers 400, 404 or 500; 404 exactly for an unknown team, an unknown question or an exhausted team; 500 exactly for a failed save |
| Server.MessagesDistinct | backend/server.js:183-298 | different errors answer different `error` texts |
| Server.SelectRepliesOf | backend/server.js:208-216 | a refused question request answers 404 with "Team not found" or "No more questions available for this team" |
| Server.RecordRepliesOf | backend/server.js:234-298 | a refused use or skip request answers one of that route's five status and text pairs, the duplicate text naming the route's own ledger |
| Server.TeamRepliesOf | backend/server.js:181-198 | a refused team creation answers 400 "Team name is required", 400 "Team name already exists" or 500 "Failed to create team" |
| Server.QuestionRepliesOf | backend/server.js:367-382 | a refused question creation answers 400 "Question text is required" or 500 "Failed to add question" |
| Server.Available | backend/server.js:151-163 | a question is available to a team exactly when it exists and that team has neither used nor skipped it |
| Server.Open | backend/server.js:153-158 | the `$nin` test on the team's used and skipped ids; `Server.Available` states the list it selects |
| Server.AvailableIgnoresOtherTeams | backend/server.js:153-154 | availability depends only on the team's own ledger records |
| Server.RandomIndex | backend/server.js:219 | `floor(draw * n)` is a valid index for a non-empty list |
| Server.EveryIndexDrawable | backend/server.js:219 | every index is the result of some draw in [0, 1) |
| Server.SelectQuestion | backend/server.js:203-227 | an unknown team gives 404 Team not found; a team with nothing available gives 404 No more questions; success exactly otherwise, with a question the team has neither used nor skipped |
| Server.EveryAvailableQuestionSelectable | backend/server.js:215-222 | every available question is returned for some draw |
| Server.OnlyRemainingQuestionIsSelected | backend/server.js:151-222 | with three questions, one used and one skipped, every draw returns the third |
| Server.CheckRecord | backend/server.js:230-309 | the checks of the use and skip routes in their source order: a missing question id, then a missing or blank user name, then an unknown team, then an unknown question, then an existing record (the error names the ledger); otherwise the record of the team, the question and the trimmed name |
| Server.CheckRecordKeepsTrimmedName | backend/server.js:235-241 | a request with a question id and a non-empty trimmed name passes both field checks, and a stored record keeps that name unchanged |
| Server.HasEntrySnoc | backend/server.js:255-261 | a ledger with one more record has a pair exactly when the old ledger had it or the new record is that pair |
| Server.RecordedQuestionUnavailable | backend/server.js:151-163 | after a use or a skip, that question drops out of the team's available list, and no other team's list changes |
| Server.WithoutTeam | backend/server.js:490-493 | after a reset, the ledger holds exactly the old records of other teams |
| Server.WithoutQuestionEntries | backend/server.js:420-421 | after a deletion, the ledger holds exactly the old records of other questions |
| Server.WithoutQuestion | backend/server.js:414 | after a deletion, the collection holds exactly the other questions |
| Server.ResetIdempotent | backend/server.js:479-500 | resetting twice is the same as resetting once |
| Server.ResetKeepsOtherTeams | backend/server.js:490-493 | a reset leaves every other team's records as they were |
| Server.ResetRestoresAllQuestions | backend/server.js:479-500 | after a reset, every question is available to the team again, in collection order |
| Server.HasEntryWithoutQuestion | backend/server.js:420-421 | deleting a question's records leaves the records of every other question |
| Server.DeleteQuestionAvailability | backend/server.js:410-428 | after a deletion, a team's available list is the old one without the deleted question |
| Server.Names | backend/server.js:318-319 | the distinct names are exactly the names in the ledger |
| Server.TeamUserNames | backend/server.js:312-330 | strictly sorted, and a name is listed exactly when the team used or skipped something under it |
| Server.AllUserNames | backend/server.js:333-349 | strictly sorted, and a name is listed exactly when some record carries it |
| Server.TeamNamesAreGlobal | backend/server.js:312-349 | every name suggested for a team is also in the global list |
| Server.NewTeam | backend/server.js:179-200 | a missing or empty name gives Team name is required; an all-space name fails the trimmed required check (500); a trimmed name already taken gives Team name already exists; otherwise a team with the trimmed name and the given colour or the default `#3B82F6` |
| Server.NewQuestion | backend/server.js:365-384 | missing or empty text gives Question text is required; blank text or an out-of-enum category or difficulty fails validation (500); otherwise the trimmed text, with `general` and `medium` for a missing category or difficulty |
| Server.CheckedRecordKeepsLedger | backend/models/UsageHistory.js:14-24 | storing a checked record keeps one record per team and question, each naming an existing team and question and a non-empty trimmed user |
| Server.NewRecordKeepsLedger | backend/models/SkippedQuestion.js:14-24 | a record for a new pair, naming an existing team and question and a non-empty trimmed user, keeps the ledger invariants |
| Server.UseKeepsConsistent | backend/server.js:255-261 | storing the record the use route accepts keeps the database invariant |
| Server.SkipKeepsConsistent | backend/server.js:296-302 | storing the record the skip route accepts keeps the database invariant |
| Server.ResetKeepsConsistent | backend/server.js:490-493 | removing one team's records keeps the database invariant |
| Server.DeleteKeepsConsistent | backend/server.js:414-421 | removing a question with its records keeps the database invariant, so no record names a deleted question |
| Server.NewTeamKeepsConsistent | backend/server.js:186-191 | storing the team the route accepts keeps ids and names unique and the ledgers well formed |
| Server.NewQuestionKeepsConsistent | backend/server.js:372-378 | storing the question the route accepts keeps ids unique and the ledgers well formed |
| Server.Database.constructor | backend/server.js:8-12 | the four empty collections satisfy the database invariant |
| Server.Database.GetQuestion | backend/server.js:203-227 | the route answers what `SelectQuestion` decides for the current collections |
| Server.Database.UseQuestion | backend/server.js:230-268 | answers the `CheckRecord` verdict, appends its record to the usage ledger on success, changes nothing else, and keeps the invariant |
| Server.Database.SkipQuestion | backend/server.js:271-309 | the same on the skip ledger |
| Server.Database.TeamUsers | backend/server.js:312-330 | answers `TeamUserNames` of the current ledgers |
| Server.Database.AllUsers | backend/server.js:333-349 | answers `AllUserNames` of the current ledgers |
| Server.Database.ResetTeam | backend/server.js:479-500 | for a known team, removes that team's records from both ledgers; for an unknown team, answers 404 "Team not found" and changes nothing; keeps the invariant |
| Server.Database.DeleteQuestion | backend/server.js:410-428 | for a known question, removes it and its records from both ledgers; for an unknown question, answers 404 "Question not found" and changes nothing; keeps the invariant |
| Server.Database.CreateTeam | backend/server.js:179-200 | appends the team `NewTeam` accepts, changes nothing on failure, and keeps names unique |
| Server.Database.CreateQuestion | backend/server.js:365-384 | appends the question `NewQuestion` accepts, changes nothing on failure, and keeps the invariant |
| Server.AddTeamKeepsInvariants | backend/models/Team.js:4-9 | adding a team with a fresh id and an unused name keeps ids and names unique and the ledgers well formed |
| Server.AddQuestionKeepsInvariants | backend/server.js:372-378 | adding a question with a fresh id keeps ids unique and the ledgers well formed |
| Server.WellFormedGrows | backend/server.js:244-252 | a ledger that names existing teams and questions still does so after either collection grows |
| Server.FilterKeepsUniqueIds | backend/server.js:414 | removing questions keeps ids unique |
| ReleaseScript.Field | scripts/generate-release-notes.js:38-43 | `field?.trim()`: present exactly when the line had that many fields, and then trimmed |
| ReleaseScript.ParseLine | scripts/generate-release-notes.js:37-45 | a line split on `\|` is dropped exactly when its trimmed hash or subject is empty or missing; otherwise it gives the commit of its trimmed hash and subject and its trimmed author and date (absent when the line lacks them), which is well formed |
| ReleaseScript.ParseSplit | scripts/generate-release-notes.js:38-45 | the same, for a line already split on `\|` |
| ReleaseScript.ParseLines | scripts/generate-release-notes.js:37-45 | no lines give no commits; a commit is listed exactly when some line parses to it, at most one per line, every one well formed |
| ReleaseScript.ParseLinesOne | scripts/generate-release-notes.js:37-45 | one line gives its own commit, or nothing when it is dropped |
| ReleaseScript.ParseCommits | scripts/generate-release-notes.js:34-46 | an empty log gives no commits; otherwise a commit is listed exactly when some line of the log parses to it, at most one per line, each with a hash and a subject |
| ReleaseScript.ParseLinesAppend | scripts/generate-release-notes.js:37-45 | parsing works line by line: parsing two blocks of lines is parsing each and concatenating |
| ReleaseScript.Fields | scripts/generate-release-notes.js:23 | the four `%h\|%s\|%an\|%ad` fields of a commit |
| ReleaseScript.FormatLines | scripts/generate-release-notes.js:23 | one formatted log line per commit, in order |
| ReleaseScript.FormatLine | scripts/generate-release-notes.js:23 | the `%h\|%s\|%an\|%ad` line git prints for a commit; `ParseFormatLine` states that it parses back |
| ReleaseScript.ParseFields | scripts/generate-release-notes.js:38-44 | the four fields of a well-formed commit parse back to it |
| ReleaseScript.ParseTrimmedFields | scripts/generate-release-notes.js:38-44 | four trimmed fields whose hash and subject are non-empty parse to the commit they spell |
| ReleaseScript.TrimmedField | scripts/generate-release-notes.js:40-43 | a field that is already trimmed is read unchanged |
| ReleaseScript.ParseSplitOf | scripts/generate-release-notes.js:38-45 | four fields that read as a commit's parts parse to that commit |
| ReleaseScript.SplitFormatLine | scripts/generate-release-notes.js:23-38 | a commit whose fields hold no `\|` or newline splits back into its four fields |
| ReleaseScript.ParseFormatLine | scripts/generate-release-notes.js:23-45 | a log line written by git for such a commit parses back to that commit |
| ReleaseScript.ParseFormat | scripts/generate-release-notes.js:16-46 | round trip: parsing the log git prints for a list of such commits gives back exactly that list |
| ReleaseScript.ParseFormatLines | scripts/generate-release-notes.js:37-45 | parsing the formatted lines of such commits gives back the commits |
| ReleaseScript.FormatLinesPrintable | scripts/generate-release-notes.js:23-37 | no formatted line contains a newline, so splitting the log gives back the lines |
| ReleaseScript.JoinNonEmpty | scripts/generate-release-notes.js:35 | a log whose first line is non-empty is not empty, so the early empty-log return is not taken |
| ReleaseScript.Classify | scripts/generate-release-notes.js:58-70 | on the lower-cased subject the first matching rule decides, in the order breaking, features, fixes, improvements, chores, each stated as an if-and-only-if; a subject that matches none of the first four and names `version bump` or `chore: version` is dropped; the `breaking change` test adds nothing to `breaking` |
| ReleaseScript.Categories.Total | scripts/generate-release-notes.js:165 | the `reduce` over the five buckets counts every bucketed commit |
| ReleaseScript.PutGet | scripts/generate-release-notes.js:57-71 | one step of `forEach` pushes the commit onto its own bucket and leaves the others |
| ReleaseScript.Put | scripts/generate-release-notes.js:60-70 | one push of the `forEach`; `PutGet`, `PutTotal` and `PutFlat` state its effect on the buckets |
| ReleaseScript.PutTotal | scripts/generate-release-notes.js:57-71 | one step adds one to the total exactly when the commit is kept |
| ReleaseScript.PutFlat | scripts/generate-release-notes.js:57-71 | one step adds the commit to the flattened buckets exactly when it is kept |
| ReleaseScript.PutFlatBreaking | scripts/generate-release-notes.js:60-61 | a breaking commit is added to the flattened buckets |
| ReleaseScript.PutFlatFeature | scripts/generate-release-notes.js:62-63 | a feature commit is added to the flattened buckets |
| ReleaseScript.PutFlatFix | scripts/generate-release-notes.js:64-65 | a fix commit is added to the flattened buckets |
| ReleaseScript.PutFlatImprovement | scripts/generate-release-notes.js:66-67 | an improvement commit is added to the flattened buckets |
| ReleaseScript.PutFlatChore | scripts/generate-release-notes.js:68-69 | an other-change commit is added to the flattened buckets |
| ReleaseScript.CategorizeSnoc | scripts/generate-release-notes.js:57-71 | categorising one more commit is one more `Put` step |
| ReleaseScript.CategorizeCommits | scripts/generate-release-notes.js:48-74 | the `forEach` loop builds the categorisation of the whole list |
| ReleaseScript.CategorizeBuckets | scripts/generate-release-notes.js:48-74 | each bucket holds exactly the commits classified into it, in log order |
| ReleaseScript.Categorize | scripts/generate-release-notes.js:48-74 | the buckets of `categorizeCommits`; `CategorizeCommits` proves the loop computes them, and `CategorizeBuckets`, `BucketsExclusive` and `FlatIsKept` state their contents |
| ReleaseScript.BucketSizes | scripts/generate-release-notes.js:68 | the buckets together with the dropped version-bump commits account for every commit |
| ReleaseScript.BucketsExclusive | scripts/generate-release-notes.js:60-70 | no commit lands in two buckets |
| ReleaseScript.FlatIsKept | scripts/generate-release-notes.js:167 | the flattened buckets are a permutation of the kept commits |
| ReleaseScript.Authors | scripts/generate-release-notes.js:214 | `commits.map(c => c.author)`, in commit order |
| ReleaseScript.AuthorKeys | scripts/generate-release-notes.js:216 | the property key each author counts under, in commit order |
| ReleaseScript.AuthorCountsKeys | scripts/generate-release-notes.js:215-218 | an author has a count exactly when they wrote some commit |
| ReleaseScript.AuthorCountsValue | scripts/generate-release-notes.js:215-218 | an author's count is the number of their commits |
| ReleaseScript.ComputeStats | scripts/generate-release-notes.js:212-219 | the total is the number of commits; the unique authors are duplicate-free, are exactly the commits' authors and come in the order of their first commits; each has a count, and each count is that author's number of commits |
| ReleaseScript.AuthorsOccur | scripts/generate-release-notes.js:214 | an author is listed exactly when some commit has them |
| ReleaseScript.AuthorKeysCounted | scripts/generate-release-notes.js:134 | every listed contributor has a count, which the contributor line prints |
| ReleaseScript.AuthorCountsValues | scripts/generate-release-notes.js:215-218 | every count is the number of commits by that author |
| ReleaseScript.SumCountsOther | scripts/generate-release-notes.js:216 | updating one author's count leaves the sum over other authors |
| ReleaseScript.SumCountsBump | scripts/generate-release-notes.js:216 | one more commit by a known author adds one to the sum |
| ReleaseScript.AuthorCountsSum | scripts/generate-release-notes.js:212-219 | the counts over the distinct authors add up to the number of commits |
| ReleaseScript.AuthorCounts | scripts/generate-release-notes.js:215-218 | the `reduce` into `authorCounts`; `AuthorCountsKeys`, `AuthorCountsValue` and `AuthorCountsSum` state its keys, values and total |
| ReleaseScript.SumCountsSnoc | scripts/generate-release-notes.js:216 | one more commit, by a known or a new author, adds one to the sum |
| ReleaseScript.SumCountsNew | scripts/generate-release-notes.js:216 | a new author starts at one |
| ReleaseScript.IsoDate | scripts/generate-release-notes.js:77 | the part of the ISO time stamp before its first `T`: it contains no `T`, is a prefix of the stamp, and is followed by `T` unless it is the whole stamp |
| ReleaseScript.CommitLinesSnoc | scripts/generate-release-notes.js:89-91 | one more commit adds exactly its own line to the section body |
| ReleaseScript.Section | scripts/generate-release-notes.js:86-129 | an empty bucket writes nothing; a non-empty one writes its heading first |
| ReleaseScript.Plural | scripts/generate-release-notes.js:83 | the `s` suffix appears exactly when the count is not one |
| ReleaseScript.ChangesLine | scripts/generate-release-notes.js:82-84 | the changes line is written exactly when there are commits |
| ReleaseScript.ContributorsSection | scripts/generate-release-notes.js:131-138 | the contributors section is written exactly when there are authors |
| ReleaseScript.CommitLinesInclude | scripts/generate-release-notes.js:89-91 | every commit of a bucket has its `- subject (hash)` line in that section |
| ReleaseScript.CommitLine | scripts/generate-release-notes.js:90 | the `- subject (hash)` line of one commit; `CommitLinesInclude` places it in its section |
| ReleaseScript.CommitLines | scripts/generate-release-notes.js:89-91 | the lines of a bucket in order; `CommitLinesSnoc` and `AppendSection` relate it to the loop |
| ReleaseScript.NotesTitle | scripts/generate-release-notes.js:79 | the notes begin with `# Release <version>` |
| ReleaseScript.NotesListEveryCommit | scripts/generate-release-notes.js:76-141 | every bucketed commit has its line in the notes |
| ReleaseScript.SectionListsCommit | scripts/generate-release-notes.js:87-93 | a section lists each of its commits |
| ReleaseScript.AppendSection | scripts/generate-release-notes.js:87-93 | the `if` and the `forEach` add exactly the section text |
| ReleaseScript.AppendContributors | scripts/generate-release-notes.js:131-138 | the contributors block adds exactly its section text |
| ReleaseScript.AppendContributorLines | scripts/generate-release-notes.js:133-136 | the loop over authors adds one line per author |
| ReleaseScript.ContributorLine | scripts/generate-release-notes.js:134-135 | `- author (n commit[s])`, or `undefined commits` for an author without a count; `AuthorKeysCounted` shows every listed author has one |
| ReleaseScript.ContributorLines | scripts/generate-release-notes.js:133-136 | the lines of the authors in order; `AppendContributorLines` proves the loop writes them |
| ReleaseScript.GenerateReleaseNotes | scripts/generate-release-notes.js:76-141 | the `notes +=` sequence builds the release-notes text for the date of `now` |
| ReleaseScript.NotesText | scripts/generate-release-notes.js:76-141 | the whole notes text; `GenerateReleaseNotes` proves the `notes +=` sequence builds it, `NotesTitle` and `NotesListEveryCommit` state its title and its commit lines |
| ReleaseScript.NewRelease | scripts/generate-release-notes.js:156-173 | the new entry's summary has exactly the keys features, fixes, improvements, breaking and total, each the bucket size, with total the number of bucketed commits; its commits are the flattened buckets |
| ReleaseScript.UpdateReleases | scripts/generate-release-notes.js:175-179 | the new release comes first, followed by a prefix of the old list, and the list is capped at fifty |
| ReleaseScript.SummaryTotalOfLog | scripts/generate-release-notes.js:165 | the total plus the dropped version-bump commits is the number of parsed commits |
| VersionBump.DecimalExcludes | scripts/increment-version.js:26 | a printed number contains no `.` |
| VersionBump.Format | scripts/increment-version.js:26 | `${major}.${minor}.${patch}`: splits at `.` into exactly the three printed numbers, decimal with no leading zero, and reads back as the same version |
| VersionBump.Bump | scripts/increment-version.js:10-24 | major resets minor and patch; minor resets patch; patch, any other type and the default bump the patch; the result is always later |
| VersionBump.IncrementVersion | scripts/increment-version.js:6-27 | the result is `major.minor.patch` of the bumped version, reads back as that version, and is later than the input |
| VersionBump.ExtraPartsIgnored | scripts/increment-version.js:7-8 | parts after the third do not change the result |
| VersionBump.FirstThreeParts | scripts/increment-version.js:7-8 | the first three parts alone read as the same version |
| VersionBump.Parsable | scripts/increment-version.js:7-8 | the versions the model reads: the first three parts of the `.` split are decimal digits |
| VersionBump.Parse | scripts/increment-version.js:7-8 | `version.split('.').map(Number)`, of which the first three are kept; `Format` and `IncrementVersion` state what it reads back, `FirstThreeParts` that later parts play no role |
| Releases.LatestRelease | frontend/src/hooks/useReleases.js:29 | empty exactly for an empty list; otherwise the first release |
| Releases.FindVersion | frontend/src/hooks/useReleases.js:31-32 | the index of the first release with the version, or the length when none has it |
| Releases.ReleaseByVersion | frontend/src/hooks/useReleases.js:31-32 | `null` exactly when no release has the version; otherwise the first release that has it |
| Releases.ReleasesCount | frontend/src/hooks/useReleases.js:34 | `releases.length`; `CountAfterUpdate` states how a run of the script changes it |
| Releases.ReleaseChanges | frontend/src/hooks/useReleases.js:37 | `release.summary?.total \|\| 0`; `NewReleaseChanges` gives its value for a release the script wrote |
| Releases.TotalChanges | frontend/src/hooks/useReleases.js:36-37 | no release counts more than the total, and the total is 0 exactly when every release counts 0; `TotalChangesOne` and `TotalChangesAppend` make it the sum of the counts |
| Releases.TotalChangesOne | frontend/src/hooks/useReleases.js:36-37 | one release's total is its own `summary.total \|\| 0` |
| Releases.TotalChangesAppend | frontend/src/hooks/useReleases.js:36-37 | the total of two lists is the sum of their totals |
| Releases.TotalChangesPrefix | frontend/src/hooks/useReleases.js:36-37 | a prefix of the list has at most its total |
| Releases.LatestAfterUpdate | frontend/src/hooks/useReleases.js:29 | after the script has run, the latest release is the one it added |
| Releases.FoundAfterUpdate | frontend/src/hooks/useReleases.js:31-32 | after the script has run, looking up its version finds the release it added |
| Releases.CountAfterUpdate | frontend/src/hooks/useReleases.js:34 | the count grows by one until it stays at fifty |
| Releases.TotalAfterUpdate | frontend/src/hooks/useReleases.js:36-37 | the new release adds its total, and once the cap is reached the total grows by at most that |
| Releases.NewReleaseChanges | frontend/src/hooks/useReleases.js:37 | a release written by the script counts all its bucketed commits |
| Releases.ReleasesHook.constructor | frontend/src/hooks/useReleases.js:4-6 | starts with no releases, loading, and no error |
| Releases.ReleasesHook.FetchCompleted | frontend/src/hooks/useReleases.js:9-24 | a parsed body becomes the list (`null` becomes the empty list); a failure records its message and empties the list; loading stops either way |
| ReleaseNotesView.Toggled | frontend/src/components/ReleaseNotes.js:9-17 | the toggled version flips membership; every other version keeps it |
| ReleaseNotesView.ToggleTwice | frontend/src/components/ReleaseNotes.js:9-17 | toggling twice restores the set |
| ReleaseNotesView.TogglesCommute | frontend/src/components/ReleaseNotes.js:9-17 | toggles of two versions commute |
| ReleaseNotesView.ExpandedReleases.constructor | frontend/src/components/ReleaseNotes.js:7 | nothing is expanded at first |
| ReleaseNotesView.ExpandedReleases.Toggle | frontend/src/components/ReleaseNotes.js:9-17 | the expanded set becomes `Toggled` of the old one |
| ReleaseNotesView.CategoryLabel | frontend/src/components/ReleaseNotes.js:52-61 | the five known keys map to their labels; any other key is shown as itself |
| ReleaseNotesView.ClassifiedIsAccepted | frontend/src/components/ReleaseNotes.js:70-84 | a commit the script put in a bucket passes the page's filter for that section |
| ReleaseNotesView.SectionAccepts | frontend/src/components/ReleaseNotes.js:70-84 | the `switch` filter of each section; `ClassifiedIsAccepted` and `SectionsOverlap` relate it to the script's buckets |
| ReleaseNotesView.SummaryCount | frontend/src/components/ReleaseNotes.js:67 | `summary[category] \|\| 0`; `SectionPresent` states that it decides which sections appear |
| ReleaseNotesView.SectionsOverlap | frontend/src/components/ReleaseNotes.js:70-84 | the page's filters overlap: `fix: add retry` passes both the fixes and the features filter |
| ReleaseNotesView.SectionsOf | frontend/src/components/ReleaseNotes.js:63-106 | sections appear in the given order, exactly for the categories with a non-zero count; each carries its label and count and shows `slice(0, 10)` of the commits that pass its filter |
| ReleaseNotesView.CommitSections | frontend/src/components/ReleaseNotes.js:63-106 | the same in the fixed order breaking, features, fixes, improvements, chores: the sections, their labels, counts and shown commits |
| ReleaseNotesView.ReleaseSections | frontend/src/components/ReleaseNotes.js:267-270 | sections are shown exactly for a release with a non-empty commit list, rendered from its commits and its summary, a missing summary counting as empty |
| ReleaseNotesView.SectionPresent | frontend/src/components/ReleaseNotes.js:66-68 | a category has a section exactly when it is one of the five and its count is non-zero |
| ReleaseNotesView.ScriptSummaryCounts | scripts/generate-release-notes.js:160-166 | the script's summary counts each bucket and has no `chores` count |
| ReleaseNotesView.SectionsByCount | frontend/src/components/ReleaseNotes.js:64-68 | given the five counts, each section appears exactly when its count is positive; the chores section never appears |
| ReleaseNotesView.ScriptReleaseSections | frontend/src/components/ReleaseNotes.js:63-106 | for a release the script wrote, a section appears exactly for the non-empty buckets other than chores |
| ReleaseNotesView.BucketCommitAccepted | frontend/src/components/ReleaseNotes.js:70-84 | every commit in a bucket is among the commits its section filters for |
| ReleaseNotesView.AllAuthorsMembers | frontend/src/components/ReleaseNotes.js:178 | `flatMap` holds an author exactly when some release has a commit by them |
| ReleaseNotesView.ReleaseAuthors | frontend/src/components/ReleaseNotes.js:178 | `r.commits?.map(c => c.author) \|\| []` |
| ReleaseNotesView.AllAuthors | frontend/src/components/ReleaseNotes.js:178 | the `flatMap` over releases; `AllAuthorsMembers` states its members |
| ReleaseNotesView.Contributors | frontend/src/components/ReleaseNotes.js:178 | the contributors across releases are duplicate-free and are exactly the authors of some release |
| ReleaseNotesView.ReleaseContributors | frontend/src/components/ReleaseNotes.js:279 | one release's contributor badges are duplicate-free, are exactly its commits' authors and come in the order of each author's first commit |
| ReleaseNotesView.ReleaseContributorsCounted | frontend/src/components/ReleaseNotes.js:178-279 | every badge of a release appears in the overall contributor count |
| ReleaseNotesView.ScriptReleaseContributors | frontend/src/components/ReleaseNotes.js:279 | on a release the script wrote, every badge is among the script's unique authors |
| TeamScreen.MergeSuggestions | frontend/src/components/TeamInterface.js:98-100 | the merged list is duplicate-free and holds exactly the names of either list, team names first |
| TeamScreen.MergedServerSuggestions | frontend/src/components/TeamInterface.js:90-105 | merged with the server's two lists, the suggestions are the team's names followed by the other global names, and are exactly the global names |
| TeamScreen.MergeSubset | frontend/src/components/TeamInterface.js:99 | merging a list into a list that already holds it appends the rest in order |
| TeamScreen.StrictlySortedNoDuplicates | backend/server.js:323-325 | a strictly sorted list has no duplicates |
| TeamScreen.StrictlySortedLess | backend/server.js:325 | in a strictly sorted list, earlier names are smaller |
| TeamScreen.Dropdown | frontend/src/components/TeamInterface.js:164-196 | the dropdown belongs to the name-entry card, so it shows exactly when a team is selected, the name is blank, suggestions are enabled and there are suggestions; it lists `slice(0, 5)` of the suggestions that contain the typed name case-insensitively, in merged order |
| TeamScreen.DropdownOnlyForBlankName | frontend/src/components/TeamInterface.js:164-196 | a drawn dropdown implies a selected team and a blank name; a name that is not blank draws none |
| TeamScreen.EmptyNameListsFirstSuggestions | frontend/src/components/TeamInterface.js:164-196 | with a team selected and an empty name, everything matches, so the first five suggestions are shown |
| TeamScreen.RecordFor | frontend/src/components/TeamInterface.js:50-57 | a request is sent exactly when there is a question, a team and a non-blank name; it carries their ids and the trimmed name |
| TeamScreen.ServerKeepsSentName | frontend/src/components/TeamInterface.js:54-57 | a request the screen sends passes the server's two field checks, and the server stores the name unchanged |
| TeamScreen.ViewOf | frontend/src/components/TeamInterface.js:139-230 | the team picker exactly without a team; name entry exactly with a team and a blank name; the question panel otherwise |
| TeamScreen.RecordOnlyFromPanel | frontend/src/components/TeamInterface.js:230-303 | use and skip can only send from the question panel |
| TeamScreen.QuestionError | frontend/src/components/TeamInterface.js:38-43 | the no-more-questions message appears exactly for a 404 |
| TeamScreen.ExhaustedTeamMessage | frontend/src/components/TeamInterface.js:39-40 | the server refuses a question exactly when the team is unknown or has none left, both with 404, and either answer shows the no-more-questions message |
| TeamScreen.TeamInterface.constructor | frontend/src/components/TeamInterface.js:7-14 | the eight initial values; the team picker is shown |
| TeamScreen.TeamInterface.TeamsFetched | frontend/src/components/TeamInterface.js:20-27 | the teams are set on success; otherwise only the error is set |
| TeamScreen.TeamInterface.SelectTeam | frontend/src/components/TeamInterface.js:82-88 | sets the team, clears the name, question and error, and stores the merged suggestions; name entry is shown |
| TeamScreen.TeamInterface.SuggestionsFetched | frontend/src/components/TeamInterface.js:90-105 | stores the merged suggestions, or the empty list on failure |
| TeamScreen.SuggestionsOf | frontend/src/components/TeamInterface.js:98-104 | no suggestions after a failure; otherwise each name of the team list or the global list once |
| TeamScreen.TeamInterface.HandleUserNameChange | frontend/src/components/TeamInterface.js:107-110 | sets the name, and shows suggestions exactly for a non-empty value; a name that is not blank leaves name entry, so no dropdown is drawn |
| TeamScreen.TeamInterface.SelectUserSuggestion | frontend/src/components/TeamInterface.js:112-115 | sets the name and hides the dropdown |
| TeamScreen.TeamInterface.HandleUserNameSubmit | frontend/src/components/TeamInterface.js:117-121 | hides suggestions for a non-blank name; otherwise changes nothing |
| TeamScreen.TeamInterface.ChangeUser | frontend/src/components/TeamInterface.js:244-249 | clears only the name, so name entry is shown again; if suggestions were left enabled, the dropdown lists the first five |
| TeamScreen.TeamInterface.ChangeTeam | frontend/src/components/TeamInterface.js:219-224 | clears only the team, so the team picker is shown |
| TeamScreen.TeamInterface.BeginQuestionFetch | frontend/src/components/TeamInterface.js:29-33 | without a team nothing happens; otherwise loading starts and the error clears |
| TeamScreen.TeamInterface.QuestionFetched | frontend/src/components/TeamInterface.js:35-47 | on success, stores the question; on failure, clears it and sets the 404 or the generic message; loading stops |
| TeamScreen.TeamInterface.FetchNewQuestion | frontend/src/components/TeamInterface.js:29-48 | without a team nothing changes; otherwise the state becomes `FetchedState` of the reply |
| TeamScreen.TeamInterface.Record | frontend/src/components/TeamInterface.js:50-80 | the shared body of use and skip: an unmet guard changes nothing; a failed post sets the given error; a successful post fetches the next question |
| TeamScreen.TeamInterface.HandleUseQuestion | frontend/src/components/TeamInterface.js:50-64 | the same with the message Failed to mark question as used |
| TeamScreen.TeamInterface.HandleSkipQuestion | frontend/src/components/TeamInterface.js:66-80 | the same with the message Failed to skip question |
| TeamScreen.FetchedState | frontend/src/components/TeamInterface.js:32-47 | loading stops; a question is shown exactly on success, and then the error is clear; a failure leaves its message; the other state values are kept |
| TeamScreen.FetchLeavesNoPrompt | frontend/src/components/TeamInterface.js:265 | after a fetch there is a question or an error, so the first-question prompt does not return |
| Text.TrimStart | backend/server.js:239 | drops exactly a blank prefix; the rest starts with a non-space |
| Text.TrimEnd | backend/server.js:239 | drops exactly a blank suffix; the rest ends with a non-space |
| Text.Trim | backend/server.js:239-241 | `trim()`: the input with a blank prefix and a blank suffix cut off, no white space left at either end, and empty exactly for a blank string |
| Text.TrimBothEnds | backend/server.js:239 | the two halves of `trim()` together give its contract |
| Text.TrimOfTrimmed | backend/server.js:260 | trimming a trimmed name changes nothing |
| Text.TrimIdempotent | backend/server.js:260 | trimming twice is trimming once |
| Text.LowerChar | scripts/generate-release-notes.js:58 | lower-cases exactly the ASCII capitals |
| Text.ToLower | scripts/generate-release-notes.js:58 | lower-cases character by character and keeps the length |
| Text.StartsWithIncludes | scripts/generate-release-notes.js:62 | a prefix is also contained |
| Text.IncludesShorter | scripts/generate-release-notes.js:60 | containing `p + q` means containing `p` |
| Text.IndexOf | scripts/generate-release-notes.js:38 | the first position of the separator, or the length |
| Text.Split | scripts/generate-release-notes.js:37-38 | `split`: at least one part, no part holds the separator, and joining the parts gives back the string |
| Text.SplitJoin | scripts/generate-release-notes.js:37-38 | splitting a join of separator-free parts gives back the parts |
| Text.JoinExcludes | scripts/generate-release-notes.js:23 | a join of parts free of a character, on another separator, is free of that character |
| Text.NatToString | scripts/increment-version.js:26 | prints only decimal digits, with no leading zero |
| Text.DecimalRoundTrip | scripts/increment-version.js:8-26 | `Number` reads a printed number back |
| Text.SortedSet | backend/server.js:325 | `sort()` of a set: strictly sorted, and holds exactly the input's elements |
| Text.StrictlySortedUnique | backend/server.js:325 | two strictly sorted lists with the same elements are equal |
| Seqs.Filter | frontend/src/components/ReleaseNotes.js:70 | `filter`: keeps exactly the elements passing the test, in order |
| Seqs.FilterMap | scripts/generate-release-notes.js:37-45 | `map` followed by `filter`: every listed result is the value of some element, and there are no more results than elements; FilterMapAppend and FilterMapEach fix the list itself, at most one result per element and in input order |
| Seqs.FilterMapAppend | scripts/generate-release-notes.js:37-45 | mapping and filtering distributes over concatenation, so the results keep the input order |
| Seqs.FilterMapEach | scripts/generate-release-notes.js:37-45 | when every element maps to a value, the results are exactly those values, one per element and in order |
| Seqs.FilterMapMembers | scripts/generate-release-notes.js:37-45 | the converse of FilterMap's contract: every value some element maps to is listed, so a result is listed exactly when some element maps to it |
| Seqs.Take | frontend/src/components/ReleaseNotes.js:93 | `slice(0, n)`: a prefix of length `min(n, length)` |
| Seqs.Distinct | backend/server.js:323 | `[...new Set(...)]`: duplicate-free, with exactly the input's elements, in the order of their first appearance |
| Seqs.DistinctAppend | frontend/src/components/TeamInterface.js:99 | de-duplicating a concatenation keeps the first list's order and then appends the second list's new elements |

## Left out

- Express, Mongo and the driver: routing, JSON bodies and `ObjectId` casts are not modelled. A routing or driver failure is not modelled either. It answers 500 in the source, and `getAvailableQuestions` falls back to an empty list on one.
- Seeding, the `/health` route, `GET /api/teams`, `GET /api/admin/questions`, `PUT /api/admin/questions/:id` and `/api/admin/usage-stats` are not modelled. They only read collections or forward an update to Mongo's validators.
- `createdAt` ordering and time stamps are not modelled; the collections are kept in insertion order.
- Concurrent requests are not modelled. The unique indexes on the ledgers become the `OnePerPair` invariant, which the route's own existing-record check maintains.
- Server.NewTeam: models the Mongo duplicate-key error code as a name check on the trimmed name, without concurrent inserts.
- `Math.random()`, the clock and fresh ids are parameters of the model.
- Git, the file system and the console are left out of the release script. This covers `executeCommand`, `main`, reading and writing `releases.json` (an unreadable file means starting from the empty list, passed in), and `RELEASE_NOTES.md`. The package-file updates of the version script are left out as well.
- ReleaseScript.ParseFormat: states the round trip only for commits whose fields contain no `|` or newline. For other subjects, splitting on `|` cuts a subject apart, as in the source.
- ReleaseScript.ComputeStats: an `undefined` author counts under the key `"undefined"`, as the property key does in the source. No key collides with an `Object.prototype` member.
- ReleaseNotesView.CategoryLabel: no key is treated as an inherited `Object.prototype` property.
- Case mapping outside ASCII is not modelled: `ToLower` maps only the capitals A to Z. `IsSpace` covers the ECMAScript white-space and line-terminator characters that `trim` removes.
- `sort()` compares strings by their code points as Dafny characters, which matches UTF-16 order only in the Basic Multilingual Plane.
- VersionBump.Parse: covers only versions whose first three parts are strings of decimal digits. `Number` also reads an empty part as 0 (`incrementVersion("1..3")` gives `1.0.4`) and accepts padded, hex and exponent forms, and it gives `NaN` for anything else; none of those versions is modelled. Parts at or above 2^53, where JavaScript numbers lose precision, are read exactly.
- The JSX markup is not modelled: icons, CSS classes, `formatDate`, the loading and error screens, the summary cards other than the contributor count, and the router link.
- The `async` handlers are modelled as whole steps. A use or skip call takes the reply of its post and of the next question fetch as parameters, so the interleaving of overlapping requests is not modelled.
- That each heading the page shows equals the heading the script wrote is not stated. The two sides use different emoji, and the labels are checked only against `getCategoryLabel`.
