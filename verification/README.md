# Verified model of the Bicho review pipeline

Bicho reviews pull requests. This project models the deterministic part of that work in Dafny and
proves what it guarantees: patch text becomes numbered diff lines, findings are deduplicated, verified,
anchored and composed into one review draft, and the draft is published once per head commit, with
GitHub itself as the only memory.

| file | models |
|---|---|
| Options, Seqs, Text | optional values, sequences, and Python's text operations (`splitlines`, `isspace`, `strip`, `int`, `join`) |
| Diff, HunkParser, HunkLaws | the unified-diff parser (the format of POSIX.1-2008 `diff -u`), its line numbers, and a printer |
| DiffMapping | the commentable lines of a diff and the anchoring of line ranges |
| Findings, Dedup, DedupLaws, DedupTwice | findings, their ranking, and deduplication by fingerprint |
| Verifier, Compose, DraftLaws, Pipeline | verification by policy or by a model's report, the draft and what it says, and all stages together |
| Marker, MarkerLaws, MarkerPattern, MarkerReading | the hidden review marker: rendering, searching, reading, and what an arbitrary model id does to it |
| Publishing | the publish guards, GitHub as a head and a growing list of reviews of which one listing shows the oldest, recognising a draft |
| Runs, RunLaws, Isolation, PublishChecks | every interleaving of the runs of one process, scheduled or called directly, for one pull request or others, with each other and with other people |
| HeadLaws, Schedules, LaterRuns | publication once per head: when it holds, also across restarts, schedules that break it, and what later runs do |
| Runner | the background runner with its semaphore, and draining it |
| Deliveries | the window of recently seen webhook deliveries |
| Symbols, Fingerprint | the innermost definition around a line, and finding fingerprints |

How the surroundings enter the model:

- The characters above ASCII that `\w` accepts, the SHA-256 digest and the number of reviews in one
  listing are parameters (`Env`); the statements hold for all of their values, or name what they need
  (hexadecimal digests, no collision between the digests at hand).
- Finding ids are distinct where a statement says so; the program draws them as random UUIDs.
- What the analyzers find, what a model answers, when a run fails and what other people do to the pull
  request are arbitrary. A failing run stands for an exception and for the review timeout; a run that
  fails while posting may or may not have posted (`Runs.Event.LoseResponse`, `Runs.Event.Crash`).
- A run is the sequence of its awaited calls; anything may happen between two of them.

## Where the code does not do what one might expect

- A complete marker block in the text before the marker (the title or path of a finding that the diff
  does not anchor, an analyzer's message) is read instead of the marker, and a model id may hold fields or
  a "-->" of its own. `Publishing.DraftRecognised` says exactly which published reviews the guard
  recognises; `Schedules.HiddenMarkerPublishesTwice` gives a title and
  `Schedules.HiddenModelPublishesTwice` a model id with which a second run publishes again.
- The client asks GitHub for one listing of the reviews and follows no link to the next, so the guard
  sees the oldest reviews only. `Schedules.SecondRunExactly` says that a second run on the head publishes
  again exactly when the first one's review is not recognisable or does not fit in the listing.
- Once per head needs one live run at a time and few reviews: with `c` permits and up to `d` live reviews
  called through `POST /reviews`, which take no permit, and up to `n` reviews in the end,
  `Schedules.OncePerHeadExactly` gives the exact condition. One live call next to a background runner with
  one permit is enough to lose it; the dry runs that the endpoint makes by default are harmless
  (`HeadLaws.DryCallsHarmless`).
- ADR-0008 says that a new prompt version allows another review of the same head; the guard compares
  head and workflow version only (`Publishing.PromptVersionIgnored`). The model follows the code.
- Deduplicating twice can raise a survivor's confidence once more (`DedupTwice.OnePassIsEnough`, with
  findings for which it does in `DedupTwice.SecondPassRaises`).
- Under the policy a group whose best finding is `LOW` is rejected even if another finding of the group
  is more certain, unless two source kinds report it (`Pipeline.PublishedFingerprints`, with such findings
  in `Pipeline.DoubtfulHidesSure`).
- A range is anchored by its endpoints only, also across hunks (`DiffMapping.AnchorsAcrossGap`).
- Normalizing a path is not idempotent (`Fingerprint.PathStableExactly`).
- Two identities as the program builds them, with the subcategory as the rule key, can share a
  fingerprint when their paths hold different numbers of unit separators and the subcategories make up
  for it (`Fingerprint.SeparatorCollides`); with the other separator counts fingerprints tell them apart
  (`Fingerprint.CountsDecide`). Separators in the subcategory alone do no harm.
- The evidence order of a survivor, the order of a summary and the marker's model id follow the order in
  which analyzers report; `Pipeline.FanInOrderIndependent` states what does not.

## Model

| member | source | states |
|---|---|---|
| HunkParser.HeaderGrammar | src/bicho/infrastructure/diff/hunk_parser.py:12-12 | a line is a hunk header exactly when the header grammar generates it (digits, optional counts, optional heading after an optional space), and then with those numbers and that heading |
| Text.OtherDigitIs | src/bicho/infrastructure/diff/hunk_parser.py:12-12 | `\d` above ASCII: a digit's value is its distance to the zero of its run of ten |
| Text.LineBreaksAre | src/bicho/infrastructure/diff/hunk_parser.py:25-25 | `str.splitlines` breaks lines at these ten characters |
| HunkParser.ParseHunks | src/bicho/infrastructure/diff/hunk_parser.py:18-61 | the loop over header, counters, lines and hunks gives each header the lines up to the next one, numbered from its starts, without notes and preamble |
| HunkLaws.HunkOfText | src/bicho/infrastructure/diff/hunk_parser.py:35-57 | a header line and the lines after it up to the next header are one hunk, with a line for each that does not start with a backslash: added after "+", removed after "-", context after anything else, with the text after that character |
| HunkLaws.LineNumbers | src/bicho/infrastructure/diff/hunk_parser.py:25-57 | for every text, line k of a hunk has as old number the start plus the earlier lines that are not added, as new number the start plus the earlier lines that are not removed, each exactly on the sides its kind has; no line break survives |
| HunkLaws.ParseParts | src/bicho/infrastructure/diff/hunk_parser.py:25-61 | a patch whose first part ends a line and whose second part starts with a header parses part by part |
| HunkLaws.ParseJoinedParts | src/bicho/infrastructure/diff/hunk_parser.py:25-61 | the same when an unfinished first part is joined to the second by a line feed |
| HunkLaws.ParseAfterBlankLine | src/bicho/infrastructure/diff/hunk_parser.py:35-57 | after a finished first part one more line feed is an empty context line of its last hunk, so the parts parse separately exactly when the first part has no hunk |
| HunkLaws.NotesDropped | src/bicho/infrastructure/diff/hunk_parser.py:37-38 | for every patch text, taking out all its backslash lines changes nothing |
| HunkLaws.NoteInText | src/bicho/infrastructure/diff/hunk_parser.py:37-38 | a backslash line put between any two lines of a patch text, or at its end, changes nothing |
| HunkLaws.PreambleInText | src/bicho/infrastructure/diff/hunk_parser.py:35-36 | text without a header line before a patch changes nothing |
| HunkLaws.RoundTrip | src/bicho/infrastructure/diff/hunk_parser.py:18-72 | printing hunks, with or without counts of 1, and parsing gives the hunks back exactly when they are consistently numbered and hold no line breaks |
| HunkLaws.RoundTripUnterminated | src/bicho/infrastructure/diff/hunk_parser.py:18-72 | the same for a patch without a final line feed |
| HunkLaws.Reprint | src/bicho/infrastructure/diff/hunk_parser.py:18-72 | for every text, printing what was parsed and parsing again gives the same hunks |
| DiffMapping.CommentableLines | src/bicho/domain/services/diff_mapping.py:12-20 | the nested loops collect exactly the numbers that lines of the file have on the side |
| DiffMapping.CommentableOfPatch | src/bicho/domain/services/diff_mapping.py:12-20 | for every patch text, the commentable lines of a side are the union over the hunks of the interval from the hunk's start with as many numbers as it has lines on that side |
| DiffMapping.OneHunkRange | src/bicho/domain/services/diff_mapping.py:23-31 | between two lines of one hunk every line is commentable |
| DiffMapping.AnchoredRangeIsCommentable | src/bicho/domain/services/diff_mapping.py:23-31 | a range with commentable endpoints is commentable throughout exactly when the line after every hunk that ends in it is commentable |
| DiffMapping.AnchorsAcrossGap | src/bicho/domain/services/diff_mapping.py:23-31 | a range can be anchored although a line in it is not part of the diff |
| Dedup.MergeEvidence | src/bicho/domain/services/dedup.py:75-80 | the dict filled by the loops holds every reference once, in order of first occurrence |
| Dedup.Deduplicate | src/bicho/domain/services/dedup.py:29-44 | the two loops over an insertion-ordered dict merge the groups in order of first appearance |
| DedupLaws.SurvivorIsBest | src/bicho/domain/services/dedup.py:47-58 | with distinct ids the survivor ranks before every other finding of its group |
| DedupLaws.SurvivorOrder | src/bicho/domain/services/dedup.py:47-58 | for every group, no finding is more severe than the survivor (info, low, medium, high, critical), of the equally severe none is surer (low, medium, high), of those none has a better source (LLM, pip-audit, Semgrep), and of those none a smaller id |
| DedupLaws.Enriched | src/bicho/domain/services/dedup.py:61-85 | the survivor already has the group's highest severity, its evidence becomes the repeat-free union, and its confidence rises one step, capped, exactly when the group holds two source kinds; nothing else changes |
| DedupLaws.EvidenceInOrder | src/bicho/domain/services/dedup.py:61-80 | an enriched survivor's evidence is its own references and then those of the others, each once, in order of first occurrence |
| DedupLaws.DeduplicatedResolves | src/bicho/domain/services/dedup.py:29-94 | what becomes of each finding is a function of the set of findings: kept, enriched, or marked as merged into the best |
| DedupLaws.OrderIndependent | src/bicho/domain/services/dedup.py:1-7 | any reordering of the input gives the same results equally often, evidence taken as a set |
| DedupLaws.IdsConserved | src/bicho/domain/services/dedup.py:35-44 | the ids of the result are the ids of the input, each once |
| DedupLaws.OneSurvivor | src/bicho/domain/services/dedup.py:35-44 | of the findings with one fingerprint all but the first are duplicates, for every input |
| DedupLaws.InOrderOfAppearance | src/bicho/domain/services/dedup.py:31-43 | the result lists the fingerprints one after the other, in the order in which the input first shows them |
| DedupTwice.SecondPass | src/bicho/domain/services/dedup.py:29-94 | a second pass keeps every finding, its place, state, severity, reason and evidence, and raises confidence by at most one step |
| DedupTwice.ThirdPass | src/bicho/domain/services/dedup.py:29-94 | a third pass changes nothing |
| DedupTwice.OnePassIsEnough | src/bicho/domain/services/dedup.py:61-72 | a second pass changes nothing exactly when no survivor that two source kinds report started at LOW |
| DedupTwice.SecondPassRaises | src/bicho/domain/services/dedup.py:61-72 | a severe LOW finding of a model and a sure, minor one of Semgrep with the same fingerprint: the survivor is MEDIUM after one pass and HIGH after two |
| Verifier.ModelPassDecides | src/bicho/application/verifier.py:61-109 | for every report or failed call, each candidate is confirmed or rejected by the last verdict on its index, or else by confidence, other findings are untouched, and only state and reason change |
| Verifier.ReasonGiven | src/bicho/application/verifier.py:89-109 | every decided candidate carries the reason of the last verdict on it, or the standard reason if that is empty, and without a verdict the policy's reason |
| Pipeline.OnePublishedPerFingerprint | src/bicho/application/verifier.py:61-109 | whatever findings come in and whatever the model answers, no two published findings share a fingerprint |
| Pipeline.PublishedFingerprints | src/bicho/domain/services/verification_policy.py:10-30 | with the policy, a fingerprint is published exactly when the best finding of its group is not LOW or two source kinds report it |
| Pipeline.DoubtfulHidesSure | src/bicho/domain/services/verification_policy.py:10-30 | a HIGH-confidence finding is published alone, but not next to a more severe LOW-confidence one of the same fingerprint and source kind |
| Pipeline.FanInOrderIndependent | src/bicho/application/graph/nodes.py:94-120 | for every order of the analyzer outcomes the draft has the same inline comments, summary findings and event |
| Pipeline.NothingLost | src/bicho/application/graph/nodes.py:94-96 | every finding of every analyzer is collected, whatever the analyzer's status, and nothing else is; only state, reason, confidence and evidence may differ |
| Pipeline.AnchorsExactly | src/bicho/application/graph/nodes.py:46-49 | an anchor exists exactly when both end lines lie in hunks parsed from the patch of the first changed file of that name |
| Pipeline.KindsAre | src/bicho/application/graph/nodes.py:21-25 | the change kind of a file is told by its status; any other status is a modification |
| Compose.AnchorFindings | src/bicho/domain/services/locations.py:15-30 | the loop sets each finding's inline flag to whether its endpoints anchor |
| Compose.RenderSummary | src/bicho/application/graph/compose.py:70-92 | the summary is its lines, then an empty line, then the marker |
| Compose.FindModelId | src/bicho/application/graph/compose.py:95-99 | the search returns the first model id there is, and "none" exactly when there is none |
| Compose.ComposeReview | src/bicho/application/graph/compose.py:23-46 | the steps in a row build the draft that the laws below are about |
| Compose.DraftPartitions | src/bicho/application/graph/compose.py:31-33 | inline and summary findings together are the confirmed findings, each once |
| Compose.InlineExactly | src/bicho/application/graph/compose.py:31-33 | a confirmed finding is inline exactly when its endpoints anchor and it is not held back, else in the summary |
| Compose.CommentsAnchor | src/bicho/application/graph/compose.py:49-58 | every inline comment covers the lines of a confirmed finding, on commentable lines, with its start strictly before its line, so its validator accepts it |
| DraftLaws.DraftComments | src/bicho/application/graph/compose.py:31-58 | the draft's inline comments are, in order and once each, those of the confirmed findings whose endpoints anchor and that are not held back, with path, side, start and end of the finding |
| DraftLaws.CommentSays | src/bicho/application/graph/compose.py:61-67 | a comment holds the finding's title, explanation, impact and recommendation |
| DraftLaws.SummaryNames | src/bicho/application/graph/compose.py:79-82 | the draft's summary holds title and place of every confirmed finding without an inline comment |
| DraftLaws.SummaryNotes | src/bicho/application/graph/compose.py:83-91 | the draft's summary holds source and message of every diagnostic of an analyzer that failed, timed out or was skipped |
| DraftLaws.SummaryLength | src/bicho/application/graph/compose.py:76-92 | and no line for anything else |
| DraftLaws.MarkerNames | src/bicho/application/graph/compose.py:34-46 | the draft's summary ends with a marker that names the head, both versions and the model of the first confirmed finding that a model reported, or "none" |
| DraftLaws.RunTellsHeads | src/bicho/application/graph/compose.py:102-104 | the marker's run has 12 characters and, without a digest collision, tells heads apart |
| Compose.EventExactly | src/bicho/domain/services/severity_policy.py:11-15 | changes are requested exactly when a confirmed finding is high or critical, and nothing is ever approved |
| MarkerPattern.BlockIsPreferredMatch | src/bicho/domain/models/marker.py:14-17 | the deterministic search at one place finds a match exactly when the pattern has one, and the one a backtracking matcher prefers |
| Text.SpacesAre | src/bicho/domain/models/marker.py:14-18 | `\s` and `\S` tell these 29 characters from all others |
| Marker.WordIs | src/bicho/domain/models/marker.py:18-18 | `\w` below 128: letters, digits and "_" |
| MarkerLaws.ParseInBody | src/bicho/domain/models/marker.py:32-61 | a marker with safe fields inside any body is read back, unless the text before it holds a complete marker block, and then that block is read |
| MarkerLaws.RoundTripInBody | src/bicho/domain/models/marker.py:32-61 | after text without a marker block, a marker is read back exactly when its fields hold no whitespace and no "-->" |
| MarkerLaws.ParsedIsSafe | src/bicho/domain/models/marker.py:45-61 | no text at all is read as a marker with whitespace or "-->" in a field |
| MarkerLaws.ReadInBody | src/bicho/domain/models/marker.py:32-61 | after text without a complete marker block any marker at all, with any field values, is read as the fields before the first "-->" in it, after those of an unfinished block in that text |
| MarkerReading.HeadReadBack | src/bicho/domain/models/marker.py:32-61 | for every model id, head and workflow version are read back exactly when the id brings no other value for them and does not cut off the prompt field |
| MarkerReading.HidingModelLosesHead | src/bicho/domain/models/marker.py:50-56 | a model id with a head_sha field of its own replaces the head of the marker |
| Publishing.IdempotencyGuard | src/bicho/application/graph/nodes.py:123-148 | the loop over the listed reviews skips exactly when some marker names the head and the workflow version, for live and unforced runs |
| Publishing.GitHub.PublishReview | src/bicho/application/graph/nodes.py:162-170 | the draft is appended to the reviews, which keep their order, and the head stays |
| Publishing.PublishTail | src/bicho/application/graph/nodes.py:123-180 | the guards and routes in a row, with a push in between: the status, the id and the reviews afterwards |
| Publishing.TailStatus | src/bicho/application/graph/nodes.py:123-180 | COMPLETED exactly for a live run whose head is current and that is forced or whose head no listed review names; DRY_RUN exactly for dry runs; SKIPPED exactly for live, unforced runs on a named head; STALE only after a push |
| Publishing.DraftReadsBack | src/bicho/application/graph/compose.py:34-46 | a published summary reads back as the complete marker block in the text before its marker if there is one, and otherwise as its own marker exactly when the model id holds no whitespace and no "-->" |
| Publishing.DraftRecognised | src/bicho/application/graph/nodes.py:140-147 | for every model id, the guard recognises a published draft exactly when the text before its marker holds no marker block and the model id keeps the head, or holds a block that names the same head and version |
| Publishing.PlainModelRecognisable | src/bicho/application/graph/nodes.py:140-147 | with a model id without "-->", and without "=" or without whitespace, only a marker block in the text before can hide the marker |
| Publishing.PlainTextsHideNothing | src/bicho/application/graph/compose.py:76-92 | paths, titles and messages without "<" never hold a marker block |
| Publishing.TitleHidesReview | src/bicho/application/graph/compose.py:80-82 | a confirmed finding that the diff does not anchor and whose title is a marker block hides the review from the guard |
| Publishing.PromptVersionIgnored | src/bicho/application/graph/nodes.py:140-147 | a head with a listed review under any other prompt version is skipped |
| RunLaws.RunContract | src/bicho/application/graph/nodes.py:123-180 | in every interleaving a run posts at most one review, its own draft for the head it analyzed and never in a dry run, and has a review id exactly when COMPLETED, that of its one review |
| RunLaws.BoundedConcurrency | src/bicho/api/background.py:62-72 | in every interleaving free permits and running background reviews, of this and of other pull requests, together are the configured concurrency, whatever is called directly |
| RunLaws.CrashIsIsolated | src/bicho/api/background.py:62-72 | a failing review frees its permit and changes no other run, no review and not the head |
| Isolation.SilentRunIsIsolated | src/bicho/api/background.py:62-72 | in every interleaving, leaving out all steps of a run that posts nothing, such as one that failed, changes no other run, no review and not the head, and only frees the permit it may hold |
| PublishChecks.PublishesChecked | src/bicho/application/graph/nodes.py:123-159 | in every interleaving, whoever posts a review has passed the guard, live and either forced or while no listed review named the head, and later, in its own step, found the pull request on the head of that review |
| HeadLaws.OneAtATimeOncePerHead | src/bicho/application/graph/nodes.py:123-148 | while permits and live direct calls together allow one live run at a time and all reviews but the last fit in one listing, in every interleaving of clean runs, of two reviews of one head the later was forced |
| HeadLaws.DryCallsHarmless | src/bicho/api/routes/reviews.py:35-36 | with one permit that holds next to any number of directly called dry runs |
| HeadLaws.RestartIsGood | src/bicho/application/graph/nodes.py:123-148 | wherever a process of clean runs, one live run at a time, stops, it leaves reviews that are recognised and once per head, as the next process needs them |
| HeadLaws.RestartsOncePerHead | src/bicho/api/background.py:1-9 | however often the process restarts, publication by clean runs, one live run at a time in each process, stays once per head while all reviews but the last fit in one listing |
| HeadLaws.PlainSchedulesAreClean | src/bicho/application/graph/compose.py:70-99 | schedules whose drafts have plain texts and plain model ids are clean |
| Schedules.OncePerHeadExactly | src/bicho/api/background.py:50-66 | with c permits, up to d live direct calls and up to n reviews in the end, once per head is guaranteed for all schedules of clean runs exactly when n is at most 1, c + d is 0, or c + d is 1 and n is at most one more than a listing holds |
| Schedules.AloneSteps | src/bicho/application/graph/nodes.py:123-170 | a live run alone is SKIPPED and posts nothing if a listed review names the head, and otherwise COMPLETED with its draft posted |
| Schedules.SecondRunExactly | src/bicho/application/graph/nodes.py:123-148 | of two live runs one after the other on a head that no listed review names, the second is SKIPPED exactly when the first one's review is recognisable and listed, and COMPLETED otherwise |
| Schedules.SecondRunPlain | src/bicho/application/graph/nodes.py:140-147 | with a plain model id the second completes exactly when the text before the first one's marker holds a marker block that does not name the same head and version, or the listing is full |
| Schedules.HiddenMarkerPublishesTwice | src/bicho/application/graph/nodes.py:140-147 | with an unanchored finding whose title hides the marker, two runs one after the other both publish on one head |
| Schedules.HiddenModelPublishesTwice | src/bicho/application/graph/nodes.py:140-147 | with a model id that brings a head_sha field of its own two runs one after the other both publish on one head |
| LaterRuns.CompletedIsNamed | src/bicho/application/graph/nodes.py:123-170 | a run that completed with a recognisable draft has left a review that names its head, if it is listed, whatever the other runs and earlier processes did |
| LaterRuns.LaterRunsSkip | src/bicho/application/graph/nodes.py:140-148 | after a run has completed on a head with a listed review, every live unforced run on it that had not passed the guard posts nothing and ends SKIPPED, if it ends, for every number of permits and direct calls |
| LaterRuns.CleanLaterRunsSkip | src/bicho/application/graph/nodes.py:140-148 | in clean schedules that holds after every run that completed with a listed review |
| LaterRuns.NextProcessSkips | src/bicho/application/graph/nodes.py:140-148 | the same for every run of the next process, for every number of permits |
| Schedules.TailSteps | src/bicho/application/graph/nodes.py:173-180 | the steps of the interleaved runs, taken in a row, end as the sequential tail does |
| Runner.BackgroundReviewRunner.constructor | src/bicho/api/background.py:50-54 | a new runner has all permits and no runs |
| Runner.BackgroundReviewRunner.Schedule | src/bicho/api/background.py:56-60 | scheduling a review of any pull request adds one waiting run and nothing else |
| Runner.BackgroundReviewRunner.Advance | src/bicho/api/background.py:62-72 | a run that does not fail goes on to the next node as that node decides, a failing one ends as crashed, each is one step of the interleaved runs, keeps the permit count and brings the run closer to its end |
| Runner.BackgroundReviewRunner.RunAlone | src/bicho/application/graph/nodes.py:123-180 | a scheduled run that gets a permit, does not fail and has nobody else acting ends as the guards say, in a live run of a head that no listed review names COMPLETED with its draft posted |
| Runner.BackgroundReviewRunner.Drain | src/bicho/api/background.py:74-77 | draining ends, under every schedule, with every failure and whatever direct runs and other people do meanwhile, with no scheduled run left and all permits free, and the whole time is an interleaving of steps |
| Deliveries.RecentDeliveries.constructor | src/bicho/api/background.py:31-34 | a new window is empty |
| Deliveries.RecentDeliveries.Register | src/bicho/api/background.py:36-44 | an id is turned away exactly when it is among the last max_size accepted ids, and set and queue stay exactly those ids without repeats |
| Deliveries.RegisterAll | src/bicho/api/background.py:36-44 | the same for any sequence of deliveries |
| Deliveries.AcceptancesFarApart | src/bicho/api/background.py:36-44 | between two acceptances of one id there are at least max_size other acceptances |
| Deliveries.RedeliveryExactly | src/bicho/api/background.py:36-44 | a delivery is turned away exactly when its id was accepted and fewer than max_size acceptances followed |
| Symbols.Walk | src/bicho/infrastructure/language/python_adapter.py:63-70 | the breadth-first walk that keeps the last match returns the name of a deepest definition around the line, and None exactly when there is none |
| Symbols.EnclosingSymbol | src/bicho/infrastructure/language/python_adapter.py:53-70 | the same for Python files that parse, None for others, and with nested definitions the result lies inside all others |
| Symbols.DeepestIsInnermost | src/bicho/infrastructure/language/python_adapter.py:61-62 | a deepest definition around the line lies inside all others exactly when any two of them are nested |
| Fingerprint.NormalizedIsWords | src/bicho/domain/services/fingerprint.py:15-16 | the normalized snippet is the snippet's words with single spaces between them |
| Fingerprint.SameSnippet | src/bicho/domain/services/fingerprint.py:15-16 | two snippets normalize alike exactly when they have the same words |
| Fingerprint.SnippetStable | src/bicho/domain/services/fingerprint.py:15-16 | normalizing a snippet twice changes nothing |
| Fingerprint.NormalizePath | src/bicho/domain/services/fingerprint.py:19-23 | the loop leaves a path without backslashes and without a leading "./" |
| Fingerprint.PathStableExactly | src/bicho/domain/services/fingerprint.py:19-23 | normalizing a path again changes nothing exactly when the stripped path, without its leading "./" and ".\" pairs, is empty or does not start with whitespace |
| Fingerprint.PathNotStable | src/bicho/domain/services/fingerprint.py:19-23 | "./ a" changes again |
| Fingerprint.SameFingerprint | src/bicho/domain/services/fingerprint.py:26-46 | without a digest collision and with equally many separators in corresponding parts, fingerprints are equal exactly when path, category, subcategory, rule and symbol agree and the snippets have the same words |
| Fingerprint.FingerprintLength | src/bicho/domain/services/fingerprint.py:45-46 | a fingerprint is the first 16 characters of the digest of the joined parts |
| Fingerprint.BuiltFingerprint | src/bicho/application/analyzers/base.py:98-105 | the same for the identities the callers build, whatever their subcategories hold, when the paths hold equally many separators or the separators do not add up |
| Fingerprint.CountsDecide | src/bicho/domain/services/fingerprint.py:37-46 | for given numbers of separators in path and subcategory, fingerprints tell all built identities apart exactly when the path counts agree or the totals differ |
| Fingerprint.SeparatorCollides | src/bicho/domain/services/fingerprint.py:37-46 | a path with two separators more and a rule with one less make two different built identities share a fingerprint |

## Left out

- HTTP, JSON, the FastAPI routes, signature checking and GitHub's pagination of changed files: GitHub is a head and a list of reviews, of which one listing shows the oldest.
- LangGraph, LangChain, asyncio and pydantic themselves: they appear as steps, arbitrary answers, a permit counter and record types; the order in which asyncio wakes waiting runs is arbitrary here.
- SHA-256, UUIDs and the clock: the digest is a parameter and ids are assumed distinct where that matters.
- Python's parser: a syntax tree is given, with line ranges, names and a flag for definitions.
- Symbols.Walk: among several deepest definitions that are not nested it does not say which one is returned; Python's syntax puts no two definitions on one line.
- HunkParser.HeaderGrammar: does not model the limit of 4300 digits that CPython puts on `int`, which is a setting of the interpreter.
- Compose.RenderSummary: the fixed wording of the summary and of the comments is modelled, but no law depends on it.
- Runner.BackgroundReviewRunner.Drain: needs at least one permit or nothing to wait for, since a semaphore without permits never lets a waiting run start; and nothing new is scheduled in the background meanwhile.
- HeadLaws.OneAtATimeOncePerHead: a post whose run fails or times out lands at that moment or never; one that lands later, after other runs have gone on, is not modelled.
- HeadLaws.RestartsOncePerHead: likewise a post that is under way when its process ends has landed by then or never does.
- RunLaws.BoundedConcurrency: of a run on another pull request only its use of the semaphore is modelled.
- Fingerprint.SameFingerprint: for parts with different numbers of separators it promises nothing; for the identities the program builds Fingerprint.CountsDecide says which counts are safe, not which pairs with other counts collide.
- Publishing.GitHub.PublishReview: the id is the place in the list; GitHub only promises a new number.
- Review options other than dry run and force, the fetching of file contents, the choice of analyzers and language adapters, Semgrep and pip-audit, prompts, settings, logging and the remaining routes: no decision modelled here depends on them.
