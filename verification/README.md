# Verified models of the agent's text tools, process runs and protocol state

This project models, in Dafny 4.11, the parts of the repository where a small mistake loses a user's
text or leaves a caller waiting, and proves what they guarantee on every input or over every run.

- **Patch engine** (`Text`, `Splicing`, `ApplyPatchUpdate`, `PlacementMeaning`, `PatchText`, `PatchGrammar`,
  `PatchErrors`, `PatchPrinter`, `PatchSpelling`, `PatchEnvelope`, `PatchRoundTrip`, `PatchFormat`, `CleanTokens`,
  `PatchImage`, `ApplyPatch`, `PatchRuns`): the `*** Begin Patch` parser, the four-level fuzzy search for chunks, the in-place
  splicing of replacements from the last to the first, and the loop over a patch's hunks.
- **Unified diffs** (`UnifiedDiff`, `UnifiedFailures`, `UnifiedRerun`, `HunkHeaders`, `UnifiedText`, `UnifiedGrammar`,
  `PatchSet`): the post-install fallback that parses a unified diff and edits files in place with a running offset,
  and what a second run over the result does.
- **History compaction** (`Compaction`, `CompactionExact`): greedy and share-based chunking, and pruning to a token
  budget.
- **Process runs** (`ProcessStatus`, `ProcessOutput`, `Registry`, `RegistryHistory`, `ExecRun`, `ExecPossible`):
  bounded output buffers, the two session maps with the actions of the process tool, and one run under every order
  of exit, error event, timeout, finalize timer, yield, delivery, kill and remove.
- **Protocol state** (`AcpSession`, `AcpHistory`, `Streaming`, `PromptAnswers`, `BedrockDiscovery`,
  `DiscoveryHistory`): the session store with its run index, snapshot streaming with the pending prompts, and the
  single-flight model cache.
- **String algorithms** (`Utf16`, `Occurrences`, `BlockRewrite`): slicing without cutting surrogate pairs, and the
  generated-block rewriter.

`Wrappers` holds the usual `Option` and `Result`, `Sequences` what several models need of sequences. Verify with `dafny verify dfyconfig.toml`.

How the models are built: loops and objects of the source are methods and classes proved against
specification functions, and the theorems are lemmas about those functions. Event-driven code is a
transition function; a run is a sequence of events and states, and a theorem about "every interleaving" is
a lemma about every such sequence. JavaScript strings are sequences of characters that stand for UTF-16
code units (`Utf16` uses numbers below 2^16). Thrown errors are values of `Result`. Where a property one would
expect does not hold, the code is kept as it is, a lemma gives the input that shows it, and another gives the
exact condition, unless "Left out" says otherwise.

Where the code does something one may not expect, a lemma below shows it:

- A chunk flagged end-of-file, or a pure insertion before a blank last line, can overlap an earlier chunk;
  a one-pass check over the placements decides exactly when.
- An update of a file loses a newline when the last line is blank, and adds one when there is none.
- With bare line feeds the patch parser drops one carriage return from the end of every line.
- A unified hunk that looks applied already is skipped, even where its old text stands; a hunk without old
  lines lands one line earlier than the format says; a path that itself begins with `a/` or `b/` is
  stripped twice.
- A second run of a unified diff with ordered hunks changes the file again exactly when an insertion was aimed beyond the end, or
  a blank line was written at the end of a file without a final newline.
- A unified hunk that inserts at line 0 puts its first line before the last line of the file and the others at
  the top, on every run.
- A session that was killed or removed counts as exited, so the finalize timer does not settle its run.
- An exit after an error event rewrites the finished record, which is that of the last mark after the yield;
  without an error event record and outcome always agree.
- A live session drops out of the running map exactly when one that had its id before exits late, which free ids
  allow and new ids rule out.
- Two prompts in one session, or a late failure of an older request, take a pending prompt away unanswered;
  of two prompts on one key, only the first pending one gets its snapshots.
- When a discovery request fails, its sender gets an empty list and everyone who joined it gets the error.
- `truncateMiddle` exceeds its limit exactly when it cuts and the limit is below 5.

## Model

| member | source | states |
|---|---|---|
| Splicing.SplicingIsSubstitution | src/agents/apply-patch-update.ts:83-99 | For sorted, in-bounds, disjoint replacements, splicing from the last to the first equals left-to-right simultaneous substitution |
| Splicing.SpliceOne | src/agents/apply-patch-update.ts:89-96 | The two inner loops, deleting and inserting one line at a time, exchange one range, clipped at the end of the file |
| Splicing.ApplyReplacements | src/agents/apply-patch-update.ts:83-99 | The in-place loop does the splices back to front, and for disjoint replacements computes the simultaneous substitution |
| Splicing.SubstituteLength | src/agents/apply-patch-update.ts:83-99 | The length changes by exactly the number of new minus old lines |
| Splicing.KeptLineSurvives | src/agents/apply-patch-update.ts:83-99 | A line outside every replaced range survives, at its place shifted by what was replaced before it |
| ApplyPatchUpdate.LaxerMatches | src/agents/apply-patch-update.ts:114-127 | What a stricter of the four comparators accepts, every laxer one accepts |
| ApplyPatchUpdate.LinesMatch | src/agents/apply-patch-update.ts:132-144 | The scan says whether all lines of the pattern agree under the comparator |
| ApplyPatchUpdate.FirstMatchIsFirst | src/agents/apply-patch-update.ts:114-127 | One scanning loop finds the least matching position, and none exactly when none matches |
| ApplyPatchUpdate.Scan | src/agents/apply-patch-update.ts:114-127 | The scanning loop computes that first match |
| ApplyPatchUpdate.SeekSequence | src/agents/apply-patch-update.ts:101-130 | The method computes `Seek`, whose meaning the next row gives |
| ApplyPatchUpdate.SeekMeaning | src/agents/apply-patch-update.ts:101-130 | A non-empty pattern is not found iff nothing matches after trimming and punctuation normalization; else the least position of the strictest comparator that matches anywhere is found |
| ApplyPatchUpdate.PlacedWhereItMatches | src/agents/apply-patch-update.ts:48-75 | A placed chunk exchanges lines it matches for its new lines; at most a final blank line is given up on both sides |
| PlacementMeaning.SeekIff | src/agents/apply-patch-update.ts:101-130 | The search returns a position iff that is the first match of the strictest comparator that matches in its window, which for an end-of-file chunk is the end of the file; it returns none iff the laxest comparator matches nothing there |
| PlacementMeaning.PlacementIff | src/agents/apply-patch-update.ts:40-76 | A chunk is placed at a position iff its context line is found before it and its lines match there, with a final blank line of both sides given up only when they are found nowhere, or, without old lines, at the end of the file; it fails iff there is no such position |
| PlacementMeaning.PlacementsIff | src/agents/apply-patch-update.ts:31-81 | The chunks of a hunk are placed one after the other, each search starting where the one before ended, and placing fails iff one of them has no place |
| PlacementMeaning.InsertionGoesLast | src/agents/apply-patch-update.ts:48-55 | Wherever the search stands, a chunk without old lines keeps every line and puts its own behind the last line, or before a blank last one |
| PlacementMeaning.InsertionAppends | src/agents/apply-patch-update.ts:10-55 | An update by one such chunk adds its lines at the end of the text, and fails iff it names a context that is not there |
| ApplyPatchUpdate.SortSorts | src/agents/apply-patch-update.ts:79 | The sort orders by start and permutes |
| ApplyPatchUpdate.SortIsStable | src/agents/apply-patch-update.ts:79 | Replacements at one position stay in chunk order |
| ApplyPatchUpdate.SortedDisjointIffClear | src/agents/apply-patch-update.ts:79 | Sorting gives a disjoint list iff the placements were pairwise clear of each other |
| ApplyPatchUpdate.DisjointIffUnobstructed | src/agents/apply-patch-update.ts:31-81 | For every file and every list of chunks, a successful placement sorts into in-bounds disjoint replacements iff a one-pass check finds no obstruction |
| ApplyPatchUpdate.PlainChunksAreDisjoint | src/agents/apply-patch-update.ts:31-81 | Without end-of-file chunks and with a last line that is not blank, the result is always disjoint |
| ApplyPatchUpdate.EndOfFileChunkCanOverlap | src/agents/apply-patch-update.ts:111 | A file and chunks where the end-of-file search, which ignores the search position, makes two replacements overlap |
| ApplyPatchUpdate.BlankLastLineCanOverlap | src/agents/apply-patch-update.ts:48-55 | A file and chunks where an insertion before a blank last line lands inside an earlier replacement |
| ApplyPatchUpdate.SeekAnchor | src/agents/apply-patch-update.ts:40-46 | The context step moves the search position behind the context line or reports it missing |
| ApplyPatchUpdate.Place | src/agents/apply-patch-update.ts:48-76 | Placing one chunk agrees with the placement function the theorems are about |
| ApplyPatchUpdate.ComputeReplacements | src/agents/apply-patch-update.ts:31-81 | The loop returns the stably sorted placements, or the first error |
| ApplyPatchUpdate.ApplyUpdateHunk | src/agents/apply-patch-update.ts:10-29 | Reading, placing, splicing and joining compute `UpdatedText` |
| ApplyPatchUpdate.UpdateSubstitutes | src/agents/apply-patch-update.ts:10-29 | Unless something obstructs, the new text is the old lines with all replacements made at once |
| PlacementMeaning.LinesAreRead | src/agents/apply-patch-update.ts:18-21 | The lines of a file are the pieces between its newlines, and the newline at its end ends the last |
| PlacementMeaning.LinesAreWritten | src/agents/apply-patch-update.ts:25-28 | What is written reads as the new lines, with a final newline, for which a blank last line stands |
| ApplyPatchUpdate.RewriteOpenEnd | src/agents/apply-patch-update.ts:18-28 | A missing final newline is added |
| ApplyPatchUpdate.RewriteNewlineEnd | src/agents/apply-patch-update.ts:18-28 | A final newline is kept, unless the line before it is blank, when one is lost |
| ApplyPatchUpdate.UntouchedTextSurvivesIff | src/agents/apply-patch-update.ts:18-28 | An update without chunks leaves the text alone iff it is empty or ends in one newline after a non-blank line |
| PatchText.ParseBodyLoop | src/agents/apply-patch.ts:394-479 | The line loop of a chunk reads the longest body, or fails on an empty or foreign one |
| PatchText.ParseUpdateFileChunk | src/agents/apply-patch.ts:394-479 | One chunk: context line, body, and the number of lines consumed, as the grammar says |
| PatchText.ParseChunkLoop | src/agents/apply-patch.ts:352-370 | The chunk loop reads chunks up to the next header, skipping blank lines between them |
| PatchText.ParseAddedLines | src/agents/apply-patch.ts:313-329 | The line loop of an added file reads the `+` lines and nothing more |
| PatchText.ParseOneHunk | src/agents/apply-patch.ts:308-392 | One hunk by its header, with its consumption, or the error |
| PatchText.ParsePatchText | src/agents/apply-patch.ts:252-306 | The whole parser, with strict and heredoc boundaries, computes `Parse` and terminates |
| PatchGrammar.HunksReadIff | src/agents/apply-patch.ts:252-479 | The parser returns a list of hunks from lines iff the lines split, with none left over, into pieces that spell these hunks, each of them as long as it can be; the relation is on the lines and does not refer to the parser |
| PatchGrammar.ParsesIff | src/agents/apply-patch.ts:252-306 | Parsing a text succeeds with a list of hunks iff the lines between its markers, bare or in a here-document, spell it; every other text is an error |
| PatchGrammar.StrayLineIsRejected | src/agents/apply-patch.ts:266-271 | A line the format has no use for makes the whole text an error, wherever it stands between the markers |
| PatchErrors.ParseFailsIff | src/agents/apply-patch.ts:252-479 | Parsing a text fails with an error iff that is what is wrong with it: no text, a wrong marker, or, behind proper hunks and chunks, a line that is no header, an update without chunks, a chunk without its context line, or a body without a line of its own |
| PatchRoundTrip.PathSurvivesIff | src/agents/apply-patch.ts:308-392 | A path comes back from its header line iff it is not empty and does not end in white space |
| PatchSpelling.WrittenLinesParse | src/agents/apply-patch.ts:252-274 | Parsing the written lines of any well-formed list of hunks gives those hunks |
| PatchEnvelope.DocumentParses | src/agents/apply-patch.ts:252-306 | A document parses as its body lines do, bare or in a heredoc and inside any white space |
| PatchRoundTrip.ParseUndoesPrint | src/agents/apply-patch.ts:252-479 | Parse undoes print for every well-formed list of hunks written with CR LF, bare or in a heredoc, whatever the lines hold besides newlines |
| PatchRoundTrip.LfDropsCrs | src/agents/apply-patch.ts:252-274 | With bare line feeds the hunks come back without the carriage returns that end their lines |
| PatchRoundTrip.LfRoundTripIff | src/agents/apply-patch.ts:252-274 | With bare line feeds parse undoes print iff no written line ends in a carriage return |
| PatchImage.ParsedIsExpressible | src/agents/apply-patch.ts:252-479 | Whatever the parser returns satisfies the explicit description of expressible hunks |
| PatchImage.PrintedParses | src/agents/apply-patch.ts:252-479 | Every list of hunks that meets that description is the parse of its printed form |
| PatchImage.ParserImage | src/agents/apply-patch.ts:252-479 | A list of hunks is the parse of some text iff it meets the description: the exact image of the parser |
| PatchImage.PrintIsNormalForm | src/agents/apply-patch.ts:252-479 | Printing what was parsed and parsing again changes nothing, for every input that parses |
| ApplyPatch.OtherFilesAreUntouched | src/agents/apply-patch.ts:133-168 | A path no hunk names keeps its contents, whether the patch succeeds or stops half way |
| ApplyPatch.IndependentHunksActAtOnce | src/agents/apply-patch.ts:133-168 | Hunks on different files succeed iff each applies to the files as they were, and then make all changes together |
| ApplyPatch.OrderDoesNotMatter | src/agents/apply-patch.ts:133-168 | Two hunks on different files can be applied in either order |
| ApplyPatch.MoveKeepsTextIff | src/agents/apply-patch.ts:157-164 | A move removes the old path, and keeps the new text iff it leads to another path |
| PatchRuns.LastHunkDecides | src/agents/apply-patch.ts:133-168 | After a run that succeeds, a file that hunks name is what the last of them leaves there: the contents of an added file, nothing after a deletion or a move away, else the text that updating the file found at that moment gives |
| PatchRuns.RunInTwoParts | src/agents/apply-patch.ts:133-168 | A run goes on where its first part ends, unless that failed |
| PatchRuns.FailureStopsRun | src/agents/apply-patch.ts:133-168 | The run stops at the first hunk that fails, with its error and the files as the hunks before it left them, whatever stands behind it |
| PatchRuns.RunFailsIff | src/agents/apply-patch.ts:133-168 | A run fails with an error iff that is why some hunk cannot be applied to what the hunks before it leave: a missing file, or chunks without a place |
| ApplyPatch.SummaryNamesEachOnce | src/agents/apply-patch.ts:176-189 | Each list of the summary names exactly the displayed paths of its hunks, each once |
| PatchRuns.SummaryShows | src/agents/apply-patch.ts:140-166 | The lists show exactly the added paths, the deleted paths, and for updates the path the text ends up at |
| PatchRuns.SummaryKeepsOrder | src/agents/apply-patch.ts:176-189 | Each list is in the order of the hunks |
| ApplyPatch.SummaryBuilder.RecordSummary | src/agents/apply-patch.ts:176-189 | The list and the set of seen paths stay in agreement, and the path is added unless it was there |
| ApplyPatch.ApplyHunk | src/agents/apply-patch.ts:133-168 | One turn of the loop makes the hunk's effect, or reports its error and changes nothing |
| ApplyPatch.ApplyHunks | src/agents/apply-patch.ts:133-168 | The loop leaves the files, the error and the summary of the fold over the hunks |
| ApplyPatch.ApplyPatchText | src/agents/apply-patch.ts:113-174 | A text that does not parse, or has no hunks, changes nothing; otherwise its hunks are applied |
| UnifiedDiff.BodyReplaces | scripts/postinstall.js:180-203 | Walking a hunk body succeeds iff all markers are known and the old text stands at the cursor, and then exchanges it for the new text |
| UnifiedDiff.TurnResult | scripts/postinstall.js:157-207 | After a successful turn the hunk looks applied at its cursor, and everything before its first change is as it was |
| UnifiedFailures.BodyFailsIff | scripts/postinstall.js:180-203 | Walking a body fails with an error iff its first line that cannot be performed says so: a context or removed line that does not stand where the text before it ends, with that line's number, or a line without a marker |
| UnifiedDiff.PerformedIff | scripts/postinstall.js:157-207 | Where its old text stands, a hunk is performed iff it does not look applied already or does not change the number of lines |
| UnifiedDiff.RepeatedLinesAreSkipped | scripts/postinstall.js:166-178 | Deleting one of three equal lines looks applied already and is skipped |
| UnifiedDiff.PureInsertionLandsOneLineEarly | scripts/postinstall.js:158 | A hunk without old lines is inserted before its start line, not behind it; for start line 0 see `TopInsertionScatters` |
| UnifiedDiff.OffsetsAreRight | scripts/postinstall.js:157-224 | Folding the hunks with the running offset equals replacing each hunk's changed range of the original at once |
| UnifiedDiff.RunSucceedsIff | scripts/postinstall.js:157-224 | For disjoint old ranges, none of them skipped, the run succeeds iff each hunk's old text stands in the original at its header's line (or its new text, of the same length), and then exchanges all of them at once |
| UnifiedFailures.RunFailsIff | scripts/postinstall.js:157-224 | Patching a file's lines fails with an error iff some hunk, which does not look applied where the hunks before it shifted it, fails so on what they leave |
| UnifiedDiff.LooksApplied | scripts/postinstall.js:157-178 | The two first loops say whether the text the hunk leaves behind already stands at its cursor |
| UnifiedDiff.TargetLines.Apply | scripts/postinstall.js:157-207 | The in-place walk leaves the lines and the offset of the specification, or its error |
| UnifiedDiff.RunHunks | scripts/postinstall.js:217-221 | The loop over the hunks computes the fold |
| UnifiedDiff.WriteUndoesRead | scripts/postinstall.js:141-155 | Writing what was read restores the file byte for byte |
| UnifiedDiff.ReadUndoesWriteIff | scripts/postinstall.js:141-155 | Reading what was written gives the lines back iff there is a line and a last blank line has a newline of its own |
| UnifiedDiff.ApplyPatchToFile | scripts/postinstall.js:209-224 | Reading, patching and writing one file compute `PatchedText` |
| UnifiedRerun.RunAppliesAll | scripts/postinstall.js:218-221 | After a successful run of ordered hunks every hunk looks applied at its turn |
| UnifiedRerun.RunIsIdempotentIff | scripts/postinstall.js:209-224 | For ordered hunks, a second run over the result of the first succeeds and changes no line iff no hunk with lines was an insertion aimed beyond the end |
| UnifiedRerun.LeftAloneIff | scripts/postinstall.js:157-224 | Ordered hunks leave a file alone iff all of them that have lines look applied on it |
| UnifiedRerun.BeyondIsRepeated | scripts/postinstall.js:199-200 | Otherwise the second run succeeds and makes the file longer |
| UnifiedRerun.OldLinesKeepInside | scripts/postinstall.js:209-224 | Hunks with old lines never aim an insertion beyond the file |
| UnifiedRerun.BeyondEndIsNotIdempotent | scripts/postinstall.js:199-200 | A file and a hunk that both runs append to |
| UnifiedRerun.TopInsertionScatters | scripts/postinstall.js:158-200 | An insertion at line 0 puts its first line before the file's last line and the others at the top |
| UnifiedRerun.TopInsertionRepeats | scripts/postinstall.js:158-178 | A patch that begins with one, and none of whose hunks removes more lines than it adds, makes every file longer on every run |
| UnifiedRerun.TopInsertionCanBeTakenBack | scripts/postinstall.js:158-200 | A file and a patch with a removing hunk behind the insertion, which takes the misplaced line back, so that the file stays as it is |
| UnifiedRerun.EditedContextIsNotIdempotent | scripts/postinstall.js:184-196 | Hunks that are not ordered: one edits an earlier one's trailing context, and the second run fails |
| UnifiedRerun.PatchIsIdempotentIff | scripts/postinstall.js:209-224 | Patching a file's text a second time succeeds and changes nothing iff no insertion was aimed beyond the end and the file was not left open: without a final newline, ending in a blank line that a hunk has reached |
| UnifiedRerun.LeftOpenIff | scripts/postinstall.js:141-155 | A non-empty text without a final newline is left open iff more than one line remains and a hunk whose new text ends in a blank line ends at the end of the file |
| UnifiedRerun.LeftOpenIffWritten | scripts/postinstall.js:141-155 | The same for any text, the empty one too, if every hunk leaves some text behind |
| UnifiedRerun.PerformedPatchIsIdempotentIff | scripts/postinstall.js:209-224 | When no hunk is skipped, the condition can be read from the text and the headers alone; for an empty file, if all lines of the bodies are marked |
| UnifiedRerun.BlankAtEndIsAddedAgain | scripts/postinstall.js:152-155 | A file and a patch that add a blank line in both runs |
| HunkHeaders.HeaderParses | scripts/postinstall.js:63-72 | The ranges of a written hunk header are read back, with or without counts of one |
| UnifiedGrammar.HeaderIff | scripts/postinstall.js:63-72 | A line is read as a hunk header with given ranges iff it is two at signs, the ranges behind their signs, and two at signs, with white space between them |
| UnifiedText.ReadBody | scripts/postinstall.js:108-121 | The body loop reads up to the next hunk or file and drops blank lines and no-newline marks |
| UnifiedText.ReadHunkList | scripts/postinstall.js:99-130 | The hunk loop reads hunks until a line that is no header, or reports a bad header |
| UnifiedText.ParsePatch | scripts/postinstall.js:74-139 | The parser computes `Parse` and terminates |
| UnifiedGrammar.ParseIff | scripts/postinstall.js:74-139 | Parsing a patch succeeds with a list of files iff its lines, group by group from one `diff --git` line to the next, say these files, with a proper header before every hunk; files without a new path or without hunks are left out |
| UnifiedGrammar.ParseFailsIff | scripts/postinstall.js:99-107 | Parsing a patch fails iff a line that stands where a hunk header has to be is none, and reports the first such line |
| UnifiedText.HunksParse | scripts/postinstall.js:99-130 | All written hunks of a file are read back and nothing behind them is consumed |
| UnifiedText.ParseUndoesWrite | scripts/postinstall.js:74-139 | Parsing a written patch gives back its files and hunks, behind any preamble, with index lines, short ranges, blank lines and no-newline marks |
| UnifiedText.BodyIsCompleteIff | scripts/postinstall.js:108-121 | A hunk gets all lines of its body iff none is blank or a no-newline mark |
| UnifiedText.BareBlankContextIsDropped | scripts/postinstall.js:111-114 | A body that loses its blank context line, written without the leading space |
| PatchSet.TargetIsPathIff | scripts/postinstall.js:209-215 | A written patch reaches its own path iff that does not begin with `a/` or `b/` and is not `/dev/null` |
| PatchSet.Directory.ApplyPatchToFile | scripts/postinstall.js:209-224 | One file of the set is replaced by its patched text, skipped, or reported |
| PatchSet.Directory.ApplyPatchSet | scripts/postinstall.js:226-241 | The loop over the files computes the fold; on an error the files patched before stay patched |
| PatchSet.SetIsPointwise | scripts/postinstall.js:226-241 | A patch set applies iff every file it is for exists and takes its own entries in order, and each file's new text depends on its own text and entries only |
| PatchSet.FailureStopsSet | scripts/postinstall.js:226-241 | The run stops at the first patch that fails, and every file is then what its own entries among the earlier patches make of it |
| PatchSet.SetFailsIff | scripts/postinstall.js:226-241 | A run fails with an error iff that is why some patch cannot be applied to what the patches before it leave |
| PatchSet.DeletionsAreSkipped | scripts/postinstall.js:209-212 | Patches that delete their file change nothing, whatever their old path and their hunks: the run is that of the other patches |
| PatchSet.TargetIsNamed | scripts/postinstall.js:209-215 | Any patch with an `a/` or `b/` left on the path it names is for the path behind it |
| PatchSet.SetIsIdempotentIff | scripts/postinstall.js:226-241 | Applying a patch set again changes nothing iff no file is changed by its own entries |
| PatchSet.SingleEntriesIdempotentIff | scripts/postinstall.js:226-241 | With one entry for each file at most, that is so iff every entry can be repeated on the text its file had |
| PatchSet.EntriesInTurnRepeat | scripts/postinstall.js:209-224 | Any number of entries for one file can be repeated if each begins behind all that the earlier ones wrote |
| PatchSet.SetInTurnIsIdempotent | scripts/postinstall.js:226-241 | A patch set whose entries go down each of their files in that way is applied, and applying it again changes nothing |
| PatchSet.SecondEntryCanBlockTheFirst | scripts/postinstall.js:226-241 | Two entries for one file, where the second edits what the first left as context, and the second run fails |
| Compaction.GreedyIsPartition | src/agents/compaction.ts:62-96 | Greedy chunks join back to the history, and each fits or is one message |
| Compaction.SuffixNeedsNoMore | src/agents/compaction.ts:62-96 | A shorter history never needs more greedy chunks |
| Compaction.GreedyIsOptimal | src/agents/compaction.ts:62-96 | No order-preserving partition into acceptable chunks has fewer chunks |
| Compaction.ChunkLoop | src/agents/compaction.ts:62-96 | The loop computes the greedy chunks |
| Compaction.ChunkMessagesByMaxTokens | src/agents/compaction.ts:62-96 | The result is an acceptable partition, and no other has fewer chunks |
| CompactionExact.GreedyIff | src/agents/compaction.ts:62-96 | The chunks are the one partition into acceptable chunks none of which could take the first message of the next |
| Compaction.NormalizeParts | src/agents/compaction.ts:20-23 | At least one part; at least two iff two are asked for and there are two messages; never more parts than messages |
| Compaction.SharesKeepAll | src/agents/compaction.ts:25-60 | The shares keep all messages in order, are not empty, and are no more than allowed |
| Compaction.SharesAreFair | src/agents/compaction.ts:39-53 | Every share but the last keeps to its part or is one message, and ends only where the next message exceeds it |
| Compaction.SplitsIff | src/agents/compaction.ts:25-60 | There are two shares or more iff there are two messages, two parts are asked for, and the total is positive |
| CompactionExact.SharesIff | src/agents/compaction.ts:25-60 | The shares are the one way to cut the history so that each ends where the next message would exceed its part and keeps to it or is one message, the last one too unless all cuts are used up |
| CompactionExact.NormalizeIff | src/agents/compaction.ts:20-23 | The number of parts used is the largest whole number within both the number asked for and the number of messages |
| Compaction.SplitMessagesByTokenShare | src/agents/compaction.ts:25-60 | The method's shares have all these properties |
| Compaction.PruneHistoryForContextShare | src/agents/compaction.ts:297-341 | Dropped and kept messages make up the history, all counters agree, the number of shares dropped is the least after which the rest fits or cannot be split, and the rest meets the budget or is one message iff two parts are asked for or nothing had to be done |
| CompactionExact.OldestIff | src/agents/compaction.ts:321-328 | The share that pruning drops ends where the next message would exceed it, and keeps to its part or is one message |
| CompactionExact.BudgetIff | src/agents/compaction.ts:311-312 | The budget is the whole part of the product of context and share, but one token at least |
| Compaction.StagesCoverHistory | src/agents/compaction.ts:234-295 | Every message is summarized in exactly one stage, and stages are used iff parts, length and tokens ask for them |
| ProcessOutput.CapPendingBuffer | src/agents/bash-process-registry.ts:187-205 | The buffer keeps the last `cap` characters however it was cut into chunks, and the returned count is exact |
| ProcessOutput.AppendTwice | src/agents/bash-process-registry.ts:99-127 | Two pieces of output leave the session as the two at once would |
| ProcessOutput.ChunkString | src/agents/bash-tools.shared.ts:159-165 | Pieces of exactly the limit, the last one shorter, that join to the input |
| ProcessOutput.ProcessSession.AppendOutput | src/agents/bash-process-registry.ts:99-127 | The new state of all buffers, counters and the flag, with the counters exact |
| ProcessOutput.ProcessSession.DrainSession | src/agents/bash-process-registry.ts:129-137 | The pending text of both streams is handed over and nothing else changes |
| ProcessOutput.ProcessSession.HandleData | src/agents/bash-tools.exec.ts:586-600 | Data that arrives is recorded as if in one piece, whatever the chunk limit |
| ProcessOutput.BuffersHoldTheLastCharacters | src/agents/bash-process-registry.ts:99-137 | After any run of output and polls, each buffer is the last characters of the real stream that its limit allows, and the total is exact |
| ProcessOutput.DeliveredIsShort | src/agents/bash-process-registry.ts:99-137 | What polls handed over and what is pending is all of a stream or less than it, never more |
| ProcessOutput.LosslessIff | src/agents/bash-process-registry.ts:99-137 | A stream is delivered in full iff at no moment more than the limit had arrived since the last poll |
| ProcessOutput.FlagTellsTheTruth | src/agents/bash-process-registry.ts:99-127 | `truncated` is set iff something was lost from what is kept or from what is handed over |
| ProcessOutput.TruncatedIff | src/agents/bash-process-registry.ts:99-127 | The same in terms of the run alone: the total passed its limit or a stream overflowed between polls |
| Registry.AddKeepsConsistentIff | src/agents/bash-process-registry.ts:81-84 | Adding a session keeps the maps consistent iff its id is not that of a finished record |
| Registry.MarkExitedKeepsConsistent | src/agents/bash-process-registry.ts:139-174 | An exit, at any time and also after a removal, keeps the maps consistent |
| Registry.RegistryIsConsistent | src/agents/bash-process-registry.ts:81-97 | Over all runs with free ids: no id is both running and finished, running sessions have not exited, finished records came from backgrounded sessions that have |
| Registry.PollLeavesAlone | src/agents/bash-tools.process.ts:198-209 | The branch of `poll` for exited sessions is dead |
| Registry.PollOnlyReports | src/agents/bash-tools.process.ts:148-237 | In every reachable state a poll leaves both maps alone and says "ended" iff the session is in scope among the finished ones |
| Registry.StepListsLiveIff | src/agents/bash-process-registry.ts:81-174 | With free ids, an event keeps every live session in the running map iff it is not the exit of a session whose id another one runs under |
| Registry.ListedThroughoutIff | src/agents/bash-process-registry.ts:81-174 | Over any run with free ids, every live session is listed all the time iff there is no such exit |
| Registry.RunningIsExactlyLive | src/agents/bash-process-registry.ts:81-174 | When ids are never used twice, there is none, and the running map lists exactly the sessions that have not exited |
| Registry.ReusedIdLosesALiveSession | src/agents/bash-process-registry.ts:73-97 | A run with free ids in which a live session is lost to the late exit of a killed and cleared one |
| RegistryHistory.RecordsFollowStep | src/agents/bash-process-registry.ts:139-244 | Every event writes the record of a session it ends in the background, with that end's exit, status and time, erases what a tool in scope clears or the sweep finds too old, and keeps all other records |
| RegistryHistory.KeptIffLastWritten | src/agents/bash-process-registry.ts:139-244 | Over all runs with free ids, a record is kept iff writing it was the last that happened under its id |
| RegistryHistory.SessionsFollow | src/agents/bash-process-registry.ts:139-174 | An event never changes a session's id or scope, marks it with the exit it ends it with, and leaves all other sessions as they are |
| RegistryHistory.ForeignToolIsPowerless | src/agents/bash-tools.process.ts:52-55 | A tool can neither see nor change what is kept under an id that only sessions of other scopes have |
| RegistryHistory.PollTellsTheTruth | src/agents/bash-tools.process.ts:148-237 | When ids are new, a poll says running, not in the background, ended with its record's status, or none, exactly when a session the tool may use is so |
| Registry.SessionRegistry.AddSession | src/agents/bash-process-registry.ts:81-84 | The session is listed under its id |
| Registry.SessionRegistry.MarkExited | src/agents/bash-process-registry.ts:139-174 | The session is marked and unlisted, and recorded iff it was in the background |
| Registry.SessionRegistry.PruneFinishedSessions | src/agents/bash-process-registry.ts:237-244 | The sweep keeps exactly the records that ended at the cutoff or later |
| Registry.SessionRegistry.Poll | src/agents/bash-tools.process.ts:148-237 | The new state of the maps, and the reply |
| Registry.SessionRegistry.Kill | src/agents/bash-tools.process.ts:562-594 | A backgrounded session in scope is marked as killed, and nothing else |
| Registry.SessionRegistry.Clear | src/agents/bash-tools.process.ts:596-613 | A finished record in scope is deleted |
| Registry.SessionRegistry.Remove | src/agents/bash-tools.process.ts:615-643 | A running session in scope is marked as killed, else a finished record deleted |
| ExecRun.SettlesOnceWithTheFirstEnd | src/agents/bash-tools.exec.ts:530-694 | In every interleaving the promise is resolved at most once, with the outcome of the first event that ended the run |
| ExecRun.CompletedStopsTheClock | src/agents/bash-tools.exec.ts:621-664 | Once anything says "completed" the timeout has not fired and never will |
| ExecRun.TimedOutNeverCompletes | src/agents/bash-tools.exec.ts:536-664 | A run whose timeout fired is never reported, announced or recorded as completed |
| ExecRun.YieldComesFirst | src/agents/bash-tools.exec.ts:1440-1463 | No yield comes after the delivery of the outcome |
| ExecRun.DeliveredIsDecided | src/agents/bash-tools.exec.ts:1461-1482 | Only a settled outcome is delivered |
| ExecRun.AnsweredExactlyOnce | src/agents/bash-tools.exec.ts:1440-1490 | The list of answers is one "running" if the run yielded, else one result if the outcome was delivered, else empty |
| ExecRun.NotifiedOnceIff | src/agents/bash-tools.exec.ts:306-322 | At most one exit notice, and one iff notices are wanted and the run ended by itself in the background |
| ExecRun.FinalizeSettlesIff | src/agents/bash-tools.exec.ts:536-551 | The finalize timer settles an open run iff the process tool has neither killed nor removed it |
| ExecRun.RemovalDisablesTheTimeout | src/agents/bash-tools.exec.ts:536-551 | A run that is removed before the finalize timer fires is neither settled nor answered by it |
| ExecRun.RecordIsTheLastMark | src/agents/bash-process-registry.ts:139-174 | Over every run, the finished record has the status of the last marking event after the yield |
| ExecRun.RecordAgreesIff | src/agents/bash-tools.exec.ts:621-694 | It agrees with the outcome iff that is the status of the first event that ended the run |
| ExecRun.RecordAgreesWithoutErrors | src/agents/bash-tools.exec.ts:621-694 | Without an error event and with one exit at most, a run that ends in the background is recorded with its outcome's status, and any other is not recorded |
| ExecRun.LateExitRewritesTheRecord | src/agents/bash-tools.exec.ts:621-694 | A run with an error event and then an exit with code zero: recorded as completed, though its outcome was a failure |
| ExecPossible.EnabledIff | src/agents/bash-tools.exec.ts:530-694 | In every state of every run, from the configuration and the history alone, exactly these events can happen next: each timer while it is armed and nothing has cleared it, a delivery once the run is decided, a kill or removal until something has marked the session |
| ExecPossible.YieldCanFireIff | src/agents/bash-tools.exec.ts:1448-1463 | The yield can fire iff there is a window other than zero and neither a yield nor a delivery has happened |
| ExecPossible.TimeoutCanFireIff | src/agents/bash-tools.exec.ts:553-569 | The timeout can fire iff the run is timed and no timeout, exit or error has happened |
| ExecPossible.FinalizeCanFireIff | src/agents/bash-tools.exec.ts:536-561 | The finalize timer can fire iff the timeout has fired and no exit, error or finalize timer has come |
| ExecPossible.RunExistsIff | src/agents/bash-tools.exec.ts:530-694 | A sequence of events is one a run can go through iff each of them can happen where it stands |
| ExecPossible.NoticeIsTheFirstEnd | src/agents/bash-tools.exec.ts:306-322 | The one notice that is sent gives the status of the first event that ended the run in the background |
| ExecPossible.SessionShowsTheLastMark | src/agents/bash-process-registry.ts:139-152 | The session shows the exit code and the signal of the last event that marked it |
| ExecRun.Execution.OnTimeout | src/agents/bash-tools.exec.ts:553-561 | The timeout marks the run and arms the finalize timer once |
| ExecRun.Execution.FinalizeTimeout | src/agents/bash-tools.exec.ts:536-551 | The finalize timer ends a run that has not exited, as failed and timed out |
| ExecRun.Execution.HandleExit | src/agents/bash-tools.exec.ts:621-664 | An exit clears the timers, marks, notifies and settles |
| ExecRun.Execution.HandleError | src/agents/bash-tools.exec.ts:677-694 | An error event clears the timers and fails the run |
| ExecRun.Execution.OnYieldTimer | src/agents/bash-tools.exec.ts:1452-1458 | The yield sends the run to the background and answers "running" |
| ExecRun.Execution.OnOutcome | src/agents/bash-tools.exec.ts:1461-1482 | The outcome answers the call unless it has yielded |
| AcpSession.SetActiveKeepsIndexIff | src/acp/session.ts:40-46 | Starting a run keeps every active run indexed iff no other session has a run of that id |
| AcpSession.EndingKeepsIndex | src/acp/session.ts:19-64 | Creating a session and ending a run keep every active run indexed |
| AcpSession.CreateKeepsExactIff | src/acp/session.ts:19-31 | Creating a session leaves no stale entry iff its id had no active run |
| AcpSession.SetActiveKeepsExactIff | src/acp/session.ts:40-46 | Starting a run leaves no stale entry iff the session had no other run |
| AcpSession.ClearKeepsExactIff | src/acp/session.ts:48-54 | Ending a run leaves no stale entry iff its id is not empty |
| AcpSession.ClearUndoesSetIff | src/acp/session.ts:40-54 | Ending a run undoes starting it iff the index had no entry for it |
| AcpSession.RunsAreAlwaysAbortable | src/acp/session.ts:15-83 | In every state a session has an active run iff it has a controller |
| AcpSession.LookupFindsActiveIff | src/acp/session.ts:35-38 | In every state reached with new run ids, looking up an active run finds its session iff the session's id is not empty |
| AcpSession.IndexIsExactThroughout | src/acp/session.ts:15-83 | Used as the bridge uses it, the index holds exactly the active runs in every state |
| AcpHistory.SessionShowsItsLife | src/acp/session.ts:15-83 | After any operations a session is unknown, idle, or has the run and the controller that the operations on this session leave it |
| AcpHistory.IndexShowsHistory | src/acp/session.ts:35-72 | After any operations the index leads a run to the known session that started it last, until that run ends |
| AcpSession.InMemorySessionStore.CreateSession | src/acp/session.ts:19-31 | A fresh idle session is stored, and the run index is untouched |
| AcpSession.InMemorySessionStore.GetSessionByRunId | src/acp/session.ts:35-38 | The session object the index leads to, if any |
| AcpSession.InMemorySessionStore.SetActiveRun | src/acp/session.ts:40-46 | The session gets the run and the index an entry; an unknown session changes nothing |
| AcpSession.InMemorySessionStore.ClearActiveRun | src/acp/session.ts:48-54 | The session becomes idle and its run leaves the index |
| AcpSession.InMemorySessionStore.CancelActiveRun | src/acp/session.ts:56-64 | The run's controller, and no other, is aborted, and the answer says whether there was one |
| AcpSession.InMemorySessionStore.ClearAllSessionsForTest | src/acp/session.ts:66-72 | Every controller is aborted and the store is empty |
| Streaming.AsLongAsTheLongest | src/acp/translator.ts:377-400 | Whatever snapshots arrive, the client has as many characters as the longest one, and that one is recorded |
| Streaming.InStepIffExtending | src/acp/translator.ts:377-400 | The chunks make up the longest snapshot at every moment iff every longer snapshot extends the longest before it |
| Streaming.PrefixesReassemble | src/acp/translator.ts:377-400 | Snapshots of one growing text, repeated or reordered, give the longest of them and its length |
| Streaming.ForgetsIff | src/acp/translator.ts:226-275 | An event leaves a pending prompt neither pending nor answered iff it is another prompt of its session or the failure of another request of its session |
| Streaming.PendingThroughout | src/acp/translator.ts:226-293 | In every state there is one entry for each session and each run, and all of them were started |
| Streaming.ServedThroughoutIff | src/acp/translator.ts:226-293 | Over every run, a prompt is answered or pending at every moment iff no such event comes before it is answered |
| Streaming.AnsweredUnlessForgotten | src/acp/translator.ts:226-293 | In particular, it is when no such event came in between |
| Streaming.EventReachesIff | src/acp/translator.ts:408-413 | A chat event with a prompt's key, and its run id or none, reaches that prompt iff no earlier pending prompt has the key |
| PromptAnswers.EventAnswers | src/acp/translator.ts:226-403 | Every event gives a pending prompt exactly the answer it is due, by the state of a chat event that reaches it, its own request's failure, a cancel of its session or a disconnect, and the prompt stays pending iff that is none and nothing forgets it |
| PromptAnswers.NextAnswer | src/acp/translator.ts:226-403 | The same in every state of every run, where no pending prompt has been answered before |
| PromptAnswers.AnswerIsFinal | src/acp/translator.ts:402-406 | An answer, once given, is the prompt's for good |
| PromptAnswers.PutPlaces | src/acp/translator.ts:247-253 | A session that has an entry keeps its place among the pending prompts, and a new one comes last |
| Streaming.SnapshotMovesIff | src/acp/translator.ts:345-400 | A longer snapshot for a pending prompt moves it on iff no earlier pending prompt has its key, and is lost otherwise |
| Streaming.ProgressStep | src/acp/translator.ts:345-400 | Every event moves a pending prompt on only if it is its own snapshot and the prompt is the first with its key |
| Streaming.ProgressIsHeard | src/acp/translator.ts:345-400 | However the events of several prompts interleave, each prompt's progress is that of its own snapshots that came while it was the first with its key |
| Streaming.HearsAllIff | src/acp/translator.ts:345-400 | These are all its own snapshots iff it was the first with its key at each of them |
| Streaming.ProgressIsOwn | src/acp/translator.ts:345-400 | Then its progress is that of all its own snapshots |
| Streaming.PromptReassemblesIff | src/acp/translator.ts:345-400 | The chunks of a pending prompt make up the longest of its own snapshots, of one growing text, iff that one came while the prompt was the first with its key |
| Streaming.SharedKeyDropsSnapshots | src/acp/translator.ts:408-413 | A run of two prompts on one key, where the second one's snapshot and its final event are dropped |
| Streaming.GatewayAgent.Prompt | src/acp/translator.ts:247-254 | A prompt's entry is put under its session |
| Streaming.GatewayAgent.OnRequestFailed | src/acp/translator.ts:270-274 | The session's entry is deleted, whichever run it is for, and the request's own prompt is rejected |
| Streaming.GatewayAgent.OnCancelled | src/acp/translator.ts:289-293 | The session's pending prompt, if any, is answered as cancelled |
| Streaming.GatewayAgent.HandleDeltaEvent | src/acp/translator.ts:377-400 | The entry of the session moves on by the new part of the snapshot |
| Streaming.GatewayAgent.HandleChatEvent | src/acp/translator.ts:345-375 | The event reaches the first entry with its key, if the run ids agree |
| Streaming.GatewayAgent.HandleGatewayDisconnect | src/acp/translator.ts:83-90 | Every pending prompt is rejected and none is left |
| BedrockDiscovery.FlightsAlwaysMatch | src/agents/bedrock-discovery.ts:124-200 | In every interleaving an entry is in flight exactly while its request is outstanding |
| BedrockDiscovery.SingleFlight | src/agents/bedrock-discovery.ts:144-152 | A cached key never has two requests outstanding |
| BedrockDiscovery.CallSendsIff | src/agents/bedrock-discovery.ts:144-175 | A call sends a request iff its key is not cached, or there is neither a good value nor an outstanding request |
| BedrockDiscovery.CachedValueIsFresh | src/agents/bedrock-discovery.ts:144-148 | A cached value is only returned when a request for its key brought it that began less than one interval before the caller's clock |
| DiscoveryHistory.CacheShowsHistory | src/agents/bedrock-discovery.ts:144-199 | What the cache holds for a key follows, in every interleaving, from the calls with this key and the ends of their requests |
| DiscoveryHistory.CallFollowsHistory | src/agents/bedrock-discovery.ts:144-175 | A call gets a cached value iff a fresh one is there, joins iff a request is under way, and sends one in every other case |
| DiscoveryHistory.UncachedCallsSend | src/agents/bedrock-discovery.ts:144-175 | Without a refresh interval every call sends a request of its own, and nothing is cached |
| BedrockDiscovery.EveryCallerIsServedOnce | src/agents/bedrock-discovery.ts:124-200 | Exactly those who called have a reply or wait for a request, and for one only |
| BedrockDiscovery.RepliesOfOneRequest | src/agents/bedrock-discovery.ts:178-199 | All who wait for one request get the same value; when it fails the sender gets an empty list and the others the failure |
| BedrockDiscovery.Discovery.Discover | src/agents/bedrock-discovery.ts:144-176 | A call answers from the cache, joins, or sends |
| BedrockDiscovery.Discovery.OnResponse | src/agents/bedrock-discovery.ts:178-186 | The response is cached under its own start time and reaches everyone who waits |
| BedrockDiscovery.Discovery.OnFailure | src/agents/bedrock-discovery.ts:187-199 | The entry is deleted and everyone who waits is told |
| Utf16.WellFormedIffPaired | src/utils.ts:161-167 | A string decodes from the left iff every surrogate has its partner beside it |
| Utf16.PieceWellFormedIff | src/utils.ts:169-196 | A piece of a well-formed string is well formed iff neither end cuts a pair |
| Utf16.AskedIff | src/utils.ts:169-180 | The window asked for holds exactly the positions between the two indices, negative ones counted from the end, whichever is the greater |
| Utf16.SliceUtf16Safe | src/utils.ts:169-196 | The method computes the slice the next rows describe, for all indices |
| Utf16.SliceIsWellFormed | src/utils.ts:169-196 | Slices of well-formed strings are well formed, for all indices, negative and swapped ones too |
| Utf16.SliceIsLargest | src/utils.ts:169-196 | Every well-formed piece of the window asked for lies within the slice |
| Utf16.TruncatedFits | src/utils.ts:198-202 | A truncated string is a prefix within the limit, at most one unit short of it, and stays well formed |
| Utf16.TruncateMiddleFitsIff | src/agents/bash-tools.shared.ts:167-171 | The result keeps within the limit iff nothing is cut or the limit is at least 5 |
| Utf16.TruncateMiddleIsWellFormed | src/agents/bash-tools.shared.ts:167-171 | Cutting out the middle of a well-formed string leaves it well formed |
| Utf16.TruncateMiddleKeepsEnds | src/agents/bash-tools.shared.ts:167-171 | Both ends survive, each at most one unit short of half the room |
| BlockRewrite.RewriteFailsIff | scripts/sync-moonshot-docs.ts:21-28 | The rewriter fails iff the start marker is missing, or no end marker follows it |
| BlockRewrite.RewritingIsIdempotentIff | scripts/sync-moonshot-docs.ts:15-49 | Rewriting a rewritten text changes nothing iff the end marker occurs neither in the start marker nor in an indented generated line |
| BlockRewrite.OnlyTheBlockChanges | scripts/sync-moonshot-docs.ts:30-48 | Whole lines are replaced: the block runs from the first line with the start marker to the first following line with the end marker, all lines before and after it survive, and only a lone final newline is dropped |
| BlockRewrite.BlockIsRendered | scripts/sync-moonshot-docs.ts:30-48 | In the block's place stand the start marker, the generated lines and the end marker, each on a line of its own behind what stood before the first start marker on its line |

## Left out

- Paths: how a path is resolved, displayed, expanded or checked against a sandbox; `ApplyPatch` takes resolution and display as functions, `PatchSet` works on relative paths.
- Directories, permissions and read errors other than a missing file; abort signals in the patch loop.
- Message texts, logging, and the summary's wording.
- Hunk range numbers above 2^53 in unified diffs, which lose precision in the original.
- UnifiedRerun.RunIsIdempotentIff: says nothing about hunks that edit an earlier hunk's trailing context, where a second run can fail but need not, as one lemma shows.
- UnifiedRerun.TopInsertionRepeats: one way for patches that also remove more than they add, which can take the insertion back, as one lemma shows; hunks at line 0 that have old lines, which diffs never write, are not covered.
- PatchSet.EntriesInTurnRepeat: one way; entries for one file that are not in this order are covered by `SetIsIdempotentIff` only, whose condition is on the result, and one lemma shows that their second run can fail.
- Session objects that lack their buffer fields, which appending would create.
- Output from a terminal is stripped of control requests before it is recorded; the models start behind that.
- ExecRun: the approval path, hosts and sandboxes, aborting the call, and the texts of outcomes; a repeated exit is allowed although the original listens once for a child process.
- Registry: the races of the id's choice with the start of its process are covered by the freely chosen ids; the sweep timer itself is an event.
- Registry: `list`, `log`, `write` and the key actions, which do not change the maps.
- AcpSession: creation times and working directories; ids and controllers are chosen by the caller.
- Streaming: tool-call updates, and the session store's side of a prompt, which `AcpSession` models.
- BedrockDiscovery: filtering and mapping the models; the settlement of a request and the step that follows it in the sender are one event.
- BlockRewrite.BlockIsRendered: for generated lines without newlines, which is what the generator makes.
- Token estimation, the text of summaries and the model calls of compaction; the estimate is any function to natural numbers.
- Compaction uses exact numbers where the original uses floating point for shares and budgets.
- Unicode beyond surrogate pairs, in particular case folding and normalization.
- Exec approvals and allowlists, configuration, plugins, credentials, user interfaces and the bundled browser code.
