# MetaOS core: a Dafny model

This project models the parts of MetaOS whose correctness rests on more than one function, and proves what
they promise.  Loops and objects that the program updates in place are methods and classes here, each proved
equal to a specification function; the lemmas then say what those functions mean.

- **The chunker** (`Text`, `Tokens`, `Windows`, `Packing`, `ChunkPlans`, `Lines`, `Markup`, `LineForms`,
  `Sections`, `HeadingPaths`, `MarkdownBlocks`, `BlockForms`, `OcrPages`, `Chunker`, `DocumentChunks`, `Documents`).
  A document becomes sections under heading paths, sections become blocks, long blocks become token windows,
  and blocks are packed into chunks that carry some overlap.  Token estimation, the two binary searches, the
  heading stack, fences, tables and page markers are modelled on real characters.
- **The incremental index** (`Embeddings`, `VectorIndex`, `IndexRuns`).  A vector index and a mark column are
  brought into line with the chunk table by runs that can be cut off between any two writes; embedding
  batches of one size feed upsert batches of another through four parallel buffers.  A run finishes exactly
  when it is granted the writes that `Writes` counts and the embedding client can serve it.
- **The Core Alpha commands** (`Commands`, `Decisions`, `DecisionDesk`, `DecisionSafety`, `Drafts`, `Audits`,
  `Dispositions`, `Acceptance`, `JudgmentVersions`, `WithdrawnAccepted`, `ResearchRuns`, `RunHistory`).
  Commands run at most once under their key; judgments are drafted, audited and proposed upon; dispositions
  are accepted; research runs have attempts and one outcome.  The store is a record of tables, `Apply` is the
  step of one command, and safety is proved over every sequence of commands.
- **Selection and ranking** (`Ordering`, `Places`, `Reals`, `Ministries`, `MinistryReports`, `ContextSelection`,
  `ContextPacks`, `Fusion`, `FusedResults`, `ReleaseGate`, `GateReports`, `StableIds`, `HashTexts`).

A specification function follows the program closely, so equality with it says little by itself.  For each main
operation a theorem therefore says what its result is in terms of the inputs alone: `SectionPaths`,
`BlocksAreLaidOut`, `SplitIsWindows`, `OverlapIsReached`, `PlanChained`, `OnlyScope` and `Agrees` in the contracts of
the index runs, `OutboxOfRun`, `AuditDecides`, `HowItEnded`, `SelectionMeans`, `ReportsMean`, `FusedListShows`,
`GateIsShown`, `HashesAlike`.  No lemma relies on automatic induction.

Five things the proofs brought to light, each stated as a lemma:

- Accepting a proposal looks at neither its lifecycle nor its earlier decision.  In every reachable store a
  request that names a proposal as it is stored is accepted exactly while the proposal is the newest version of
  its series and its judgment still carries its fitness (`AcceptedExactly`, `AcceptedAsStored`); so a withdrawn or
  already accepted proposal can be accepted again until its judgment is audited once more or it is adjusted, and
  not after (`AcceptedAgain`, `RejectedCanBeAccepted`; a concrete run is `WithdrawnIsAcceptedTwice`).
- A judgment whose last audit passed can only be audited again to be blocked (`ReauditOnlyBlocks`; a concrete
  run that ends in a refused audit is `ReauditIsRefused`).
- A run gets a second attempt only after the first was marked stale, since every other end of an attempt ends
  the run (`NewAttemptNeedsStale`).
- Agreement of index and table covers all rows only up to the listing limit of 100000 (`LimitDecides`): with one
  row more a finished rebuild deletes the correct entry of the last row (`LastRowIsLost`).  A run that is not
  forced keeps entries whose text has changed under the same id (`EntriesOfRun`, `OldTextIsKept`).
- Two chunks of a document share an identifier exactly when they have the same headings, texts that differ only
  in white space at line ends and at both ends of the text, and equal occurrence numbers (`ClashMeans`, `ClashExists`).

The guard against empty headings in the section loop never fires, because the text of a heading line is never
blank (`HeadingIsVisible`).

## Model

| member | source | states |
|---|---|---|
| Text.NormalizeIsTidy | metaos/knowledge/chunking.py:60-64 | a normalised text has no carriage return, no blank at a line end, no run of three newlines, and is stripped |
| Text.TidyIsFixed | metaos/knowledge/chunking.py:60-64 | normalising leaves every such text as it is |
| Text.NormalizeIdempotent | metaos/knowledge/chunking.py:60-64 | normalising twice is normalising once |
| Tokens.PartsCostIsEst | metaos/knowledge/chunking.py:86-95 | pricing the maximal runs one by one (one token per ideograph, four latin characters per token, one per other visible character) is the left-to-right estimate used in all proofs |
| Tokens.EstimateTokens | metaos/knowledge/chunking.py:86-95 | the loop over the parts computes that estimate for every text |
| Tokens.NearAdditive | metaos/knowledge/chunking.py:86-95 | est(a) + est(b) - 1 <= est(a + b) <= est(a) + est(b) |
| Tokens.Monotone | metaos/knowledge/chunking.py:86-95 | cutting characters off either end never raises the estimate |
| Tokens.SpaceAdditive | metaos/knowledge/chunking.py:86-95 | across a white space character the estimate is exactly additive |
| Tokens.StripKeepsTokens | metaos/knowledge/chunking.py:86-95 | stripping a text keeps its estimate |
| Tokens.NormalizeKeepsTokens | metaos/knowledge/chunking.py:60-95 | normalising a text keeps its estimate |
| Tokens.Prices | metaos/knowledge/chunking.py:86-95 | white space is free, an ideograph costs one token, a latin run one for every four characters or the rest, any other character one |
| Tokens.PricesAdd | metaos/knowledge/chunking.py:86-95 | everywhere but inside a latin run the estimate is the sum over the parts, so these prices determine it for every text |
| Windows.FindTokenLimitedEnd | metaos/knowledge/chunking.py:312-323 | the binary search returns the greatest end within the limit, and the next character when none is |
| Windows.LastBoundary | metaos/knowledge/chunking.py:326-336 | trying the separators in turn finds the last boundary of any of them in the last part of the window |
| Windows.RefineSplitEnd | metaos/knowledge/chunking.py:326-336 | the end moves back to that boundary, or stays; it never reaches the start |
| Windows.RefinedIsLast | metaos/knowledge/chunking.py:326-336 | the refined end is behind the last line break, sentence end or blank late enough in the window, and the end itself when there is none or the text ends there |
| Windows.FindOverlapStart | metaos/knowledge/chunking.py:339-352 | the binary search returns the least start whose text up to the end is within the limit |
| Windows.WindowsCover | metaos/knowledge/chunking.py:355-374 | for every limit and every overlap the windows have strictly rising starts, leave no gap, reach the end, are as long as the limit allows before they are cut back to a boundary, and neighbours share the greatest tail within the overlap |
| Windows.NoCharacterLost | metaos/knowledge/chunking.py:355-374 | every character from the start on lies in some window |
| Windows.SplitTextByTokenLimit | metaos/knowledge/chunking.py:355-374 | the window loop ends and yields exactly the pieces of the normalised text |
| Windows.PiecesAreWindows | metaos/knowledge/chunking.py:355-374 | the pieces are the stripped windows that are not blank, in order |
| Windows.SplitIsWindows | metaos/knowledge/chunking.py:355-374 | a text within the limit stays whole, a blank one vanishes, and any other is exactly the stripped, visible ones of such windows, in order |
| Windows.SplitFits | metaos/knowledge/chunking.py:355-374 | every piece is stripped, not blank, and within the limit, for every limit from one up |
| Windows.TailTextByTokens | metaos/knowledge/chunking.py:377-382 | the tail of a text is computed as specified |
| Windows.TailFits | metaos/knowledge/chunking.py:377-382 | the tail is the greatest stripped end of the stripped text that is within the limit, and it is not empty |
| Packing.ChunkTokens | metaos/knowledge/chunking.py:287-302 | a chunk costs exactly its heading context plus the sum of its blocks |
| Packing.ContextNamesPath | metaos/knowledge/chunking.py:287-290 | the context line holds every heading of the path at its place, and there is none when it is switched off or the path is empty |
| Packing.FirstPageMeans | metaos/knowledge/chunking.py:305-309 | the page of a chunk is that of its first block that has one |
| Packing.ExpandOversizedBlock | metaos/knowledge/chunking.py:385-395 | a block above the limit that may be cut becomes its windows; any other stays |
| Packing.ExpandAllFits | metaos/knowledge/chunking.py:385-395 | after cutting, every block is within the limit unless it cannot be cut, and none is blank |
| Packing.ExpandAllMeans | metaos/knowledge/chunking.py:385-395 | block by block, in order: one within the limit or that cannot be cut stays, any other becomes blocks of its kind and page with the texts of its windows |
| Packing.OversizedMeans | metaos/knowledge/chunking.py:421-444 | a block is a chunk of its own exactly when it cannot be cut, has more than 200 tokens, and does not fit the maximum beside its context and two tokens |
| Packing.TrailingOverlapBlocks | metaos/knowledge/chunking.py:398-418 | the loop from the end of a chunk collects the specified overlap |
| Packing.TrailingIsSmall | metaos/knowledge/chunking.py:398-418 | what is carried over costs less than three times the overlap |
| Packing.TrailingPicks | metaos/knowledge/chunking.py:398-418 | what is carried over is an in-order selection of the chunk's blocks, or one block cut to its tail |
| Packing.OverlapIsCarried | metaos/knowledge/chunking.py:398-418 | both of these for every overlap setting, also none |
| Packing.OverlapIsReached | metaos/knowledge/chunking.py:398-418 | from the end, skipping code and tables above the overlap, blocks are carried until they reach the overlap, the blocks run out, or one above twice the overlap stops them, which gives its tail when it comes first and can be cut |
| Packing.LastIsCarried | metaos/knowledge/chunking.py:398-418 | a last block of at most the overlap is always the last one carried, and of a last paragraph above twice the overlap that can be cut exactly its greatest tail, which is not empty |
| ChunkPlans.SplitBlocks | metaos/knowledge/chunking.py:421-478 | the packing loop with its resettable overlap buffer emits exactly the chunks of the plan |
| ChunkPlans.PlanConserves | metaos/knowledge/chunking.py:434-478 | the fresh blocks of the planned chunks are the given blocks, in order |
| ChunkPlans.PlanChained | metaos/knowledge/chunking.py:398-478 | each chunk starts with exactly the overlap of the chunk before it, unless its first fresh block is a chunk of its own or exceeds the maximum together with that overlap, and then with nothing |
| ChunkPlans.PlanBounded | metaos/knowledge/chunking.py:421-478 | every chunk is one block that cannot be cut and is too large, or within the maximum, or at most 200 tokens above its context |
| ChunkPlans.PlanNoneEarly | metaos/knowledge/chunking.py:434-478 | no chunk is closed while it is below its target and the next block fits and is not a chunk of its own |
| ChunkPlans.PlanNotLate | metaos/knowledge/chunking.py:434-478 | a chunk that reached its target takes no further block |
| ChunkPlans.SectionConserved | metaos/knowledge/chunking.py:421-478 | for every section: fresh blocks are the expanded blocks in order, every chunk has one, there are no more chunks than blocks, none is closed early or late, and each begins with exactly the overlap of the chunk before it where that fits |
| ChunkPlans.SectionBounded | metaos/knowledge/chunking.py:421-478 | for every section the packing bound holds of every chunk |
| ChunkPlans.SectionRendered | metaos/knowledge/chunking.py:293-309 | every planned chunk is emitted with its own text and the first page of its blocks |
| Lines.LinesAreContent | metaos/knowledge/chunking.py:106-166 | the visible lines of a text do not depend on which line break ends them |
| Lines.NormalizeKeepsContent | metaos/knowledge/chunking.py:60-64 | normalising keeps the visible lines |
| Markup.PageMarkerRoundTrip | metaos/knowledge/chunking.py:72-83 | a printed page marker reads back as its number and is neither heading nor fence |
| LineForms.FenceIsWritten | metaos/knowledge/chunking.py:98-103 | a line is a fence of n marks exactly when it is white space, n backticks or n tildes, at least three, and something that does not go on with the mark |
| LineForms.OpenIsSince | metaos/knowledge/chunking.py:114-137 | after some lines a code block is open exactly when one of them outside any block opened it and no later one of them closes it with as many of its marks or more |
| LineForms.HeadingRoundTrip | metaos/knowledge/chunking.py:16-18 | one to six hashes, a blank and a clean title read back as the heading of that level and title, as the marker of the page the title names, and inside a code block as a body line |
| LineForms.HeadingIsWritten | metaos/knowledge/chunking.py:16-69 | conversely the level of a heading is its number of leading hashes, white space follows them, and its title has the visible characters of the rest, but closing hashes and what is behind 120 characters |
| LineForms.TitleKeepsLetters | metaos/knowledge/chunking.py:67-69 | cleaning a title loses white space only, and what is behind 120 characters |
| LineForms.PageTitleRoundTrip | metaos/knowledge/chunking.py:18-79 | the printed title of a page names that page, for every page |
| LineForms.PageHeadingIsWritten | metaos/knowledge/chunking.py:77-79 | a title names a page exactly when it is the two signs around the digits of its number, with white space between or not |
| LineForms.RowIsWritten | metaos/knowledge/chunking.py:207-209 | a line is a table row exactly when it has two bars |
| LineForms.RuleIsWritten | metaos/knowledge/chunking.py:212-215 | a cell is a rule exactly when it is three or more dashes with a colon on either side or not |
| LineForms.CellsRoundTrip | metaos/knowledge/chunking.py:212-215 | cells between bars are read back |
| LineForms.SeparatorIsWritten | metaos/knowledge/chunking.py:212-215 | two or more rules between bars are the line below the head of a table |
| Sections.StackIsEnclosing | metaos/knowledge/chunking.py:154-157 | popping the levels at or above a heading and pushing it turns the enclosing headings before it into those after it |
| Sections.LevelsIncrease | metaos/knowledge/chunking.py:106-166 | levels strictly increase along a heading path |
| Sections.LastHeadEncloses | metaos/knowledge/chunking.py:106-166 | the last heading is the end of the path of what follows it |
| HeadingPaths.EnclosingMeans | metaos/knowledge/chunking.py:154-157 | the enclosing headings are, in document order, exactly those that no later heading of the same or a smaller level ends |
| HeadingPaths.SectionPaths | metaos/knowledge/chunking.py:106-166 | the sections of a markdown document with a body are, in order, the texts of stretches of body lines between headings, each under the titles, outermost first, of exactly those headings before it that no later heading before it ends, or the title of the document |
| HeadingPaths.BodilessIsWhole | metaos/knowledge/chunking.py:107-109 | a document that is not markdown or has no body is one section with all its text under its title, or none when blank |
| Sections.SplitIntoSections | metaos/knowledge/chunking.py:106-166 | the line loop finds the sections whose path is the declarative chain of enclosing headings, or the title |
| Sections.FencesNeverCross | metaos/knowledge/chunking.py:98-166 | every section but the last closes all fences it opens |
| Sections.SectionsConserve | metaos/knowledge/chunking.py:106-166 | the sections hold exactly the visible body lines, in order |
| MarkdownBlocks.SplitMarkdownBlocks | metaos/knowledge/chunking.py:218-275 | the line loop finds the specified paragraphs, code blocks and tables |
| MarkdownBlocks.BlocksConserve | metaos/knowledge/chunking.py:218-275 | the blocks hold exactly the visible lines but page markers, in order, each tagged with the page of the last marker before it |
| MarkdownBlocks.BlocksAreSolid | metaos/knowledge/chunking.py:218-275 | every block is stripped and not blank |
| BlockForms.BlocksAreLaidOut | metaos/knowledge/chunking.py:218-275 | the blocks lie one behind the other with only blank lines and page markers between: a paragraph is all prose lines that follow each other, a code block reaches to the first line that closes it, a table to its last row, and only paragraphs may be cut |
| OcrPages.MergePdfPageMarkdown | metaos/tasks/ocr.py:322-333 | the loop prints title, markers and page texts as specified |
| OcrPages.PageShows | metaos/tasks/ocr.py:330-332 | a page shows its extracted text, or the recognised text when nothing was extracted, or the placeholder |
| OcrPages.HeadingIsVisible | metaos/knowledge/chunking.py:139-147 | the text of a heading line is never blank, so its guard never fires |
| OcrPages.LineBySight | metaos/knowledge/chunking.py:67-103 | headings, fences, page markers and table lines are told by the stripped line alone |
| OcrPages.PageRoundTrip | metaos/tasks/ocr.py:322-333 | for a plain title and page texts without headings, fences or markers, printing and reading back gives one section whose blocks hold, page by page and in order, exactly each page's visible lines under its number |
| Chunker.PlainConserves | metaos/knowledge/chunking.py:278-284 | cutting plain text into paragraphs keeps its visible lines in order |
| Chunker.PlainIsCutUp | metaos/knowledge/chunking.py:278-284 | plain text is cut exactly at the white space from one newline to the last one that follows with nothing visible between, and every piece that is not blank is a paragraph |
| Chunker.BuildChunks | metaos/knowledge/chunking.py:506-533 | the loop over sections builds the specified numbered chunks |
| Chunker.ChunkOfDocument | metaos/knowledge/chunking.py:506-560 | for every document and all settings: ordinals count from one, and each chunk is a planned chunk of one section under its path, not empty, and one uncuttable block or within the bound |
| DocumentChunks.ChunksArePlanned | metaos/knowledge/chunking.py:506-560 | for every document and all settings the chunks are exactly the planned chunks of all sections, in order, one each, numbered from one; none is empty and each is one uncuttable block or within the bound |
| DocumentChunks.ChunkShows | metaos/knowledge/chunking.py:287-302 | the text of a chunk shows its context line and then the visible lines of its blocks, in order |
| DocumentChunks.DocumentConserved | metaos/knowledge/chunking.py:106-533 | for every document the fresh blocks of its chunks are, in order, the blocks of its sections with long ones cut into windows, and these blocks hold, in order, the visible body lines that are no page markers, or all visible lines of a plain document |
| Embeddings.EmbeddingClient.EmbedBatch | metaos/retrieval/embeddings.py:120-151 | whatever batches time out, a successful call returns the vectors of exactly these texts in order and of one dimension, in fewer than two requests per text; it succeeds whenever single texts do not time out |
| Embeddings.EmbeddingClient.Embed | metaos/retrieval/embeddings.py:111-118 | all batches together return one vector per text in order, and a known dimension never changes; with a serving client it succeeds and the client goes on serving |
| VectorIndex.AgreedIsDone | metaos/retrieval/service.py:158-171 | an agreeing index leaves nothing stale, nothing to index and nothing to mark |
| VectorIndex.HoldsIsIndexed | metaos/retrieval/service.py:417-425 | the entries in scope, those of the item or all of them, are exactly those of the listed rows if and only if the ids the program asks for are |
| VectorIndex.LimitDecides | metaos/retrieval/service.py:154 | agreement makes the index ids equal the ids of all rows in scope exactly when there are at most 100000 of them |
| VectorIndex.PutAllEntries | metaos/retrieval/service.py:320-326 | upserting rows gives each its own text and vector and leaves every other entry |
| VectorIndex.UpsertedRows | metaos/retrieval/service.py:312-326 | upserting aligned buffers of rows is upserting those rows |
| VectorIndex.BatchCount | metaos/retrieval/service.py:312-341 | with all batches full but the last there are ceil(n / size) of them |
| VectorIndex.ProgressRises | metaos/retrieval/service.py:338-342 | progress starts at the offset, strictly rises and ends at the offset plus all items |
| IndexRuns.RunConverges | metaos/retrieval/service.py:158-181 | from any entries and marks: keeping the entries of listed rows, upserting the others and marking both makes index and table agree |
| IndexRuns.SecondRunIsIdle | metaos/retrieval/service.py:146-218 | a second run that is not forced indexes nothing, deletes nothing and changes neither index nor table |
| IndexRuns.EntriesOfRun | metaos/retrieval/service.py:146-218 | after a run an entry holds its row's own text and vector if and only if the run was forced, the entry was missing, or it held them before |
| IndexRuns.LastRowIsLost | metaos/retrieval/service.py:189-206 | with 100001 rows a finished rebuild deletes the correct entry of the last row |
| IndexRuns.OldTextIsKept | metaos/workspace/catalog.py:199-226 | a row replaced under the same id with another text keeps the entry of its old text through a finished run that is not forced |
| IndexRuns.WritesAreFew | metaos/retrieval/service.py:146-218 | the writes of a run are at most one for each stale entry, two for each missing row and two more; a run that is not forced on an agreeing index makes one, or none when no row is listed |
| IndexRuns.PipelineOfRun | metaos/retrieval/service.py:275-363 | a finished run made ceil(n / size) upserts, and its progress strictly rises to exactly the number of listed rows |
| IndexRuns.RetrievalService.constructor | metaos/retrieval/service.py:115-135 | batch sizes are at least one, whatever is configured |
| IndexRuns.RetrievalService.FlushBatch | metaos/retrieval/service.py:312-339 | one batch is upserted and then marked, for two writes; cut off in between, the index is one batch ahead of the marks |
| IndexRuns.RetrievalService.FlushUpserts | metaos/retrieval/service.py:308-341 | full batches leave from the front of the four buffers, the rest only when forced, buffers staying aligned; each batch costs two writes, and it is cut off only when not all batches can be paid for |
| IndexRuns.RetrievalService.IndexChunks | metaos/retrieval/service.py:342-363 | wherever it is cut off, a prefix of the chunks is upserted and a prefix of that is marked; finished, all are, in order, in full batches but the last; with a serving client it finishes if and only if it is granted two writes for each batch |
| IndexRuns.RetrievalService.DeleteChunkIds | metaos/retrieval/service.py:433-452 | deletes exactly the given ids batch by batch; cut off, some of them and nothing else; it finishes if and only if it is granted one write for each batch |
| IndexRuns.RetrievalService.Reconcile | metaos/retrieval/service.py:163-169 | deletes the stale entries and marks the rows whose entries stay, whatever was there before; it finishes if and only if it is granted its writes |
| IndexRuns.RetrievalService.DropScope | metaos/retrieval/service.py:159-162 | a forced run leaves no entry in scope, every other entry as it was, and clears exactly the marks in scope, if and only if it is granted two writes |
| IndexRuns.RetrievalService.Run | metaos/retrieval/service.py:146-218 | a finished run is completed in the sense of convergence and made exactly the counted writes; an unfinished one has touched only its scope; with a serving client it finishes if and only if it is granted its writes |
| IndexRuns.RetrievalService.IndexKnowledgeItem | metaos/retrieval/service.py:146-181 | from any entries and marks, a finished run leaves the entries of the item exactly those of its listed rows, all marked; finished or not, every entry of another item that is not listed is as it was; with a serving client it finishes if and only if it is granted the counted writes |
| IndexRuns.RetrievalService.RebuildAll | metaos/retrieval/service.py:183-218 | from any entries and marks, a finished run leaves index and table agreeing on all rows, and with a serving client it finishes if and only if it is granted the counted writes |
| Commands.CommandHandler.Execute | metaos/core_alpha/commands.py:83-148 | the transaction of writes and rollbacks is one step of the store: recorded with event and messages, or answered from the record, or refused without a trace |
| Commands.CommandHandler.Begin | metaos/core_alpha/persistence/repositories.py:132-155 | a free key gets a pending record; a used one gives its record, or a conflict when the request differs |
| Commands.CommandHandler.EnqueueMessages | metaos/core_alpha/persistence/repositories.py:325-359 | messages enter the outbox in order until a key repeats with other data |
| Commands.CommitsOnce | metaos/core_alpha/commands.py:83-148 | in any sequence of calls at most one under the same scope and key commits |
| Commands.ReplayAnswers | metaos/core_alpha/commands.py:95-111 | a later call under a committed key changes nothing: the same request gets the first body with only the replay flag set, whatever the callback would do now, another request is a conflict |
| Commands.FailureLeavesNothing | metaos/core_alpha/commands.py:113-148 | a call that raises changes nothing, and its key stays free exactly when the callback, the event or the outbox refused |
| Commands.NeverInProgress | metaos/core_alpha/commands.py:102-104 | no committed store holds a pending record, so no caller is told a command is in progress |
| Commands.RunIsItsCommits | metaos/core_alpha/commands.py:83-148 | in any sequence of calls the domain is that of the committed callbacks run once each in order, the events are exactly theirs appended in order, the outbox is that of enqueueing all their messages in order, and there is one record for each |
| Commands.EnqueueAllMeans | metaos/core_alpha/persistence/repositories.py:325-359 | messages are refused exactly when one repeats a key with another topic or payload or a new one has a used id; else each key that is new gets its first message and nothing else changes |
| Commands.CommitsExactly | metaos/core_alpha/commands.py:83-148 | a call commits exactly when its scope and key are free, its callback returns, its revision is positive, its event key is unused, and its messages fit the outbox |
| Commands.CommitWrites | metaos/core_alpha/commands.py:113-148 | a commit writes the domain of the callback, one event, one completed record and the messages, and is answered with the outcome |
| Commands.OutboxOfRun | metaos/core_alpha/commands.py:126-134 | over every run: every message of every committed call is in the outbox under its key with its topic and payload, rows that were there never change, every other row is such a message, and ids stay unique |
| DecisionDesk.DeterministicPrecheck | metaos/core_alpha/judgment_audit.py:275-350 | the nested loops append exactly the specified findings, and fail exactly when a linked evidence use is missing |
| DecisionDesk.ClaimLinks | metaos/core_alpha/judgment_domain.py:210-236 | a claim keeps the first link of each evidence unit; links of other runs or invalid evidence are refused |
| DecisionDesk.DraftClaims | metaos/core_alpha/judgment_domain.py:206-281 | all claims of a draft are usable, or the draft is refused; they are numbered in order |
| DecisionDesk.Desk.CreateDraft | metaos/core_alpha/judgment_domain.py:74-305 | the handler does the draft step in every case: refused for a run that is not active or at another revision, for a claim with the wrong rationale, without the evidence its role demands, with repeated links or with unusable ones |
| Drafts.DraftMeans | metaos/core_alpha/judgment_domain.py:186-305 | a committed draft adds one pending judgment with the given claims in order, each with the first link of every evidence unit in order |
| Drafts.DraftsExactly | metaos/core_alpha/judgment_domain.py:186-236 | in every reachable store a draft is taken exactly for an active run at the named revision, with at least one claim, each with the rationale of its role or type, distinct valid evidence of the run, and some if it is a core judgment or recommendation |
| DecisionDesk.Desk.InsertJudgment | metaos/core_alpha/persistence/judgment_decision.py:58-168 | a later version supersedes the version before it and becomes current |
| DecisionDesk.Desk.RunAudit | metaos/core_alpha/judgment_audit.py:144-211 | the handler does the audit step: the writes of audit, findings, fitness and gate come to one change of the store; a refused audit leaves the store as it was |
| Audits.AuditDecides | metaos/core_alpha/judgment_audit.py:275-383 | a committed audit blocks the judgment and leaves it without fitness exactly when a core claim has no link, no rationale or evidence unassessed, insufficient or contradicted, or a claim links an invalid use, or a semantic finding blocks; it is acceptable exactly when none of these holds, no core claim is partially supported or mixed, and there is no semantic finding |
| Audits.AuditNames | metaos/core_alpha/judgment_audit.py:275-350 | the finding rows of the audit name each such claim and each semantic finding, and nothing else |
| Audits.AuditsExactly | metaos/core_alpha/judgment_audit.py:144-211 | in every reachable store an audit commits exactly on a judgment that is not superseded, at its revision, with semantic findings about its claims only, when it was not audited yet, is blocked, or will be blocked |
| Audits.DispositionsRestOnSoundClaims | metaos/core_alpha/research_disposition.py:327-403 | over every run the judgment of every accepted disposition has no core claim without link, rationale or sufficient evidence, and no claim with an invalid use |
| DecisionDesk.Desk.StoreAudit | metaos/core_alpha/judgment_audit.py:199-211 | audit and findings are stored, then the fitness, then the gate; a late refusal of the fitness undoes the rest |
| DecisionDesk.Desk.Acknowledge | metaos/core_alpha/persistence/judgment_decision.py:327-353 | only a warning of an audit of the named judgment can be acknowledged |
| DecisionDesk.Desk.WarningsAreAcknowledged | metaos/core_alpha/research_disposition.py:438-462 | true exactly when all acknowledgements are of this judgment and every warning of its current audit is among them |
| DecisionDesk.Desk.JudgmentCanPropose | metaos/core_alpha/research_disposition.py:406-436 | the checks in order decide exactly whether a proposal may be made or accepted |
| DecisionDesk.Desk.CreateProposal | metaos/core_alpha/research_disposition.py:172-226 | the handler does the create step |
| Drafts.ProposedExactly | metaos/core_alpha/research_disposition.py:172-226 | in every reachable store a proposal can be made exactly when the revision is that of the judgment, its audit passed and permits the kind, the terms fit, and the acknowledgements cover all warnings of that audit |
| DecisionDesk.Desk.AdjustProposal | metaos/core_alpha/research_disposition.py:228-291 | the handler does the adjust step: a new version, the old one superseded |
| DecisionDesk.Desk.AcceptProposal | metaos/core_alpha/research_disposition.py:327-403 | the handler does the accept step: proposal, disposition and case change together or not at all |
| DecisionSafety.GateOfRows | metaos/core_alpha/judgment_audit.py:377-383 | an audit is acceptable exactly without findings and blocked exactly with a blocking one |
| DecisionSafety.InvKept | metaos/core_alpha/judgment_audit.py:144-211 | every command keeps: each judgment carries the result of its last audit and a fitness of that audit unless blocked, each fitness allows what its audit's gate allows, an acceptable audit has no findings and an unblocked one only warnings, proposals name issued fitnesses |
| DecisionSafety.InvRun | metaos/core_alpha/research_disposition.py:79-89 | this holds after every sequence of commands |
| DecisionSafety.CanProposeIsKept | metaos/core_alpha/research_disposition.py:406-436 | a fitness that passes the checks was issued by the last audit of its judgment |
| Dispositions.AcceptIsSafe | metaos/core_alpha/research_disposition.py:327-403 | an accepted disposition rests on the last audit of its judgment: not blocked, issuer of its fitness, all findings acknowledged; it is never to proceed to action, and to observe only when that audit had no finding |
| Dispositions.DispositionsAreSafe | metaos/core_alpha/research_disposition.py:350-403 | every disposition of every run of commands was added by one accept command of that run that was justified in this sense when it was made |
| Dispositions.NoProposalSurvivesReaudit | metaos/core_alpha/judgment_audit.py:178-211 | after any later audit of its judgment, whatever follows, a proposal can never be accepted or adjusted |
| Dispositions.OutdatedForever | metaos/core_alpha/research_disposition.py:406-436 | an outdated proposal stays outdated under all commands |
| Dispositions.ReauditOnlyBlocks | metaos/core_alpha/persistence/judgment_decision.py:372-377 | a well-formed audit of a current judgment commits if and only if it blocks or the judgment is pending or blocked |
| Dispositions.AcceptIgnoresDecision | metaos/core_alpha/research_disposition.py:327-362 | accepting succeeds on two stores alike when they differ only in decision, lifecycle and revision of the proposal |
| Acceptance.ReadyKept | metaos/core_alpha/research_disposition.py:172-403 | every command keeps: each proposal has a known case, terms and a use that fit its kind and fitness, and distinct acknowledgements of its judgment that cover all warnings of the audit that issued its fitness |
| Acceptance.AcceptedExactly | metaos/core_alpha/research_disposition.py:327-436 | in every reachable store a request to accept a proposal succeeds if and only if it names revision, judgment, fitness and acknowledgements as stored and the proposal is open: the newest of its series, on a judgment that still carries its fitness |
| Acceptance.AcceptedAsStored | metaos/core_alpha/research_disposition.py:327-362 | so the request with the stored values succeeds exactly while the proposal is open, whatever was decided on it |
| Acceptance.AdjustedExactly | metaos/core_alpha/research_disposition.py:228-257 | in every reachable store adjusting succeeds if and only if the proposal is open and its lifecycle current, revision and terms fit, and its fitness allows the new kind |
| Acceptance.OpenUntilEnded | metaos/core_alpha/persistence/judgment_decision.py:372-377 | over any further commands an open proposal stays open if and only if none of them audits its judgment or adjusts it |
| Acceptance.AcceptableUntilEnded | metaos/core_alpha/research_disposition.py:327-436 | over any further commands a proposal can be accepted if and only if it could be before and none of them audits its judgment or adjusts it |
| Acceptance.AcceptedAgain | metaos/core_alpha/research_disposition.py:327-403 | after an acceptance and any further commands the proposal can be accepted again if and only if none of them audits its judgment or adjusts it |
| Acceptance.RejectedCanBeAccepted | metaos/core_alpha/research_disposition.py:293-325 | after a rejection and any further commands the withdrawn proposal can be accepted if and only if it was open when it was rejected and none of them audits its judgment or adjusts it |
| WithdrawnAccepted.WithdrawnIsAcceptedTwice | metaos/core_alpha/research_disposition.py:293-403 | a concrete run in which a withdrawn proposal is accepted, and then once more |
| WithdrawnAccepted.ReauditIsRefused | metaos/core_alpha/persistence/judgment_decision.py:372-377 | a concrete run after whose passed audit a second audit without findings, at the current revision, is refused |
| JudgmentVersions.VersionsOfRun | metaos/core_alpha/judgment_domain.py:202-305 | after every sequence of commands the judgments of a run have unique versions linked down to one, and exactly the highest is not superseded |
| ResearchRuns.InvKept | metaos/core_alpha/research_execution.py:270-612 | every command keeps: attempts numbered and chained, all but the last stale, an ended run with the outcome of its status and no open attempt, an active run without outcome |
| ResearchRuns.RunsAreWellFormed | metaos/core_alpha/research_execution.py:270-612 | after every sequence of commands: attempts are chained, only the last can be open and only in an active run, and a run has ended if and only if it has an outcome, which gives its status |
| ResearchRuns.NewAttemptNeedsStale | metaos/core_alpha/research_execution.py:370-405 | with the right revision a new attempt starts on an active run if and only if its last attempt is stale |
| ResearchRuns.SubmitNeedsRunning | metaos/core_alpha/research_execution.py:470-533 | with the right revision a result is taken if and only if it is for the last attempt while it runs, names a judgment exactly when its type needs one, and does not claim to be superseded |
| ResearchRuns.EndedForever | metaos/core_alpha/persistence/run_evidence.py:225-275 | an ended run and its outcome never change again |
| ResearchRuns.RevisionConsumedOnce | metaos/core_alpha/persistence/repositories.py:69-108 | of all start, submit and cancel commands that name the same revision of a run, at most one ever commits |
| ResearchRuns.InputsFitted | metaos/core_alpha/research_execution.py:284-310 | every run of every sequence of commands was started by one of them on an open case with a question, current scope and current plan that belong together, and it is still about these |
| RunHistory.StartsExactly | metaos/core_alpha/research_execution.py:270-368 | a run starts exactly on an open case at the named revision with a question, current scope and current plan that belong together, under an unused key: as a new run with one running attempt, and nothing else changes |
| RunHistory.AttemptsExactly | metaos/core_alpha/research_execution.py:370-415 | an attempt starts exactly on an active run at the named revision whose last attempt is stale: as the next, running, linked to it, one revision on |
| RunHistory.RetrievesExactly | metaos/core_alpha/research_execution.py:417-468 | a retrieval is recorded exactly for the last attempt of an active run while it runs, through a binding of its scope, and nothing else changes |
| RunHistory.SubmitsExactly | metaos/core_alpha/research_execution.py:470-533 | a result is taken exactly for the last attempt of an active run at the named revision, while it runs, with a judgment if and only if it completes with one or its audit is blocked, and never as superseded |
| RunHistory.SubmitEnds | metaos/core_alpha/research_execution.py:490-549 | it fails attempt and run for a failed execution, cancels the run for a cancellation, else completes both, and its outcome is stored; nothing else changes |
| RunHistory.CancelsExactly | metaos/core_alpha/research_execution.py:551-614 | a run is cancelled exactly while it is active at the named revision, with its last attempt unless that was stale |
| RunHistory.StalesExactly | metaos/core_alpha/research_execution.py:370-405 | an attempt is marked stale exactly while it runs, which only the last one of an active run does |
| RunHistory.HowItEnded | metaos/core_alpha/research_execution.py:470-614 | after every sequence of commands every ended run was ended by one of them, by a result for its last attempt or by being cancelled, with the final status and the outcome of that command |
| ResearchRuns.ExecutionDesk.StartRun | metaos/core_alpha/research_execution.py:270-368 | the handler does the start step: refused unless the case is open at the expected revision and question, current scope and current plan belong together; a used checkpoint key undoes it |
| ResearchRuns.ExecutionDesk.StartAttempt | metaos/core_alpha/research_execution.py:370-415 | the handler adds the attempt and then swaps the revision |
| ResearchRuns.ExecutionDesk.CompareAndSwap | metaos/core_alpha/persistence/repositories.py:69-108 | sets the status and the next revision if and only if the revision is the expected one |
| ResearchRuns.ExecutionDesk.RecordRetrieval | metaos/core_alpha/research_execution.py:417-468 | a retrieval is recorded only for a running attempt of an active run, through a binding of the scope of that run, and changes no run |
| ResearchRuns.ExecutionDesk.SubmitResult | metaos/core_alpha/research_execution.py:470-549 | the handler ends the attempt, commits the outcome, or undoes both |
| ResearchRuns.ExecutionDesk.StoreOutcome | metaos/core_alpha/persistence/run_evidence.py:225-275 | an outcome is stored once, and never one that needs a superseding run |
| ResearchRuns.ExecutionDesk.CancelAttempts | metaos/core_alpha/research_execution.py:567-576 | the loop cancels exactly the attempts that are not ended |
| ResearchRuns.ExecutionDesk.CancelRun | metaos/core_alpha/research_execution.py:551-614 | the handler does the cancel step |
| Ordering.SortOrdered | metaos/ministries/schemas.py:130-133 | sorting by a total order puts the elements in order |
| Ordering.SortElements | metaos/ministries/schemas.py:130-133 | sorting keeps the elements with their numbers |
| Ordering.OrderedUnique | metaos/search/fusion.py:81-88 | given elements have only one arrangement in order |
| Ordering.StringLeqMeans | metaos/ministries/schemas.py:130-133 | a text precedes another exactly when it is a prefix or has the smaller character where they first differ |
| Ministries.RankedInOrder | metaos/ministries/schemas.py:125-133 | the ranking holds exactly the eligible candidates, by falling score, then shorter reading, then title |
| Ministries.GreedyIsFeasible | metaos/ministries/schemas.py:134-145 | the selection keeps all limits: five in all, three per ministry, the minutes of the budget |
| Ministries.GreedyIsFirst | metaos/ministries/schemas.py:134-145 | where any other choice within the limits first differs, the selection takes the candidate: it is the lexicographically first feasible choice |
| Ministries.SelectCandidates | metaos/ministries/schemas.py:134-145 | the loop with its counters and its break computes that selection |
| Ministries.ReportsPartition | metaos/ministries/schemas.py:147-162 | the three reports hold the selected candidates and nothing else, and each passes its validator |
| Ministries.ItemPlace | metaos/ministries/schemas.py:147-177 | each selected candidate is the next item of the report of its ministry, in rank order |
| MinistryReports.ReportsMean | metaos/ministries/schemas.py:117-177 | of the candidates for the intent or for none, by falling score, then length, then title, each is chosen exactly when fewer than five are chosen before it, fewer than three of its ministry, and the minutes left are enough; each report holds the chosen ones of its ministry in that order |
| Ministries.GenerateReports | metaos/ministries/schemas.py:117-162 | the method returns the reports of the selection from the ranked eligible candidates within the budget |
| ContextSelection.ScoreIsLexicographic | metaos/core_alpha/source_aware_retrieval.py:468 | scores compare as more term hits, then earlier place |
| ContextSelection.RankIsLexicographic | metaos/core_alpha/source_aware_retrieval.py:450-486 | within one version the ranking is by hits, then place, then identifier, for all positions |
| ContextSelection.MatchingGroups | metaos/core_alpha/source_aware_retrieval.py:458-478 | the candidates are one for each evidence group with a hit, and every such group has one |
| ContextSelection.RankSourceChunks | metaos/core_alpha/source_aware_retrieval.py:450-486 | the loop with its seen-set computes that ranking |
| ContextPacks.RankingMeans | metaos/core_alpha/source_aware_retrieval.py:450-486 | the ranking holds, for every piece of evidence with a hit, its first chunk with one, by hits, then place, version, position and identifier |
| ContextSelection.SelectionSize | metaos/core_alpha/source_aware_retrieval.py:489-540 | a context pack has one candidate of each group and exactly min(cap, number of groups) of them |
| ContextSelection.PromisesAreKept | metaos/core_alpha/source_aware_retrieval.py:516-524 | if the promised candidates fit under the cap, the evidence of each of them is selected |
| ContextSelection.TopIsBest | metaos/core_alpha/source_aware_retrieval.py:496-524 | what a binding is promised are its best candidates by score, as many as its minimum or as it has |
| ContextPacks.SelectionMeans | metaos/core_alpha/source_aware_retrieval.py:489-540 | a context pack is the first of each evidence group, as many as fit, of this list: for every binding by identifier its best two candidates if primary or for comparison, its best one if otherwise required; then all by access, role, score, version, place and content |
| ContextPacks.LeftOutAreLast | metaos/core_alpha/source_aware_retrieval.py:526-540 | a candidate whose evidence is left out stands in that priority behind every one selected beyond the promises |
| ContextSelection.SelectContextCandidates | metaos/core_alpha/source_aware_retrieval.py:489-540 | the grouping and adding loops compute the specified selection |
| Fusion.MergeAllMeans | metaos/search/fusion.py:54-79 | merging in place gives each chunk exactly the declared sum of 1 / (max(1, k) + rank) over its occurrences and its best rank |
| Fusion.FusedListMeans | metaos/search/fusion.py:42-88 | the result is the first top_k of all found chunks by falling score, best rank and identifier, each once with its declared score |
| Fusion.ChannelOrderIsIrrelevant | metaos/search/fusion.py:42-88 | channels in another order give the same chunks with the same scores in the same order |
| Fusion.Dominance | metaos/search/fusion.py:42-88 | a chunk that stands above another wherever that one occurs, once per channel, precedes it in the result |
| Fusion.RrfFuse | metaos/search/fusion.py:42-88 | nothing for top_k up to zero, an error for a blank channel name, else the fused list of the filtered channels |
| Fusion.FilterCandidates | metaos/search/fusion.py:57-61 | keeps exactly the candidates that match the filters, in order |
| FusedResults.FusedListShows | metaos/search/fusion.py:42-141 | of the candidates that fit the filters, metadata hiding other fields, a row for every chunk with the sum of 1 / (max(1, k) + rank) over its places, its best rank and last score in each channel, and the first citation and metadata; the top_k of the highest sums, then best ranks, then identifiers, in order |
| ReleaseGate.FrozenHasSuite | metaos/evaluation/core_alpha.py:178-218 | every frozen case identifier has a suite |
| ReleaseGate.AggregatePasses | metaos/evaluation/core_alpha.py:364-423 | a profile passes if and only if there are enough records and all passed |
| ReleaseGate.CasePasses | metaos/evaluation/core_alpha.py:235-259 | a case passes if and only if all its required profiles do |
| ReleaseGate.GatePasses | metaos/evaluation/core_alpha.py:262-321 | the gate passes if and only if the manifest lists exactly the frozen cases and every required profile of every entry is complete |
| ReleaseGate.PassedRecordKeepsPass | metaos/evaluation/core_alpha.py:262-321 | another passed record never takes a pass away |
| ReleaseGate.OneBadRecordBlocks | metaos/evaluation/core_alpha.py:364-423 | one record that did not pass for a required profile closes the gate |
| ReleaseGate.BlockingListsAreExact | metaos/evaluation/core_alpha.py:276-309 | the blocking lists of the suites together are exactly the cases that are missing or did not pass |
| GateReports.FrozenIsExpected | metaos/evaluation/core_alpha.py:178-218 | the frozen cases are the numbered cases of ten areas, each in the suite of its area |
| GateReports.EvaluationFails | metaos/evaluation/core_alpha.py:235-274 | the evaluation raises exactly when an expected case of the manifest asks for no profile |
| GateReports.GateIsShown | metaos/evaluation/core_alpha.py:262-321 | the gate reports, by identifier, for every entry of an expected case the worst of what the records say of its profiles; exactly the missing and the unexpected cases; for each suite how many of its cases passed, of how many, and which did not or are missing; and it passes exactly when nothing is missing, unexpected or blocking |
| ReleaseGate.EvaluateMinimumSliceGate | metaos/evaluation/core_alpha.py:262-321 | the suite loop computes the specified evaluation, and raises exactly when an expected case has no profiles |
| StableIds.RepeatsAreNumbered | metaos/knowledge/versioning.py:456-462 | repeated chunks get rising occurrence numbers |
| StableIds.SameIdMeansClash | metaos/knowledge/versioning.py:421-441 | with an injective hash two chunks share an identifier if and only if they clash |
| StableIds.IdsAreDistinct | metaos/knowledge/versioning.py:231-242 | all identifiers of a document are distinct if and only if no two chunks clash |
| StableIds.RepeatsAreDistinct | metaos/knowledge/versioning.py:421-462 | when the normalisation tells the texts apart, all identifiers are distinct, also of repeated chunks |
| StableIds.ClashExists | metaos/knowledge/versioning.py:421-491 | two texts that differ in an ideographic space at a line end share an identifier |
| HashTexts.HashesAlike | metaos/knowledge/versioning.py:489-491 | two texts count as the same exactly when their lines, however broken, are the same but for white space at line ends, before the first visible line, and blank lines at both ends |
| HashTexts.ClashMeans | metaos/knowledge/versioning.py:421-462 | so two chunks get the same identifier exactly when they have the same headings, different texts of the same lines in this sense, and repeat equally many earlier chunks |
| StableIds.AppendKeepsIds | metaos/knowledge/versioning.py:231-242 | appending chunks never changes earlier identifiers |
| StableIds.LinksAreConsistent | metaos/knowledge/versioning.py:390-403 | next and previous point to each other and only between neighbours |
| StableIds.LinksVisitAll | metaos/knowledge/versioning.py:390-403 | following the next links by identifier visits all later chunks in order and then stops |
| StableIds.StandardizeChunks | metaos/knowledge/versioning.py:231-263 | the loops assign the specified identifiers and links |

## Left out

- Text.NormalizeIsTidy and the character classes: decimal digits are the ASCII ones; other Unicode digits that the regular expressions accept are not modelled.
- Windows.RefineSplitEnd: the factor 0.65 is the integer form 13 n / 20, which agrees with the rounded product for every window the chunker makes; floating-point rounding is not modelled.
- MarkdownBlocks.SplitMarkdownBlocks: the table, fence, heading and marker expressions are predicates on lines written out by hand, not a regular expression engine.
- The first chunker (`split_long_text`, `build_chunks_v1`), chunk records beyond ordinal, path, text and page, and the rest of OCR.
- Embeddings.EmbeddingClient.Embed: a full answer of the server is taken to list the vectors by position; HTTP, JSON parsing and server start are left out.
- IndexRuns.RetrievalService.DeleteChunkIds: batches are taken in any order; the program sorts the ids first.
- IndexRuns.RetrievalService.RebuildAll: dropping a collection and making a new one is one write; collection metadata, compatibility checks, statistics and timings are left out.
- Commands.CommandHandler.Execute: request hashing is an arbitrary function of the request; clocks, identifiers and envelopes are parameters.
- DecisionDesk.Desk.CreateDraft: the texts of claims, rationales and links, and the roles and strengths of links, are left out; cases, runs and evidence uses are rows that plain commands add or change.
- DecisionDesk.Desk.AcceptProposal: confirmed times, reasons and dates are only present or absent; expiry of proposals is never set by the handlers and is not modelled.
- ResearchRuns.ExecutionDesk.StartRun: the execution spec derived from the inputs is left out; the rows of cases, questions, scopes, plans and bindings change as a whole, by a command that stands for all those that write them.
- ResearchRuns.ExecutionDesk.RecordRetrieval: channel, query, status and times of a retrieval are left out.
- ResearchRuns.ExecutionDesk.SubmitResult: failure details default to the reason of the outcome, refuse nothing and are left out; the program does not look up the named judgment, and neither does the model.
- ContextSelection.SelectContextCandidates: an evidence group is the triple of version, position and hash rather than the three joined with colons; catalog access, evidence rows and reports are left out.
- Fusion.RrfFuse: scores are real numbers; candidates are taken as already normalised.
- ReleaseGate.EvaluateMinimumSliceGate: the tables of the default manifest and the layer assertions inside a record are left out.
- StableIds.StandardizeChunks: the hash is an arbitrary function of its parts, injective where a lemma says so; the truncated SHA-256 digest and JSON are not modelled.
- Search scoring, ledgers and gate plans, pricing, subtitles, keyword classification and job handling.
- Routers, user interfaces, external services and their configuration.
