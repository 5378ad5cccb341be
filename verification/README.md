# Verification of kinetix-search-service

A Dafny 4.11 model of the parts of the search service whose correctness cannot be read off one function, with proofs.
`dafny verify dfyconfig.toml` checks all of it.

The centre is the protocol that keeps a search index in agreement with the table it speeds up. A sync pass
(`internal/indexing/syncer.go`) walks the source in pages into the live generation and moves a stored cursor only after
each page has landed. A rebuild (`internal/indexing/reindexer.go`) fills a fresh generation beside it without the lock,
holds it to a count, then takes the lock, points the alias at it and overwrites the cursor. Any number of both run as
separate processes; any call may fail, having taken effect in part or not at all, and any process may die between two
calls.

## How it is laid out

| file | what it holds |
|---|---|
| `Positions.dfy`, `Protocol.dfy` | the order of the walk, and the protocol as a total step function over one state; a list of actions is one interleaving |
| `Safety.dfy`, `Guarantees.dfy` | the invariant every action keeps, and what it says about searches: exactly what is missing, lingers or is out of date, exactly when a rebuild passes its gate, who moves the alias and the cursor |
| `Moves.dfy`, `Witnesses.dfy` | concrete runs, put together from moves, in which a record is lost, a deleted one stays, a refused one keeps its old document and an edit blocks a rebuild |
| `Settling.dfy`, `Paging.dfy`, `Passes.dfy`, `Gate.dfy` | a source that keeps still: crashes leave no trace, every page size gives the same index, exactly when a pass succeeds, and what the count gate lets through |
| `Cursors.dfy`, `Checkpoints.dfy`, `Indexes.dfy`, `Sources.dfy` | the stored cursor, the engine's collections and the paged source as classes and methods |
| `Calls.dfy`, `Deployments.dfy` | the shared systems behind the ports; each port method makes the machine's step and the same change to the systems |
| `Syncing.dfy`, `Reindexing.dfy` | `Once` and `Run` as imperative classes over any deployment |
| `Layout.dfy`, `Splicing.dfy`, `Passing.dfy`, `Arglayout.dfy` | the layout rewriter: the rule on the bracket structure, the same rule by line numbers, the outermost groups, the splice and the fix loop |
| `Filters.dfy` | the filter printer, a reader for the filter language, and what filters select |
| `Floats.dfy`, `Documents.dfy` | whole numbers as float64, and documents through JSON and back |
| `Finding.dfy` | from a record a source sent to the filters that find its document |
| `Texts.dfy`, `Identifiers.dfy`, `Queries.dfy`, `Conversions.dfy` | trimming, identifiers, query building, and the three adapters |
| `Options.dfy`, `Numbers.dfy` | optional values, and the larger of two numbers |

Two devices tie the imperative classes to the protocol. A `Deployment` carries a script: what the other processes do
before each call and how the call fares. Contracts are proved for every script, so they hold for every interleaving and
every pattern of failures, and the class invariant says that the machine is in the state its log of actions leads to,
so every theorem about reachable states applies to it. With an empty script nobody else acts and nothing fails; the
contracts then also say exactly what the call, the pass or the rebuild leaves behind. The contract of a port call says
which turn of the script it played, which step the machine took after it and how the call answered; a count of the calls
that answered an error ties the answer of a pass and of a rebuild to those of their calls.

`served`, `gap`, `promoted`, `walk` and `walkEnd` in the protocol's state are history: no step of a process reads them,
except that a change of a record must take a key above `served`. The gap is open from a promotion until a rebuild stores
the cursor of the generation that is live. A walk records the rows its source counted before it began, what it put into
its generation, the tombstones it was handed and the ids it was handed again.

## What was found

* From Promote until a Save of the walk's cursor takes effect, the index is missing exactly the wanted records written after
  the walk ended and at or before the cursor stored then, in a version the walk did not build. That stays so if Promote
  fails after taking effect, if its Save fails or if the process dies. When the stored cursor is not ahead of the walk,
  nothing is lost.
* A deleted record is findable past its tombstone exactly when the promoted walk built its document and the tombstone
  lies at or before the walk's end or, while the gap is open, at or before the cursor that was stored at the promotion:
  `Run` never reads `Removed`, and a sync pass has already stored a cursor beyond a tombstone in the gap.
* Outside that range a findable document is out of date exactly when its record is still there and has become one the
  adapter refuses: an order that loses its buyer (`internal/orderclient/convert.go:77`) keeps its old document, because
  a pass only logs a refusal (`internal/indexing/syncer.go:67`).
* For a source that does not count its rows, which is orders and merchants, a rebuild passes its gate exactly when no
  record is sent twice. A record that the walk has sent and that a later page serves again, edited into an accepted
  version before that page, is sent twice and makes one document, so that generation never becomes live although every
  call succeeds. An edit after the last page was served, or into a refused record or a tombstone, is not sent again:
  the old version goes through.
* For a source that counts, a rebuild passes exactly when the counted rows its walk did not build are no more than the
  refusals and the built rows that had not been counted. A row deleted before the walk reaches it can refuse a generation
  that is exactly right, and a row inserted meanwhile can hide a dropped document.
* The watermark a search reports is that of the stored cursor exactly when no earlier accepted cursor had a later one.
  A rebuild that stores a cursor behind the stored one is reported as covering what only the old generation had.
* The gate refuses `indexed < expected`; `PLAN.md:637` still lists `!=`. The model follows the source.
* A rebuild over a source that keeps still always fills its generation with the listing; it fails only for a source that
  counts a row at the very start of the order (an empty identifier), or for a cursor above 2^63-1, and in the second case
  the alias has already moved: `Witnesses.AnUnstorableCursorMovesTheAlias` is such a run.
* Removed names of products and merchants go to the engine as sent while upserted ones are trimmed, so a removal takes
  its document away exactly when the name needed no trimming; a product named " a" stays.
* `arglayout -fix` cleans a file exactly when violations nest at most twenty deep, and never reports one that nests
  deeper: `File(Calls(21))` of `Arglayout.dfy`, a declaration of calls nested in their last arguments, is left with a
  violation.
* A pass writes a line break, or a comma and a line break, between the items of a group it spreads out and nothing else,
  so it deletes the comments there: `f(a, /* why */ b,` loses its comment. It keeps every other gap as it is.
* An order is stored without categories and a merchant without a merchant, so a search that filters on them finds none.
* A price, or a time in milliseconds, comes back from the engine unchanged exactly when a float64 holds it.

## What is assumed

* The source orders its rows by transaction and then by id and serves every row of `(cur, next]` once; an empty page
  answers the cursor it was asked with. A record that changes gets a key above every cursor served so far. Its
  identifiers are trimmed already in the protocol, so upserts and removals name the same document there.
* A failed Bulk may have landed any subset of its documents and a failed Remove any prefix of its deletions; a failed
  Save, Promote or CreateGeneration may or may not have taken effect; nothing lands after the call has returned.
* The lock is not lost while its holder runs, and a dead holder's lock is freed. Generations are never dropped. A name
  for a new generation that already exists is refused.
* The page size is positive and fits the 32-bit field it is sent in.
* The engine reads a backtick-quoted value up to the next backtick, takes the character after a backslash as it is, and
  takes a value that ends in `*` as a prefix. A comparison with a field a document does not have fails.
* The traversal meets every bracket group once and items begin and end with a token; the formatter keeps the groups,
  puts a line break exactly where there was one, and keeps the text between brackets, and what lies between items, under some
  reading of it, whichever that is. A formatter that does so exists.
* Text is valid Unicode. A float64 outside the range of int64 converts to the smallest int64, as on amd64.

## Model

| member | source | states |
|---|---|---|
| Safety.InitHolds | internal/indexing/syncer.go:40-106 | the invariant holds before any process has run |
| Safety.StepKeeps | internal/indexing/syncer.go:40-106 | every action of every process, failing or not, keeps the invariant: exclusive lock, separate generations, bounded cursors, and a live generation that covers the stored cursor outside an open gap |
| Safety.Reachable | internal/indexing/reindexer.go:44-147 | the invariant holds in every state of every interleaving |
| Guarantees.MissingIsInTheGap | internal/indexing/syncer.go:40-106 | in every reachable state a wanted record at or before the stored cursor that the live generation lacks in its current version was written in the gap of an unfinished promotion |
| Guarantees.NothingIsMissingUnlessTheCursorWasAhead | internal/indexing/reindexer.go:117-129 | if no gap is open, or the stored cursor is not ahead of the promoted walk, nothing is missing |
| Guarantees.TheGapIsOnlyInFlight | internal/indexing/reindexer.go:123-129 | in a run that never fails between Promote and Save, a Save refused for its cursor's size included, the gap is open only while the holder is between them |
| Guarantees.NothingIsMissing | internal/indexing/syncer.go:40-106 | in such a run no wanted record is missing at any other moment |
| Guarantees.MissingExactly | internal/indexing/reindexer.go:117-129 | in every reachable state a record is missing if and only if it is wanted, its key lies in the open gap and the promoted walk did not build its current version |
| Guarantees.AnAbandonedPromotionOpensTheGap | internal/indexing/reindexer.go:123-129 | a Promote that takes effect, answered or not, opens the gap from its walk's final cursor to the stored one, and makes what that walk built the promoted walk |
| Guarantees.GhostsExactly | internal/indexing/reindexer.go:70-91 | in every reachable state a tombstone the cursor has passed is findable if and only if the promoted walk built its document and it lies at or before the walk's end or, while the gap is open, at or before the gap's end |
| Guarantees.GhostsWereSkippedOrInTheGap | internal/indexing/reindexer.go:70-91 | every ghost was built by the promoted walk, and either that walk was handed its tombstone or it was deleted inside the gap |
| Guarantees.StaleExactly | internal/indexing/syncer.go:67-77 | a findable document whose record the cursor has passed is not the current one if and only if the promoted walk built it so and no pass has come by since, or its record is alive and has become one that is refused |
| Guarantees.TheGateExactly | internal/indexing/reindexer.go:79-115 | in every reachable state in which a walk has ended the gate lets it through if and only if, without a count, no id was sent twice and, with one, no more counted rows are absent than were refused or built uncounted |
| Guarantees.DeletedSinceTheWalkIsGone | internal/indexing/syncer.go:73-77 | a record whose tombstone lies after the promoted walk's end, or after the gap's end while it is open, is absent once the cursor has passed it |
| Guarantees.AnEditBlocksItsRebuild | internal/indexing/reindexer.go:79-105 | over a source that does not count, once a page serves an accepted version of a record its walk has already put in, the generation is never live in any continuation |
| Guarantees.APassFollowsTheAlias | internal/indexing/syncer.go:54-79 | from its Live read to its last write a pass holds the lock, its generation is the live one and its cursor is the stored one |
| Guarantees.APromotedWalkIsLive | internal/indexing/reindexer.go:123-129 | between Promote and Save a rebuild holds the lock and its generation is live |
| Guarantees.WhoHoldsTheLock | internal/postgres/lock.go:24-50 | a process is past its Hold and before its release if and only if it owns the lock |
| Guarantees.OnlyTheLiveGenerationMovesTheCursor | internal/indexing/syncer.go:79-84 | the stored cursor changes only by the lock's owner: a pass over the live generation continuing it, or the walk whose generation is live |
| Guarantees.ARetiredGenerationIsNeverWritten | internal/indexing/syncer.go:54-77 | once the alias has left a generation it never returns and nothing is ever written there again |
| Guarantees.TheStoredCursorFits | internal/postgres/checkpoint.go:61-70 | every stored transaction is at most 2^63-1 in every reachable state |
| Witnesses.AnAbandonedPromotionLosesARecord | internal/indexing/reindexer.go:123-129 | a run whose rebuild dies after Promote and leaves a record missing |
| Witnesses.AnUnstorableCursorMovesTheAlias | internal/indexing/reindexer.go:123-129 | a run in which nobody fails, the alias moves and a cursor above 2^63-1 is not stored |
| Witnesses.AWalkLeavesAGhost | internal/indexing/reindexer.go:70-91 | a run in which every call succeeds and a deleted record stays findable |
| Witnesses.AGhostInTheGap | internal/indexing/reindexer.go:123-129 | a run that ends with nobody running and a deleted record findable again, after a pass had removed it from the generation that was live |
| Witnesses.ARefusalLeavesItsDocument | internal/orderclient/convert.go:77-86 | a run in which every call succeeds and a record that became a refused one during the walk keeps its old document |
| Witnesses.APassKeepsWhatItRefuses | internal/indexing/syncer.go:67-82 | a run in which a sync pass goes by a record that became a refused one after the walk, and its old document stays |
| Witnesses.AnEditRefusesTheRebuild | internal/indexing/reindexer.go:79-105 | a run in which every call succeeds, one record is edited mid-walk and the gate refuses the rebuild |
| Witnesses.AnEditTooLateGetsThrough | internal/indexing/reindexer.go:79-105 | a run in which the record is edited after the last page was served and the rebuild gets through with its old version |
| Witnesses.ADeletionRefusesTheRebuild | internal/indexing/reindexer.go:51-62 | a run over a source that counts, in which every call succeeds, the generation is exactly right and the gate refuses it |
| Settling.PassesSettle | internal/indexing/syncer.go:59-105 | on an unchanging source any interleaving of cut-off passes that has nothing left to walk has made exactly the changes of one complete pass |
| Settling.CrashesLeaveNoTrace | internal/indexing/syncer.go:59-105 | two runs of passes that both reach the end, however often they were cut off, leave the same documents and the same cursor |
| Settling.ACompletePassReachesTheEnd | internal/indexing/syncer.go:79-105 | a pass that stores the cursor of a page with nothing after it has left nothing to walk |
| Paging.PagesAdvance | internal/indexing/syncer.go:60-63 | a page of any size ends at the cursor or at a row after it, as the page contract demands |
| Paging.PagesAreFull | internal/indexing/syncer.go:60-63 | a page holds at most the limit, and exactly the limit while rows remain |
| Paging.WalkShrinks | internal/indexing/syncer.go:59-105 | each page strictly lowers the number of rows beyond the cursor, so the walk ends |
| Paging.EveryPageSizeSettles | internal/indexing/syncer.go:59-105 | for every page size a pass applies exactly the pending rows and stops at the last one |
| Paging.RunBuildsWhatOnceWould | internal/indexing/reindexer.go:70-91 | on an unchanging source the walk of Run, which applies no removals, builds what Once would build |
| Paging.RunAndOnceAgree | internal/indexing/reindexer.go:64-91 | from the start and from nothing, Run and Once with any two page sizes give the map of acceptable live records |
| Passes.IndexablePageByPage | internal/indexing/syncer.go:67-82 | what a pass needs of the alias and the checkpoint is what its first page needs together with what the rest needs |
| Gate.WalkTallies | internal/indexing/reindexer.go:64-91 | whatever the page size and whatever is dropped, a walk counts every accepted and every refused row once |
| Gate.CountableGate | internal/indexing/reindexer.go:93-115 | against the source's count, and even if the engine silently drops documents, the gate passes if and only if the generation is exactly the listing and no counted row sits at the very start of the order |
| Gate.UncountableGate | internal/indexing/reindexer.go:93-115 | against the walk's own count over an unchanging source, likewise |
| Gate.AgainIsTwice | internal/indexing/reindexer.go:70-91 | the ids a walk records as sent again are exactly those that two of its pages upsert |
| Gate.AnyWalkGate | internal/indexing/reindexer.go:79-105 | whatever pages the source serves and whatever the engine drops of them, the walk's own count passes if and only if no id was sent twice and every id sent is in the generation |
| Gate.AnyCountedWalkGate | internal/indexing/reindexer.go:93-115 | against the source's count it passes if and only if the counted rows missing from the generation are no more than the refusals and the rows in it that had not been counted |
| Gate.AnInsertionHidesADrop | internal/indexing/reindexer.go:93-115 | a page, a dropped document and a row inserted after the count that together pass the counted gate without the document |
| Gate.AnHonestWalk | internal/indexing/reindexer.go:64-115 | a walk that drops nothing builds the listing and passes the gate unless the source counts a row it never serves |
| Checkpoints.Checkpoint.Load | internal/postgres/checkpoint.go:25-59 | a missing row reads as the start, a row without a transaction as the start with its watermark, any other as its cursor; a failed query answers nothing |
| Checkpoints.Checkpoint.Save | internal/postgres/queries.sql:4-11 | the transaction and id are overwritten, the watermark only ever raised, and a transaction above 2^63-1 changes nothing; a failed statement may have been carried out |
| Checkpoints.LoadAnswersTheLastAcceptedSave | internal/postgres/checkpoint.go:25-90 | after any saves from any row Load answers the position of the last accepted one |
| Checkpoints.RefusedSavesChangeNothing | internal/postgres/checkpoint.go:61-70 | refused saves leave the row as it was |
| Checkpoints.OldRowsStartOver | internal/postgres/checkpoint.go:25-59 | no row and a row without a transaction both start at the beginning, the latter with its watermark and time |
| Checkpoints.TheWatermarkIsTheMaximum | internal/postgres/queries.sql:7-11 | the watermark is the greatest of the one the run started with and those of the accepted saves |
| Checkpoints.TheWatermarkIsCoveredExactly | internal/postgres/queries.sql:7-11 | the watermark is never below that of the stored cursor, and is it if and only if no earlier accepted cursor and no row before had a later one |
| Checkpoints.ARebuildBehindOverstates | internal/querying/finder.go:59-72 | after a save moves the cursor back a search reports the later watermark |
| Checkpoints.IndexedThroughNeverMovesBack | internal/querying/finder.go:59-72 | the watermark a search reports never moves back, even when a save moves the cursor back |
| Indexes.Index.CreateGeneration | internal/typesense/index.go:29-46 | a new collection is empty, and one that exists is refused and left alone |
| Indexes.Index.Bulk | internal/typesense/index.go:48-87 | success means every document landed, the last of an id winning; failure leaves the part that landed; nothing to write succeeds without a collection |
| Indexes.Index.Remove | internal/typesense/index.go:89-102 | exactly a prefix of the ids is gone, all of them on success; missing documents and a missing collection are no error |
| Indexes.Index.Promote | internal/typesense/index.go:123-136 | the alias names the generation whenever the call took effect |
| Indexes.Index.Live | internal/typesense/index.go:138-149 | the alias as it is, where none is not an error |
| Sources.ChangedSince | internal/indexing/syncer.go:60-63 | a page delivers each row after the cursor once, in the list its state calls for, up to the limit |
| Deployments.Deployment.Begin | internal/indexing/syncer.go:59-105 | before a call of a process the others take exactly the steps its turn of the script lists |
| Deployments.Deployment.Await | internal/postgres/lock.go:24-50 | a busy lock is waited for, turn by turn, until it is free or the call fails |
| Deployments.AWaitIsGranted | internal/postgres/lock.go:24-50 | a wait that reaches a turn with the lock free without a failure before ends with the lock, and every granted wait found it free |
| Deployments.Deployment.ChangedSince | internal/indexing/syncer.go:60-63 | the call fails exactly when its turn says so; otherwise the page is the source's own at that moment |
| Deployments.Deployment.Load | internal/postgres/checkpoint.go:25-59 | the stored cursor, or an error exactly when the turn says so |
| Deployments.Deployment.Save | internal/postgres/checkpoint.go:61-90 | stored exactly when the turn lets it and the cursor fits, with the watermark at least its own |
| Deployments.Deployment.Bulk | internal/typesense/index.go:48-87 | success exactly when the generation is there and the engine reports every document as taken |
| Deployments.Deployment.Remove | internal/typesense/index.go:89-102 | success exactly when every deletion goes through, and otherwise the prefix before the first failure is gone |
| Deployments.Deployment.Hold | internal/postgres/lock.go:24-50 | a granted Hold makes the process the owner; a refused one takes no step at all |
| Deployments.Deployment.HoldToPromote | internal/postgres/lock.go:24-50 | the same for the Hold before a promotion |
| Deployments.Deployment.Release | internal/postgres/lock.go:36-41 | the release frees the lock of its owner |
| Syncing.Syncer.Turn | internal/indexing/syncer.go:59-105 | a page is asked for, written, removed and only then stored; it answers an error exactly when one of its calls did, and alone it succeeds exactly when the page has somewhere to go and its cursor fits |
| Syncing.Syncer.Pass | internal/indexing/syncer.go:59-105 | the loop ends and answers an error exactly when one of its calls did; alone it succeeds exactly when the rows can be indexed and then does what the paged pass does |
| Syncing.Syncer.Once | internal/indexing/syncer.go:40-106 | whatever the others do it succeeds exactly when the lock was granted and none of its calls answered an error; every lock taken is released on every exit, a refused Hold does nothing, the watermark never moves back, nothing is missing outside the gap, and alone over an unchanging source it settles every pending row exactly when that is possible |
| Reindexing.Reindexer.Build | internal/indexing/reindexer.go:64-91 | the walk ends with the tally of what it sent and what was refused, and alone has changed only its own generation, to what the paged walk builds |
| Reindexing.Reindexer.Check | internal/indexing/reindexer.go:93-115 | whatever the others do, once the count is answered the gate passes exactly when the generation holds at least what the source, or else the walk, counted |
| Reindexing.Reindexer.Rebuild | internal/indexing/reindexer.go:44-115 | up to the gate neither alias nor cursor is touched; alone it fills the generation with the listing and refuses a name that exists |
| Reindexing.Reindexer.Finish | internal/indexing/reindexer.go:117-147 | it succeeds exactly when the lock was granted and Promote and Save both answered success; under the lock the alias moves first and the cursor second, and the lock is released on every exit |
| Reindexing.Reindexer.Run | internal/indexing/reindexer.go:44-147 | whatever the others do it succeeds exactly when it promoted and saved and none of its calls answered an error, and fails without one only at the gate; a refused Hold promotes and saves nothing, every lock taken is released, and alone the alias ends on exactly the listing, with an error only where the count or the cursor does not fit |
| Layout.APassClearsTheOutermost | tools/arglayout/main.go:117-131 | one pass repairs exactly the outermost violating groups and leaves the verdict on every enclosing, nested and disjoint group |
| Layout.VerdictOfFixed | tools/arglayout/main.go:162-184 | a group a pass goes through keeps its verdict and a spread one has none |
| Layout.APassLowersTheHeight | tools/arglayout/main.go:117-131 | one pass lowers the nesting height of violations by one |
| Layout.APassKeepsTheCode | tools/arglayout/main.go:269-289 | a pass deletes and inserts only between items |
| Layout.APassRewritesTheGaps | tools/arglayout/main.go:269-289 | after a pass the gaps of every repaired group are a line break and then commas with line breaks, and those of every other group are what they were |
| Layout.APassComesNearer | tools/arglayout/main.go:117-131 | a pass repairs the violating groups inside no other violating one, and takes one violating group from around each of those inside |
| Layout.FormattingKeepsTheHeight | tools/arglayout/main.go:291-296 | a formatter that keeps line breaks keeps the height |
| Layout.FormattingKeepsTheVerdicts | tools/arglayout/main.go:291-296 | such a formatter keeps the verdict on every group and how many violating ones it lies in |
| Splicing.Check | tools/arglayout/main.go:162-184 | the loop over line numbers finds a group exactly when two neighbours share a line and no same-line head excuses it |
| Splicing.TheCheckDecidesTheRule | tools/arglayout/main.go:162-184 | on the text of a file the check by line numbers is the rule on its structure |
| Passing.Outermost | tools/arglayout/main.go:254-267 | of a properly nested family it keeps groups in order and pairwise disjoint, with every other group inside one of them |
| Passing.KeptAreMaximal | tools/arglayout/main.go:254-267 | what is kept is exactly the groups inside no other |
| Passing.SameCover | tools/arglayout/main.go:255 | the order the groups were found in does not matter |
| Arglayout.Violations | tools/arglayout/main.go:147-229 | exactly the groups that share a line are found |
| Arglayout.WhatIsFound | tools/arglayout/main.go:186-226 | they are the violating groups of the structure |
| Arglayout.Rewrite | tools/arglayout/main.go:269-289 | on groups in order the moving cursor never slices out of order and writes the spliced text |
| Arglayout.SplicedCode | tools/arglayout/main.go:269-289 | splicing the outermost violations of a file gives the text of what a pass makes of its structure |
| Arglayout.Pass | tools/arglayout/main.go:127-130 | finding, keeping the outermost and splicing together give that text |
| Arglayout.Process | tools/arglayout/main.go:92-145 | fixing is passes, each followed by the formatter, while there are violations and at most twenty times: it spreads out exactly the violating groups inside fewer than twenty other violating ones, keeps every other gap as read, keeps the code, and so cleans exactly the files that nest at most twenty deep; what it changed is an output of the formatter and a file without violations is left as it is; checking reports exactly the files with a violation and changes nothing; a generated file is left alone either way |
| Arglayout.AfterOneMore | tools/arglayout/main.go:117-131 | one more pass and formatting make what n passes made into what n + 1 make, for the verdicts, the depths and the gaps of every group |
| Arglayout.CleanedIsFormatted | tools/arglayout/main.go:291-296 | a file with a violation ends as an output of the formatter |
| Arglayout.CleanedStaysFormatted | tools/arglayout/main.go:291-296 | so formatting the result changes nothing, if formatting twice is formatting once |
| Arglayout.ItCanBeRelied | tools/arglayout/main.go:291-296 | some traversal and formatter meet all that is relied on, whatever the reading |
| Arglayout.FixedIsTidy | tools/arglayout/main.go:269-289 | after a pass items still begin and end with a token |
| Arglayout.CallsAreHigh | tools/arglayout/main.go:117-131 | for every depth there is a declaration of nested calls whose violations nest exactly that deep |
| Arglayout.OneTooDeep | tools/arglayout/main.go:117-145 | fixing cleans the declaration twenty deep; twenty-one deep it leaves a violation and reports none |
| Arglayout.ACommentIsLost | tools/arglayout/main.go:279-282 | a call with a comment between its arguments, and the text without it that a pass makes of it |
| Filters.Quote | internal/typesense/query.go:10-22 | a value is quoted unless it holds a backtick or a backslash or ends in a star |
| Filters.RefusedValuesWouldBeMisread | internal/typesense/query.go:10-22 | the quoted form of a value reads back as that exact value if and only if the value is not refused |
| Filters.FilterFor | internal/typesense/query.go:24-61 | it fails exactly when a value it would print is refused, and otherwise prints the clauses |
| Filters.RefusedQueriesWouldBeMisread | internal/typesense/query.go:10-61 | a query is refused exactly when a value of its clauses would be read back as something else |
| Filters.PrintedIsReadBack | internal/typesense/query.go:24-61 | the reader recovers exactly the principal, merchant and category clauses of every printed query |
| Filters.FiltersTellQueriesApart | internal/typesense/query.go:24-61 | two queries with one filter ask the same |
| Filters.AFilterMeansItsQuery | internal/querying/finder.go:34-42 | past the guard of Find a filter on orders selects only documents that hold the principal under "buyer" or "merchant_id", together with what was asked; elsewhere the principal has no effect |
| Finding.AnOrderIsFound | internal/typesense/documents.go:136-147 | the filter selects a stored order exactly when its buyer or its merchant is the principal, its merchant is the one asked for and no category is |
| Finding.AProductIsFound | internal/typesense/documents.go:66-77 | the filter selects a stored product exactly when its merchant is the one asked for and one of its categories is asked for |
| Finding.AMerchantIsFound | internal/typesense/documents.go:104-113 | the filter selects a stored merchant by its categories, and never when a merchant is asked for |
| Finding.ARecordIsFoundByItsPeople | internal/orderclient/convert.go:67-104 | the order of a record is found on behalf of exactly the principals the record names as buyer or merchant |
| Finding.AProductRecordIsFound | internal/catalogclient/convert.go:64-95 | the product of a record is found under exactly the merchant the record names and the category it was sent with |
| Floats.RoundIsNearest | internal/typesense/documents.go:29-38 | rounding answers a number a float64 holds and no number it holds is nearer |
| Floats.SurvivesExactly | internal/typesense/documents.go:29-38 | an int64 survives a float64 exactly when it has at most 53 significant bits |
| Floats.TiesGoToEven | internal/typesense/documents.go:29-38 | of two representable numbers as near, rounding answers the one that is an even number of steps |
| Floats.TheFirstLoss | internal/typesense/documents.go:29-38 | 2^53+1 reads back as 2^53 |
| Documents.StringList | internal/typesense/documents.go:50-64 | the texts of a list in order, and a nil list for anything but a list |
| Documents.TextsInOrder | internal/typesense/documents.go:50-64 | of a list that holds other things the texts are taken in order and the rest is passed over |
| Documents.ProductIsStored | internal/typesense/documents.go:66-77 | under each of the eight names stands the field of the product it is the name of, the time in milliseconds since 1970 |
| Documents.MerchantIsStored | internal/typesense/documents.go:104-113 | likewise for merchants |
| Documents.OrderIsStored | internal/typesense/documents.go:136-147 | likewise for orders |
| Documents.MillisCountFromTheEpoch | internal/typesense/documents.go:9-11 | a time is stored as its whole milliseconds since the beginning of 1970, rounded down, and that moment as 0 |
| Documents.NothingSaidIsZero | internal/typesense/documents.go:13-48 | what a stored document lacks is read as the zero value of its field |
| Documents.ProductSurvives | internal/typesense/documents.go:66-102 | a product comes back unchanged if and only if its identifiers are made ones, its price fits a float64 and its time is a whole number of milliseconds that does |
| Documents.MerchantSurvives | internal/typesense/documents.go:104-134 | likewise for merchants, nil and empty lists kept apart |
| Documents.OrderSurvives | internal/typesense/documents.go:136-173 | likewise for orders |
| Documents.ModestProductsSurvive | internal/typesense/documents.go:66-102 | prices and times up to 2^53 either way survive |
| Documents.APriceIsLost | internal/typesense/documents.go:66-102 | a product priced 2^53+1 is found priced 2^53 |
| Texts.TrimmedIsTheMiddle | internal/search/identifier.go:98 | trimming removes surrounding white space and nothing else |
| Texts.TheCoreIsTrimmed | internal/search/identifier.go:98 | a text has exactly one part without white space at its ends and only white space around it, and trimming leaves that |
| Identifiers.IdsAreFixed | internal/search/identifier.go:95-109 | a text makes itself exactly when it is an identifier, and making one twice changes nothing |
| Identifiers.IdsAreNamed | internal/search/identifier.go:95-109 | an identifier is made of exactly the texts that are it with white space around, and a text that names none is refused |
| Queries.NewQuery | internal/search/query.go:67-101 | it refuses exactly the unacceptable and otherwise answers the text without its surrounding white space, the categories likewise without the blank ones, the offset, merchant and ranking asked for, and the limit asked for up to 100, or 24 |
| Queries.ABuiltQueryIsAsAsked | internal/search/query.go:67-146 | every field of a built query from what was asked for |
| Queries.WhatIsAcceptable | internal/search/query.go:67-125 | exactly texts and categories of at most 256 bytes without control characters, no negative offset or limit, and the three rankings |
| Queries.TheLastOptionIsGranted | internal/search/query.go:39-65 | of several options of a kind the last is granted, an empty ranking not being one |
| Queries.NothingAskedIsTheDefault | internal/search/query.go:67-78 | of a kind nobody asks for: no categories, no merchant, relevance, the first page |
| Queries.Categories | internal/search/query.go:127-146 | the non-empty trimmed categories in their order, or a refusal if one cannot be searched |
| Queries.BuiltQueriesAreNormal | internal/search/query.go:67-146 | a built query has a limit in 1..100, an offset of at least 0 and trimmed, bounded, control-free text and non-empty categories |
| Queries.RebuildingChangesNothing | internal/search/query.go:67-146 | building a query again from a built one gives it back |
| Conversions.CursorsSurviveTheWire | internal/catalogclient/convert.go:13-40 | a cursor survives the wire, and a message survives the service exactly when it names a transaction and no zero time |
| Conversions.ToOrder | internal/orderclient/convert.go:67-104 | an order is taken exactly when its number and its buyer make identifiers |
| Conversions.AnOrderIsItsRecord | internal/orderclient/convert.go:67-123 | a record is taken as an order exactly when the order's id, buyer and merchant are those it names and every other field is as sent |
| Conversions.AProductIsItsRecord | internal/catalogclient/convert.go:64-103 | likewise for products |
| Conversions.AMerchantIsItsRecord | internal/identityclient/convert.go:66-109 | likewise for merchants |
| Conversions.StatusesAreRead | internal/orderclient/convert.go:106-115 | a status is shown in small letters without the common prefix, or as unknown |
| Conversions.ToChanges | internal/catalogclient/convert.go:42-62 | the documents of the page's valid records and the names of the others, with the rest of the page as sent |
| Conversions.ChangedSince | internal/catalogclient/client.go:45-75 | an answer is taken exactly when its cursor names a transaction |
| Conversions.AWalkConserves | internal/orderclient/convert.go:46-64 | over a whole walk accepted plus refused is what was sent, however it was cut into pages |
| Conversions.AcceptedInOrder | internal/identityclient/convert.go:44-64 | the document of a record stands after those of the records before it |
| Conversions.RefusedInOrder | internal/orderclient/convert.go:46-64 | the name of a refused record stands after those of the refused records before it |
| Conversions.AcceptedIdsAreFixed | internal/catalogclient/convert.go:64-73 | every identifier that reaches the index is a fixed point of the rule that makes them |
| Conversions.ARemovalFindsItsDocument | internal/catalogclient/convert.go:43-48 | removing a product or a merchant by the name as sent takes its document out of the generation exactly when that name needed no trimming |
| Conversions.ARemovalThatFindsNothing | internal/catalogclient/convert.go:43-48 | a product named with a leading space leaves its document and the whole generation as they were |

## Left out

* gRPC, HTTP, TLS, routing, wiring, start-up and shutdown, logging and error texts: input and output around the logic.
* The engine's ranking, typo tolerance, facets and schema, Postgres itself, Go's parser and formatter: only the contracts under "What is assumed".
* `SortFor`, the ranking maps, `Suggest`, `AllowedPeers`, environment parsing: each is settled by reading one branch.
* Losing the lock while its holder runs, and requests that land after their caller died.
* Wall-clock staleness beyond the watermark: one comparison, in `Fresh`.
* The choice of the trailing-block flag by the shape of the last argument (`block`): a flag of each group here.
* Counts are unbounded integers, so int64 overflow of a tally is not modelled.
- Syncing.Syncer.Once: the clause about what a pass leaves behind is for a pass nobody interferes with; under interference its contract is the machine's invariant, because what is left then also depends on the others.
- Reindexing.Reindexer.Run: likewise.
- Arglayout.Process: follows the bracket structure from pass to pass and takes the parser to recover it from the text.
- Conversions.ToChanges: one loop stands for the three adapters' copies, which differ in the record and in that orders send no removals.
