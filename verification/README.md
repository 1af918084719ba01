# A model of the log-learning agent

This project models the path a log line takes through the agent: line → template →
learned baseline → verdict → durable, fleet-wide catalog, with two small scanners on the
side, and proves what each part is for.

- **Typed catalog store** (`CatalogTables`, `CatalogQueries`, `CatalogView`, `CatalogPaging`,
  `CatalogReset`, `CatalogCuration`, `CatalogEdits`, `CatalogServices`, `CatalogStore`,
  `CatalogRestart`, `CatalogWitness`, `Fleet`, `LikeEscape`, `Tenancy`). Each SQL statement is a
  step on finite maps; Load, Snapshot, Page, Count and Lookup are separate queries over them.
  The store object runs its transactions statement by statement and may fail after any of them.
- **Drain miner** (`Tokenizer`, `Words`, `Templates`, `MinerSpec`, `MinerRuns`, `MinerShape`, `Miner`).
  `Miner` is the prefix tree of heap nodes with cluster objects, in-place merging, eviction
  and the side index; every method is proved to take the step of `MinerSpec`, whose runs
  carry the properties.
- **Restarting the miner** (`MinerRestart`, `MinerReseed`, `MinerCatalog`, `MinerReboot`,
  `MinerForgets`). A new process seeds its miner from the templates the catalog lists, which
  are those answered first in each tick. `MinerReseed` takes any seeds at all, `MinerCatalog`
  the templates ticks store, and `MinerReboot` a restart on them.
- **Learn, score, promote** (`Stats`, `Patterns`, `Spike`, `SpikeWitness`, `BaselineRuns`,
  `BaselineEwma`, `Grouping`, `LearnSpec`, `LearnRuns`, `LearnFields`, `Learn`). `Learn` holds the
  catalog, brain and worker objects; they are proved to follow `LearnSpec`, whose events carry
  the mode of their tick.
- **Flush, commit, cursors** (`Flush`, `FlushWorker`, `Cursors`): steps with failing
  writes, crashes and restarts.
- **Shared** (`Common`): optional values, sums over maps, string order and containment.
- **Scanners** (`Glob`, `Overrides`, `Redact`, `RedactRuns`): the glob translation, the override
  rules that use it, and the IPv6 redaction scanner.

`dafny verify dfyconfig.toml` checks the whole project.

## What the proofs assume

- One method under its mutex, and one transaction, is one atomic step.
- The write organization ranks first in a scope, deleting a root deletes its learned rows,
  and NOW() never goes backwards.
- A cluster ID determines the text it was hashed from; the variable detector is any
  predicate. The results that compare all messages of two miners (`ReachesNoMoreIff` and
  those built on it) need a detector that leaves unboundedly many words alone. Square root is
  any function; the two witnesses about flagged ticks take its value at 0 to be 0.
- Numbers are exact: floating-point rounding is not represented. Time is an input.
- Characters are code points (bytes in `Redact`), case folding is ASCII, and rows with
  equal counts are ordered by code point.
- A write to a blob replaces it whole or fails.
- An IPv6 text form (section 2.2 of RFC 4291) is any predicate on strings.
- The formulas of the shared statistics package are taken from the comments that describe
  them: West's incremental form, z = (rate − mean) / max(std, floor), and rejection at
  |z| ≥ RejectZ once confident. The floor is 1% of |mean| and at least 1e-9.

## Where the code does less than its documentation says

Each is a theorem that says exactly when, with an input that can be reached where one is not
evident.

- A restart can forget: a template is stored as the first answer of a tick left it, so a
  message known before a restart may be new after it (`RestartForgets`). It never goes the
  other way (`KnownAfterWasKnown`), no similarity is lost exactly when every live template
  is still at or below a listed one of its leaf (`RestartEquivalentIff`), and a template has
  not moved past its stored form exactly when that form covers all it absorbed since
  (`TemplateStandsIff`).
- A deleted pattern is not seeded: after a restart its line meets the tombstone exactly when
  nothing listed is similar enough and the line has the tokens the id was hashed from;
  otherwise it surfaces under another id (`DeletedIdAnswersIff`).
- A mark-known of an id whose only root is a lower-scope tombstone lifts the tombstone
  (`MarkKnownKeepsTombstoneIff`, reached in `MarkKnownLifts`).
- The first copy of a lower-scope reset shadow freezes it as a deliberate tombstone
  (`LegacyShadowBecomesTombstone`, `ShadowFrozen`), and a first copy drops the root's reset
  boundary (`CopyDropsResetBoundary`, `BoundaryDropped`).
- A reset covers only the scope of the store that runs it: a second store of the same write
  organization that reads less brings the lower organizations' rows back
  (`NarrowResetShowsIff`, `NarrowResetUndoesWide`), and one that does not read a lower
  tombstone lifts it by carrying the id (`OtherScopePersistKeepsIff`).
- Label, delete and rename report success and do nothing when the write organization holds
  no row (`LabelNeedsWriteRoot`, `DeleteNeedsWriteRoot`, `RenameNeedsWriteRow`; `LabelLost`,
  `DeleteLost`).
- A cached promotion is lost when another process has cleared the verdict
  (`CachedPromotionLostIff`).
- After a failed boot load the next flush overwrites what the partition had flushed
  (`FailedLoadConservesIff`).
- With a similarity threshold above 1 a repeated message mints a duplicate
  (`RepeatKnownIffThresholdAtMostOne`).
- Training and detect do not track the same services: the grace read registers the
  sentinel name (`ServicesAgreeIff`).
- A flagged tick is held out of the global mean exactly when the global gate rejects it too,
  and of the buckets exactly when the bucket of the fold's own hour does
  (`FlaggedHeldOutIff`). Average mode and the turn of an hour miss that in runs from an
  unlearned pattern (`AverageModeFoldsFlagged`, `HourTurnFoldsFlagged`).
- A flush makes an id durable before its row exactly when it commits a row that neither half
  keeps (`FlushKeepsNoHoleIff`, over whole runs `NeverHoleIff`). A reset of one half on the
  typed store, which clears the dirty flag of the other, and a batch that grouping refuses
  while its ids stay staged lead there (`StoreResetCounterexample`,
  `GroupErrorCounterexample`). The log brain never refuses a batch; the second needs another
  registered brain.
- Wildcards of an override glob do not take a newline; the documented reading holds for all
  globs exactly on the signals without one (`TranslationMeansGlob`, `ReadingsAgreeIff`).
- Of two IPv6 addresses glued by a separator the second can come through: where a shorter
  address closes inside the first, it is masked in its stead and what is behind it is shown
  (`GluedExample`). How far the mask reaches, and when a run is shown whole, is exact
  (`LongestCloseIsMasked`, `FirstGluedIsMasked`, `RunShownIff`, `GluedIsCoveredIff`).
- A mark-known of a pattern that only a lower organization holds puts a bare root over it, so
  the service and tags reported before are lost (`MarkKnownSets`).
- A file catalog whose load failed keeps only what the new process learned (`FailedLoadOverwrites`).
- A failed override write is undone exactly only for Delete; Put loses a rule it replaced
  and RepointService drags along rules that were already at the new service (`Put`,
  `RepointService`).

## Model

| member | source | states |
|---|---|---|
| CatalogTables.ReachableSound | pkg/agent/catalog_pg_store.go:108-182 | in every state a fleet can reach, a reset shadow is deleted, every learned row has a root of its own org, and none is stamped after the clock |
| CatalogTables.ApplySound | pkg/agent/catalog_pg_store.go:438-480 | one committed transaction of any kind keeps those three invariants |
| LikeEscape.EscapedILikeIsSubstringSearch | pkg/agent/catalog_pg_store.go:939-941 | escaped `%q%` under ILIKE selects the same text as a lower-cased substring search, for every text and query |
| LikeEscape.EscapedSearchIsContains | pkg/agent/catalog_pg_store.go:939-941 | the same for case-sensitive LIKE: no character of the query acts as a wildcard |
| CatalogQueries.CountAndPageAgreeWithSnapshot | pkg/agent/catalog_pg_store.go:248-339 | Count is the size of the filtered Snapshot and the page population is exactly its rows, in every table state |
| CatalogQueries.LookupAgreesWithSnapshot | pkg/agent/catalog_pg_store.go:341-379 | Lookup of an id is that id's Snapshot row, or nothing when there is none |
| CatalogQueries.SingleInstanceSnapshotIsLoad | pkg/agent/catalog_pg_store.go:196-245 | with one instance and no tombstones the fleet view and the instance's own Load agree field by field |
| CatalogView.RootRanksFirst | pkg/agent/catalog_pg_store.go:197-203 | the root read of an id is that of the first org of the scope that holds one |
| CatalogView.LogRanksFirst | pkg/agent/catalog_pg_store.go:205-212 | the learned row read of a partition is that of the first org that holds one |
| CatalogView.CountedIff | pkg/agent/catalog_pg_store.go:213-218 | a partition counts exactly when its row is of the root's own org or was persisted after that root's reset, if it had one |
| CatalogView.ReportedIff | pkg/agent/catalog_pg_store.go:219-245 | an id is reported exactly when its root is not deleted and some partition counts |
| CatalogView.SnapshotAddsUp | pkg/agent/catalog_pg_store.go:225-227 | for any number of instances the fleet count and rate are the sums over the counted partitions, in whatever order |
| CatalogView.SnapshotSpansSightings | pkg/agent/catalog_pg_store.go:225-226 | the first sighting is one partition's and none is earlier, the last is one's and none is later |
| CatalogView.SnapshotTakesLowest | pkg/agent/catalog_pg_store.go:232-240 | everything that cannot be added up is from the counted partition of the lowest instance, and the curated columns from the root |
| CatalogView.LoadTakesOwn | pkg/agent/catalog_pg_store.go:77-106 | an instance loads its own partition, column by column, a tombstone read as "known" |
| CatalogPaging.PagesCoverSnapshot | pkg/agent/catalog_pg_store.go:828-892 | enough consecutive pages concatenate to exactly the filtered Snapshot, each row once, sorted by count descending then id ascending |
| CatalogPaging.ListingUnique | pkg/agent/catalog_pg_store.go:248-300 | the page order leaves no freedom: two sorted listings of the same rows are equal |
| CatalogPaging.PageIsOrdered | pkg/agent/catalog_pg_store.go:248-300 | a page holds the rows from its offset on, counts falling and equal counts by rising id, up to its limit or 1000 |
| LikeEscape.LowerIgnoresCase | pkg/agent/catalog_pg_store.go:939-941 | two characters are alike to the search exactly when they differ at most in ASCII case |
| CatalogPaging.PagePatterns | pkg/agent/catalog.go:403-433 | with search and service trimmed, filtering, sorting and slicing an unordered working set gives the same window over the same listing, and its size as total |
| CatalogPaging.MemoryPageIsSqlPage | pkg/agent/catalog.go:491-512 | the in-memory page and total over the Snapshot rows are the SQL page and Count, for every offset and limit |
| CatalogReset.ResetEmptiesEveryRead | pkg/agent/catalog_pg_store.go:1042-1058 | right after a reset Snapshot, Load and Lookup are empty for the whole scope |
| CatalogReset.ResetEmptiesEveryPage | pkg/agent/catalog_pg_store.go:454-463 | and so are Count and every page |
| CatalogReset.OnlyRowsPersistedAfterReset | pkg/agent/catalog_pg_store.go:213-217 | after any later run of any writers whose resets cover the scope, each learned row a read uses was written after the reset and holds the last write's content, although older lower-scope rows remain |
| CatalogReset.SnapshotCountsOnlyAfterReset | pkg/agent/catalog_pg_store.go:93-97 | so a visible pattern's fleet count is the sum of its last writes since the reset |
| CatalogReset.NarrowResetShowsIff | pkg/agent/catalog_pg_store.go:1042-1058 | after a reset by a store of the same write org with any other scope, an id shows exactly when that store sees no lower root of it and the rows of the other orgs alone show it |
| CatalogReset.NarrowResetUndoesWide | pkg/agent/catalog_pg_store.go:454-463 | every id the lower orgs show is hidden by a wide reset and back after one that covers the write org alone |
| CatalogCuration.PersistKeepsCuration | pkg/agent/catalog_pg_store.go:108-136 | no Persist changes the verdict, tags or visibility a scope reads, except by reviving its own reset shadow |
| CatalogCuration.PersistRevives | pkg/agent/catalog_pg_store.go:112-136 | a persisted id is visible afterwards exactly when it was not deliberately deleted and not shadowed by a lower org |
| CatalogCuration.LegacyShadowBecomesTombstone | pkg/agent/catalog_pg_store.go:112-136 | when the first copy of a lower-scope root leaves a deliberate tombstone |
| CatalogCuration.CopyDropsResetBoundary | pkg/agent/catalog_pg_store.go:112-136 | when the first copy loses the root's reset time |
| CatalogCuration.TombstoneSurvives | pkg/agent/catalog_pg_store.go:438-453 | a deliberate tombstone of the write org survives every run without a reset of that org |
| CatalogCuration.ScopeTombstoneSurvives | pkg/agent/catalog_pg_store.go:945-1040 | a tombstone on whatever root the fleet reads survives every such run, through its first copy, unless a mark-known can precede that copy |
| CatalogCuration.OtherScopePersistKeepsIff | pkg/agent/catalog_pg_store.go:112-136 | a Persist by a store of the same write org with another scope keeps a lower-scope tombstone exactly when that scope reads a deleted root |
| CatalogCuration.MarkKnownKeepsTombstoneIff | pkg/agent/catalog_pg_store.go:448-451 | a mark-known keeps the tombstone a scope reads exactly when the write org holds the root |
| CatalogCuration.DeleteNeedsWriteRoot | pkg/agent/catalog_pg_store.go:945-1040 | Delete hides a visible pattern exactly when the write org holds its root |
| CatalogCuration.LabelNeedsWriteRoot | pkg/agent/catalog_pg_store.go:438-438 | a Label that changes a reported verdict takes effect exactly then |
| CatalogEdits.RepointMoves | pkg/agent/catalog_pg_store.go:452-452 | a re-point changes the reported service, and nothing else of the row, exactly when the write org holds the root; else no table changes |
| CatalogEdits.LabelSets | pkg/agent/catalog_pg_store.go:438-439 | a label sets the reported verdict and tags it names and nothing else, under the same condition |
| CatalogEdits.MarkKnownSets | pkg/agent/catalog_pg_store.go:448-451 | a mark-known sets the reported verdict alone; over a lower org's root it also blanks the reported service and tags |
| CatalogEdits.DeleteIsDeliberate | pkg/agent/catalog_pg_store.go:453-453 | a delete that reaches a root leaves a deliberate tombstone, even of a reset shadow |
| CatalogEdits.PersistSetsService | pkg/agent/catalog_pg_store.go:124-130 | the service a root has after a Persist: the one carried when it is real or the root is new, else the one before |
| CatalogEdits.PersistSetsFirstSeen | pkg/agent/catalog_pg_store.go:138-147 | a first Persist of a partition sets its first sighting |
| CatalogEdits.FirstSeenKept | pkg/agent/catalog_pg_store.go:138-158 | which stays through every run of any stores without a reset of its org |
| CatalogEdits.EditKeepsOtherIds | pkg/agent/catalog_pg_store.go:945-1040 | an edit changes what no reader is told of another id |
| CatalogEdits.LowerPersistCountsIff | pkg/agent/catalog_pg_store.go:213-217 | what a lower org persists counts under the write org's root exactly when it comes after that root's reset, if it had one |
| CatalogEdits.OtherTenantsInvisible | pkg/tenancy/scope.go:8-13 | no run of Persists, edits and resets by stores of other write orgs changes what a scope is told of any pattern or service |
| CatalogWitness.ShadowFrozen | pkg/agent/catalog_pg_store.go:112-136 | a learn, a reset and a first copy, from empty tables, that leave a deliberate tombstone |
| CatalogWitness.BoundaryDropped | pkg/agent/catalog_pg_store.go:112-136 | the same run makes a row from before the reset countable again |
| CatalogWitness.DeleteLost | pkg/agent/catalog_pg_store.go:945-1040 | a pattern a lower org learned stays visible after the upper store's Delete |
| CatalogWitness.LabelLost | pkg/agent/catalog_pg_store.go:945-1040 | and its Label changes nothing |
| CatalogWitness.MarkKnownLifts | pkg/agent/catalog_pg_store.go:448-451 | after the lower org's Delete the upper store's mark-known brings the pattern back |
| CatalogServices.ResetEmptiesServices | pkg/agent/catalog_pg_store.go:1060-1076 | right after a service reset no service is read in the scope |
| CatalogServices.PersistRevivesService | pkg/agent/catalog_pg_store.go:164-182 | a persisted service is read afterwards exactly when it was not suppressed |
| CatalogServices.PersistKeepsService | pkg/agent/catalog_pg_store.go:164-182 | Persist never moves the grace anchor or the origin of a service that is read |
| CatalogServices.RenameNeedsWriteRow | pkg/agent/catalog_pg_store.go:1081-1109 | a rename moves name, anchor and origin exactly when the write org holds the row, else nothing changes |
| CatalogEdits.EndGraceEnds | pkg/agent/catalog_pg_store.go:474-474 | after an EndGrace the service is in no grace window that is not longer than the clock is old, if the write org holds its row; else no table changes |
| CatalogEdits.RestartGraceRestarts | pkg/agent/catalog_pg_store.go:475-475 | after a RestartGrace it is in grace exactly before the edit's time plus the window |
| CatalogEdits.CreateServiceShows | pkg/agent/catalog_pg_store.go:476-476 | a created service is read as manual and anchored at the edit, whatever was there |
| CatalogEdits.DeleteServiceHidesIff | pkg/agent/catalog_pg_store.go:477-477 | deleting a service that is read hides it exactly when the write org holds its row |
| CatalogEdits.PersistSetsNewService | pkg/agent/catalog_pg_store.go:164-182 | a name unknown to the scope, or hidden by the writer's own reset, is read with the anchor and origin the Persist carries |
| CatalogEdits.EditKeepsOtherNames | pkg/agent/catalog_pg_store.go:945-1040 | an edit changes what no reader is told of a service it does not name |
| CatalogStore.PgCatalogStore.Persist | pkg/agent/catalog_pg_store.go:648-686 | the whole working set is written in one transaction, or nothing is |
| CatalogStore.PgCatalogStore.Curate | pkg/agent/catalog_pg_store.go:945-1040 | each edit leaves the tables and the cache as its outcome function says, for every point of failure |
| CatalogStore.PgCatalogStore.RenameServiceTx | pkg/agent/catalog_pg_store.go:1081-1109 | the three statements of a rename commit together or not at all |
| CatalogStore.CacheTransparent | pkg/agent/catalog_pg_store.go:505-511 | for one process any sequence of Persist and Curate leaves the tables as it would without the mark-known cache |
| CatalogStore.OpKeepsCacheSound | pkg/agent/catalog_pg_store.go:1113-1117 | a cached id's write-org root exists with verdict "known" after every call |
| CatalogStore.CachedPromotionLostIff | pkg/agent/catalog_pg_store.go:945-980 | exactly when a cached mark-known differs from an uncached one |
| CatalogRestart.PersistThenLoad | pkg/agent/catalog_pg_store.go:138-158 | right after a Persist the same instance loads every pattern it carried, with exactly the learned fields it wrote and the root's curation, a tombstone read as "known" |
| CatalogRestart.PersistKeepsOtherLoads | pkg/agent/catalog_pg_store.go:77-106 | and whatever any instance would load of other ids is unchanged |
| CatalogRestart.ReloadedAgreesIff | pkg/agent/catalog_pg_store.go:553-618 | what a restart right after a flush loads - ids it did not carry included - agrees with the working set on an id exactly when a carried id's root reads its verdict, and an id not carried has no row this instance would load |
| CatalogRestart.RunSame | pkg/agent/catalog.go:534-583 | two working sets that agree on an id still agree on it after every run of events, whatever else they hold |
| CatalogRestart.RestartInvisibleToLearning | pkg/agent/catalog_pg_store.go:553-618 | where what is loaded agrees, every later run of events under the same keys leaves the count, baselines, template and verdict of a process that never stopped; the keys a restarted miner answers with are the matter of `MinerReboot` |
| Tenancy.NewOrgScope | pkg/tenancy/scope.go:32-49 | the write org comes first, a blank one as "default", duplicates go, order is kept |
| Tenancy.NormalizedHolds | pkg/tenancy/scope.go:22-49 | a scope holds the write org and every org to be read, blanks as "default", and no other |
| Tenancy.DedupKeepsPrecedence | pkg/tenancy/scope.go:29-49 | dropping duplicates never changes which org ranks first |
| Fleet.FleetConservation | pkg/agent/catalog_pg_store.go:77-106 | under every interleaving of boots, sightings, flushes, crashes and edits, the fleet count of a visible id is the sum over instances of what each has flushed |
| Fleet.FailedLoadConservesIff | cmd/main.go:313-316 | after a failed boot load the next flush keeps the partition's count exactly when nothing of the id had been flushed |
| Tokenizer.TokenizeIsNormal | pkg/agent/miner.go:240-259 | every token is a delimiter or a run of ordinary characters, and no unblanked variable |
| Words.OneTokenPerWord | pkg/agent/miner.go:240-259 | tokens correspond one to one, in order, to the words of the message; a variable is the wildcard in its place, any other word itself |
| Words.WordsSpellMessage | pkg/agent/miner.go:240-259 | put together, the words are the message without its white space |
| Words.TokensSplitAtSpace | pkg/agent/miner.go:244-249 | white space of any kind separates: the tokens of the left side, then those of the right |
| Words.TokensSplitAtDelim | pkg/agent/miner.go:245-248 | a delimiter separates too, and is a token of its own |
| Words.PlainIsOneToken | pkg/agent/miner.go:249-257 | a run of ordinary characters is one token: with the two laws before, this determines the tokens of every message |
| Tokenizer.TrimSpaceDropsEnds | pkg/agent/override_store.go:208-212 | trimming takes white space off both ends, all of it, and nothing else |
| Tokenizer.TokenizeJoin | pkg/agent/miner.go:240-259 | tokenizing the joined text of any normal template gives the template back |
| Tokenizer.JoinInjective | pkg/agent/miner.go:337-340 | so the text an ID is hashed from determines the tokens |
| Templates.MergeIsJoin | pkg/agent/miner.go:322-332 | merging is the join of the wildcard order |
| Templates.MergeExtendsCover | pkg/agent/miner.go:322-332 | a least cover merged with one more message is the least cover of all of them |
| Templates.CoveredIsSimilar | pkg/agent/miner.go:307-318 | a covered message is fully similar to its template |
| Templates.MergeTemplates | pkg/agent/miner.go:322-332 | the loop computes that merge |
| Templates.TokenSimilarity | pkg/agent/miner.go:307-318 | the loop computes the fraction of agreeing positions |
| Templates.SimilarityIsShare | pkg/agent/miner.go:307-318 | similarity is the share of the positions where the two agree or one has a wildcard |
| MinerSpec.StepWellFormed | pkg/agent/miner.go:87-134 | every leaf cluster keeps its leaf's length and key path, sits in one place, and templates stay normal |
| MinerSpec.MergeKeepsLeaf | pkg/agent/miner.go:105-110 | a merge never moves a template to another leaf |
| MinerSpec.NewIffUnmatched | pkg/agent/miner.go:96-113 | a message is new exactly when no cluster of its leaf reaches the threshold |
| MinerRuns.RunInv | pkg/agent/miner.go:87-134 | over every seeded run: leaf clusters are indexed under their own id, templates are least covers, and an entry outside the leaves is as it was minted |
| MinerRuns.ClusterIdentity | pkg/agent/miner.go:166-191 | no two leaf clusters ever share an id, with a threshold of at most 1 and covering seeds |
| MinerRuns.LiveIdMatches | pkg/agent/miner.go:337-340 | a message whose id a live cluster carries matches, so it mints no duplicate |
| MinerRuns.SelfEvictionIff | pkg/agent/miner.go:119-131 | a new cluster evicts itself exactly when its leaf was full and every other cluster there had more than one message |
| MinerRuns.MintedStrays | pkg/agent/miner.go:128-132 | the only new map entry outside a leaf is a self-evicted mint |
| MinerRuns.UnseededLeavesBounded | pkg/agent/miner.go:120-131 | without seeds no leaf exceeds maxChildren |
| MinerRestart.RepeatFindsSameCluster | pkg/agent/miner.go:87-134 | re-presenting a message at once returns the same cluster and not new, unless it evicted itself |
| MinerRestart.RepeatKnownIffThresholdAtMostOne | pkg/agent/miner.go:54-62 | that holds exactly for thresholds of at most 1 |
| MinerRestart.RunRaises | pkg/agent/miner.go:105-110 | over every run a cluster keeps its id and its template only rises |
| MinerRestart.StoredTemplateBelow | pkg/agent/catalog.go:573-573 | the template the catalog stored stays at or below the miner's |
| MinerRestart.TemplateStandsIff | pkg/agent/miner.go:105-110 | over any run a cluster's template is unchanged exactly when it covered every message absorbed since |
| MinerReseed.SeedsAreLive | cmd/main.go:342-345 | a miner seeded from any list holds exactly the templates of that list |
| MinerReseed.AnswerAfterRestart | pkg/agent/miner.go:75-82 | for any seeds - lagging, of other partitions, evicted or missing - a message is known after the restart exactly when some seed of its leaf is similar enough |
| MinerReseed.SimilarityMonotone | pkg/agent/miner.go:307-318 | a higher template is at least as similar to every message |
| MinerReseed.ReachesNoMoreIff | pkg/agent/miner.go:96-113 | one miner gives no message a better similarity than another exactly when each of its templates is at or below one of the other's in its leaf |
| MinerCatalog.TicksOk | pkg/agent/brain_log.go:105-130 | over every run of ticks that evicts nothing, the template stored for an id - the first answer of the last tick that saw it - covers the id and lies at or below its live template, in the same leaf |
| MinerReboot.StoredSeedsGood | cmd/main.go:342-345 | the stored templates, or any part of them a catalog lists, are covering seeds with distinct ids, so the invariants of seeded runs carry across a restart |
| MinerReboot.RebootKeepsBook | pkg/agent/catalog.go:325-351 | and so the relation between stored and live templates holds again after it |
| MinerReboot.KnownAfterWasKnown | cmd/main.go:342-345 | whatever part of the stored ids is listed, a message known after the restart was known before it |
| MinerReboot.RestartEquivalentIff | pkg/agent/miner.go:75-82 | the restart changes no message's best similarity exactly when every live template is still at or below a listed one of its leaf |
| MinerForgets.RestartForgets | pkg/agent/brain_log.go:105-130 | three lines of one tick and a fourth that is known before the restart and new after it, with nothing evicted or hidden |
| MinerReboot.DeletedIdAnswersIff | pkg/agent/catalog.go:325-351 | after a restart a line answers with a deleted id exactly when nothing listed is similar enough and the line has the tokens the id was hashed from |
| MinerShape.AddRootOk | pkg/agent/miner.go:167-174 | adding the root of a token count keeps the tree's shape: one node a path, each hung under its root entry or its parent |
| MinerShape.AddKidOk | pkg/agent/miner.go:180-187 | adding a child under a missing key keeps it too |
| MinerShape.KeyAtInjective | pkg/agent/miner.go:175-189 | no two nodes share a key path, so a leaf key names one node |
| Miner.MostSimilar | pkg/agent/miner.go:96-104 | the search returns the first most similar cluster of the leaf |
| Miner.SmallestIn | pkg/agent/miner.go:122-127 | the eviction loop finds the first smallest cluster |
| Miner.Miner.constructor | pkg/agent/miner.go:54-71 | non-positive settings take the defaults and the miner starts empty |
| Miner.Miner.Cluster | pkg/agent/miner.go:87-134 | on the heap, a call takes exactly the specified step and returns the id and template of its cluster; an empty token list changes nothing |
| Miner.Miner.AddCluster | pkg/agent/miner.go:75-82 | a seed is put at the end of its own leaf and overwrites its map entry |
| Miner.Miner.Descend | pkg/agent/miner.go:166-191 | the walk ends at the node of the key path, builds only missing nodes, and leaves all others in place |
| Miner.Miner.Reset | pkg/agent/miner.go:158-163 | every template is forgotten, the configuration kept |
| Spike.ResolveIsResolved | pkg/agent/spike.go:76-107 | every configuration resolves to positive knobs and 24 buckets |
| Spike.KnobsKeptOrDefault | pkg/agent/spike.go:76-107 | a knob that is set is kept, one that is not takes its documented default |
| Spike.FlaggedIffHeldOut | pkg/agent/spike.go:143-168 | on one baseline a tick is z-flagged exactly when the fold holds it out and it lies above a positive mean, over the noise floor and below the ceiling |
| Spike.ScoreReports | pkg/agent/spike.go:143-148 | whatever the flags, the rate is per second and the score its distance to the mean in spreads |
| Spike.FlaggedTickHeldOut | pkg/agent/catalog.go:625-642 | in default mode a z-flagged tick leaves the global mean and variance unchanged |
| Spike.FlaggedHourHeldOut | pkg/agent/catalog.go:644-667 | in time_of_day mode with a confident bucket and one shared hour it leaves the buckets and the average unchanged |
| Spike.MeanUnchangedIff | pkg/agent/catalog.go:625-642 | any tick leaves the global mean exactly when the global gate rejects its rate or the rate is the mean |
| Spike.BucketsUnchangedIff | pkg/agent/catalog.go:644-667 | any tick leaves the buckets exactly when all are there and the bucket of the fold's own hour rejects its rate |
| Spike.FlaggedHeldOutIff | pkg/agent/spike.go:143-168 | in every mode, the exact condition for a z-flagged tick to leave the mean, and for it to leave the buckets |
| Spike.AcceptedTickMovesLittle | pkg/agent/catalog.go:632-640 | an accepted post-warmup tick moves the mean, up or down, by less than alpha times Z times the spread |
| SpikeWitness.AverageModeFoldsFlagged | pkg/agent/brain_log.go:196-200 | a run from an unlearned pattern that ends in a tick flagged in average mode and folded all the same |
| SpikeWitness.HourTurnFoldsFlagged | pkg/agent/brain_log.go:201-209 | after any five or more steady ticks, a tick flagged in one hour and folded in the next |
| BaselineRuns.AverageIsExact | pkg/agent/catalog.go:653-667 | after any run the average times the bucket counts is the sum of the rates the buckets accepted, and the counts are their number |
| BaselineRuns.MeanAmongFolded | pkg/agent/catalog.go:625-642 | the mean lies between any bounds of the rates it folded and the variance is not negative, for alpha in (0, 1] |
| BaselineRuns.SeededOnce | pkg/agent/catalog.go:628-631 | after the first tick the mean is positive for good, so the unseeded branch runs once |
| BaselineRuns.VarianceNegativeIff | pkg/agent/catalog.go:636-640 | a tick that folds into a seeded mean leaves a negative variance exactly when alpha exceeds 1 and the rate is off the mean or there was a variance |
| BaselineEwma.MeanIsWeighted | pkg/agent/catalog.go:625-642 | over any run the mean and variance are the exponentially weighted mean of exactly the rates the gate let in, and the weighted mean of their squares less its square |
| BaselineEwma.HoursAreWeighted | pkg/agent/catalog.go:644-667 | each hour's bucket counts the rates it let in and holds their weighted mean and variance; no other hour's rates touch it |
| BaselineEwma.ScoredAgainstRates | pkg/agent/brain_log.go:184-209 | after any run a tick is scored against its hour's rates in hour-of-day mode once there are enough of them, otherwise against the rates of all hours |
| BaselineEwma.AverageScoredAgainstMean | pkg/agent/brain_log.go:184-200 | in average mode it is scored against the plain mean of what the buckets let in |
| Grouping.GroupingPartitions | pkg/agent/brain_log.go:83-149 | the observations have distinct keys in first-seen order, each holds exactly its id's messages, and the frequencies add up |
| Grouping.Group | pkg/agent/brain_log.go:83-149 | the map of buckets and the order list compute that grouping |
| LearnRuns.LearningIsModeIndependent | pkg/agent/worker.go:606-664 | the same events at the same times teach the same patterns whatever the mode of each tick, hot switches included |
| LearnRuns.TwinsAgree | pkg/agent/worker.go:679-756 | switching between shadow and detect at any ticks changes no state and no number of surfaced verdicts |
| LearnRuns.ShadowIsDetect | pkg/agent/worker.go:679-756 | shadow records exactly what detect emits, in the same order |
| LearnRuns.ServicesAgreeIff | pkg/agent/catalog.go:895-908 | training and detect track the same services exactly when there is no grace or no unattributed name is new |
| LearnRuns.StoredKnownIffReady | pkg/agent/brain_log.go:347-381 | after every processed event stored "known" is readiness |
| LearnRuns.CountIsSightings | pkg/agent/catalog.go:573-578 | a pattern's count is the number of its sightings so far |
| LearnRuns.ClassificationClosedForm | pkg/agent/brain_log.go:257-328 | a judged tick is Unknown exactly when the earlier sightings are below the threshold; else Spike exactly when its frequency reaches the absolute ceiling, or its rate is Z spreads above the baseline, past the floor and warm-up, for the SustainTicks-th time since the last calm tick |
| LearnRuns.ScoredIsKind | pkg/agent/spike.go:143-168 | the detector's flags are given by the frequency, the ceiling, the floor, the earlier sightings and the distance to the baseline alone |
| LearnRuns.CeilingIsSpike | pkg/agent/spike.go:150-156 | a judged tick of a known pattern at the ceiling is a Spike whatever the baseline, count, streak and debounce, and leaves the streak |
| LearnRuns.ThresholdKeptOrDefault | pkg/agent/brain_log.go:357-369 | the promotion threshold is the one set, or a hundred sightings |
| LearnFields.FieldsOverRuns | pkg/agent/catalog.go:534-583 | over every run a pattern is there exactly when sighted; its first and last sighting, template, rule tag (the last named rule) and service (the last real one) are those of its sightings |
| LearnFields.AnchorIsFirst | pkg/agent/catalog.go:880-908 | a service keeps the time of the first event that tracked it |
| LearnFields.JudgedIff | pkg/agent/worker.go:679-756 | a tick is judged exactly in shadow and detect and outside the grace window its service entered when first tracked |
| LearnRuns.SinceCalmCounts | pkg/agent/brain_log.go:316-328 | the debounce counter is the plain number of below-ceiling spikes after the last calm tick |
| LearnRuns.StreakIsSpikesSinceCalm | pkg/agent/brain_log.go:316-328 | the streak map holds that number after every run |
| Learn.Catalog.Upsert | pkg/agent/catalog.go:534-583 | the pattern is created or refreshed, counted and folded against its earlier count; no other pattern changes |
| Learn.Catalog.FoldBaseline | pkg/agent/catalog.go:604-668 | the branches and in-place updates compute the fold |
| Learn.Catalog.CountFolds | pkg/agent/catalog.go:673-679 | the loop sums the bucket counts |
| Learn.Catalog.RegisterService | pkg/agent/catalog.go:880-889 | a first sighting is recorded, a known name untouched |
| Learn.Catalog.IsServiceInGrace | pkg/agent/catalog.go:895-908 | the answer is the window test, and an unknown name is registered when grace is on |
| Learn.Catalog.MarkKnown | pkg/agent/catalog.go:245-270 | the working set's verdict becomes "known" in any case; the answer is the store's where one is installed, else whether the verdict changed |
| Learn.LogBrain.Classify | pkg/agent/brain_log.go:257-308 | the verdict and the streak, with the earlier count recovered from the one after the fold |
| Learn.LogBrain.ConfirmSpike | pkg/agent/brain_log.go:316-328 | the debounce and its map |
| Learn.LogBrain.Promote | pkg/agent/brain_log.go:347-355 | only a pattern that has reached the threshold is promoted |
| Learn.Worker.ProcessObservation | pkg/agent/worker.go:606-664 | register, expect, learn, handle, promote, in this order, take the specified step in the mode of the tick |
| Learn.Worker.ProcessObservations | pkg/agent/worker.go:606-664 | the loop is the run over the tick's events, and each sink gets exactly what the run surfaces |
| Flush.FlushBeforeCommit | pkg/agent/worker.go:319-380 | over every run with failing writes, commits, resets, shutdowns and crashes that keeps the protocol, a durable id names a row each half has written or an operator wiped |
| Flush.FlushKeepsNoHoleIff | pkg/agent/worker.go:347-379 | a flush with its commits leaves no durable id without its row exactly when, if it goes ahead, each source that commits has staged only rows both halves then keep |
| Flush.NeverHoleIff | pkg/agent/worker.go:319-409 | over every run of ticks, flushes, resets, shutdowns and crashes at all, no id is ever durable before its row exactly when each flush that goes ahead is of that kind |
| Flush.NothingIsLost | pkg/agent/worker.go:319-380 | wherever a run stops with no durable id without its row and its loads succeeding, a new process has in memory every row no source delivers again, but for what an operator wiped |
| Flush.FailedLoadOverwrites | cmd/main.go:313-316 | after a failed load the next flush leaves a blob with the new rows alone, and the tables with what they had besides |
| Flush.StoreResetKeepsIff | pkg/agent/catalog.go:761-784 | a successful store-path reset keeps the invariant of the protocol exactly when the other half has nothing unwritten |
| Flush.TickKeepsIff | pkg/agent/worker.go:459-505 | a tick keeps that invariant exactly when each staged row was learned or already accounted for |
| Flush.HoleBecomesDurable | pkg/agent/worker.go:399-409 | a staged row in neither half's record nor memory is made durable by the next flush that goes ahead, dirty or clean |
| Flush.StoreResetCounterexample | pkg/agent/catalog.go:771-779 | one line, one reset and one quiet flush that break the order |
| Flush.GroupErrorCounterexample | pkg/agent/worker.go:574-578 | with a brain whose Group can fail: a tick with one learned and one refused batch, and the next flush, that break the order |
| Flush.NoStorageCounterexample | pkg/agent/catalog.go:847-849 | with nowhere to write a commit follows all the same |
| FlushWorker.Worker.PersistTick | pkg/agent/worker.go:347-379 | flush when dirty, commit only if the flush did not fail |
| FlushWorker.Worker.Shutdown | pkg/agent/worker.go:319-345 | the same order at shutdown |
| FlushWorker.Worker.CommitSources | pkg/agent/worker.go:399-409 | every source commits on its own result; a failing one keeps its ids staged |
| FlushWorker.Catalog.Persist | pkg/agent/catalog.go:831-870 | a clean catalog writes nothing, a failing write leaves it dirty |
| FlushWorker.Catalog.ResetPatterns | pkg/agent/catalog.go:761-784 | the half is wiped in memory and on the backend, with the dirty flag as the code leaves it |
| Cursors.ResumesWhereAPullWentThrough | pkg/agent/worker.go:1104-1123 | whatever writes failed and whatever restarted, a source resumes where one of its own pulls had reached whose batches were all accepted, never after now, or at the lookback window |
| Cursors.ResumesAtLastSaved | pkg/agent/cursors.go:34-60 | with a working remote half and no reset it resumes at the last cursor recorded, across restarts |
| Cursors.BatchesCover | pkg/agent/worker.go:494-503 | batches cover a pull exactly, none empty or too large |
| Cursors.BatchesWithinLimit | pkg/agent/worker.go:494-503 | a positive batch limit is respected; without one the pull is one batch |
| Cursors.Worker.HandOver | pkg/agent/worker.go:459-505 | the loop hands over those batches in order, stops at the first refused one, and records the cursor only when all went through |
| Cursors.Worker.LoadCursor | pkg/agent/worker.go:1104-1123 | a future or missing cursor falls back to the lookback window |
| Cursors.Worker.TickSource | pkg/agent/worker.go:459-505 | loading the cursor and handing the pull over moves the cursors by exactly one step of a run, and hands over the whole pull when all of it was accepted |
| Cursors.CursorStore.Set | pkg/agent/cursors.go:52-60 | memory always takes the cursor, the remote half only when its write succeeds |
| Cursors.CursorStore.Reset | pkg/agent/cursors.go:73-113 | memory is emptied; the sweep only ever deletes, succeeds exactly when every scan and every delete does, and then no scanned key is left |
| Glob.TranslationMeansGlob | pkg/agent/override_store.go:406-422 | for every entry and signal the text built parses, and accepts exactly what a direct `*`/`?` matcher does when wildcards do not take newlines |
| Glob.NewlineFree | pkg/agent/override_store.go:390-423 | on newline-free signals that is the plain glob |
| Glob.ReadingsAgreeIff | pkg/agent/override_store.go:390-423 | the two readings agree on all entries exactly for the signals without a newline |
| Glob.FastPathAgrees | pkg/agent/override_store.go:402-404 | equality is what the regex would answer on an entry without wildcards |
| Glob.MatchSignalGlob | pkg/agent/override_store.go:397-423 | blank entries and signals never match, everything else is the glob |
| Overrides.OverrideMatches | pkg/agent/override_store.go:373-388 | a rule applies within its own source type, by pattern, substring or glob |
| Overrides.BytesOf | pkg/agent/override_store.go:219-221 | the length limits count UTF-8 bytes: one to four a character, and those of a text are those of its parts |
| Overrides.OverrideStore.Put | pkg/agent/override_store.go:208-260 | exactly when each error is returned; else the rule takes its place alone; a failed write restores the rules exactly when nothing was replaced and the new id was free; other orgs never change |
| Overrides.OverrideStore.Delete | pkg/agent/override_store.go:264-281 | a failed write restores the rules exactly, so cache and store stay in step |
| Overrides.OverrideStore.RepointService | pkg/agent/override_store.go:302-331 | every rule moves; a failed write restores them exactly when none was at the new service |
| Overrides.OverrideStore.ResolveService | pkg/agent/override_store.go:170-183 | the service of some applying rule of the org, and none exactly when none applies |
| Overrides.RepointBackIff | pkg/agent/override_store.go:321-328 | moving there and back is the identity exactly when no rule was there |
| Redact.SegmentsPartition | pkg/cloudwatchlogs/read.go:105-182 | the scan covers the input once, in order, and every masked segment is an address with its zone or an over-long run with two colons |
| Redact.UnchangedWithoutAddress | pkg/cloudwatchlogs/read.go:105-182 | an input holding no such segment comes out unchanged |
| Redact.RedactsFieldwise | pkg/cloudwatchlogs/read.go:105-182 | on either side of a separator the scanner does what it would do to that side alone |
| Redact.DelimitedAddressIsMasked | pkg/cloudwatchlogs/read.go:105-182 | an address between separators never comes through |
| RedactRuns.LongestCloseIsMasked | pkg/cloudwatchlogs/read.go:129-140 | in a run of at most 128 bytes the longest address that closes - followed by colons and dots only, or by one separator and a tail that neither repeats it nor starts an address - is masked, and the scan goes on behind it |
| RedactRuns.FirstGluedIsMasked | pkg/cloudwatchlogs/read.go:141-146 | where none closes, the first address glued to another is masked |
| RedactRuns.RunShownIff | pkg/cloudwatchlogs/read.go:129-155 | such a run is shown whole exactly when no address in it closes or is glued to another |
| RedactRuns.AddressThenPunctuation | pkg/cloudwatchlogs/read.go:131-132 | an address with colons and dots after it is never shown |
| RedactRuns.AddressThenTail | pkg/cloudwatchlogs/read.go:131-133 | nor is one followed by a separator and a tail such as a port |
| RedactRuns.GluedAddressesAreMasked | pkg/cloudwatchlogs/read.go:140-146 | two addresses glued by a separator are both masked, where the run starts with no other |
| RedactRuns.GluedIsCoveredIff | pkg/cloudwatchlogs/read.go:129-146 | what is masked first takes in a glued address exactly when one at least as long closes or no shorter one closes or is glued |
| RedactRuns.GluedExample | pkg/cloudwatchlogs/read.go:129-146 | in `1::2.3.4.5:1::2` the second address comes through |
| RedactRuns.OverlongRun | pkg/cloudwatchlogs/read.go:124-128 | a longer run is masked when it has two colons, else shown |
| RedactRuns.AddressThenWord | pkg/cloudwatchlogs/read.go:148-151 | a letter right after an address shows it exactly when it has two colons |
| RedactRuns.WordIsShown | pkg/cloudwatchlogs/read.go:109-113 | inside a word no address starts |
| RedactRuns.ZoneGoesWithAddress | pkg/cloudwatchlogs/read.go:156-182 | a zone is masked with its address |
| RedactRuns.AddressAfterZone | pkg/cloudwatchlogs/read.go:160-166 | up to a mark with a further address, which is masked for itself |
| RedactRuns.LonePercentIsShown | pkg/cloudwatchlogs/read.go:172-174 | a percent sign without a zone is shown |
| Redact.RedactIPv6 | pkg/cloudwatchlogs/read.go:105-182 | the position loop renders exactly those segments |
| Redact.FindMatch | pkg/cloudwatchlogs/read.go:129-146 | the downward and upward searches find the longest cut, else the first split |
| Redact.FindZoneEnd | pkg/cloudwatchlogs/read.go:156-174 | the zone stops before a separator that starts an address, and a lone percent sign is left |

## Left out

- Alert, on-call and queue providers, HTTP controllers, UI, AI calls, source factories, configuration loading: plumbing around the modelled core.
- Sample rings, count windows, shadow and detect logs as containers: easy bounds only.
- The exact regex engine, JSON, SQL drivers, Redis and SHA-256: predicates, injective functions and writes that may fail stand for them.
- Goroutine races inside one tick, and patterns shared by two sources in one tick.
- Floating-point rounding, integer overflow and NaN.
- Stored patterns and clusters are values in maps where the source keeps pointers to them; the miner's nodes and clusters are heap objects, the catalog's patterns are not.
- The `updated_at` columns, roots of other kinds than logs, and SQL collations other than code-point order.
- Re-scrubbing of samples on read: the rows carry their samples as stored.
- In-memory label, delete, re-point and manual-service edits of the working set, and the pages of the service list: one-branch map updates and a second copy of the pattern pager.
- CatalogRestart.RestartInvisibleToLearning: covers what is learned under given keys, not the spike streaks, which live in process memory and start again at zero.
- Health projections, learn-exclusion and per-kind filters between a pull and grouping: the model starts from the signals that pass them.
- The regex tag of an observation, and its attribution to a service, are inputs of the learn step.
- Trimming and lower-casing of a stored baseline mode: the model takes the normalized text.
- What a source returns from a pull, and the contents of its reorder window: pulls are inputs.
- CatalogReset.OnlyRowsPersistedAfterReset: later resets by a store of the same write organization that reads less are excluded, because such a reset undoes this one (`NarrowResetUndoesWide`).
- CatalogReset.SnapshotCountsOnlyAfterReset: the same resets are excluded.
- CatalogCuration.ScopeTombstoneSurvives: the run's stores share one scope; one step of a store with another is `OtherScopePersistKeepsIff`.
- MinerCatalog.TicksOk: runs that evict are excluded; what a restart answers after any run is `AnswerAfterRestart`.
- Fleet.FleetConservation: boots are taken to load successfully, the other case being `FailedLoadConservesIff`, and resets are excluded, counts after a reset being `SnapshotCountsOnlyAfterReset`.
- Flush.FlushBeforeCommit: runs that break the protocol are excluded by a condition on each step; the exact condition over all runs is `NeverHoleIff`.
- Flush.StoreResetKeepsIff: about the invariant of the protocol, which a crash may restore; the property itself is decided by `NeverHoleIff`.
- Flush.TickKeepsIff: likewise.
- Grouping.Group: takes the miner's answers as a list rather than calling the miner object.
