# Formal models of the GrowthOS backend

Dafny models of the parts of the backend whose correctness is not visible from one function, with
proofs about all inputs, all runs or all tables.

* **Response spool** (`SpoolFiles`, `SpoolProtocol`, `SpoolSafety`, `SpoolCapacity`,
  `SpoolOverflow`, `SpoolCapture`): a file system with what processes see and what may be on disk, any
  number of capture processes, an uploader, deaths and power losses. The class `Directory` is one
  process, with a fault at any call.
* **OpenAPI release check** (`Json`, `OpenApiCompat`, `OpenApiReport`, `JsonPointer`, `OpenApiRefs`,
  `OpenApiArrayRefs`, `OpenApiTransitive`): the breaking-change relation, for which baselines it is
  transitive, its report, and what it means for `$ref`.
* **OpenAPI aggregation** (`OpenApiDocuments`, `OpenApiAggregation`, `OpenApiOrder`,
  `OpenApiDistinct`): the merge is a union that does not depend on the order of the modules.
* **Data migrations** (`OpportunityScore`, `OpportunityTables`, `OpportunityWorkflow`,
  `KeywordIdeasDowngrade`, `ConversationBranches`, `KeywordHardening`): tables as mutable maps from
  primary key to row, each statement a method.
* **Environment file import** (`EnvironmentText`, `EnvironmentImport`): parser, printer and edit.
* **Gateway texts** (`Base64Url`, `SignedJson`, `CallbackTicket`, `PlatformContext`): the codec, the
  callback ticket and the canonical request context.
* **Database retry** (`DatabaseRetry`): the worklist over linked errors, and the retry loop.
* `Options` and `PythonText` are shared.

`dafny verify dfyconfig.toml` checks everything.

## Where the code does less than it seems to

* The release check is not transitive for documents with a `__proto__` field that the built-in
  prototype satisfies, because `key in current` sees inherited properties
  (`OpenApiCompat.TransitivityFails`). It is transitive exactly for the baselines that
  `OpenApiTransitive.TransitiveIffCovered` names; `SurvivesEveryLaterVersionIffOwn` gives the exact
  condition for one accepted release.
* References that pass through an array may dangle after an accepted release; exactly those through
  objects alone are safe (`OpenApiArrayRefs.KeptIffThroughObjects`).
* Without directory syncs, as on Windows, a begun capture can vanish
  (`SpoolSafety.NoCaptureIsLostIffPosix`).
* The spool limit can be exceeded when a power loss brings back a file whose unlink was not synced
  (`SpoolOverflow.LimitFailsAfterPowerLoss`). It holds in every run whose power losses strike settled
  directories, which are exactly those to which nothing can come back
  (`SpoolCapacity.SettledIffNothingComesBack`, `LimitHoldsWhileSettled`).
* A callback ticket issued at a fraction of a second in the ten minutes before 1970 is never accepted
  (`CallbackTicket.LifetimeIsWhole`).

## Model

| member | source | states |
|---|---|---|
| `SpoolSafety.KeepsEveryAction` | backend/provider_archive/growthos_provider_archive.py:28-113 | one step of anybody (an operation of either program, a half-done write, a dying process, a delivery, a sync, a power loss that keeps any subset of un-synced entries) keeps everything recorded about every event id |
| `SpoolSafety.EveryRunKeepsInv` | backend/provider_archive/growthos_provider_archive.py:28-113 | the same over whole runs from an empty spool, with any number of captures and power losses |
| `SpoolSafety.FilesAreWhole` | backend/provider_archive/growthos_provider_archive.py:28-33 | at every point of every run an event file that exists, or may exist after a power loss, holds the whole event on disk; base records of begun captures are whole; the uploader only ever delivered whole events |
| `SpoolSafety.NoCaptureIsLostIffPosix` | backend/provider_archive/growthos_provider_archive.py:36-43 | once `begin_capture` returned, the id has a `.pending` or `.event.json` that survives a power loss until the event is delivered, in every run, if and only if the system has directory syncs |
| `SpoolSafety.LosingRun` | backend/provider_archive/growthos_provider_archive.py:36-38 | on Windows, where the directory is not synced, a concrete run leaves no file of a begun, undelivered capture |
| `SpoolSafety.SolidSurvives` | backend/provider_archive/growthos_provider_archive.py:52-70 | what durability of a name buys: it is still there after a power loss at that point |
| `SpoolSafety.OnDiskAfter` | backend/provider_archive/growthos_provider_archive.py:36-70 | for each operation and each name, which directory values may be on disk afterwards |
| `SpoolCapacity.EveryRunIsWithinCapacity` | backend/provider_archive/growthos_provider_archive.py:99-113 | over every run, ids with a counted file plus ids between count and write never exceed `max_pending + k - 1` plus the ids that power losses brought back, which the next rows show to be none in settled directories |
| `SpoolCapacity.SettledIffNothingComesBack` | backend/provider_archive/growthos_provider_archive.py:36-43 | the exact condition: a power loss can bring no id back if and only if every counted file that might return belongs to an id that counts now |
| `SpoolCapacity.NothingComesBackInRun` | backend/provider_archive/growthos_provider_archive.py:99-113 | power losses that strike such directories bring nothing back over a whole run |
| `SpoolCapacity.LimitHoldsWhileSettled` | backend/provider_archive/growthos_provider_archive.py:99-100 | in every run whose power losses, however many, strike settled directories the ids with a `.pending` or `.event.json` never exceed `max_pending + k - 1`, so `max_pending` when captures come one at a time |
| `SpoolOverflow.LimitFailsAfterPowerLoss` | backend/core/src/modules/provider-archive/uploader.ts:93-96 | for every limit and every concurrency the bound fails in some run with a single power loss, which strikes between an uploader's unlink and its directory sync |
| `SpoolFiles.FewerIdsThanNames` | backend/provider_archive/growthos_provider_archive.py:99-100 | counting file names over-counts event ids, never under-counts them |
| `SpoolCapture.RunSplits` | backend/provider_archive/growthos_provider_archive.py:28-43 | running two programs one after the other, with a fault anywhere, is running the first and then the second with what is left of the fault |
| `SpoolCapture.Directory.Perform` | backend/provider_archive/growthos_provider_archive.py:28-43 | one file-system call: it succeeds with its effect, or raises at a fault |
| `SpoolCapture.Directory.Write` | backend/provider_archive/growthos_provider_archive.py:28-33 | exclusive create, write and fsync, with every partial outcome of a fault |
| `SpoolCapture.Directory.BeginCapture` | backend/provider_archive/growthos_provider_archive.py:75-113 | which settings and requests are switched off, refused and why, or captured, and that a capture is exactly its program cut off at the first failure |
| `SpoolCapture.Directory.Finish` | backend/provider_archive/growthos_provider_archive.py:52-72 | never raises; an oversized body changes nothing; otherwise the directory is that of the finishing program cut off at the first failure, which is reported as a gap |
| `SpoolCapture.WriteOutcome` | backend/provider_archive/growthos_provider_archive.py:28-33 | after `_write` of a new name with a fault anywhere: whether it succeeded, whether the file is there, that it is whole on success, and that nothing else changed |
| `SpoolCapture.BeginOutcome` | backend/provider_archive/growthos_provider_archive.py:111-113 | the same for the file part of `begin_capture`: it returns exactly when no operation fails, and then the marker is whole |
| `SpoolCapture.FinishOutcome` | backend/provider_archive/growthos_provider_archive.py:66-70 | the same for `finish`: the event is there, whole, exactly from the rename on, the temporary name exactly before it, and a gap keeps the marker |
| `SpoolCapture.CallIsARun` | backend/provider_archive/growthos_provider_archive.py:52-113 | whatever fails, a call's effect on the directory is the end of a run of the protocol, so the results about runs hold of the methods |
| `SpoolCapture.SupportedRequests` | backend/provider_archive/growthos_provider_archive.py:86-87 | which requests are captured: GET or POST, and a path `/v3/` with at least one letter, digit, slash, underscore or dash after it and nothing else |
| `SpoolCapture.AccountPages` | backend/provider_archive/growthos_provider_archive.py:84-85 | which paths are passed over: those under `/v3/appendix/` |
| `SpoolCapture.DeploymentIds` | backend/provider_archive/growthos_provider_archive.py:92-93 | which deployment ids are accepted: 1 to 100 ASCII letters, digits, dots, underscores and dashes, the first a letter or digit |
| `OpenApiCompat.EmptyReportIffCompatible` | backend/core/scripts/check-backlinks-openapi.ts:171-206 | the report is empty exactly when the documents are compatible, whatever path it starts from |
| `OpenApiReport.ReportIsExact` | backend/core/scripts/check-backlinks-openapi.ts:171-206 | a change is reported if and only if the documents differ in that way where its path leads: lost array item, missing key, changed kind or changed value |
| `OpenApiReport.ReportedBreaks` | backend/core/scripts/check-backlinks-openapi.ts:171-206 | every reported change has a list of keys that spells its path and leads to the difference |
| `OpenApiReport.BreakIsReported` | backend/core/scripts/check-backlinks-openapi.ts:171-206 | every difference is reported under its path, however deep |
| `OpenApiCompat.CompatibleWithItself` | backend/core/scripts/check-backlinks-openapi.ts:171-206 | every document is compatible with itself |
| `OpenApiCompat.CompatibleIsTransitive` | backend/core/scripts/check-backlinks-openapi.ts:171-206 | baseline to middle and middle to current give baseline to current, through the nested existential over array items, for every baseline without a field that the built-in prototype satisfies |
| `OpenApiCompat.TransitivityFails` | backend/core/scripts/check-backlinks-openapi.ts:195-196 | with a `__proto__` field the `in` test is met by inheritance and transitivity fails: three concrete documents |
| `OpenApiTransitive.TransitiveIffCovered` | backend/core/scripts/check-backlinks-openapi.ts:171-206 | the exact baselines for which baseline to middle and middle to current give baseline to current: those accepted on own fields by themselves without the fields that the built-in prototype satisfies, which can be computed from the baseline alone |
| `OpenApiTransitive.AcceptedOnOwnFieldsIffCovered` | backend/core/scripts/check-backlinks-openapi.ts:194-197 | these are also exactly the baselines that no release meets by inheritance |
| `OpenApiTransitive.CompatibleWithStripped` | backend/core/scripts/check-backlinks-openapi.ts:194-197 | a baseline without its inherited fields is an accepted release of it |
| `OpenApiTransitive.StrippedIsOwn` | backend/core/scripts/check-backlinks-openapi.ts:171-206 | every accepted release has the baseline without its inherited fields on own fields, so that is the least of them |
| `OpenApiTransitive.NothingToStrip` | backend/core/scripts/check-backlinks-openapi.ts:194-197 | no field is inherited exactly when there is nothing to strip |
| `OpenApiTransitive.CoveredByAnotherItem` | backend/core/scripts/check-backlinks-openapi.ts:177-187 | an inherited field does no harm when another item of the same array asks for more |
| `OpenApiCompat.SurvivesEveryLaterVersionIffOwn` | backend/core/scripts/check-backlinks-openapi.ts:194-197 | the exact condition: an accepted version is protected through every later compatible version if and only if it was accepted on own fields alone |
| `OpenApiCompat.OwnCompatibleComposes` | backend/core/scripts/check-backlinks-openapi.ts:171-206 | acceptance on own fields composes with any later acceptance |
| `OpenApiCompat.OwnCompatibleIsCompatible` | backend/core/scripts/check-backlinks-openapi.ts:171-206 | acceptance on own fields is acceptance |
| `OpenApiCompat.NoInheritedFieldNeedsNoInheritance` | backend/core/scripts/check-backlinks-openapi.ts:194-197 | a baseline without a field the prototype satisfies is only ever accepted on own fields |
| `OpenApiCompat.WhatThePrototypeSatisfies` | backend/core/scripts/check-backlinks-openapi.ts:190-197 | the built-in prototype satisfies exactly two baselines, the empty object and the one with a null `__proto__` |
| `Json.ObjectReads` | backend/core/scripts/check-backlinks-openapi.ts:143-149 | what a property read of an object finds: an own field, the prototype under `__proto__`, one of its eleven methods, or nothing |
| `Json.ArrayReads` | backend/core/scripts/check-backlinks-openapi.ts:143-149 | what a property read of an array finds: an item, the length, the prototype, a method, or nothing |
| `Json.IndexReadFinds` | backend/core/scripts/check-backlinks-openapi.ts:145-149 | an item is found under the decimal text of its index |
| `Json.IndexReadFindsOnly` | backend/core/scripts/check-backlinks-openapi.ts:145-149 | a key that finds an item is the decimal text of its index |
| `Json.DecimalDenotes` | backend/core/scripts/check-backlinks-openapi.ts:153 | the text of an index is its decimal numeral: digits only, no leading zero, denoting that number |
| `JsonPointer.TwoPassesDecodeLikeOne` | backend/core/scripts/check-backlinks-openapi.ts:142 | replacing all `~1` and then all `~0` decodes every string as one left-to-right pass does |
| `JsonPointer.DecodeInvertsEscape` | backend/core/scripts/check-backlinks-openapi.ts:142 | decoding inverts the escaping of section 4 of RFC 6901, and an escaped token holds no slash |
| `JsonPointer.TokensInvertPointer` | backend/core/scripts/check-backlinks-openapi.ts:138-142 | every non-empty list of keys written as a `#/` reference splits and decodes back to itself |
| `OpenApiRefs.ReportedDangles` | backend/core/scripts/check-backlinks-openapi.ts:151-169 | everything reported is a `$ref` string at the reported position that does not resolve |
| `OpenApiRefs.DanglingIsReported` | backend/core/scripts/check-backlinks-openapi.ts:151-169 | every `$ref` string that does not resolve, wherever it is, is reported under its position |
| `OpenApiRefs.NothingReportedIffAllResolve` | backend/core/scripts/check-backlinks-openapi.ts:136-169 | the finder reports nothing if and only if every reference of the document resolves |
| `OpenApiRefs.CompatibleKeepsTargets` | backend/core/scripts/check-backlinks-openapi.ts:143-149 | what the baseline reaches through objects, an accepted release reaches under the same keys, with a compatible value |
| `OpenApiRefs.CompatibleKeepsRefString` | backend/core/scripts/check-backlinks-openapi.ts:156-158 | an object with a `$ref` string is compatible only with an object with the same one |
| `OpenApiRefs.CompatibleReleaseKeepsReferences` | backend/core/scripts/check-backlinks-openapi.ts:136-206 | if no breaking change is found, every reference of the baseline placed and resolved through objects is still there, unchanged, and resolves to a value compatible with its old target |
| `OpenApiArrayRefs.KeptIffThroughObjects` | backend/core/scripts/check-backlinks-openapi.ts:136-206 | the exact condition: a reference that resolves through own fields, array items and lengths is kept by every compatible release, with a compatible target, if and only if it passes through objects alone, because items are matched by existence, not by index |
| `OpenApiArrayRefs.BlockedIsCompatible` | backend/core/scripts/check-backlinks-openapi.ts:176-197 | padding the first array on a path yields a compatible release |
| `OpenApiArrayRefs.BlockedDoesNotKeep` | backend/core/scripts/check-backlinks-openapi.ts:143-149 | in that release the reference no longer leads to its old target or anything compatible with it |
| `OpenApiArrayRefs.WalkFollowsOwn` | backend/core/scripts/check-backlinks-openapi.ts:143-149 | the resolver finds what own properties lead to |
| `OpenApiArrayRefs.PointerResolves` | backend/core/scripts/check-backlinks-openapi.ts:136-149 | a reference that spells a list of own keys resolves to the value under them, and one that does not start with `#/` resolves to nothing |
| `OpenApiArrayRefs.RefIsString` | backend/core/scripts/check-backlinks-openapi.ts:156-158 | what counts as a reference: the string under the own field `$ref` of an object |
| `OpenApiDocuments.Operations` | backend/api/app/core/openapi_aggregation.py:104-116 | the operations of a document in order, or the conflict exactly when one has no usable operationId |
| `OpenApiDocuments.PathOperationsCome` | backend/api/app/core/openapi_aggregation.py:106-115 | an operation is listed exactly when some path item holds it under an HTTP method |
| `OpenApiDocuments.OperationModule` | backend/api/app/core/openapi_aggregation.py:79-93 | an owner is returned exactly when the tags determine one, and it is that one |
| `OpenApiDocuments.OwnerIsUnique` | backend/api/app/core/openapi_aggregation.py:79-93 | an operation has at most one owner |
| `OpenApiDocuments.IdentifiedByText` | backend/api/app/core/openapi_aggregation.py:110-114 | an operation is identified exactly when its operationId is a string that is not empty once stripped |
| `OpenApiDocuments.OwnedByTags` | backend/api/app/core/openapi_aggregation.py:79-93 | without a tag map an operation belongs to the module it comes from; with one, a module owns an operation exactly when some tag of the operation names it and no tag names another; of several pairs with one tag the last counts |
| `OpenApiDocuments.HttpMethods` | backend/api/app/core/openapi_aggregation.py:104-109 | which keys of a path item are operations: eight words, in any case |
| `OpenApiDocuments.UnavailableIsStandard` | backend/api/app/core/openapi_aggregation.py:34-64 | the standard response, field by field: its description and its problem schema of eight required properties |
| `OpenApiDocuments.UnavailableResponseHolds` | backend/api/app/core/openapi_aggregation.py:96-101 | a published 503 response is the standard one, with the operation's own 503 under `x-growthos-upstream-response` exactly when that is neither absent, null nor the standard one |
| `OpenApiDocuments.PublishedChangesLittle` | backend/api/app/core/openapi_aggregation.py:96-101 | publishing changes the owner mark and the 503 response of an operation, so described, and nothing else |
| `OpenApiAggregation.AggregateOpenApiDocuments` | backend/api/app/core/openapi_aggregation.py:119-171 | the merge succeeds exactly when the documents do not conflict (ids present, one owner each, routes and operationIds distinct across all documents, components of one name equal), and the result is the union: platform members unchanged, each public module operation as published, all components, nothing else |
| `OpenApiAggregation.AddOperation` | backend/api/app/core/openapi_aggregation.py:146-159 | one operation is refused exactly when its route or id is known or its owner unclear, and is otherwise stored over nothing |
| `OpenApiAggregation.AddOperations` | backend/api/app/core/openapi_aggregation.py:146-159 | the loop over a module's operations |
| `OpenApiAggregation.CheckPlatform` | backend/api/app/core/openapi_aggregation.py:129-137 | the platform's operations are accepted exactly when they are distinct |
| `OpenApiAggregation.AddGroup` | backend/api/app/core/openapi_aggregation.py:161-169 | components of one kind are merged exactly when equal names have equal values |
| `OpenApiAggregation.AddComponents` | backend/api/app/core/openapi_aggregation.py:161-169 | the same over all kinds of a document |
| `OpenApiAggregation.AddModule` | backend/api/app/core/openapi_aggregation.py:139-169 | one module is merged exactly when the modules so far and this one do not conflict |
| `OpenApiAggregation.AddModules` | backend/api/app/core/openapi_aggregation.py:139-169 | the loop over modules: all are merged exactly when none conflicts |
| `OpenApiAggregation.StartFromPlatform` | backend/api/app/core/openapi_aggregation.py:123-137 | the start of the merge from the platform's document |
| `OpenApiAggregation.MergeableStep` | backend/api/app/core/openapi_aggregation.py:139-169 | what one more module must satisfy for the whole list to be free of conflicts |
| `OpenApiAggregation.MergeablePrefix` | backend/api/app/core/openapi_aggregation.py:139-169 | a list of modules without conflicts has none in any prefix, so stopping at the first conflict loses nothing |
| `OpenApiAggregation.CellsDetermine` | backend/api/app/core/openapi_aggregation.py:157 | a path table is determined by its cells and paths |
| `OpenApiAggregation.TriplesDetermine` | backend/api/app/core/openapi_aggregation.py:161-169 | a component table is determined by its entries and kinds |
| `OpenApiOrder.DistinctByMultiset` | backend/api/app/core/openapi_aggregation.py:132-152 | whether routes and ids are distinct does not depend on the order of the operations |
| `OpenApiOrder.PermutedOperations` | backend/api/app/core/openapi_aggregation.py:139-146 | permuted modules list a permutation of the same operations |
| `OpenApiOrder.MergeableInAnyOrder` | backend/api/app/core/openapi_aggregation.py:119-171 | the modules can be merged in one order exactly when they can be in any other |
| `OpenApiOrder.AggregateInAnyOrder` | backend/api/app/core/openapi_aggregation.py:119-171 | all orders give one aggregate, as maps |
| `OpenApiOrder.AggregateTwice` | backend/api/app/core/openapi_aggregation.py:119-171 | of two runs of the aggregation on permuted modules either both are refused or both yield the same aggregate |
| `OpenApiDistinct.AggregateIsDistinct` | backend/api/app/core/openapi_aggregation.py:129-159 | any two different operations of an aggregate, wherever they come from, differ in route and in operationId |
| `OpenApiDistinct.AggregateIsIdentified` | backend/api/app/core/openapi_aggregation.py:110-114 | every operation of an aggregate has an operationId that is not blank |
| `OpenApiDistinct.ApartByColumns` | backend/api/app/core/openapi_aggregation.py:129-152 | when two operations are distinct: another verb or path, and another operationId |
| `OpenApiDistinct.ConsistentByColumns` | backend/api/app/core/openapi_aggregation.py:161-169 | when components are consistent: equal kind and name mean equal values |
| `OpenApiOrder.PlatformOperationIsKept` | backend/api/app/core/openapi_aggregation.py:123-137 | the platform's operations and other members stand unchanged under their path and key |
| `OpenApiOrder.ModuleOperationIsPublished` | backend/api/app/core/openapi_aggregation.py:96-157 | each public module operation stands under its route with an owner that its tags determine, all its other members and responses as they were, and a 503 response that is the standard one and holds the operation's own 503 when it had another |
| `OpportunityTables.Tables.Representative` | backend/api/migrations/versions/20260806_0025_competitor_opportunity_workflow.py:171-178 | the row `DISTINCT ON` picks: no row of the group has a larger volume (nulls last) or, at equal volume, an earlier creation |
| `OpportunityTables.Tables.InsertOpportunities` | backend/api/migrations/versions/20260806_0025_competitor_opportunity_workflow.py:164-180 | one opportunity for every run and keyword, from a first row of the group; it fails exactly when two groups get one id |
| `OpportunityTables.Tables.LinkRankings` | backend/api/migrations/versions/20260806_0025_competitor_opportunity_workflow.py:185-193 | every ranking gets the id of an opportunity with its run and keyword, if there is one, and nothing else changes |
| `OpportunityTables.Tables.Rollup` | backend/api/migrations/versions/20260806_0025_competitor_opportunity_workflow.py:321-327 | minimum of the non-null ranks, and the size of the group |
| `OpportunityTables.Tables.RefreshOpportunityRollups` | backend/api/migrations/versions/20260806_0025_competitor_opportunity_workflow.py:318-352 | opportunities with rankings get best rank, count and score; others and all other columns stay |
| `OpportunityScore.ScoreIsMonotone` | backend/api/migrations/versions/20260806_0025_competitor_opportunity_workflow.py:331-348 | with an increasing logarithm, an opportunity with no fewer searches, no higher difficulty, no worse rank and no fewer competitors scores no less, rounding included |
| `OpportunityScore.ScoreIsInRange` | backend/api/migrations/versions/20260806_0025_competitor_opportunity_workflow.py:331-348 | a score is at most 100, and not negative when the difficulty is at most 100 |
| `OpportunityScore.RoundingIsClose` | backend/api/migrations/versions/20260806_0025_competitor_opportunity_workflow.py:333-347 | rounding to two places, halves away from zero, moves a value by at most half a hundredth and keeps the order |
| `OpportunityScore.ScoreWithoutVolume` | backend/api/migrations/versions/20260806_0025_competitor_opportunity_workflow.py:331-348 | the exact score when the volume is null or not positive: three tenths for each point that the difficulty (50 when null) is below 100, three points for each of up to five competitors, a tenth for each rank from 100 up to 1 and nothing for a null rank; at most 100 |
| `OpportunityScore.ScoreWithFullVolume` | backend/api/migrations/versions/20260806_0025_competitor_opportunity_workflow.py:331-348 | the same plus the full 45 points from a volume of 100000 on |
| `OpportunityScore.ScoreWithVolume` | backend/api/migrations/versions/20260806_0025_competitor_opportunity_workflow.py:331-348 | between these volumes the logarithmic share of 45 points is added, to within the rounding, and the score is cut at 100 |
| `OpportunityScore.BestAndUnknownScores` | backend/api/migrations/versions/20260806_0025_competitor_opportunity_workflow.py:331-348 | two scores outright: 100 for the best opportunity, 15 for one of which nothing is known |
| `OpportunityTables.ScoreUsesColumns` | backend/api/migrations/versions/20260806_0025_competitor_opportunity_workflow.py:335-340 | the volume and the difficulty of the score are those columns of the opportunity |
| `OpportunityTables.Tables.RestoreDetails` | backend/api/migrations/versions/20260806_0025_competitor_opportunity_workflow.py:251-265 | the joined update, row by row: a ranking whose opportunity exists gets its details, any other stays, and no other column changes |
| `OpportunityWorkflow.Upgrade` | backend/api/migrations/versions/20260806_0025_competitor_opportunity_workflow.py:164-233 | succeeds exactly when opportunity ids are distinct; then every ranking has exactly one opportunity, with its run and keyword, under the id made of both, opportunities are unique by run and keyword, carry a first row's columns and right rollups, and the new unique constraint holds |
| `OpportunityWorkflow.PairIsUnique` | backend/api/migrations/versions/20260806_0025_competitor_opportunity_workflow.py:212-216 | `(competitor_id, opportunity_id)` is unique because `(competitor_id, normalized_keyword)` was |
| `OpportunityWorkflow.OneOpportunityForEveryPair` | backend/api/migrations/versions/20260806_0025_competitor_opportunity_workflow.py:164-193 | two rankings share an opportunity exactly when they share run and keyword |
| `OpportunityWorkflow.CountsAddUp` | backend/api/migrations/versions/20260806_0025_competitor_opportunity_workflow.py:321-327 | competitor counts over any set of opportunities add up to the rankings that point into it |
| `OpportunityWorkflow.CountsAddUpToRankings` | backend/api/migrations/versions/20260806_0025_competitor_opportunity_workflow.py:318-352 | over all opportunities they add up to the number of rankings |
| `OpportunityWorkflow.Downgrade` | backend/api/migrations/versions/20260806_0025_competitor_opportunity_workflow.py:236-286 | every ranking carries its opportunity's details again; the old unique constraint can be created exactly when no two rankings of a competitor pointed to opportunities with one keyword |
| `OpportunityWorkflow.RestoredKeywords` | backend/api/migrations/versions/20260806_0025_competitor_opportunity_workflow.py:280-285 | the old uniqueness of the result is that condition on the rows before |
| `OpportunityWorkflow.ConstraintsKeepKeywordsApart` | backend/api/migrations/versions/20260806_0025_competitor_opportunity_workflow.py:123-216 | the two new unique constraints make the downgrade go through in every later state in which each ranking stays in the run of its opportunity and its competitor, as the worker writes them (backend/workers/src/seo_workers/keywords/repository.py, lines 847-970) |
| `OpportunityWorkflow.UpgradeKeepsOwnRuns` | backend/api/migrations/versions/20260806_0025_competitor_opportunity_workflow.py:185-193 | the upgrade leaves rankings in the run of their opportunity, so such a state, when competitors had one run each |
| `OpportunityWorkflow.UpgradeThenDowngrade` | backend/api/migrations/versions/20260806_0025_competitor_opportunity_workflow.py:164-286 | up and down again restores every ranking's run, keyword and all columns outside the shared details, the old uniqueness, and gives each ranking the details of a first row of its group |
| `OpportunityWorkflow.DowngradeUndoes` | backend/api/migrations/versions/20260806_0025_competitor_opportunity_workflow.py:251-285 | the same about the states |
| `OpportunityWorkflow.RepresentativeByColumns` | backend/api/migrations/versions/20260806_0025_competitor_opportunity_workflow.py:166-178 | the columns of an opportunity are those of a first row of its run and keyword |
| `OpportunityWorkflow.FirstByColumns` | backend/api/migrations/versions/20260806_0025_competitor_opportunity_workflow.py:171-178 | what makes a row the first of a run and keyword: none of these has a larger volume, where null is smallest, or the same volume and an earlier creation |
| `OpportunityWorkflow.DetailsByColumns` | backend/api/migrations/versions/20260806_0025_competitor_opportunity_workflow.py:251-265 | the details that come back are those of a first row of the run and keyword |
| `OpportunityWorkflow.ConstraintsByColumns` | backend/api/migrations/versions/20260806_0025_competitor_opportunity_workflow.py:212-216 | the unique constraints before and after, on the columns |
| `OpportunityWorkflow.OwnRunsByColumns` | backend/api/migrations/versions/20260806_0025_competitor_opportunity_workflow.py:171-193 | what is asked of later states, on the columns: a ranking is of the run of its opportunity, and the rankings of a competitor are of one run |
| `OpportunityWorkflow.RollupsByColumns` | backend/api/migrations/versions/20260806_0025_competitor_opportunity_workflow.py:318-352 | the rollups of an opportunity: the least non-null rank of its rankings, how many there are, at least one, and the score of its columns and these numbers |
| `OpportunityWorkflow.RestoredByColumns` | backend/api/migrations/versions/20260806_0025_competitor_opportunity_workflow.py:251-286 | what the downgrade gives back of a ranking that the upgrade moved, column by column |
| `OpportunityWorkflow.JoinedIsInjective` | backend/api/migrations/versions/20260806_0025_competitor_opportunity_workflow.py:172 | run and keyword joined by a colon determine both when the run id has no colon |
| `OpportunityWorkflow.IdsWithoutColonsAreDistinct` | backend/api/migrations/versions/20260806_0025_competitor_opportunity_workflow.py:172 | for run ids without a colon, as UUIDs are, the ids are distinct, so the upgrade goes through, if and only if the digest does not collide on the joined texts at hand |
| `OpportunityWorkflow.ColonMakesIdsCollide` | backend/api/migrations/versions/20260806_0025_competitor_opportunity_workflow.py:172 | why the condition on colons is there: for every run, text and keyword, moving the text and a colon from the keyword to the run gives the same id under every digest; only rows written outside the application have such run ids |
| `KeywordIdeasDowngrade.KeywordIdeas.DeleteShadowedVariants` | backend/api/migrations/versions/20260729_0014_keyword_ideas_modes.py:33-46 | afterwards no variant stands beside a plain idea of its key, every key of the family still has an idea, and only shadowed variants went |
| `KeywordIdeasDowngrade.KeywordIdeas.DeleteDuplicateVariants` | backend/api/migrations/versions/20260729_0014_keyword_ideas_modes.py:47-58 | afterwards every key has at most one variant, every key of the family still has an idea, and only variants with a lower one went |
| `KeywordIdeasDowngrade.LowestKeepKeys` | backend/api/migrations/versions/20260729_0014_keyword_ideas_modes.py:47-58 | deleting every variant with a lower one of its key, all at once, loses no key |
| `KeywordIdeasDowngrade.KeywordIdeas.RelabelVariants` | backend/api/migrations/versions/20260729_0014_keyword_ideas_modes.py:59-65 | all variants become plain ideas, and the unique key holds after every single row, in any order |
| `KeywordIdeasDowngrade.KeywordIdeas.Downgrade` | backend/api/migrations/versions/20260729_0014_keyword_ideas_modes.py:31-73 | which rows are left and how; unique key and old source check hold |
| `KeywordIdeasDowngrade.RelabelKeepsUniqueKey` | backend/api/migrations/versions/20260729_0014_keyword_ideas_modes.py:59-65 | one more relabelled row cannot collide with a plain or a relabelled one |
| `KeywordIdeasDowngrade.DeletesKeepKept` | backend/api/migrations/versions/20260729_0014_keyword_ideas_modes.py:33-58 | the two deletes in sequence keep exactly the unshadowed lowest variants of the table before both |
| `KeywordIdeasDowngrade.LowestVariant` | backend/api/migrations/versions/20260729_0014_keyword_ideas_modes.py:47-58 | every variant has a variant of its key with no lower one |
| `KeywordIdeasDowngrade.OneIdeaForEveryKey` | backend/api/migrations/versions/20260729_0014_keyword_ideas_modes.py:31-73 | every key with an idea of the family before has exactly one after; plain ideas stay as they were |
| `KeywordIdeasDowngrade.WhoSurvives` | backend/api/migrations/versions/20260729_0014_keyword_ideas_modes.py:33-58 | a variant survives exactly when no plain idea has its key and it has the lowest id of its key; unrelated rows are untouched |
| `KeywordIdeasDowngrade.SurvivorsByColumns` | backend/api/migrations/versions/20260729_0014_keyword_ideas_modes.py:33-65 | column by column: a broad or close idea survives exactly when no other row of the same run, keyword and seed is a plain idea or a variant with a lower id, and it survives as a plain idea, otherwise unchanged |
| `KeywordIdeasDowngrade.OthersStay` | backend/api/migrations/versions/20260729_0014_keyword_ideas_modes.py:33-65 | rows of every other source stay as they are |
| `KeywordIdeasDowngrade.UniqueByColumns` | backend/api/migrations/versions/20260729_0014_keyword_ideas_modes.py:41-43 | the unique key that the relabelling must meet is run, keyword, seed and source |
| `KeywordIdeasDowngrade.SourceChecks` | backend/api/migrations/versions/20260729_0014_keyword_ideas_modes.py:66-73 | the sources that the check allows after the downgrade and before it |
| `ConversationBranches.AgentTables.Lag` | backend/api/migrations/versions/20260801_0018_agent_conversation_branches.py:33-41 | the window function: the last earlier message of the conversation |
| `ConversationBranches.AgentTables.Last` | backend/api/migrations/versions/20260801_0018_agent_conversation_branches.py:51-57 | the last message of a conversation |
| `ConversationBranches.AgentTables.SetParents` | backend/api/migrations/versions/20260801_0018_agent_conversation_branches.py:31-47 | every message points to its predecessor and changes in nothing else |
| `ConversationBranches.AgentTables.SetActive` | backend/api/migrations/versions/20260801_0018_agent_conversation_branches.py:48-64 | conversations with messages point to their last; others are untouched |
| `ConversationBranches.AgentTables.Upgrade` | backend/api/migrations/versions/20260801_0018_agent_conversation_branches.py:31-64 | both, for every table that satisfies the foreign key |
| `ConversationBranches.BranchHoldsEarlier` | backend/api/migrations/versions/20260801_0018_agent_conversation_branches.py:31-47 | following parents meets the message and all earlier ones of its conversation, and no other |
| `ConversationBranches.BranchDescends` | backend/api/migrations/versions/20260801_0018_agent_conversation_branches.py:31-47 | in descending order of time and id |
| `ConversationBranches.ActiveBranchIsTheConversation` | backend/api/migrations/versions/20260801_0018_agent_conversation_branches.py:31-64 | from the active message the parents visit every message of the conversation exactly once, in descending order, and never leave it |
| `ConversationBranches.WalkIsBranch` | backend/api/migrations/versions/20260801_0018_agent_conversation_branches.py:31-47 | any walk along parents is that branch, as far as it goes: there is no cycle |
| `ConversationBranches.ParentByTime` | backend/api/migrations/versions/20260801_0018_agent_conversation_branches.py:31-47 | by time and id: a parent is earlier, in the same conversation, with no message between; without one, every other message of the conversation is later |
| `ConversationBranches.ActiveByTime` | backend/api/migrations/versions/20260801_0018_agent_conversation_branches.py:48-64 | by time and id: no message of a conversation is later than its active one |
| `KeywordHardening.KeywordTables.ProjectRank` | backend/api/migrations/versions/20260730_0016_keyword_production_hardening.py:91-94 | the window function, counted row by row, is one more than the number of newer rows of the partition |
| `KeywordHardening.RanksNumberThePartition` | backend/api/migrations/versions/20260730_0016_keyword_production_hardening.py:91-94 | ranks number each partition from 1 on, newer rows first, no rank twice and none beyond the number of rows |
| `KeywordHardening.RankOneIsRecoverable` | backend/api/migrations/versions/20260730_0016_keyword_production_hardening.py:86-113 | rank 1 is the candidate with no newer one in its project |
| `KeywordHardening.KeywordTables.RecoverableRuns` | backend/api/migrations/versions/20260730_0016_keyword_production_hardening.py:86-113 | the common table expression yields exactly those |
| `KeywordHardening.KeywordTables.BlockRecoverableRuns` | backend/api/migrations/versions/20260730_0016_keyword_production_hardening.py:84-130 | computed by rank, exactly the first candidate of each project is blocked, all others stay; the rows below say by columns which one that is and what becomes of it |
| `KeywordHardening.KeywordTables.Upgrade` | backend/api/migrations/versions/20260730_0016_keyword_production_hardening.py:43-147 | the new checks and the new unique index hold, no costly `retryable_failed` is left, and every row's new value |
| `KeywordHardening.UpgradeLeavesOneActive` | backend/api/migrations/versions/20260730_0016_keyword_production_hardening.py:139-147 | at most one queued, running, waiting or blocked run per project, so the index can be created |
| `KeywordHardening.NewestCandidate` | backend/api/migrations/versions/20260730_0016_keyword_production_hardening.py:89-112 | a project with a candidate has one that ranks first |
| `KeywordHardening.OneBlockedRun` | backend/api/migrations/versions/20260730_0016_keyword_production_hardening.py:84-130 | a project with a candidate gets exactly one blocked run, its newest candidate, and no other active run |
| `KeywordHardening.OnlyCandidatesAreBlocked` | backend/api/migrations/versions/20260730_0016_keyword_production_hardening.py:84-130 | a run is blocked exactly when it ranked first |
| `KeywordHardening.KeywordTables.Downgrade` | backend/api/migrations/versions/20260730_0016_keyword_production_hardening.py:190-252 | the old checks and the old unique index hold, and every row's new value |
| `KeywordHardening.KeywordTables.UpgradeThenDowngrade` | backend/api/migrations/versions/20260730_0016_keyword_production_hardening.py:43-252 | what comes back and what does not when the upgrade is taken back |
| `KeywordHardening.RunsComeBack` | backend/api/migrations/versions/20260730_0016_keyword_production_hardening.py:84-204 | every run has its old status; its error code unless it was the old Google Ads code of a blocked run; unblocked runs are identical |
| `KeywordHardening.RequestsComeBack` | backend/api/migrations/versions/20260730_0016_keyword_production_hardening.py:43-245 | a request has its old status exactly when it was neither charged nor running |
| `KeywordHardening.RetryableIsFree` | backend/api/migrations/versions/20260730_0016_keyword_production_hardening.py:43-60 | after the upgrade a request may be retried exactly when it failed retryably before and cost nothing; no cost changes |
| `KeywordHardening.SameRunsAreRecoverable` | backend/api/migrations/versions/20260730_0016_keyword_production_hardening.py:84-204 | after upgrade and downgrade the same runs are recoverable as before, although codes and end times changed |
| `KeywordHardening.RunsUpgradeAgain` | backend/api/migrations/versions/20260730_0016_keyword_production_hardening.py:84-204 | upgrade, downgrade, upgrade gives every run as after the first upgrade, but for the end time of blocked ones |
| `KeywordHardening.RequestsUpgradeAgain` | backend/api/migrations/versions/20260730_0016_keyword_production_hardening.py:43-245 | and every request exactly as after the first upgrade |
| `KeywordHardening.CandidateColumns` | backend/api/migrations/versions/20260730_0016_keyword_production_hardening.py:95-110 | which runs are candidates, column by column |
| `KeywordHardening.BlockedIsNewest` | backend/api/migrations/versions/20260730_0016_keyword_production_hardening.py:91-94 | no candidate of the project was created after the blocked run, nor at the same time with a higher id |
| `KeywordHardening.BlockedColumns` | backend/api/migrations/versions/20260730_0016_keyword_production_hardening.py:114-128 | every column of a blocked run |
| `KeywordHardening.FailedColumns` | backend/api/migrations/versions/20260730_0016_keyword_production_hardening.py:195-204 | every column of a run that the downgrade fails |
| `KeywordHardening.UpgradedRequestColumns` | backend/api/migrations/versions/20260730_0016_keyword_production_hardening.py:43-60 | every column of an upgraded request |
| `KeywordHardening.DowngradedRequestColumns` | backend/api/migrations/versions/20260730_0016_keyword_production_hardening.py:230-245 | every column of a downgraded request |
| `KeywordHardening.StatusChecks` | backend/api/migrations/versions/20260730_0016_keyword_production_hardening.py:61-68 | the four status checks, as lists of words |
| `KeywordHardening.IndexAllowsOne` | backend/api/migrations/versions/20260730_0016_keyword_production_hardening.py:139-147 | the new unique index allows one queued, running, waiting or blocked run in a project |
| `EnvironmentText.ParseIsWellFormed` | backend/core/scripts/import-local-product-ai-credential.ts:75-91 | whatever the text, parsed names are unique, trimmed and free of `=` and line feeds, and values are as they would be read again |
| `EnvironmentText.ParseInvertsSerialize` | backend/core/scripts/import-local-product-ai-credential.ts:75-97 | what is written is read back, entry by entry in order, for every well-formed map |
| `EnvironmentText.LineReadsBack` | backend/core/scripts/import-local-product-ai-credential.ts:78-88 | one written assignment reads back as itself |
| `EnvironmentText.SplitAtNewline` | backend/core/scripts/import-local-product-ai-credential.ts:77 | splitting at `\r?\n` takes off a line that does not end in a carriage return |
| `EnvironmentText.SplitAtCarriageReturn` | backend/core/scripts/import-local-product-ai-credential.ts:77 | a carriage return before the line feed is taken off too |
| `EnvironmentText.WhiteSpace` | backend/core/scripts/import-local-product-ai-credential.ts:78 | which characters are trimmed |
| `EnvironmentText.PaddedLine` | backend/core/scripts/import-local-product-ai-credential.ts:78-83 | in any padding an empty line or one that starts with `#` is passed over, and one without a name before `=` is refused |
| `EnvironmentText.PaddedAssignment` | backend/core/scripts/import-local-product-ai-credential.ts:78-88 | in any padding, also between name and `=`, an assignment is read as its trimmed name and its value up to the padding at the end |
| `EnvironmentText.ParsesIff` | backend/core/scripts/import-local-product-ai-credential.ts:75-91 | a text is accepted exactly when no line is malformed and no name comes twice, and the map holds the assignments of its lines in order |
| `EnvironmentImport.ParseEnvironmentFile` | backend/core/scripts/import-local-product-ai-credential.ts:75-91 | the map, or the error for an invalid line or a duplicate name |
| `EnvironmentImport.RemoveRuntimeOwnedNetworkEnvironment` | backend/core/scripts/import-local-product-ai-credential.ts:112-118 | the owned names go, whatever list of them is passed; the script has ten |
| `EnvironmentImport.Environment.Get` | backend/core/scripts/import-local-product-ai-credential.ts:155 | reading a name of the map |
| `EnvironmentImport.SetKeepsPlaces` | backend/core/scripts/import-local-product-ai-credential.ts:88 | setting a name that is there changes its value in place, whatever comes before and after |
| `EnvironmentImport.NewNameGoesLast` | backend/core/scripts/import-local-product-ai-credential.ts:88 | a new name goes to the end |
| `EnvironmentImport.LookupAfterWith` | backend/core/scripts/import-local-product-ai-credential.ts:152-154 | after setting a name, it reads as its value and every other name as before |
| `EnvironmentImport.DeleteTakesOne` | backend/core/scripts/import-local-product-ai-credential.ts:116 | deleting a name takes its entry and leaves the others in order |
| `EnvironmentImport.Edit` | backend/core/scripts/import-local-product-ai-credential.ts:150-166 | the map's new entries and the provider state are those of removing the owned names, setting the updates and completing the switch, for every map |
| `EnvironmentImport.ParseFiles` | backend/core/scripts/import-local-product-ai-credential.ts:148 | all files are parsed into maps of their own, or the error is that of the first that does not parse |
| `EnvironmentImport.EditFiles` | backend/core/scripts/import-local-product-ai-credential.ts:149-166 | every map is edited, or the error is that of the first with a bad provider switch |
| `EnvironmentImport.ImportFiles` | backend/core/scripts/import-local-product-ai-credential.ts:148-192 | either every file gets its new text, or nothing is written and the error is that of the first file that does not parse, or else of the first whose edit fails; when one file fails is the exact condition of `ImportSucceedsIff` |
| `EnvironmentImport.SettingAgainIsNothing` | backend/core/scripts/import-local-product-ai-credential.ts:152-154 | setting a name to its value changes not even the order |
| `EnvironmentImport.CredentialUpdatesQualify` | backend/core/src/modules/backlinks/runtime/local-product-ai-bootstrap.ts:132-156 | no name a credential sets is owned by the runtime, so its updates meet what the results below ask, as long as its values can be written |
| `EnvironmentImport.EditTwice` | backend/core/scripts/import-local-product-ai-credential.ts:150-166 | the edit is idempotent on every parsed map, for every list of owned names and every update list that avoids it |
| `EnvironmentImport.ImportIsAFixedPoint` | backend/core/scripts/import-local-product-ai-credential.ts:75-192 | importing the same credential again leaves the file byte for byte as it is, whatever text it had, for every list of owned names |
| `EnvironmentImport.ImportedFileReads` | backend/core/scripts/import-local-product-ai-credential.ts:148-192 | what the new file says of every name: nothing owned, every update, the switch, every other old assignment |
| `EnvironmentImport.EditSucceedsIff` | backend/core/scripts/import-local-product-ai-credential.ts:150-166 | an edit succeeds exactly when the switch, from the updates or else from the file, is absent, `true` or `false`; the provider state is then true exactly for `true`; otherwise the switch is the error |
| `EnvironmentImport.ImportSucceedsIff` | backend/core/scripts/import-local-product-ai-credential.ts:148-166 | a file imports exactly when it parses and its switch is absent, `true` or `false`, and the error says which of the two failed |
| `EnvironmentImport.OwnedNames` | backend/core/scripts/import-local-product-ai-credential.ts:99-110 | the ten names that the runtime owns |
| `Base64Url.DecodePaddedInverts` | backend/api/app/core/backlinks_gateway.py:530-542 | padded decoding inverts padded encoding for every length modulo three |
| `Base64Url.EncodingIsCanonical` | backend/api/app/core/backlinks_gateway.py:530-532 | an encoding has alphabet letters only, zero trailing bits, and the padding the decoder restores |
| `Base64Url.DecodeAcceptsExactlyEncodings` | backend/api/app/core/backlinks_gateway.py:534-542 | the decoder accepts exactly the encodings of non-empty byte strings and returns those bytes |
| `Base64Url.DecodeAcceptsIffCanonical` | backend/api/app/core/backlinks_gateway.py:534-542 | a text is accepted exactly when it is non-empty, in the alphabet, of a possible length and with zero trailing bits (sections 3.5 and 5 of RFC 4648) |
| `Base64Url.EncodeIsInjective` | backend/api/app/core/backlinks_gateway.py:530-532 | no two byte strings have one encoding |
| `Base64Url.LetterIsInAlphabet` | backend/api/app/core/backlinks_gateway.py:536 | the 64 letters in order (section 5 of RFC 4648) |
| `Base64Url.ThreeBytesAreFourDigits` | backend/api/app/core/backlinks_gateway.py:530-532 | three bytes are the four digits of one number in base 64 |
| `Base64Url.LastBytesAreDigits` | backend/api/app/core/backlinks_gateway.py:530-532 | one and two last bytes are two and three digits, filled with zero bits |
| `Base64Url.EncodesInThrees` | backend/api/app/core/backlinks_gateway.py:530-532 | an encoding is that of its first three bytes, then that of the rest |
| `CallbackTicket.IssuedTicketOpens` | backend/api/app/core/backlinks_gateway.py:426-454 | an issued ticket passes the signature test under its key and opens to the payload that was signed |
| `CallbackTicket.IssuedTicketResolves` | backend/api/app/core/backlinks_gateway.py:398-500 | for every context, state and time, as what an issued ticket resolves and exactly when: well-formed context, same state digest, `issuedAt - 5 <= now < issuedAt + 600` in whole seconds, whole lifetime |
| `CallbackTicket.LifetimeIsWhole` | backend/api/app/core/backlinks_gateway.py:412-413 | truncation toward zero breaks the 600-second test exactly for fractional issue times in the ten minutes before 1970 |
| `CallbackTicket.AcceptedTicketIsCanonical` | backend/api/app/core/backlinks_gateway.py:444-454 | an accepted ticket is the canonical text of its payload and of the key's one signature |
| `CallbackTicket.PayloadReadsBack` | backend/api/app/core/backlinks_gateway.py:472-491 | the payload reads back as the context exactly when that is well formed |
| `CallbackTicket.StringsReadBack` | backend/api/app/core/backlinks_gateway.py:559-571 | a list of texts reads back exactly when it is non-empty, without blanks and duplicates |
| `CallbackTicket.IssuedIff` | backend/api/app/core/backlinks_gateway.py:426-434 | a ticket is issued exactly when there is a key and the state is ASCII, and is the encoded payload, a dot and the encoded signature of the version, a dot and the encoded payload |
| `CallbackTicket.IssuedWho` | backend/api/app/core/backlinks_gateway.py:406-414 | the payload names the actor, session, roles and permissions of the context |
| `CallbackTicket.IssuedWhere` | backend/api/app/core/backlinks_gateway.py:415-423 | the payload names the project and tenant of the context |
| `CallbackTicket.IssuedWhen` | backend/api/app/core/backlinks_gateway.py:412-424 | the payload holds the version, the digest of the state and both times, 600 seconds apart before truncation |
| `CallbackTicket.IssuedNames` | backend/api/app/core/backlinks_gateway.py:406-425 | the payload has eight members and no other |
| `CallbackTicket.SecondsDropFraction` | backend/api/app/core/backlinks_gateway.py:412-413 | seconds are truncated toward zero |
| `CallbackTicket.ReaderOfString` | backend/api/app/core/backlinks_gateway.py:551-557 | a string member is read exactly when it is a non-empty string without white space at its ends |
| `CallbackTicket.ReaderOfStrings` | backend/api/app/core/backlinks_gateway.py:560-571 | a list member is read exactly when it is a non-empty list of different non-empty strings |
| `CallbackTicket.AcceptedIsChecked` | backend/api/app/core/backlinks_gateway.py:454-471 | whoever made it, an accepted ticket has the version, the digest of the state, and times within the limits |
| `CallbackTicket.AcceptedComesFromTicket` | backend/api/app/core/backlinks_gateway.py:472-491 | the context of an accepted ticket holds exactly what its payload says, under the caller's correlation id |
| `PlatformContext.SortedSet` | backend/api/app/core/platform_request_context.py:82 | ascending, with the same elements |
| `PlatformContext.AscendingIsUnique` | backend/api/app/core/platform_request_context.py:82 | a set of texts has one ascending list |
| `PlatformContext.NormalizedIsCanonical` | backend/api/app/core/platform_request_context.py:74-85 | two accepted lists normalize alike exactly when they have the same elements |
| `PlatformContext.AcceptanceIgnoresOrder` | backend/api/app/core/platform_request_context.py:74-85 | the outcome, refusal included, is the same for every order of the values |
| `PlatformContext.PayloadIsCanonical` | backend/api/app/core/platform_request_context.py:110-154 | two requests have one payload exactly when they are the same up to the order of roles and permissions, at the same formatted moments |
| `PlatformContext.HeaderIdentifiesRequest` | backend/api/app/core/platform_request_context.py:98-171 | the context header identifies the request and its moments, and under one key determines the signature header |
| `PythonText.StripTakesBlanks` | backend/api/app/core/platform_request_context.py:69 | `strip` takes blanks off both ends and nothing else |
| `PythonText.WhiteSpace` | backend/api/app/core/platform_request_context.py:69 | the code points that count as blanks |
| `PlatformContext.IssuedIff` | backend/api/app/core/platform_request_context.py:98-154 | the exact condition for a context to be issued: key length, lifetime, times, permissions, roles and identifiers |
| `PlatformContext.IssuedTenant` | backend/api/app/core/platform_request_context.py:143-152 | the payload says which organization and which workspace |
| `PlatformContext.IssuedProject` | backend/api/app/core/platform_request_context.py:129-142 | the payload says which project, or null for a collection request |
| `PlatformContext.IssuedActor` | backend/api/app/core/platform_request_context.py:118-122 | the payload says which user and session |
| `PlatformContext.IssuedRoles` | backend/api/app/core/platform_request_context.py:119 | the payload lists the roles of the actor in ascending order |
| `PlatformContext.IssuedPermissions` | backend/api/app/core/platform_request_context.py:112-128 | the payload lists the permissions in ascending order |
| `PlatformContext.IssuedHeader` | backend/api/app/core/platform_request_context.py:13-15 | the payload has issuer, audience and version as fixed texts, the correlation id and both times |
| `PlatformContext.IssuedNames` | backend/api/app/core/platform_request_context.py:117-154 | the payload has ten members and no other |
| `PlatformContext.IssuedHeaders` | backend/api/app/core/platform_request_context.py:155-171 | the first header decodes to the payload, the second is the signature of the version, a dot and the first |
| `PlatformContext.NormalizeAccepts` | backend/api/app/core/platform_request_context.py:74-85 | a list is accepted exactly when it has at least one and at most the allowed number of values, all different, each a non-blank identifier of at most 200 characters |
| `PlatformContext.PermissionIsTwoWords` | backend/api/app/core/platform_request_context.py:18 | a permission is two words around a colon, each a small letter and then small letters, digits, underscores, dots and dashes |
| `PlatformContext.LessIsCodePointOrder` | backend/api/app/core/platform_request_context.py:82 | the sort is by code points: a proper prefix first, otherwise by the first difference |
| `DatabaseRetry.ErrorChain` | backend/api/app/db/retry.py:45-62 | terminates on every finite graph of links, cycles included, and lists each reachable error exactly once, the root first |
| `DatabaseRetry.ClosedSetHoldsPath` | backend/api/app/db/retry.py:49-61 | a set closed under links holds every path that starts in it |
| `DatabaseRetry.ErrorCodes` | backend/api/app/db/retry.py:65-78 | the codes are those of the reachable errors |
| `DatabaseRetry.IsTransientDatabaseError` | backend/api/app/db/retry.py:81-106 | a write is retryable if and only if some reachable error carries a pre-execution code or errno, a read if and only if some reachable error is transient |
| `DatabaseRetry.PreExecutionIsTransient` | backend/api/app/db/retry.py:16-42 | a pre-execution code is a transient code |
| `DatabaseRetry.ReachableIsClosed` | backend/api/app/db/retry.py:49-61 | the errors looked at hold the root and whatever one of them links to as original error, cause or context |
| `DatabaseRetry.ReachableIsLeast` | backend/api/app/db/retry.py:49-61 | they are the least such set: nothing is looked at that these three links do not reach |
| `DatabaseRetry.HeldCodes` | backend/api/app/db/retry.py:65-78 | the codes of one error: its sqlstate, pgcode, code and textual errno in upper case, unless empty |
| `DatabaseRetry.PreExecutionCodes` | backend/api/app/db/retry.py:29-42 | the pre-execution codes and errno, as literals |
| `DatabaseRetry.TransientCodes` | backend/api/app/db/retry.py:16-41 | the transient codes and errnos, as literals, and all codes that start with 08 |
| `DatabaseRetry.RetryableCalls` | backend/api/app/db/retry.py:81-106 | when a failed call is retryable, as write and as read |
| `DatabaseRetry.RetryableWriteIsRetryableRead` | backend/api/app/db/retry.py:81-106 | what may be retried as a write may be retried as a read |
| `DatabaseRetry.EffectOfRetried` | backend/api/app/db/retry.py:109-127 | if failures with a pre-execution code have no effect, any run of retried writes and one last call takes effect at most once |
| `DatabaseRetry.RetryDatabaseOperation` | backend/api/app/db/retry.py:109-127 | between one and four calls; ends at the first outcome that is not a retryable failure; hands on the last call's outcome and never reaches the error after the loop; a write takes effect at most once if retryable failures have none |

## Left out

- Spool: the count of the directory is one atomic look; event ids are fresh; `finish` is called at most once per capture; creating the directory and reading numbers from the environment are not modelled; event text, base64 and digest of the body are abstract strings; the uploader's retry files, identity and receipt checks are left out, which only lets it deliver more often.
- Spool: the TypeScript capture in spool.ts runs the same operations and is not modelled again.
- OpenApiCompat: findings carry a datatype instead of the text with `JSON.stringify`; `findSensitiveOpenApiFields`, the generation of the document and the reading of files are left out.
- OpenApiOrder.AggregateTwice: which of several conflicts is reported does depend on the order, and errors are not told apart.
- OpenApiAggregation: documents are values, so copying and not mutating inputs hold by construction and are not stated; documents of the wrong shape, on which Python raises other errors, are not represented; Python's equality of `True` and `1` is not modelled; case folding of methods is ASCII; `FORBIDDEN_CRAWLER` checks, event and Temporal registries are left out.
- Migrations: column and constraint DDL, indexes, row-level security and grants; columns that no statement touches are one opaque field; the text order of ids is a number in `ConversationBranches` and `KeywordHardening`.
- OpportunityTables.Tables.RefreshOpportunityRollups: the score is computed over the reals, with the logarithm as a parameter; floating-point error before the rounding is not modelled.
- OpportunityWorkflow.Downgrade: the later clean-up of external requests and renamed indexes is left out.
- EnvironmentImport.ImportFiles: without the manifest, the secret store and the temporary files; the number of files is free; the owned names are a parameter; the updates are a parameter, any list of names and values that can be written and that avoids the owned names.
- CallbackTicket.IssuedTicketResolves: JSON text, SHA-256 and HMAC are parameters with a parse-undoes-print law and lengths; clocks are arguments in microseconds; surrogates are not modelled.
- PlatformContext.HeaderIdentifiesRequest: the time format is a parameter; equal stamps are compared, not moments.
- Gateway: header filtering and HTTP forwarding are left out, as are token authentication and context resolution.
- DatabaseRetry.RetryDatabaseOperation: sleeping and jitter are left out; upper case is ASCII; errno values are those of Linux.
- React pages, route registration, workers, the process launcher, the settings validator and the manifest checkers are left out: they would add only field-by-field checks.
