# A verified model of the AI Gateway converter

The converter lowers an AI Gateway document to a Kong document and lifts a Kong document back. This
project models the parts of it that are algorithms, not field copies, and proves what they promise.
Each module models one component:

| module | component |
|---|---|
| `Passes`, `PassRuns`, `ModelPasses` | the model pass that restarts when a model fails, what a run of it does call by call, and the issue log in a shared Go buffer |
| `IssueLogs`, `RepeatedIssue` | when the log of all those passes holds an issue twice, and a document where it does |
| `Rollback`, `GoSlices` | the shallow snapshot of the output document, with Go slices as shared arrays |
| `AuthSharing` | grouping models into routes by their auth strategies, and the auth plugins of a route |
| `AIModelRows`, `WrittenRows` | the `ai_models` rows, their names, IDs and markers, and the plugins scoped to them |
| `ProxyGroups`, `RouteProxies` | the proxy plugins that models on a route share, and the rows that they serve |
| `UniqueNames` | the searches for a free route name and a free model name |
| `ModelOrder`, `EntryNames` | the order of reverted models, and which of them gets the name of a row |
| `DocumentOrder`, `EmittedRoutes` | which documents that order restores, given the routes that the converter emits |
| `AliasMerge` | finding the plugin copies of one model and putting the right one first |
| `Lint` | which pairs of routes conflict |
| `Endpoints`, `EndpointRecovery`, `EndpointSearch` | building a route path, reading it back, finding its endpoint |
| `DBLess`, `FlatDocument`, `PluginIDs` | flattening nested entities into rows with foreign keys, and the IDs made for plugins |
| `Labels` | labels written as tags and read back |
| `MCPSources`, `MCPOutcome` | listeners and sources of MCP servers, encoded as tags among those of their labels |
| `EqualPaths`, `KeptPaths` | one wire format for each path of a model |
| `VectorDB`, `VectorDBShapes` | the two shapes of the `vectordb` block |
| `Sequences`, `Sorting`, `Issues` | facts and operations that the others share |

Code that changes things step by step is modelled by classes and loops over fields, arrays and maps;
a method is tied to a specification by its postcondition, and the properties are proved of the
specification. What each main operation gives is also stated of its inputs and its result alone, without
the functions of the specification: by positions in the input, an order on them, and conditions on single
elements. A Go map is visited in an arbitrary order wherever the program ranges over one, so
every result holds for all orders.

Some promises do not hold on all inputs. For those the model keeps the behaviour of the code and the
lemma says exactly when the promise holds:

- rebuilding a path from the recovered base (`Endpoints.RebuildExact`, with the example
  `Endpoints.SlashBeforeAnchorIsLost`);
- finding a route by its name when flattening: a route of a service without a name and a route without
  a service are not found (`DBLess.RouteRefExact`, with the example `DBLess.PluginLosesItsRoute`), and two
  such routes of one name get one ID (`DBLess.NamelessServiceCollides`);
- distinct IDs for flattened plugins: what an ID is made from names the route around a plugin but not its
  service, so equal plugins of routes of one name collide (`PluginIDs.PluginIDsExact`, with the documents
  `PluginIDs.EqualRoutesCollide`);
- a proxy plugin for each alias of a model: of two models of one name on a route only the aliases of the first
  are served (`ProxyGroups.ServedExact`, `ProxyGroups.SecondAliasIsNotServed`);
- the row of a consumer group that only a consumer names (`DBLess.UndeclaredGroupDangles`);
- lowering and lifting a `vectordb` block (`VectorDB.RoundTripExact`, with the example
  `VectorDB.FlagComesBackGrouped`), and lowering it twice (`VectorDB.LoweredTwice`, with the example
  `VectorDB.FlagInFlagIsLoweredTwice`);
- the comment on `report` says that an equal issue is not recorded again, but a skipped model replays its
  issues without that check. The final log holds an issue twice exactly if a replay adds one that the log
  ahead holds (`IssueLogs.LogRepeatsExactly`). That condition is about the run. What can be told from the
  document goes one way only: no issue is repeated if no lifecycle route fails
  (`IssueLogs.ConversionFailuresNeverRepeat`), and none if models have distinct names and each issue names its
  model or is common to all uses of a policy or strategy (`IssueLogs.SourcedNeverRepeats`). The warning about an
  ID without a place can be repeated (`RepeatedIssue.WarnedTwice`);
- labels come back from their tags exactly if no key is empty or holds a colon (`Labels.LabelsRoundTrip`). Those of
  an MCP source have to share the tags with the ones that listeners give it. A listener that could not be
  converted is unknown on the way back, so its tag stays, and if it has the form of a label it is read as one:
  the labels come back exactly if their keys are so, no listener that has a service selects one of their tags, and
  each tag that stays is no label or one of a key that the source has, with a value that is not larger
  (`MCPSources.LabelsRecovered`; `MCPSources.FailedListenerLeavesTag` says what is read otherwise, with the
  examples `MCPSources.TagBecomesLabel`, `MCPSources.TagOverwritesLabel` and `MCPSources.TagIsNoLabel`);
- the sort of the reverted models asks for the document order exactly if no model opens an HTTP route behind
  a model with a WebSocket route (`DocumentOrder.DocumentOrderRespected`), because the WebSocket routes are
  emitted behind all others. Otherwise it can give up or reverse the models
  (`DocumentOrder.RealtimeStopsTheSort`, `DocumentOrder.RealtimeReverses`).

## Model

| member | source | states |
|---|---|---|
| `ModelPasses.Converter.ConvertModels` | convert/model.go:213-221 | there are at most as many passes as models plus one; each failed pass ran its calls as the source orders them and saved the issues of exactly the call that stopped it; the last one ran to its end, from the survey over the calls and the assembly to the finished document and log, and that document is the one of a clean pass without the failed models |
| `ModelPasses.Converter.ConvertModelsPass` | convert/model.go:225-333 | a pass behaves as specified, reports success or adds the failed model with the issues of its call, and leaves the saved issues of earlier models intact although the buffer is shared |
| `ModelPasses.Converter.CompletePass` | convert/model.go:251-332 | the part of a pass behind the models, in which a lifecycle route can fail a model too |
| `ModelPasses.Converter.ConvertModelOnce` | convert/model.go:354-365 | a skipped model only replays its issues; a failure saves a copy of exactly the issues of the call |
| `ModelPasses.Converter.TryPass` | convert/model.go:214-220 | after a failed pass the document and the log are again those of the start, the log by truncating a buffer that later appends overwrite |
| `ModelPasses.Converter.Report` | convert/issue.go:136-154 | an issue is appended unless the log holds an equal one |
| `ModelPasses.VideoLifecycleCandidates` | convert/model.go:1099-1172 | the candidates are the eligible models that are not skipped, in document order |
| `ModelPasses.Converter.Assemble` | convert/model.go:256-325 | the document and the state are those that the assembly gives, and the log keeps its prefix and gains what the assembly reports |
| `Passes.SkippingIsDeleting` | convert/model.go:225-333 | failure isolation: a pass that skips models and runs to its end gives the document and the state of a pass over the source with those models deleted |
| `Passes.PassStops` | convert/model.go:351-365 | a pass stops only at a model that it does not skip, so the restarts end |
| `ModelPasses.FailsAgain` | convert/model.go:213-221 | one more failed pass extends the history of failures by a new model with the segment of its call |
| `ModelPasses.FailuresBreak` | convert/model.go:213-365 | each saved segment is that of the call at which one of the failed passes broke off, and the calls ahead of it did what the source says |
| `PassRuns.PassTraced` | convert/model.go:213-365 | a pass is a run of calls: the survey, one call or replay for each model in order, and, unless no route was opened, the assembly and one call for each lifecycle candidate; each call starts from what the one before left, adds its new issues once and in order, and the run ends by finishing the document or at the call that fails |
| `PassRuns.DocumentOfRun` | convert/model.go:225-333 | if each step only appends, the document of a run is the one at the start, then what the conversions of the kept models append in document order, then, if any route was opened, what the assembly and the lifecycle routes append, and then what finishing appends |
| `Issues.ReportsAddNew` | convert/issue.go:133-154 | reporting adds exactly the issues that the log lacks, each once, in the order of their first reports |
| `IssueLogs.LogRepeatsExactly` | convert/model.go:213-221 | after all restarts the log holds an issue twice exactly if some skipped model replays one that the log ahead of it holds |
| `IssueLogs.ConversionFailuresNeverRepeat` | convert/model.go:213-365 | for any conversion steps, if the survey reports issues of its own: if no lifecycle route fails, the log never holds an issue twice, since each failure comes later in the document and a replay finds the log that the failed call found |
| `IssueLogs.SourcedNeverRepeats` | convert/model.go:213-365 | if models have distinct names, and issues name their model or are common issues that each successful conversion reports, the log never holds an issue twice, whichever calls fail |
| `RepeatedIssue.WarnedTwice` | convert/model.go:1855-1868 | a run over five models, two of one name, in which one warning about an ID is first reported and then replayed, next to the errors of the two models that fail |
| `Issues.ReportAll` | convert/issue.go:133-154 | reporting issues keeps the log as a prefix and adds exactly those issues as elements |
| `GoSlices.Append` | convert/issue.go:153 | appending writes the shared array only behind the slice, and keeps what every shorter slice denotes |
| `GoSlices.Clone` | convert/model.go:361 | a clone has an array of its own with the same elements |
| `Rollback.Converter.ConvertEntity` | convert/issue.go:219-228 | a failed entity leaves every list of the document denoting what it denoted before, plugins of consumers included, although the snapshot copies only the slices; the steps append to any list, consumers included, replace any list by an edited clone, or write behind the snapshot |
| `Rollback.Converter.ConvertPasses` | convert/model.go:207-221 | one shallow snapshot can be restored any number of times; only the last pass shows |
| `Rollback.AddsAppend` | convert/issue.go:219-228 | if the steps on a list only append, the list ends up with what they append, in order, behind what it held |
| `Rollback.AddPersonOver` | convert/consumer.go:34-72 | appending a consumer, in place or not, leaves the consumers of a snapshot as they were |
| `Rollback.Converter.EnsureAnonymousConsumer` | convert/authstrategy.go:742-788 | afterwards each consumer called anonymous rejects every request, one is added if there was none, the others are as before, and a snapshot taken before is untouched |
| `Rollback.WithPlugin` | convert/authstrategy.go:810-824 | returns a fresh copy with the plugin in place, or the very slice if nothing changes |
| `Rollback.SecuredTwice` | convert/authstrategy.go:742-788 | ensuring the anonymous consumer again changes nothing |
| `Rollback.SecuredMeans` | convert/authstrategy.go:742-788 | each consumer whose name or custom ID is anonymous gets request-termination in place of its first plugin of that name or behind all, the others stay as they were, and exactly if there was none one such consumer is added |
| `Rollback.WithMeans` | convert/authstrategy.go:810-824 | the plugin stands in place of the first one of its name or behind all, and every other plugin is as before |
| `AuthSharing.ModelPass.ConvertPass` | convert/model.go:225-333 | a pass succeeds exactly if each model can be converted; then two requests have one route exactly if section, endpoint, mantle flag, config and strategies agree and either both are HTTP or both are WebSocket requests of models of one name; each route is named after its endpoint, lists each model that it serves once and no other, and has exactly the strategies of these models as its auth plugins; there is one lifecycle route for each model that gets one, in order, and no two routes coincide |
| `AuthSharing.SameKey` | convert/model.go:583-616 | two requests have one group key exactly if all that a route matches and protects agrees, and for WebSocket requests the names of the models |
| `AuthSharing.RoutesFound` | convert/model.go:583-649 | every request has a route that lists its model, there are no routes without requests, and requests share routes exactly as they have to |
| `AuthSharing.ModelPass.ConvertModels` | convert/model.go:560-938 | the loop over the models succeeds exactly if each can be converted; then all models on a route have one set of strategies, the auth plugins of the route are exactly that set, each once, and fall back to the anonymous consumer only if there are several |
| `AuthSharing.ModelPass.ConvertVideoLifecycle` | convert/model.go:975-1066 | a lifecycle route gets a fresh name and the strategies of its model, and every other route stays protected |
| `AuthSharing.ModelPass.ConvertModel` | convert/model.go:583-938 | a model converts exactly if each of its strategies can be built and no WebSocket route needs several; the invariant of the routes is kept |
| `AuthSharing.ModelPass.ScopedAuthStrategies` | convert/authstrategy.go:41-73 | one strategy for each distinct reference in the order of first mention, or failure exactly if a reference is unknown or cannot be built |
| `AuthSharing.ModelPass.JoinGroup` | convert/model.go:583-649 | a model joins the group of its request, which is made under a fresh route name if it is new |
| `AuthSharing.ModelPass.ProtectRoute` | convert/model.go:897-938 | the plugins of a route are written once, and refused for a WebSocket route with several strategies |
| `AuthSharing.WritePlugins` | convert/model.go:897-938 | writing the plugins of one route protects it and leaves every other route as it was |
| `AuthSharing.AuthStrategyKey` | convert/model.go:1077-1091 | the key is the sorted references, each once, joined |
| `AuthSharing.AuthKeyExact` | convert/model.go:1077-1091 | two lists of references have one key exactly if they name the same strategies, for names that are not empty and hold no NUL |
| `AuthSharing.EmptyNameCollides` | convert/model.go:1077-1091 | an empty strategy name would give the key of no strategies |
| `AIModelRows.ExtractModelAliases` | convert/model.go:1957-1987 | the aliases are the first occurrences of the values, or the name; the duplicates are the values that occur again |
| `AIModelRows.ModelPass.WriteAIModels` | convert/model.go:1813-1852 | the rows become those specified, and the map of the pass agrees with the emitted list; the first owned alias is read only if there is one |
| `AIModelRows.ModelPass.PlaceSharedID` | convert/model.go:1855-1868 | the ID goes to the first row of the model that has none |
| `AIModelRows.ModelPass.WriteAll` | convert/model.go:305-317 | the rows of a whole pass are built model by model, with the map in agreement, and so are the plugins that are scoped to them; `WrittenRows` says what they are |
| `WrittenRows.RowsOfPass` | convert/model.go:1813-1868 | the aliases of a model are its name or the first occurrences of its values in order; those without a row get one with the labels of the model, in order, the first with its ID, and several with the first one as their group; if none was missing, the row of the first alias without an ID gets the ID; nothing else changes |
| `WrittenRows.ScopedCopies` | convert/model.go:851-893 | in order of models, routes, plugins and aliases there is exactly one copy for each plugin of a scoped model, each of its routes with a selector, and each of its aliases |
| `AIModelRows.ModelPass.AddScoped` | convert/model.go:851-893 | each plugin of a scoped model is copied for each alias on each route that has a selector |
| `AIModelRows.RowsAreAliases` | convert/model.go:1813-1852 | at the end row names are unique and are exactly the aliases of the models |
| `AIModelRows.ReferencesNameOneRow` | convert/model.go:851-893 | each plugin with an ai_models scope names exactly one row at the end of the pass |
| `AIModelRows.RowReferencedExactly` | convert/model.go:851-893 | a row is named by a plugin exactly if some model with plugins of its own has the alias, is scoped, and is on a route with a selector |
| `AIModelRows.RowsLast` | convert/model.go:1813-1868 | a row keeps its place, name and tags, and its ID once it is set |
| `AIModelRows.IDsAreKept` | convert/model.go:1813-1868 | the ID of a model stays where it was placed and no later model places one there |
| `AIModelRows.IDsArePlaced` | convert/model.go:1813-1868 | every ID in the rows was placed there by some model |
| `AIModelRows.PlaceExact` | convert/model.go:1855-1868 | a model finds no place for its ID exactly if all its rows have IDs of other models |
| `AIModelRows.FreshModelFansOut` | convert/model.go:1826-1849 | a model with several aliases that makes all its rows marks them with its first alias for good, and no row of another model gets that mark; its plugin copies are the fan-out that the reverter merges, among any plugins of other aliases |
| `ProxyGroups.RouteGroup.Join` | convert/model.go:666-804 | there is one proxy plugin for each owner key, with the aliases of the first model that has it and the targets of all, found by its key |
| `ProxyGroups.RouteGroup.EmitProxies` | convert/model.go:280-317 | the plugins emitted are the copies of those proxies, one for each alias, or one without a row |
| `RouteProxies.ProxiesMean` | convert/model.go:280-317 | there is one proxy for each model whose key no earlier model on the route has, in order, with the aliases of that model and the targets of all models with the key, model by model; each is emitted once for each alias in order, or once without a row |
| `ProxyGroups.ServedExact` | convert/model.go:666-748 | a row has a proxy plugin on a route exactly if it is an alias of a scoped model whose name no earlier model on the route has |
| `ProxyGroups.SecondAliasIsNotServed` | convert/model.go:666-748 | of two models of one name exactly the aliases of the first are served |
| `UniqueNames.RouteNames.Reserve` | convert/model.go:1427-1441 | the first free name among the base and its numbered forms, found within one more than the number of used names |
| `UniqueNames.RouteNames.ReserveAll` | convert/model.go:623 | all route names of a pass are pairwise distinct |
| `UniqueNames.SplitModelName` | revert/model.go:582-601 | the first numbered name that no row and no group has |
| `UniqueNames.FirstFreeMeans` | convert/model.go:1427-1441 | the name found is the base if that is free, and otherwise the base, a dash and the smallest number from 2 on that makes it free |
| `UniqueNames.TakenBound` | convert/model.go:1427-1441 | no more candidates in a row can be taken than there are used names |
| `UniqueNames.NumberedInjective` | convert/model.go:1427-1441 | different numbers give different names |
| `UniqueNames.DecimalRoundTrip` | convert/model.go:1427-1441 | a decimal suffix reads back as its number |
| `ModelOrder.ModelAcc.SortByRoutes` | revert/model.go:991-1065 | the result is a permutation of the keys; whenever some order respects the order of models within each route, of the first models of successive routes, and of the rows, it does so too, and each place goes to the first model in route order of which all that has to come before is placed; otherwise the keys stay as they are |
| `ModelOrder.Schedule` | revert/model.go:1020-1065 | the loop over free models gives an order that meets every requirement and takes the first free model in route order each time, or the input exactly if there is no such order |
| `ModelOrder.GreedyChoiceExists` | revert/model.go:1036-1062 | as long as some order meets every requirement, one of the models that are not placed is free |
| `ModelOrder.StuckMeansNoOrder` | revert/model.go:1055-1062 | a run that finds no free model proves that no order meets every requirement |
| `ModelOrder.BuildGraph` | revert/model.go:994-1019 | the edges and counters are exactly those of the adjacencies and of the first models of successive routes |
| `ModelOrder.RoutePairsMean` | revert/model.go:1024-1032 | the pairs are exactly the neighbours on a route and the leaders of two routes with none but empty ones between |
| `ModelOrder.ModelAcc.OrderedModelKeys` | revert/model.go:947-981 | all models are listed once: those with a row first, in row order and of several with one name the last; then the unsplit ones, then the split ones, each in document order; with splits the order is the best one and the rows go to the first models |
| `ModelOrder.ListedInOrder` | revert/model.go:947-983 | of two models that are listed the one with the earlier row comes first, one with a row ahead of one without, an unsplit one ahead of a split one, and two of one kind in their old order |
| `ModelOrder.ModelAcc.LayoutMeans` | revert/model.go:991-1032 | what the sort has to respect are the neighbours on each route, the first models of successive routes, and for the rows the places of the families in the listing |
| `ModelOrder.ModelAcc.GiveEntriesToFirst` | revert/model.go:1067-1086 | the names in the shared group objects change exactly as specified |
| `ModelOrder.ListedPermutes` | revert/model.go:947-981 | listing models by their rows and then the others loses and repeats none |
| `ModelOrder.ExchangeNames` | revert/model.go:1079-1096 | two groups exchange names, and the value of a single alias follows the name |
| `DocumentOrder.JoinGroups` | convert/model.go:606-649 | a model opens the groups that it is the first to ask for, in order, and joins each of its groups once |
| `DocumentOrder.EmitRoutes` | convert/model.go:256-331 | the routes emitted are those of the groups in the order in which models open them, HTTP ahead of WebSocket, each with its models in document order |
| `EmittedRoutes.RoutesMean` | convert/model.go:256-331 | each group that some model asks for gives one route, with the models that ask for it in document order; HTTP routes come first, and the routes of one protocol in the order in which their groups were first asked for |
| `DocumentOrder.PairsExact` | revert/model.go:1024-1032 | what the emitted routes ask for is in document order exactly if no model opens an HTTP route behind a model with a WebSocket route |
| `DocumentOrder.DocumentOrderRespected` | revert/model.go:991-1065 | the document order meets what the sort looks for, rows included, under exactly that condition |
| `DocumentOrder.AlignedIsSorted` | revert/model.go:1055-1062 | under that condition the sort is never stuck on a converted document |
| `DocumentOrder.RealtimeStopsTheSort` | revert/model.go:1055-1062 | if the first of two models has a WebSocket route too, the routes ask for both orders and the sort gives up |
| `DocumentOrder.RealtimeReverses` | revert/model.go:991-1065 | if the first of two models has a WebSocket route only, the sort gives the opposite of the document order |
| `DocumentOrder.SortWithRealtime` | revert/model.go:991-1065 | an accumulator of the document with a model on both kinds of routes, and the sort leaving it as it is |
| `DocumentOrder.SortRealtimeFirst` | revert/model.go:991-1065 | an accumulator of the document with a WebSocket model first, and the sort reversing it |
| `EntryNames.GivenIsExchanged` | revert/model.go:1067-1086 | visiting the keys exchanges, in each family whose owner is neither first nor a fan-out, the names of the owner and of the first member, and nothing else |
| `EntryNames.NamesConserved` | revert/model.go:1067-1086 | the multiset of names is conserved |
| `EntryNames.FirstHoldsRowName` | revert/model.go:1067-1086 | afterwards the first member of each family without a fan-out owner holds the name that its owner had |
| `EntryNames.OnlyOwnerAndFirstChange` | revert/model.go:983-989 | all other members, and families with a fan-out owner, keep their names |
| `EntryNames.GivenMeans` | revert/model.go:1067-1096 | if the first member of a family that is visited is not its owner, and the owner has no more than one alias, the two exchange names; the list of aliases follows unless a member has a selector of its own |
| `EntryNames.OthersKeepNames` | revert/model.go:1067-1096 | all other members are as before |
| `AliasMerge.MergeableAliasFKs` | revert/model.go:675-736 | the plugins come in the order specified, with the redirections specified, for the classes of the plugins |
| `AliasMerge.MergePermutes` | revert/model.go:675-736 | the merge loses and repeats no plugin |
| `AliasMerge.CanonicalLeads` | revert/model.go:675-736 | the canonical member of a class comes ahead of its other members |
| `AliasMerge.OthersKeepOrder` | revert/model.go:675-736 | plugins that are not moved ahead keep their old relative order |
| `AliasMerge.SpotsDecide` | revert/model.go:713-735 | the order of the merged plugins is decided: each stays where it was, but the canonical member of a class comes right ahead of the first one |
| `AliasMerge.InOneClassExactly` | revert/model.go:675-700 | two plugins are of one class exactly if their rows have one marker, which is not empty, and the plugins agree on all but the aliases of their targets |
| `AliasMerge.MarkedIsCanonical` | revert/model.go:690-712 | if the alias of the marker is in a class, it is canonical for every order of the plugins |
| `AliasMerge.RedirectsMean` | revert/model.go:713-735 | exactly the aliases of other members are redirected, each to the canonical alias of the last class in which it is one |
| `AliasMerge.FanOutMerges` | revert/model.go:675-736 | on a route with any other plugins, the copies of one model that made all its rows merge: the copy of its first alias leads the others, and exactly the other aliases are redirected to it |
| `Lint.RoutesOverlapExact` | convert/lint.go:186-204 | two routes overlap exactly when some request matches both |
| `Lint.HostsOverlapExact` | convert/lint.go:222-246 | two host patterns overlap exactly when some host matches both |
| `Lint.HeadersOverlapExact` | convert/lint.go:249-268 | two header sets overlap exactly when some headers satisfy both |
| `Lint.PrefixesOverlapExact` | convert/lint.go:272-297 | two CIDR ranges overlap exactly when some address is in both |
| `Lint.CIDRPortsOverlapExact` | convert/lint.go:272-297 | two source or destination entries overlap exactly when some peer matches both |
| `Lint.ListsOverlapExact` | convert/lint.go:206-217 | lists overlap exactly when one value is accepted by both, where an empty list accepts anything |
| `Lint.RefinesNarrows` | convert/lint.go:131-146 | each request that matches a refining route matches the refined one |
| `Lint.RefinesTransitive` | convert/lint.go:131-183 | refinement is transitive |
| `Lint.RefinesAsymmetric` | convert/lint.go:131-183 | no route refines itself and no two refine each other |
| `Lint.RefinesExactly` | convert/lint.go:131-183 | a route refines another exactly if it has hosts where the other has none, or more headers, and each of its lists and headers is within that of the other, where an empty list accepts anything |
| `Lint.AddedHostsRefine` | convert/lint.go:131-134 | adding hosts to a route without any refines it, and not the other way round |
| `Lint.AddedHeaderRefines` | convert/lint.go:131-134 | adding a header refines a route |
| `Lint.HeadersWithinCount` | convert/lint.go:165-183 | headers within those of another route are at least as many, by a pigeonhole on case-distinct names |
| `Lint.RefiningRoutesOverlap` | convert/lint.go:28-50 | a refining route always overlaps the refined one |
| `Lint.WarnRoutingConflicts` | convert/lint.go:28-50 | the issues reported are exactly those specified for the pairs of entries, and for well-formed routes an issue is new exactly if it blames an owner of the later route for a pair that some request reaches and that nothing decides |
| `Lint.LintIsExact` | convert/lint.go:28-119 | an owner of the later route is blamed exactly for the pairs that some request reaches and nothing decides, unless it owns the earlier route |
| `Endpoints.TrimRegexEndAnchor` | internal/aimap/endpoints.go:690-707 | one end anchor is dropped, found by counting backslashes from the right |
| `Endpoints.AnchoredIsLastToken` | internal/aimap/endpoints.go:690-707 | counting from the right agrees with a reader that takes escapes from the left, on every string |
| `Endpoints.BuildRoutePath` | internal/aimap/endpoints.go:646-688 | building the path step by step gives the path specified |
| `Endpoints.RecoverySucceeds` | revert/endpoints.go:117-168 | for every base and spec the path that is built gives a base back |
| `EndpointSearch.BasePathExact` | revert/endpoints.go:117-168 | the base is exactly what stands ahead of the suffix; ahead of a pattern it is what stands ahead of its text, or else of the first place where its literal head stands, if the rest matches; a path that is no regex has no base for a pattern |
| `EndpointSearch.TrimmedExactly` | internal/aimap/endpoints.go:653-657 | exactly the trailing slashes of a base path are cut |
| `EndpointSearch.LiteralHeadMeans` | revert/endpoints.go:144-149 | the literal head of a pattern ends at its first group, class or escape |
| `Endpoints.RebuildExact` | revert/endpoints.go:117-168 | the recovered base builds the same path exactly if, in a regex route, the body has no further marker, slash or end anchor to lose |
| `Endpoints.SlashBeforeAnchorIsLost` | internal/aimap/endpoints.go:646-688 | the condition is not empty: the base `~/foo/$` gives a path of `~/foo/`, and the recovered base gives one of `~/foo` |
| `EndpointRecovery.ResolveEndpoint` | revert/endpoints.go:54-115 | the match is the first survivor of all filters, with its ties, for whatever order the table is enumerated in |
| `EndpointSearch.MatchMeans` | revert/endpoints.go:54-115 | the search starts from the endpoints of the type of the route, or if there are none from those of its name or path; name, category and path each leave those that pass, or all if none does; the endpoint found has the least capability of those left, and its ties are the other capabilities with an equal endpoint, each once and sorted |
| `EndpointRecovery.GeneratorSurvives` | revert/endpoints.go:54-115 | the endpoint that a route was built for survives every filter, also under a numbered name |
| `EndpointRecovery.BuiltRoutesResolve` | revert/endpoints.go:54-115 | the search succeeds on every route that the converter builds, on an endpoint that fits its type, category, path and plain name; if all that fit are equal to the generating one, so is the endpoint found, and the generating capability is the match or a tie |
| `EndpointRecovery.ToldRoutesResolve` | revert/endpoints.go:54-115 | a route gives back the endpoint that it was built for, if each other entry differs from that in type, category or the end of its path, or, under a plain name, in its label |
| `EndpointRecovery.OpenAIResolves` | internal/aimap/endpoints.go:310-385 | in the openai section every route gives back its endpoint, whatever its base path and number |
| `EndpointRecovery.RouteLabelsEndInLetters` | internal/aimap/endpoints.go:288-582 | no route label ends in a digit, so a numbered name never ends in a label |
| `DBLess.ToDBLess` | internal/kong/to_dbless.go:28-222 | the rows, members and plugins are those specified, in order; `FlatDocument` says what they are |
| `FlatDocument.FlattensAll` | internal/kong/to_dbless.go:28-222 | each service, consumer, group and model has one row, with the ID given to the last one of its name or made from the name; each route has one row with the ID of its service; each plugin in the lists of the document has exactly one flat plugin, in order, with its name, content and ID, scoped to the row of the entity around it or to the rows that it names; each membership is there once |
| `DBLess.LookupRoute` | internal/kong/to_dbless.go:347-358 | a route name is looked up to the ID of some key that ends in it, or to nothing if there is none |
| `DBLess.ScopesPreserved` | internal/kong/to_dbless.go:28-251 | each plugin is kept with its name and content, and its scope refers to exactly the entities that it was nested under or named |
| `DBLess.RouteRefExact` | internal/kong/to_dbless.go:347-358 | a route name is found exactly if a service with a name has such a route, and then gives the ID of one |
| `DBLess.PlainNameLeads` | internal/kong/to_dbless.go:347-358 | without separators in names, a name leads to one route exactly if one named service has one such route |
| `DBLess.PluginLosesItsRoute` | internal/kong/to_dbless.go:347-358 | a plugin that names the route of a nameless service comes out without any scope |
| `DBLess.LookupRefers` | internal/kong/to_dbless.go:340-345 | with distinct names and IDs, a name is looked up to the ID of its row and of no other row |
| `DBLess.RouteRowRefers` | internal/kong/to_dbless.go:48-112 | the ID of a route row refers to that row alone and leads to its service |
| `DBLess.MembersRefer` | internal/kong/to_dbless.go:128-149 | a membership names the rows of the consumer and of the group, if the group is declared |
| `DBLess.UndeclaredGroupDangles` | internal/kong/to_dbless.go:132-137 | a membership of an undeclared group is emitted and names no row, unless some group was given that very ID |
| `DBLess.NamelessServiceCollides` | internal/kong/to_dbless.go:52-106 | a route of a nameless service and a route without a service have one ID if they have one name |
| `PluginIDs.PluginKeyExact` | internal/kong/to_dbless.go:74-207 | what an ID is made from tells the plugin name, the position and the entity around it, but not the service of a route |
| `PluginIDs.PluginIDsExact` | internal/kong/to_dbless.go:74-207 | flattened plugins have distinct IDs exactly if no given ID is taken twice or made for another plugin, and no two plugins without one have one name and position in routes of one name |
| `PluginIDs.EqualRoutesCollide` | internal/kong/to_dbless.go:74-78 | the same plugin on routes of one name in two services gets one ID, while the routes get two |
| `Labels.LabelsToTags` | internal/aimap/tags.go:12-25 | one tag for each label, in the order of the keys |
| `Labels.TagsListed` | internal/aimap/tags.go:12-25 | the tags are the prefix, the key, a colon and the value for each key in order |
| `Labels.TagsToLabels` | internal/aimap/tags.go:30-48 | the labels that tags are read as, the last one of a key, and the tags that are none, in order |
| `Labels.ReadsLast` | internal/aimap/tags.go:30-48 | a label is read exactly if the last of the tags that spell a label of its key spells it |
| `Labels.RestPicks` | internal/aimap/tags.go:30-48 | the other tags are those that spell no label, in order |
| `Labels.ParseExact` | internal/aimap/tags.go:31-42 | a tag is read as a label exactly if it is the tag of that label and the key is not empty and holds no colon |
| `Labels.ReadExact` | internal/aimap/tags.go:30-48 | tags in order are read as given labels exactly if each is given and no other key or larger value is |
| `Labels.LabelsRoundTrip` | internal/aimap/tags.go:8-48 | labels come back from their tags exactly if no key is empty or holds a colon |
| `MCPSources.Converter.ConvertMCPServers` | convert/mcp.go:31-55 | the services of the document stay in place, followed by those of the servers that convert and stay, in order, each gated as it has to be and tagged by exactly the listeners that name it |
| `MCPOutcome.ServicesMean` | convert/mcp.go:31-184 | behind the services there were, the servers that can be converted have theirs, in order, unless they are conversion-only and no listener names them, or have a gate policy where they need the gate; each is gated exactly if it is an upstream server or a conversion-only one that is named, and carries the tags of its labels in key order and the tags of exactly the listeners that name it, each added once and sorted |
| `MCPSources.Converter.ConvertServers` | convert/mcp.go:57-184 | each convertible server gets its service, with a gate if it is an upstream server or an exposed conversion-only one, and fails if it has such a policy of its own |
| `MCPSources.Converter.WireListenerSources` | convert/mcp.go:205-247 | each source gets the tags of all listeners that name it |
| `MCPSources.Converter.ExposedSources` | convert/mcp.go:249-262 | exactly the names that some listener lists |
| `MCPSources.Converter.PruneUnexposedSources` | convert/mcp.go:264-300 | the conversion-only services that no listener names are dropped and the others keep their order |
| `MCPSources.AddTag` | convert/mcp.go:331-340 | a tag is added and the tags sorted, unless it is there |
| `MCPSources.ConversionOnlyStays` | convert/mcp.go:139-154 | a conversion-only server has a service in the end exactly if it converts and some listener names it, and it is then gated |
| `MCPSources.Reverter.IndexListenerSources` | revert/mcp.go:19-62 | the bucket tags are those of the listeners, and each listener has its collected sources, sorted |
| `MCPOutcome.CollectedMeans` | revert/mcp.go:19-62 | a listener collects a service once for each tag of the plugin of the service whose last selecting service has the name of the listener, unless the service has that name itself |
| `MCPOutcome.BucketsMean` | revert/mcp.go:30-45 | the bucket tags are exactly those that some service selects |
| `MCPSources.Reverter.StripBucketTags` | revert/mcp.go:64-77 | the tags that are not bucket tags, in order |
| `MCPSources.SourcesRecovered` | revert/mcp.go:19-62 | the reverter gives a listener exactly the servers that it names and that have a service, other than itself, each once |
| `MCPSources.NoSourcesForOthers` | revert/mcp.go:19-62 | a server that is not a listener with a tag gets no sources |
| `MCPSources.Reverter.ReadLabels` | revert/mcp.go:88-91 | the labels read from the plugin tags that are not bucket tags, or from those of the service if there are none |
| `MCPOutcome.LabelsReadMean` | revert/mcp.go:64-91 | the labels are read from the tags of the plugin without the bucket tags, or, if these spell none, from those of the service without them; of several tags for one key the last counts |
| `MCPSources.LabelsReadExact` | revert/mcp.go:64-91 | with plain keys, the keys read are those of the labels and of the tags of listeners without a service, unless a listener selects the tag, each with its largest value |
| `MCPSources.LabelsRecovered` | revert/mcp.go:64-91 | the labels come back exactly if their keys are plain, none of their tags is selected by a listener with a service, and each tag of a listener without one is no label or has a key of the server and no larger value |
| `MCPSources.FailedListenerLeavesTag` | revert/mcp.go:64-91 | if the listeners that fail have one tag, the labels come back with it, unless it is no label or has a smaller value |
| `MCPSources.TagBecomesLabel` | revert/mcp.go:64-91 | the tag mcp-listener:aggregate-id of a listener that fails comes back as a label of its source |
| `MCPSources.TagOverwritesLabel` | revert/mcp.go:64-91 | the tag env:prod of a listener that fails replaces the label env:dev of its source |
| `MCPSources.TagIsNoLabel` | revert/mcp.go:64-91 | the tag hub-tools of a listener that fails has no separator and changes nothing |
| `EqualPaths.KeepEqualPaths` | convert/model_endpoints.go:192-223 | each path is kept for its owner only, whatever order the targets are visited in |
| `KeptPaths.KeptMeans` | convert/model_endpoints.go:189-223 | an endpoint stays exactly if its format is the first listed one with an endpoint of the same suffix and kind in any target, or has no name and no listed one has such an endpoint; endpoints and pairs stay in order, and pairs that keep none go |
| `EqualPaths.FindOwners` | convert/model_endpoints.go:193-210 | the owner of a path is the first format that serves it for any target |
| `EqualPaths.OneFormatPerPath` | convert/model_endpoints.go:189-223 | a path keeps exactly one format, the earliest that serves it |
| `EqualPaths.PathLostExactly` | convert/model_endpoints.go:189-223 | a path is lost altogether exactly if no listed format serves it |
| `EqualPaths.OrderKept` | convert/model_endpoints.go:211-223 | exactly the pairs that keep a spec stay, in their order, each with its format, its capability and the specs that it keeps |
| `EqualPaths.KeptTwice` | convert/model_endpoints.go:189-223 | keeping equal paths again removes nothing |
| `VectorDB.VectorDBToPlugin` | internal/aimap/vectordb.go:45-83 | lowering gives what is specified, for some choice where a setting stands in two places |
| `VectorDBShapes.LoweredMeans` | internal/aimap/vectordb.go:20-140 | key by key: the common keys and other strategies stay on top; all other keys, and those of a sub-block under the name of the strategy, are nested there if there are any; of them each group that is an object gives way to one key for each field, with the bare name of the group for enabled; any other value is returned as it is |
| `VectorDB.VectorDBFromPlugin` | internal/aimap/vectordb.go:91-113 | lifting gives what is specified, group by group |
| `VectorDBShapes.LiftedMeans` | internal/aimap/vectordb.go:20-163 | key by key: the sub-block of the strategy is spread over the rest; the keys of each group become one object, if there are any, with enabled for the bare name; all other keys are as they were; a block without such a sub-block is returned as it is |
| `VectorDB.Block.FlattenGroups` | internal/aimap/vectordb.go:125-140 | each group that is an object is spelled out as flat keys |
| `VectorDB.Block.GroupFlatKeys` | internal/aimap/vectordb.go:144-163 | the flat keys of each group are collected in an object |
| `VectorDB.RoundTripExact` | internal/aimap/vectordb.go:45-113 | lifting a lowered block gives it back exactly if it has no sub-block of its own, its groups are objects with fields, no key has the form of a flat key, and no plain value stands under the name of the strategy beside settings |
| `VectorDB.FlagComesBackGrouped` | internal/aimap/vectordb.go:45-113 | a plain `ssl` flag comes back as a group with that flag |
| `VectorDB.LoweredTwice` | internal/aimap/vectordb.go:32-83 | for every order of the maps lowering again changes nothing, exactly if no group, as a setting or in the sub-block, has an object under its enabled field |
| `VectorDB.FlagInFlagIsLoweredTwice` | internal/aimap/vectordb.go:32-83 | a flag inside a flag is taken out only by the second lowering |

## Left out

- YAML and JSON encoding, the command line and file access: plumbing over libraries.
- `StableUUID` is an uninterpreted injective function that gives no empty ID; the rows of a kind are assumed to have distinct IDs.
- `ModelPasses.Converter.ConvertModels`: the conversion steps are arbitrary functions of the document, the pass state and the model. The memo of warnings about credential managers (convert/authstrategy.go:403-413) outlives a restart and is not modelled.
- `ModelPasses.VideoLifecycleCandidates`: which models are eligible, and what the survey reports, are parameters; the targets of a candidate and the warnings about targets and shared routes are not derived.
- `IssueLogs.SourcedNeverRepeats`: that each issue of the converter names its model, or is reported by each conversion that uses the policy or strategy, is assumed of the steps, not derived from each report in convert.
- `RepeatedIssue.WarnedTwice`: that the auth strategy of the second twin is unknown and that the lifecycle route of the model "second" fails are part of the steps; a warning is modelled by the names of the model and of the row, without the owner of the row, which is the same model both times, and the other warnings about shared rows are left out.
- `Rollback.Converter.ConvertEntity`: a conversion is any sequence of appends, replacements by edited clones, and writes behind the snapshot; which steps each entity takes is not modelled. Only consumers have slices inside; the other entities are values.
- `AuthSharing.ModelPass.ConvertPass`: of a model only its auth strategies, the routes that it asks for and whether it gets a lifecycle route are modelled.
- `AuthSharing.ModelPass.ConvertModels`: the other reasons for which a model can fail, its proxy plugins, selectors and policies are not modelled; `ModelPasses` has the restarts.
- `AuthSharing.ModelPass.ConvertModel`: succeeds by its authentication alone, for the same reason.
- `AuthSharing.ModelPass.ConvertVideoLifecycle`: the data store, vector database and policies of the model, which can make the call fail, are not modelled.
- `AIModelRows.ModelPass.AddScoped`: the plugins of a model are given, and its proxy plugin is one of them only if no earlier model on the route has its name, as `ProxyGroups` has it; the order among plugins without an ai_models scope is not kept.
- `AIModelRows.RowReferencedExactly`: is about the plugins that a model has of its own; which rows the shared proxy plugins name is in `ProxyGroups`.
- `ProxyGroups.RouteGroup.EmitProxies`: passthrough models, which have a key of their own and no rows, are not modelled, nor are capabilities that collapse onto a proxy of another category.
- `AIModelRows.ReferencesNameOneRow`: the names of the plugins of a model are given; which policies it has is not derived, and the order among plugins without an ai_models scope is not kept.
- `AliasMerge.FanOutMerges`: assumes that no other plugin of the route has one of the aliases, as Kong does, which keeps one plugin for each route and model.
- `Lint.RoutesOverlapExact`: assumes header names within a route that differ ignoring case, and host patterns of two or more characters with a wildcard at one end at most. Letter case is folded for ASCII only, a header regex stands for a class of values of its own, and parsing addresses is uninterpreted.
- `Endpoints.RecoverySucceeds`: the Go regular expression engine is an arbitrary predicate; the branch that uses it is never needed for paths that the converter builds.
- `EndpointRecovery.BuiltRoutesResolve`: routes with the second set of Bedrock paths (internal/aimap/mantle.go, `RoutePaths`) are not modelled. That no other entry of the table fits a route is a premise, which is proved for the openai section (`EndpointRecovery.OpenAIResolves`); `EndpointRecovery.ToldRoutesResolve` says what has to hold of the others.
- `ModelOrder.ModelAcc.SortByRoutes`: assumes distinct `ai_models` names, as the data plane does.
- `DocumentOrder.DocumentOrderRespected`: for models of one alias that the reverter recovers one by one, such as models with different route configs; models that merge into one group or that fall apart into several are not modelled.
- `DBLess.ScopesPreserved`: assumes, unlike `FlatDocument.FlattensAll`, distinct names and IDs of the entities of a kind, distinct keys and distinct joined names ("service:route") of routes, and plugins that name entities of the document, a route by a name that leads to one route of a named service only. A nested plugin's own references are dropped by the code, which the target of a nested plugin says. Certificates, SNIs, vaults, credentials and the splitting of service URLs are field copies.
- `MCPSources.LabelsRecovered`: the converter and the reverter are given one label tag prefix.
- `MCPSources.SourcesRecovered`: assumes distinct server names, distinct listener tags and labels of which no tag is that of a listener. Token Vault callback routes are not pruned here.
- `VectorDB.RoundTripExact`: which settings a strategy has is not checked by the code and not modelled.
- Text of issues, provenance metadata, version gates, provider options and authentication, Token Vault and MCP OAuth2 blocks, proxy and certificate fields: long case analyses or copies that would only add easy members.
- Merging selector shapes on a route (`addSelector`) and collecting the endpoints of a target (`targetPairs`): table lookups and unions.
