# Proofs about the in-memory core of cpa-core

cpa-core is an AI proxy. Around a lot of HTTP, login and storage plumbing it keeps a few in-memory
components whose correctness is not visible from any one function. This project models those
components in Dafny, in the form the Go code has (classes for the objects whose fields change,
methods with loops for the loops, functions where the code computes a value), and proves what they
keep over every call, every run and every interleaving.

`dafny verify dfyconfig.toml` checks everything.

| files | component |
|---|---|
| `RegistryModel`, `ModelRegistry`, `RegistryProofs`, `ProviderListing`, `ProviderRanking` | the reference-counted model registry with cooldowns, suspensions and its answer cache |
| `YamlTree`, `YamlMerge`, `YamlProofs`, `YamlReading`, `YamlMatching`, `YamlNames`, `YamlSettled` | the comment-preserving YAML merge: on tree values, in place on linked nodes, what it preserves, what the loader reads afterwards, how it matches sequence elements and by what it recognises them, when a second merge changes nothing |
| `UsageQueue`, `UsageFanout`, `UsageOffers` | the usage queue, the fan-out to subscribers, and calls of Enqueue that take the lock once for each |
| `Resp`, `RespWire`, `RedisSession`, `RedisCommands`, `RedisConnection` | the RESP reader and writer, one connection's commands as a run over the shared queue, what each command answers, and the connection loop itself |
| `Thinking`, `ThinkingProofs`, `ThinkingOutcomes` | the thinking-config normaliser, what its results may be relied on for, and what each kind of request comes out as |
| `EventWriter`, `EventOverflow` | the request event writer with its emitters and its consumer, and what a full channel costs |
| `HomeFailover` | the home client's choice of node |
| `Wildcard`, `Exclusion`, `AccountExclusion` | the two excluded-model matchers, how far they agree, and which list each of them is given |
| `PathKeys` | escaping, joining and splitting of JSON paths |
| `Text` | trimming and case folding |

A method proved against a specification function says so in its contract; the lemmas then say what
that function is for. Time is an integer that does not go back; where the source reads a clock, the
model takes the reading as an argument, and one taken before waiting for a lock may be late. Where
goroutines interleave, every locked section and every step outside a lock is a step of a state
machine, and the theorem is about every sequence of steps.

## What turned out not to hold as written

The code is modelled as it is. Where a property one would expect fails, a lemma gives the exact
condition, in both directions, and where it is not plain from the condition another gives an input.

- `config.example.yaml:401-406` documents `*-preview` as matching a suffix. The matcher behind the
  management view does not hold a pattern to the end of the identifier: the two readings agree on
  every identifier exactly for patterns that have no `*` or end in one
  (`Wildcard.DocumentedReading`). The filter that decides which models are registered is another
  matcher, and it does follow the documentation (`Exclusion.MatchWildcard`,
  `Exclusion.FilterAgreesWithView`).
- The view knows a provider's patterns only. What the filter is given are an account's own entries
  and those patterns, joined with commas and split at them again (`AccountExclusion.BlockedExactly`).
  So the view can show a model as disabled that is registered: exactly if a pattern with a comma, or
  with a star but none at its end, matches it and nothing excludes it
  (`AccountExclusion.DisabledYetRegistered`). And it can show a model as enabled that is kept from
  registration: exactly if no pattern matches it, and an entry of the account's own excludes it or a
  piece of a pattern with a comma does (`AccountExclusion.BlockedYetEnabled`; inputs in
  `AccountExclusion.OwnEntryHides` and `AccountExclusion.CommaHides`).
- A save leaves out keys the file does not have where the value is false, zero, empty or a documented
  default (`internal/config/config.go:1358-1392`). The loader then reads the same value again, except
  for three settings that are on by default (`usage-statistics-enabled`, `usage.enabled`,
  `antigravity-signature-cache-enabled`) and are saved as off, for `error-logs-max-files` saved as 0,
  and for the free parameters of payload rules: switched off and saved into a file without the key, they
  are on again after the next load. That is exact (`YamlReading.SettingReadsExactly`,
  `YamlReading.DefaultReadsAbsent`; an input in `YamlReading.OffIsLost`). A new list that holds nothing
  but zeros and empty texts is lost whole (`YamlReading.BlankListIsLost`).
- One client that both rests after an exceeded quota and is suspended for another reason counts twice
  against a model: with it the model can be unavailable although another client is free. Among clients
  that list it once, it is available exactly if nobody is suspended for another reason than quota, or if
  more clients are free than are both (`RegistryProofs.AvailableExactly`,
  `RegistryProofs.FreeClientNotSeen`).
- A model's client count can be positive although every client that lists it is suspended, if a
  client lists it twice; exactly then (`RegistryProofs.CountMeansAvailable`).
- Re-registering a client in place agrees with dropping and adding it in every table, count, share
  and info, but not in the marks. On a given model the two agree exactly if no other client's mark is
  on a model this client alone lists, and none of its own on a model it newly lists
  (`RegistryProofs.MarksAgreeExactly`; an input where they differ, since setting a cooldown does not
  look at the client's list, in `RegistryProofs.MarksCanDiffer`).
- Validating a thinking config can go wrong in five ways: (1) automatic thinking on a level-only model
  becomes `medium` even where that is not supported; (2) a level `AUTO` in capitals becomes budget -1
  on a budget-only model; (3) automatic thinking that is not allowed, on the range [0,1] or with neither
  a range nor levels, becomes budget 0 where zero is not allowed; (4) a budget below -1, which a request
  body may name, becomes budget 0 on a range that starts at zero; (5) a model whose thinking support
  names neither a range nor levels (`thinking: {}`) lets any budget and any level through. For
  everything the readers of requests and suffixes hand over, a result is sound exactly outside 1, 2 and
  5 (`ThinkingProofs.SoundExactly`), and stays as it is when validated again exactly outside 1, 3, 4
  and, where budgets are checked strictly, 2 (`ThinkingProofs.RevalidatesExactly`; an input for 4 in
  `ThinkingProofs.NegativeAcrossFamilies`).
- Escaping, joining and splitting a path gives the keys back exactly if there are none or the first
  is not empty and every backslash stands before `*` or `?` or closes the last key
  (`PathKeys.RoundTrip`).
- A mapping that is a matched sequence element loses a blank key on every merge. It still says what
  the source says exactly if each value under such a key prunes to a known default
  (`YamlProofs.MatchedAgreesExactly`).
- Saving twice need not leave the file alone. What a merge leaves, the next one leaves alone if every
  sequence element of it is matched in its own place, whatever the comments; and only then, if each
  element that is not matched there has a comment other than that of what comes in its place
  (`YamlSettled.SavedTwice`; of any file that says what the source says: `YamlSettled.LeftAlone`,
  `YamlSettled.SettlesExactly`). An element whose keys stand in another order is not matched, and
  loses its comments (`YamlSettled.CanUnsettle`).
- Calls that put a usage record into the queue read the clock before they have the lock, so records
  may stand out of order. Pruning the front removes exactly what has expired exactly if no expired
  record stands behind one that is not (`UsageQueue.PruningIsExact`).
- A payload offered while usage output is on reaches no subscriber and does not go to the queue
  either, exactly if there are subscribers and every one of them is full (`UsageOffers.LostExactly`,
  `UsageFanout.FullSubscribersLoseIt`).
- Told to drop the oldest event on overflow, a call loses its own payload instead, exactly if it found
  the channel full and the consumer has emptied it before the eviction or others have filled it again
  before the second try (`EventOverflow.LosesOwnExactly`); with one emitter exactly if the consumer
  has emptied it (`EventOverflow.OneEmitterLosesOwn`), which can happen at every channel size, with
  nothing evicted and the channel empty (`EventOverflow.NewestMayBeLost`).
- The batch pending when the event writer is stopped is flushed under a context that is already
  cancelled, and so is one that fills between the cancellation and the consumer's noticing it: both
  are counted as dead letters, never stored (`EventWriter.PendingAtStopIsBuried`).

## Model

| member | source | states |
|---|---|---|
| RegistryModel.StepKeepsCounts | internal/registry/model_registry.go:268-434 | any registration step (fresh, in place, unregistering; duplicates, a changed or missing provider) keeps the index exact: a model is present iff some client lists it, its count is the sum of the clients' multiplicities, its provider counts are the same sums per provider with the zero ones absent, and infos are filed for just those providers |
| RegistryModel.PhasesAreRebound | internal/registry/model_registry.go:308-414 | the four passes of the in-place difference (move to the new provider, removals and overage, additions, metadata) amount on every entry to one atomic change of the client's multiplicity and provider |
| RegistryProofs.TablesDetermineCounts | internal/registry/model_registry.go:232-521 | two indexes that are exact for the same client tables have the same models, counts and provider counts: no order of operations can make the index drift |
| ModelRegistry.Registry.RegisterClient | internal/registry/model_registry.go:232-434 | from any valid state, whatever list is given: every entry is the one-step change of the old one, the index is exact again and no stale answer stays cached; the client is on file exactly if the list names something, with each model as often as the list names it; it counts for its provider, lower-cased, exactly if one is given too, and that provider's share of each model is at least that often; of each model the first entry naming it is on file, for the provider too |
| ModelRegistry.RawIdsMention | internal/registry/model_registry.go:238-266 | the list kept of a client names each model at just as many places as the list given |
| ModelRegistry.FirstInfosAreFirst | internal/registry/model_registry.go:238-266 | the info kept for a model is that of the first entry naming it |
| ModelRegistry.Registry.UnregisterClient | internal/registry/model_registry.go:572-634 | the client's tables are gone, every entry lost exactly the client's multiplicity, and the state stays valid |
| ModelRegistry.Registry.AddModelRegistration | internal/registry/model_registry.go:447-486 | one more listing of one model under one provider, every other entry untouched |
| ModelRegistry.Registry.RemoveModelRegistration | internal/registry/model_registry.go:488-521 | one listing less, the client's marks gone, the provider gone with its last listing and the model with its last one |
| RegistryProofs.ReconcileIsDropThenAdd | internal/registry/model_registry.go:268-434 | registering an existing client in place gives the same client tables, models, counts, provider counts and infos as unregistering it and registering it fresh |
| RegistryProofs.MarksAfterReconcile | internal/registry/model_registry.go:373-434 | after re-registering, a client has no cooldown and no suspension on any model of its old or new list, and all other marks are as before |
| RegistryProofs.MarksAfterDropThenAdd | internal/registry/model_registry.go:488-521 | dropping and adding forgets every mark on a model nobody else lists and keeps all but the client's own marks elsewhere, the client's own too on a model it did not list |
| RegistryProofs.MarksAgreeExactly | internal/registry/model_registry.go:373-521 | on a model both ways end up with, the marks are the same exactly if, before, a model only this client listed carried no other client's mark and a model it newly lists none of its own |
| RegistryProofs.MarksCanDiffer | internal/registry/model_registry.go:640-655 | two clients and a cooldown given before the model is listed: re-registering in place forgets it, dropping and adding keeps it |
| RegistryProofs.RegisterThenUnregister | internal/registry/model_registry.go:232-634 | registering an absent client and unregistering it restores the client tables, the set of models and every count and provider count |
| RegistryProofs.CountMeansAvailable | internal/registry/model_registry.go:1002-1027 | for the given client tables, every entry the registry can hold for them and every instant: a positive count implies a client that lists the model and is neither cooling down nor suspended, exactly if no client lists the model twice |
| RegistryProofs.CountHasWitness | internal/registry/model_registry.go:1002-1027 | the same for one entry, with marks of clients that do not list the model and clients that are both cooling down and suspended |
| RegistryProofs.AvailableWhen | internal/registry/model_registry.go:786-833 | whatever the marks: a listed model is available exactly if nobody is suspended for another reason than quota, or it is listed more often than there are marks less than five minutes old and such suspensions together |
| RegistryProofs.AvailableExactly | internal/registry/model_registry.go:786-833 | in terms of the clients that list it, each once: exactly if nobody is suspended for another reason, or more clients are neither resting nor so suspended than are both |
| RegistryProofs.CountExactly | internal/registry/model_registry.go:1002-1027 | the count is that of the clients neither resting nor suspended, less those that are both, never negative |
| RegistryProofs.FreeClientNotSeen | internal/registry/model_registry.go:786-833 | for every model: two clients list it, one rests and is suspended too, and the model is unavailable although the other is free |
| RegistryModel.AnswerStable | internal/registry/model_registry.go:786-833 | an answer built with the least recovery time as its expiry is the right answer at every instant before that expiry |
| ModelRegistry.Registry.BuildAvailableModels | internal/registry/model_registry.go:786-833 | the answer is one view of each available model and no other; the expiry is the least end of a cooldown still running, none if there is none |
| ModelRegistry.Registry.GetAvailableModels | internal/registry/model_registry.go:758-784 | whatever is cached and however long ago the caller read the clock, the answer is as a multiset what a rebuild would give at some instant from that reading to now |
| ModelRegistry.Registry.LookCached | internal/registry/model_registry.go:761-767 | the look under the read lock: a hit is such an answer, and nothing changes |
| ModelRegistry.Registry.LookAgainOrBuild | internal/registry/model_registry.go:769-783 | the section under the write lock, whatever happened since the first look: its answer is one too, and what it caches is right until it expires |
| ModelRegistry.Registry.SetModelQuotaExceeded | internal/registry/model_registry.go:640-655 | marks the client on a known model, whether it lists it or not; counts and cache coherence are kept |
| ModelRegistry.Registry.ClearModelQuotaExceeded | internal/registry/model_registry.go:657-672 | takes that one mark away and keeps the state valid |
| ModelRegistry.Registry.SuspendClientModel | internal/registry/model_registry.go:674-703 | records the reason unless one is there already and keeps the state valid |
| ModelRegistry.Registry.ResumeClientModel | internal/registry/model_registry.go:706-726 | takes the suspension away and keeps the state valid |
| ModelRegistry.Registry.CleanupExpiredQuotas | internal/registry/model_registry.go:1216-1235 | exactly the cooldowns that ended are removed, in every entry |
| RegistryModel.CleanupInvisible | internal/registry/model_registry.go:1216-1235 | cleaning up changes no availability and no count, now or at any later instant |
| RegistryProofs.CleanedIsResting | internal/registry/model_registry.go:1216-1235 | of every entry just the marks less than five minutes old are left, and all else |
| ModelRegistry.Registry.GetModelCount | internal/registry/model_registry.go:1002-1027 | the count less the running cooldowns and the suspensions, never negative |
| ModelRegistry.Registry.GetAvailableModelsByProvider | internal/registry/model_registry.go:878-995 | each model once, just those the provider's clients list under its trimmed identifier, that are available by the marks of the provider's own clients and of which some info is known; each with an info of one of those clients or of the index |
| ProviderListing.ListProvider | internal/registry/model_registry.go:878-995 | the same of the loops themselves, whatever the order of walking the maps |
| ProviderListing.ListedWhen | internal/registry/model_registry.go:938-990 | the same rule for one provider's listing: with the marks of the clients filed under it alone, and as often as those list the model |
| ProviderListing.SoleProvider | internal/registry/model_registry.go:786-995 | a model that only clients of this provider list, under its trimmed identifier, and only they are marked for, is in the provider's listing exactly if the listing of all models has it, and the provider offers it as often as it is counted; other models' identifiers may be anything |
| ModelRegistry.Registry.GetModelProviders | internal/registry/model_registry.go:1035-1082 | just the providers whose clients list the model, so a registered client's own among them; who lists it more often comes first, of two alike the first by name |
| ProviderRanking.RankingIsUnique | internal/registry/model_registry.go:1069-1075 | the ranking is determined by what is ranked: neither the order of walking the map nor the sorting algorithm matters |
| ProviderRanking.LessIsFirstDifference | internal/registry/model_registry.go:1069-1075 | names are compared at the first place where they differ |
| YamlProofs.MergeAgrees | internal/config/config.go:1226-1328 | after the merge the destination means what the source means: scalars by tag and value, sequences element by element (mappings in them with no keys but the source's), mappings key by key, an absent key only where the source's value prunes to a known default; empty keys included, but for mappings that are elements of a sequence |
| YamlProofs.MappingAgrees | internal/config/config.go:1226-1255 | the same for merging into the root mapping of a file |
| YamlReading.LeafKept | internal/config/config.go:1226-1328 | where a file says what the source says, every scalar of the source, in lists too, is in it with the same tag and value, or it is a known default and its place is not there |
| YamlReading.SavedLeafKept | internal/config/config.go:1226-1328 | so after a merge into any file nothing is lost but known defaults |
| YamlReading.DefaultReadsAbsent | internal/config/config.go:1358-1392 | a known default reads as its absence does, by what the loader starts from and makes of it, exactly if it is not one of the settings that are on or not zero by default, nor a free parameter |
| YamlReading.SettingReadsExactly | internal/config/config.go:626-705 | after a save the loader reads every setting as saved, exactly unless the file lacks its key and it is off where absence means on, 0 where absence means 10, or a zero among free parameters |
| YamlReading.SettingSaved | internal/config/config.go:1226-1255 | true, numbers other than zero and texts other than none, but for the documented defaults, are in the file with that tag and value |
| YamlReading.DefaultNotAdded | internal/config/config.go:1220-1255 | no false, zero, empty text, null or documented default is added to a file that lacks its key |
| YamlReading.ListKept | internal/config/config.go:1276-1312 | a list has as many elements as in the source, or is null for none, or is not there |
| YamlReading.OffIsLost | internal/config/config.go:626-638 | usage statistics switched off and saved into a file that does not mention them are on after loading it |
| YamlReading.BlankListIsLost | internal/config/config.go:1448-1459 | a list of one empty text saved into a file without its key is gone, whatever the key |
| YamlProofs.PrunedAgrees | internal/config/config.go:1396-1433 | pruning a new subtree changes nothing but defaults |
| YamlProofs.PruneMissingAgrees | internal/config/config.go:1714-1743 | dropping the keys the source lacks keeps every agreeing value and leaves no other key |
| YamlProofs.NoteKept | internal/config/config.go:1265-1328 | a merged node keeps its comments, style and anchor |
| YamlProofs.KindChanges | internal/config/config.go:1265-1328 | a node that becomes a mapping takes the source's tag, one that becomes a sequence that of sequences, and any other keeps its own |
| YamlProofs.PlacesKept | internal/config/config.go:1226-1255 | an existing mapping keeps its keys, their order and every note; new keys come after |
| YamlProofs.ForeignKeysKept | internal/config/config.go:1226-1255 | a key the source does not have keeps its whole value |
| YamlProofs.MatchedAgreesExactly | internal/config/config.go:1714-1743 | a matched element that may have blank keys still says what the source says exactly if every value under a blank key prunes to a known default |
| YamlSettled.LeftAlone | internal/config/config.go:1226-1328 | a file that agrees with the source and whose elements are all matched in their own places is left as it is by a merge, notes and order included, whatever its notes are |
| YamlSettled.SettlesExactly | internal/config/config.go:1226-1328 | a file that agrees with the source, where each element not matched in its own place has another note than what comes there, is left as it is by a merge, on every level, exactly if each element is matched in its own place |
| YamlSettled.SavedTwice | internal/config/config.go:1226-1328 | the same of saving twice, whatever file there was: what the first merge leaves, the second leaves alone if every element of it is matched in its own place, and only then where the notes tell what was moved |
| YamlSettled.CanUnsettle | internal/config/config.go:1534-1575 | an agreeing file with an element whose keys stand in another order: it is not matched, and the merge replaces it with the source's, comments and all |
| YamlMatching.ReorderIsInjective | internal/config/config.go:1512-1532 | the reordered list has the source's length, every place holds an original node or nothing, and no original is used twice |
| YamlMatching.ReuseIsMaximal | internal/config/config.go:1534-1575 | over scalars no matching by value reuses more nodes than this one, and it reuses as many as the two lists have values in common, counting repetitions |
| YamlMatching.PermutationKeepsNodes | internal/config/config.go:1512-1575 | reordering a list of scalars reuses every node |
| YamlNames.TitleIsIdentity | internal/config/config.go:1577-1617 | what the matching compares of a mapping is the first of nine naming keys that has a value and that value, without one the first pair with a scalar; white space, and capitals in keys, aside |
| YamlNames.MatchedByTitle | internal/config/config.go:1534-1575 | a mapping among the elements takes the first unused original of the same title, however their other keys, order and comments differ |
| YamlNames.SameStructure | internal/config/config.go:1619-1655 | structural equality is equality of kinds, order and scalar texts without white space around them; tags, comments and the texts of collections do not matter |
| YamlNames.MatchedByStructure | internal/config/config.go:1534-1575 | an element no unused original shares a title or text with takes the first unused one of the same structure |
| YamlMerge.YamlNode.Merge | internal/config/config.go:1265-1328 | the in-place merge of linked nodes computes the merge of the trees they stand for, and what it hangs under the destination is the destination's own or new: no node is shared with the source |
| YamlMerge.YamlNode.MergeMappingFrom | internal/config/config.go:1226-1255 | the same for mappings; the nodes of an existing mapping stay the very same nodes, in place |
| YamlMerge.YamlNode.MergeSequenceFrom | internal/config/config.go:1279-1312 | the same for sequences: reordered, updated in place, appended to and truncated |
| YamlMerge.YamlNode.ReorderForMerge | internal/config/config.go:1512-1532 | every place holds one of the old nodes themselves, or nothing |
| YamlMerge.YamlNode.PruneKnownDefaults | internal/config/config.go:1396-1433 | pruning in place computes the pruned tree and touches no other node |
| YamlMerge.YamlNode.PruneMissingMapKeys | internal/config/config.go:1714-1743 | removing pairs while walking the content computes the filtered mapping |
| YamlMerge.YamlNode.DeepCopy | internal/config/config.go:1478-1492 | an equal tree made of new nodes only |
| UsageQueue.PruningIsExact | internal/redisqueue/queue.go:221-236 | cutting off the expired front removes exactly the expired items, exactly if no expired item stands behind one that is not; nothing is supposed of the clock |
| UsageQueue.PrunedByAge | internal/redisqueue/queue.go:221-236 | pruning takes just the records before the first one whose age is within the window, in seconds |
| UsageQueue.InOrderYoungStay | internal/redisqueue/queue.go:221-236 | where the records stand in order, a record stays exactly if its age is within the window |
| UsageQueue.Queue.Enqueue | internal/redisqueue/queue.go:104-116 | just the records before the first one not older than the window (so many seconds, a minute if it is not positive) are gone, and the new one is last; where the records stand in order that is exactly the old ones; the buffer is compact |
| UsageQueue.Queue.PopOldest | internal/redisqueue/queue.go:173-199 | takes and returns so many, or as many as there are, of those an operation leaves by age, oldest first, and leaves the others; the buffer is compact |
| UsageQueue.Queue.PeekAll | internal/redisqueue/queue.go:201-219 | returns all an operation leaves by age and takes none |
| UsageQueue.Queue.MaybeCompact | internal/redisqueue/queue.go:238-252 | compaction is invisible, and afterwards the head is 0, or below 1024 and less than half of the buffer |
| UsageQueue.Queue.Clear | internal/redisqueue/queue.go:87-102 | nothing is left |
| UsageQueue.NormalizedRetention | internal/redisqueue/queue.go:49-57 | a value that is not positive gives 60 seconds, one above an hour gives 3600, any other is taken as given |
| UsageFanout.RunsAreSafe | internal/redisqueue/queue.go:87-171 | in every interleaving of locked sections, later closes and readers: no channel is closed twice or sent to after its close, what was sent to it is exactly the publications between its subscription and its removal, and what its reader took plus its buffer is what was sent |
| UsageFanout.OpenWhenUsed | internal/redisqueue/queue.go:87-171 | so in every interleaving every subscriber's channel is open, as is every channel a close is due for, and no channel has two closes due |
| UsageFanout.StretchIsFixed | internal/redisqueue/queue.go:118-171 | over any continuation of a run that stretch starts where it started, ends for good once the channel is removed, and nothing sent or published is taken back |
| UsageFanout.SubscriptionStartsHere | internal/redisqueue/queue.go:139-158 | a subscription gets a new identifier and starts at the publications made so far |
| UsageFanout.UnsubscribeEnds | internal/redisqueue/queue.go:160-171 | unsubscribing takes the channel out at once, and the close that is due closes it; other channels stay as they are |
| UsageFanout.ClearEnds | internal/redisqueue/queue.go:87-102 | clearing does so to every subscriber |
| UsageFanout.ReceiveTakes | internal/redisqueue/queue.go:139-158 | a reader takes the oldest payload of its channel, closed or not |
| UsageFanout.NobodyNothing | internal/redisqueue/queue.go:118-137 | without subscribers nothing is published |
| UsageFanout.FullSubscribersLoseIt | internal/redisqueue/queue.go:118-137 | a publication to subscribers reaches none of them exactly if every one is full, and no subscriber is left exactly then; it counts as published all the same |
| UsageFanout.Hub.PublishToSubscribers | internal/redisqueue/queue.go:118-137 | the loop over the subscribers is one publication step; it reports whether there were any |
| UsageFanout.Hub.SubscribeUsage | internal/redisqueue/queue.go:139-158 | one subscription step |
| UsageFanout.Hub.UnsubscribeLocked | internal/redisqueue/queue.go:160-171 | the locked half of unsubscribing, with the close left to come |
| UsageFanout.Hub.ClearLocked | internal/redisqueue/queue.go:87-102 | the locked half of clearing |
| UsageFanout.Hub.Enqueue | internal/redisqueue/queue.go:59-71 | a call nobody comes between: the payload goes to the subscribers if there are any and to the queue only if there are none; nothing happens when usage output is off or the payload is empty |
| UsageOffers.EveryPayloadOnce | internal/redisqueue/queue.go:59-71 | any number of callers between whose two locked sections others subscribe, unsubscribe, clear or pop: every enabled, non-empty payload offered is published, queued or waiting between its caller's sections, exactly once, and the queue is the end of what was queued |
| UsageOffers.LostExactly | internal/redisqueue/queue.go:59-71 | in every reachable state an offered payload reaches nobody and goes to no queue exactly if there are subscribers and all of them are full |
| UsageOffers.OfferUninterrupted | internal/redisqueue/queue.go:59-71 | the two sections of a call that nothing comes between amount to the plain call |
| UsageOffers.SecondQueues | internal/redisqueue/queue.go:104-116 | the second section puts the payload in the queue behind what stays by age, and the caller waits no more |
| UsageOffers.OthersMove | internal/redisqueue/queue.go:87-199 | between the sections subscribers come and go as they do by themselves, and the queue loses items from its front or is cleared |
| UsageOffers.FanoutStaysSafe | internal/redisqueue/queue.go:59-171 | the channels stay as safe in such a run as in one of whole publications |
| Resp.ArrayRoundTrip | internal/api/redis_queue_protocol.go:393-521 | reading what was written, followed by anything, gives the items back (nil as empty) and leaves exactly the rest, whatever bytes the payloads hold |
| Resp.AtoiItoa | internal/api/redis_queue_protocol.go:491-513 | a length reads back as itself |
| RespWire.NumberExactly | internal/api/redis_queue_protocol.go:393-455 | a number is an optional sign and decimal digits, the first one counting most, within 64 bits, and nothing else is |
| RespWire.WrittenNumber | internal/api/redis_queue_protocol.go:491-521 | numbers are written with a sign exactly if negative and without leading zeros, and read back |
| RespWire.LineExactly | internal/api/redis_queue_protocol.go:457-465 | a line is what stands before the first line feed, without one carriage return at its end |
| RespWire.BulkExactly | internal/api/redis_queue_protocol.go:420-455 | '$' and a length: that many bytes and a line end, or the error for what is missing; a negative length stands for nothing |
| RespWire.StringExactly | internal/api/redis_queue_protocol.go:420-433 | '+' and ':' start a line, and nothing but '$' starts another string |
| RespWire.ArrayExactly | internal/api/redis_queue_protocol.go:393-418 | '*' and a count that is not negative: that many strings; anything else is a protocol error |
| RespWire.NoNumberFails | internal/api/redis_queue_protocol.go:393-455 | without a number after the mark reading fails, for the end of the input or for the protocol |
| RespWire.WrittenAs | internal/api/redis_queue_protocol.go:491-521 | the bytes written for strings, nil and arrays |
| Resp.Reader.ReadRESPArray | internal/api/redis_queue_protocol.go:393-418 | the buffered reader returns the value or the error of the grammar and leaves what the grammar leaves |
| Resp.Reader.ReadRESPBulkString | internal/api/redis_queue_protocol.go:435-455 | the same for one bulk string: negative lengths, short input and a missing line end |
| Resp.Reader.ReadRESPLine | internal/api/redis_queue_protocol.go:457-465 | the same for one line |
| RedisSession.RunConserves | internal/api/redis_queue_protocol.go:61-224 | for any commands interleaved with any other use of the queue: what was there and what arrived is, in order, what left and what is there; the payloads in the replies are exactly what this connection took; nothing was taken before it was let in |
| RedisSession.OneReplyEach | internal/api/redis_queue_protocol.go:61-224 | every command that reaches the open connection gets exactly one reply, the SUBSCRIBE that ends the loop its acknowledgement |
| RedisSession.RepliesOnlyGrow | internal/api/redis_queue_protocol.go:61-224 | a step adds at most one reply, at the end: replies come in the order of the commands |
| RedisSession.BeforeAuth | internal/api/redis_queue_protocol.go:84-140 | before a successful AUTH a command leaves the queue alone and keeps the loop going; the connection is let in exactly by an AUTH with one or two arguments whose last one the management key check accepts |
| RedisSession.AuthStays | internal/api/redis_queue_protocol.go:136-139 | once let in, always let in |
| RedisSession.LetInByAuth | internal/api/redis_queue_protocol.go:52-140 | over any run a connection is let in exactly if an AUTH with an accepted key reached it while it was open |
| RedisCommands.SpelledIsNamed | internal/api/redis_queue_protocol.go:82 | a command's name is read from its bytes in capitals or not |
| RedisCommands.HighBytes | internal/api/redis_queue_protocol.go:82 | bytes beyond ASCII are neither white space nor letters, and all different |
| RedisCommands.PopOne | internal/api/redis_queue_protocol.go:176-217 | LPOP or RPOP with a key answers with the oldest record that is young enough and takes it, or with nil; with the usage output off with nil, and takes nothing |
| RedisCommands.PopSome | internal/api/redis_queue_protocol.go:176-217 | with a count above zero it answers with so many, or as many as there are, oldest first, and takes them; with none or another text with the range error |
| RedisCommands.PopRefused | internal/api/redis_queue_protocol.go:184-190 | any other number of arguments is answered by the argument error |
| RedisCommands.Subscribing | internal/api/redis_queue_protocol.go:141-175 | SUBSCRIBE usage, in capitals or not, leaves the loop with the acknowledgement; other channels and other numbers of arguments are refused |
| RedisCommands.Authenticating | internal/api/redis_queue_protocol.go:101-140 | AUTH lets in with a key the check accepts, and otherwise says why and changes nothing |
| RedisCommands.UnknownExactly | internal/api/redis_queue_protocol.go:218-223 | a connection that is let in is told that a command is unknown exactly for names other than the four |
| RedisCommands.Unauthenticated | internal/api/redis_queue_protocol.go:84-99 | a connection that is not let in is told to authenticate, a banned client that it is banned |
| RedisCommands.FaultLines | internal/api/redis_queue_protocol.go:74-175 | the lines that go over the wire where a command is refused |
| RedisCommands.ArgumentLines | internal/api/redis_queue_protocol.go:101-160 | those for a wrong number of arguments to AUTH and SUBSCRIBE |
| RedisCommands.PopFaultLines | internal/api/redis_queue_protocol.go:176-223 | those of LPOP, RPOP and unknown commands |
| RedisCommands.OtherLines | internal/api/redis_queue_protocol.go:52-73 | the lines for bytes that are no command and in home mode |
| RedisCommands.AckLines | internal/api/redis_queue_protocol.go:539-550 | the six lines of the acknowledgement of SUBSCRIBE |
| RedisConnection.HandleConnection | internal/api/redis_queue_protocol.go:33-225 | the loop over bytes: what is written is the replies of the session, in order, and the queue is left as the session leaves it, with other uses of the queue before each command; ends on end of input, on bytes that are no command (told so), with the routes off, when a reply cannot be sent, and at once in home mode |
| RedisConnection.HandleOne | internal/api/redis_queue_protocol.go:74-223 | one pass of the loop writes the one reply, the acknowledgement of SUBSCRIBE included, and changes the queue as the command is specified to |
| RedisConnection.HandlePop | internal/api/redis_queue_protocol.go:176-217 | LPOP and RPOP, with and without a count |
| RedisConnection.SessionIsRun | internal/api/redis_queue_protocol.go:61-224 | whatever bytes come in, the session is the run of its commands, but for the error told to a client whose bytes are no command |
| RedisConnection.SessionConserves | internal/api/redis_queue_protocol.go:61-224 | so conservation holds for every session on every input |
| RedisConnection.PipelineRuns | internal/api/redis_queue_protocol.go:61-224 | commands sent one after the other, with nobody else at the queue, are all handled, in order, until the connection closes: from the bytes to the run of the commands |
| RedisConnection.Writer.WriteArrayOfBulkStrings | internal/api/redis_queue_protocol.go:508-521 | the writing loop produces the array encoding |
| RedisConnection.Writer.WriteBulkString | internal/api/redis_queue_protocol.go:491-506 | the same for one string, nil included |
| RedisConnection.Writer.WritePubSubSubscribe | internal/api/redis_queue_protocol.go:539-550 | the three writes of the acknowledgement produce its encoding: the word, the channel, the number of subscriptions |
| Thinking.ValidateConfig | internal/thinking/validate.go:38-168 | the step-by-step reassignment of the config computes the validation function, errors included |
| Thinking.FindNearest | internal/thinking/validate.go:228-252 | the loop over the supported levels finds the index the function defines |
| ThinkingProofs.ClampFindsNearest | internal/thinking/validate.go:218-259 | clamping a standard level, where some supported level is a standard one, gives a supported level: itself if it is supported, else the nearest, the lower one of two |
| ThinkingProofs.SoundExactly | internal/thinking/validate.go:56-164 | for every config the readers hand over, budgets below -1 included, and every support, one with neither range nor levels included: what is let through is a budget in range, a supported level, automatic only where allowed, or none with the budget zero (the minimum where zero is not allowed, claude apart), exactly if none of three traps is hit: `medium` where it is not supported, a level `AUTO` on a budget-only model, any budget or level with neither range nor levels |
| ThinkingProofs.RevalidatesExactly | internal/thinking/validate.go:56-164 | for the same configs and supports: validating a result again returns it unchanged, exactly outside four corners: `medium` as before, automatic thinking that becomes budget 0, a budget below -1 that does, and `AUTO` where budgets are checked strictly |
| ThinkingProofs.NegativeAcrossFamilies | internal/thinking/apply.go:376-387 | a budget below -1 on a range that starts at zero: -5 from a Claude client on a Gemini model with the range 0 to 24576 comes out as budget 0, and validated again as none |
| ThinkingProofs.RefusesRangeExactly | internal/thinking/validate.go:131-139 | for the same configs and supports: a budget is refused as out of range exactly for a request body within one provider family that itself names a budget outside the range of a model that has one; a suffix never is |
| ThinkingProofs.CrossFamilyNeverFails | internal/thinking/validate.go:56-128 | across provider families no documented config is refused, exactly if a model that has levels has a standard one; models with neither range nor levels included |
| ThinkingOutcomes.BudgetBecomesLevel | internal/thinking/convert.go:47-97 | on a model with levels only a budget comes out as the level it means (minimal to 512, low to 1024, medium to 8192, high to 24576, xhigh above) if the model offers it, whoever asks |
| ThinkingOutcomes.BudgetBecomesNearest | internal/thinking/validate.go:93-105 | whatever standard levels it offers: an offered one comes out, and none nearer to the one meant is offered |
| ThinkingOutcomes.BudgetsKeepOrder | internal/thinking/convert.go:77-97 | a larger budget never gives a lower level |
| ThinkingOutcomes.LevelBecomesBudget | internal/thinking/convert.go:8-47 | on a model with budgets only a level, in any case, comes out as the budget it means (512, 1024, 8192, 24576, 32768, 128000), moved into the range |
| ThinkingOutcomes.BudgetOutcome | internal/thinking/validate.go:131-164 | a budget on a model with a range stays if it is in the range; otherwise a request body within a provider family is refused and any other is moved to the nearer end |
| ThinkingOutcomes.LevelOutcome | internal/thinking/validate.go:118-130 | an offered level stays; another is refused within a family and becomes the nearest offered one across families |
| ThinkingOutcomes.WithoutThinking | internal/thinking/validate.go:41-54 | for a model that is not known or has no thinking support only no thinking is let through |
| ThinkingOutcomes.NoneOutcome | internal/thinking/validate.go:141-164 | no thinking comes out as the budget zero, or the least one with the first level where zero is not allowed; for claude always as plain zero |
| ThinkingOutcomes.AutoOutcome | internal/thinking/validate.go:137-216 | automatic thinking stays where it is allowed, otherwise it becomes the middle of the range, or medium on a model with levels only |
| EventWriter.RunsHold | internal/requestevents/writer.go:77-161 | in every interleaving of any number of emitters and the consumer: payloads pass through channel, hand and batch in order with none lost or repeated, channel and batch keep within their sizes, and every counter is exact up to the increments still to come |
| EventWriter.Accounts | internal/requestevents/writer.go:77-161 | queued and about to be is in the channel, evicted, in hand, in the batch, inserted, skipped or dead; calls plus evictions are queued, dropped or still to be counted |
| EventWriter.StatusAddsUp | internal/requestevents/writer.go:107-116 | with no call under way and nothing in hand the published status adds up exactly; without the overflow policy nothing that got in is dropped |
| EventOverflow.LosesOwnExactly | internal/requestevents/writer.go:77-105 | from any state, whatever others do between its steps: a call told to drop the oldest loses its own payload exactly if it finds the channel full and then empty at its eviction or full again at its second try; otherwise its payload is sent |
| EventOverflow.OneEmitterLosesOwn | internal/requestevents/writer.go:77-105 | in every run with one emitter it does so exactly if the consumer has emptied the full channel before the eviction |
| EventOverflow.NewestMayBeLost | internal/requestevents/writer.go:86-102 | for every channel size and payload, a run that loses the newest payload with the channel empty and nothing evicted |
| EventWriter.TallySums | internal/requestevents/store.go:540-592 | a stored batch has inserted plus skipped equal to its length, and one broken row refuses it whole |
| EventWriter.TallyCounts | internal/requestevents/store.go:540-592 | inserted is the number of rows the insert affected, skipped that of the others |
| EventWriter.StoredExactly | internal/requestevents/store.go:540-592 | a batch is stored exactly if its transaction commits and no row is broken |
| EventWriter.InsertEvents | internal/requestevents/store.go:540-592 | the counting loop computes that tally and stops at the first broken row |
| EventWriter.EmitUninterrupted | internal/requestevents/writer.go:77-105 | the steps of one call that nothing comes between amount to the plain meaning of Emit |
| EventWriter.EmptyIsIgnored | internal/requestevents/writer.go:77-80 | a call with an empty payload is no step at all |
| EventWriter.FlushUninterrupted | internal/requestevents/writer.go:124-140 | the steps of one flush amount to the plain meaning of a flush |
| EventWriter.HandleUninterrupted | internal/requestevents/writer.go:147-157 | taking a payload, judging it and, if it fills the batch, flushing, with nothing in between, amounts to the plain meaning of handling it, and the consumer waits again |
| EventWriter.TickFlushes | internal/requestevents/writer.go:124-161 | the timer flushes a batch that is not full, and the consumer waits again |
| EventWriter.NoticeStops | internal/requestevents/writer.go:124-146 | a consumer that notices the cancellation turns the pending batch into dead letters and stops |
| EventWriter.NoticeStopsEmpty | internal/requestevents/writer.go:124-146 | with nothing pending it just stops |
| EventWriter.StopsOnlyWhenCancelled | internal/requestevents/writer.go:118-161 | in every run without a cancellation the consumer, once started, goes on: no timer and no full batch stops it |
| EventWriter.StartGoesOn | internal/requestevents/writer.go:58-67 | a consumer that is started, again too, goes on so |
| EventWriter.PendingAtStopIsBuried | internal/requestevents/writer.go:64-161 | from the cancellation on, whatever the consumer was at and whatever emitters do: nothing more is stored, a batch stored before is counted to its end, what is pending or still taken turns into dead letters one by one, and when the consumer has stopped no batch is left and inserted, skipped and dead are all it ever took |
| EventWriter.Writer.Emit | internal/requestevents/writer.go:77-105 | such a call appends, or evicts the oldest and appends, or counts a drop |
| EventWriter.Writer.Flush | internal/requestevents/writer.go:124-140 | the batch empties into inserted and skipped, or into as many dead letters; what is held or accounted for stays the same number |
| EventWriter.Writer.Handle | internal/requestevents/writer.go:147-157 | exactly the first payload leaves the channel and the number held or accounted for stays the same: it is now in the batch, inserted, skipped or dead; the steps of the interleaved machine come to the same (HandleUninterrupted) |
| HomeFailover.ConnectionsAlwaysCurrent | internal/home/client.go:142-172 | in every reachable state a cached connection was built for the host and port in use now |
| HomeFailover.EnsuredConnects | internal/home/client.go:142-172 | an enabled client with an address to dial gets the connections it lacks, as far as their options can be built, for that address; any other client gets none |
| HomeFailover.FailoverExactly | internal/home/client.go:390-427 | a failure moves the client exactly when it is the third one standing and another candidate exists, then to the first or second distinct valid candidate (nodes, then seed), never to where it is, dropping the cached connections |
| HomeFailover.FailoverOnThird | internal/home/client.go:390-436 | over any run a failure changes the address exactly if two failures stand since the last reset, discovery is on and there is somewhere else to go |
| HomeFailover.ThirdFailureMoves | internal/home/client.go:390-427 | the third failure moves the client to the first filed node it is not at, else back to the seed, and forgets the failures and the connections; with nowhere to go only the failures |
| HomeFailover.StaysWithinTwo | internal/home/client.go:390-427 | while the node list stays, the client is where it was or at one of the first two distinct candidates |
| HomeFailover.RefreshPicksLeast | internal/home/client.go:298-327 | a refresh that brings nodes ends at the first of those with the fewest clients |
| HomeFailover.OtherwiseStays | internal/home/client.go:298-349 | a refresh that brings no node, or with discovery off, changes nothing; an update files the nodes and changes nothing else |
| HomeFailover.ForgetsOnly | internal/home/client.go:429-436 | a success forgets the failures, closing the connections, and nothing else |
| HomeFailover.SortSorts | internal/home/client.go:363-365 | the node order is sorted by clients and a permutation |
| HomeFailover.SortIsStable | internal/home/client.go:363-365 | nodes with equally many clients keep their order |
| HomeFailover.StableSortIsUnique | internal/home/client.go:363-365 | any stable sort by the number of clients gives this one list |
| HomeFailover.NormalizeClusterNodes | internal/home/client.go:351-367 | the loop keeps the nodes with a host and a port, trimmed and with no negative client count, in stable order |
| HomeFailover.CleanedByNode | internal/home/client.go:351-362 | the filter works node by node and keeps their order |
| HomeFailover.CleanedOne | internal/home/client.go:351-362 | a node that can be dialled stays, trimmed and with no negative count, and any other goes |
| HomeFailover.NormalizedIsValid | internal/home/client.go:351-367 | every node of a normalised list can be dialled |
| HomeFailover.Client.EnsureClients | internal/home/client.go:142-172 | builds what is missing for the current address; what was built before a failure stays; succeeds exactly if the client is enabled, its address can be dialled and each connection is there or its options can be built |
| HomeFailover.Client.SwitchToNode | internal/home/client.go:369-381 | moves and drops the connections, or reports that there is nothing to do |
| HomeFailover.Client.RefreshClusterNodes | internal/home/client.go:298-327 | files the nodes, resets the failures and switches to the best node; says so only if the address changed |
| HomeFailover.Client.FailoverAfterReconnectFailure | internal/home/client.go:390-427 | counts, and on the third failure tries the candidates in turn |
| Wildcard.MatchPattern | internal/config/oauth_excluded_models.go:189-216 | the greedy scan accepts an identifier iff it is in the wildcard language with a free tail: it never misses a decomposition |
| Wildcard.GlobDecomposes | internal/config/oauth_excluded_models.go:199-215 | the language letter by letter is the language of prefix, gap, part, ..., gap, part, tail |
| Wildcard.LeftmostSuffices | internal/config/oauth_excluded_models.go:208-213 | why taking the leftmost occurrence loses nothing |
| Wildcard.TailIsFree | internal/config/oauth_excluded_models.go:204-215 | a pattern means what it would mean, held to the end, with one more star behind it |
| Wildcard.DocumentedReading | config.example.yaml:401-406 | the documented reading and the matcher agree on every identifier exactly for a pattern that ends in a star |
| Wildcard.IsModelDisabled | internal/config/oauth_excluded_models.go:168-187 | disabled iff some pattern switched on for the provider matches, whatever the order of the map |
| Exclusion.MatchWildcard | sdk/cliproxy/service.go:1510-1550 | prefix first, suffix next, the middle greedily: accepts exactly the language held to the end |
| Exclusion.EndsInIsCutThenScan | sdk/cliproxy/service.go:1529-1547 | cutting the suffix off before scanning the middle decides the same as finding the parts with the last one at the end |
| Exclusion.ApplyExcludedModels | sdk/cliproxy/service.go:1432-1465 | the models no pattern excludes, in order; unchanged when no pattern is left after trimming |
| Exclusion.FilterAgreesWithView | sdk/cliproxy/service.go:1510-1550 | what the filter excludes the view marks as disabled, and a pattern means the same to both exactly if it has no star or ends in one |
| AccountExclusion.MergeExcluded | internal/watcher/synthesizer/helpers.go:58-104 | the loops leave in the attribute, joined with commas, the trimmed and lowered entries of an account and, unless it has an API key, of its provider's patterns, each once, blank ones left out |
| AccountExclusion.SplitJoin | sdk/cliproxy/service.go:1112-1116 | splitting the attribute at commas gives the pieces of every entry, in order |
| AccountExclusion.BlockedExactly | sdk/cliproxy/service.go:1110-1130 | through that join, the split and the filter: a model is kept from registration exactly if a piece of one of the account's own entries, or of a pattern that counts for it, excludes it; for an account with an API key that has an entry in the configuration, exactly if that entry's list does |
| AccountExclusion.DisabledByOne | internal/config/oauth_excluded_models.go:145-187 | the view shows a model as disabled exactly if one of the provider's listed patterns matches it |
| AccountExclusion.BlockedYetEnabled | internal/api/handlers/management/auth_file_models_config.go:177-182 | a model kept from registration for an account signed in through OAuth is shown as enabled exactly if no pattern of the provider matches it, and an entry of the account's own excludes it or a piece of a pattern with a comma does |
| AccountExclusion.DisabledYetRegistered | internal/api/handlers/management/auth_file_models_config.go:177-182 | a model shown as disabled is registered exactly if neither an entry nor a pattern excludes it, and a pattern with a comma, or with a star but none at its end, matches it |
| AccountExclusion.OwnEntryHides | internal/watcher/synthesizer/helpers.go:79-81 | for every identifier without star or comma: an account that lists it, with no patterns at all, does not have the model, and the view shows it as enabled |
| AccountExclusion.CommaHides | sdk/cliproxy/service.go:1112-1116 | for every two such identifiers: a single pattern that is both with a comma between keeps the first from registration, and the view shows it as enabled |
| PathKeys.RoundTrip | internal/util/gemini_schema.go:662-788 | escaping, joining, splitting and unescaping gives the keys back, exactly under the stated condition on the keys |
| PathKeys.PlainKeysRoundTrip | internal/util/gemini_schema.go:662-788 | in particular for every list of keys without backslashes whose first key is not empty |
| PathKeys.Split | internal/util/gemini_schema.go:762-788 | the index loop computes the pieces between separating dots |
| PathKeys.Unescape | internal/util/gemini_schema.go:745-760 | the index loop computes the unescaped key |

## Left out

- HTTP routing, TLS, login flows, the terminal interface, file, git, object and SQL stores: input and output.
- The registry's `LastUpdated` stamps, hooks and logging; `ModelInfo` contents, clones and `convertModelToMap`: an info is an identifier and an opaque text, a rendered entry is the pair of info and handler type.
- Registrations are values in the registry's map: that callers could hold on to a registration while it changes is not modelled.
- `ClientSupportsModel`, `GetModelInfo`, `GetFirstAvailableModel`, `GetModelsForClient`: plain lookups.
- YAML alias and anchor nodes, the text of comments, the decoder and the encoder, `pruneMappingToGeneratedKeys`, `removeMapKey` and `normalizeCollectionNodeStyles`.
- YamlProofs.MergeAgrees: for trees as the decoder builds them, and sources whose mappings have distinct keys; no key of a mapping that is an element of a sequence may be blank (what happens then is MatchedAgreesExactly).
- YamlSettled.SettlesExactly: its second half does not cover elements that are not matched in their own place and have the note of what comes there: two that look alike in everything can change places unseen (LeftAlone needs nothing of the kind).
- The order of an account's excluded models, which the source settles by sorting; an account's provider name, its channel in the view and the provider of the patterns are one name here.
- What the loader reads is modelled for scalars under keys (YamlReading); of lists only their scalars and lengths are. Its sanitising of key lists, defaults other packages choose, and numbers with exponents or in other bases (they stand for their text) are left out.
- Case folding is that of ASCII letters; in RESP arguments white space is that of ASCII.
- RESP lengths so large that allocating the buffer panics; the streaming loop of a connection after SUBSCRIBE; the management key check, taken as a function from keys to verdicts; how much of a reply arrives when the connection breaks (it is sent or not).
- Overflow of Go's int in the sum of a thinking range's ends and in the event counters; thinking supports with a negative minimum or one above the maximum; log output of the normaliser; `ParseSuffix` and the providers' appliers.
- JSON normalisation and SQL behind the event writer: success or failure; whether a dead letter could be stored, which the writer does not look at (after Stop it cannot be).
- The home client's TLS options, its requests and subscriptions: only whether the options could be built.
- The schema passes in `gemini_schema.go` other than its path functions: their meaning lives in libraries that are not part of this model.
