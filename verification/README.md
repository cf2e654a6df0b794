# Proofs about the proxy's stateful kernels

This project models, in Dafny, the parts of the proxy that keep state or transform data
by an algorithm of their own, and proves what they promise. Most modules come in two layers.
A *specification* layer gives the meaning of every operation as a function on values, and the
theorems are about these functions: invariants over whole runs, round trips, refinements,
exact conditions. An *imperative* layer has the shape of the Go code, with classes whose fields
are updated in place and loops over maps and slices, and its methods are proved to compute those
functions, so that the theorems hold of them.

| files | what they model |
|---|---|
| `RegistryState`, `RegistryInvariant`, `RegistryRuns`, `RegistryListing`, `RegistryResults`, `Registry` | the reference-counted model registry: registration as a multiset difference, quota and suspension marks, the expiring per-handler list cache |
| `YamlTree`, `YamlMerge`, `YamlLayout`, `YamlDefaults`, `YamlNodes` | the comment-preserving merge of a generated YAML tree into a hand-written one |
| `FixJson` | the transducer that turns single-quoted strings into JSON strings |
| `Resp`, `UsageQueue`, `QueueWindow`, `RedisSession` | the Redis protocol parser and printer, the usage queue, and the authenticated session that joins them |
| `Thinking`, `ThinkingResults`, `ThinkingOutcomes` | normalising a thinking budget or level against what a model supports |
| `SignatureCache` | the signature cache with a sliding time to live |
| `AuthDeltas`, `Debounce` | the watcher: incremental credential updates and their coalescing, and the debounced update timer |
| `LogCleaner` | keeping the log directory under its size limit |
| `Common` | options, ASCII case folding, trimming, decimal numbers |

## Conventions

* What the code does under one lock is one atomic step; where an operation takes several locks or none, its pieces
  are steps of their own. A clock is an integer argument; the theorems over runs say where they need it not to go back.
* Go's maps are iterated in no particular order. A loop over a map takes an arbitrary remaining key
  in every iteration, so what is proved holds for every order, and lists of models are compared as sets.
* Library calls, hashes and other components appear as parameters or oracles: the SHA-256 digest, the
  management-key check, the answer of the operating system to a file removal, the order in which
  sorting leaves files of the same age.
* Integers are unbounded. Go's `int` bound appears where it decides a result: in parsing numbers.

## Where the code falls short of a simple promise

* Registering over an existing client equals unregistering it and registering it afresh exactly when the
  marks on the requested models are *settled* (`ReconcileRefinesNaive`). A mark left in the name of a client
  that never held the model is a counterexample (`StrangersMarkIsKept`).
* The count of a model subtracts a client twice that is both over quota and suspended, and it subtracts marks
  that name clients which do not hold the model. A positive count always means that a usable client exists; where
  usable clients exist the count is their number exactly if there is neither kind of mark (`CountIsUsable`).
  `TwiceMarkedIsSubtractedTwice` and `StrangerHidesUsable` are reachable registries in which a usable client is
  behind a count of zero.
* Validating a thinking configuration twice is the same as once exactly under the condition of
  `IdempotentIffSettles`. It fails for an automatic request on a model whose automatic mode cannot be resolved
  (`AutoDoesNotSettle`), for "auto" in another spelling under the strict check (`MisspeltAutoIsRefusedNext`), and
  for a budget below -1 that is clamped to zero (`NegativeBudgetBecomesNone`).
* The debounced trigger gets its configuration from its caller before it reads the clock. Under the mutex nothing is
  lost exactly as long as no immediate callback carries an older configuration than one asked for or released before
  (`NothingIsForgotten`); `SlowCallerForgets` is a run that loses one. Callers that are not overtaken in between are
  safe (`PromptIsNeverStale`), and the timer's own body is safe in every interleaving, although it too reads the
  configuration before it takes the mutex (`TimerDelivers`). The callbacks themselves happen after the mutex is
  released: the receiver ends up with what was released last exactly as long as they do not overtake each other
  (`CallbacksSettleIff`).
* Storing and looking up in the signature cache fetch a bucket before they lock it, and a purge drops a bucket after
  it released its lock. Purging is invisible exactly as long as no drop hits a bucket in use with live entries and no
  store or successful look-up is overtaken by a drop (`PurgingIsInvisible`). `OvertakenStoreIsLost`,
  `LateStoreIsLost` and `OvertakenLookUpMisses` are the three ways to notice a purge.
* The queue's flag is checked outside the mutex, so an append can follow the clearing of a disabled queue. Nothing
  is lost or duplicated by that: conservation is proved of the pieces in any interleaving (`RunConserves`).
* Expired items are all pruned exactly if none stands behind an unexpired one (`PruningIsExact`), which enqueue
  times in order guarantee (`RunPrunesExactly`).

## Model

| member | source | states |
|---|---|---|
| RegistryInvariant.EmptyIsExact | internal/registry/model_registry.go:113-146 | the empty registry meets the invariant: exact reference counts and consistent client maps |
| RegistryInvariant.SlotsSplit | internal/registry/model_registry.go:447-521 | the slots of a model over a set of clients are any one client's slots plus those of the rest, whatever order they are counted in |
| RegistryInvariant.MovedCounters | internal/registry/model_registry.go:315-342 | debiting one provider and crediting another moves exactly the two counters concerned, by the given amounts, and leaves no zero or unnamed counter |
| RegistryInvariant.RebindExact | internal/registry/model_registry.go:232-521 | an entry whose old slots of one client were replaced by its new ones counts exactly the clients' lists again: total, per provider, `Info.ID`, and the key set of `InfoByProvider` |
| RegistryInvariant.RegisteredKeepsExact | internal/registry/model_registry.go:232-445 | registration keeps reference counts exact, for any multiset of models and any change of provider, to and from none included |
| RegistryInvariant.UnregisteredKeepsExact | internal/registry/model_registry.go:580-634 | so does unregistration |
| RegistryRuns.ListedUntilRecovery | internal/registry/model_registry.go:786-833 | until the earliest end of a running quota window the set of available models cannot change by itself: the expiry of a cached list is sound |
| RegistryRuns.RebuiltIsTruthful | internal/registry/model_registry.go:777-781 | a list rebuilt with an overtaken reading is stored with an expiry that keeps it truthful all the same |
| RegistryRuns.AppliedKeepsInv | internal/registry/model_registry.go:640-725 | every operation, marks and clean-up included, keeps the registry exact |
| RegistryRuns.StepKeepsInv | internal/registry/model_registry.go:154-159 | every operation leaves only cached lists that tell the truth at each instant until they expire, so each one that changes availability invalidates them |
| RegistryRuns.ServedIsFresh | internal/registry/model_registry.go:758-784 | whatever is served, from the cache or rebuilt, is the list a rebuild would give at the time of the clock reading; or, if the reading was overtaken while waiting for the mutex, at an instant between it and the latest one |
| RegistryRuns.RunTheorem | internal/registry/model_registry.go:154-833 | over every run, whatever the clock readings: exact counts, the same bookkeeping as a registry without a cache, and the answers that one gives now, or between an overtaken reading and the latest |
| RegistryListing.ListedIff | internal/registry/model_registry.go:786-833 | a model is listed if and only if somebody holds it and, if anybody is suspended for another reason than quota, its slots outnumber these suspensions and the running quota windows together; so clients that are only over quota never take it off the list |
| RegistryListing.ServedIff | internal/registry/model_registry.go:758-833 | the same of every answer to a request for the list, from the cache or not, over every run |
| RegistryListing.MarksFollowTheCalls | internal/registry/model_registry.go:640-725 | over every run in which a holder of a model does not register anew: it is over quota if and only if its quota was last exceeded within five minutes and not cleared since, and suspended for the first reason given since it was last resumed, whatever other clients do |
| RegistryListing.OwnRegistrationClears | internal/registry/model_registry.go:344-418 | a known client that registers or unregisters loses its marks on everything it held or asks for |
| RegistryListing.ShowsFirstInfo | internal/registry/model_registry.go:237-486 | a model shows the first info that its last registration gave, also under the lower-case name of the provider |
| RegistryListing.ListIsTheRequest | internal/registry/model_registry.go:237-253 | a client's list is its request, in order and with repetitions |
| RegistryResults.RebindIsDropThenFresh | internal/registry/model_registry.go:315-418 | for one entry: moving slots in place equals dropping and re-adding them if and only if the marks on it are settled |
| RegistryResults.ReconcileRefinesNaive | internal/registry/model_registry.go:232-445 | registering over an existing client leaves the same registry as unregistering it first, if and only if the marks on the requested models are settled |
| RegistryResults.ProvidersOnlyMarksAreSettled | internal/registry/model_registry.go:376-418 | marks that only name clients providing the model are settled |
| RegistryResults.StrangersMarkIsKept | internal/registry/model_registry.go:640-651 | a reachable registry, with a mark for a client that never held the model, on which reconciling and re-registering differ |
| RegistryResults.PositiveCountMeansUsable | internal/registry/model_registry.go:1002-1027 | with duplicate-free lists a positive count implies a client that holds the model, outside its quota window and not suspended; no premise about marks is needed |
| RegistryResults.CountIsUsable | internal/registry/model_registry.go:1002-1027 | with duplicate-free lists the count never exceeds the number of usable clients, and equals it if and only if there are none, or no client is both over quota and suspended and no mark names a client that does not hold the model |
| RegistryResults.TwiceMarkedIsSubtractedTwice | internal/registry/model_registry.go:1002-1027 | a reachable registry, after two registrations, a quota mark and a suspension, in which a client is usable and the count is zero |
| RegistryResults.StrangerHidesUsable | internal/registry/model_registry.go:640-651 | another reachable one, in which nobody is marked twice but a stranger's mark is subtracted |
| RegistryResults.PositiveCountIsListed | internal/registry/model_registry.go:1247-1276 | at one instant some listed model has a positive count if and only if some registered model has one |
| RegistryResults.CleanupIsInvisible | internal/registry/model_registry.go:1216-1235 | removing expired quota marks changes no later list or count |
| Registry.PhasesRebind | internal/registry/model_registry.go:315-418 | the phases of a registration, each wrong by itself, compose to replacing the old slots by the new ones |
| Registry.ModelRegistry.constructor | internal/registry/model_registry.go:135-146 | a new registry is empty and valid |
| Registry.ModelRegistry.AddModelRegistration | internal/registry/model_registry.go:447-486 | one slot added: the entry becomes the specified one, all others stay |
| Registry.ModelRegistry.RemoveModelRegistration | internal/registry/model_registry.go:488-521 | one slot given up, with its marks and its provider's counter; the entry disappears with its last slot |
| Registry.ModelRegistry.MoveOverlap | internal/registry/model_registry.go:315-342 | the slots present before and after leave the old provider's counter on every entry concerned |
| Registry.ModelRegistry.DropExcess | internal/registry/model_registry.go:344-361 | vanished models and surplus old slots are removed as often as they are in excess |
| Registry.ModelRegistry.AddSurplus | internal/registry/model_registry.go:363-374 | new slots beyond the old ones are added as often as they are new |
| Registry.ModelRegistry.RefreshKept | internal/registry/model_registry.go:376-418 | kept models get the new info, lose the client's marks and credit the overlap to the new provider |
| Registry.ModelRegistry.CollectRequest | internal/registry/model_registry.go:237-253 | the usable IDs in order, the first info for each, and the multiplicities |
| Registry.ModelRegistry.Reconcile | internal/registry/model_registry.go:296-436 | all phases and the client maps together give the specified registration |
| Registry.ModelRegistry.RegisterFresh | internal/registry/model_registry.go:271-294 | the path of an unknown client gives the specified registration |
| Registry.ModelRegistry.RegisterClient | internal/registry/model_registry.go:232-445 | is the registration step of the cached registry and keeps it valid, for every request |
| Registry.ModelRegistry.UnregisterClient | internal/registry/model_registry.go:572-634 | is the unregistration step and keeps validity |
| Registry.ModelRegistry.SetModelQuotaExceeded | internal/registry/model_registry.go:640-651 | is the marking step: invalidates if the model is registered |
| Registry.ModelRegistry.ClearModelQuotaExceeded | internal/registry/model_registry.go:657-667 | is the unmarking step |
| Registry.ModelRegistry.SuspendClientModel | internal/registry/model_registry.go:674-700 | is the suspending step: an existing suspension keeps its reason |
| Registry.ModelRegistry.ResumeClientModel | internal/registry/model_registry.go:706-725 | is the resuming step |
| Registry.ModelRegistry.CleanupExpiredQuotas | internal/registry/model_registry.go:1216-1235 | removes exactly the expired marks and invalidates exactly if there were any |
| Registry.ModelRegistry.BuildAvailableModels | internal/registry/model_registry.go:786-833 | lists exactly the available models, each once, with the earliest recovery time |
| Registry.ModelRegistry.GetAvailableModels | internal/registry/model_registry.go:758-784 | answers, on a hit and on a rebuild, with exactly the models available at its clock reading, or between an overtaken reading and the latest |
| Registry.ModelRegistry.GetModelCount | internal/registry/model_registry.go:1002-1027 | the specified count, zero for unknown models and never negative |
| Registry.ModelRegistry.GetFirstAvailableModel | internal/registry/model_registry.go:1247-1276 | finds a model with a positive count, and fails only if no registered model has one |
| YamlMerge.MergedCovers | internal/config/config.go:1263-1326 | after merging, the result says recursively what the generated tree says: equal scalars, sequences of equal length covered elementwise, every key present and covered or suppressed as a known default |
| YamlMerge.MergedPairsCover | internal/config/config.go:1224-1258 | the same of the entries of a mapping |
| YamlMerge.MergedPairsKeep | internal/config/config.go:1224-1258 | entries that the generated mapping does not mention keep their values |
| YamlMerge.PrunedCovers | internal/config/config.go:1394-1428 | what is left of a new node without its defaults still covers it |
| YamlMerge.WithoutMissingCovers | internal/config/config.go:1712-1741 | removing the keys that the generated mapping lacks loses nothing that it says |
| YamlMerge.WellFormedIsPaired | internal/config/config.go:1224-1258 | a tree with distinct trimmed keys meets the merge's premise on its target |
| YamlLayout.MergedKeepsOrder | internal/config/config.go:1224-1258 | the keys of a merged mapping are the old keys in their old order followed by the new ones that are not suppressed, and the old key nodes stay in place |
| YamlLayout.EqualMeansSameIdentity | internal/config/config.go:1575-1655 | an old element structurally equal to a generated one, whose keys are scalars as those of every marshalled struct, carries the same identity, so the fallback cannot take another element's node |
| YamlLayout.AssignedInjective | internal/config/config.go:1510-1573 | no old element is used for two new ones |
| YamlLayout.AssignedByIdentity | internal/config/config.go:1510-1573 | with distinct identities and scalar keys in the generated list, an element gets the old node of its identity, or none if there is none, whatever the old list holds |
| YamlLayout.MergedSequenceKeepsElements | internal/config/config.go:1278-1313 | with distinct identities on both sides and scalar keys in the generated list, element i of the result is the old node with the identity of generated element i, merged and in its old layout; or a copy if there is none |
| YamlLayout.NoStaleKeys | internal/config/config.go:1712-1741 | after pruning, a matched mapping has exactly the keys that the generated one has too, with their values; other elements are untouched |
| YamlLayout.MergedWithItself | internal/config/config.go:1224-1326 | merging a tree into itself changes nothing, at any depth and with equal elements in lists |
| YamlLayout.OtherKindIsReplaced | internal/config/config.go:1263-1326 | a node of another kind is replaced by the whole generated collection; a null stays where the generated list is empty |
| YamlLayout.EqualIffSameShape | internal/config/config.go:1617-1655 | comparing by structure is equality of kinds, trimmed values and arrangement, and of nothing else |
| YamlLayout.AssignedIsFirst | internal/config/config.go:1510-1573 | each new element gets the first free old element of its identity, or of its value if it is a scalar; without one, the first free one of its shape; otherwise none |
| YamlLayout.IdentityIsFirstKey | internal/config/config.go:1575-1615 | a mapping is known by the first of nine keys that it has, in their order of preference |
| YamlLayout.IdentityIsFirstScalar | internal/config/config.go:1575-1615 | without any of these, by its first entry that is not blank |
| YamlDefaults.NewKeyIsAdded | internal/config/config.go:1239-1257 | a key that the old mapping lacks is added if and only if something in its value matters, with exactly what matters of it; a scalar with its tag and value |
| YamlDefaults.PrunedIsWorthwhile | internal/config/config.go:1356-1474 | what pruning leaves are the entries in which some scalar is neither false, zero, empty, null nor one of the four presets at its dotted path |
| YamlDefaults.PresetIsDefault | internal/config/config.go:1356-1392 | the presets hold at exactly these paths, whichever way they are split at the dot |
| YamlNodes.FindMapKeyIndex | internal/config/config.go:1330-1340 | the loop finds the specified position |
| YamlNodes.MergeNodePreserve | internal/config/config.go:1263-1326 | rewriting nodes in place turns the old tree into the specified merge, and the nodes stay a tree |
| YamlNodes.MergeMappingPreserve | internal/config/config.go:1224-1258 | the loop over the generated entries gives the specified mapping |
| YamlNodes.MergeEntry | internal/config/config.go:1239-1257 | one entry: merged into its old value, or appended as a pruned copy unless it is only defaults |
| YamlNodes.MergeSequencePreserve | internal/config/config.go:1278-1313 | the sequence branch gives the specified elements |
| YamlNodes.MergeElements | internal/config/config.go:1289-1313 | reordered old nodes and copies become the new children, sharing no nodes |
| YamlNodes.OrderForMerge | internal/config/config.go:1510-1573 | the matching loop gives the specified assignment |
| YamlNodes.PruneKnownDefaultsInNewNode | internal/config/config.go:1394-1428 | pruning in place gives the specified pruned tree |
| YamlNodes.PrunePairs | internal/config/config.go:1400-1422 | the filtering loop keeps exactly the specified entries |
| YamlNodes.PruneMissingMapKeys | internal/config/config.go:1712-1741 | removing entries by slicing keeps exactly those whose trimmed key the generated mapping has |
| YamlNodes.DeepCopy | internal/config/config.go:1476-1488 | an equal tree of fresh nodes |
| YamlNodes.CopyNodeShallow | internal/config/config.go:1492-1508 | takes over kind, tag, value and copied children, keeping the layout |
| FixJson.FixJSON | internal/util/translator.go:109-223 | the loops with their flags compute the transducer |
| FixJson.ShadowStep | internal/util/translator.go:109-223 | after each character of a first run, a second run on its output has copied it and is in the corresponding mode |
| FixJson.Idempotent | internal/util/translator.go:109-223 | fixing twice is fixing once |
| FixJson.UnchangedIffNoSingleQuoted | internal/util/translator.go:109-223 | a text is left alone if and only if it has no single quote outside double-quoted strings |
| FixJson.OutputHasNoSingleQuoted | internal/util/translator.go:109-223 | the output has no single-quoted string |
| FixJson.HexKept | internal/util/translator.go:165-179 | converting neither adds nor removes leading hexadecimal digits of a \u escape |
| FixJson.ConvertedMeansTheSame | internal/util/translator.go:148-200 | the converted body decodes under section 7 of RFC 8259 to the characters of the single-quoted body, and an undecodable body stays so; that the decoder inverts escaping and leaves plain text alone is proved beside it |
| FixJson.LiteralConverted | internal/util/translator.go:109-223 | a single-quoted literal anywhere outside strings becomes one JSON string of that meaning, and the text after it is converted independently |
| FixJson.UnterminatedIsClosed | internal/util/translator.go:216-223 | a literal in which the text ends is closed, and means what it would mean if it had been; a last lone backslash is dropped |
| Resp.AtoiOfItoa | internal/api/redis_queue_protocol.go:249-311 | a printed length parses back to itself |
| Resp.ReadBulkOfBulk | internal/api/redis_queue_protocol.go:276-356 | a written bulk string, nil included, reads back with whatever follows left unread |
| Resp.RoundTrip | internal/api/redis_queue_protocol.go:249-377 | a written array of any byte strings reads back as that list, and exactly the bytes that follow are left, as the Arrays and Bulk strings sections of the Redis serialization protocol specification have it |
| Resp.ReadArrayPrefix | internal/api/redis_queue_protocol.go:249-274 | a complete command is read the same whatever is pipelined behind it, and reading makes progress |
| Resp.ProtocolErrorIsFinal | internal/api/redis_queue_protocol.go:249-345 | what is no command stays none whatever follows |
| Resp.TruncatedIsEof | internal/api/redis_queue_protocol.go:249-345 | a stream that ends inside a command is reported as ended, neither as a command nor as a protocol error |
| Resp.CutBulk | internal/api/redis_queue_protocol.go:291-311 | a bulk string cut off before its data reads as a stream that ends, one cut off within as one that ends unexpectedly |
| Resp.SimpleElements | internal/api/redis_queue_protocol.go:276-289 | simple strings and integers count as arguments; what starts with any other byte is a protocol error |
| Resp.Reader.ReadRESPLine | internal/api/redis_queue_protocol.go:313-321 | consumes one line and strips its ending |
| Resp.Reader.ReadRESPBulkString | internal/api/redis_queue_protocol.go:291-311 | consumes what the parser function says, with its errors |
| Resp.Reader.ReadRESPString | internal/api/redis_queue_protocol.go:276-289 | the same for one element |
| Resp.Reader.ReadRESPArray | internal/api/redis_queue_protocol.go:249-274 | the same for a command |
| Resp.Writer.WriteRedisBulkString | internal/api/redis_queue_protocol.go:347-361 | appends exactly the specified bytes |
| Resp.Writer.WriteRedisArrayOfBulkStrings | internal/api/redis_queue_protocol.go:363-377 | appends exactly the specified bytes |
| UsageQueue.AppliedConserves | internal/redisqueue/queue.go:35-124 | every operation, and every piece that runs between checking the flag and releasing the mutex, keeps: accepted payloads are the departures in order followed by the live window |
| UsageQueue.RunConserves | internal/redisqueue/queue.go:35-155 | so does every run of them, in whatever interleaving |
| UsageQueue.HandsOutPopped | internal/redisqueue/queue.go:66-122 | what an operation returns is exactly what leaves the queue as popped, in order |
| UsageQueue.PruningIsExact | internal/redisqueue/queue.go:124-139 | pruning drops only expired items, and all of them if and only if none stands behind an unexpired one |
| UsageQueue.AppliedKeepsSorted | internal/redisqueue/queue.go:83-124 | on a clock that does not go back enqueue times stay sorted |
| UsageQueue.RunPrunesExactly | internal/redisqueue/queue.go:124-139 | over every such run pruning drops all expired items and no unexpired one |
| QueueWindow.SettingsAreLast | internal/redisqueue/queue.go:35-54 | after every run the queue has the flag last set and the retention last asked for, a minute by default and an hour at most |
| QueueWindow.PopTakesUnexpired | internal/redisqueue/queue.go:66-139 | over every run on a clock that does not go back: a pop from an enabled queue hands out, oldest first, the payloads enqueued within the retention, as many as asked for or as there are, and leaves the rest; a disabled queue gives nothing and keeps everything |
| QueueWindow.EnqueuedIsHandedOut | internal/redisqueue/queue.go:56-139 | a payload enqueued into an enabled queue is accepted and comes out, behind the earlier unexpired ones, if and only if the retention has not passed |
| QueueWindow.IgnoredEnqueue | internal/redisqueue/queue.go:56-64 | enqueueing an empty payload, or into a disabled queue, makes no difference to anything later |
| QueueWindow.DisablingEmpties | internal/redisqueue/queue.go:35-81 | disabling and clearing empty the queue; enabling and setting the retention touch no item |
| UsageQueue.Queue.PruneLocked | internal/redisqueue/queue.go:124-139 | moves the head past exactly the stale prefix |
| UsageQueue.Queue.MaybeCompactLocked | internal/redisqueue/queue.go:141-155 | changes nothing observable and leaves head 0, or below 1024 and below half the slice |
| UsageQueue.Queue.Enqueue | internal/redisqueue/queue.go:56-64 | checks the flag and the payload and then appends; undisturbed, it is the enqueueing step |
| UsageQueue.Queue.EnqueueLocked | internal/redisqueue/queue.go:83-95 | the locked part, whatever the flag says by then, is the appending step and restores the slice invariant |
| UsageQueue.Queue.PopOldest | internal/redisqueue/queue.go:66-74 | checks the flag and the count; undisturbed, it is the popping step and returns the oldest unexpired payloads, or none from a disabled queue |
| UsageQueue.Queue.PopLocked | internal/redisqueue/queue.go:97-122 | the locked part, whatever the flag says by then, is the taking step and returns the oldest unexpired payloads |
| UsageQueue.Queue.SetEnabled | internal/redisqueue/queue.go:35-40 | stores the flag and clears when it is false; undisturbed, it is the enabling or disabling step |
| UsageQueue.Queue.Clear | internal/redisqueue/queue.go:76-81 | the locked part empties the queue and accounts for what was in it |
| UsageQueue.Queue.SetRetentionSeconds | internal/redisqueue/queue.go:46-54 | the retention is clamped; the items stay |
| RedisSession.RespondHandsOut | internal/api/redis_queue_protocol.go:54-183 | what a reply carries is what the command popped; without authentication a command touches nothing and gets an error or an accepted AUTH |
| RedisSession.StepKeepsInv | internal/api/redis_queue_protocol.go:54-183 | a turn of the session, or another use of the queue, keeps the session invariant |
| RedisSession.RunTheorem | internal/api/redis_queue_protocol.go:26-183 | in every interleaving: the commands read are a prefix of the stream, each has one reply, in order; an AUTH is accepted if and only if the management check of its turn allowed its key, its second argument or, of three, its third; a refusal says why; queue data is sent only after an accepted AUTH; nothing is lost or duplicated between queue and clients |
| RedisSession.AuthIsForever | internal/api/redis_queue_protocol.go:54-183 | authentication never reverts, and no turn before it touches the queue |
| RedisSession.PopReplyDecodes | internal/api/redis_queue_protocol.go:134-175 | the reply to an authenticated LPOP or RPOP of n > 0, written in any case and with white space, decodes, whatever follows, to the oldest min(n, live) unexpired payloads, none if the queue is disabled; without a count to the oldest one or nil |
| RedisSession.PopIsRefused | internal/api/redis_queue_protocol.go:141-156 | a pop of no items or with a wrong number of arguments is refused and takes nothing |
| RedisSession.CommandIsWord | internal/api/redis_queue_protocol.go:86 | the session recognises exactly the spellings of a command, in any case and with white space around it |
| RedisSession.CommandDecodes | internal/api/redis_queue_protocol.go:249-311 | an array of bulk strings, written out byte for byte, is read as the command it carries, up to its last byte |
| RedisSession.FirstByteTells | internal/api/redis_queue_protocol.go:323-377 | the first byte of a reply tells an error, an acceptance, a bulk string and an array apart |
| RedisSession.HandleCommand | internal/api/redis_queue_protocol.go:67-181 | the checks and the command switch write exactly the specified reply and leave the specified queue |
| RedisSession.HandleRedisConnection | internal/api/redis_queue_protocol.go:26-183 | the loop is a sequence of specified turns until the session closes, and terminates on every finite stream |
| Thinking.NearestIsUnique | internal/thinking/validate.go:218-259 | being nearest, with ties to the lower, determines the position |
| Thinking.FindNearest | internal/thinking/validate.go:238-246 | the loop with best-so-far variables finds that position |
| Thinking.ClampLevel | internal/thinking/validate.go:218-259 | computes the specified clamped level |
| Thinking.ValidateConfig | internal/thinking/validate.go:38-165 | the step-by-step rewriting of the configuration computes the specified normalisation, errors included |
| Thinking.Convert | internal/thinking/validate.go:70-99 | the conversion between levels and budgets a model's capability asks for |
| Thinking.CheckLevel | internal/thinking/validate.go:116-129 | an unsupported level is clamped across provider families and refused within one |
| ThinkingResults.LevelBudgetInverse | internal/thinking/convert.go:11-97 | converting a named level to a budget and back is the identity, except for "max" |
| ThinkingResults.ClampedLevelIsNearest | internal/thinking/validate.go:218-259 | a standard level is clamped to a supported level at the least distance, the lower on a tie |
| ThinkingResults.NearestIsMonotone | internal/thinking/validate.go:218-259 | a higher position has no lower nearest position |
| ThinkingResults.BudgetBecomesLevel | internal/thinking/validate.go:86-97 | on a level-only model a positive budget is accepted and becomes a supported level, the nearest to its own |
| ThinkingResults.EffortIsMonotone | internal/thinking/validate.go:86-97 | a larger budget never gets a lower level |
| ThinkingResults.InteroperableIsAccepted | internal/thinking/validate.go:57-140 | between provider families every named level and every budget is accepted, and so is every budget from a suffix, if the model lists a standard level or none |
| ThinkingResults.StrictRefusesOutOfRange | internal/thinking/validate.go:131-139 | within a family a request's own budget is refused if and only if it is not zero and outside [Min, Max]; whether zero is allowed makes no difference |
| ThinkingResults.ConvertedShape | internal/thinking/validate.go:70-114 | after conversion and the special cases: the automatic mode exactly for the requests that can be told beforehand, no special level, no budget zero, no level on a budget-only and no budget on a level-only model, and a negative budget only from a negative one or a misspelt "auto" |
| ThinkingResults.FinishedIsNormal | internal/thinking/validate.go:146-164 | the last clamping puts budgets in range, gives a clamped "none" the lowest level and clears it for "claude" |
| ThinkingResults.NormalForm | internal/thinking/validate.go:38-211 | an accepted configuration is in normal form (automatic only if allowed, budgets positive and in range, levels supported) if and only if an automatic request can be resolved, "auto" is not misspelt, and no negative budget escapes being raised to a positive minimum |
| ThinkingResults.NormalIsFixed | internal/thinking/validate.go:38-165 | a normal form is accepted and unchanged, whatever the source format |
| ThinkingResults.IdempotentIffSettles | internal/thinking/validate.go:38-211 | for every configuration, accepted or not, validating twice is validating once if and only if: an automatic request can be resolved, no misspelt "auto" meets the strict check, and no budget below -1 is clamped to a minimum of zero |
| ThinkingResults.AutoDoesNotSettle | internal/thinking/validate.go:177-211 | on every model whose automatic mode cannot be resolved, an automatic request whose second validation differs from its first |
| ThinkingResults.MisspeltAutoIsRefusedNext | internal/thinking/validate.go:72-85 | "AUTO" on a budget-only model is accepted as the budget -1, which the next validation refuses |
| ThinkingResults.NegativeBudgetBecomesNone | internal/thinking/validate.go:262-310 | a negative budget is clamped to zero, which the next validation takes for the mode "none" |
| ThinkingResults.SuffixRoundTrip | internal/thinking/suffix.go:23-44 | a name with a suffix in parentheses is taken apart into the two |
| ThinkingResults.SuffixRecognised | internal/thinking/apply.go:210-241 | a suffix counts as a configuration if and only if one of the three parsers recognises it |
| ThinkingResults.SuffixNormalises | internal/thinking/apply.go:210-241 | what a suffix stands for meets the condition of the normal form, unless it asks for an automatic mode that cannot be resolved |
| ThinkingResults.SuffixAccepted | internal/thinking/apply.go:210-241 | on a budget-only model every suffix is accepted, and in normal form under exactly that condition |
| ThinkingOutcomes.AutoIsResolved | internal/thinking/validate.go:177-211 | where the automatic mode is not allowed it becomes "medium" on a level-only model and the middle of the range, rounded down, on others; without a middle, no thinking if zero is allowed and the minimum if not |
| ThinkingOutcomes.AutoIsKept | internal/thinking/validate.go:101-164 | where it is allowed it stays, with the budget -1 |
| ThinkingOutcomes.BudgetIsNearest | internal/thinking/validate.go:262-310 | an accepted budget becomes the nearest one in the range, or stays as it is without a range |
| ThinkingOutcomes.LevelBecomesBudget | internal/thinking/validate.go:70-85 | on a budget-only model a named level becomes the budget in the range nearest to its own |
| ThinkingOutcomes.OffStaysOff | internal/thinking/validate.go:101-164 | asking for no thinking is never refused: the budget is zero, or the minimum where zero is not allowed, except for "claude" |
| ThinkingOutcomes.LevelIsOfferedOrNearest | internal/thinking/validate.go:116-129 | a level is accepted as it is if and only if the model offers it; otherwise it is refused within a family, and between families becomes the nearest standard level offered, the lower of two |
| ThinkingOutcomes.NamelessIsRefused | internal/thinking/validate.go:72-97 | a level without a name is refused on a budget-only model, a budget below -1 on a level-only one |
| ThinkingOutcomes.UnsupportedAcceptsNone | internal/thinking/validate.go:50-55 | without support for thinking only asking for none is accepted |
| ThinkingOutcomes.FormatsIgnoreCase | internal/thinking/validate.go:39 | the case of the formats' names makes no difference |
| ThinkingOutcomes.FormatsIgnoreSpace | internal/thinking/validate.go:39 | nor does white space around them |
| ThinkingOutcomes.FamiliesPartition | internal/thinking/validate.go:349-373 | belonging to the same family is an equivalence, with two families of three |
| ThinkingOutcomes.SuffixMeans | internal/thinking/apply.go:210-241 | a suffix asks for a mode by name or -1, a level, or a number of tokens, in any spelling; anything else asks for nothing |
| SignatureCache.PurgingIsInvisible | internal/cache/signature_cache.go:78-169 | over every interleaving of fetching, storing, looking up, sweeping with an earlier clock reading, dropping and clearing, on a clock that does not go back: the caches with and without purges hold the same live entries after every step, nothing alive sits in a dropped bucket, and all look-ups agree, if and only if no store, look-up or drop is disturbed |
| SignatureCache.StepAgreesIff | internal/cache/signature_cache.go:78-169 | the same for one step: it is noticed exactly if a store locks a bucket that a purge dropped after it was fetched, a look-up does and there is now something to find, or a purge drops a bucket that holds a live entry |
| SignatureCache.OvertakenStoreIsLost | internal/cache/signature_cache.go:101-119 | a store that a purge overtakes between fetching its bucket and locking it loses the signature |
| SignatureCache.LateStoreIsLost | internal/cache/signature_cache.go:78-97 | a store between a purge's sweep and its drop is lost |
| SignatureCache.OvertakenLookUpMisses | internal/cache/signature_cache.go:123-169 | a look-up that a purge overtakes misses what was stored before it took its lock |
| SignatureCache.EntriesHaveProvenance | internal/cache/signature_cache.go:101-169 | in every interleaving, every entry was stored, not stored again since, and touched at least once every TTL |
| SignatureCache.AnswerIsLastStored | internal/cache/signature_cache.go:123-169 | what a look-up finds is the last signature stored in its bucket, with no gap over the TTL between store, successive readings and now |
| SignatureCache.FoundIffInTime | internal/cache/signature_cache.go:101-169 | over every interleaving on a clock that does not go back: a look-up finds a signature if and only if it was the last one stored in its bucket and touched at least every three hours since, sweeps or not |
| SignatureCache.NamesShareSignatures | internal/cache/signature_cache.go:123-198 | two model names share signatures if and only if they are equal or contain the same one of "gpt", "claude" and "gemini", looked for in this order; only the last has an answer in place of a signature |
| SignatureCache.PromptAnswerIsLastOfGroup | internal/cache/signature_cache.go:101-182 | if stores and the look-up use the bucket in use, it is the last signature stored for the group and hash at all, and the group has been neither cleared nor dropped since |
| SignatureCache.SignatureStore.GetOrCreateGroupCache | internal/cache/signature_cache.go:53-63 | fetches the bucket in use, creating it if need be, and leaves every fetched bucket as it is |
| SignatureCache.SignatureStore.Store | internal/cache/signature_cache.go:112-118 | the locked part of storing is the writing step on the fetched bucket, whatever has become of it |
| SignatureCache.SignatureStore.CacheSignature | internal/cache/signature_cache.go:101-119 | undisturbed, writes into the bucket in use; an empty text or a signature under 50 characters changes nothing |
| SignatureCache.SignatureStore.LookUp | internal/cache/signature_cache.go:145-168 | the locked part of a look-up is the reading step on the fetched bucket: answers, and slides or deletes the entry |
| SignatureCache.SignatureStore.GetCachedSignature | internal/cache/signature_cache.go:123-169 | undisturbed, answers from the bucket in use, or with the group's miss |
| SignatureCache.SignatureStore.SweepGroup | internal/cache/signature_cache.go:82-90 | under the bucket's lock, removes its expired entries and reports whether any is left |
| SignatureCache.SignatureStore.DropGroup | internal/cache/signature_cache.go:92-94 | drops the group, whatever its bucket holds by then |
| SignatureCache.SignatureStore.PurgeExpiredCaches | internal/cache/signature_cache.go:78-97 | undisturbed, is a run of sweeps and drops none of which can be noticed, and leaves neither expired entries nor empty buckets in use |
| SignatureCache.SignatureStore.ClearSignatureCache | internal/cache/signature_cache.go:172-182 | clears one group or all |
| AuthDeltas.ReplayIsExact | internal/watcher/clients.go:256-281 | replaying the updates on a copy of the old credentials gives the new ones and names no foreign ID |
| AuthDeltas.OrderDoesNotMatter | internal/watcher/clients.go:256-281 | in any order |
| AuthDeltas.UpdatesAreDue | internal/watcher/clients.go:256-281 | exactly the new IDs are added, exactly those that differ modified, and exactly those deleted that the file has no longer |
| AuthDeltas.RunKeepsOwned | internal/watcher/clients.go:171-254 | if files give distinct IDs, every run of changes and removals keeps file-owned credentials equal to the union of the per-file sets, and others untouched |
| AuthDeltas.SkippingIsInvisible | internal/watcher/clients.go:171-254 | if equal hashes of a file mean equal credentials: over every run the current credentials hold, for each file, exactly what its last change gave, although changes with an equal hash are skipped |
| AuthDeltas.CoalescingIsInvisible | internal/watcher/dispatcher.go:139-215 | in every interleaving of producers and the dispatching loop: what was sent, and then what is pending, has the effect of all updates |
| AuthDeltas.ConsumerFollowsFiles | internal/watcher/clients.go:171-281 | over every run of file changes and removals whose updates are enqueued in order, whenever the dispatching loop comes in: replaying what was sent and then what is pending on a copy of the start gives the current credentials |
| AuthDeltas.BatchOneMore | internal/watcher/dispatcher.go:152-158 | coalescing one more update has the effect of dispatching it after the batch |
| AuthDeltas.PendingUpdates.DispatchAuthUpdates | internal/watcher/dispatcher.go:148-162 | the loop over the updates enqueues them as specified |
| AuthDeltas.PendingUpdates.NextPendingBatch | internal/watcher/dispatcher.go:208-214 | hands out the pending updates in order and leaves none |
| AuthDeltas.Watcher.ComputePerPathUpdates | internal/watcher/clients.go:256-281 | the two loops give the specified credentials and an exact list of updates |
| AuthDeltas.Watcher.AddOrUpdateClient | internal/watcher/clients.go:171-235 | is the changing step; an unchanged hash changes nothing |
| AuthDeltas.Watcher.RemoveClient | internal/watcher/clients.go:238-254 | is the removing step |
| Debounce.UpdateTimer.TriggerServerUpdate | internal/watcher/clients.go:423-477 | the locked part of a trigger: the specified decision, new fields, and timer to stop |
| Debounce.UpdateTimer.TimerElapsed | internal/watcher/clients.go:460-475 | the locked part of a timer's body: calls back exactly if it is the current timer and the watcher runs |
| Debounce.UpdateTimer.StopServerUpdateTimer | internal/watcher/clients.go:404-412 | stops the timer and forgets the request |
| Debounce.StepKeepsInv | internal/watcher/clients.go:404-478 | in every interleaving a step keeps spacing, the one live timer, and its earliest firing time |
| Debounce.RunIsSpaced | internal/watcher/clients.go:404-478 | update times are at least the debounce interval apart and at most one timer is armed |
| Debounce.TriggerOutcome | internal/watcher/clients.go:414-478 | a trigger a second or more after the last callback, or before the first, calls back and stops the timer; within the second it leaves the matter to a pending timer, and otherwise arms one for the end of the second, but for no less than ten milliseconds |
| Debounce.SupersededNeverCallsBack | internal/watcher/clients.go:460-464 | once a timer is not the watcher's current one, no continuation makes it so again, and its body, whenever it runs, changes nothing but itself |
| Debounce.TriggerIsAnswered | internal/watcher/clients.go:414-478 | every trigger calls back at once or leaves a live timer pending |
| Debounce.PendingUntilCallback | internal/watcher/clients.go:414-478 | without a stop, a pending timer stays current and alive until there is a callback |
| Debounce.NothingIsForgotten | internal/watcher/clients.go:414-478 | over every run without a stop: after each step the newest configuration asked for is released for its callback or pending on a live timer, and none is released after a newer one, if and only if no immediate callback of the run carries a stale configuration |
| Debounce.AnsweredIffNotStale | internal/watcher/clients.go:426-436 | the same for one step: the branch that calls back at once loses a configuration exactly if it carries an older one |
| Debounce.PromptIsNeverStale | internal/watcher/clients.go:414-436 | no callback is stale if every trigger carries the configuration of the moment at which it reads the clock |
| Debounce.SlowCallerForgets | internal/watcher/clients.go:414-436 | a run in which a slow caller's old configuration is delivered last, the newer one is lost, and nothing is pending |
| Debounce.TimerDelivers | internal/watcher/clients.go:452-475 | in every interleaving, stale callbacks included, the pending timer releases a configuration as new as any asked for |
| Debounce.FromTheStart | internal/watcher/clients.go:404-478 | all of this of every run of a new watcher |
| Debounce.CallbacksSettleIff | internal/watcher/clients.go:426-436 | with callbacks as steps of their own after the mutex is released: the receiver is always going to end up with the configuration released last, if and only if no callback of that one overtakes another |
| Debounce.EachUpdateCallsOnce | internal/watcher/clients.go:414-478 | over every run each recorded update is called back once, or still going to be |
| Debounce.ReceiverFromTheStart | internal/watcher/clients.go:414-478 | in a run of a new watcher without a stop, a stale immediate callback or an overtaking callback, the receiver has the newest configuration asked for, or it is on its way, or a live timer is pending |
| LogCleaner.PassPartitions | internal/logging/log_dir_cleaner.go:136-154 | what is left and what is deleted are together the files, and their sizes add up to the total |
| LogCleaner.LimitOrNothingRemovable | internal/logging/log_dir_cleaner.go:141-154 | afterwards the limit is kept or only the protected file and undeletable ones are left |
| LogCleaner.UnremovableSurvive | internal/logging/log_dir_cleaner.go:145-151 | the protected file and those that cannot be deleted survive |
| LogCleaner.DeletesOldest | internal/logging/log_dir_cleaner.go:136-154 | files are deleted in order of age, none of them newer than any file not reached |
| LogCleaner.SurvivorsAreNewer | internal/logging/log_dir_cleaner.go:136-154 | no deletable file that is left is older than a deleted one |
| LogCleaner.NoneTooMany | internal/logging/log_dir_cleaner.go:141-144 | without the last deletion the limit would still be exceeded |
| LogCleaner.StopIsUnique | internal/logging/log_dir_cleaner.go:141-144 | where the loop stops is determined by the files, their order and the limit |
| LogCleaner.SumSizes | internal/logging/log_dir_cleaner.go:104-130 | the loop over the listing computes the total size |
| LogCleaner.Directory.DeleteOldest | internal/logging/log_dir_cleaner.go:136-154 | the deleting loop stops where specified; its running total is always the sum of the surviving sizes |
| LogCleaner.Directory.EnforceLogDirSizeLimit | internal/logging/log_dir_cleaner.go:104-156 | nothing happens within the limit; otherwise the directory keeps exactly the specified files |

## Left out

Registry:

- Registry.ModelRegistry.GetFirstAvailableModel: says which models it may return, not the newest-first order, because the comparator is no strict weak order when a creation time is missing.
- Registry.ModelRegistry.GetAvailableModels: answers with sets of model infos; the conversion to a handler's map format, and the list order, are not modelled.
- Registrations are values in a map, so aliasing between a registration and its clones is not captured; nil maps and nil times are absent entries.
- `LastUpdated`, hooks, logging, `GetAvailableModelsByProvider`, `GetModelProviders` and `GetModelInfo`.
- Upper and lower case beyond ASCII, here and wherever the code folds case.

YAML merge:

- YamlMerge.MergedCovers: assumes distinct, non-empty, trimmed keys in the generated tree and an even number of children in old mappings, as do the results of YamlDefaults.
- YamlLayout.MergedSequenceKeepsElements: assumes scalar keys in the generated elements, as do AssignedByIdentity and EqualMeansSameIdentity; the generated tree comes from marshalling a struct (internal/config/config.go:1078-1103), which gives no others.
- YamlNodes.MergeNodePreserve: reads nodes through a snapshot of their values where the code only reads; the children of a sequence are assigned after all its elements are merged.
- Sharing between an alias and its anchor; children left behind in a node that became a scalar or an alias, which nothing reads.
- Reading and writing the file, removal of legacy keys, `pruneMappingToGeneratedKeys`, style normalisation.
- Idempotence of the merge, which does not hold in general: pruning can change the identity of an element.

FixJSON, queue and session:

- FixJson.FixJSON: works on characters; invalid UTF-8 is not modelled.
- UsageQueue.RunPrunesExactly: assumes that times are in the order of the locked parts; the code reads the clock before it waits for the mutex.
- UsageQueue.Queue.Enqueue: its contract is about an undisturbed call, as are those of PopOldest and SetEnabled; racing calls are interleavings of their pieces, for which conservation and hand-out are proved.
- RedisSession.RespondHandsOut: a session's pop checks the flag and takes in one step.
- RedisSession.PopReplyDecodes: assumes that the number and the lengths of the payloads fit a Go `int`.
- The framing of error replies, whose text is not escaped.
- A declared length so large that allocating the buffer fails; connections, deadlines and the listener.
- The repeated authentication check inside the pop branch, which no command can reach unauthenticated.
- Trimming of a command name beyond ASCII white space.

Thinking:

- ThinkingResults.NormalForm: assumes 0 <= Min <= Max, as do the other results about validation.
- Provider appliers, extraction from request bodies, `normalizeUserDefinedConfig`, overflow of Min + Max; a missing model counts as one without thinking support.

Smaller machines:

- SignatureCache.PurgingIsInvisible: a look-up reads the clock when it takes the lock; the code reads it just before (internal/cache/signature_cache.go:143), and a look-up that waits may still take an entry for live that a later reading would not. Clearing everything is one step. The digest is an arbitrary function of the text.
- Debounce.NothingIsForgotten: a trigger checks the stop flag when it reads the clock; a missing configuration or callback is not modelled.
- AuthDeltas.CoalescingIsInvisible: a batch that was taken is sent in full; the loop discards it when the queue is gone, and the rest of it when its context is cancelled (internal/watcher/dispatcher.go:178-192). Updates carry an ID; one without gets a key from the clock and is never coalesced.
- AuthDeltas.SkippingIsInvisible: assumes that equal hashes of a file mean equal credentials; the code generates them from the configuration too, whose reloading is not modelled.
- AuthDeltas.ConsumerFollowsFiles: assumes that two operations enqueue their updates in the order in which they held the credentials' lock; the code enqueues after releasing it.
- AuthDeltas.Watcher.AddOrUpdateClient: starts from the credentials parsed from the file; reading, parsing, persistence and runtime credentials are not modelled.
- LogCleaner.Directory.EnforceLogDirSizeLimit: starts from the list of regular log files with cleaned paths; reading the directory and the choice of names are not modelled.

Everything else in the repository is HTTP, OAuth, storage back ends and user interfaces over libraries.
