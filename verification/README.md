# Chainlink CCIP on Stellar: a verified model

A Dafny model of the parts of the repository where several functions, or several
runs, have to agree with each other, and proofs of what they promise together.

- **Writes for a pool and for the token registry.** A configuration change is split
  into writes the deployer executes now and writes a timelock executes later.
  `TokenPool` and `TokenAdminRegistry` hold the contracts as state machines (`LaneStep`,
  `HookStep`, `Step`), with the refusals of contracts/common/pool/src/lib.rs:153-222 and
  436-620, and contracts/token-admin-registry/src/lib.rs:158-321;
  `WriteRouting`, `PoolRateLimits`, `RemoteLanes`, `CcvLists`, `QueuedWrites`,
  `ConfigureTransfers` and `RemotePoolRemoval` are the planners, written over a chain
  object they invoke. The proofs follow the direct writes and the returned batch to
  the state they leave together, say exactly when a run succeeds, and follow a second
  run to its silence.
- **Event ingestion.** `EventPages` and `EventScans` page through a getEvents server
  whose rules are explicit hypotheses, and whose history may grow during a scan.
  `AttemptPoller` is the execution-attempt poller under every interleaving of its two
  loops; `PollerLoops` is the object whose atomic methods are those steps;
  `PollerScans` runs the poller on what the scan returns from one history, and
  `PollerProgress` says what a window and a retry tick get done.
- **Submission.** `Submission` is the retry loop over every sequence of network
  answers; `ResourceDeclaration` is the uint32/int64 arithmetic of what a retry declares.
- **Codecs.** `ScvalInts` (128 and 256 bits), `Eip2098` (in-place signature rewrite),
  `ScValConverters` and `BoundedConverter` (value trees), `BindingCodec` (what the
  generated encoders and decoders mean, per schema), `WireBytes` (remote addresses).
- **Splitting.** `Splitting` is the generator's bracket-aware text splitting,
  `SplitPositions` says where it cuts.

Beside each planner, codec and loop stands a reading of its result that does not use
its formulas: what a stored entry, a registry, a round of submission, an encoded value
or a piece of text must look like, given the input alone.

`Words` and `Xdr` hold machine words, bit operations, big-endian bytes and the Soroban
value type; `Wrappers` holds Option and Result.

## What the code does where its documentation says otherwise

- `I128ToScVal` documents [-2^127, 2^127-1]; its guard accepts 2^127, which comes back
  as -2^127, and refuses -2^127 (`ScvalInts.I128RangeEnds`).
- A signature word above the group order is not recoverable after the EIP-2098
  rewrite, and two such words can meet (`Eip2098.CollidesAboveOrder`).
- A kept lane that stores only the raw form of a remote pool never gets the padded
  form the comments promise (`RemoteLanes.PaddedFormStored`).
- `GetEventsInRange` documents [fromLedger, toLedger]. On a server whose endLedger is
  exclusive, as tests/staging/helpers_test.go:240-241 says it is, the events of
  toLedger are missed unless the first page is full (`EventScans.ExactWhen`,
  `EventScans.EndLedgerMissed`). The poller queries that ledger again in its next
  window, so it loses none of them (`PollerScans.HistoryAccounted`).
- A registry proposal clears the stored pool while the planner keeps the value it read;
  registration settles all the same (`TokenAdminRegistry.SettlesInTwoRounds`). A
  reassignment settles only when the deployer hands the role to the timelock
  (`TokenAdminRegistry.ReassignSettlesIff`).
- `splitTopLevel` and `splitReturnType` disagree after a stray close bracket
  (`Splitting.SplittersDiffer`): they cut alike iff at every comma the one stands at
  the top level exactly when the other counts no open bracket
  (`Splitting.SplittersAgreeIff`).
- The two argument converters disagree on muxed accounts, and only there and beyond 64
  levels (`BoundedConverter.BoundedVersusRelayer`).

## Model

| member | source | states |
|---|---|---|
| TokenPool.RunKeepsSane | contracts/common/pool/src/rate_limit.rs:69-94 | no accepted batch ever stores a limit the contract would refuse |
| TokenPool.RunKeepsHooks | contracts/pools/advanced-pool-hooks/src/lib.rs:237-282 | a stored hooks entry always has a base and passed the contract's check |
| TokenPool.CcvValidReads | contracts/pools/advanced-pool-hooks/src/types.rs:42-83 | a config is valid iff no address occurs twice among a direction's list and its threshold list, and a threshold list has a base |
| TokenPool.RunProjects | contracts/common/pool/src/lib.rs:436-620 | a batch is accepted iff each lane, hooks entry and the finality word accept their own part, and each ends where its part leaves it |
| WriteRouting.Router.Route | deployment/adapters/token_adapter_configure_transfers.go:53-81 | the deployer's writes take effect at once, the timelock's are only queued; any other authorizer and a refused write err and change neither chain, queue, log nor flag |
| WriteRouting.Batches | deployment/adapters/token_adapter_configure_transfers.go:88-112 | the output carries exactly the queued writes in order, with a marker iff something was executed |
| WireBytes.TokenFormsInverse | deployment/adapters/token_adapter_configure_transfers.go:562-577 | trimming undoes padding and back; the accepted inputs are exactly the two forms of one native address |
| WireBytes.PoolFormPadded | deployment/adapters/token_adapter_configure_transfers.go:583-598 | whichever form comes in, the stored pool form is the padded one, and padding is idempotent |
| WireBytes.PadReads | deployment/adapters/token_adapter_configure_transfers.go:583-598 | padding keeps the address at the right end of 32 bytes behind zeros |
| WireBytes.PoolAcceptedIff | deployment/adapters/token_adapter_configure_transfers.go:583-598 | a pool address is accepted iff it is a native address or its padded form |
| WireBytes.MatchingMembers | deployment/adapters/token_adapter_pool_ops.go:716-725 | an entry matches iff it is stored and equals the address in raw or padded form |
| PoolRateLimits.LiveBucketSurvives | deployment/adapters/token_adapter_configure_transfers.go:946-995 | a bucket read from the chain is written back unchanged |
| PoolRateLimits.SaneReads | contracts/common/pool/src/rate_limit.rs:69-94 | a limit is sane iff its rate, as a number, is at most its capacity, or it is off and both are zero |
| PoolRateLimits.ApplyPoolAllowedFinality | deployment/adapters/token_adapter_pool_ops.go:365-407 | succeeds iff the word is already right or the owner is routable; once the queue ran, it is the wanted one; nothing else is touched |
| PoolRateLimits.RateCaller | deployment/adapters/token_adapter_pool_ops.go:195-337 | the deployer comes first if the contract lets it set limits, then the timelock, else the run skips or errs as asked; after a staged prerequisite only an owning timelock will do |
| PoolRateLimits.SetTokenPoolRateLimits | deployment/adapters/token_adapter_pool_ops.go:195-337 | succeeds iff an identity is found or the skip asked for, the finality word is right or routable, every bucket fits and those written directly are accepted; executed now or queued, the buckets then end applied in order on the lane, and no other lane changes |
| CcvLists.UnorderedStringsEqual | deployment/adapters/token_adapter_configure_transfers.go:926-941 | the counting comparison holds iff the lists are equal as multisets |
| CcvLists.CcvArgMatchesStored | deployment/adapters/token_adapter_configure_transfers.go:913-923 | true iff something is stored and it equals the argument up to the order of each list |
| CcvLists.ApplyPoolCcvConfig | deployment/adapters/token_adapter_configure_transfers.go:849-891 | succeeds iff the entry is settled or its write is routable and, when direct, valid; once the queue ran the entry reads as asked, list by list and flag by flag, or the hooks refuse it; a settled entry causes no write |
| CcvLists.WantedHookReads | deployment/adapters/token_adapter_configure_transfers.go:896-911 | the entry a run leaves is the only one that reads as asked: a supplied list is the stored one, an omitted one stands, a defaults flag stands only without a supplied list, and nothing is stored where nothing stood or was supplied |
| CcvLists.HookGoalReads | deployment/adapters/token_adapter_configure_transfers.go:849-891 | a run is refused iff the entry must change and the hooks refuse the one that reads as asked |
| CcvLists.WantedHookIsSettled | deployment/adapters/token_adapter_configure_transfers.go:849-941 | the entry a run leaves is one the next run does not touch |
| RemoteLanes.ConfigureLane | deployment/adapters/token_adapter_configure_transfers.go:307-460 | a new, replaced or kept lane ends as wanted through direct and queued writes together, and the run succeeds iff the input fits, each due write has an identity and the deployer's own are accepted; a settled lane gets at most its supplied limits again |
| RemoteLanes.ReplacedLaneIsWanted | deployment/adapters/token_adapter_configure_transfers.go:348-437 | an atomic replacement keeps every live limit that is not supplied |
| RemoteLanes.WantedLaneReads | deployment/adapters/token_adapter_configure_transfers.go:307-460 | an independent reading of the wanted lane: native token, the remote pool stored, pools only added on a kept lane, each limit the supplied one, else the one that stood, else unlimited |
| RemoteLanes.PaddedFormStored | deployment/adapters/token_adapter_configure_transfers.go:405-437 | the padded pool form is stored iff the lane was not kept with only the raw form present |
| RemoteLanes.RawFormIsNotReplaced | deployment/adapters/token_adapter_pool_ops.go:716-725 | a kept lane holding only a raw 20-byte entry, for which the padded form is never added |
| RemoteLanes.WantedIsSettled | deployment/adapters/token_adapter_configure_transfers.go:348-460 | the lane a run leaves is one the next run neither updates nor adds a pool to |
| QueuedWrites.QueuesFinish | deployment/adapters/token_adapter_configure_transfers.go:281-286 | lane writes, hooks writes, rate limits and finality, run in that order, leave every selector at its own goal; refused iff some goal is a refusal |
| ConfigureTransfers.ConfigureTokenForTransfers | deployment/adapters/token_adapter_configure_transfers.go:223-523 | for every pool state, remotes and iteration order: the run succeeds iff no fee configuration is given and each remote's CCV and lane arms and the finality arm run from the first state; its batch is accepted iff every remote's limits and CCV lists are admissible, and then every lane and hooks entry reads as its remote asks, the finality word is the wanted one and nothing else changed; on settled remotes it writes nothing but supplied limits |
| ConfigureTransfers.ConfiguredIsSettled | deployment/adapters/token_adapter_configure_transfers.go:348-437 | once a configuration and its batch have run, every remote is settled, so a rerun emits no chain update, pool add or CCV write |
| ConfigureTransfers.RerunSucceeds | deployment/adapters/token_adapter_configure_transfers.go:223-523 | in the state a finished configuration leaves, the same configuration succeeds again |
| ConfigureTransfers.RerunChangesNothing | deployment/adapters/token_adapter_configure_transfers.go:223-523 | and, once its own batch has run, leaves every lane, hooks entry and the finality word as they are |
| RemotePoolRemoval.DropOneMore | contracts/common/pool/src/lib.rs:188-222 | the contract's removal of a first occurrence is one more entry gone from the list |
| RemotePoolRemoval.RemoveRemotePools | deployment/adapters/token_adapter_pool_ops.go:643-710 | succeeds iff every address decodes and every lane exists; the removals, each emitted once, are exactly the stored entries asked for, executed or proposed, and accepted in order |
| RemotePoolRemoval.RemovalMeaning | deployment/adapters/token_adapter_pool_ops.go:643-725 | afterwards unrequested entries stand in order, nothing but pool lists changed, and no requested entry is left iff none was stored twice |
| RemotePoolRemoval.RerunRemovesNothing | deployment/adapters/token_adapter_pool_ops.go:643-710 | with distinct stored entries a second run has nothing to remove |
| RemotePoolRemoval.StoredTwiceSurvives | deployment/adapters/token_adapter_pool_ops.go:643-710 | an entry stored twice is still there after its removal |
| TokenAdminRegistry.RunKeepsListed | contracts/token-admin-registry/src/lib.rs:158-321 | only a token with an administrator has a pool, and an administrator is never lost |
| TokenAdminRegistry.Router.Route | deployment/adapters/token_adapter_configure_transfers.go:53-81 | the registry's routed write: executed, queued or refused, with the new registry and queue |
| TokenAdminRegistry.RegisterTokenInTAR | deployment/adapters/token_adapter_configure_transfers.go:681-793 | emits exactly the planned writes, the deployer's already applied to the registry; for every listed registry and input it errs iff none of ours can name the candidate or the deployer would set an unsupported pool, and else direct-then-queued leaves the candidate administering or pending and, if the token is then ours, the given pool |
| TokenAdminRegistry.PlanReads | deployment/adapters/token_adapter_configure_transfers.go:681-793 | the whole plan reads so: refused only for an unsupported pool that must be set, silent iff the token stands as it should and nobody is named again |
| TokenAdminRegistry.RegisteredSettles | deployment/adapters/token_adapter_configure_transfers.go:760-791 | a registered token that is not reassigned settles in one round: a pending administrator of ours takes over, the pool is replaced if the token is then ours, and later runs emit nothing |
| TokenAdminRegistry.PlanAccepted | deployment/adapters/token_adapter_configure_transfers.go:681-793 | every direct write precedes every queued one, and direct-then-queued is accepted step by step, iff a pool it sets supports the token |
| TokenAdminRegistry.SettlesInTwoRounds | deployment/adapters/token_adapter_configure_transfers.go:704-792 | an unregistered token reaches the wanted administrator and pool within two runs and their batches, and every later run emits nothing |
| TokenAdminRegistry.OneRoundEnough | deployment/adapters/token_adapter_configure_transfers.go:760-775 | in states the registry can be in, one round is enough iff the timelock need not first nominate the deployer |
| TokenAdminRegistry.OutsiderIsLeftPending | deployment/adapters/token_adapter_configure_transfers.go:760-763 | an outside administrator stays pending and later runs emit nothing |
| TokenAdminRegistry.ReassignSettlesIff | deployment/adapters/token_adapter_configure_transfers.go:736-751 | a reassignment settles iff the deployer hands the role to the timelock; otherwise every run stages the transfer again and the role never moves |
| EventPages.CollectPage | ccv/destination_reader/events.go:60-73 | for any page: the unseen events up to the window's end are appended once each, and passing the window is reported |
| EventPages.NextPage | ccv/destination_reader/events.go:74-84 | a continuation page contributes consecutive wanted events that overlap what is collected by at most the cursor's own, and a last page completes them |
| EventScans.GetEventsInRange | ccv/destination_reader/events.go:22-87 | terminates on every server, never repeats an event or leaves the window; on an honest one, for either cursor convention, returns the wanted events in order, or errs only because the last request it made failed; on every server a result is all the answers hold and the last answer was short, past the window or without a cursor |
| EventScans.FetchAllEvents | ccv/source_reader/source_reader.go:160-228 | on an honest server with exclusive cursors returns the wanted events in order, never a part; given a deadline longer than the number of wanted events it errs only because its last request failed; on every server a result is all the answers hold and nothing more was to be expected |
| EventScans.ExactWhen | ccv/destination_reader/events.go:50-55 | each scan returns the whole range iff the server's window includes its end, or no event is there, or enough events precede it to force a continuation |
| EventScans.EndLedgerMissed | ccv/destination_reader/events.go:50-55 | a single event in the end ledger of an end-exclusive server, which both scans miss |
| EventScans.SameEvents | ccv/source_reader/source_reader.go:160-228 | on one fixed range whose end ledger the window includes or leaves empty, both scans return the same list, and either errs only for its own last request |
| AttemptPoller.NextKeeps | ccv/destination_reader/execution_attempt_poller.go:228-398 | every atomic step of either loop keeps the invariant on queue, windows, cache and whereabouts of events |
| AttemptPoller.EveryEventAccounted | ccv/destination_reader/execution_attempt_poller.go:195-349 | under any interleaving each fetched event is cached, in flight, queued with fewer than 3 retries, evicted as the oldest of 64, dropped after 4 failures, or displaced by another event of its transaction |
| AttemptPoller.WindowsCover | ccv/destination_reader/execution_attempt_poller.go:195-275 | the fetched windows cover every ledger from the start to the last polled |
| PollerProgress.TickSettles | ccv/destination_reader/execution_attempt_poller.go:318-349 | over any interleaving, every task queued when a retry tick begins is by its end cached, failed once more, evicted or displaced |
| PollerProgress.TickInOrder | ccv/destination_reader/execution_attempt_poller.go:312-320 | a tick takes up the tasks queued at its start oldest first, and only those |
| PollerProgress.WindowSettles | ccv/destination_reader/execution_attempt_poller.go:228-275 | once a window is left polling has moved to its end, and each parsing event it returned is cached or failed |
| PollerProgress.PollAnswer | ccv/destination_reader/execution_attempt_poller.go:245-265 | an answer that hashes to the event's message ID is no failure and is what the polling loop caches next, whatever the retry loop does; any other is one failure and a queued first retry |
| PollerProgress.RetryAnswer | ccv/destination_reader/execution_attempt_poller.go:326-342 | the same for a retry, queued again until the third failure gives the event up |
| PollerProgress.LoopsAdvance | ccv/destination_reader/execution_attempt_poller.go:228-349 | in every reachable state each loop can step, its own steps come to an end, and the other loop's leave it in place |
| PollerProgress.AddOrder | ccv/destination_reader/execution_attempt_poller.go:283-290 | the task put into the queue is the newest and those that stay keep their order |
| PollerScans.HistoryAccounted | ccv/destination_reader/execution_attempt_poller.go:195-275 | if every window is answered by the scan of one history, under either end-of-window rule and any interleaving, every parsing event from the start up to the last polled ledger was fetched and is accounted for |
| AttemptPoller.CacheHoldsEveryAppend | ccv/destination_reader/execution_attempt_poller.go:353-398 | no interleaving loses an append, and every attempt stored under an ID re-hashes to it |
| AttemptPoller.AddMembers | ccv/destination_reader/execution_attempt_poller.go:283-290 | adding keeps keys distinct and at most 64 tasks, and loses only the replaced task or the oldest of a full queue |
| PollerLoops.Poller.HandleEvent | ccv/destination_reader/execution_attempt_poller.go:245-265 | the poller's own event step is the state machine's: checked for caching, or queued as a fresh retry |
| PollerLoops.Poller.HandleTask | ccv/destination_reader/execution_attempt_poller.go:326-342 | a failed retry is queued again or dropped at the third, a successful one goes on to the cache |
| PollerLoops.Poller.CacheAttempt | ccv/destination_reader/execution_attempt_poller.go:383-388 | the locked section appends one attempt to its message's list and nothing else |
| PollerLoops.Poller.GetExecutionAttempts | ccv/destination_reader/execution_attempt_poller.go:151-168 | in every reachable state, exactly the attempts cached for the message, in order |
| PollerLoops.Poller.constructor | ccv/destination_reader/execution_attempt_poller.go:172-206 | polling starts the lookback before the latest ledger, never below the minimum |
| Submission.WaitForTransaction | deployment/deployer.go:879-924 | the wait is settled by the first decisive answer, else by the deadline |
| Submission.BuildSimulateAndSubmitOnce | deployment/deployer.go:708-813 | the invocation is sent iff the simulation succeeds, a due restore was prepared and confirmed, the account re-read and the second simulation clean, and the assembly succeeds; then its own fate is reported, else a failed restore's own, else a fatal stop |
| Submission.BuildAndSubmitTransaction | deployment/deployer.go:669-703 | one to three rounds, each read from its own answers and followed by another exactly after a recoverable failure; reports the confirmed hash, the last failure once attempts are used up, or a fatal stop |
| Submission.OutcomeMeans | deployment/deployer.go:708-924 | each recoverable failure is, and is only, a full queue, a fee rejection, an exceeded budget or an expiry of the restore or invocation that decided the round; success is the invocation's own confirmation |
| Submission.RoundsAreWarranted | deployment/deployer.go:669-703 | at most three rounds, and another one exactly after a recoverable failure with attempts left |
| Submission.InflationIsSticky | deployment/deployer.go:683-688 | a round inflates its resources iff some earlier round exceeded its budget, whatever came between |
| Submission.EffectsAre | deployment/deployer.go:963-966 | the number of effects is the last round's plus those of expired transactions that landed late |
| Submission.AtMostOnce | deployment/deployer.go:669-865 | if expired transactions never land, the operation takes effect at most once, exactly once when confirmed, and never when retries ran out |
| Submission.LateLandingRepeats | deployment/deployer.go:963-966 | an expired transaction that lands after all makes two effects |
| ResourceDeclaration.AssembleResources | deployment/deployer.go:1118-1166 | the whole declaration of a round in machine arithmetic, or the fee-cap error |
| ResourceDeclaration.DeclarationReads | deployment/deployer.go:1118-1166 | attempt k after an exceeded budget declares each resource as the least of 2^(k-1) times the simulation (with the margin), the largest uint32 and a known cap, and the third a known instruction cap outright |
| ResourceDeclaration.FeeReads | deployment/deployer.go:1137-1163 | the fee is unscaled, doubled with the resources, or raised in the proportion of the instructions, as far as 64 bits hold it |
| ResourceDeclaration.RetryDeclaration | deployment/deployer.go:1118-1166 | after an exceeded budget, when the margin and the fee products fit, no resource wraps, each lies between min(simulated, cap) and its known cap, and the third attempt declares exactly a known instruction cap with the fee in proportion, rounded down |
| ResourceDeclaration.MarginWrapsIff | deployment/deployer.go:1121-1126 | the auth margin fits iff at most 4210654211 instructions were simulated; beyond that the declaration wraps below the simulation |
| ResourceDeclaration.InflatedIsBounded | deployment/deployer.go:1130-1152 | every inflated resource lies between min(simulated, cap) and a known cap |
| ResourceDeclaration.LastAttemptDeclaresCap | deployment/deployer.go:1153-1166 | the third attempt declares exactly a known instruction cap iff any instruction was simulated |
| ResourceDeclaration.RaisedFeeCoversIff | deployment/deployer.go:1157-1163 | the raised fee covers floor(fee*cap/instructions) iff the product fits int64 or that share is the old fee |
| ResourceDeclaration.RaisedFeeFallsShort | deployment/deployer.go:1157-1163 | a fee whose product overflows is under-declared |
| ResourceDeclaration.ClampInt64ToUint32 | deployment/deployer.go:1258-1266 | unknown iff not positive, else the setting or the largest uint32 below it |
| ResourceDeclaration.ClampToCap | deployment/deployer.go:1249-1254 | never above a known cap, unchanged under it or with an unknown one |
| ScvalInts.I128RoundTrip | bindings/scval/scval.go:379-413 | an accepted value survives encode then decode iff it is below 2^127 |
| ScvalInts.I128RangeEnds | bindings/scval/scval.go:392-405 | both misses at the ends of the range |
| ScvalInts.I128WordsRoundTrip | bindings/scval/scval.go:379-413 | every pair of words decodes and re-encodes to itself iff it is not the minimum |
| ScvalInts.I128DecodersAgree | ccv/source_reader/source_reader.go:293-299 | or-ing and adding the words give the same number for all words, in range |
| ScvalInts.U128RoundTrip | deployment/adapters/token_adapter_pool_ops.go:456-469 | every amount below 2^128 survives the conversion to words and back |
| ScvalInts.BigIntToU128Range | deployment/adapters/token_adapter_pool_ops.go:456-469 | accepted iff 0 <= v < 2^128 |
| ScvalInts.I256RoundTrip | bindings/scval/scval.go:449-487 | accepted iff in the two's complement range, and then decoded to itself through four big-endian words |
| ScvalInts.I128Value | bindings/scval/scval.go:379-390 | the decoded number is hi * 2^64 + lo |
| ScvalInts.U128Value | deployment/adapters/token_adapter_configure_transfers.go:989-995 | likewise for unsigned words |
| ScvalInts.I256Value | bindings/scval/scval.go:472-487 | the decoded number is the four words in base 2^64, the top one signed |
| ScvalInts.I256WordsRoundTrip | bindings/scval/scval.go:472-487 | every four words decode into the range and re-encode to themselves |
| Eip2098.ConvertVerifierBlobToEIP2098 | ccv/contract_transmitter/contract_transmitter.go:108-146 | short, empty and truncated payloads pass through, misaligned ones err, else a copy of the same length whose S words are rewritten and all other bytes kept |
| Eip2098.PayloadLenReads | ccv/contract_transmitter/contract_transmitter.go:108-120 | the payload length is the big-endian number of bytes 4 and 5 |
| Eip2098.RewriteDecodes | ccv/contract_transmitter/contract_transmitter.go:127-142 | each rewritten word reads under EIP-2098 as an s of at most n/2 and the parity of the flip |
| Eip2098.UndoRecovers | ccv/contract_transmitter/contract_transmitter.go:127-142 | undoing the flip recovers S iff S is at most the group order |
| Eip2098.RewriteInjective | ccv/contract_transmitter/contract_transmitter.go:108-146 | two in-range blobs with the same image are equal |
| Eip2098.CollidesAboveOrder | ccv/contract_transmitter/contract_transmitter.go:127-142 | two words around the order that rewrite alike |
| ScValConverters.ConvertsIffWellFormed | relayer/type_converters.go:16-181 | a domain tree converts iff no node is malformed |
| ScValConverters.ReadsIffSound | relayer/type_converters.go:309-713 | a Soroban tree, ledger-only values included, reads iff no arm it needs is nil and no address or value kind is unsupported |
| ScValConverters.ReadsMirror | relayer/type_converters.go:309-713 | whatever reads is the same kind with the same content, node by node, ledger-only values included |
| ScValConverters.WritesMirror | relayer/type_converters.go:16-181 | whatever is written is the same kind with the same content |
| ScValConverters.DomainRoundTrip | relayer/type_converters.go:16-181 | a converted domain tree reads back as itself |
| ScValConverters.ReturnsIffShared | relayer/type_converters.go:309-606 | reading and writing back both succeed iff the tree is of the shared fragment: no nil arm, no ledger-only value, only account and contract addresses |
| ScValConverters.XdrRoundTrip | relayer/type_converters.go:309-606 | a tree of the shared fragment read and written back is itself up to null versus empty, and any other tree fails on the way |
| BoundedConverter.BoundedVersusRelayer | capabilities/fakes/scval.go:32-187 | for every tree: the bounded converter accepts iff it is well formed and at most 64 deep; on those the relayer's answers the same iff no muxed account is inside, and else refuses; what only the relayer accepts is too deep |
| BoundedConverter.TakesIff | capabilities/fakes/scval.go:32-187 | from any depth on, accepted iff well formed and within the bound, muxed accounts included |
| BoundedConverter.RelayerTakesIff | relayer/type_converters.go:16-181 | the relayer's converter accepts the same trees at any depth iff they hold no muxed account |
| BoundedConverter.BoundedMirrors | capabilities/fakes/scval.go:32-187 | what the bounded converter accepts it writes node by node, muxed accounts included |
| BoundedConverter.MuxedAccountsDiffer | capabilities/fakes/scval.go:155-187 | muxed accounts are accepted here and refused by the relayer |
| BindingCodec.RoundTrip | bindings/generator/codegen.go:129-351 | for every schema and typed in-range value, the generated decoder inverts the generated encoder |
| BindingCodec.ScalarRoundTrip | bindings/generator/codegen.go:712-735 | each scalar type's decoder inverts its encoder |
| BindingCodec.FieldsDecode | bindings/generator/codegen.go:152-172 | the struct decoder sets exactly the fields its map names, in whatever order it lists them, and skips unknown and non-symbol keys |
| BindingCodec.SlotRoundTrip | bindings/generator/codegen.go:511-557 | a union's tag and positional payload decode to the one variant that was set |
| BindingCodec.EncodingDenotes | bindings/generator/codegen.go:129-509 | every typed value encodes, as the Soroban value its declaration gives it: scalars by arm and number, structs by named fields in order, enums by number or by tag and payload |
| BindingCodec.DecodeAccepted | bindings/generator/codegen.go:129-557 | whatever decodes is the value its Soroban value stands for; of a struct's map the last entry under each name counts and a field without one is zero |
| BindingCodec.EnumEncoding | bindings/generator/parser.go:93-111 | an enum value encodes as a u32 iff there is a variant and every one is unit with an explicit discriminant, else as a vec headed by the set variant's name |
| BindingCodec.UnionEncoding | bindings/generator/codegen.go:471-509 | a union encodes only with exactly one variant set, as that variant's verbatim tag followed by the encodings of its payload in order |
| BindingCodec.StructEncoding | bindings/scval/scval.go:168-193 | a struct encodes as one entry per field, the field's own encoding under its name, with the keys in lexicographic order |
| Splitting.SplitTopLevel | bindings/generator/parser.go:317-353 | computes the pieces the splitting lemmas speak about |
| Splitting.JoinRestores | bindings/generator/parser.go:317-353 | joining the pieces restores the text, up to one separator exactly when the text ends with one at the top level |
| Splitting.SplitInvertsJoin | bindings/generator/parser.go:317-353 | splitting the join of balanced items returns them, all but an empty last one |
| Splitting.SplitReturnType | bindings/generator/client_codegen.go:739-770 | computes the trimmed pieces of the one-counter splitter |
| Splitting.SplitParams | bindings/generator/parser.go:435-466 | the same, with parentheses not counted |
| Splitting.SplittersAgreeIff | bindings/generator/client_codegen.go:739-770 | from any depth and count, a trimming splitter returns the trimmed pieces of splitTopLevel iff at every comma one is at the top level exactly when the other counts zero |
| Splitting.SplittersAgree | bindings/generator/client_codegen.go:739-770 | so they agree on every text with no stray or uncounted bracket |
| Splitting.ItemsAgree | bindings/generator/parser.go:317-353 | the join of balanced items with a non-blank last one comes back from all splitters |
| Splitting.SplittersDiffer | bindings/generator/client_codegen.go:739-770 | a stray close bracket makes them disagree |
| SplitPositions.SplitsAtFirst | bindings/generator/parser.go:317-353 | the text is cut at the first separator after which no bracket of any kind is left open, and so on |
| SplitPositions.SplitsTrimmedAtFirst | bindings/generator/client_codegen.go:739-770 | the one-counter splitters cut at the first comma before which as many brackets are closed as opened, and drop a blank end |
| SplitPositions.TrimReads | bindings/generator/client_codegen.go:739-770 | a trimmed piece is the text without blanks around it and has none left there |
| Splitting.ExtractBalancedBody | bindings/generator/parser.go:206-220 | the text before the first brace that closes the opening one, or nothing when none does |
| Splitting.ExtractsBody | bindings/generator/parser.go:206-220 | whatever surrounds it, exactly a balanced body is extracted |

## Left out

- Failed RPC reads inside the planners: each would end the run with an error before its next write; the planners here read the chain directly.
- Operation-report caching, datastore lookups, MCMS payload encoding and batch metadata: a queued write is its entrypoint and arguments.
- Strkey and hex text: addresses are already decoded; a remote pool address that does not decode is an error input.
- Token decimals scaling of rate limits: limits arrive scaled.
- ConfigureTransfers.ConfigureTokenForTransfers: the registration arm that follows the pool writes in the same sequence is modelled on its own, in TokenAdminRegistry.
- Registry index, delisting and module management: easy members, and the planner does not use them.
- TokenAdminRegistry.SettlesInTwoRounds: each run is followed by its batch; reruns before the batch is executed are not modelled.
- EventScans.FetchAllEvents: nothing is claimed for servers with inclusive cursors, where it repeats the event at each page boundary; its own loop guard does not stop a server that alternates cursors, so it ends at the context's deadline.
- Topic filters and event decoding: the history holds the matching events; an unparsable event is a tag.
- AttemptPoller.EveryEventAccounted: a boundary ledger is queried twice, so coverage is stated, not exactly-once caching; displacement needs two events of one transaction.
- Time-based expiry of the attempt cache, tickers and shutdown.
- Fetching and decoding an execute transaction is one outcome per processing; the message hash is an arbitrary function.
- Submission: signing, sequence numbers and backoff durations; deadlines are an order of answers; the fee-bump percentage is an arbitrary amount.
- ResourceDeclaration.AssembleResources: at most three attempts, as the retry loop makes; decoding failures are outcomes of the round in Submission.
- BindingCodec: the emitted Go text, name mangling, generic client calls and events; types whose two sides do not compile together (vectors of strings, of options or of vectors, optional payloads).
- Eip2098: the transmitter around the rewrite.
- The regular expressions of the Rust parser, Go formatting, changesets, deployment plumbing, health reports and logging.
