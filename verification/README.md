# A verified model of the mytonprovider agent

The agent is a fleet of stateless workers. A worker takes a trigger from a Redis consumer group, runs one
of seven cycles (scan the master wallet, scan provider wallets, resolve endpoints, probe rates, inspect
contracts, check storage proofs, look up IP data), publishes a result, and acknowledges the trigger. Two of
the cycles advance a checkpoint in Postgres. This project models that behaviour in Dafny 4.11 and proves what
the agent relies on, over every history, schedule, crash and oracle outcome.

`dafny verify dfyconfig.toml` checks everything. The `.dfy` files follow the program's parts.

| part | files |
|---|---|
| shared records, strings, keys as text, sequence facts | `Common`, `Domain`, `Strings`, `HexText` |
| an account's history and the backward paging over it | `Chain`, `Paging` |
| scan_master: one scan, coverage of a scan, all runs, refinement of a full scan, the handler, what is false | `MasterScan`, `MasterCoverage`, `MasterProtocol`, `MasterRefinement`, `MasterCycle`, `MasterCounterexamples` |
| scan_wallets: one scan, coverage, the merge, all runs, the handler, what can be lost | `WalletScan`, `WalletCoverage`, `WalletMerge`, `WalletProtocol`, `WalletCycle`, `WalletCounterexamples` |
| the law of the seven handlers, and the consumer group: delivery, executions, timing, the exact overlap bound, one reaper pass | `Handlers`, `ConsumerGroup`, `Executions`, `NonOverlap`, `OverlapBound`, `ReaperPass` |
| the batch cycles: the fan-out, sampling, the breaker, the two batches | `FanOut`, `Sampling`, `Float32`, `Breaker`, `ProofBatch`, `ProbeBatch` |
| contract rejection, the inspection behind it, endpoint resolution and IP data | `LowBalance`, `Rejection`, `Inspection`, `Endpoints`, `IpInfo` |

## How the model is built

- Code that updates variables in loops is a method proved against a specification: the paging loop, both
  scans, the merge, the handlers (classes `MasterStore` and `WalletStore`), the reaper (class `PendingList`),
  the proof loop, the shuffle, the rejection join and the endpoint loop.
- Concurrency is a state machine: a `State`, a `Step` datatype, `Enabled` and `Apply`, and runs as sequences of
  states. The two scan protocols interleave any number of workers with chain growth, backend writes and
  aborts between any two calls; the consumer group interleaves workers, reapers, panics, failed
  acknowledgements and crashes; the fan-out interleaves goroutines, the launching loop and a cancellation.
- `MasterStore.CollectNewProviders` and `WalletStore.CollectStorageContracts` run the whole code from paging to
  checkpoint write, and are proved to end a path of their protocol from the state they found, for every
  combination of failing calls.
- Each of the seven handlers is a method over the outcomes of its calls that records them in a ghost trace. All
  are proved to obey one law (`Handlers.Obeys`): one publish, errors before it end the handler or are swallowed,
  errors after it are swallowed, and the publish decides what is appended. `Executions.Replay` shows that a thread
  of the consumer group can make exactly such calls, and the group's theorems hold for all of them.
- Network calls are arbitrary functions or parameters. A liteserver page is only required to be an honest,
  possibly short, slice of the history that ends at the requested transaction; it may fail at any request.

## Where the code and its documentation or comments disagree

The model follows the code.

- The architecture notes promise a `current < incoming` guard on LT writes (docs/01-architecture.md:160). The writes
  are unconditional. `MasterCounterexamples.RegressIff` gives the exact condition: the checkpoint can fall if and
  only if cycles may run concurrently or the backend writes LTs too, and then it can with complete fetches and no
  failure. With serialized cycles and no LT writes by the backend it never falls. The coverage theorems hold for
  every value it ever had.
- A comment says a fetch that hits its deadline collects the rest next time
  (internal/adapters/outbound/ton/liteclient/client.go:102-103). In general it does not, for either scanner:
  `MasterCounterexamples.CutFetchLosesRegistration` and `WalletCounterexamples.CutLoses` are runs in which a published LT
  passes what was left. The exact conditions for the master wallet:
  - for the next time, `MasterCoverage.CollectedNextTime`: the next complete cycle collects the rest if and only if
    every key of it has a registration above the checkpoint it starts from, as when that is still where the cut
    fetch started;
  - for one scan, `MasterCoverage.ScanLosesExactly`: its LT is safe to store if and only if it did not move or every
    key of the gap is reported anyway;
  - for a whole run, `MasterProtocol.LostExactly`: the lost keys are exactly those that a published LT of a cut fetch
    passed over and nobody reported since;
  - for a deployment, `MasterCounterexamples.LossIff`: keys can be lost if and only if fetches can be cut.

  With concurrent cycles a lost key can still be reported later, by a worker that had read the older checkpoint
  (`MasterCounterexamples.LostCanBeReported`). With serialized cycles and no LT writes by the backend it stays
  unreported, unless it is registered above the checkpoint or becomes known in another way
  (`MasterRefinement.UnreportedForGood`).
- A wallet scan whose lookup has no data for a contract moves past its withdrawals all the same
  (internal/adapters/outbound/ton/scanner.go:102-110 only logs it). `WalletProtocol.LostExactly` says which payments are lost, and `WalletCounterexamples.LossIff` that a deployment
  can lose payments if and only if fetches can be cut or lookups can have no data. An omitted contract is listed by a
  later complete scan if and only if that scan's lookup knows it and it paid above the scan's LT or in the newest
  transaction not above it, which every complete fetch brings along (`WalletCoverage.CompleteScanLists`); so the
  contract of the withdrawal at the stored LT is looked up again each time, and `WalletCounterexamples.OmittedIsListedLater` is
  a run in which it is lost first and listed then.
- The trigger is acknowledged after a failed or panicked execution too
  (internal/adapters/inbound/redisstream/consumer.go:202-203), so an acknowledged trigger need not have a result:
  `Executions.AckedWithoutResult` is such a run for every way in which a handler can fail without one. Exactly the
  entries with an execution that published have a result (`ConsumerGroup.ResultPerEntry`); when every execution of an
  entry returned and the publisher errors only when nothing was appended, those are the entries with an execution
  that returned ok (`ConsumerGroup.ResultIffOk`).
- A configured idle time of 15 minutes (config/config.yaml:5) with handler timeouts of 10, 30 and 60 minutes lets
  two executions of one message overlap: `OverlapBound.OverlapIffTooShort` gives the exact bound of ten timeouts, ten
  being the claim batch.

## Model

| member | source | states |
|---|---|---|
| `Paging.ListHistory` | internal/adapters/outbound/ton/liteclient/client.go:91-133 | For every history, page split, checkpoint and failure pattern the loop ends (the paging LT strictly falls), and what it collected is a contiguous newest segment, in which only the oldest transaction can be at or below the checkpoint; each request is for the page below the answer to the one before, it is the reply to the last request that stops the loop, with that stop, or fails it, and it fails if and only if it receives a fatal reply, which finding nothing is on the first request only |
| `Paging.RequestsAreDetermined` | internal/adapters/outbound/ton/liteclient/client.go:93-133 | A server determines the requests: the loop has one way to go, so the reply named above is the one it received |
| `Paging.StoppedDoesNotFail` | internal/adapters/outbound/ton/liteclient/client.go:93-133 | A fetch that stopped has received no fatal reply |
| `Paging.FetchIsDetermined` | internal/adapters/outbound/ton/liteclient/client.go:93-133 | The server determines what a fetch from an LT requests, how it stops and what it collects |
| `Paging.UncutIsComplete` | internal/adapters/outbound/ton/liteclient/client.go:93-133 | A server that is truthful and never answers with a deadline or -400 gives a complete fetch |
| `Paging.GetTransactions` | internal/adapters/outbound/ton/liteclient/client.go:71-143 | The parsed form of such a segment if and only if the address, the masterchain and the account could be had and no reply was fatal |
| `Paging.NewestAtOrBelow` | internal/adapters/outbound/ton/liteclient/client.go:122-129 | The inner loop stops at the newest transaction of the page at or below the checkpoint, or finds none |
| `Paging.CompleteFetchIsExact` | internal/adapters/outbound/ton/liteclient/client.go:91-133 | An uncut fetch has collected exactly the transactions above the checkpoint and the newest one at or below it |
| `Paging.CompleteFetchCovers` | internal/adapters/outbound/ton/liteclient/client.go:91-133 | Each transaction above the checkpoint is collected exactly once, and any collected one at or below it is unique and the newest such |
| `Paging.OnlyErrorsCut` | internal/adapters/outbound/ton/liteclient/client.go:96-129 | When the server reports nothing or an empty page only below the start of history, a fetch that is not complete was stopped by its deadline or by -400 |
| `Paging.ParsedSegment` | internal/adapters/outbound/ton/liteclient/client.go:135-140 | Parsing loses and adds nothing beyond what a transaction's own form decides, whatever the collection order |
| `MasterScan.Scan` | internal/adapters/outbound/ton/master_scanner.go:54-121 | Each returned provider comes from the first fetched registration of its key above the checkpoint, no key twice, none missed, and the LT is the running maximum |
| `MasterScan.ScanFindsExactly` | internal/adapters/outbound/ton/master_scanner.go:57-121 | A key is returned if and only if some fetched transaction above the checkpoint registers it |
| `MasterScan.RegistrationKeyIff` | internal/adapters/outbound/ton/master_scanner.go:77-99 | A comment registers a key if and only if its first "tsp-" is followed by the 64 hexadecimal digits of the key and nothing else |
| `MasterScan.RegistersFromFriendly` | internal/adapters/outbound/ton/master_scanner.go:68-75 | Only a message from a user-friendly address registers a key |
| `MasterScan.RegistrationRoundTrip` | internal/adapters/outbound/ton/master_scanner.go:77-99 | The registration comment of a key parses back to the lower-cased key |
| `MasterScan.RegistrationKeyIsCanonical` | internal/adapters/outbound/ton/master_scanner.go:87-99 | An extracted key is 64 lower-case hexadecimal digits |
| `MasterCoverage.ScanAccounts` | internal/adapters/outbound/ton/master_scanner.go:49-121 | The registrations up to the new LT are exactly those up to the old one, the returned ones and, if the LT moved, the gap the fetch left |
| `MasterCoverage.ScanLosesExactly` | internal/adapters/outbound/ton/master_scanner.go:49-121 | Everything up to the new LT is reported if and only if the LT did not move or the whole gap is reported |
| `MasterCoverage.CompleteScanFinds` | internal/adapters/outbound/ton/master_scanner.go:49-121 | An uncut fetch and scan finds exactly the keys registered above the old LT |
| `MasterCoverage.CompleteScanReaches` | internal/adapters/outbound/ton/master_scanner.go:55-66 | An uncut fetch and scan returns the largest LT above the checkpoint of a transaction that parses, or the checkpoint |
| `MasterCoverage.CollectedNextTime` | internal/adapters/outbound/ton/liteclient/client.go:101-106 | What a cut fetch left is collected by the next complete cycle if and only if each of its keys has a registration above the checkpoint that cycle starts from; so always when the checkpoint has not moved past the start of the cut fetch |
| `MasterCoverage.ScanIsSound` | internal/adapters/outbound/ton/master_scanner.go:49-121 | Everything returned is on chain, and the LT neither falls nor passes the tip |
| `MasterCoverage.CompleteFetchHasNoGap` | internal/adapters/outbound/ton/liteclient/client.go:91-133 | An uncut fetch leaves no gap |
| `MasterProtocol.StepKeepsInv` | internal/usecase/discovery/discovery.go:79-125 | Every step of any worker, the chain or the backend keeps the coverage invariant |
| `MasterProtocol.Coverage` | internal/usecase/discovery/discovery.go:79-125 | In every run, for every checkpoint value ever stored and every LT ever published, each registration at or below it is known, published, or was passed over by a published LT of a cut fetch |
| `MasterProtocol.LostExactly` | internal/usecase/discovery/discovery.go:79-125 | In every run a key is lost (registered at or below an LT ever stored or published, and unreported) if and only if a published LT of a cut fetch passed it over and nobody reported it since |
| `MasterProtocol.CompleteCoverage` | internal/usecase/discovery/discovery.go:79-125 | With complete fetches each such registration is known or published, whatever regressions the checkpoint had |
| `MasterProtocol.CompleteCycleReports` | internal/usecase/discovery/discovery.go:96-119 | When a cycle with a complete fetch has published, every registration that was on chain when it fetched is reported, up to what cut fetches passed over, whatever happened in between |
| `MasterProtocol.FreshDeployment` | internal/adapters/outbound/postgres/system.go:39-71 | A deployment with no stored checkpoint and no results is an admissible start, whatever is on chain |
| `MasterRefinement.IncrementalRefinesFullScan` | internal/adapters/outbound/ton/master_scanner.go:54-121 | Known and published keys, restricted to the checkpoint, equal what one scan of the whole history up to there finds; they never exceed a full scan, and equal it once the checkpoint has caught up |
| `MasterRefinement.SoundRunInvariant` | internal/usecase/discovery/discovery.go:79-125 | When known keys come from the chain or from published results, every known and published key is on chain in every reachable state |
| `MasterRefinement.SerialCheckpointMonotone` | internal/usecase/discovery/discovery.go:121-125 | With serialized cycles, and no LT writes by the backend, the checkpoint never decreases |
| `MasterRefinement.UnreportedForGood` | internal/usecase/discovery/discovery.go:79-125 | With serialized cycles and no LT writes by the backend, a key that is unreported between two cycles is reported later only if it is registered above the checkpoint or becomes known in another way |
| `MasterCycle.ScanForNew` | internal/usecase/discovery/discovery.go:91-114 | The payload is the not-yet-known part of the scan of what the server sent for the fetch from the checkpoint, with the LT it reached; there is none if and only if the account could not be had or the fetch received a fatal reply |
| `MasterCycle.CompleteResultReportsAll` | internal/usecase/discovery/discovery.go:96-114 | For a complete fetch the new providers' keys are exactly those registered above the checkpoint that are not known, each provider is as a registration on chain says, and LastLT is the newest parsed LT |
| `MasterCycle.MasterStore.CollectNewProviders` | internal/usecase/discovery/discovery.go:70-135 | The handler returns ok if and only if both reads, the fetch and the publish succeed, and obeys the law of handlers: an ok run appends one result, a failed one none unless its publish appended and reported an error. The result is the payload of the replies it received, and reports everything if the fetch is complete, as it is from a truthful server that never cuts; the checkpoint moves exactly when publish and write succeed and the LT grew, to the published LT. What it leaves behind ends a protocol path |
| `MasterCounterexamples.CheckpointCanRegress` | internal/adapters/outbound/postgres/system.go:22-37 | A run in which a slow worker lowers the checkpoint if cycles may be concurrent, or the backend does if it writes LTs, even with complete fetches |
| `MasterCounterexamples.RegressIff` | internal/adapters/outbound/postgres/system.go:22-37 | The checkpoint can fall if and only if cycles may run concurrently or the backend writes LTs |
| `MasterCounterexamples.CutFetchLosesRegistration` | internal/adapters/outbound/ton/liteclient/client.go:101-106 | For every key, a run in which a fetch cut by its deadline moves the checkpoint past that key's registration without reporting it |
| `MasterCounterexamples.LostCanBeReported` | internal/usecase/discovery/discovery.go:79-125 | With concurrent cycles, a run in which such a key is lost and later reported by a worker that had read the older checkpoint |
| `MasterCounterexamples.LossIff` | internal/adapters/outbound/ton/liteclient/client.go:101-112 | Registrations can be lost if and only if fetches can be cut, whatever else a deployment allows |
| `WalletScan.LatestWithdrawals` | internal/adapters/outbound/ton/scanner.go:51-67 | The map holds exactly the withdrawing contracts with the maximum LT of each, and the LT is the maximum over the old LT and all withdrawals |
| `WalletScan.Scan` | internal/adapters/outbound/ton/scanner.go:51-110 | Each withdrawing contract the lookup knows appears once with that data, its maximum LT and its own wallet only; the scan fails exactly when there is something to look up and the lookup cannot start |
| `WalletScan.InfosAreFaithful` | internal/adapters/outbound/ton/liteclient/client.go:155-184 | The lookup returns at most one info per asked address, with the chain's data, and one for each address that resolves |
| `WalletCoverage.ScanCovers` | internal/adapters/outbound/ton/scanner.go:46-110 | One scan extends coverage from the old LT to the new one, up to contracts the lookup omitted and the gap of the fetch |
| `WalletCoverage.CompleteFetchHasNoGap` | internal/adapters/outbound/ton/liteclient/client.go:91-133 | A complete fetch of a wallet leaves no gap |
| `WalletCoverage.CompleteScanLists` | internal/adapters/outbound/ton/scanner.go:51-100 | A complete scan lists exactly the contracts that the lookup knows and that paid above its LT or in the newest transaction not above it |
| `WalletCoverage.NewestIsListedAgain` | internal/adapters/outbound/ton/scanner.go:54-67 | A complete scan from the LT of a payment lists its contract again if and only if the lookup knows it |
| `WalletCoverage.CompleteScanReaches` | internal/adapters/outbound/ton/scanner.go:53-63 | A complete scan returns the LT of the newest withdrawal above its LT, or its LT |
| `WalletCoverage.ListingIsExact` | internal/adapters/outbound/ton/scanner.go:64-99 | A listed contract has the lookup's data, its own wallet only, and the LT of its newest payment in the fetch |
| `WalletCoverage.PaidByIff` | internal/adapters/outbound/ton/scanner.go:58-60 | A payment is an internal message with operation 0xa91baf56, of the contract that sent it |
| `WalletMerge.MergedIsExact` | internal/usecase/discovery/discovery.go:195-205 | One merged contract per scanned address, with the first scan's data, the maximum LT and the concatenated providers in wallet order |
| `WalletMerge.MergeConserves` | internal/usecase/discovery/discovery.go:195-205 | Merging keeps the multiset of (contract, provider) pairs |
| `WalletMerge.Relations` | internal/usecase/discovery/discovery.go:213-235 | One relation per listed provider with a wallet row, as a multiset, each with its contract's data and the provider's key |
| `WalletMerge.RelationsConserveScans` | internal/usecase/discovery/discovery.go:157-235 | As many relations as contracts returned by successful scans, one for each scanned pair; the unknown-provider branch drops nothing |
| `WalletProtocol.StepKeepsInv` | internal/usecase/discovery/discovery.go:165-251 | Every step of any worker, chain or backend keeps the wallet coverage invariant |
| `WalletProtocol.Coverage` | internal/usecase/discovery/discovery.go:165-251 | In every run each withdrawal at or below any LT ever stored or published for a wallet has its contract in a published result, or was missed by the published scan that passed it; a scan misses a contract only if its lookup had no data for it or its fetch was cut |
| `WalletProtocol.LostExactly` | internal/usecase/discovery/discovery.go:165-251 | In every run a payment is lost (at or below an LT ever stored or published for the wallet, its contract listed nowhere) if and only if a published scan that passed it missed the contract and nobody listed it |
| `WalletCounterexamples.CutLoses` | internal/adapters/outbound/ton/liteclient/client.go:101-106 | A run in which a fetch cut by its deadline loses the contract of a withdrawal in its gap |
| `WalletCounterexamples.OmissionLoses` | internal/adapters/outbound/ton/scanner.go:78-110 | A run in which a lookup without data loses the contract of a withdrawal that the scan passed |
| `WalletCounterexamples.OmittedIsListedLater` | internal/adapters/outbound/ton/scanner.go:51-110 | A run in which such a contract is lost first and listed by the next scan, which fetches the withdrawal at the stored LT again |
| `WalletCounterexamples.LossIff` | internal/adapters/outbound/ton/scanner.go:46-110 | Payments can be lost if and only if fetches can be cut or lookups can have no data |
| `WalletProtocol.OnlyPublishedLTsReachRows` | internal/usecase/discovery/discovery.go:242-251 | A wallet's LT changes only to a value that an already published result carries for its key |
| `WalletCycle.ScanWallet` | internal/adapters/outbound/ton/scanner.go:27-111 | A scan is the outcome of what the server sent for the fetch from the wallet's LT; it fails if and only if the fetch does, or there is something to look up and the lookup cannot start |
| `WalletCycle.CompleteTurnIsExact` | internal/adapters/outbound/ton/scanner.go:46-110 | With a complete fetch a scan reaches the newest withdrawal and lists exactly the contracts it has to, each with its data |
| `WalletCycle.AdvancedExactly` | internal/usecase/discovery/discovery.go:207-210 | With one wallet per key, a wallet with a complete fetch is among the advanced ones if and only if there is a withdrawal above its LT, and then with the newest such LT |
| `WalletCycle.ScanWallets` | internal/usecase/discovery/discovery.go:162-211 | The wallet loop fetches and scans wallet after wallet and gives the merge of all successful scans and the wallets they advanced; it gives nothing exactly when cancelled before some wallet |
| `WalletCycle.MergeScan` | internal/usecase/discovery/discovery.go:195-205 | The inner loop merges one wallet's contracts into the merge of all before |
| `WalletCycle.ScansListOwnWallet` | internal/adapters/outbound/ton/scanner.go:91-99 | Each scanned contract lists exactly one provider, which is a loaded wallet's address |
| `WalletCycle.LTsForCarry` | internal/adapters/outbound/postgres/provider.go:823-846 | The update carries each advanced wallet's LT under its lower-cased key |
| `WalletCycle.AddrToPubkey` | internal/usecase/discovery/discovery.go:157-160 | Each wallet address is mapped to the key of the last wallet with it |
| `WalletCycle.WalletStore.CollectStorageContracts` | internal/usecase/discovery/discovery.go:137-261 | The whole handler, fetches and scans included, obeys the law of handlers and ends a protocol path whatever fails; a load error, a cancellation or a failed publish changes no LT; otherwise one result that conserves the scans is appended, and exactly the advanced wallets' rows take their LTs if the update succeeds. For every wallet with a complete fetch, as from a truthful server that never cuts, the result lists every contract the lookup knows that paid above the wallet's LT, and advances the wallet to its newest withdrawal |
| `Handlers.OneResultIfOk` | internal/adapters/inbound/redisstream/consumer.go:166-203 | A handler that obeys the law has appended exactly one result if it returned ok, and none if it failed, unless its publisher reported an error for an appended result |
| `Handlers.Publish` | internal/adapters/outbound/redisstream/publisher.go:33-46 | Publishing after calls none of which ended the handler completes a lawful trace: ok exactly when the result was appended and acknowledged |
| `Executions.Replay` | internal/adapters/inbound/redisstream/consumer.go:150-220 | From any state in which a thread holds an entry, the consumer group can execute exactly the calls of a lawful handler, return as it did and append what it appended, under the entry's job id |
| `Executions.AckedWithoutResult` | internal/adapters/inbound/redisstream/consumer.go:202-203 | For every lawful way to fail without a result there is a run in which the trigger is acknowledged and has none |
| `Executions.SomeAckedWithoutResult` | internal/adapters/inbound/redisstream/consumer.go:202-203 | Under every configuration some acknowledged entry can be without a result |
| `ConsumerGroup.RunKeepsInv` | internal/adapters/inbound/redisstream/consumer.go:103-220 | Delivery, execution and result bookkeeping hold in every reachable state |
| `ConsumerGroup.DeliveryConservation` | internal/adapters/inbound/redisstream/consumer.go:142-220 | In every reachable state an entry is exactly one of undelivered, pending and acknowledged, and an acknowledged one was executed to an end |
| `ConsumerGroup.LeavesPendingByAck` | internal/adapters/inbound/redisstream/consumer.go:166-208 | An entry leaves the pending list only by an acknowledgement that follows a finished execution of that entry, returned, failed or panicked |
| `ConsumerGroup.ResultPerExecution` | internal/adapters/inbound/redisstream/consumer.go:166-203 | A run that returned ok published; one that returned an error did not, if the publisher errors only when nothing was appended; and the results of a job are as many as its publishing executions |
| `ConsumerGroup.ResultPerEntry` | internal/adapters/inbound/redisstream/consumer.go:166-203 | An entry, acknowledged or not, has a result if and only if one of its executions published |
| `ConsumerGroup.ResultIffOk` | internal/adapters/inbound/redisstream/consumer.go:166-203 | If all executions of an entry returned and the publisher errors only when nothing was appended, the entry has a result if and only if one of them returned ok |
| `ConsumerGroup.ResultsPerJob` | internal/adapters/inbound/redisstream/consumer.go:166-203 | Results of a job are its ok executions, those that published and did not return (still running, panicked or crashed), and those whose publisher reported an error after appending; the last are none if it errors only when nothing was appended |
| `OverlapBound.NoOverlap` | internal/adapters/inbound/redisstream/reaper.go:37-54 | If handlers keep their timeout and claims and acks take no time, an idle time of at least ten timeouts means no two executions of a message overlap, over all workers and reapers |
| `OverlapBound.OverlapIffTooShort` | internal/adapters/inbound/redisstream/reaper.go:37-54 | For every configuration, an overlap is reachable if and only if the idle time is below ten timeouts |
| `OverlapBound.ShippedConfigurationCanOverlap` | config/config.yaml:5-44 | The shipped idle time allows an overlap for every shipped timeout |
| `ReaperPass.PendingList.AutoClaim` | internal/adapters/inbound/redisstream/reaper.go:37-44 | One claim call: the idle entries it examined, at most ten, in order, with their idle time reset, and a cursor that moved past an entry |
| `ReaperPass.PendingList.ClaimPending` | internal/adapters/inbound/redisstream/reaper.go:32-60 | A pass ends; it claims every entry that was idle long enough at its start, each claimed entry once and in order, and none that was not idle long enough when it was claimed, which is not after the entries claimed before it were executed; when handlers take no time the claimed entries are exactly those idle at the start. It leaves the others untouched, and removes exactly the claimed entries whose ack succeeds |
| `ReaperPass.InstantClaims` | internal/adapters/inbound/redisstream/reaper.go:37-54 | When handlers take no time, a claimed entry was idle long enough when the pass began |
| `FanOut.RunKeepsInv` | internal/usecase/proof/proof.go:101-138 | Semaphore, wait group and accumulator agree with the goroutines in every schedule |
| `FanOut.InFlightBounded` | internal/usecase/proof/proof.go:120-136 | Checks in flight never exceed the semaphore's capacity |
| `FanOut.PayloadIsComplete` | internal/usecase/proof/proof.go:109-151 | A published payload is the multiset union of one full output per item; a cancelled or partial batch is never published |
| `FanOut.RunsAreBounded` | internal/usecase/proof/proof.go:120-138 | Every schedule ends within six steps per item and five more |
| `FanOut.Progress` | internal/usecase/proof/proof.go:120-151 | With a positive capacity no schedule deadlocks |
| `Sampling.SampleContracts` | internal/usecase/proof/proof.go:236-256 | The sample has the configured size and no contract more often than given; all contracts when sampling is off |
| `Sampling.Shuffle` | internal/usecase/proof/proof.go:249-253 | The in-place shuffle is a permutation |
| `Sampling.SampleSizeBounds` | internal/usecase/proof/proof.go:237-247 | A sampled provider always has at least one and at most the configured number of bags checked |
| `Sampling.SampleSizeIsShare` | internal/usecase/proof/proof.go:241-247 | The size is the rounded-down percentage share if that is positive and below the limit, otherwise the limit |
| `Float32.ThresholdIsAFifth` | internal/usecase/proof/proof.go:185 | The float32 product, rounded and truncated, is n / 5 for every n that float32 represents exactly |
| `Breaker.CheckSample` | internal/usecase/proof/proof.go:182-233 | Results are in sample order; a position reports an unavailable provider exactly when some T + 1 consecutive earlier proofs all failed, and otherwise what Verify said for its bag; a cancelled run gives a prefix, an uncancelled one the whole sample; Verify is called exactly while the breaker is closed |
| `Breaker.UnavailableIsSuffix` | internal/usecase/proof/proof.go:193-201 | The unavailable code appears exactly where the breaker is open, and those positions are a suffix |
| `Breaker.CallsAfterLastValid` | internal/usecase/proof/proof.go:193-222 | At most T + 1 Verify calls follow the last valid proof |
| `Breaker.CallsWithoutValid` | internal/usecase/proof/proof.go:193-222 | Without a valid proof there are at most T + 1 calls: one at position i means i is at most T |
| `Breaker.NoBreakerForSmallSamples` | internal/usecase/proof/proof.go:185-193 | The breaker is off exactly for fewer than five bags, and then every bag is verified |
| `Breaker.FillReason` | internal/usecase/proof/proof.go:258-270 | Every contract gets the reason, in order |
| `Breaker.CheckProvider` | internal/usecase/proof/proof.go:161-234 | An unreachable provider fails all its contracts with IPNotFound, sampled or not; otherwise the results are the breaker's entries for a sample under a threshold of a fifth, and without cancellation none is missing |
| `ProofBatch.GroupByProvider` | internal/usecase/proof/proof.go:96-99 | One group per provider of the relations, with all its relations in order |
| `ProofBatch.GroupsConserve` | internal/usecase/proof/proof.go:96-99 | Over any iteration order the groups together hold each relation exactly once |
| `ProofBatch.PublishedBatch` | internal/usecase/proof/proof.go:96-151 | For every schedule and map order a published payload has at most one result per active relation, and exactly one when no provider is sampled, as multisets of (contract, provider address); as a multiset of (contract, provider address, reason) it is what the providers' checks gave |
| `ProofBatch.ReasonsRest` | internal/usecase/proof/proof.go:161-234 | Every published result belongs to a provider of the relations: IPNotFound for one of its relations if it cannot be reached, otherwise the breaker's entry for a position of a sample |
| `ProofBatch.UnreachableFailsAll` | internal/usecase/proof/proof.go:169-178 | Every relation of a provider that cannot be reached is published as IPNotFound |
| `ProofBatch.CheckStorageProofs` | internal/usecase/proof/proof.go:76-159 | The handler, over any schedule of its fan-out, obeys the law of handlers, publishes the batch as it was accumulated, which is such a payload, and returns ok exactly when the relations were read, the batch was not cancelled and the publish was acknowledged |
| `ProofBatch.BatchIsBounded` | internal/usecase/proof/proof.go:101-138 | Provider checks in flight stay within the capacity and every schedule ends |
| `ProofBatch.BatchProgress` | internal/usecase/proof/proof.go:120-151 | No schedule of the proof cycle deadlocks |
| `ProbeBatch.WellFormedKeeps` | internal/usecase/poll/poll.go:104-112 | The loop probes each listed key as often as it is listed if it decodes to 32 bytes, and no other |
| `ProbeBatch.PublishedProbes` | internal/usecase/poll/poll.go:95-155 | For every schedule a published payload has one status per listed well-formed key, none for another, and as many rate updates for a key as online statuses; each record is there exactly as often as probes answered it: online for a key online without an error, with those rates, offline otherwise |
| `ProbeBatch.UpdateProviderRates` | internal/usecase/poll/poll.go:75-169 | The handler, over any schedule of its fan-out, obeys the law of handlers, publishes the batch as it was accumulated, which is such a payload, and returns ok exactly when the keys were read, the batch was not cancelled and the publish was acknowledged |
| `ProbeBatch.PublishedRates` | internal/usecase/poll/poll.go:122-142 | A published rate update carries what an online provider with that key answered without error |
| `ProbeBatch.BatchIsBounded` | internal/usecase/poll/poll.go:98-146 | Probes in flight stay within the capacity and every schedule ends |
| `LowBalance.IsRemovedByLowBalance` | internal/usecase/poll/poll.go:278-296 | Removal is the division-free test (balance - 50000000 + 1) * 90596966400 <= rate * size * span with a positive last proof time and a passed deadline |
| `LowBalance.DeadlineIsExact` | internal/usecase/poll/poll.go:294 | The 64-bit deadline is the plain sum exactly when the sum fits |
| `LowBalance.RemovalIsMonotone` | internal/usecase/poll/poll.go:278-296 | A removed contract stays removed later and with less balance |
| `LowBalance.ShortageIsMonotone` | internal/usecase/poll/poll.go:281-284 | The bounty grows with rate, size and span |
| `HexText.HexInjective` | internal/usecase/poll/poll.go:216 | Keys with equal hexadecimal text are equal, so the join on text is a join on keys |
| `HexText.HexIsLowerCase` | internal/usecase/poll/poll.go:216 | The text of a key is hexadecimal and in lower case |
| `HexText.HexRoundTrip` | internal/usecase/poll/poll.go:216 | Two digits of the text, high digit first, give each byte back |
| `HexText.PubkeyIsTextOf32Bytes` | internal/usecase/poll/poll.go:109-112 | The accepted keys are exactly the texts of 32 bytes, in either case |
| `Rejection.IndexSizes` | internal/usecase/poll/poll.go:191-196 | The size map gives the last relation's size for every contract, and the address set is the relations' contracts |
| `Rejection.Survivors` | internal/usecase/poll/poll.go:213-228 | The set of one state holds a key exactly when a provider with it survives the balance test |
| `Rejection.IndexStates` | internal/usecase/poll/poll.go:209-238 | The state map describes the last state of every address, and the skipped list names the unreadable states in order |
| `Rejection.JoinStates` | internal/usecase/poll/poll.go:191-256 | The rejected list is, in order, the relations whose contract has no state or an error-free state without a surviving provider of that key; the active count is the relations with one |
| `Rejection.UpdateRejectedContracts` | internal/usecase/poll/poll.go:171-276 | The handler inspects each distinct contract address of the relations once, publishes the join with the states that came back, obeys the law of handlers and returns ok exactly when all its calls succeed |
| `Rejection.ExactlyOne` | internal/usecase/poll/poll.go:242-256 | Every relation is exactly one of rejected, active and skipped |
| `Rejection.Partition` | internal/usecase/poll/poll.go:240-256 | Rejected, active and skipped relations add up to the input |
| `Rejection.RejectedMember` | internal/usecase/poll/poll.go:240-256 | A relation is listed as rejected as often as it was given if it meets the condition, and not otherwise |
| `Inspection.ReturnsInspection` | internal/adapters/outbound/ton/liteclient/client.go:195-248 | For every schedule of the inspection's goroutines the returned list has at most one state per asked position, with its address, and an asked address has a state if and only if it parses |
| `Inspection.InFlightBounded` | internal/adapters/outbound/ton/liteclient/client.go:195-206 | Calls in flight never exceed the semaphore's capacity |
| `Inspection.RunsAreBounded` | internal/adapters/outbound/ton/liteclient/client.go:200-246 | Every schedule takes four steps per address to return |
| `Inspection.Progress` | internal/adapters/outbound/ton/liteclient/client.go:200-246 | With a positive capacity no schedule deadlocks |
| `Inspection.NoStateMeansBadAddress` | internal/adapters/outbound/ton/liteclient/client.go:199-243 | With the inspection of all its contracts, a relation has no state exactly when its address does not parse, and is skipped exactly when its address is in the skipped list |
| `Rejection.InspectedAreDistinct` | internal/adapters/outbound/ton/liteclient/client.go:199-243 | Distinct asked addresses give at most one state per address |
| `Rejection.SkippedListIsExact` | internal/usecase/poll/poll.go:230-256 | A relation's address is in the skipped list if and only if the relation is skipped, so no rejected relation's address is there |
| `Rejection.RejectionIsMonotone` | internal/usecase/poll/poll.go:212-256 | With the chain fixed, rejections only grow with time and only shrink as balances rise |
| `Endpoints.IndexRelations` | internal/usecase/discovery/discovery.go:289-296 | Each provider gets its first relation's contract and all its bags in order |
| `Endpoints.ResolveStorageWithOverlay` | internal/adapters/outbound/dht/dht.go:91-194 | A random part of the bags of the configured size is searched; an endpoint is found exactly when some searched overlay has a node at the provider's address, and it is the first such node |
| `Endpoints.BagsToCheckIsShare` | internal/adapters/outbound/dht/dht.go:103-109 | A tenth of more than a hundred bags is searched, a fifth of more than five, rounded down, and all of fewer |
| `Endpoints.OverlayStorageIsAtProvider` | internal/usecase/discovery/discovery.go:341-353 | A storage endpoint that an overlay filled in is at the provider's own, non-empty address |
| `Endpoints.ClassesPartition` | internal/usecase/discovery/discovery.go:313-357 | Fresh, failing and resolvable providers are exclusive and exhaust the providers |
| `Endpoints.ResolveAll` | internal/usecase/discovery/discovery.go:298-358 | In any iteration order the counters and entries are those of the three classes, each provider once; nothing is returned exactly when the context was cancelled |
| `Endpoints.ResolveEndpoints` | internal/usecase/discovery/discovery.go:263-380 | The handler obeys the law of handlers; in what it publishes resolved, skipped and failed add up to the distinct providers of the relations, those are skipped whose stored endpoint is younger than the limit, and every entry has a non-empty provider address; it returns ok exactly when its reads, its context and its publish do |
| `IpInfo.UpdateIPInfo` | internal/usecase/update/update.go:58-130 | The handler obeys the law of handlers, publishes the answered targets in order, and returns ok exactly when its read, its context, also in the pauses, and its publish do |
| `IpInfo.ItemsAreExact` | internal/usecase/update/update.go:79-116 | There is an item for exactly the targets that have an address and were answered |

## Left out

- Liteserver, ADNL, DHT, RLDP and HTTP calls, Merkle proofs and BoC parsing: arbitrary oracles, so no property depends on a proof that is actually valid.
- SQL text, JSON, configuration loading, metrics, tracing, logging, `cmd/` and deployment: not modelled. Tables are the checkpoint, the wallet rows, the known keys and the relations.
- The backend: an environment that adds triggers and keys and writes LTs taken from published results. What it applies, and its deduplication by job id, are not modelled; coverage is about published results.
- Trimming of the result and trigger streams: published results and entries are append-only.
- The reaper after a failed XAUTOCLAIM: its error branch reuses the returned cursor without leaving the loop, and no termination is claimed there. Other consumers acting during a pass are covered by the consumer group, not by the pass.
- `TryNTimes`, `ValidateBagID` and the load tester: easy members.
- In the two batch handlers the goroutines' own calls are not in the trace: their order depends on the schedule, and their errors are swallowed.
- Timestamps of results (`CheckedAt`, and `RegisteredAt` beyond copying it), transaction hashes and destination addresses, and nil transactions, which the client never returns.
- Strings are ASCII text; LTs are unbounded naturals, since the code only compares them.
- Rows of wallets are never deleted and have lower-case keys, as the write by lower-cased key needs.
- MasterCycle.MasterStore.CollectNewProviders: one execution runs over a fixed chain and store; interleaving with other workers and chain growth is in MasterProtocol.
- WalletCycle.WalletStore.CollectStorageContracts: one execution runs over fixed chains and rows; interleaving is in WalletProtocol. When two advanced wallets share a key the last one's LT is written, where the database may pick either; WalletProtocol allows both.
- OverlapBound.NoOverlap: an execution that ends in the instant another one starts does not count as overlapping.
- Float32.ThresholdIsAFifth: stated for samples below 2^24 bags, where the conversion to float32 is exact.
- Rejection.SkippedListIsExact: needs one state per address, which the inspection gives; the join itself is specified for any states.
- LowBalance.IsRemovedByLowBalance: the current time is a parameter, read once per provider in Rejection.
