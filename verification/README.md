# Verified model of the VynX relayer

The relayer accepts swap intents over HTTP, auctions each one for a short window among solvers connected by
WebSocket, and settles the winning bid on chain. This project models that path and proves what it guarantees over
every interleaving of its goroutines, every answer of the node and every input.

`dafny verify dfyconfig.toml` verifies the whole project.

## How the model is built

| part | files | form |
|---|---|---|
| auction engine | `WinnerSelection`, `AuctionHistory`, `EngineMachine`, `EngineInvariant`, `EngineProgress`, `EngineTheorems`, `CallHistories`, `EngineRuns`, `EngineWitnesses`, `AuctionEngine` | a step machine at the grain of lock operations, and the code as a class |
| nonces and settlement | `NonceQueue`, `Executor`, `Settlement` | the code as classes, its steps, and the steps composed with a node |
| solver hub and ingress | `RwMutex`, `HubMachine`, `HubInvariant`, `HubCalls`, `Ingress` | a step machine over closable channels, and the code as classes |
| whole pipeline | `Relayer`, `Traffic`, `Conservation`, `Provenance`, `ClaimWords`, `Tally` | the engine, executor and queues composed into one machine |
| encodings and arithmetic | `ClaimEncoding`, `Signer`, `GasBuffer` | functions and lemmas |

**Machines.** A run is a list of labelled steps; `Feasible` says that each step is allowed where it is taken and
`Exec` gives the state the run ends in. The scheduler, the auction timer, the clients and the node's answers are the
choice of the labels, so a statement about all feasible runs is a statement about all of them. In the engine machine
acquiring a lock, a lookup, reading the bid slice, writing it, each iteration of the selection loop, the channel send
and releasing a lock are separate steps. Auction entries are numbered in the order they are created and goroutines
hold those numbers as the source holds pointers, so an entry outlives its registration and an id can be used again.

**One specification, two implementations.** `AuctionHistory` defines a sequential auction object: which event is legal
after which, and what a legal history leads to. The class in `AuctionEngine` is the source's code, operation by
operation, proved to perform exactly those events. The interleaved machine is proved to perform a legal history too,
so everything proved about legal histories holds of every interleaved run.

**Hashing and packing.** Keccak-256 is a parameter: an arbitrary function from bytes to 32 bytes. Binding results say
that equal digests come from equal inputs or return two different inputs with one hash. The ABI library's packing of
integers is a parameter too: in [0, 2^256) it is big-endian, outside it may refuse or yield any word.

**Node.** `Settlement.Allowed` states what is expected of the Ethereum node: it takes only unused nonces, gives a
nonce error only for used ones, never forgets a nonce, and answers the pending-nonce query truthfully. Any other error
leaves open whether it took the nonce.

## Where the code differs from what is said about it

- docs/API.md line 143 says that a bid that arrives after the auction window is rejected. The code decides at the
  registry lookup, and the entry stays registered until the cleanup, after the selection.
  `EngineWitnesses.LateBidIsAccepted` gives, for every intent and every priced bid for it, a run in which the bid is
  appended after the selection and accepted. `EngineTheorems.LookupDecidesTheOutcome` gives the exact condition for all
  runs: a bid is accepted if and only if its id is registered at the lookup.
  `EngineTheorems.BidCountsIffAppendedInTime` shows that such a bid takes no part in the selection and that no later
  step changes the selection or a voucher.
- docs/API.md line 34 recommends UUIDs as ids. The claim id keeps only the first 32 bytes of their 36 characters, so
  every UUID shares its claim id with another one (`ClaimEncoding.EveryUuidCollides`), while the auctions of the two
  stay distinct. `ClaimEncoding.SameClaimIdIff` gives the exact condition for all ids.
- The contract sees claim ids only. One claim id is claimed at most as often as ids with that encoding were started
  (`ClaimWords.ClaimsPerWord`), and for any two intents whose ids encode alike there is a run in which both are claimed
  (`ClaimWords.TwoClaimsOneWord`).
- The 10 % gas buffer is computed in binary floating point. `GasBuffer.FloatBufferIsExactIff` says for every estimate when
  it equals the integer floor(11 * raw / 10). It does for every estimate below 511,772,684,928,469, and there it is one
  higher. At 9,007,199,254,741,001, which float64 rounds down, it is one lower. It is never below the estimate
  (`GasBuffer.NeverBelowEstimate`).
- No step compares a bid with the minimum the user asked for. A voucher meets that minimum if and only if some bid
  considered by its auction did (`EngineTheorems.VoucherCarriesTheWinner`); `EngineWitnesses.VoucherBelowMinimum` emits
  one that does not, for every intent and every bid that offers less.
- A claim that fails before it reaches the node's pool leaves a gap in the nonces. With no other sender no later answer
  of the node triggers a resync, so the gap stays (`Settlement.FirstLostNonceStaysPending`).
  `Settlement.LossIsPossible` gives such a run for every voucher and every fresh start.
  `Settlement.NextClaimIsPendingIffNothingWasLost` is the exact condition.

## Model

| member | source | states |
|---|---|---|
| `WinnerSelection.ScanFindsTheEarliestMaximum` | internal/auction/state.go:76-87 | after any number of iterations the loop holds the bid that strictly beats everything before it and is beaten by nothing after it |
| `WinnerSelection.WinnerMeetsTheRule` | internal/auction/state.go:63-88 | the selection meets the declarative rule: the earliest lexicographic maximum, and nil exactly for no bids |
| `WinnerSelection.WinnerIsMaximal` | internal/auction/state.go:76-87 | the winner is one of the bids, none offers more, and none that offers as much pays more for gas |
| `WinnerSelection.WinnerArrivedFirst` | internal/auction/state.go:76-87 | on the numbers: every earlier bid offers less, or as much with a lower gas price, and no later bid offers more or as much with a higher gas price |
| `WinnerSelection.WinnerIsUnique` | internal/auction/state.go:76-87 | the rule leaves no choice: two results that meet it are equal |
| `WinnerSelection.WinningPriceIgnoresArrivalOrder` | internal/auction/state.go:76-87 | bids that are a permutation of each other give the same winning amount and gas price |
| `WinnerSelection.WinnerMeetsMinimumIffSomeBidDoes` | internal/auction/state.go:76-87 | for every minimum, the winner offers at least that much iff some bid does |
| `AuctionHistory.ReplayKeepsStartsAndAppends` | internal/auction/state.go:18-23 | in every legal history each entry holds the intent it was started for and exactly the bids appended to it, in order, all with both amounts present |
| `AuctionHistory.AppendedBidsMatch` | internal/auction/state.go:44-58 | every bid in an entry names the id that entry was started for |
| `AuctionHistory.SelectedOnce` | internal/auction/matcher.go:78-87 | no auction is selected twice in a legal history |
| `AuctionHistory.ReplayIsConsistent` | internal/auction/state.go:34-40 | in every legal history the registry points to existing entries of the right id, and an undecided auction is the registered one of its id |
| `AuctionHistory.StartsAreAccountedFor` | internal/auction/matcher.go:39-118 | per id, successful starts equal vouchers emitted, vouchers dropped, auctions closed without bids and auctions undecided |
| `AuctionHistory.VoucherProvenance` | internal/auction/matcher.go:87-107 | every emitted voucher carries the winner of precisely the bids appended before its auction's only selection, and the intent the auction was started for |
| `EngineInvariant.StepKeepsInv` | internal/auction/state.go:27-97 | one step of any goroutine keeps the engine invariant: locks agree with their holders, the shared data with the history, every registered id with the one goroutine in charge |
| `EngineInvariant.RunKeepsInv` | internal/auction/matcher.go:39-118 | every state of every run of starts, bids, auctions and receives, in any interleaving, satisfies that invariant |
| `EngineTheorems.Linearizable` | internal/auction/matcher.go:39-118 | in every interleaved run the completed events form a legal sequential history, and registry, bid slices and voucher channel hold exactly what that history leads to |
| `CallHistories.EveryCallDoesItsEvents` | internal/auction/matcher.go:39-118 | in every interleaved run that history consists of the calls' own events and each return value tells them: success of SubmitBid is one append of its bid and failure none, success of StartAuction is one start and failure one refusal, a finished auction is one selection, one close and one removal of its own entry |
| `EngineTheorems.NoDataRace` | internal/auction/state.go:27-33 | in every reachable state whoever is about to write the registry excludes every other user of it, and no two goroutines are at one entry's bids together |
| `EngineTheorems.RegistryOwnership` | internal/auction/matcher.go:39-55 | in every reachable state an id is registered iff a goroutine tends an auction of it; that goroutine is unique and the registered entry is the one its start created |
| `EngineTheorems.AuctionTouchesOnlyItsOwn` | internal/auction/matcher.go:78-87 | in every reachable state, given only an id, an auction goroutine looks up, scans and deletes the entry its own start created, and changes no other registration and no entry, even when ids are used again |
| `EngineTheorems.PausedBidKeepsItsTarget` | internal/auction/state.go:44-58 | a bid paused after its lookup keeps the entry it found through any run, across cleanup and restart of the id, until it has returned success |
| `EngineTheorems.AppendTouchesOnlyItsTarget` | internal/auction/state.go:53-57 | the append loses no bid and changes only the entry looked up: no other entry, registration, selection or voucher |
| `EngineTheorems.LookupDecidesTheOutcome` | internal/auction/state.go:44-51 | whatever happens afterwards, a bid is accepted iff its id was registered at its lookup, and a start succeeds iff its id was not |
| `EngineTheorems.BidCountsIffAppendedInTime` | internal/auction/matcher.go:87-107 | in every run each selection carries the winner of exactly the bids appended to its auction before it; an append, even in a continuation of the run, is among them iff it comes before the selection; no continuation changes the selection or an emitted voucher |
| `EngineTheorems.VoucherCarriesTheWinner` | internal/auction/matcher.go:95-117 | in every interleaved run each voucher carries the winner of exactly the bids appended before its auction's single selection; it meets the user's minimum iff one of those bids did |
| `EngineTheorems.AtMostOneVoucherPerStart` | internal/auction/matcher.go:39-118 | in every interleaved run and for each id, starts equal vouchers emitted and dropped plus empty closures plus undecided auctions, of which there is at most one, and none if the id is not registered |
| `EngineProgress.AlwaysReady` | internal/auction/state.go:44-97 | in every reachable state no next step dereferences a missing entry or compares a nil amount |
| `EngineProgress.OneLockAtATime` | internal/auction/state.go:27-33 | in every reachable state no goroutine holds the engine lock together with an entry lock, or two entry locks |
| `EngineProgress.LockHolderCanMove` | internal/auction/state.go:44-97 | in every reachable state whoever holds a lock can take its next step whatever the others do |
| `EngineProgress.NeverStuck` | internal/auction/matcher.go:39-118 | in every reachable state, while some goroutine has not finished, some goroutine can move |
| `EngineProgress.CompletionBound` | internal/auction/matcher.go:39-118 | from every reachable state, goroutines left to themselves take at most a number of steps fixed by that state, however they are scheduled |
| `EngineProgress.QuiescenceIsClean` | internal/auction/state.go:93-97 | in every reachable state where nothing can move, every operation has returned, every lock is free and the registry is empty |
| `EngineWitnesses.LateBidIsAccepted` | docs/API.md:143 | the documented rejection of late bids fails for every intent and every priced bid for it: a run appends the bid after the selection and returns success |
| `EngineWitnesses.VoucherBelowMinimum` | internal/auction/matcher.go:87-107 | for every intent, every priced bid for it below the user's minimum and every positive capacity, a run emits a voucher below that minimum |
| `EngineRuns.StartGoes` | internal/auction/matcher.go:39-55 | from any state with no lock held, a start under a free id can run to success by its own steps, leaving one new entry and its auction goroutine |
| `EngineRuns.BidGoes` | internal/auction/matcher.go:60-71 | from any state with no lock held, a priced bid for a registered id can run to success by its own steps, whatever the auction's phase |
| `EngineRuns.SelectGoes` | internal/auction/state.go:63-88 | from any state with no lock held, an auction goroutine can run from its timer to the selection of the winner of its entry's bids, however many they are |
| `AuctionEngine.Engine.constructor` | internal/auction/matcher.go:20-27 | a new engine has the empty history and an empty channel of the given capacity |
| `AuctionEngine.Engine.Insert` | internal/auction/matcher.go:45-50 | registering under a free id adds one fresh empty entry and keeps all entries, the registry and the channel in agreement with the model |
| `AuctionEngine.Engine.StartAuction` | internal/auction/matcher.go:39-55 | succeeds iff the id is not registered; then exactly one fresh entry is added under it, otherwise nothing changes |
| `AuctionEngine.Engine.SubmitBidLocked` | internal/auction/state.go:44-58 | the bid, priced or not, is appended to the registered entry of its id and to no other, or refused if there is none; a priced one continues the history |
| `AuctionEngine.Engine.SubmitBid` | internal/auction/matcher.go:60-71 | each of the four outcomes occurs exactly under its condition; only an accepted bid changes anything, and then one entry |
| `AuctionEngine.Engine.BidsArePriced` | internal/auction/matcher.go:60-71 | no registered entry ever holds a bid with a nil amount |
| `AuctionEngine.Engine.SelectWinner` | internal/auction/state.go:63-88 | the loop returns the bid the declarative rule picks among the entry's bids, and nil for a missing entry |
| `AuctionEngine.Engine.Cleanup` | internal/auction/state.go:93-97 | removes exactly this id from the registry, whatever its auction is doing; a missing id is left alone; if the auction has closed the history goes on with its removal |
| `AuctionEngine.Engine.Receive` | internal/auction/matcher.go:32-34 | vouchers leave the channel in the order they entered it |
| `AuctionEngine.Engine.Choose` | internal/auction/matcher.go:87-93 | the winner of the registered bids is recorded as the auction's one selection |
| `AuctionEngine.Engine.Publish` | internal/auction/matcher.go:95-117 | the auction closes as unbid iff there is no winner, as emitted iff there is one and the channel has room, as dropped iff there is one and no room; exactly in the second case one voucher with the winner's data is appended to the channel |
| `AuctionEngine.Engine.RunAuction` | internal/auction/matcher.go:78-118 | for an open auction registered as `EngineTheorems.RegistryOwnership` shows it always is: from the timer on, exactly one selection of the bid the rule picks, one close told by the winner and the room, and one removal; the winner's voucher is appended iff there is a winner and room |
| `NonceQueue.NonceQueue.constructor` | internal/txmanager/nonce_queue.go:29-37 | the counter starts at the node's pending nonce |
| `NonceQueue.NonceQueue.Next` | internal/txmanager/nonce_queue.go:44-47 | the value before the add is handed out, also when the counter wraps at 2^64 |
| `NonceQueue.NonceQueue.Resync` | internal/txmanager/nonce_queue.go:65-72 | the counter becomes the node's answer, and is unchanged iff there is none |
| `NonceQueue.NonceIsModular` | internal/txmanager/nonce_queue.go:44-47 | the i-th nonce after a seed is seed + i modulo 2^64 |
| `NonceQueue.SameNonceMeansFullTurn` | internal/txmanager/nonce_queue.go:44-47 | one nonce comes up twice only after at least 2^64 calls |
| `NonceQueue.NextCallsGetConsecutiveNonces` | internal/txmanager/nonce_queue.go:44-47 | in any interleaving, calls get consecutive nonces from the seed in the order of their atomic adds, one each, pairwise distinct for up to 2^64 calls |
| `NonceQueue.NoncesRepeatAfterAFullTurn` | internal/txmanager/nonce_queue.go:44-47 | the bound is tight: 2^64 calls later the same nonce is handed out again |
| `Executor.ExecutorState.Execute` | internal/txmanager/executor.go:118-216 | a claim is made iff signing and the tip lookup succeed, with the counter's value; the counter moves iff a claim is made and is reset only by an answered resync after a nonce error |
| `Executor.ScriptIsExecute` | internal/txmanager/executor.go:118-216 | the executor's steps, run to the end, have the effect the code's contract promises, for every combination of answers |
| `Executor.CounterCountsClaims` | internal/txmanager/executor.go:126-207 | over any run without a store to the counter, it advances modulo 2^64 by exactly the nonces reserved for claims; failures before the reservation consume none |
| `Settlement.PendingExists` | internal/txmanager/nonce_queue.go:65-72 | the node always has a least unused nonce, so a resync can be answered |
| `Settlement.ClosedInvKept` | internal/txmanager/executor.go:151-207 | one step of the executor or the node, with no outside sender, keeps: used nonces are exactly the old ones and those of the claims taken, and claim i carried seed + i |
| `Settlement.CounterStaysAhead` | internal/txmanager/executor.go:151-207 | as long as the relayer is the only sender, the counter exceeds every used nonce, no claim gets a nonce error and Resync is never reached |
| `Settlement.FirstLostNonceStaysPending` | internal/txmanager/executor.go:180-207 | the nonce of the first claim the node did not take is the pending one for the rest of every run, and all later claims are above it |
| `Settlement.NextClaimIsPendingIffNothingWasLost` | internal/txmanager/executor.go:151-207 | in the closed system the next claim carries seed plus the number of claims, and that is the pending nonce iff the node has taken every claim |
| `Settlement.LossIsPossible` | internal/txmanager/executor.go:180-207 | from every fresh start below the last nonce, and for every voucher, there is a closed run whose claim the node does not take, after which the next nonce is not the pending one |
| `Settlement.RecoversAfterOneNonceError` | internal/txmanager/executor.go:186-198 | from any counter and any set of used nonces, with no outside sender and answered resyncs, the claim after one with a nonce error carries exactly the pending nonce and gets no nonce error, so two in a row never occur |
| `ClaimEncoding.DecodeAfterEncode` | internal/txmanager/executor.go:119-121 | what can be read back from a claim id is the first 32 bytes of the id without trailing NULs |
| `ClaimEncoding.EncodingIsLosslessIff` | internal/txmanager/executor.go:119-121 | the id can be recovered iff it has at most 32 bytes and does not end in a NUL |
| `ClaimEncoding.SameClaimIdIff` | internal/txmanager/executor.go:119-121 | two ids share a claim id iff their first 32 bytes agree up to trailing NULs |
| `ClaimEncoding.ShortIdsDoNotCollide` | internal/txmanager/executor.go:119-121 | ids of at most 32 bytes that do not end in a NUL have distinct claim ids |
| `ClaimEncoding.UuidsCollideIff` | docs/API.md:34 | two UUID texts share a claim id iff their first 32 characters agree |
| `ClaimEncoding.EveryUuidCollides` | docs/API.md:34 | for every UUID text there is a different one with the same claim id |
| `Signer.ClaimLayout` | internal/signer/claim.go:24-38 | the digest is the hash of 60 bytes: the 28 prefix bytes, given literally, and the hash of the id followed by the solver |
| `Signer.PackingIsInjective` | internal/signer/claim.go:24-38 | the 52 packed bytes determine the id and the solver |
| `Signer.ClaimDigestBinds` | internal/signer/claim.go:24-38 | equal claim digests mean the same id and solver, or two different inputs with one hash are returned |
| `Signer.BigEndianRoundTrip` | internal/signer/eip712.go:114-154 | the k-digit big-endian form of any number below 256^k decodes to it |
| `Signer.BigEndianDigits` | internal/signer/eip712.go:114-154 | byte i of a k-byte word is the digit of weight 256^(k - 1 - i) |
| `Signer.IntentEncodingRoundTrip` | internal/signer/eip712.go:114-154 | for every intent the library encodes, and it encodes all in range, the 256 bytes carry the seven fields at their offsets; addresses follow twelve zero bytes and each integer in [0, 2^256) decodes to itself |
| `Signer.EncodeTypeExample` | internal/signer/eip712.go:21-26 | the encoding of a type is its name and, in parentheses, its members separated by commas, shown byte by byte |
| `Signer.TypeStringMatchesEncoding` | internal/signer/eip712.go:21-154 | the type string names, in order and with their types, exactly the members whose words follow the type hash |
| `Signer.IntentLayout` | internal/signer/eip712.go:91-109 | the digest is the hash of 66 bytes: 0x19 0x01, the domain separator, the struct hash |
| `Signer.DomainEncodingLayout` | internal/signer/eip712.go:50-87 | the 160-byte domain encoding has the type, name and version hashes, chain id and contract at their offsets |
| `Signer.DomainBinds` | internal/signer/eip712.go:50-87 | equal domain separators mean equal domains, or a collision is returned |
| `Signer.HashIntentBinds` | internal/signer/eip712.go:91-109 | for all intents, equal digests mean the same domain and the same fields as packed, hence the same fields if they are in range, or a collision is returned |
| `Signer.PackedFieldsFixTheDigest` | internal/signer/eip712.go:91-109 | conversely the digest depends on nothing but the domain and the fields as packed |
| `Signer.ClaimAndIntentDigestsAreSeparate` | internal/signer/claim.go:24-38 | the 60-byte claim preimage and the 66-byte intent preimage never coincide, so equal digests exhibit a collision |
| `GasBuffer.NeverBelowEstimate` | internal/txmanager/opstack_client.go:125-131 | for every estimate, after both roundings, the buffered value is at least the estimate |
| `GasBuffer.NotBelowExactIff` | internal/txmanager/opstack_client.go:125-131 | for every estimate, the buffered value is at least floor(11 * raw / 10) iff the product is below 2^53 or attains a double that is |
| `GasBuffer.NeverBelowExact` | internal/txmanager/opstack_client.go:125-131 | in particular for every estimate below 2^53 |
| `GasBuffer.BelowExactWhenRoundedDown` | internal/txmanager/opstack_client.go:125-131 | at 9007199254741001, which float64 rounds down, the buffered value is one below floor(11 * raw / 10) |
| `GasBuffer.FloatBufferIsExactIff` | internal/txmanager/opstack_client.go:125-131 | for every estimate, the float result is floor(11 * raw / 10) iff, below a product of 2^53, the last digit, the excess of the factor and half a gap leave room below the next integer, ties included, and from there on the integer is itself the double nearest to the product |
| `GasBuffer.BelowTwoTo49` | internal/txmanager/opstack_client.go:125-131 | below 2^49 that is: the estimate does not end in 9 or the product is below 2^49; otherwise the result is exactly one more |
| `GasBuffer.ExactBelowFirstDifference` | internal/txmanager/opstack_client.go:29-32 | the float buffer is the integer buffer for every estimate below 511772684928469, which is above 2^48 |
| `GasBuffer.DifferenceAtFirst` | internal/txmanager/opstack_client.go:29-32 | at 511772684928469 the float buffer is one above the integer buffer, so that range is the largest |
| `HubInvariant.StepKeepsInv` | internal/ingress/mempool_ws.go:70-156 | one step of a registration, broadcast, eviction, read-pump exit or shutdown keeps the hub invariant, for every goroutine under way |
| `HubInvariant.RunKeepsInv` | internal/ingress/mempool_ws.go:70-156 | every state of every interleaving satisfies the hub invariant |
| `HubInvariant.ChannelLifecycle` | internal/ingress/mempool_ws.go:70-156 | in every interleaving nothing panics, and outside the write lock a client that joined is registered iff its channel is open |
| `HubInvariant.ShutdownClosesEveryChannel` | internal/ingress/mempool_ws.go:70-80 | when the shutdown has emptied the map, every client that joined so far is unregistered and its channel closed |
| `HubInvariant.QueuesAreBoundedAndFifo` | internal/ingress/mempool_ws.go:161-192 | no outbound queue exceeds 256, and messages leave it in the order they were sent |
| `HubInvariant.AudienceIsTheMap` | internal/ingress/mempool_ws.go:127-137 | while a broadcast makes its pass nobody joins or leaves |
| `HubInvariant.BroadcastIsComplete` | internal/ingress/mempool_ws.go:109-145 | when a broadcast is over, every client of its audience was sent its message exactly once, or never and is unregistered with its channel closed |
| `HubCalls.BroadcastSendsItsMessage` | internal/ingress/mempool_ws.go:109-145 | in every run, whatever the goroutine of an action Broadcast(m) put into a channel is m, and when it is over every client of its audience got m exactly once or is gone |
| `HubCalls.BroadcastServesWhoeverHasRoom` | internal/ingress/mempool_ws.go:127-137 | in every reachable state a step of the pass appends the called message iff fewer than 256 are waiting, sets the client aside otherwise, and touches no other channel |
| `HubCalls.ConnectRegisters` | internal/ingress/mempool_ws.go:91-98 | when the registration made by an action returns, its own client has joined and is registered or already gone |
| `HubCalls.PumpExitRemoves` | internal/ingress/mempool_ws.go:149-156 | when a read pump's exit has returned, its client is unregistered and its channel closed |
| `HubCalls.HubIsNeverStuck` | internal/ingress/mempool_ws.go:70-156 | in every reachable state, while some goroutine has not ended, some goroutine can move, also when a waiting writer keeps readers out |
| `Ingress.Client.TrySend` | internal/ingress/mempool_ws.go:127-137 | the message joins the queue iff fewer than 256 are waiting; needs an open channel |
| `Ingress.Hub.Register` | internal/ingress/mempool_ws.go:91-98 | a new connection is added with an open channel, keeping open exactly the registered ones |
| `Ingress.Hub.UnregisterClient` | internal/ingress/mempool_ws.go:149-156 | afterwards the client is gone and closed, whether or not it was registered; a second call closes nothing |
| `Ingress.Hub.Shutdown` | internal/ingress/mempool_ws.go:70-80 | the loop leaves no client registered and every known channel closed |
| `Ingress.Hub.Pass` | internal/ingress/mempool_ws.go:127-137 | exactly the clients with room get the message once, and exactly the others are collected as slow |
| `Ingress.Hub.BroadcastIntent` | internal/ingress/mempool_ws.go:109-145 | a registered client stays iff it had room, and then got the message once; no other queue changes |
| `Ingress.Hub.ReceiveBid` | internal/ingress/mempool_ws.go:227-254 | a bid is queued iff both amounts are positive and the queue has room, and dropped otherwise |
| `Ingress.Handler.SubmitIntent` | internal/ingress/handler.go:81-137 | a request is refused iff its id is empty, an amount is missing or out of range, the deadline is past or the signature malformed; otherwise unavailable iff 256 intents wait; otherwise one intent with each field from the request's field of that name is queued and then broadcast; a refused one changes nothing |
| `Conservation.EventSettles` | internal/auction/matcher.go:78-118 | only a start adds an intent to the auctions and vouchers, and no later event removes it or copies it |
| `Conservation.EngineStepSettles` | internal/auction/matcher.go:39-118 | a step of the engine neither loses nor duplicates an intent between the starting call and its settled places |
| `Traffic.EngineRunsInside` | cmd/relayer/main.go:196-244 | whatever the relayer does, its engine makes a run of the engine machine, with a call for each item dispatched |
| `Traffic.QueuesAreFifo` | cmd/relayer/main.go:196-263 | in every run the bids that found room are, in order, those submitted to the engine followed by those waiting; so are the intents, which are the accepted ones; the ids drained followed by those waiting are those of the failures whose notice found room |
| `Traffic.AnswersComeInOrder` | cmd/relayer/main.go:222-244 | in every run the priced bids that found room are, in order, those appended or rejected by the engine, the one being dispatched and those waiting; the accepted intents are those started or refused, the one being dispatched and those waiting |
| `Conservation.RunKeepsInv` | cmd/relayer/main.go:196-218 | every state of every run of the composed relayer keeps the engine invariant and the balance of intents, before the voucher and after it |
| `Conservation.EveryIntentIsInExactlyOnePlace` | cmd/relayer/main.go:117-218 | in every reachable state each accepted intent is exactly once in exactly one of: queued, being dispatched, refused as duplicate, live auction, closed without bids, voucher dropped, voucher queued, claim in progress, submitted, failure reported, failure notice dropped; and nothing else is anywhere |
| `Conservation.QueuesStayBounded` | cmd/relayer/main.go:117-128 | in every reachable state the four queues hold at most 256 intents, 10,000 bids, 256 vouchers and 128 failures |
| `Conservation.AtMostOneClaimPerIntent` | internal/txmanager/executor.go:85-113 | no accepted intent is ever claimed twice |
| `ClaimWords.VouchersPerStart` | internal/auction/matcher.go:87-107 | in every legal history the vouchers whose id has a given encoding are at most the starts of such ids |
| `ClaimWords.ClaimsPerWord` | internal/txmanager/executor.go:118-185 | over any run, the claims that carry a given claim id are at most the successful starts of ids with that encoding |
| `ClaimWords.TwoClaimsOneWord` | internal/txmanager/executor.go:119-121 | for any two intents whose ids encode alike and any priced bids for them, a run of the whole relayer submits two claims with that claim id |
| `Provenance.RunKeepsInv` | cmd/relayer/main.go:196-244 | in every run, whatever is auctioned was accepted and every claim answers a voucher the engine emitted |
| `Provenance.EveryClaimHasAWinner` | internal/txmanager/executor.go:118-185 | in every interleaved run each claim carries the encoded id of an accepted, started intent and the solver of a bid for it, signed as that pair; the bid was appended before the auction's one selection and is maximal among the bids appended by then |

## Left out

- Real time: the auction timer is a step that may fire at any moment, so nothing is said about the length of the window.
- HTTP, JSON and WebSocket framing, ping and pong deadlines, logging: plumbing without a property of its own.
- Decimal and hex text parsing of requests and bids: the model starts from the parsed values, with absent for unparsable.
- secp256k1 signing and recovery, the V-byte adjustment, transaction signing, Keccak internals: foreign code; signing either fails or succeeds, and hashing is a parameter.
- The settlement contract and its bindings: its source is not part of this model, so no escrow behaviour is claimed.
- `EstimateL1DataFee`, `SuggestGasTipCap`, dialling: remote calls that only fail or succeed.
- Environment, signals, HTTP server shutdown, context cancellation of the dispatchers and the executor, `cmd/simulate`: process plumbing; the endless loops of the dispatchers, the executor and the pumps appear as steps of a machine that may stop anywhere.
- The text matching that classifies nonce errors: the three classes of answers are the node's choice.
- The hub is not composed with the pipeline: in the pipeline machine the bids that arrive are arbitrary, which covers whatever the hub lets through.
- Writer preference of Go's read-write mutex: the lock is granted to any waiter when it is free, which allows more interleavings; `EngineProgress.NeverStuck` also holds when waiting writers block new readers.
- Buffered estimates of 2^64 and more: the conversion to uint64 is then up to the platform, so the model stops before it.
- An engine with channel capacity 0: the model drops every voucher, while a Go channel without a buffer hands one to a waiting receiver; the relayer uses 256.
- Settlement.CounterStaysAhead: assumes that the counter starts at the pending nonce with nothing queued above it and does not pass 2^64 during the run.
- Settlement.FirstLostNonceStaysPending: the same start and the same bound.
- Settlement.RecoversAfterOneNonceError: the node does not evict transactions it has taken.
