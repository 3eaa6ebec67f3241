# dcrdtest, verified

A Dafny model of the stateful parts of the `dcrdtest` package (the test harness of dcrd), with proofs of
what they are for. `dafny verify dfyconfig.toml` checks everything.

**In-memory wallet.** `WalletTypes` and `Ledger` say what one block does to the wallet's unspent outputs
and what unwinding undoes. `WalletSpec` gives every operation as a function on wallet values;
`MemWallet` is the wallet object, with shared mutable records, loops over maps in any order and an update
queue, each method proved equal to its function. `WalletRuns`, `LockSafety` and `KeyIndex` are about whole
runs, `CoinSelection` about funding and balance, `ChainSync` about every interleaving of the update queue
with disconnects. `Recognition` says in terms of scripts and addresses which outputs the wallet takes, where
change goes and what inputs are signed with. `Leftovers` says what the wallet holds after any run, and
`ChainedSpends` and `EarlySpends` show what unwinding blocks can lead to.

**Voting wallet.** `VotingSpec` and `VotingWallet` give the two notification handlers as functions and as
an object; `VotingEffects` says what each notification does to pool, tickets and votes. `VotingFunds`
follows outputs over arbitrary notifications and failures. `VotingPool` closes the loop: tickets mature,
win, vote, and the votes mature back into outputs; `VotingLimit` lowers the vote limit in it.
`VotingSchedule` interleaves the miner with the handler goroutine, and `VotingPace` does so on counts at a
lowered vote limit.

**Nonce search.** `NonceRanges` has the split of the nonces and one solver's loop in 32-bit arithmetic;
`SolveBlock` has the solvers, the results channel and the quit broadcast as a state machine.

**Pipe messages.** `IpcFrames` has the frame format with an encoder to match the decoder; `Ipc` has calls
that each wrap the pipe in a new buffered reader, `IpcStreams` says exactly when repeated calls read a
stream, and `IpcReader` has the reader and the call as code.

Terms used below. A *chained spend* is an output created and spent within one block. A run is *legal* if
blocks connect on top of the tip with transactions not already in the chain and only the tip is
disconnected. Blocks are *valid* if they spend a coin of the wallet only when a transaction of that hash is
in the chain or comes no later in the block. A wallet is *in step* with its chain if its coins, locks aside, and its journal are those of
a replay of the chain from nothing. A disconnect meets a *drained* queue if every block notified before it
has been applied.

## What is taken as given

- Code outside the package is a parameter: key derivation, payment scripts, signing and serialized size
  (`WalletSpec.Env`), transaction hashes and send results (`Outcomes`), which nonces meet the target
  (`Search.good`), how the pipe's bytes are cut into chunks. Any values are allowed unless a lemma says
  otherwise.
- A script pays an address if the address hash occurs in it, as in the code; an output that pays several
  addresses is filed under the last one visited, and the model lets that be any of them (`picks`).
- The widths of the network parameters come from dcrd's chaincfg package, which is not part of this
  model: maturities and tickets per block are unsigned 16-bit, the stake validation height is signed.
- The closed loop of `VotingPool` assumes what the design does: a ticket bought on a block is mined in
  the next and can win once matured; from one block before the stake validation height every block draws
  its number of different live tickets; all transactions are new and are sent. Its rounds begin at the
  purchase start height, before which the block handler returns at once. With no coinbase maturity
  it also takes the votes of a block to be handled before the block itself (see
  `ZeroMaturityStrandsVotes` for why).
- The schedules of `VotingSchedule` are at the full vote limit, with at least one ticket per block and
  a coinbase maturity of at least 1; a generated block takes in the whole mempool; a channel stands for
  the notifications in it and on their way to it.

## Where code and comments differ

- `Start` explains its number of outputs as twice the coinbase maturity; the code computes
  (coinbase maturity + ticket maturity + 2) x tickets per block, and that is the number proved tight.
- `GenerateBlocks` waits for as many tickets as the vote limit, not as tickets per block; the two agree
  at the full limit, the case proved.

## Model

| member | source | states |
|---|---|---|
| Ledger.TxEffect | dcrdtest/memwallet.go:278-346 | For any outpoint: what one transaction does to the map, to the destroyed outputs and to the created ones. Outputs are evaluated before inputs, so a transaction can spend what it creates. |
| Ledger.BlockEffect | dcrdtest/memwallet.go:278-289 | After any prefix of a block, an outpoint the block does not create is in the map or in the undo entry, never in both, with the coin it had; one it creates is in the created list; and a fresh one is in the undo entry exactly if a later input of the prefix spends it. |
| Ledger.UnwindAfterApply | dcrdtest/memwallet.go:365-375 | Connecting then unwinding any block, whatever the map, restores every outpoint the block does not create and leaves of those it creates exactly the coins its undo entry holds. |
| Ledger.InversionExtras | dcrdtest/memwallet.go:365-375 | With fresh outputs, connect then unwind gives the original map plus exactly the outputs created and spent inside the block. |
| Ledger.InversionIff | dcrdtest/memwallet.go:365-375 | Hence unwinding inverts connecting if and only if the block has no chained spend. |
| Ledger.ReplayIsOwned | dcrdtest/memwallet.go:296-347 | Replaying a chain from nothing yields exactly the outputs some transaction created for the wallet, last, and none spends from there on, with the coin of that creation. |
| Ledger.ApplyUnlocked | dcrdtest/memwallet.go:300-346 | Lock bits have no influence on which coins a block creates or destroys, and they travel with the coin into the undo entry. |
| Recognition.PayingOutputCreated | dcrdtest/memwallet.go:300-327 | An output whose script holds, anywhere, any one of the addresses of the wallet is created, at its index in the regular tree. |
| Recognition.CreatedOutputPays | dcrdtest/memwallet.go:300-327 | Only such outputs are created. |
| Recognition.ConnectRecords | dcrdtest/memwallet.go:274-347 | In any run, connecting a block records every output whose script holds any address of the wallet, with its value and script, unlocked, mature at the block's height plus the coinbase maturity if of a coinbase and else at once: among the coins if no transaction of the block from there on spends it, and otherwise in the undo entry. |
| Recognition.NewCoinsPay | dcrdtest/memwallet.go:274-347 | Conversely every coin that is new or changed after a connect is such an output of the block. |
| Recognition.ConnectSpends | dcrdtest/memwallet.go:333-347 | A coin not made by the block is moved to the undo entry unchanged if a transaction of the block has it among its inputs, and otherwise stays as it is. |
| Recognition.SpendableExactly | dcrdtest/memwallet.go:445-450 | Such a coin can be spent exactly if it is not locked and, if of a coinbase, the wallet is the coinbase maturity above its block. |
| Recognition.AddressIssued | dcrdtest/memwallet.go:385-411 | An address is issued exactly if it can be derived and the node takes it; it is the one derived at the counter and is filed there, and the counter moves on, past the largest 32-bit value to 0. |
| WalletRuns.ReorgRefinementIff | dcrdtest/memwallet.go:248-376 | A legal run of connects, disconnects, address requests, transaction creations and unlocks keeps the coins (locks aside) equal to a replay of the active chain throughout if and only if it never unwinds a block with a chained spend. |
| WalletRuns.ReorgRefinement | dcrdtest/memwallet.go:248-376 | As long as the run has unwound no such block, whatever it has connected, the coins are those of the replay and the journal has the undo entry that replaying would give for each connected block, and for no other height. |
| WalletRuns.UnwindSyncsIff | dcrdtest/memwallet.go:365-375 | One disconnect: from a wallet in step with its chain the undo entry of the tip is found, and the wallet is in step afterwards if and only if the tip has no chained spend. |
| WalletRuns.WalletOwnsUnspent | dcrdtest/memwallet.go:248-376 | The same in terms of transactions: a coin is in the wallet if and only if the active chain last created it for the wallet and has not spent it since; and the tip has its undo entry. |
| WalletRuns.RunTracks | dcrdtest/memwallet.go:289-375 | Without any hypothesis on spends: the journal's keys are exactly the heights of the connected blocks, and these are consecutive. |
| Leftovers.WalletIsReplayAndLeftovers | dcrdtest/memwallet.go:248-376 | After any legal run over valid blocks, chained spends unwound or not, the coins (locks aside) are exactly those of a replay of the active chain together with the coins left behind; where one is left, no connected block has created the outpoint. |
| Leftovers.LeftByChainedSpend | dcrdtest/memwallet.go:365-373 | Unwinding a block leaves a coin behind at an outpoint it creates exactly if the block also spends it. |
| Leftovers.AllRemember | dcrdtest/memwallet.go:289-375 | Over any legal run the journal is, entry by entry, what connecting the blocks of the active chain recorded at the time, whatever was connected and unwound since. |
| WalletRuns.SpentCoinsAreRipe | dcrdtest/memwallet.go:311-456 | Every input of a transaction created in a legal run that has unwound no block with a chained spend is an output of the active chain, spent at its value, and no coinbase output is spent before it matures by the height of the last block connected. |
| WalletRuns.HeightAhead | dcrdtest/memwallet.go:274-375 | Over every legal run the wallet's height is the tip's plus the number of blocks unwound since one was last connected. |
| WalletRuns.SpentCoinsAreRipeAtTip | dcrdtest/memwallet.go:311-456 | So at the tip of the active chain a coinbase output spent lacks at most that many blocks of its maturity, and none if the last change to the chain was a connect. |
| EarlySpends.CoinbaseSpentEarly | dcrdtest/memwallet.go:352-375 | A legal run, without chained spends, in which the wallet spends a coinbase output one block before it is mature at the tip. |
| ChainSync.QueueSafe | dcrdtest/memwallet.go:229-268 | Over every interleaving of ingesters, signallers, the syncer and `Stop`: signals sent or taken but not yet popped never outnumber the queue, so the pop never meets an empty queue; what was applied is a prefix of what was enqueued. |
| ChainSync.QuietIsDone | dcrdtest/memwallet.go:236-260 | When no goroutine can move and the wallet was not stopped, the queue is empty and everything enqueued has been applied; if it was stopped, the syncer and every signaller are gone. |
| ChainSync.InternalRunsEnd | dcrdtest/memwallet.go:236-291 | From any reachable state the wallet's own goroutines, left alone, take at most 5 steps for each signaller not launched, 4 for each one waiting and 3 for the syncer. |
| ChainSync.AsyncRefinesSequential | dcrdtest/memwallet.go:229-291 | Every interleaving in which each disconnect meets a drained queue ends in the coins, journal and chain of a legal sequential run; that chain followed by the pending blocks is the chain notified. |
| ChainSync.SequentialKeepsOrder | dcrdtest/memwallet.go:229-291 | That sequential run connects and disconnects in the very order of the notifications. |
| ChainSync.EveryUnwindFindsEntryIff | dcrdtest/memwallet.go:229-375 | Over any interleaving, every disconnect finds its undo entry if and only if each of them meets a drained queue. |
| ChainSync.UnwindFindsEntryIff | dcrdtest/memwallet.go:362-375 | One disconnect: if the earlier ones met a drained queue, it finds the undo entry of its block if and only if the queue is drained again. |
| ChainSync.EarlyUnwindFindsNothing | dcrdtest/memwallet.go:352-367 | A reachable state in which a disconnect overtakes its own block and the entry it dereferences does not exist. |
| ChainSync.SettledWalletIsSynced | dcrdtest/memwallet.go:248-376 | Once the goroutines have come to rest the wallet is in step with the notified chain, whatever the interleaving, if each disconnect met a drained queue and none was of a block with a chained spend. |
| LockSafety.StepKeepsLockIff | dcrdtest/memwallet.go:344-373 | A step loses the lock of a coin if and only if it unlocks the coin while it is in the map or connects a block creating it; naming a coin that is in an undo entry does not, and the lock survives being spent into the journal and restored by an unwind. |
| LockSafety.StaysLockedIff | dcrdtest/memwallet.go:448-595 | After a creation that spends a coin, the coin is locked at every later point if and only if no step in between unlocked it in the map or connected a block creating it. |
| LockSafety.SharedInputNeedsClearing | dcrdtest/memwallet.go:448-595 | Two created transactions share an input only if in between the coin was unlocked while in the map or a block creating it was connected. |
| LockSafety.SharedInputNeedsUnwind | dcrdtest/memwallet.go:448-595 | If the creating block was connected when the first transaction was made, they share the input only if in between the coin was unlocked while in the map or that block was unwound. |
| LockSafety.SharedInputOnCleanRuns | dcrdtest/memwallet.go:448-595 | On runs that unwind no block with a chained spend the last result needs no hypothesis on the creating block or on the validity of the blocks. |
| ChainedSpends.LeftoverIsSpentTwice | dcrdtest/memwallet.go:365-373 | Why a hypothesis is needed: a legal run, over valid blocks, in which a coin left behind by an unwound block with a chained spend is spent by two created transactions with no unlock and no unwind in between. |
| CoinSelection.CreateConserves | dcrdtest/memwallet.go:430-574 | A created transaction spends distinct spendable coins at their value; inputs minus outputs, change included, is exactly the fee rate times the size before change plus 108 bytes per input; the requested outputs come first, then at most one positive change output. |
| Recognition.ChangeGoesToNewAddress | dcrdtest/memwallet.go:471-483 | The change, exactly what the inputs exceed the outputs and the fee by, pays the script of the address derived at the counter, which is now filed there; without change no address is issued. |
| Recognition.ChangeComesBack | dcrdtest/memwallet.go:300-483 | Over any legal run, if payment scripts hold their address: when a block with a created transaction is connected later, its change is recorded as a coin of the wallet, at its value and script. |
| CoinSelection.CreateMinimal | dcrdtest/memwallet.go:445-467 | No proper nonempty prefix of the selected inputs would have covered the outputs and its own fee. |
| CoinSelection.FeeShortfallBounded | dcrdtest/memwallet.go:434-486 | With signature scripts of at most 108 bytes the fee falls short of the fee rate times the final size by at most the fee rate times the bytes the change output added. |
| CoinSelection.FundsIfBalanceCovers | dcrdtest/memwallet.go:445-491 | For every visiting order, if something is spendable, change addresses can be had and the balance less the fee for spending everything covers the outputs, funding succeeds. |
| CoinSelection.FundsIffBalanceCovers | dcrdtest/memwallet.go:445-491 | If each spendable coin pays for its own marginal fee this is an if-and-only-if, so success does not depend on the order. |
| CoinSelection.CandidatesAll | dcrdtest/memwallet.go:607-618 | Whatever the order, a scan of the map visits exactly the spendable coins and sums to the balance. |
| CoinSelection.FailedCreateKeepsCoins | dcrdtest/memwallet.go:532-563 | A failed creation leaves every coin, lock, undo entry and the balance as they were. |
| CoinSelection.CreateLocks | dcrdtest/memwallet.go:565-571 | A successful creation locks its inputs, all spendable before, and changes no other coin. |
| CoinSelection.CreateLowersBalance | dcrdtest/memwallet.go:536-618 | It lowers the confirmed balance by exactly the value of its inputs. |
| CoinSelection.UnlockUndoesCreate | dcrdtest/memwallet.go:580-618 | Unlocking its inputs right after restores every coin and the balance. |
| KeyIndex.RunKeys | dcrdtest/memwallet.go:305-409 | Over every legal run each issued index holds the address derived there, and each coin, live or in an undo entry, is filed under an issued index whose address its script pays. |
| KeyIndex.IndicesAreForever | dcrdtest/memwallet.go:385-409 | No issued index is ever reassigned within a run, even past the wrap of the counter. |
| KeyIndex.SigningKeysMatch | dcrdtest/memwallet.go:540-552 | Over every legal run, each coin a created transaction spends is filed under an issued key whose address its script holds. |
| Recognition.InputsSigned | dcrdtest/memwallet.go:540-563 | Every input of a created transaction carries the signature made over the transaction without scripts, for that input, for the script of the very coin it spends, and with the key that coin is filed under. |
| Recognition.SignedWithOwnKey | dcrdtest/memwallet.go:305-563 | Over every legal run the key in that signing call is one whose address the spent script holds. |
| KeyIndex.IndexOkUntilWrap | dcrdtest/memwallet.go:385-409 | The issued indices are exactly those below the counter if and only if fewer than 2^32 - 1 addresses have been issued in the run. |
| MemWallet.MemWallet.constructor | dcrdtest/memwallet.go:130-176 | The new wallet: index 0 issued, counter 1, no coins, no journal, empty queue. |
| MemWallet.MemWallet.IngestBlock | dcrdtest/memwallet.go:227-231 | Appends one update to the queue and changes nothing else. |
| MemWallet.MemWallet.SyncNext | dcrdtest/memwallet.go:262-290 | Pops the oldest update and applies it; the new wallet is that of connecting the block, with the height set first and the undo entry recorded last. |
| MemWallet.MemWallet.EvalOutputs | dcrdtest/memwallet.go:296-329 | The loop over outputs and, inside it, over the address map in any order, computes the specified effect; an output paying several addresses is filed under the last one visited. |
| MemWallet.MemWallet.EvalInputs | dcrdtest/memwallet.go:333-347 | The loop over inputs moves the very records from the map to the undo entry, locks and all. |
| MemWallet.MemWallet.UnwindBlock | dcrdtest/memwallet.go:352-376 | Crashes exactly if there is no undo entry for the height; otherwise created outputs go first, destroyed ones come back second, the entry is dropped and the height is not rolled back. |
| MemWallet.MemWallet.NewAddress | dcrdtest/memwallet.go:381-412 | Issues the address at the counter unless derivation or the RPC call fails; then nothing changes. |
| MemWallet.MemWallet.ConfirmedBalance | dcrdtest/memwallet.go:600-619 | The loop, in any visiting order, returns the sum over the mature unlocked coins. |
| MemWallet.MemWallet.FundTx | dcrdtest/memwallet.go:430-492 | The selection loop, in any visiting order, funds as specified, error and change-address failure included. |
| MemWallet.MemWallet.CreateTransaction | dcrdtest/memwallet.go:514-574 | Funds, signs and locks as specified; the whole new state is stated for every outcome. |
| MemWallet.MemWallet.UnlockOutputs | dcrdtest/memwallet.go:580-595 | Clears the locks of the named coins that are in the map and touches nothing else. |
| VotingSpec.RequiredTicketCountExact | dcrdtest/votingwallet.go:637-642 | The 16-bit formula never exceeds (coinbase maturity + ticket maturity + 2) x tickets per block and equals it if and only if that fits 16 bits. |
| VotingSpec.HandlersCommuteIff | dcrdtest/votingwallet.go:403-607 | When no winner was bought on the same block, the two handlers for a block give the same wallet in either order, for all outcomes of signing and sending, if and only if votes mature on a later block, or no votes are filed, or the block does not buy and send all its tickets. |
| VotingSpec.ZeroMaturityStrandsVotes | dcrdtest/votingwallet.go:480-484 | With a coinbase maturity of 0 the order matters: votes handled after their own block are filed under a height that no later block releases. |
| VotingSpec.VotesReturnPrice | dcrdtest/votingwallet.go:426-606 | Voting with tickets bought in one purchase files, under the height the votes mature at, output 2 of each vote in the stake tree, one per winner in order, at the stake difficulty of the purchase, a sixth more, and the reward. |
| VotingEffects.BlockEffect | dcrdtest/votingwallet.go:411-484 | What a block does to the pool, in full: nothing below the stake validation height less the ticket maturity less 2, or with fewer outputs than tickets per block; otherwise the last outputs are gone whatever fails, and votes maturing here join the pool if and only if all tickets were sent. |
| VotingEffects.TicketsRecorded | dcrdtest/votingwallet.go:429-478 | A purchase records exactly the tickets sent before the first refusal, none if one cannot be signed, each at the stake difficulty and a sixth of it rounded toward zero. |
| VotingEffects.WinnersEffect | dcrdtest/votingwallet.go:513-606 | The wallet votes with its first winning tickets, in order and as many as the limit allows, and files output 2 of each vote, in the stake tree, at the ticket's price and the reward; nothing is filed if one of them is not sent. |
| VotingWallet.VotingWallet.Start | dcrdtest/votingwallet.go:229-269 | The pool becomes the required number of outputs of the funding transaction, or nothing changes if it could not be sent. |
| VotingWallet.VotingWallet.LimitNbVotes | dcrdtest/votingwallet.go:296-307 | Only lowers the limit, never below zero; an error changes nothing. |
| VotingWallet.VotingWallet.HandleBlockConnected | dcrdtest/votingwallet.go:403-485 | The handler's loops compute the specified purchase and release; starvation changes nothing and releases nothing, and a failure part-way leaves the outputs taken from the pool. |
| VotingWallet.VotingWallet.HandleWinningTickets | dcrdtest/votingwallet.go:497-607 | The handler files exactly the outputs of the votes cast, or changes nothing if one could not be signed or sent; it crashes if and only if the limit is 0 and some winner is its own. |
| VotingWallet.VotingWallet.PrepareVotes | dcrdtest/votingwallet.go:513-584 | The vote loop fills the fixed-size slice with the wallet's own winners in order, up to the limit, and indexes out of range only in that one case. |
| VotingFunds.OutputsFundOnce | dcrdtest/votingwallet.go:432-606 | Over any notifications in any order and any failures, each vote sent being a new transaction: no output is ever spent on two tickets, and the pool, the votes about to mature (height by height) and the outputs spent have none in common. |
| VotingEffects.NothingBoughtBeforeStart | dcrdtest/votingwallet.go:411-416 | Over any notifications, limits and failures: until a block reaches the stake validation height less the ticket maturity less 2, the pool and the tickets are those of the start and nothing is spent. |
| VotingEffects.SpendsIff | dcrdtest/votingwallet.go:411-435 | Outputs have been spent if and only if some block at that height or above found at least tickets per block of them. |
| VotingFunds.StarvedForEver | dcrdtest/votingwallet.go:418-424 | A wallet that once has too few outputs for a purchase never buys again: pool, outputs spent and tickets stay as they are, whatever notifications and limits follow. |
| VotingPool.WinnersAre | dcrdtest/votingwallet.go:232-241 | The live tickets a block draws from are exactly the tickets of one earlier round. |
| VotingPool.EnoughForEver | dcrdtest/votingwallet.go:232-484 | Starting with at least the needed outputs, before every purchase of every run the pool has a known size of at least tickets per block; pool, outstanding tickets and maturing votes always add up to the outputs at the start; and none is held twice. |
| VotingPool.NeverStarvesIff | dcrdtest/votingwallet.go:232-264 | In the closed loop every purchase of every run can be made if and only if the wallet starts with (coinbase maturity + ticket maturity + 2) x tickets per block outputs or more; with one fewer some run starves. |
| VotingPool.OwnFormulaSuffices | dcrdtest/votingwallet.go:637-642 | The wallet's own count is enough if and only if that product fits 16 bits. |
| VotingPool.PoolRunsDry | dcrdtest/votingwallet.go:418-435 | With exactly that many, the purchase at the stake validation height less one plus the coinbase maturity takes the last output of the pool. |
| VotingLimit.LoweringStopsBuying | dcrdtest/votingwallet.go:288-307 | In the closed loop with exactly the outputs needed, lowering the vote limit (not to zero) once votes are cast lets purchases go on for exactly coinbase maturity plus one more blocks and for none after. |
| VotingPool.OrderIrrelevant | dcrdtest/votingwallet.go:611-622 | In the closed loop a round has the same result whichever of its notifications is handled first. |
| VotingSchedule.PairsInOrder | dcrdtest/votingwallet.go:332-376 | Over every interleaving of the miner with the one handler goroutine, at the full vote limit: no notification is handled twice; when one of a block is handled, all of the block before it have been; and neither channel ever holds more than one. |
| VotingPace.OrderKeptIff | dcrdtest/votingwallet.go:367-373 | At a lowered vote limit the miner waits for fewer tickets than are bought. On counts alone: the notifications are handled in order in every interleaving of up to g blocks if and only if g < 2 or (g - 2) x (tickets per block - limit) < limit; at the first g beyond, some schedule handles the winners of a block before the block before it. |
| VotingSchedule.SettledIsSequential | dcrdtest/votingwallet.go:344-374 | Whenever the handler is idle and the channels are empty, every notification of every block generated has been handled, and the wallet is the one that the rounds handled one after the other give. |
| VotingSchedule.NeverStuck | dcrdtest/votingwallet.go:350-375 | The miner's wait is always met in the end: until every block is generated and handled some step can be taken. |
| VotingSchedule.SchedulesEnd | dcrdtest/votingwallet.go:350-375 | Every schedule ends: it takes at most 2 x tickets per block + 5 steps for each of its rounds. |
| NonceRanges.BoundsExact | dcrdtest/simnet_miner.go:61-70 | No 32-bit operation on the range bounds overflows or goes below zero, for any number of cores. |
| NonceRanges.RangesPartition | dcrdtest/simnet_miner.go:61-70 | The per-core ranges are disjoint and their union is exactly 1 to 2^32 - 1. |
| NonceRanges.Split | dcrdtest/simnet_miner.go:65-72 | The loop hands core `i` exactly that range. |
| NonceRanges.Solve | dcrdtest/simnet_miner.go:39-59 | One solver tests its nonces in order, each once, up to the first good one or the first poll that calls it off, and ends even where the counter wraps. |
| SolveBlock.SearchCorrect | dcrdtest/simnet_miner.go:27-84 | Over every interleaving and number of cores the search returns true if and only if some nonce from 1 to 2^32 - 1 meets the target; then the header holds such a nonce, and otherwise it is unchanged. |
| SolveBlock.CalledOffOnlyAfterFind | dcrdtest/simnet_miner.go:43-46 | A solver reports nothing although its range holds a good nonce only after a find has been received. |
| SolveBlock.OneResultEach | dcrdtest/simnet_miner.go:73-81 | The collector has taken exactly one result from each solver that is gone, and `quit` is closed once if a find was received and never otherwise. |
| SolveBlock.NeverStuck | dcrdtest/simnet_miner.go:37-81 | In every reachable state some step can be taken until the collector returns. |
| SolveBlock.SchedulesEnd | dcrdtest/simnet_miner.go:37-81 | No interleaving has more steps than the measure at its start. |
| SolveBlock.FindEndsSearch | dcrdtest/simnet_miner.go:43-59 | Once a find has closed `quit`, every interleaving takes at most four more steps per core and one more, however many nonces are untested. |
| SolveBlock.Collect | dcrdtest/simnet_miner.go:73-83 | The collector's loop keeps the nonce of the first find among the results in order of arrival. |
| IpcFrames.ParseEncode | dcrdtest/ipc.go:67-113 | Decoding undoes encoding for every type of at most 255 bytes and payload under 2^32 bytes, whatever follows; unknown types give the empty message. |
| IpcFrames.MessageReadIff | dcrdtest/ipc.go:67-113 | An input decodes to a P2P or an RPC address message if and only if it starts with version 1, the 13 letters of that message's word, the size of the address in four little-endian bytes, and the address. |
| IpcFrames.MessageRoundTrip | dcrdtest/ipc.go:102-109 | Each message encoded under its own word is the message decoded, whatever follows. |
| IpcFrames.OtherFrames | dcrdtest/ipc.go:76-113 | A frame decodes to the empty message exactly if its type is neither word, and any first byte but 1 is a version mismatch. |
| IpcFrames.ParseCut | dcrdtest/ipc.go:73-100 | Every strict prefix of a frame is an error, that of the part it is cut in. |
| IpcFrames.ParsedIsEncoded | dcrdtest/ipc.go:67-113 | Only frames decode: a successful read took exactly the encoding of some type and payload. |
| IpcFrames.PutOfUint32 | dcrdtest/ipc.go:96 | Four bytes and the number they stand for in little-endian order determine each other. |
| Ipc.ReadFullDelivers | dcrdtest/ipc.go:73-100 | However the input is cut into chunks, a full read delivers the next bytes and nothing else, and fails only if there are not enough. |
| Ipc.NextIsParse | dcrdtest/ipc.go:59-114 | One call returns what decoding all the bytes of the pipe gives, for any chunks; after a success the bytes left in the buffer and in the pipe are those after the frame. |
| Ipc.CallReadsFrame | dcrdtest/ipc.go:63-114 | A call returns the message of the frame it starts at, and what it leaves in the dropped buffer and in the pipe is the rest of the stream. |
| IpcStreams.NothingLostIff | dcrdtest/ipc.go:63-104 | A call loses nothing with its buffer if and only if, by the sizes of the chunks, the type and the payload alone, the chunk with the last byte of the frame stops there, or its first 4096 bytes do while it starts before the payload, or 4096 bytes of payload or more are still to be read from it (after those first 4096 if it starts before the payload). |
| IpcStreams.SmallChunksIff | dcrdtest/ipc.go:63-104 | If no chunk is larger than 4096 bytes, that is so if and only if the frame ends where a chunk does. |
| IpcStreams.StreamInPlaceIff | dcrdtest/ipc.go:63-114 | Each of the first k calls leaves the next one at the start of the next frame if and only if every one of the k frames meets that condition; the calls then return the messages encoded, in order. |
| IpcStreams.MessagesInOrder | dcrdtest/ipc.go:59-114 | If each of the first k messages written to the pipe ends where a read stops, the calls up to the one after them return the messages written, in order. |
| IpcStreams.MessagesThenEnd | dcrdtest/ipc.go:59-114 | If no chunk holds bytes of two messages, the calls return all the messages written, then the end of the input. |
| Ipc.AlignedStream | dcrdtest/ipc.go:63-114 | If no chunk the pipe delivers runs past the end of a frame, repeated calls return exactly the messages encoded, then the end of the input. |
| Ipc.FollowersAreLost | dcrdtest/ipc.go:63-64 | The condition is needed: what arrives in one small chunk behind a frame is lost with the buffer. |
| IpcReader.BufReader.ReadFull | dcrdtest/ipc.go:63-100 | The reading loop over the buffered reader computes the specified full read. |
| IpcReader.NextIPCMessage | dcrdtest/ipc.go:59-114 | The call itself, on a pipe object: result and what is left of the pipe are those specified, for every error branch. |

## Left out

- VotingSchedule.PairsInOrder: at the full vote limit. For a lowered one `VotingPace` gives the exact result on counts, from an empty mempool and as long as each purchase can be made; the wallet itself is not followed there, as tickets sent late are mined a block later than the closed loop assumes.
- Amounts: `int64` amounts, fees and prices are unbounded integers; overflow is not modelled. Output indices are not wrapped to 32 bits.
- Signature scripts: signing is a function of the unsigned transaction, the input's number, its script and its key; scripts already filled in for earlier inputs are not an argument, as the signature hash does not cover them.
- Serialized size: a function of the number of unsigned inputs and of the outputs.
- Failing constructors: the wallet is built from a derivable index 0; `newMemWallet`'s error returns are not modelled.
- Mutexes: each public method of the wallet object is one step, as its lock makes it; `chainSyncer` is split at its signal, its pop and its update.
- Deserialization: `IngestBlock` and `UnwindBlock` start from a height and parsed transactions; the panics on malformed bytes are not modelled.
- `SendOutputs`, `SyncedHeight` and `SetRPCClient`: one-line wrappers.
- Ticket and vote transactions: only the outputs they spend and return, the ticket price and the voting amount; scripts, change, treasury votes and vote bits are not modelled, nor a failing block-reference script.
- `GenerateBlocks`: the wait condition only; time-outs and mining errors are not modelled.
- Reads that fail: the pipe ends or delivers bytes; other read errors and the buffered reader's limit on empty reads are not modelled.
- `AdjustedSimnetMiner`, process launch, pipes and signals of the node, RPC clients, certificates, logging: operating system and network plumbing.
