# seismic-evm: a verified model of block execution

This project models the block executors of seismic-evm and proves what they promise over whole
blocks and whole runs. `dafny verify dfyconfig.toml` checks everything.

## How the model is built

- **Database** (`State.dfy`): revm's `State` as a map of accounts with a state clear flag. `Commit`,
  `IncrementBalances` (skips zeros, saturates at 2^256 - 1), `DrainBalances` and the snapshot of
  incremented accounts have explicit definitions; `StateDb` is the mutable object over them.
- **EVM**: a pair of functions of (database, environment, transaction or call) returning a result and
  a change set. Running it commits nothing. Receipt builders, decryption, the ABI decoder, keccak,
  the commit condition and the tracing hook are likewise functions passed in. Assumptions about them
  (`RespectsGasLimit`, `RecordsGas`, `ReadsOnly`, `FusesHonestly`) appear only in the lemmas that need
  them.
- **Machine integers**: gas is added and subtracted modulo 2^64 and increments modulo 2^128, as an
  optimised build does, so that "never wraps" is a theorem and not an assumption.
- **Hook**: an installed state hook is the list of events it has been told; no hook is `None`.
- **Executors**: `EthBlockExecutor`, `SeismicBlockExecutor`, `OpBlockExecutor`, `SystemCaller`,
  `SeismicEvm`, `PrecompilesMap` and `TracerIter` are classes whose methods follow the source step by
  step. Each method is proved equal to a function on values (`Step`, `Finish`, `Next`, ...), and the
  theorems are about those functions over arbitrary runs. A `Session` is a whole use of an executor:
  pre-execution, any attempts, `finish`; `BlockIsSession` makes `execute_block` an instance. The
  Ethereum and Optimism executors share `Step`; they differ in which transactions the gas gate binds
  and in the receipt builder.

## Main results

- **The hook log is a complete change log.** Replaying the reported change sets gives the final
  database, whichever attempts failed or were declined and whether or not the block succeeds
  (`SessionLogReplays`, `HookLogReplays`). Two writes are never reported: the DAO drain and, on
  Optimism, the Canyon deployment. `SessionLogReplays` and `OpSessionLogReplays` say exactly when that
  shows, and `DrainGoesUnreported` and `DeploymentGoesUnreported` are blocks where it does. A hook
  never influences a block (`SessionIgnoresHook`), and its events come in a fixed order with no gaps
  (`SessionEventOrder`).
- **Seismic refines Ethereum**: a run, session or block of encrypted transactions gives what the
  Ethereum executor gives on the plaintext (`EncryptedRun`, `EncryptedBlock`), with the exact outcome
  where decryption fails (`SeismicRefines`, `BlockRefines`). Its system calls never leak their
  environment into a transaction (`SystemCallsNeverLeak`) and write what the interpreter wrote to the
  called contract, and nothing else (`SystemCallExact`, `PreCallsWrite`, `PostCallsWrite`).
- **Which attempts commit** is decided by gate, execution and closure alone (`SurvivesIff`),
  **failures stutter** (`FailuresStutter`) and **gas is safe** (`GasSafety`, `SessionGas`). On Optimism
  the gas bound holds for every interpreter and every run exactly under Regolith
  (`GasBoundedIffRegolith`).
- **Every balance is accounted for**: `FinishAccounts` gives each account of a finished block,
  `AmountDue` what it is due from headers and withdrawals, and supply is conserved through rewards,
  withdrawals and the DAO move exactly when nothing overflows (`SupplyConserved`).
- **`finish` fails and files requests** exactly as the interpreter's answers and the deposit logs say
  (`FinishFailsOnlyOnRequests`, `RequestsExact`).
- **`stateDiff` overrides** keep what they should except on an account that ends up empty while state
  clearing is on; `StateDiffKeepsTheRest` gives the exact condition and `DiffLostOnEmptyAccount` an
  input that loses its override.

## Where the code and its documentation differ

- The pre-block gates say that fork checks always use seconds, but `finish` and the Optimism executor
  compare the block's own timestamp. The model follows the code; `GatesDisagreeExactly` gives the
  window in which the two kinds of gate differ.
- The base reward is documented as switching at Petersburg; the code asks for Constantinople.
- The withdrawal and consolidation calls are documented as no-ops before Prague; they contain no such
  check, and only the gate in `finish` keeps them from running.
- `TracerIter` yields `None` on a failed transaction although later ones remain, so calling `next`
  again resumes. Its properties are stated for a consumer that stops at the first `None`.

## Model

| member | source | states |
|---|---|---|
| `Calc.BaseRewardIsOneOfThree` | crates/evm/src/block/calc.rs:26-48 | a base reward exists exactly before Paris and is 2, 3 or 5 ETH |
| `Calc.RewardSchedule` | crates/evm/src/block/calc.rs:26-48 | on a schedule by block number: 5, 3, 2 ETH and nothing, in this order |
| `Calc.BlockRewardExact` | crates/evm/src/block/calc.rs:79-81 | the shift by 5 loses nothing and no ommer count overflows: the reward is base plus n/32 of it |
| `Calc.OmmerRewardExact` | crates/evm/src/block/calc.rs:103-109 | the reward is (8 - depth)/8 of the base exactly when the unsigned subtraction does not wrap |
| `StateChanges.PostBlockBalanceIncrements` | crates/evm/src/block/state_changes.rs:20-61 | the loops build the accumulation of ommer, block and withdrawal contributions |
| `StateChanges.InsertPostBlockWithdrawals` | crates/evm/src/block/state_changes.rs:89-106 | adds the positive withdrawals, in wei, to the given map if Shanghai is active |
| `StateChanges.EntryIsSumOfContributions` | crates/evm/src/block/state_changes.rs:34-60 | keys are exactly the beneficiaries, each entry the sum of all its contributions modulo 2^128 |
| `StateChanges.WithdrawalsPaid` | crates/evm/src/block/state_changes.rs:96-105 | an address is due 10^9 wei for each gwei withdrawn to it |
| `StateChanges.AmountDue` | crates/evm/src/block/state_changes.rs:34-61 | what each address is due, from headers and withdrawals: ommer rewards, the block reward of the beneficiary, withdrawals under Shanghai |
| `StateChanges.OmmerRewardsAreEighths` | crates/evm/src/block/state_changes.rs:38-46 | for ommers in range the rewards of an address are its sum of (8 - depth) eighths of the base |
| `StateChanges.EntriesExact` | crates/evm/src/block/state_changes.rs:34-105 | the increments have an entry for exactly the beneficiary before Paris, the ommers, and the recipients of positive withdrawals under Shanghai |
| `StateChanges.OrderIrrelevant` | crates/evm/src/block/state_changes.rs:38-50 | any permutation of the contributions gives the same map |
| `StateChanges.IncrementsPermute` | crates/evm/src/block/state_changes.rs:20-61 | reordering ommers and withdrawals, if there are any, leaves the increments unchanged |
| `StateChanges.PreMergeTotal` | crates/evm/src/block/state_changes.rs:34-50 | the pre-Paris total is base + n/32 base + the sum of (8 - depth)/8 base |
| `StateChanges.NoEntryOverflows` | crates/evm/src/block/state_changes.rs:39-103 | below 2^33 ommers and withdrawals, ommers in range, every entry is the exact sum |
| `State.SnapshotSucceeds` | crates/evm/src/block/state_changes.rs:118-136 | after the increments no credited account is missing |
| `State.SnapshotReplays` | crates/evm/src/block/state_changes.rs:111-143 | committing the snapshot gives the database after drain and increments exactly when each drained account is credited or was empty |
| `State.DrainConserves` | crates/evm/src/eth/block.rs:193-200 | what the drain returns is what the supply loses, duplicates included |
| `State.IncrementSupply` | crates/evm/src/eth/block.rs:206-210 | the increments raise the supply by the amounts due exactly when nothing wraps or saturates |
| `Deposits.AccumulateDepositsFromLogs` | crates/evm/src/eth/eip6110.rs:40-63 | appends matching logs in order, stops at the first that does not decode |
| `Deposits.AccumulateDepositsFromReceipts` | crates/evm/src/eth/eip6110.rs:77-89 | the same over the logs of all receipts |
| `Deposits.ParseDepositsFromReceipts` | crates/evm/src/eth/eip6110.rs:97-112 | the bytes of all deposit events of the block, or the decode error |
| `Deposits.AccumulateExact` | crates/evm/src/eth/eip6110.rs:40-63 | succeeds iff every deposit log decodes; then exactly their encodings were appended, in order |
| `Deposits.AccumulateStops` | crates/evm/src/eth/eip6110.rs:45-58 | after a failure the buffer holds the deposit logs before the first that does not decode |
| `Deposits.DepositLogsConcat` | crates/evm/src/eth/eip6110.rs:45-52 | a log counts iff the contract emitted it with the deposit signature as first topic, and order is kept |
| `Deposits.LogsInOrder` | crates/evm/src/eth/eip6110.rs:85-87 | the logs of a block are those of its receipts, one after the other |
| `Deposits.SplitRoundTrip` | crates/evm/src/eth/eip6110.rs:16-37 | events of the fixed sizes take 192 bytes each and are recovered by cutting |
| `Deposits.ParseRoundTrip` | crates/evm/src/eth/eip6110.rs:97-112 | a successful parse determines the deposit events of the block |
| `SystemCalls.GatesDisagreeExactly` | crates/evm/src/block/system_calls/eip2935.rs:31-41 | with millisecond timestamps pre- and post-block gates differ exactly while T <= t < 1000 T |
| `SystemCalls.SystemCaller.OnState` | crates/evm/src/block/system_calls/mod.rs:171-175 | appends one event if a hook is installed |
| `SystemCalls.SystemCaller.ApplyBlockhashesContractCall` | crates/evm/src/block/system_calls/mod.rs:87-106 | gate, call, report, then commit |
| `SystemCalls.SystemCaller.ApplyBeaconRootContractCall` | crates/evm/src/block/system_calls/mod.rs:109-128 | gate, missing and genesis root errors, call, report, then commit |
| `SystemCalls.SystemCaller.ApplyWithdrawalRequestsContractCall` | crates/evm/src/block/system_calls/mod.rs:131-148 | reports and commits before a revert or halt becomes an error |
| `SystemCalls.SystemCaller.ApplyConsolidationRequestsContractCall` | crates/evm/src/block/system_calls/mod.rs:151-168 | the same for consolidations |
| `SystemCalls.SystemCaller.ApplyPostExecutionChanges` | crates/evm/src/block/system_calls/mod.rs:65-84 | both calls in order, requests for the non-empty outputs |
| `TxExecution.StepExact` | crates/evm/src/eth/block.rs:113-133 | an attempt commits iff the gate leaves room, the execution succeeds and the closure says yes; else the exact answer |
| `TxExecution.SurvivesIff` | crates/evm/src/eth/block.rs:113-133 | attempt i of a run commits iff its gate, execution and closure say so in the state it meets |
| `TxExecution.OnlyCommitsChange` | crates/evm/src/eth/block.rs:117-133 | an attempt that does not commit leaves database, receipts, gas and hook log alone |
| `TxExecution.FailuresStutter` | crates/evm/src/eth/block.rs:117-133 | erasing all rejected, failed and declined attempts of a run gives the same final state |
| `TxExecution.GasSafety` | crates/evm/src/eth/block.rs:113-140 | in every reachable state gas used is the sum over committed transactions, within the limit, and the subtraction never underflows |
| `TxExecution.CounterInReceipts` | crates/evm/src/eth/block.rs:139-149 | the counter equals the last receipt's cumulative gas |
| `TxExecution.ReceiptGas` | crates/evm/src/eth/block.rs:137-149 | receipt i carries the gas of committed transactions 0 to i |
| `TxExecution.ReceiptContents` | crates/evm/src/eth/receipt_builder.rs:48-63 | receipt i tells the type, success and logs of the i-th committed transaction |
| `TxExecution.CommittedInOrder` | crates/evm/src/eth/block.rs:125-154 | transaction i runs on exactly the commits before it, its receipt is built before its own commit, its event has the receipt's index |
| `TxExecution.RunTracked` | crates/evm/src/eth/block.rs:135-152 | every run of attempts keeps the hook log a complete change log |
| `TxExecution.RunIgnoresHook` | crates/evm/src/eth/block.rs:135-152 | a run without a hook reaches the same state but for the log |
| `TxExecution.LoopIsRun` | crates/evm/src/block/mod.rs:256-270 | the block loop reaches the state of a run: all transactions committed, or all before the one whose error it returns |
| `TxExecution.ClosureAlwaysCommits` | crates/evm/src/block/mod.rs:162-172 | the closure entry point commits whatever executes within the gate and returns its gas, or fails without effect |
| `EthBlock.EthBlockExecutor.constructor` | crates/evm/src/eth/block.rs:68-78 | no receipts, no gas, no hook |
| `EthBlock.EthBlockExecutor.ApplyPreExecutionChanges` | crates/evm/src/eth/block.rs:95-106 | state clear flag, blockhashes call, beacon root call |
| `EthBlock.EthBlockExecutor.ExecuteTransactionWithCommitCondition` | crates/evm/src/eth/block.rs:108-155 | gate, execution, condition, report, gas, receipt, commit: one step of the state machine |
| `EthBlock.EthBlockExecutor.ExecuteTransactionWithResultClosure` | crates/evm/src/block/mod.rs:162-172 | the always-committing step, returning the gas |
| `EthBlock.EthBlockExecutor.FinishBlock` | crates/evm/src/eth/block.rs:157-226 | requests, increments, DAO move, credit and snapshot |
| `EthBlock.EthBlockExecutor.ExecuteWholeBlock` | crates/evm/src/block/mod.rs:256-270 | pre-execution, the loop up to the first error, finish |
| `EthTheorems.RequestsExact` | crates/evm/src/eth/block.rs:160-178 | requests ascend by type and none is empty; with the gate on they hold exactly the decoded deposits and the outputs of the two calls, with it off there is none |
| `EthTheorems.FinishFailsOnlyOnRequests` | crates/evm/src/eth/block.rs:157-226 | finish fails, with which error, iff a deposit log does not decode or the interpreter does not answer a request call with success; the balance stage never does |
| `EthTheorems.WithdrawalCallExact` | crates/evm/src/block/system_calls/eip7002.rs:19-68 | the call succeeds iff the interpreter answers with success, giving its output; a revert or halt is an error after the commit |
| `EthTheorems.ConsolidationCallExact` | crates/evm/src/block/system_calls/eip7251.rs:20-70 | the same for consolidations |
| `EthTheorems.PostExecutionExact` | crates/evm/src/block/system_calls/mod.rs:65-84 | both calls from the interpreter's answers: success, error and database, the second on top of the first |
| `EthTheorems.PreExecutionExact` | crates/evm/src/eth/block.rs:95-106 | the stage before the transactions from the interpreter's answers: which calls, on which database, and each error |
| `EthTheorems.GenesisMakesNoCall` | crates/evm/src/block/system_calls/eip4788.rs:35-53 | block zero makes no call and passes iff a due beacon root is zero |
| `EthTheorems.BlockIsSession` | crates/evm/src/block/mod.rs:256-270 | a block is the session of its transactions, all committed, or stops in the state of a run of the first k with the error of the next |
| `EthTheorems.SessionLogReplays` | crates/evm/src/eth/block.rs:95-226 | for any attempts the log replays to the final database: always on failure, on success iff every drained DAO account is credited too or was empty |
| `EthTheorems.HookLogReplays` | crates/evm/src/block/mod.rs:256-270 | the same of a block, failing ones included |
| `EthTheorems.DrainGoesUnreported` | crates/evm/src/eth/block.rs:187-220 | an empty DAO block that succeeds with a log that does not replay |
| `EthTheorems.SessionIgnoresHook` | crates/evm/src/block/system_calls/mod.rs:171-207 | for any attempts the hook changes neither result nor database, receipts or gas |
| `EthTheorems.BlockIgnoresHook` | crates/evm/src/block/mod.rs:256-270 | the same of a block, its error included |
| `EthTheorems.SessionEventOrder` | crates/evm/src/eth/block.rs:95-220 | the exact event order of a successful session: committed transactions are numbered without gaps for rejected, failed or declined ones |
| `EthTheorems.EventOrder` | crates/evm/src/block/mod.rs:256-270 | the same of a successful block, one number a transaction |
| `EthTheorems.SessionGas` | crates/evm/src/eth/block.rs:113-225 | for any attempts the reported gas is within the limit, the sum over committed transactions, and the last receipt's |
| `EthTheorems.BlockGas` | crates/evm/src/block/mod.rs:256-270 | the same of a successful block |
| `EthTheorems.SupplyConserved` | crates/evm/src/eth/block.rs:180-210 | supply grows by rewards and withdrawals exactly iff nothing overflows; the DAO move nets to zero |
| `EthTheorems.SmallSupplyLosesNothing` | crates/evm/src/eth/block.rs:180-210 | a supply below 2^128 wei with the rewards is enough |
| `EthTheorems.BalanceStageAt` | crates/evm/src/eth/block.rs:180-210 | each balance is what was there, nothing if drained, plus all the account is paid; nonce, code and storage are kept |
| `EthTheorems.FinishAccounts` | crates/evm/src/eth/block.rs:157-226 | the same for every account of a finished block, from the database after the request calls |
| `Seismic.SeismicEvm.Transact` | crates/seismic-evm/src/lib.rs:126-142 | one run under the current environment, changing nothing |
| `Seismic.SeismicEvm.TransactSystemCall` | crates/seismic-evm/src/lib.rs:144-210 | runs under the swapped environment, restores it on success and failure; the called contract is written as the interpreter wrote it, no other account is |
| `Seismic.SystemCallExact` | crates/seismic-evm/src/lib.rs:144-210 | the answer is the interpreter's for 30 million gas, no base fee and no nonce check, with its writes to the called contract and no others |
| `Seismic.SystemCallsNeverLeak` | crates/seismic-evm/src/lib.rs:179-197 | over any sequence of transactions, system calls and commits, every transaction runs under the original environment on exactly the commits before it |
| `Seismic.SystemCallsFrame` | crates/seismic-evm/src/lib.rs:199-207 | whether they succeed or fail, pre- and post-block calls write to their system contracts only |
| `Seismic.PreCallsWrite` | crates/seismic-evm/src/lib.rs:199-207 | the stage before the transactions leaves in the two history contracts what the interpreter wrote, all else as it was |
| `Seismic.PostCallsWrite` | crates/seismic-evm/src/lib.rs:199-207 | the same for the stage after them and the two request contracts |
| `Seismic.SeismicBlockExecutor.ExecuteTransactionWithCommitCondition` | crates/seismic-evm/src/block/mod.rs:89-107 | decrypts, then delegates |
| `Seismic.SeismicBlockExecutor.ExecuteTransactionWithResultClosure` | crates/seismic-evm/src/block/mod.rs:109-127 | decrypts, then delegates |
| `Seismic.SeismicBlockExecutor.ExecuteWholeBlock` | crates/evm/src/block/mod.rs:256-270 | the default block loop over the overridden entry points |
| `Seismic.SeismicRefines` | crates/seismic-evm/src/block/mod.rs:89-107 | any run equals the Ethereum run on the decrypted attempts; undecryptable ones leave no trace |
| `Seismic.ClosureEntryPointAgrees` | crates/evm/src/block/mod.rs:162-172 | the overridden closure entry point is the trait default over the other one |
| `Seismic.LoopRefines` | crates/seismic-evm/src/block/mod.rs:109-127 | the loop is the plain loop over the decryptable prefix, then the decryption error |
| `Seismic.SessionRefines` | crates/seismic-evm/src/block/mod.rs:85-131 | a session of encrypted attempts is the Ethereum session of the decrypted ones |
| `Seismic.BlockRefines` | crates/seismic-evm/src/block/mod.rs:85-131 | a block equals the Ethereum block on decrypted transactions, or stops with the state before the first undecryptable one |
| `Seismic.EncryptedRun` | crates/seismic-evm/src/block/mod.rs:89-107 | attempts encrypted by any encryptor that decryption undoes run as the plaintext does under the Ethereum executor |
| `Seismic.EncryptedBlock` | crates/seismic-evm/src/block/mod.rs:85-131 | so do whole sessions and whole blocks |
| `OpBlock.OpBlockExecutor.constructor` | crates/op-evm/src/block/mod.rs:73-85 | fixes the Regolith flag from the block timestamp |
| `OpBlock.OpBlockExecutor.ApplyPreExecutionChanges` | crates/op-evm/src/block/mod.rs:102-124 | the Ethereum pre-block calls, then the Canyon deployment |
| `OpBlock.OpBlockExecutor.ExecuteTransactionWithCommitCondition` | crates/op-evm/src/block/mod.rs:126-215 | the step with the deposit-aware gate and receipts |
| `OpBlock.OpBlockExecutor.FinishBlock` | crates/op-evm/src/block/mod.rs:217-246 | increments without ommers or withdrawals, gas from the last receipt |
| `OpBlock.OpBlockExecutor.ExecuteTransactionWithResultClosure` | crates/evm/src/block/mod.rs:162-172 | the always-committing step, returning the gas |
| `OpBlock.OpBlockExecutor.ExecuteWholeBlock` | crates/evm/src/block/mod.rs:256-270 | pre-execution, the loop up to the first error, finish |
| `OpBlock.EnsureCreate2Deployer` | crates/op-evm/src/block/canyon.rs:19-51 | deploys when the window is open, else changes nothing |
| `OpBlock.DeployKeepsTheRest` | crates/op-evm/src/block/canyon.rs:33-46 | sets code and hash, keeps balance, nonce, storage and all other accounts |
| `OpBlock.CanyonWindow` | crates/op-evm/src/block/canyon.rs:30-32 | fires iff the activation T is positive and T <= t < T + 2 |
| `OpBlock.FiresAtMostOnce` | crates/op-evm/src/block/canyon.rs:27-32 | blocks two seconds apart or more: at most one deploys |
| `OpBlock.FiresWhenCrossed` | crates/op-evm/src/block/canyon.rs:27-32 | steps of exactly two across the activation: exactly one deploys |
| `OpBlock.DepositsEscapeTheGate` | crates/op-evm/src/block/mod.rs:135-142 | before Regolith two deposits already pass the block limit |
| `OpBlock.GasBoundedIffRegolith` | crates/op-evm/src/block/mod.rs:131-142 | the block limit bounds every run of every interpreter iff Regolith is active |
| `OpBlock.GasBoundedWithoutDeposits` | crates/op-evm/src/block/mod.rs:131-142 | without deposits it always does |
| `OpBlock.ReportedGasIsCounter` | crates/op-evm/src/block/mod.rs:237-244 | the gas read from the last receipt is the internal counter |
| `OpBlock.OpFinishExact` | crates/op-evm/src/block/mod.rs:217-246 | finish never fails and returns all receipts, no requests, the last receipt's gas; only the beneficiary is paid, the base reward before Paris |
| `OpBlock.OpSessionResult` | crates/op-evm/src/block/mod.rs:102-246 | a session fails exactly with its pre-block calls, else one receipt a committed transaction and the counted gas, within the limit under Regolith |
| `OpBlock.OpSessionEventOrder` | crates/op-evm/src/block/mod.rs:102-240 | the exact event order of a successful session |
| `OpBlock.OpSessionIgnoresHook` | crates/op-evm/src/block/mod.rs:102-246 | a hook changes only the log of a session |
| `OpBlock.DepositReceipt` | crates/op-evm/src/block/mod.rs:144-210 | the whole receipt: type, success, gas, logs; for type 0x7E the nonce after exactly the earlier commits under Regolith and version 1 iff Canyon |
| `OpBlock.OpPreExecutionTracked` | crates/op-evm/src/block/mod.rs:112-121 | after pre-execution the log replays iff nothing was deployed, or the account already had that code and hash |
| `OpBlock.ReplayOverGap` | crates/op-evm/src/block/canyon.rs:36-46 | databases that differ in the deployer's info only agree again exactly after a touched entry for it |
| `OpBlock.OpSessionLogReplays` | crates/op-evm/src/block/mod.rs:102-245 | for any attempts the log replays iff the block does not deploy, the code was there, or a later reported change rewrites the deployer |
| `OpBlock.OpHookLogReplays` | crates/evm/src/block/mod.rs:256-270 | the same of an OP block, failing ones included |
| `OpBlock.DeploymentGoesUnreported` | crates/op-evm/src/block/mod.rs:112-121 | an empty block at the activation that succeeds with a log that does not replay |
| `Precompiles.PrecompilesMap.EnsureDynamicPrecompiles` | crates/evm/src/precompiles.rs:274-295 | converts every static entry once |
| `Precompiles.PrecompilesMap.MapPrecompile` | crates/evm/src/precompiles.rs:42-57 | replaces one present entry |
| `Precompiles.PrecompilesMap.MapPrecompilesFiltered` | crates/evm/src/precompiles.rs:83-104 | rebuilds the map, transforming the entries the filter picks |
| `Precompiles.PrecompilesMap.ApplyPrecompile` | crates/evm/src/precompiles.rs:144-166 | inserts, replaces or removes, keeping the address set |
| `Precompiles.PrecompilesMap.SetPrecompileLookup` | crates/evm/src/precompiles.rs:240-245 | installs the fallback |
| `Precompiles.RunRefines` | crates/evm/src/precompiles.rs:42-295 | any sequence of operations keeps the table in step with a plain map, its address set exact |
| `Precompiles.ObservationsAgree` | crates/evm/src/precompiles.rs:298-328 | get, addresses and warm addresses agree with the plain map after any operations, ids aside |
| `Precompiles.ConversionChangesOnlyIds` | crates/evm/src/precompiles.rs:274-295 | before and after conversion a static entry runs the same built-in function on data and gas; only its id changes |
| `Precompiles.StaticRuns` | crates/evm/src/precompiles.rs:311-328 | a static table answers for its entries by their functions and leaves other addresses to the fallback |
| `Precompiles.OperationExact` | crates/evm/src/precompiles.rs:42-245 | for each operation what get answers afterwards at its own address and that all others are left alone |
| `Tracing.TracerIter.NextItem` | crates/evm/src/tracing.rs:150-182 | one item: execute, show, commit unless last and skipped, fuse |
| `Tracing.ConsumeExact` | crates/evm/src/tracing.rs:128-182 | for any hook, items are shown with exactly the transactions before them committed; what is left at the end, in every mode |
| `Tracing.ConsumeLeaves` | crates/evm/src/tracing.rs:150-182 | after an error the later transactions are left to be traced, with the inspector as the failed one left it |
| `Tracing.ReadingHookCommits` | crates/evm/src/tracing.rs:171-175 | with a reading hook the end is the initial database with k, n or n - 1 change sets committed and nothing else |
| `Tracing.AlwaysFused` | crates/evm/src/tracing.rs:37-53 | with fusing on every transaction runs under the fused inspector |
| `Overrides.ApplyAccountOverride` | crates/evm/src/overrides.rs:122-193 | one override, or exactly the error of the malformed code or of the two kinds of storage given, with the database untouched |
| `Overrides.ApplyStateOverrides` | crates/evm/src/overrides.rs:109-120 | succeeds iff no override is in error, independent of order; each account all or nothing |
| `Overrides.OverrideIsLocal` | crates/evm/src/overrides.rs:122-193 | an override reads and writes its own account only |
| `Overrides.EverySlotChanges` | crates/evm/src/overrides.rs:175-188 | the inverted original makes every slot count as changed |
| `Overrides.FullStateReplaces` | crates/evm/src/overrides.rs:156-171 | every slot reads its override or zero; set fields are replaced, the others kept |
| `Overrides.StateDiffKeepsTheRest` | crates/evm/src/overrides.rs:172-190 | without `state`, slots read their override or old value iff the account is not cleared away, or all are zero; set fields are replaced, the others kept |
| `Overrides.DiffLostOnEmptyAccount` | crates/evm/src/overrides.rs:172-190 | an absent account with state clearing on keeps no overridden slot |

## Left out

- Failures of the backing database: every load succeeds, so the corresponding error exits are not modelled.
- Panics: a debug build panics where the model wraps, and draining a balance of 2^128 wei or more panics; the model does not.
- The EVM interpreter, journal, inspectors, ABI decoding, keccak, signature recovery and ECDH: functions passed in.
- Details of revm's `State`: account status tracking, transitions and the cache are not modelled, nor is what a commit makes of an empty account before state clearing beyond keeping it with its storage. `CacheDB` is covered only as a database without state clearing.
- Closures with memory of their own: commit conditions, mapping functions, lookups and the tracing hook are pure functions.
- `FromRecoveredTx` and `IntoTxEnv` conversions, factories, builders, setters, `Either` delegation and error texts: no hard property.
- `TxTracer::trace` and `apply_block_overrides`: only easy members.
- `PrecompilesMap::run`: turning a precompile result into an interpreter result.
- Bloom filters, capacity hints and purpose key handling.
- The list of DAO accounts and the Canyon bytecode: parameters.
