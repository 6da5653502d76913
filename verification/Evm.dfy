/** Transactions, execution results, receipts and the EVM an executor is given. */
module Evm {
  import opened Common
  import opened State

  datatype BlockEnv = BlockEnv(
    number: u256, timestamp: u256, gasLimit: u64, basefee: u64, beneficiary: Address)

  datatype CfgEnv = CfgEnv(disableNonceCheck: bool)

  datatype EvmEnv = EvmEnv(block: BlockEnv, cfg: CfgEnv)

  datatype Log = Log(address: Address, topics: seq<Hash>, data: Bytes)

  datatype ExecutionResult =
    | Success(gas: u64, logs: seq<Log>, output: Bytes)
    | Revert(gas: u64, output: Bytes)
    | Halt(gas: u64, reason: nat)
  {
    function IntoLogs(): seq<Log> { if Success? then logs else [] }
  }

  datatype ResultAndState = ResultAndState(result: ExecutionResult, state: ChangeSet)

  datatype EvmError = InvalidTransaction(code: nat) | Fatal(code: nat)

  type EvmOutcome = Result<ResultAndState, EvmError>

  /** A consensus transaction: the parts the executors look at, and the rest as bytes. */
  datatype TxEnvelope = TxEnvelope(ty: byte, gasLimit: u64, nonce: u64, input: Bytes, rest: Bytes)

  datatype Recovered = Recovered(tx: TxEnvelope, signer: Address)

  datatype CallData = NoData | Word(hash: Hash) | Input(bytes: Bytes)

  /**
   An EVM over a block environment. Running it is a function of the database, the environment and
   the transaction or call: it returns a result and a change set and commits nothing itself.
   */
  datatype Evm = Evm(
    transact: (Db, EvmEnv, Recovered) -> EvmOutcome,
    systemCall: (Db, EvmEnv, Address, Address, CallData) -> EvmOutcome,
    env: EvmEnv,
    timestampInSeconds: bool)

  /** No transaction uses more gas than its own limit. */
  ghost predicate RespectsGasLimit(evm: Evm) {
    forall db, env, tx :: evm.transact(db, env, tx).Ok? ==>
      evm.transact(db, env, tx).value.result.gas <= tx.tx.gasLimit
  }

  /** A receipt; the last two fields are set for deposits only, `extra` is whatever a builder adds. */
  datatype Receipt = Receipt(
    ty: byte, success: bool, cumulativeGasUsed: u64, logs: seq<Log>, extra: Bytes,
    depositNonce: Option<u64>, depositVersion: Option<u64>)

  /** Builds a receipt from a transaction, the database before its commit, its outcome and the gas so far. */
  type ReceiptBuilder = (Recovered, Db, ResultAndState, u64) -> Receipt

  ghost predicate RecordsGas(build: ReceiptBuilder) {
    forall tx, db, res, gas :: build(tx, db, res, gas).cumulativeGasUsed == gas
  }

  function AlloyBuildReceipt(tx: Recovered, db: Db, res: ResultAndState, gas: u64): Receipt {
    Receipt(tx.tx.ty, res.result.Success?, gas, res.result.IntoLogs(), [], None, None)
  }

  datatype CallFailure = ExecutionFailed(error: EvmError) | Reverted(output: Bytes) | Halted(reason: nat)

  datatype BlockError =
    | InvalidTx(hash: Hash, code: nat)
    | InternalEvm(hash: Hash, code: nat)
    | GasLimitMoreThanAvailable(txGasLimit: u64, available: u64)
    | MissingParentBeaconBlockRoot
    | GenesisBeaconRootNotZero(root: Hash)
    | BlockHashContractCall(error: EvmError)
    | BeaconRootContractCall(root: Hash, error: EvmError)
    | WithdrawalRequestsContractCall(failure: CallFailure)
    | ConsolidationRequestsContractCall(failure: CallFailure)
    | DepositRequestDecode
    | CouldNotLoadAccount
    | FailedToDecryptSeismicTx(code: nat)

  function FromEvmError(error: EvmError, hash: Hash): BlockError {
    match error
    case InvalidTransaction(code) => InvalidTx(hash, code)
    case Fatal(code) => InternalEvm(hash, code)
  }
}
