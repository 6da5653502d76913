/** The Ethereum block executor: pre-block calls, transactions, post-block calls and balances. */
module EthBlock {
  import opened Common
  import opened State
  import opened Hardforks
  import opened Evm
  import opened StateChanges
  import Deposits
  import opened SystemCalls
  import opened TxExecution

  datatype EthConfig = EthConfig(
    block: BlockConfig, ommers: seq<Header>, withdrawals: Option<seq<Withdrawal>>,
    decodeDeposit: Deposits.DepositDecoder, daoAccounts: seq<Address>)

  const DAO_HARDFORK_BENEFICIARY: Address := Address(0xbf4ed7b27f1d666546e30d74d50d173d20bca754)

  datatype BlockResult = BlockResult(receipts: seq<Receipt>, requests: Requests, gasUsed: u64)

  // ---- Specification -----------------------------------------------------------------------

  /** The database with the state clear flag of the block. */
  function Prepared(c: BlockConfig, db: Db): Db {
    db.(stateClear := c.spec.spuriousDragon.ActiveAtBlock(SaturatingU64(c.evm.env.block.number)))
  }

  function PreExecution(c: BlockConfig, w: World): Outcome<World, (), BlockError> {
    var o := ApplyBlockhashes(c.spec, c.parentHash, c.evm, w.(db := Prepared(c, w.db)));
    match o.result
    case Err(e) => o
    case Ok(_) => ApplyBeaconRoot(c.spec, c.parentBeaconRoot, c.evm, o.state)
  }

  predicate IsDaoBlock(c: EthConfig) {
    c.block.spec.dao.TransitionsAtBlock(SaturatingU64(c.block.evm.env.block.number))
  }

  predicate RequestsGate(c: EthConfig) {
    c.block.spec.prague.ActiveAtTimestamp(RawTimestamp(c.block.evm))
  }

  function BlockContributions(c: EthConfig): seq<Contribution> {
    Contributions(c.block.spec, c.block.evm.env.block, c.ommers, c.withdrawals)
  }

  /** Increments the balances and reports the accounts as they then are. */
  function CreditAndReport(w: World, incs: map<Address, u128>): Outcome<World, (), BlockError> {
    var db := IncrementBalances(w.db, incs);
    match w.hook
    case None => Outcome(World(db, None), Ok(()))
    case Some(_) =>
      match BalanceIncrementState(incs, db)
      case None => Outcome(World(db, w.hook), Err(CouldNotLoadAccount))
      case Some(cs) => Outcome(World(db, Report(w.hook, BalanceIncrements, cs)), Ok(()))
  }

  /** The accounts drained before the increments: none but at the DAO block. */
  function DrainList(c: EthConfig): seq<Address> {
    if IsDaoBlock(c) then c.daoAccounts else []
  }

  function FinalIncrements(c: EthConfig, db: Db): map<Address, u128> {
    var incs := Increments(c.block.spec, c.block.evm.env.block, c.ommers, c.withdrawals);
    if IsDaoBlock(c)
    then AddEntry(incs, DAO_HARDFORK_BENEFICIARY, Sum(DrainedBalances(db, c.daoAccounts)) % U128)
    else incs
  }

  function BalanceStage(c: EthConfig, w: World): Outcome<World, (), BlockError> {
    CreditAndReport(w.(db := DrainBalances(w.db, DrainList(c))), FinalIncrements(c, w.db))
  }

  /** The part of `finish` before the balances change. */
  function RequestStage(c: EthConfig, st: ExecState): Outcome<World, Requests, BlockError> {
    if !RequestsGate(c) then Outcome(st.world, Ok([]))
    else match Deposits.Parse(c.block.spec.depositContract, c.decodeDeposit, st.receipts)
      case Err(e) => Outcome(st.world, Err(e))
      case Ok(deposits) =>
        var o := ApplyPostExecution(c.block.evm, st.world);
        match o.result
        case Err(e) => Outcome(o.state, Err(e))
        case Ok(requests) => Outcome(o.state, Ok(PushRequest([], DEPOSIT_REQUEST_TYPE, deposits) + requests))
  }

  function Finish(c: EthConfig, st: ExecState): Outcome<ExecState, BlockResult, BlockError> {
    var o := RequestStage(c, st);
    match o.result
    case Err(e) => Outcome(st.(world := o.state), Err(e))
    case Ok(requests) =>
      var b := BalanceStage(c, o.state);
      var end := st.(world := b.state);
      match b.result
      case Err(e) => Outcome(end, Err(e))
      case Ok(_) => Outcome(end, Ok(BlockResult(st.receipts, requests, st.gasUsed)))
  }

  function ExecuteBlock(c: EthConfig, st: ExecState, txs: seq<Recovered>): Outcome<ExecState, BlockResult, BlockError> {
    var pre := PreExecution(c.block, st.world);
    match pre.result
    case Err(e) => Outcome(st.(world := pre.state), Err(e))
    case Ok(_) =>
      var o := ExecuteAll(c.block, st.(world := pre.state), txs);
      match o.result
      case Err(e) => Outcome(o.state, Err(e))
      case Ok(_) => Finish(c, o.state)
  }

  /**
   A whole use of the executor's interface: the changes before the block, any attempts, rejected and
   declined ones included, then `finish`.
   */
  function Session(c: EthConfig, st: ExecState, attempts: seq<Attempt>): Outcome<ExecState, BlockResult, BlockError> {
    var pre := PreExecution(c.block, st.world);
    match pre.result
    case Err(e) => Outcome(st.(world := pre.state), Err(e))
    case Ok(_) => Finish(c, Run(c.block, st.(world := pre.state), attempts))
  }

  // ---- The executor object -----------------------------------------------------------------

  class EthBlockExecutor {
    const cfg: EthConfig
    const db: StateDb
    const systemCaller: SystemCaller
    var receipts: seq<Receipt>
    var gasUsed: u64

    ghost predicate Valid() {
      systemCaller.spec == cfg.block.spec && forall tx :: cfg.block.gated(tx)
    }

    function View(): ExecState
      reads this, db, systemCaller
    {
      ExecState(World(db.view, systemCaller.hook), receipts, gasUsed)
    }

    constructor (cfg: EthConfig, db: StateDb)
      requires forall tx :: cfg.block.gated(tx)
      ensures Valid() && this.cfg == cfg && this.db == db && fresh(systemCaller)
      ensures View() == ExecState(World(db.view, None), [], 0)
    {
      this.cfg := cfg;
      this.db := db;
      systemCaller := new SystemCaller(cfg.block.spec);
      receipts := [];
      gasUsed := 0;
    }

    method SetStateHook(hook: Hook)
      requires Valid()
      modifies systemCaller
      ensures View() == old(View()).(world := old(View()).world.(hook := hook))
    {
      systemCaller.WithStateHook(hook);
    }

    method ApplyPreExecutionChanges() returns (r: Result<(), BlockError>)
      requires Valid()
      modifies db, systemCaller
      ensures Outcome(View().world, r) == PreExecution(cfg.block, old(View().world))
    {
      var block := cfg.block.evm.env.block;
      db.SetStateClearFlag(cfg.block.spec.spuriousDragon.ActiveAtBlock(SaturatingU64(block.number)));
      r := systemCaller.ApplyBlockhashesContractCall(cfg.block.parentHash, cfg.block.evm, db);
      if r.Err? {
        return;
      }
      r := systemCaller.ApplyBeaconRootContractCall(cfg.block.parentBeaconRoot, cfg.block.evm, db);
    }

    method ExecuteTransactionWithCommitCondition(tx: Recovered, f: ExecutionResult -> bool)
      returns (r: Result<Option<u64>, BlockError>)
      requires Valid()
      modifies this, db, systemCaller
      ensures Outcome(View(), r) == Step(cfg.block, old(View()), Attempt(tx, f))
    {
      var available := SubU64(cfg.block.evm.env.block.gasLimit, gasUsed);
      if tx.tx.gasLimit > available {
        return Err(GasLimitMoreThanAvailable(tx.tx.gasLimit, available));
      }
      var outcome := cfg.block.evm.transact(db.view, cfg.block.evm.env, tx);
      match outcome {
        case Err(e) => return Err(FromEvmError(e, cfg.block.trieHash(tx.tx)));
        case Ok(res) =>
          if !f(res.result) {
            return Ok(None);
          }
          systemCaller.OnState(Transaction(|receipts|), res.state);
          gasUsed := AddU64(gasUsed, res.result.gas);
          receipts := receipts + [cfg.block.buildReceipt(tx, db.view, res, gasUsed)];
          db.CommitChanges(res.state);
          r := Ok(Some(res.result.gas));
      }
    }

    method ExecuteTransactionWithResultClosure(tx: Recovered) returns (r: Result<u64, BlockError>)
      requires Valid()
      modifies this, db, systemCaller
      ensures Outcome(View(), r) == ExecuteTransaction(cfg.block, old(View()), tx)
    {
      var o := ExecuteTransactionWithCommitCondition(tx, Always);
      match o {
        case Err(e) => r := Err(e);
        case Ok(None) => r := Ok(0);
        case Ok(Some(gas)) => r := Ok(gas);
      }
    }

    method FinishBlock() returns (r: Result<BlockResult, BlockError>)
      requires Valid()
      modifies db, systemCaller
      ensures Outcome(View(), r) == Finish(cfg, old(View()))
    {
      var spec, evm := cfg.block.spec, cfg.block.evm;
      var requests: Requests := [];
      if spec.prague.ActiveAtTimestamp(SaturatingU64(evm.env.block.timestamp)) {
        var deposits := Deposits.ParseDepositsFromReceipts(spec.depositContract, cfg.decodeDeposit, receipts);
        if deposits.Err? {
          return Err(deposits.error);
        }
        if deposits.value != [] {
          requests := requests + [[DEPOSIT_REQUEST_TYPE] + deposits.value];
        }
        var more := systemCaller.ApplyPostExecutionChanges(evm, db);
        if more.Err? {
          return Err(more.error);
        }
        requests := requests + more.value;
      }
      ghost var before := World(db.view, systemCaller.hook);
      assert Outcome(before, Ok(requests)) == RequestStage(cfg, old(View()));
      var incs := PostBlockBalanceIncrements(spec, evm.env.block, cfg.ommers, cfg.withdrawals);
      if spec.dao.TransitionsAtBlock(SaturatingU64(evm.env.block.number)) {
        var drained := db.Drain(cfg.daoAccounts);
        incs := AddEntry(incs, DAO_HARDFORK_BENEFICIARY, Sum(drained) % U128);
      }
      assert db.view == DrainBalances(before.db, DrainList(cfg)) && incs == FinalIncrements(cfg, before.db);
      db.Increment(incs);
      if systemCaller.hook.Some? {
        var snapshot := BalanceIncrementState(incs, db.view);
        if snapshot.None? {
          return Err(CouldNotLoadAccount);
        }
        systemCaller.OnState(BalanceIncrements, snapshot.value);
      }
      r := Ok(BlockResult(receipts, requests, gasUsed));
    }

    method ExecuteWholeBlock(txs: seq<Recovered>) returns (r: Result<BlockResult, BlockError>)
      requires Valid()
      modifies this, db, systemCaller
      ensures Outcome(View(), r) == ExecuteBlock(cfg, old(View()), txs)
    {
      var pre := ApplyPreExecutionChanges();
      if pre.Err? {
        return Err(pre.error);
      }
      ghost var start := View();
      for i := 0 to |txs|
        invariant ExecuteAll(cfg.block, start, txs) == ExecuteAll(cfg.block, View(), txs[i..])
      {
        var o := ExecuteTransactionWithResultClosure(txs[i]);
        if o.Err? {
          return Err(o.error);
        }
        assert txs[i..][1..] == txs[i + 1..];
      }
      r := FinishBlock();
    }
  }
}
