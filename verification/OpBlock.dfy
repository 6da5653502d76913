/** The Optimism block executor: deposits, the Regolith gas gate and the Canyon deployment. */
module OpBlock {
  import opened Common
  import opened State
  import opened Hardforks
  import opened Evm
  import opened Calc
  import opened StateChanges
  import opened SystemCalls
  import opened TxExecution
  import opened EthBlock
  import EthTheorems

  const DEPOSIT_TRANSACTION_TYPE: byte := 0x7E

  const CREATE_2_DEPLOYER: Address := Address(0x13b0d85ccb8bf860b6b79af3029fca081ae9bef2)

  const CREATE_2_DEPLOYER_CODEHASH: Hash := 0xb0550b5b431e30d38000efb7107aaa0ade03d48a7198a140edda9d27134468b2

  datatype OpConfig = OpConfig(
    spec: ChainSpec, evm: Evm, parentHash: Hash, parentBeaconRoot: Option<Hash>,
    trieHash: TxEnvelope -> Hash, deployerCode: Bytes)
  {
    predicate IsRegolith() { spec.regolith.ActiveAtTimestamp(RawTimestamp(evm)) }
    predicate IsCanyon() { spec.canyon.ActiveAtTimestamp(RawTimestamp(evm)) }
  }

  predicate IsDeposit(tx: TxEnvelope) { tx.ty == DEPOSIT_TRANSACTION_TYPE }

  function OpBuildReceipt(regolith: bool, canyon: bool): ReceiptBuilder {
    (tx: Recovered, db: Db, res: ResultAndState, gas: u64) =>
      if !IsDeposit(tx.tx) then AlloyBuildReceipt(tx, db, res, gas)
      else AlloyBuildReceipt(tx, db, res, gas).(
        depositNonce := if regolith then Some(db.InfoOf(tx.signer).nonce) else None,
        depositVersion := if canyon then Some(1) else None)
  }

  /** Deposits escape the gas gate before Regolith. */
  function Gated(regolith: bool): TxEnvelope -> bool {
    tx => regolith || !IsDeposit(tx)
  }

  /** The executor's view of an OP block. */
  function OpBlockConfig(c: OpConfig): BlockConfig {
    BlockConfig(
      c.spec, c.evm, c.parentHash, c.parentBeaconRoot,
      Gated(c.IsRegolith()), OpBuildReceipt(c.IsRegolith(), c.IsCanyon()), c.trieHash)
  }

  // ---- Canyon ------------------------------------------------------------------------------

  /** Active now, and not two seconds ago. */
  predicate CanyonFires(canyon: ForkCondition, timestamp: u64) {
    canyon.ActiveAtTimestamp(timestamp) &&
    !canyon.ActiveAtTimestamp(if timestamp >= 2 then timestamp - 2 else 0)
  }

  function DeployedInfo(info: AccountInfo, code: Bytes): AccountInfo {
    info.(codeHash := CREATE_2_DEPLOYER_CODEHASH, code := Some(code))
  }

  function DeployCreate2(db: Db, code: Bytes): Db {
    Commit(db, map[CREATE_2_DEPLOYER :=
      Change(DeployedInfo(db.InfoOf(CREATE_2_DEPLOYER), code), map[], true, false, false)])
  }

  function EnsureCreate2(canyon: ForkCondition, timestamp: u64, db: Db, code: Bytes): Db {
    if CanyonFires(canyon, timestamp) then DeployCreate2(db, code) else db
  }

  method EnsureCreate2Deployer(spec: ChainSpec, timestamp: u64, db: StateDb, code: Bytes)
    modifies db
    ensures db.view == EnsureCreate2(spec.canyon, timestamp, old(db.view), code)
  {
    if spec.canyon.ActiveAtTimestamp(timestamp)
       && !spec.canyon.ActiveAtTimestamp(if timestamp - 2 >= 0 then timestamp - 2 else 0)
    {
      var info := db.view.InfoOf(CREATE_2_DEPLOYER);
      info := info.(codeHash := CREATE_2_DEPLOYER_CODEHASH);
      info := info.(code := Some(code));
      db.CommitChanges(map[CREATE_2_DEPLOYER := Change(info, map[], true, false, false)]);
    }
  }

  /** The deployment sets code and code hash and keeps the balance, the nonce, the storage and all other accounts. */
  lemma {:induction false} DeployKeepsTheRest(db: Db, code: Bytes)
    ensures var after := DeployCreate2(db, code);
            var (balance, nonce) := (db.InfoOf(CREATE_2_DEPLOYER).balance, db.InfoOf(CREATE_2_DEPLOYER).nonce);
            after.Find(CREATE_2_DEPLOYER) == Some(Account(
              AccountInfo(balance, nonce, CREATE_2_DEPLOYER_CODEHASH, Some(code)),
              OrDefault(db.Find(CREATE_2_DEPLOYER)).storage)) &&
            forall a :: a != CREATE_2_DEPLOYER ==> after.Find(a) == db.Find(a)
  {
    var cs := map[CREATE_2_DEPLOYER :=
      Change(DeployedInfo(db.InfoOf(CREATE_2_DEPLOYER), code), map[], true, false, false)];
    assert ChangedSlots(map[]) == map[];
    var kept := OrDefault(db.Find(CREATE_2_DEPLOYER)).storage;
    assert kept + map[] == kept;
    assert After(db, cs, CREATE_2_DEPLOYER).Some?;
    forall a | a != CREATE_2_DEPLOYER
      ensures Commit(db, cs).Find(a) == db.Find(a)
    {
      assert After(db, cs, a) == db.Find(a);
    }
  }

  /** The deployment fires in a window of two seconds that starts at a positive activation time. */
  lemma {:induction false} CanyonWindow(canyon: ForkCondition, t: u64)
    ensures CanyonFires(canyon, t) <==> canyon.AtTimestamp? && canyon.time > 0 && canyon.time <= t < canyon.time + 2
  {
  }

  function Gap(earlier: int, later: int): int { later - earlier }

  /** Block times at least two seconds apart. */
  predicate SpacedByTwo(times: seq<u64>) {
    forall i :: 0 < i < |times| ==> Gap(times[i - 1], times[i]) >= 2
  }

  lemma {:induction false} SpacedFurther(times: seq<u64>, i: nat, j: nat)
    requires SpacedByTwo(times) && i < j < |times|
    ensures Gap(times[i], times[j]) >= 2
    decreases j
  {
    if i < j - 1 {
      SpacedFurther(times, i, j - 1);
    }
  }

  /** On a chain whose blocks are at least two seconds apart, at most one block deploys. */
  lemma {:induction false} FiresAtMostOnce(canyon: ForkCondition, times: seq<u64>, i: nat, j: nat)
    requires SpacedByTwo(times) && i < |times| && j < |times|
    requires CanyonFires(canyon, times[i]) && CanyonFires(canyon, times[j])
    ensures i == j
  {
    CanyonWindow(canyon, times[i]);
    CanyonWindow(canyon, times[j]);
    if i < j {
      SpacedFurther(times, i, j);
    } else if j < i {
      SpacedFurther(times, j, i);
    }
  }

  /** A chain that steps by exactly two, starts below the activation and reaches it, deploys in one block. */
  lemma {:induction false} FiresWhenCrossed(canyon: ForkCondition, times: seq<u64>) returns (i: nat)
    requires times != [] && forall j :: 0 < j < |times| ==> Gap(times[j - 1], times[j]) == 2
    requires canyon.AtTimestamp? && times[0] < canyon.time <= times[|times| - 1]
    ensures i < |times| && CanyonFires(canyon, times[i])
    ensures forall j :: 0 <= j < |times| && CanyonFires(canyon, times[j]) ==> j == i
  {
    i := 1;
    while times[i] < canyon.time
      invariant 1 <= i < |times| && times[i - 1] < canyon.time
      decreases |times| - i
    {
      i := i + 1;
    }
    CanyonWindow(canyon, times[i]);
    forall j | 0 <= j < |times| && CanyonFires(canyon, times[j])
      ensures j == i
    {
      FiresAtMostOnce(canyon, times, j, i);
    }
  }

  // ---- Block -------------------------------------------------------------------------------

  function OpPreExecution(c: OpConfig, w: World): Outcome<World, (), BlockError> {
    var o := PreExecution(OpBlockConfig(c), w);
    match o.result
    case Err(_) => o
    case Ok(_) =>
      o.(state := o.state.(db := EnsureCreate2(c.spec.canyon, RawTimestamp(c.evm), o.state.db, c.deployerCode)))
  }

  function OpFinish(c: OpConfig, st: ExecState): Outcome<ExecState, BlockResult, BlockError> {
    var b := CreditAndReport(st.world, Increments(c.spec, c.evm.env.block, [], None));
    var end := st.(world := b.state);
    match b.result
    case Err(e) => Outcome(end, Err(e))
    case Ok(_) => Outcome(end, Ok(BlockResult(st.receipts, [], LastCumulativeGas(st.receipts))))
  }

  function OpExecuteBlock(c: OpConfig, st: ExecState, txs: seq<Recovered>): Outcome<ExecState, BlockResult, BlockError> {
    var pre := OpPreExecution(c, st.world);
    match pre.result
    case Err(e) => Outcome(st.(world := pre.state), Err(e))
    case Ok(_) =>
      var o := ExecuteAll(OpBlockConfig(c), st.(world := pre.state), txs);
      match o.result
      case Err(e) => Outcome(o.state, Err(e))
      case Ok(_) => OpFinish(c, o.state)
  }

  /** A whole use of the executor's interface, with any attempts between pre-execution and `finish`. */
  function OpSession(c: OpConfig, st: ExecState, attempts: seq<Attempt>): Outcome<ExecState, BlockResult, BlockError> {
    var pre := OpPreExecution(c, st.world);
    match pre.result
    case Err(e) => Outcome(st.(world := pre.state), Err(e))
    case Ok(_) => OpFinish(c, Run(OpBlockConfig(c), st.(world := pre.state), attempts))
  }

  class OpBlockExecutor {
    const cfg: OpConfig
    const isRegolith: bool
    const db: StateDb
    const systemCaller: SystemCaller
    var receipts: seq<Receipt>
    var gasUsed: u64

    ghost predicate Valid() {
      systemCaller.spec == cfg.spec && isRegolith == cfg.IsRegolith()
    }

    function View(): ExecState
      reads this, db, systemCaller
    {
      ExecState(World(db.view, systemCaller.hook), receipts, gasUsed)
    }

    constructor (cfg: OpConfig, db: StateDb)
      ensures Valid() && this.cfg == cfg && this.db == db && fresh(systemCaller)
      ensures View() == ExecState(World(db.view, None), [], 0)
    {
      this.cfg := cfg;
      isRegolith := cfg.spec.regolith.ActiveAtTimestamp(SaturatingU64(cfg.evm.env.block.timestamp));
      this.db := db;
      systemCaller := new SystemCaller(cfg.spec);
      receipts := [];
      gasUsed := 0;
    }

    method ApplyPreExecutionChanges() returns (r: Result<(), BlockError>)
      requires Valid()
      modifies db, systemCaller
      ensures Outcome(View().world, r) == OpPreExecution(cfg, old(View().world))
    {
      var block := cfg.evm.env.block;
      db.SetStateClearFlag(cfg.spec.spuriousDragon.ActiveAtBlock(SaturatingU64(block.number)));
      r := systemCaller.ApplyBlockhashesContractCall(cfg.parentHash, cfg.evm, db);
      if r.Err? {
        return;
      }
      r := systemCaller.ApplyBeaconRootContractCall(cfg.parentBeaconRoot, cfg.evm, db);
      if r.Err? {
        return;
      }
      EnsureCreate2Deployer(cfg.spec, SaturatingU64(block.timestamp), db, cfg.deployerCode);
    }

    method ExecuteTransactionWithCommitCondition(tx: Recovered, f: ExecutionResult -> bool)
      returns (r: Result<Option<u64>, BlockError>)
      requires Valid()
      modifies this, db, systemCaller
      ensures Outcome(View(), r) == Step(OpBlockConfig(cfg), old(View()), Attempt(tx, f))
    {
      var isDeposit := tx.tx.ty == DEPOSIT_TRANSACTION_TYPE;
      var available := SubU64(cfg.evm.env.block.gasLimit, gasUsed);
      if tx.tx.gasLimit > available && (isRegolith || !isDeposit) {
        return Err(GasLimitMoreThanAvailable(tx.tx.gasLimit, available));
      }
      var depositor := if isRegolith && isDeposit then Some(db.view.InfoOf(tx.signer)) else None;
      var outcome := cfg.evm.transact(db.view, cfg.evm.env, tx);
      match outcome {
        case Err(e) => return Err(FromEvmError(e, cfg.trieHash(tx.tx)));
        case Ok(res) =>
          if !f(res.result) {
            return Ok(None);
          }
          systemCaller.OnState(Transaction(|receipts|), res.state);
          gasUsed := AddU64(gasUsed, res.result.gas);
          var receipt := AlloyBuildReceipt(tx, db.view, res, gasUsed);
          if isDeposit {
            receipt := receipt.(
              depositNonce := if depositor.Some? then Some(depositor.value.nonce) else None,
              depositVersion :=
                if isDeposit && cfg.spec.canyon.ActiveAtTimestamp(SaturatingU64(cfg.evm.env.block.timestamp))
                then Some(1) else None);
          }
          receipts := receipts + [receipt];
          db.CommitChanges(res.state);
          r := Ok(Some(res.result.gas));
      }
    }

    method ExecuteTransactionWithResultClosure(tx: Recovered) returns (r: Result<u64, BlockError>)
      requires Valid()
      modifies this, db, systemCaller
      ensures Outcome(View(), r) == ExecuteTransaction(OpBlockConfig(cfg), old(View()), tx)
    {
      var o := ExecuteTransactionWithCommitCondition(tx, Always);
      match o {
        case Err(e) => r := Err(e);
        case Ok(None) => r := Ok(0);
        case Ok(Some(gas)) => r := Ok(gas);
      }
    }

    method ExecuteWholeBlock(txs: seq<Recovered>) returns (r: Result<BlockResult, BlockError>)
      requires Valid()
      modifies this, db, systemCaller
      ensures Outcome(View(), r) == OpExecuteBlock(cfg, old(View()), txs)
    {
      var pre := ApplyPreExecutionChanges();
      if pre.Err? {
        return Err(pre.error);
      }
      ghost var c, start := OpBlockConfig(cfg), View();
      for i := 0 to |txs|
        invariant ExecuteAll(c, start, txs) == ExecuteAll(c, View(), txs[i..])
      {
        var o := ExecuteTransactionWithResultClosure(txs[i]);
        if o.Err? {
          return Err(o.error);
        }
        assert txs[i..][1..] == txs[i + 1..];
      }
      r := FinishBlock();
    }

    method FinishBlock() returns (r: Result<BlockResult, BlockError>)
      requires Valid()
      modifies db, systemCaller
      ensures Outcome(View(), r) == OpFinish(cfg, old(View()))
    {
      var incs := PostBlockBalanceIncrements(cfg.spec, cfg.evm.env.block, [], None);
      db.Increment(incs);
      if systemCaller.hook.Some? {
        var snapshot := BalanceIncrementState(incs, db.view);
        if snapshot.None? {
          return Err(CouldNotLoadAccount);
        }
        systemCaller.OnState(BalanceIncrements, snapshot.value);
      }
      var gas := if receipts == [] then 0 else receipts[|receipts| - 1].cumulativeGasUsed;
      r := Ok(BlockResult(receipts, [], gas));
    }
  }

  // ---- Gas ---------------------------------------------------------------------------------

  /** An interpreter that spends every transaction's whole limit and changes nothing. */
  function SpendAll(evm: Evm): Evm {
    evm.(transact := (db: Db, env: EvmEnv, tx: Recovered) => Ok(ResultAndState(Success(tx.tx.gasLimit, [], []), map[])))
  }

  function BiggestDeposit(): Attempt {
    Attempt(Recovered(TxEnvelope(DEPOSIT_TRANSACTION_TYPE, U64 - 1, 0, [], []), Address(0)), Always)
  }

  ghost predicate GasBoundedForEveryEvm(c: OpConfig, w: World) {
    forall evm: Evm, attempts: seq<Attempt> :: RespectsGasLimit(evm) && evm.env == c.evm.env ==>
      Sum(Gases(OpBlockConfig(c.(evm := evm)), ExecState(w, [], 0), attempts)) <= c.evm.env.block.gasLimit
  }

  /** Before Regolith two deposits of the largest gas limit are enough to pass the block limit. */
  lemma {:induction false} DepositsEscapeTheGate(c: OpConfig, w: World)
    requires !c.IsRegolith()
    ensures Sum(Gases(OpBlockConfig(c.(evm := SpendAll(c.evm))), ExecState(w, [], 0), [BiggestDeposit(), BiggestDeposit()]))
            > c.evm.env.block.gasLimit
  {
    var b := OpBlockConfig(c.(evm := SpendAll(c.evm)));
    var st := ExecState(w, [], 0);
    var a := BiggestDeposit();
    var next := Step(b, st, a).state;
    assert Step(b, st, a).result == Ok(Some(U64 - 1));
    assert Step(b, next, a).result == Ok(Some(U64 - 1));
    assert [a, a][1..] == [a] && [a][1..] == [];
    assert Gases(b, next, [a]) == [U64 - 1];
    assert Gases(b, st, [a, a]) == [U64 - 1, U64 - 1];
    assert [U64 - 1, U64 - 1][..1] == [U64 - 1] && [U64 - 1][..0] == [];
    assert Sum([U64 - 1]) == U64 - 1;
  }

  /**
   The block gas limit bounds the gas of every run, whatever the transactions and the interpreter, if
   and only if Regolith is active.
   */
  lemma {:induction false} GasBoundedIffRegolith(c: OpConfig, w: World)
    ensures GasBoundedForEveryEvm(c, w) <==> c.IsRegolith()
  {
    if c.IsRegolith() {
      forall evm: Evm, attempts: seq<Attempt> | RespectsGasLimit(evm) && evm.env == c.evm.env
        ensures Sum(Gases(OpBlockConfig(c.(evm := evm)), ExecState(w, [], 0), attempts)) <= c.evm.env.block.gasLimit
      {
        GasSafety(OpBlockConfig(c.(evm := evm)), ExecState(w, [], 0), attempts);
      }
    } else {
      DepositsEscapeTheGate(c, w);
      assert RespectsGasLimit(SpendAll(c.evm));
    }
  }

  /** With no deposits the bound needs no fork. */
  lemma {:induction false} GasBoundedWithoutDeposits(c: OpConfig, w: World, attempts: seq<Attempt>)
    requires RespectsGasLimit(c.evm)
    requires forall i :: 0 <= i < |attempts| ==> !IsDeposit(attempts[i].tx.tx)
    ensures Sum(Gases(OpBlockConfig(c), ExecState(w, [], 0), attempts)) <= c.evm.env.block.gasLimit
  {
    GasSafety(OpBlockConfig(c), ExecState(w, [], 0), attempts);
  }

  /** The figure `finish` reads from the last receipt is the internal counter, with or without Regolith. */
  lemma {:induction false} ReportedGasIsCounter(c: OpConfig, w: World, attempts: seq<Attempt>)
    ensures var end := Run(OpBlockConfig(c), ExecState(w, [], 0), attempts);
            LastCumulativeGas(end.receipts) == end.gasUsed
  {
    CounterInReceipts(OpBlockConfig(c), ExecState(w, [], 0), attempts);
  }

  // ---- Deposit receipts --------------------------------------------------------------------

  /**
   The i-th committed transaction's receipt tells its type, success, gas so far and logs. For a deposit,
   type 0x7E, it carries under Regolith the nonce its signer has after exactly the i commits before it,
   and version 1 exactly when Canyon is active; other transactions carry neither.
   */
  lemma {:induction false} DepositReceipt(c: OpConfig, w: World, attempts: seq<Attempt>, i: nat)
    requires i < |Survivors(OpBlockConfig(c), ExecState(w, [], 0), attempts)|
    ensures var b := OpBlockConfig(c);
            var st := ExecState(w, [], 0);
            var survivors := Survivors(b, st, attempts);
            var tx := survivors[i].tx;
            var before := Run(b, st, survivors[..i]);
            var outcome := c.evm.transact(before.world.db, c.evm.env, tx);
            var receipts := Run(b, st, attempts).receipts;
            i < |receipts| && outcome.Ok? &&
            receipts[i] == Receipt(
              tx.tx.ty,
              outcome.value.result.Success?,
              AddU64(before.gasUsed, outcome.value.result.gas),
              if outcome.value.result.Success? then outcome.value.result.logs else [],
              [],
              if tx.tx.ty == 0x7E && c.spec.regolith.ActiveAtTimestamp(SaturatingU64(c.evm.env.block.timestamp))
              then Some(before.world.db.InfoOf(tx.signer).nonce) else None,
              if tx.tx.ty == 0x7E && c.spec.canyon.ActiveAtTimestamp(SaturatingU64(c.evm.env.block.timestamp))
              then Some(1) else None)
  {
    CommittedInOrder(OpBlockConfig(c), ExecState(w, [], 0), attempts, i);
  }

  // ---- What `finish` returns ---------------------------------------------------------------

  /**
   `finish` always succeeds. It returns all receipts, no requests and the figure of the last receipt,
   and changes one thing in the database: before Paris the beneficiary gets the base reward.
   */
  lemma {:induction false} OpFinishExact(c: OpConfig, st: ExecState, a: Address)
    ensures var o := OpFinish(c, st);
            var n := |st.receipts|;
            var (before, after) := (st.world.db, o.state.world.db);
            var reward := BaseBlockReward(c.spec, SaturatingU64(c.evm.env.block.number));
            var paid := if reward.Some? && a == c.evm.env.block.beneficiary then reward.value else 0;
            o.result == Ok(BlockResult(st.receipts, [], if n == 0 then 0 else st.receipts[n - 1].cumulativeGasUsed)) &&
            o.state.receipts == st.receipts && o.state.gasUsed == st.gasUsed &&
            after.InfoOf(a) == before.InfoOf(a).(balance := Min(before.InfoOf(a).balance + paid, U256 - 1)) &&
            forall k :: after.SlotOf(a, k) == before.SlotOf(a, k)
  {
    var incs := Increments(c.spec, c.evm.env.block, [], None);
    SnapshotSucceeds(st.world.db, incs);
    assert OpFinish(c, st).state.world.db == IncrementBalances(st.world.db, incs);
    OpEntry(c, a);
    EthTheorems.CreditedAccount(st.world.db, incs, a);
  }

  /** The increments of an OP block: the base reward for its beneficiary before Paris. */
  lemma {:induction false} OpEntry(c: OpConfig, a: Address)
    ensures var incs := Increments(c.spec, c.evm.env.block, [], None);
            var reward := BaseBlockReward(c.spec, SaturatingU64(c.evm.env.block.number));
            (if a in incs then incs[a] else 0)
            == if reward.Some? && a == c.evm.env.block.beneficiary then reward.value else 0
  {
    var reward := BaseBlockReward(c.spec, SaturatingU64(c.evm.env.block.number));
    EntryIsSumOfContributions(Contributions(c.spec, c.evm.env.block, [], None), a);
    AmountDue(c.spec, c.evm.env.block, [], None, a);
    if reward.Some? {
      BlockRewardExact(reward.value, 0);
    }
  }

  /**
   A session fails exactly when the pre-block calls do. Otherwise it returns one receipt for each
   committed transaction and the gas counted, which under Regolith is within the block limit and the
   sum of what the committed transactions used.
   */
  lemma {:induction false} OpSessionResult(c: OpConfig, w: World, attempts: seq<Attempt>)
    requires RespectsGasLimit(c.evm)
    ensures var b := OpBlockConfig(c);
            var o := OpSession(c, ExecState(w, [], 0), attempts);
            var first := ExecState(OpPreExecution(c, w).state, [], 0);
            (o.result.Ok? <==> PreExecution(b, w).result.Ok?) &&
            (o.result.Ok? ==>
              o.result.value == BlockResult(Run(b, first, attempts).receipts, [], Run(b, first, attempts).gasUsed) &&
              |o.result.value.receipts| == |Survivors(b, first, attempts)| &&
              (c.IsRegolith() ==>
                o.result.value.gasUsed == Sum(Gases(b, first, attempts)) &&
                o.result.value.gasUsed <= c.evm.env.block.gasLimit))
  {
    var b := OpBlockConfig(c);
    var first := ExecState(OpPreExecution(c, w).state, [], 0);
    RunGrows(b, first, attempts);
    ReportedGasIsCounter(c, first.world, attempts);
    if c.IsRegolith() {
      GasSafety(b, first, attempts);
    }
    OpFinishExact(c, Run(b, first, attempts), Address(0));
  }

  // ---- Hook events in order ----------------------------------------------------------------

  lemma {:induction false} OpFinishSources(c: OpConfig, st: ExecState)
    requires st.world.hook.Some?
    ensures Sources(OpFinish(c, st).state.world.hook) == Sources(st.world.hook) + [BalanceIncrements]
  {
    var incs := Increments(c.spec, c.evm.env.block, [], None);
    SnapshotSucceeds(st.world.db, incs);
    var snapshot := BalanceIncrementState(incs, IncrementBalances(st.world.db, incs)).value;
    assert Sources(Report(st.world.hook, BalanceIncrements, snapshot)) == Sources(st.world.hook) + [BalanceIncrements];
  }

  /**
   The events of a successful session: blockhashes, beacon root, the committed transactions numbered
   from 0 with no gaps, balance increments. There is none for the Canyon deployment.
   */
  lemma {:induction false} OpSessionEventOrder(c: OpConfig, w: World, attempts: seq<Attempt>)
    requires w.hook == Some([]) && OpSession(c, ExecState(w, [], 0), attempts).result.Ok?
    ensures var first := ExecState(OpPreExecution(c, w).state, [], 0);
            Sources(OpSession(c, ExecState(w, [], 0), attempts).state.world.hook) ==
            PreSources(c.spec, c.evm)
            + EthTheorems.TransactionSources(|Survivors(OpBlockConfig(c), first, attempts)|)
            + [BalanceIncrements]
  {
    var b := OpBlockConfig(c);
    var first := ExecState(OpPreExecution(c, w).state, [], 0);
    PreExecutionShape(c, w);
    EthTheorems.PreExecutionSources(b, w);
    EthTheorems.RunSources(b, first, attempts);
    OpFinishSources(c, Run(b, first, attempts));
  }

  /** A hook changes only the log of a session. */
  lemma {:induction false} OpSessionIgnoresHook(c: OpConfig, st: ExecState, attempts: seq<Attempt>)
    ensures var o := OpSession(c, st, attempts);
            OpSession(c, Unhooked(st), attempts) == Outcome(Unhooked(o.state), o.result)
  {
    var b := OpBlockConfig(c);
    EthTheorems.PreExecutionIgnoresHook(b, st.world);
    var first := st.(world := OpPreExecution(c, st.world).state);
    RunIgnoresHook(b, first, attempts);
    SnapshotSucceeds(Run(b, first, attempts).world.db, Increments(c.spec, c.evm.env.block, [], None));
  }

  // ---- The hook log ------------------------------------------------------------------------

  /** The deployer account is there with the code and hash the deployment would give it. */
  predicate AlreadyDeployed(db: Db, code: Bytes) {
    CREATE_2_DEPLOYER in db.accounts &&
    db.InfoOf(CREATE_2_DEPLOYER).codeHash == CREATE_2_DEPLOYER_CODEHASH &&
    db.InfoOf(CREATE_2_DEPLOYER).code == Some(code)
  }

  predicate TouchesDeployer(cs: ChangeSet) {
    CREATE_2_DEPLOYER in cs && cs[CREATE_2_DEPLOYER].touched
  }

  /** Some reported change set rewrites the deployer account. */
  predicate DeployerReported(events: seq<HookEvent>) {
    exists i :: 0 <= i < |events| && TouchesDeployer(events[i].state)
  }

  /** The databases differ at most in the info of the deployer account. */
  ghost predicate SameButDeployer(x: Db, y: Db) {
    && x.stateClear == y.stateClear
    && (forall a :: a != CREATE_2_DEPLOYER ==> x.Find(a) == y.Find(a))
    && OrDefault(x.Find(CREATE_2_DEPLOYER)).storage == OrDefault(y.Find(CREATE_2_DEPLOYER)).storage
  }

  lemma {:induction false} SameOnDeployer(x: Db, y: Db)
    requires SameButDeployer(x, y)
    ensures x == y <==> x.Find(CREATE_2_DEPLOYER) == y.Find(CREATE_2_DEPLOYER)
  {
    if x.Find(CREATE_2_DEPLOYER) == y.Find(CREATE_2_DEPLOYER) {
      SameDb(x, y);
    }
  }

  lemma {:induction false} DeployDiffers(db: Db, code: Bytes)
    ensures SameButDeployer(db, DeployCreate2(db, code))
    ensures db == DeployCreate2(db, code) <==> AlreadyDeployed(db, code)
  {
    DeployKeepsTheRest(db, code);
    SameOnDeployer(db, DeployCreate2(db, code));
  }

  lemma {:induction false} FindAfter(db: Db, cs: ChangeSet, a: Address)
    ensures Commit(db, cs).Find(a) == After(db, cs, a)
  {
  }

  lemma {:induction false} DeployerAfter(x: Db, y: Db, cs: ChangeSet)
    requires SameButDeployer(x, y)
    ensures var (p, q) := (After(x, cs, CREATE_2_DEPLOYER), After(y, cs, CREATE_2_DEPLOYER));
            OrDefault(p).storage == OrDefault(q).storage &&
            (p == q <==> x.Find(CREATE_2_DEPLOYER) == y.Find(CREATE_2_DEPLOYER) || TouchesDeployer(cs))
  {
  }

  /** A touched entry for the deployer closes the difference for good; anything else leaves it as it is. */
  lemma {:induction false} CommitOverGap(x: Db, y: Db, cs: ChangeSet)
    requires SameButDeployer(x, y)
    ensures SameButDeployer(Commit(x, cs), Commit(y, cs))
    ensures Commit(x, cs) == Commit(y, cs) <==> x == y || TouchesDeployer(cs)
  {
    var x', y' := Commit(x, cs), Commit(y, cs);
    FindAfter(x, cs, CREATE_2_DEPLOYER);
    FindAfter(y, cs, CREATE_2_DEPLOYER);
    DeployerAfter(x, y, cs);
    forall a | a != CREATE_2_DEPLOYER
      ensures x'.Find(a) == y'.Find(a)
    {
      FindAfter(x, cs, a);
      FindAfter(y, cs, a);
    }
    SameOnDeployer(x, y);
    SameOnDeployer(x', y');
  }

  lemma {:induction false} ReportedSnoc(front: seq<HookEvent>, last: HookEvent)
    ensures DeployerReported(front + [last]) <==> DeployerReported(front) || TouchesDeployer(last.state)
  {
    var events := front + [last];
    if i :| 0 <= i < |front| && TouchesDeployer(front[i].state) {
      assert events[i] == front[i];
    }
    assert events[|front|] == last;
  }

  lemma {:induction false} ReplayOverGap(x: Db, y: Db, events: seq<HookEvent>)
    requires SameButDeployer(x, y)
    ensures SameButDeployer(Replay(x, events), Replay(y, events))
    ensures Replay(x, events) == Replay(y, events) <==> x == y || DeployerReported(events)
    decreases |events|
  {
    if events != [] {
      var front, last := events[..|events| - 1], events[|events| - 1];
      assert events == front + [last];
      ReplayOverGap(x, y, front);
      CommitOverGap(Replay(x, front), Replay(y, front), last.state);
      ReportedSnoc(front, last);
    }
  }

  /** The log from the end of the pre-block calls on. */
  function LaterEvents(c: OpConfig, w: World, end: World): seq<HookEvent> {
    var before := PreExecution(OpBlockConfig(c), w).state.hook;
    if before.Some? && end.hook.Some? && |before.value| <= |end.hook.value| then end.hook.value[|before.value|..] else []
  }

  /** Pre-execution gets as far as the Canyon deployment, in its window. */
  predicate Deploys(c: OpConfig, w: World) {
    PreExecution(OpBlockConfig(c), w).result.Ok? && CanyonFires(c.spec.canyon, RawTimestamp(c.evm))
  }

  /** The block deploys, and nothing makes up for the deployment not being reported. */
  predicate DeploymentLost(c: OpConfig, w: World, end: World) {
    Deploys(c, w) && !AlreadyDeployed(PreExecution(OpBlockConfig(c), w).state.db, c.deployerCode) &&
    !DeployerReported(LaterEvents(c, w, end))
  }

  /** `end` continues the log that pre-execution leaves behind, and holds what was reported since. */
  ghost predicate Continues(c: OpConfig, w: World, end: World) {
    var after := OpPreExecution(c, w).state;
    && after.hook.Some? && end.hook.Some?
    && after.hook.value <= end.hook.value
    && TrackedSince(after.db, |after.hook.value|, end)
  }

  lemma {:induction false} DeployedOrNot(
      code: Bytes, start: Db, log0: seq<HookEvent>, before: Db, after: Db, later: seq<HookEvent>)
    requires Replay(start, log0) == before
    requires after == before || after == DeployCreate2(before, code)
    ensures Replay(start, log0 + later) == Replay(after, later) <==>
            after == before || AlreadyDeployed(before, code) || DeployerReported(later)
  {
    ReplayConcat(start, log0, later);
    DeployDiffers(before, code);
    if after != before {
      ReplayOverGap(before, after, later);
    }
  }

  lemma {:induction false} PreExecutionShape(c: OpConfig, w: World)
    ensures var before, after := PreExecution(OpBlockConfig(c), w), OpPreExecution(c, w);
            after.state.hook == before.state.hook && after.result == before.result &&
            after.state.db == if Deploys(c, w) then DeployCreate2(before.state.db, c.deployerCode) else before.state.db
  {
  }

  /** The log of `end` is that of the pre-block calls and what was reported since, which leads to its database. */
  lemma {:induction false} LaterLog(c: OpConfig, w: World, end: World)
    requires Continues(c, w, end)
    ensures var (before, after) := (PreExecution(OpBlockConfig(c), w).state, OpPreExecution(c, w).state);
            before.hook == after.hook && before.hook.Some? && end.hook.Some? &&
            end.hook.value == before.hook.value + LaterEvents(c, w, end) &&
            end.db == Replay(after.db, LaterEvents(c, w, end))
  {
    PreExecutionShape(c, w);
    var log0 := OpPreExecution(c, w).state.hook.value;
    assert end.hook.value[..|log0|] == log0;
  }

  lemma {:induction false} LogAfterPreExecution(c: OpConfig, w: World, end: World)
    requires w.hook == Some([]) && Continues(c, w, end)
    ensures Tracked(Prepared(OpBlockConfig(c), w.db), end) <==> !DeploymentLost(c, w, end)
  {
    var start := Prepared(OpBlockConfig(c), w.db);
    var before, after := PreExecution(OpBlockConfig(c), w).state, OpPreExecution(c, w).state;
    EthTheorems.PreExecutionTracked(OpBlockConfig(c), w);
    PreExecutionShape(c, w);
    LaterLog(c, w, end);
    DeployedOrNot(c.deployerCode, start, before.hook.value, before.db, after.db, LaterEvents(c, w, end));
    DeployDiffers(before.db, c.deployerCode);
  }

  lemma {:induction false} PreExecutionContinues(c: OpConfig, w: World)
    requires w.hook == Some([])
    ensures Continues(c, w, OpPreExecution(c, w).state)
  {
    EthTheorems.PreExecutionTracked(OpBlockConfig(c), w);
    var after := OpPreExecution(c, w).state;
    assert after.hook.value[|after.hook.value|..] == [];
  }

  /** Right after pre-execution the log replays if and only if nothing was deployed that was not there. */
  lemma {:induction false} OpPreExecutionTracked(c: OpConfig, w: World)
    requires w.hook == Some([])
    ensures var before := PreExecution(OpBlockConfig(c), w);
            var after := OpPreExecution(c, w);
            Tracked(Prepared(OpBlockConfig(c), w.db), before.state) &&
            (Tracked(Prepared(OpBlockConfig(c), w.db), after.state) <==>
             (after.result.Ok? && CanyonFires(c.spec.canyon, RawTimestamp(c.evm)) ==>
              AlreadyDeployed(before.state.db, c.deployerCode)))
  {
    EthTheorems.PreExecutionTracked(OpBlockConfig(c), w);
    PreExecutionContinues(c, w);
    LogAfterPreExecution(c, w, OpPreExecution(c, w).state);
    assert LaterEvents(c, w, OpPreExecution(c, w).state) == [];
  }

  lemma {:induction false} RunContinues(c: OpConfig, st: ExecState, attempts: seq<Attempt>)
    requires st.world.hook == Some([])
    ensures var first := st.(world := OpPreExecution(c, st.world).state);
            Continues(c, st.world, Run(OpBlockConfig(c), first, attempts).world)
  {
    var b, after := OpBlockConfig(c), OpPreExecution(c, st.world).state;
    PreExecutionContinues(c, st.world);
    RunTracked(b, after.db, |after.hook.value|, st.(world := after), attempts);
    RunGrows(b, st.(world := after), attempts);
  }

  lemma {:induction false} FinishContinues(c: OpConfig, w: World, st: ExecState)
    requires Continues(c, w, st.world)
    ensures Continues(c, w, OpFinish(c, st).state.world) && OpFinish(c, st).result.Ok?
  {
    var after := OpPreExecution(c, w).state;
    CreditTracked(after.db, |after.hook.value|, st.world, Increments(c.spec, c.evm.env.block, [], None));
  }

  lemma {:induction false} CreditTracked(start: Db, skip: nat, w: World, incs: map<Address, u128>)
    requires TrackedSince(start, skip, w)
    ensures CreditAndReport(w, incs).result.Ok? && TrackedSince(start, skip, CreditAndReport(w, incs).state)
    ensures CreditAndReport(w, incs).state.hook.Some? && w.hook.value <= CreditAndReport(w, incs).state.hook.value
  {
    SnapshotReplays(w.db, [], incs);
    var snapshot := BalanceIncrementState(incs, IncrementBalances(w.db, incs)).value;
    ReplayReport(start, skip, w.hook.value, HookEvent(BalanceIncrements, snapshot));
  }

  /**
   The log of an OP session replays to its final database if and only if the block does not deploy, or
   the deployer already had the code, or some change set reported after the pre-block calls rewrites
   the deployer account; failing sessions included.
   */
  lemma {:induction false} OpSessionLogReplays(c: OpConfig, st: ExecState, attempts: seq<Attempt>)
    requires st.world.hook == Some([])
    ensures var end := OpSession(c, st, attempts).state.world;
            Tracked(Prepared(OpBlockConfig(c), st.world.db), end) <==> !DeploymentLost(c, st.world, end)
  {
    var pre := OpPreExecution(c, st.world);
    PreExecutionContinues(c, st.world);
    if pre.result.Ok? {
      var end := Run(OpBlockConfig(c), st.(world := pre.state), attempts);
      RunContinues(c, st, attempts);
      FinishContinues(c, st.world, end);
    }
    LogAfterPreExecution(c, st.world, OpSession(c, st, attempts).state.world);
  }

  /** The same of a block, whether it succeeds or fails. */
  lemma {:induction false} OpHookLogReplays(c: OpConfig, st: ExecState, txs: seq<Recovered>)
    requires st.world.hook == Some([])
    ensures var end := OpExecuteBlock(c, st, txs).state.world;
            Tracked(Prepared(OpBlockConfig(c), st.world.db), end) <==> !DeploymentLost(c, st.world, end)
  {
    var pre := OpPreExecution(c, st.world);
    PreExecutionContinues(c, st.world);
    if pre.result.Ok? {
      var first := st.(world := pre.state);
      var k := LoopIsRun(OpBlockConfig(c), first, txs);
      RunContinues(c, st, AttemptsOf(txs)[..k]);
      FinishContinues(c, st.world, ExecuteAll(OpBlockConfig(c), first, txs).state);
    }
    LogAfterPreExecution(c, st.world, OpExecuteBlock(c, st, txs).state.world);
  }

  /**
   The log does fail: an empty block at the Canyon activation, on a database without the deployer and
   paying no reward to it, succeeds with a log that does not replay.
   */
  lemma {:induction false} DeploymentGoesUnreported(c: OpConfig, st: ExecState)
    requires CanyonFires(c.spec.canyon, RawTimestamp(c.evm))
    requires !c.spec.prague.ActiveAtTimestamp(GateSeconds(c.evm))
    requires !c.spec.cancun.ActiveAtTimestamp(GateSeconds(c.evm))
    requires c.evm.env.block.beneficiary != CREATE_2_DEPLOYER
    requires st.world == World(Db(map[], true), Some([]))
    ensures OpExecuteBlock(c, st, []).result.Ok?
    ensures !Tracked(Prepared(OpBlockConfig(c), st.world.db), OpExecuteBlock(c, st, []).state.world)
  {
    assert PreExecution(OpBlockConfig(c), st.world)
        == Outcome(World(Prepared(OpBlockConfig(c), st.world.db), Some([])), Ok(()));
    PreExecutionContinues(c, st.world);
    var first := st.(world := OpPreExecution(c, st.world).state);
    FinishContinues(c, st.world, first);
    assert OpExecuteBlock(c, st, []) == OpFinish(c, first);
    OneSnapshot(c, first);
    LogAfterPreExecution(c, st.world, OpFinish(c, first).state.world);
  }

  /** Finishing with an empty log reports the credited accounts only, the deployer not among them. */
  lemma {:induction false} OneSnapshot(c: OpConfig, st: ExecState)
    requires st.world.hook == Some([]) && c.evm.env.block.beneficiary != CREATE_2_DEPLOYER
    ensures var hook := OpFinish(c, st).state.world.hook;
            hook.Some? && !DeployerReported(hook.value)
  {
    var incs := Increments(c.spec, c.evm.env.block, [], None);
    DeployerNotCredited(c);
    SnapshotSucceeds(st.world.db, incs);
    var snapshot := BalanceIncrementState(incs, IncrementBalances(st.world.db, incs)).value;
    assert OpFinish(c, st).state.world.hook == Some([] + [HookEvent(BalanceIncrements, snapshot)]);
  }

  lemma {:induction false} DeployerNotCredited(c: OpConfig)
    requires c.evm.env.block.beneficiary != CREATE_2_DEPLOYER
    ensures CREATE_2_DEPLOYER !in Credited(Increments(c.spec, c.evm.env.block, [], None))
  {
    var cs := Contributions(c.spec, c.evm.env.block, [], None);
    EntryIsSumOfContributions(cs, CREATE_2_DEPLOYER);
    forall i | 0 <= i < |cs|
      ensures cs[i].to != CREATE_2_DEPLOYER
    {
    }
  }
}
