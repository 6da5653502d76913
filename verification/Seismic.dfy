/** The Seismic EVM's system calls, and the block executor that decrypts before it executes. */
module Seismic {
  import opened Common
  import opened State
  import opened Evm
  import opened SystemCalls
  import opened TxExecution
  import opened EthBlock
  import EthTheorems

  // ---- System calls ------------------------------------------------------------------------

  datatype TxEnv = TxEnv(
    caller: Address, to: Address, nonce: u64, gasLimit: u64, value: u256, gasPrice: u128,
    chainId: Option<u64>, data: CallData)

  /** The interpreter underneath: one run over a database and an environment. */
  type Interpreter = (Db, EvmEnv, TxEnv) -> EvmOutcome

  const SYSTEM_CALL_GAS: u64 := 30_000_000

  function SystemTx(caller: Address, contract: Address, data: CallData): TxEnv {
    TxEnv(caller, contract, 0, SYSTEM_CALL_GAS, 0, 0, None, data)
  }

  /** The environment a system call runs in. */
  function SystemEnv(env: EvmEnv): EvmEnv {
    EvmEnv(env.block.(gasLimit := SYSTEM_CALL_GAS, basefee := 0), CfgEnv(true))
  }

  function KeepOnly(cs: ChangeSet, contract: Address): ChangeSet {
    map a | a in cs && a == contract :: cs[a]
  }

  function SystemCall(run: Interpreter, db: Db, env: EvmEnv, caller: Address, contract: Address, data: CallData)
    : EvmOutcome
  {
    match run(db, SystemEnv(env), SystemTx(caller, contract, data))
    case Err(e) => Err(e)
    case Ok(res) => Ok(res.(state := KeepOnly(res.state, contract)))
  }

  /** The Seismic EVM as the executors see it. */
  function SeismicOps(run: Interpreter, toTxEnv: Recovered -> TxEnv, env: EvmEnv, inSeconds: bool): Evm {
    Evm(
      (db, e, tx) => run(db, e, toTxEnv(tx)),
      (db, e, caller, contract, data) => SystemCall(run, db, e, caller, contract, data),
      env, inSeconds)
  }

  /**
   The interpreter's own answer to a system call: 30 million gas under a block limit of as much, no base
   fee, no nonce check, no price, value or chain id.
   */
  function FullCall(run: Interpreter, db: Db, env: EvmEnv, caller: Address, contract: Address, data: CallData)
    : EvmOutcome
  {
    var b := env.block;
    run(
      db, EvmEnv(BlockEnv(b.number, b.timestamp, 30_000_000, 0, b.beneficiary), CfgEnv(true)),
      TxEnv(caller, contract, 0, 30_000_000, 0, 0, None, data))
  }

  /** Committing `part` does to `contract` what committing `full` does, and nothing to other accounts. */
  ghost predicate WritesOnly(db: Db, part: ChangeSet, full: ChangeSet, contract: Address) {
    && Commit(db, part).Find(contract) == Commit(db, full).Find(contract)
    && forall a :: a != contract ==> Commit(db, part).Find(a) == db.Find(a)
  }

  lemma {:induction false} KeepOnlyWrites(db: Db, cs: ChangeSet, contract: Address)
    ensures WritesOnly(db, KeepOnly(cs, contract), cs, contract)
  {
    var part := KeepOnly(cs, contract);
    assert After(db, part, contract) == After(db, cs, contract);
    forall a | a != contract
      ensures Commit(db, part).Find(a) == db.Find(a)
    {
      assert After(db, part, a) == db.Find(a);
    }
  }

  /** A system call answers as the interpreter does, with what it wrote to the called contract and nothing else. */
  lemma {:induction false} SystemCallExact(
      run: Interpreter, db: Db, env: EvmEnv, caller: Address, contract: Address, data: CallData)
    ensures var full := FullCall(run, db, env, caller, contract, data);
            var r := SystemCall(run, db, env, caller, contract, data);
            (full.Err? ==> r == Err(full.error)) &&
            (full.Ok? ==>
              r.Ok? && r.value.result == full.value.result &&
              r.value.state.Keys == full.value.state.Keys * {contract} &&
              WritesOnly(db, r.value.state, full.value.state, contract))
  {
    var full := FullCall(run, db, env, caller, contract, data);
    if full.Ok? {
      KeepOnlyWrites(db, full.value.state, contract);
    }
  }

  // ---- The object that swaps its environment -----------------------------------------------

  /** What a system call exchanges with the environment. */
  datatype Swap = Swap(gasLimit: u64, basefee: u64, disableNonceCheck: bool)

  /** Exchanges the three fields: the environment with those of `s`, and those it had. */
  function Exchange(env: EvmEnv, s: Swap): (EvmEnv, Swap) {
    (EvmEnv(env.block.(gasLimit := s.gasLimit, basefee := s.basefee), CfgEnv(s.disableNonceCheck)),
     Swap(env.block.gasLimit, env.block.basefee, env.cfg.disableNonceCheck))
  }

  /** The parts of the EVM that calls read and write. */
  datatype Machine = Machine(db: Db, env: EvmEnv)

  datatype Action =
    | Ordinary(tx: TxEnv)
    | System(caller: Address, contract: Address, data: CallData)
    | CommitState(cs: ChangeSet)

  /** One use of the EVM: the machine it leaves, and what it returns. A commit returns nothing. */
  function Act(run: Interpreter, m: Machine, a: Action): (Machine, Option<EvmOutcome>) {
    match a
    case Ordinary(tx) => (m, Some(run(m.db, m.env, tx)))
    case System(caller, contract, data) =>
      var (inside, saved) := Exchange(m.env, Swap(SYSTEM_CALL_GAS, 0, true));
      var outcome := run(m.db, inside, SystemTx(caller, contract, data));
      var (after, _) := Exchange(inside, saved);
      (m.(env := after),
       Some(match outcome
            case Err(e) => Err(e)
            case Ok(res) => Ok(res.(state := KeepOnly(res.state, contract)))))
    case CommitState(cs) => (m.(db := Commit(m.db, cs)), None)
  }

  function ActAll(run: Interpreter, m: Machine, actions: seq<Action>): Machine {
    if actions == [] then m
    else Act(run, ActAll(run, m, actions[..|actions| - 1]), actions[|actions| - 1]).0
  }

  class SeismicEvm {
    const run: Interpreter
    const db: StateDb
    var env: EvmEnv

    function View(): Machine
      reads this, db
    {
      Machine(db.view, env)
    }

    constructor (run: Interpreter, db: StateDb, env: EvmEnv)
      ensures this.run == run && this.db == db && this.env == env
    {
      this.run, this.db, this.env := run, db, env;
    }

    method Transact(tx: TxEnv) returns (r: EvmOutcome)
      ensures (View(), Some(r)) == Act(run, View(), Ordinary(tx))
    {
      r := run(db.view, env, tx);
    }

    /**
     The call runs with the gas limit raised, the base fee at zero and the nonce check off, and leaves
     the environment as it was whether it succeeds or fails. Only the contract stays in the change set.
     */
    method TransactSystemCall(caller: Address, contract: Address, data: CallData) returns (r: EvmOutcome)
      modifies this
      ensures (View(), Some(r)) == Act(run, old(View()), System(caller, contract, data))
      ensures env == old(env) && r == SystemCall(run, db.view, env, caller, contract, data)
      ensures var full := FullCall(run, db.view, env, caller, contract, data);
              (r.Ok? <==> full.Ok?) &&
              (r.Ok? ==>
                r.value.result == full.value.result &&
                WritesOnly(db.view, r.value.state, full.value.state, contract))
    {
      var tx := SystemTx(caller, contract, data);
      var gasLimit, basefee, disableNonceCheck := tx.gasLimit, 0, true;
      // each line swaps a local with a field of the environment
      gasLimit, env := env.block.gasLimit, env.(block := env.block.(gasLimit := gasLimit));
      basefee, env := env.block.basefee, env.(block := env.block.(basefee := basefee));
      disableNonceCheck, env := env.cfg.disableNonceCheck, env.(cfg := CfgEnv(disableNonceCheck));
      r := Transact(tx);
      gasLimit, env := env.block.gasLimit, env.(block := env.block.(gasLimit := gasLimit));
      basefee, env := env.block.basefee, env.(block := env.block.(basefee := basefee));
      disableNonceCheck, env := env.cfg.disableNonceCheck, env.(cfg := CfgEnv(disableNonceCheck));
      if r.Ok? {
        r := Ok(r.value.(state := KeepOnly(r.value.state, contract)));
      }
      SystemCallExact(run, db.view, env, caller, contract, data);
    }

    method CommitChanges(cs: ChangeSet)
      modifies db
      ensures (View(), None) == Act(run, old(View()), CommitState(cs))
    {
      db.CommitChanges(cs);
    }
  }

  lemma {:induction false} EnvironmentKept(run: Interpreter, m: Machine, actions: seq<Action>)
    ensures ActAll(run, m, actions).env == m.env
    decreases |actions|
  {
    if actions != [] {
      EnvironmentKept(run, m, actions[..|actions| - 1]);
    }
  }

  /**
   Over any sequence of transactions, system calls and commits on one EVM, every transaction runs under
   the environment of the start, gas limit, base fee and nonce check included, on the database of
   exactly the commits before it; every system call runs under the raised one and never leaks it.
   */
  lemma {:induction false} SystemCallsNeverLeak(run: Interpreter, m: Machine, actions: seq<Action>, i: nat)
    requires i < |actions|
    ensures var before := ActAll(run, m, actions[..i]);
            var result := Act(run, before, actions[i]).1;
            before.env == m.env &&
            ActAll(run, m, actions[..i + 1]) == Act(run, before, actions[i]).0 &&
            (match actions[i]
             case Ordinary(tx) => result == Some(run(before.db, m.env, tx))
             case System(caller, contract, data) =>
               result == Some(SystemCall(run, before.db, m.env, caller, contract, data))
             case CommitState(_) => result == None)
  {
    EnvironmentKept(run, m, actions[..i]);
    assert actions[..i + 1][..i] == actions[..i];
  }

  // ---- What system calls write -------------------------------------------------------------

  /** The two databases agree on every account outside `touched`. */
  ghost predicate SameExcept(before: Db, after: Db, touched: set<Address>) {
    forall a :: a !in touched ==> after.Find(a) == before.Find(a)
  }

  /** What the interpreter would write for a call, were nothing filtered out. */
  ghost function FullWrite(
      run: Interpreter, db: Db, env: EvmEnv, contract: Address, data: CallData): Option<Account>
  {
    var full := FullCall(run, db, env, SYSTEM_ADDRESS, contract, data);
    if full.Ok? then Commit(db, full.value.state).Find(contract) else db.Find(contract)
  }

  /** From `db` to `after` one call to `contract` has been committed: its write, and nothing else. */
  ghost predicate CallCommitted(run: Interpreter, db: Db, after: Db, env: EvmEnv, contract: Address, data: CallData) {
    && after.Find(contract) == FullWrite(run, db, env, contract, data)
    && SameExcept(db, after, {contract})
  }

  lemma {:induction false} AfterCallCommitted(
      evm: Evm, run: Interpreter, toTxEnv: Recovered -> TxEnv, db: Db, contract: Address, data: CallData)
    requires evm == SeismicOps(run, toTxEnv, evm.env, evm.timestampInSeconds)
    ensures var outcome := evm.systemCall(db, evm.env, SYSTEM_ADDRESS, contract, data);
            (outcome.Ok? <==> FullCall(run, db, evm.env, SYSTEM_ADDRESS, contract, data).Ok?) &&
            CallCommitted(run, db, EthTheorems.AfterCall(db, outcome), evm.env, contract, data)
  {
    SystemCallExact(run, db, evm.env, SYSTEM_ADDRESS, contract, data);
  }

  lemma {:induction false} FramesCompose(x: Db, y: Db, z: Db, s: set<Address>, t: set<Address>)
    requires SameExcept(x, y, s) && SameExcept(y, z, t)
    ensures SameExcept(x, z, s + t)
  {
    forall a | a !in s + t
      ensures z.Find(a) == x.Find(a)
    {
      assert y.Find(a) == x.Find(a) && z.Find(a) == y.Find(a);
    }
  }

  /**
   On the Seismic EVM the stage before a block's transactions leaves in the two history contracts what
   the interpreter wrote there, and every other account as it was: neither the system caller nor the
   beneficiary, both loaded by the interpreter, is ever committed.
   */
  lemma {:induction false} PreCallsWrite(c: BlockConfig, run: Interpreter, toTxEnv: Recovered -> TxEnv, w: World)
    requires c.evm == SeismicOps(run, toTxEnv, c.evm.env, c.evm.timestampInSeconds)
    requires PreExecution(c, w).result.Ok?
    ensures var db0 := Prepared(c, w.db);
            var db1 := EthTheorems.AfterHistory(c, db0);
            var end := PreExecution(c, w).state.db;
            var due := c.evm.env.block.number != 0;
            SameExcept(w.db, end, {HISTORY_STORAGE_ADDRESS} + {BEACON_ROOTS_ADDRESS}) &&
            end.Find(HISTORY_STORAGE_ADDRESS) ==
              (if due && c.spec.prague.ActiveAtTimestamp(EthTheorems.Seconds(c.evm))
               then FullWrite(run, db0, c.evm.env, HISTORY_STORAGE_ADDRESS, Word(c.parentHash))
               else w.db.Find(HISTORY_STORAGE_ADDRESS)) &&
            end.Find(BEACON_ROOTS_ADDRESS) ==
              (if due && c.spec.cancun.ActiveAtTimestamp(EthTheorems.Seconds(c.evm)) && c.parentBeaconRoot.Some?
               then FullWrite(run, db1, c.evm.env, BEACON_ROOTS_ADDRESS, Word(c.parentBeaconRoot.value))
               else w.db.Find(BEACON_ROOTS_ADDRESS))
  {
    var db0 := Prepared(c, w.db);
    var db1 := EthTheorems.AfterHistory(c, db0);
    var end := PreExecution(c, w).state.db;
    EthTheorems.PreExecutionExact(c, w);
    AfterCallCommitted(c.evm, run, toTxEnv, db0, HISTORY_STORAGE_ADDRESS, Word(c.parentHash));
    if c.parentBeaconRoot.Some? {
      AfterCallCommitted(c.evm, run, toTxEnv, db1, BEACON_ROOTS_ADDRESS, Word(c.parentBeaconRoot.value));
    }
    FramesCompose(w.db, db0, db1, {}, {HISTORY_STORAGE_ADDRESS});
    FramesCompose(w.db, db1, end, {HISTORY_STORAGE_ADDRESS}, {BEACON_ROOTS_ADDRESS});
  }

  /** A failing stage writes at most to the history contract, and the stage after the transactions to the request contracts. */
  lemma {:induction false} SystemCallsFrame(c: BlockConfig, run: Interpreter, toTxEnv: Recovered -> TxEnv, w: World)
    requires c.evm == SeismicOps(run, toTxEnv, c.evm.env, c.evm.timestampInSeconds)
    ensures SameExcept(w.db, PreExecution(c, w).state.db, {HISTORY_STORAGE_ADDRESS} + {BEACON_ROOTS_ADDRESS})
    ensures PreExecution(c, w).result.Err? ==> SameExcept(w.db, PreExecution(c, w).state.db, {HISTORY_STORAGE_ADDRESS})
    ensures SameExcept(
              w.db, ApplyPostExecution(c.evm, w).state.db, {WITHDRAWAL_REQUEST_ADDRESS} + {CONSOLIDATION_REQUEST_ADDRESS})
  {
    if PreExecution(c, w).result.Ok? {
      PreCallsWrite(c, run, toTxEnv, w);
    } else {
      EthTheorems.PreExecutionExact(c, w);
      AfterCallCommitted(c.evm, run, toTxEnv, Prepared(c, w.db), HISTORY_STORAGE_ADDRESS, Word(c.parentHash));
      assert SameExcept(w.db, PreExecution(c, w).state.db, {HISTORY_STORAGE_ADDRESS});
    }
    PostCallsWrite(c.evm, run, toTxEnv, w);
  }

  /**
   The stage after the transactions leaves in the request contracts what the interpreter wrote there,
   the second call on top of the first, and every other account as it was.
   */
  lemma {:induction false} PostCallsWrite(evm: Evm, run: Interpreter, toTxEnv: Recovered -> TxEnv, w: World)
    requires evm == SeismicOps(run, toTxEnv, evm.env, evm.timestampInSeconds)
    ensures var db1 := EthTheorems.AfterCall(w.db, EthTheorems.RequestCall(evm, w.db, WITHDRAWAL_REQUEST_ADDRESS));
            var end := ApplyPostExecution(evm, w).state.db;
            CallCommitted(run, w.db, db1, evm.env, WITHDRAWAL_REQUEST_ADDRESS, NoData) &&
            SameExcept(w.db, end, {WITHDRAWAL_REQUEST_ADDRESS} + {CONSOLIDATION_REQUEST_ADDRESS}) &&
            end.Find(WITHDRAWAL_REQUEST_ADDRESS)
            == FullWrite(run, w.db, evm.env, WITHDRAWAL_REQUEST_ADDRESS, NoData) &&
            (ApplyPostExecution(evm, w).result.Ok? ==>
              end.Find(CONSOLIDATION_REQUEST_ADDRESS)
              == FullWrite(run, db1, evm.env, CONSOLIDATION_REQUEST_ADDRESS, NoData))
  {
    var db1 := EthTheorems.AfterCall(w.db, EthTheorems.RequestCall(evm, w.db, WITHDRAWAL_REQUEST_ADDRESS));
    var db2 := EthTheorems.AfterCall(db1, EthTheorems.RequestCall(evm, db1, CONSOLIDATION_REQUEST_ADDRESS));
    EthTheorems.PostExecutionExact(evm, w);
    AfterCallCommitted(evm, run, toTxEnv, w.db, WITHDRAWAL_REQUEST_ADDRESS, NoData);
    AfterCallCommitted(evm, run, toTxEnv, db1, CONSOLIDATION_REQUEST_ADDRESS, NoData);
    FramesCompose(w.db, db1, db2, {WITHDRAWAL_REQUEST_ADDRESS}, {CONSOLIDATION_REQUEST_ADDRESS});
  }

  // ---- Decrypting executor -----------------------------------------------------------------

  /** Decrypting the input of a transaction under the enclave's key; it may fail. */
  type Decryptor = TxEnvelope -> Result<TxEnvelope, nat>

  function Decrypt(d: Decryptor, tx: Recovered): Result<Recovered, BlockError> {
    match d(tx.tx)
    case Ok(plain) => Ok(Recovered(plain, tx.signer))
    case Err(code) => Err(FailedToDecryptSeismicTx(code))
  }

  function SeismicStep(c: BlockConfig, d: Decryptor, st: ExecState, a: Attempt)
    : Outcome<ExecState, Option<u64>, BlockError>
  {
    match Decrypt(d, a.tx)
    case Err(e) => Outcome(st, Err(e))
    case Ok(plain) => Step(c, st, Attempt(plain, a.commitIf))
  }

  function SeismicExecuteTransaction(c: BlockConfig, d: Decryptor, st: ExecState, tx: Recovered)
    : Outcome<ExecState, u64, BlockError>
  {
    match Decrypt(d, tx)
    case Err(e) => Outcome(st, Err(e))
    case Ok(plain) => ExecuteTransaction(c, st, plain)
  }

  function SeismicRun(c: BlockConfig, d: Decryptor, st: ExecState, attempts: seq<Attempt>): ExecState
    decreases |attempts|
  {
    if attempts == [] then st else SeismicRun(c, d, SeismicStep(c, d, st, attempts[0]).state, attempts[1..])
  }

  function SeismicExecuteAll(c: BlockConfig, d: Decryptor, st: ExecState, txs: seq<Recovered>)
    : Outcome<ExecState, (), BlockError>
    decreases |txs|
  {
    if txs == [] then Outcome(st, Ok(()))
    else
      var o := SeismicExecuteTransaction(c, d, st, txs[0]);
      match o.result
      case Err(e) => Outcome(o.state, Err(e))
      case Ok(_) => SeismicExecuteAll(c, d, o.state, txs[1..])
  }

  function SeismicExecuteBlock(c: EthConfig, d: Decryptor, st: ExecState, txs: seq<Recovered>)
    : Outcome<ExecState, BlockResult, BlockError>
  {
    var pre := PreExecution(c.block, st.world);
    match pre.result
    case Err(e) => Outcome(st.(world := pre.state), Err(e))
    case Ok(_) =>
      var o := SeismicExecuteAll(c.block, d, st.(world := pre.state), txs);
      match o.result
      case Err(e) => Outcome(o.state, Err(e))
      case Ok(_) => Finish(c, o.state)
  }

  class SeismicBlockExecutor {
    const inner: EthBlockExecutor
    const decrypt: Decryptor

    constructor (inner: EthBlockExecutor, decrypt: Decryptor)
      ensures this.inner == inner && this.decrypt == decrypt
    {
      this.inner, this.decrypt := inner, decrypt;
    }

    method ExecuteTransactionWithCommitCondition(tx: Recovered, f: ExecutionResult -> bool)
      returns (r: Result<Option<u64>, BlockError>)
      requires inner.Valid()
      modifies inner, inner.db, inner.systemCaller
      ensures Outcome(inner.View(), r) == SeismicStep(inner.cfg.block, decrypt, old(inner.View()), Attempt(tx, f))
    {
      var plain := decrypt(tx.tx);
      match plain {
        case Err(code) => r := Err(FailedToDecryptSeismicTx(code));
        case Ok(base) => r := inner.ExecuteTransactionWithCommitCondition(Recovered(base, tx.signer), f);
      }
    }

    method ExecuteTransactionWithResultClosure(tx: Recovered) returns (r: Result<u64, BlockError>)
      requires inner.Valid()
      modifies inner, inner.db, inner.systemCaller
      ensures Outcome(inner.View(), r)
           == SeismicExecuteTransaction(inner.cfg.block, decrypt, old(inner.View()), tx)
    {
      var plain := decrypt(tx.tx);
      match plain {
        case Err(code) => r := Err(FailedToDecryptSeismicTx(code));
        case Ok(base) => r := inner.ExecuteTransactionWithResultClosure(Recovered(base, tx.signer));
      }
    }

    method ExecuteWholeBlock(txs: seq<Recovered>) returns (r: Result<BlockResult, BlockError>)
      requires inner.Valid()
      modifies inner, inner.db, inner.systemCaller
      ensures Outcome(inner.View(), r) == SeismicExecuteBlock(inner.cfg, decrypt, old(inner.View()), txs)
    {
      var pre := inner.ApplyPreExecutionChanges();
      if pre.Err? {
        return Err(pre.error);
      }
      ghost var c, start := inner.cfg.block, inner.View();
      for i := 0 to |txs|
        invariant SeismicExecuteAll(c, decrypt, start, txs) == SeismicExecuteAll(c, decrypt, inner.View(), txs[i..])
      {
        var o := ExecuteTransactionWithResultClosure(txs[i]);
        if o.Err? {
          return Err(o.error);
        }
        assert txs[i..][1..] == txs[i + 1..];
      }
      r := inner.FinishBlock();
    }
  }

  // ---- Refinement --------------------------------------------------------------------------

  /** The attempts that decrypt, decrypted, with the signers they had. */
  function Plain(d: Decryptor, attempts: seq<Attempt>): seq<Attempt> {
    if attempts == [] then []
    else
      var a := attempts[0];
      (match d(a.tx.tx)
       case Err(_) => []
       case Ok(plain) => [Attempt(Recovered(plain, a.tx.signer), a.commitIf)]) + Plain(d, attempts[1..])
  }

  /**
   Any sequence of encrypted attempts leads the Seismic executor where the Ethereum executor is led by
   the decrypted attempts; an undecryptable one leaves no trace.
   */
  lemma {:induction false} SeismicRefines(c: BlockConfig, d: Decryptor, st: ExecState, attempts: seq<Attempt>)
    ensures SeismicRun(c, d, st, attempts) == Run(c, st, Plain(d, attempts))
    decreases |attempts|
  {
    if attempts != [] {
      var rest := Plain(d, attempts[1..]);
      var o := SeismicStep(c, d, st, attempts[0]);
      SeismicRefines(c, d, o.state, attempts[1..]);
      match d(attempts[0].tx.tx) {
        case Err(_) =>
          assert [] + rest == rest;
        case Ok(plain) =>
          var a := Attempt(Recovered(plain, attempts[0].tx.signer), attempts[0].commitIf);
          assert ([a] + rest)[0] == a && ([a] + rest)[1..] == rest;
      }
    }
  }

  /** The overridden closure entry point is the trait's default over the overridden commit-condition one. */
  lemma {:induction false} ClosureEntryPointAgrees(c: BlockConfig, d: Decryptor, st: ExecState, tx: Recovered)
    ensures var step := SeismicStep(c, d, st, Attempt(tx, Always));
            var o := SeismicExecuteTransaction(c, d, st, tx);
            o.state == step.state &&
            (match step.result
             case Err(e) => o.result == Err(e)
             case Ok(gas) => o.result == Ok(if gas.Some? then gas.value else 0))
  {
  }

  /** How many transactions decrypt before the first that does not. */
  function DecryptablePrefix(d: Decryptor, txs: seq<Recovered>): (k: nat)
    ensures k <= |txs|
    ensures forall i :: 0 <= i < k ==> d(txs[i].tx).Ok?
    ensures k < |txs| ==> d(txs[k].tx).Err?
  {
    if txs == [] || d(txs[0].tx).Err? then 0
    else
      var j := DecryptablePrefix(d, txs[1..]);
      assert forall i :: 1 <= i < j + 1 ==> txs[i] == txs[1..][i - 1];
      assert j < |txs[1..]| ==> txs[j + 1] == txs[1..][j];
      1 + j
  }

  function DecryptedPrefix(d: Decryptor, txs: seq<Recovered>): seq<Recovered> {
    seq(
      DecryptablePrefix(d, txs),
      i requires 0 <= i < DecryptablePrefix(d, txs) => Recovered(d(txs[i].tx).value, txs[i].signer))
  }

  /** The loop is the plain loop over the decryptable prefix, then the decryption error if one is left. */
  lemma {:induction false} LoopRefines(c: BlockConfig, d: Decryptor, st: ExecState, txs: seq<Recovered>)
    ensures var k := DecryptablePrefix(d, txs);
            var o := ExecuteAll(c, st, DecryptedPrefix(d, txs));
            SeismicExecuteAll(c, d, st, txs) ==
            if o.result.Err? || k == |txs| then o
            else Outcome(o.state, Err(FailedToDecryptSeismicTx(d(txs[k].tx).error)))
    decreases |txs|
  {
    var k := DecryptablePrefix(d, txs);
    if txs != [] && k > 0 {
      var plain := DecryptedPrefix(d, txs);
      assert plain[0] == Recovered(d(txs[0].tx).value, txs[0].signer);
      assert plain[1..] == DecryptedPrefix(d, txs[1..]);
      var o := ExecuteTransaction(c, st, plain[0]);
      if o.result.Ok? {
        LoopRefines(c, d, o.state, txs[1..]);
      }
    } else {
      assert DecryptedPrefix(d, txs) == [];
    }
  }

  /**
   A block of encrypted transactions gives what the Ethereum executor gives on the decrypted ones:
   the same result or error, receipts, gas, database and hook log. If transaction k is the first
   undecryptable one and all before it succeed, the block fails with its error in exactly the state
   after transactions 0 to k - 1.
   */
  lemma {:induction false} BlockRefines(c: EthConfig, d: Decryptor, st: ExecState, txs: seq<Recovered>)
    ensures var k := DecryptablePrefix(d, txs);
            var plain := DecryptedPrefix(d, txs);
            var pre := PreExecution(c.block, st.world);
            var prefix := ExecuteAll(c.block, st.(world := pre.state), plain);
            var o := SeismicExecuteBlock(c, d, st, txs);
            if k == |txs| || pre.result.Err? || prefix.result.Err?
            then o == ExecuteBlock(c, st, plain)
            else o == Outcome(prefix.state, Err(FailedToDecryptSeismicTx(d(txs[k].tx).error)))
  {
    var pre := PreExecution(c.block, st.world);
    LoopRefines(c.block, d, st.(world := pre.state), txs);
  }

  /** A whole use of the executor on encrypted attempts. */
  function SeismicSession(c: EthConfig, d: Decryptor, st: ExecState, attempts: seq<Attempt>)
    : Outcome<ExecState, BlockResult, BlockError>
  {
    var pre := PreExecution(c.block, st.world);
    match pre.result
    case Err(e) => Outcome(st.(world := pre.state), Err(e))
    case Ok(_) => Finish(c, SeismicRun(c.block, d, st.(world := pre.state), attempts))
  }

  /** A session of encrypted attempts is the Ethereum session of the decrypted ones. */
  lemma {:induction false} SessionRefines(c: EthConfig, d: Decryptor, st: ExecState, attempts: seq<Attempt>)
    ensures SeismicSession(c, d, st, attempts) == Session(c, st, Plain(d, attempts))
  {
    SeismicRefines(c.block, d, st.(world := PreExecution(c.block, st.world).state), attempts);
  }

  // ---- Encrypting first changes nothing ----------------------------------------------------

  /** `enc` is undone by decryption. */
  ghost predicate Encrypts(enc: TxEnvelope -> TxEnvelope, d: Decryptor) {
    forall tx :: d(enc(tx)) == Ok(tx)
  }

  function Encrypted(enc: TxEnvelope -> TxEnvelope, txs: seq<Recovered>): seq<Recovered> {
    seq(|txs|, i requires 0 <= i < |txs| => Recovered(enc(txs[i].tx), txs[i].signer))
  }

  function EncryptedAttempts(enc: TxEnvelope -> TxEnvelope, attempts: seq<Attempt>): seq<Attempt> {
    seq(|attempts|, i requires 0 <= i < |attempts| =>
      Attempt(Recovered(enc(attempts[i].tx.tx), attempts[i].tx.signer), attempts[i].commitIf))
  }

  /** Attempts encrypted by their senders run as the plaintext ones do under the Ethereum executor. */
  lemma {:induction false} EncryptedRun(
      c: BlockConfig, d: Decryptor, enc: TxEnvelope -> TxEnvelope, st: ExecState, attempts: seq<Attempt>)
    requires Encrypts(enc, d)
    ensures SeismicRun(c, d, st, EncryptedAttempts(enc, attempts)) == Run(c, st, attempts)
    decreases |attempts|
  {
    if attempts != [] {
      var sent := EncryptedAttempts(enc, attempts);
      assert sent[1..] == EncryptedAttempts(enc, attempts[1..]);
      assert d(sent[0].tx.tx) == Ok(attempts[0].tx.tx);
      EncryptedRun(c, d, enc, Step(c, st, attempts[0]).state, attempts[1..]);
    }
  }

  lemma {:induction false} EncryptedLoop(
      c: BlockConfig, d: Decryptor, enc: TxEnvelope -> TxEnvelope, st: ExecState, txs: seq<Recovered>)
    requires Encrypts(enc, d)
    ensures SeismicExecuteAll(c, d, st, Encrypted(enc, txs)) == ExecuteAll(c, st, txs)
    decreases |txs|
  {
    if txs != [] {
      var sent := Encrypted(enc, txs);
      assert sent[1..] == Encrypted(enc, txs[1..]);
      assert d(sent[0].tx) == Ok(txs[0].tx);
      EncryptedLoop(c, d, enc, ExecuteTransaction(c, st, txs[0]).state, txs[1..]);
    }
  }

  /** So do whole sessions and blocks: result, receipts, gas, database and hook log are those of the plaintext. */
  lemma {:induction false} EncryptedBlock(
      c: EthConfig, d: Decryptor, enc: TxEnvelope -> TxEnvelope, st: ExecState,
      attempts: seq<Attempt>, txs: seq<Recovered>)
    requires Encrypts(enc, d)
    ensures SeismicSession(c, d, st, EncryptedAttempts(enc, attempts)) == Session(c, st, attempts)
    ensures SeismicExecuteBlock(c, d, st, Encrypted(enc, txs)) == ExecuteBlock(c, st, txs)
  {
    var first := st.(world := PreExecution(c.block, st.world).state);
    EncryptedRun(c.block, d, enc, first, attempts);
    EncryptedLoop(c.block, d, enc, first, txs);
  }
}
