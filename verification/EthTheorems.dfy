/** What holds of every block the Ethereum executor runs. */
module EthTheorems {
  import opened Common
  import opened State
  import opened Hardforks
  import opened Evm
  import opened StateChanges
  import Deposits
  import opened SystemCalls
  import opened TxExecution
  import opened EthBlock

  // ---- Requests ----------------------------------------------------------------------------

  /** Every request has a payload behind its type byte, and the types strictly ascend. */
  predicate Ascending(rs: Requests) {
    && (forall i :: 0 <= i < |rs| ==> |rs[i]| > 1)
    && (forall i, j :: 0 <= i < j < |rs| ==> rs[i] != [] && rs[j] != [] && rs[i][0] < rs[j][0])
  }

  /** The payload filed under a type; empty when the list has no such request. */
  ghost function Payload(rs: Requests, ty: byte): Bytes {
    if i :| 0 <= i < |rs| && rs[i] != [] && rs[i][0] == ty then rs[i][1..] else []
  }

  lemma {:induction false} PushedPayload(rs: Requests, ty: byte, payload: Bytes)
    requires Ascending(rs) && forall i :: 0 <= i < |rs| ==> rs[i][0] < ty
    ensures var pushed := PushRequest(rs, ty, payload);
            Ascending(pushed) && Payload(pushed, ty) == payload &&
            (forall i :: 0 <= i < |pushed| ==> pushed[i][0] <= ty) &&
            (forall t: byte :: t < ty ==> Payload(pushed, t) == Payload(rs, t))
  {
    var pushed := PushRequest(rs, ty, payload);
    if payload != [] {
      var last := [ty] + payload;
      assert last[1..] == payload && pushed == rs + [last];
      forall t: byte | t < ty
        ensures Payload(pushed, t) == Payload(rs, t)
      {
        if i :| 0 <= i < |rs| && rs[i][0] == t {
          assert pushed[i] == rs[i];
        }
      }
      assert pushed[|rs|] == last;
    }
  }

  /** What the interpreter answers to a request call. */
  function RequestCall(evm: Evm, db: Db, contract: Address): EvmOutcome {
    evm.systemCall(db, evm.env, SYSTEM_ADDRESS, contract, NoData)
  }

  /** The database once a call has been committed. */
  function AfterCall(db: Db, outcome: EvmOutcome): Db {
    if outcome.Ok? then Commit(db, outcome.value.state) else db
  }

  predicate Succeeds(outcome: EvmOutcome) { outcome.Ok? && outcome.value.result.Success? }

  /** Why a call did not succeed. */
  function Failure(outcome: EvmOutcome): CallFailure
    requires !Succeeds(outcome)
  {
    match outcome
    case Err(e) => ExecutionFailed(e)
    case Ok(res) => if res.result.Revert? then Reverted(res.result.output) else Halted(res.result.reason)
  }

  /**
   A withdrawal request call fails unless the interpreter answers with success; a revert or a halt is
   an error, after its changes have been committed. The payload is the output of the call.
   */
  lemma {:induction false} WithdrawalCallExact(evm: Evm, w: World)
    ensures var outcome := RequestCall(evm, w.db, WITHDRAWAL_REQUEST_ADDRESS);
            var o := ApplyWithdrawalRequests(evm, w);
            o.state.db == AfterCall(w.db, outcome) &&
            o.result ==
            if Succeeds(outcome) then Ok(outcome.value.result.output)
            else Err(WithdrawalRequestsContractCall(Failure(outcome)))
  {
  }

  /** The same for consolidations. */
  lemma {:induction false} ConsolidationCallExact(evm: Evm, w: World)
    ensures var outcome := RequestCall(evm, w.db, CONSOLIDATION_REQUEST_ADDRESS);
            var o := ApplyConsolidationRequests(evm, w);
            o.state.db == AfterCall(w.db, outcome) &&
            o.result ==
            if Succeeds(outcome) then Ok(outcome.value.result.output)
            else Err(ConsolidationRequestsContractCall(Failure(outcome)))
  {
  }

  /** The post-block calls succeed iff the interpreter answers both with success, the second after the first's commit. */
  lemma {:induction false} PostExecutionExact(evm: Evm, w: World)
    ensures var first := RequestCall(evm, w.db, WITHDRAWAL_REQUEST_ADDRESS);
            var second := RequestCall(evm, AfterCall(w.db, first), CONSOLIDATION_REQUEST_ADDRESS);
            var o := ApplyPostExecution(evm, w);
            (o.result.Ok? <==> Succeeds(first) && Succeeds(second)) &&
            (o.result.Err? ==>
              o.result.error ==
              if !Succeeds(first) then WithdrawalRequestsContractCall(Failure(first))
              else ConsolidationRequestsContractCall(Failure(second))) &&
            o.state.db == if Succeeds(first) then AfterCall(AfterCall(w.db, first), second) else AfterCall(w.db, first)
  {
    WithdrawalCallExact(evm, w);
    ConsolidationCallExact(evm, ApplyWithdrawalRequests(evm, w).state);
  }

  /** The gate of the requests: Prague by the unscaled timestamp. */
  predicate PragueNow(c: EthConfig) {
    c.block.spec.prague.ActiveAtTimestamp(SaturatingU64(c.block.evm.env.block.timestamp))
  }

  /** The deposit logs of the block. */
  function BlockDeposits(c: EthConfig, receipts: seq<Receipt>): seq<Log> {
    var configured := c.block.spec.depositContract;
    Deposits.DepositLogs(
      if configured.Some? then configured.value else Deposits.MAINNET_DEPOSIT_CONTRACT, Deposits.LogsOf(receipts))
  }

  /**
   The requests of a finished block are strictly ascending by type with no empty payload, and hold
   under each type exactly the encoded deposit events and what the interpreter put out for the two
   system calls; with the gate off the list is empty.
   */
  lemma {:induction false} RequestsExact(c: EthConfig, st: ExecState)
    requires Finish(c, st).result.Ok?
    ensures var requests := Finish(c, st).result.value.requests;
            var deposits := BlockDeposits(c, st.receipts);
            var first := RequestCall(c.block.evm, st.world.db, WITHDRAWAL_REQUEST_ADDRESS);
            var second := RequestCall(c.block.evm, AfterCall(st.world.db, first), CONSOLIDATION_REQUEST_ADDRESS);
            Ascending(requests) &&
            if !PragueNow(c) then requests == []
            else
              Deposits.AllDecode(c.decodeDeposit, deposits) && Succeeds(first) && Succeeds(second) &&
              Payload(requests, DEPOSIT_REQUEST_TYPE)
              == Deposits.EncodeAll(Deposits.DecodeAll(c.decodeDeposit, deposits)) &&
              Payload(requests, WITHDRAWAL_REQUEST_TYPE) == first.value.result.output &&
              Payload(requests, CONSOLIDATION_REQUEST_TYPE) == second.value.result.output &&
              (forall i :: 0 <= i < |requests| ==> requests[i][0] <= CONSOLIDATION_REQUEST_TYPE)
  {
    if RequestsGate(c) {
      var evm := c.block.evm;
      var w := ApplyWithdrawalRequests(evm, st.world);
      ParsedDeposits(c, st.receipts);
      PostExecutionExact(evm, st.world);
      WithdrawalCallExact(evm, st.world);
      ConsolidationCallExact(evm, w.state);
      ThreePayloads(
        Deposits.Parse(c.block.spec.depositContract, c.decodeDeposit, st.receipts).value, w.result.value,
        ApplyConsolidationRequests(evm, w.state).result.value);
    }
  }

  lemma {:induction false} ParsedDeposits(c: EthConfig, receipts: seq<Receipt>)
    ensures var deposits := BlockDeposits(c, receipts);
            var r := Deposits.Parse(c.block.spec.depositContract, c.decodeDeposit, receipts);
            (r.Ok? <==> Deposits.AllDecode(c.decodeDeposit, deposits)) &&
            (r.Ok? ==> r.value == Deposits.EncodeAll(Deposits.DecodeAll(c.decodeDeposit, deposits))) &&
            (r.Err? ==> r.error == DepositRequestDecode)
  {
    Deposits.AccumulateExact(
      Deposits.ContractOf(c.block.spec.depositContract), c.decodeDeposit, [], Deposits.LogsOf(receipts));
    Deposits.OnlyDecodeErrors(
      Deposits.ContractOf(c.block.spec.depositContract), c.decodeDeposit, [], Deposits.LogsOf(receipts));
    if Deposits.AllDecode(c.decodeDeposit, BlockDeposits(c, receipts)) {
      var bytes := Deposits.EncodeAll(Deposits.DecodeAll(c.decodeDeposit, BlockDeposits(c, receipts)));
      assert [] + bytes == bytes;
    }
  }

  lemma {:induction false} ThreePayloads(deposits: Bytes, withdrawals: Bytes, consolidations: Bytes)
    ensures var rs := PushRequest([], DEPOSIT_REQUEST_TYPE, deposits) + PushRequest(
              PushRequest([], WITHDRAWAL_REQUEST_TYPE, withdrawals), CONSOLIDATION_REQUEST_TYPE, consolidations);
            Ascending(rs) &&
            Payload(rs, DEPOSIT_REQUEST_TYPE) == deposits &&
            Payload(rs, WITHDRAWAL_REQUEST_TYPE) == withdrawals &&
            Payload(rs, CONSOLIDATION_REQUEST_TYPE) == consolidations &&
            (forall i :: 0 <= i < |rs| ==> rs[i][0] <= CONSOLIDATION_REQUEST_TYPE)
  {
    var r0 := PushRequest([], DEPOSIT_REQUEST_TYPE, deposits);
    var r1 := PushRequest(r0, WITHDRAWAL_REQUEST_TYPE, withdrawals);
    PushedPayload([], DEPOSIT_REQUEST_TYPE, deposits);
    PushedPayload(r0, WITHDRAWAL_REQUEST_TYPE, withdrawals);
    PushedPayload(r1, CONSOLIDATION_REQUEST_TYPE, consolidations);
    PushAssociates(r0, withdrawals, consolidations);
  }

  lemma {:induction false} PushAssociates(r0: Requests, withdrawals: Bytes, consolidations: Bytes)
    ensures r0 + PushRequest(
              PushRequest([], WITHDRAWAL_REQUEST_TYPE, withdrawals), CONSOLIDATION_REQUEST_TYPE, consolidations)
         == PushRequest(PushRequest(r0, WITHDRAWAL_REQUEST_TYPE, withdrawals), CONSOLIDATION_REQUEST_TYPE, consolidations)
  {
  }

  // ---- Which blocks fail -------------------------------------------------------------------

  /**
   `finish` fails exactly when the requests are due and a deposit log does not decode or the interpreter
   does not answer one of the two calls with success; the balance stage, its snapshot included, never
   fails, and receipts and gas are kept either way. The error is that of the first of the three.
   */
  lemma {:induction false} FinishFailsOnlyOnRequests(c: EthConfig, st: ExecState)
    ensures var o := Finish(c, st);
            var first := RequestCall(c.block.evm, st.world.db, WITHDRAWAL_REQUEST_ADDRESS);
            var second := RequestCall(c.block.evm, AfterCall(st.world.db, first), CONSOLIDATION_REQUEST_ADDRESS);
            (o.result.Err? <==>
             PragueNow(c) &&
             (!Deposits.AllDecode(c.decodeDeposit, BlockDeposits(c, st.receipts)) ||
              !Succeeds(first) || !Succeeds(second))) &&
            (o.result.Err? ==>
              o.result.error ==
              if !Deposits.AllDecode(c.decodeDeposit, BlockDeposits(c, st.receipts)) then DepositRequestDecode
              else if !Succeeds(first) then WithdrawalRequestsContractCall(Failure(first))
              else ConsolidationRequestsContractCall(Failure(second))) &&
            o.state.receipts == st.receipts && o.state.gasUsed == st.gasUsed &&
            (o.result.Ok? ==> o.result.value.receipts == st.receipts && o.result.value.gasUsed == st.gasUsed)
  {
    ParsedDeposits(c, st.receipts);
    PostExecutionExact(c.block.evm, st.world);
    var w := RequestStage(c, st).state;
    SnapshotSucceeds(DrainBalances(w.db, DrainList(c)), FinalIncrements(c, w.db));
  }

  // ---- Before the transactions -------------------------------------------------------------

  /** The timestamp in seconds, by which the pre-block calls are gated. */
  function Seconds(evm: Evm): u64 {
    var t := SaturatingU64(evm.env.block.timestamp);
    if evm.timestampInSeconds then t else t / 1000
  }

  /** The blockhashes call, if one is due: its answer on the database prepared for the block. */
  function HistoryCall(c: BlockConfig, db: Db): Option<EvmOutcome> {
    if c.spec.prague.ActiveAtTimestamp(Seconds(c.evm)) && c.evm.env.block.number != 0
    then Some(c.evm.systemCall(db, c.evm.env, SYSTEM_ADDRESS, HISTORY_STORAGE_ADDRESS, Word(c.parentHash)))
    else None
  }

  function AfterHistory(c: BlockConfig, db: Db): Db {
    if HistoryCall(c, db).Some? then AfterCall(db, HistoryCall(c, db).value) else db
  }

  function BeaconCall(c: BlockConfig, db: Db, root: Hash): EvmOutcome {
    c.evm.systemCall(db, c.evm.env, SYSTEM_ADDRESS, BEACON_ROOTS_ADDRESS, Word(root))
  }

  /**
   The stage before the transactions, from the interpreter's answers: which calls are made with which
   data, in which order they are committed on a database with the clear flag of the block, and each way
   to fail.
   */
  lemma {:induction false} PreExecutionExact(c: BlockConfig, w: World)
    ensures var db0 := w.db.(stateClear := c.spec.spuriousDragon.ActiveAtBlock(SaturatingU64(c.evm.env.block.number)));
            var history := HistoryCall(c, db0);
            var db1 := AfterHistory(c, db0);
            var o := PreExecution(c, w);
            if history.Some? && history.value.Err? then
              o.result == Err(BlockHashContractCall(history.value.error)) && o.state.db == db0
            else if !c.spec.cancun.ActiveAtTimestamp(Seconds(c.evm)) then
              o.result.Ok? && o.state.db == db1
            else if c.parentBeaconRoot.None? then
              o.result == Err(MissingParentBeaconBlockRoot) && o.state.db == db1
            else
              var root := c.parentBeaconRoot.value;
              if c.evm.env.block.number == 0 then
                (if root == 0 then o.result.Ok? else o.result == Err(GenesisBeaconRootNotZero(root))) &&
                o.state.db == db1
              else
                var beacon := BeaconCall(c, db1, root);
                (if beacon.Ok? then o.result.Ok? else o.result == Err(BeaconRootContractCall(root, beacon.error))) &&
                o.state.db == AfterCall(db1, beacon)
  {
  }

  /** The genesis block makes no system call and passes exactly when its beacon root is zero, if one is due. */
  lemma {:induction false} GenesisMakesNoCall(c: BlockConfig, w: World)
    requires c.evm.env.block.number == 0
    ensures var o := PreExecution(c, w);
            o.state == World(Prepared(c, w.db), w.hook) &&
            (o.result.Ok? <==>
             (c.spec.cancun.ActiveAtTimestamp(GateSeconds(c.evm)) ==> c.parentBeaconRoot == Some(0)))
  {
  }

  // ---- Sessions and blocks -----------------------------------------------------------------

  /** The state in which the first transaction is tried. */
  function Opened(c: BlockConfig, st: ExecState): ExecState {
    st.(world := PreExecution(c, st.world).state)
  }

  /**
   A block is the session of its transactions, all committed, or it stops in the state of a run of the
   first k of them with the error of the next.
   */
  lemma {:induction false} BlockIsSession(c: EthConfig, st: ExecState, txs: seq<Recovered>) returns (k: nat)
    ensures k <= |txs|
    ensures var o := ExecuteBlock(c, st, txs);
            var attempts := AttemptsOf(txs);
            var first := Opened(c.block, st);
            if PreExecution(c.block, st.world).result.Err? then o == Session(c, st, attempts)
            else if k == |txs|
            then o == Session(c, st, attempts) && Survivors(c.block, first, attempts) == attempts
            else
              o.state == Run(c.block, first, attempts[..k]) && o.result.Err? &&
              Step(c.block, o.state, attempts[k]).result == Err(o.result.error)
  {
    k := LoopIsRun(c.block, Opened(c.block, st), txs);
    assert AttemptsOf(txs)[..|txs|] == AttemptsOf(txs);
  }

  // ---- The hook stream is a complete change log --------------------------------------------

  /** The world in which the balance stage of a session starts. */
  function BeforeBalances(c: EthConfig, st: ExecState, attempts: seq<Attempt>): World {
    RequestStage(c, Run(c.block, Opened(c.block, st), attempts)).state
  }

  /** Every account drained from `db` is credited as well, or was there with nothing to drain. */
  ghost predicate DrainShows(c: EthConfig, db: Db) {
    IsDaoBlock(c) ==>
      forall a :: a in c.daoAccounts ==>
        a in Credited(FinalIncrements(c, db)) || (a in db.accounts && db.InfoOf(a).balance == 0)
  }

  lemma {:induction false} PreExecutionTracked(c: BlockConfig, w: World)
    requires w.hook == Some([])
    ensures Tracked(Prepared(c, w.db), PreExecution(c, w).state)
  {
    var start := Prepared(c, w.db);
    var w0 := w.(db := start);
    PreCallsTracked(c.spec, c.parentHash, c.parentBeaconRoot, c.evm, start, w0);
    PreCallsTracked(
      c.spec, c.parentHash, c.parentBeaconRoot, c.evm, start, ApplyBlockhashes(c.spec, c.parentHash, c.evm, w0).state);
  }

  lemma {:induction false} BalanceStageTracked(c: EthConfig, start: Db, w: World)
    requires Tracked(start, w)
    ensures var o := BalanceStage(c, w);
            o.result.Ok? && (Tracked(start, o.state) <==> DrainShows(c, w.db))
  {
    var incs := FinalIncrements(c, w.db);
    SnapshotReplays(w.db, DrainList(c), incs);
    var last := IncrementBalances(DrainBalances(w.db, DrainList(c)), incs);
    ReplayReport(start, 0, w.hook.value, HookEvent(BalanceIncrements, BalanceIncrementState(incs, last).value));
  }

  lemma {:induction false} FinishTracked(c: EthConfig, start: Db, st: ExecState)
    requires Tracked(start, st.world)
    ensures var o := Finish(c, st);
            Tracked(start, o.state.world) <==> (o.result.Ok? ==> DrainShows(c, RequestStage(c, st).state.db))
  {
    PostExecutionTracked(c.block.evm, start, st.world);
    var r := RequestStage(c, st);
    assert Tracked(start, r.state);
    BalanceStageTracked(c, start, r.state);
  }

  /**
   With a hook installed from the start, committing the reported change sets in order to the initial
   database gives the final one, whichever attempts failed or were declined on the way: always when
   the session fails, and when it succeeds if and only if every drained DAO account is credited as
   well or was already empty. The drain itself is the one write never reported.
   */
  lemma {:induction false} SessionLogReplays(c: EthConfig, st: ExecState, attempts: seq<Attempt>)
    requires st.world.hook == Some([])
    ensures var o := Session(c, st, attempts);
            Tracked(Prepared(c.block, st.world.db), o.state.world) <==>
            (o.result.Ok? ==> DrainShows(c, BeforeBalances(c, st, attempts).db))
  {
    var start := Prepared(c.block, st.world.db);
    PreExecutionTracked(c.block, st.world);
    if PreExecution(c.block, st.world).result.Ok? {
      RunTracked(c.block, start, 0, Opened(c.block, st), attempts);
      FinishTracked(c, start, Run(c.block, Opened(c.block, st), attempts));
    }
  }

  /** The same of a block, failing ones included. */
  lemma {:induction false} HookLogReplays(c: EthConfig, st: ExecState, txs: seq<Recovered>)
    requires st.world.hook == Some([])
    ensures var o := ExecuteBlock(c, st, txs);
            Tracked(Prepared(c.block, st.world.db), o.state.world) <==>
            (o.result.Ok? ==> DrainShows(c, BeforeBalances(c, st, AttemptsOf(txs)).db))
  {
    var k := BlockIsSession(c, st, txs);
    SessionLogReplays(c, st, AttemptsOf(txs));
    PreExecutionTracked(c.block, st.world);
    RunTracked(c.block, Prepared(c.block, st.world.db), 0, Opened(c.block, st), AttemptsOf(txs)[..k]);
  }

  lemma {:induction false} NotCredited(c: EthConfig, db: Db, a: Address)
    requires c.ommers == [] && c.withdrawals.None?
    requires a != c.block.evm.env.block.beneficiary && a != DAO_HARDFORK_BENEFICIARY
    ensures a !in Credited(FinalIncrements(c, db))
  {
    FinalIncrementsAccumulate(c, db);
    EntryIsSumOfContributions(FinalContributions(c, db), a);
    forall i | 0 <= i < |FinalContributions(c, db)|
      ensures FinalContributions(c, db)[i].to != a
    {
    }
  }

  /** No fork gate of a system call is open. */
  predicate NoSystemCalls(c: EthConfig) {
    && !c.block.spec.prague.ActiveAtTimestamp(GateSeconds(c.block.evm))
    && !c.block.spec.cancun.ActiveAtTimestamp(GateSeconds(c.block.evm))
    && !RequestsGate(c)
  }

  /**
   The exception is real: an empty DAO block whose one drained account held 7 wei and gets nothing
   back succeeds with a log that does not replay.
   */
  lemma {:induction false} DrainGoesUnreported(c: EthConfig, a: Address, st: ExecState)
    requires IsDaoBlock(c) && NoSystemCalls(c)
    requires c.daoAccounts == [a] && c.ommers == [] && c.withdrawals.None?
    requires a != c.block.evm.env.block.beneficiary && a != DAO_HARDFORK_BENEFICIARY
    requires st.world.hook == Some([])
    requires st.world.db.accounts == map[a := Account(DEFAULT_INFO.(balance := 7), map[])]
    ensures ExecuteBlock(c, st, []).result.Ok?
    ensures !Tracked(Prepared(c.block, st.world.db), ExecuteBlock(c, st, []).state.world)
  {
    var db := Prepared(c.block, st.world.db);
    assert AttemptsOf([]) == [];
    assert Opened(c.block, st) == st.(world := World(db, Some([])));
    assert BeforeBalances(c, st, []) == World(db, Some([]));
    FinishFailsOnlyOnRequests(c, Opened(c.block, st));
    HookLogReplays(c, st, []);
    NotCredited(c, db, a);
    assert a in c.daoAccounts && db.InfoOf(a).balance == 7;
  }

  // ---- The hook is only an observer --------------------------------------------------------

  lemma {:induction false} PreExecutionIgnoresHook(c: BlockConfig, w: World)
    ensures var o := PreExecution(c, w);
            PreExecution(c, WithoutHook(w)) == Outcome(WithoutHook(o.state), o.result)
  {
    var w0 := w.(db := Prepared(c, w.db));
    PreCallsIgnoreHook(c.spec, c.parentHash, c.parentBeaconRoot, c.evm, w0);
    PreCallsIgnoreHook(
      c.spec, c.parentHash, c.parentBeaconRoot, c.evm, ApplyBlockhashes(c.spec, c.parentHash, c.evm, w0).state);
  }

  lemma {:induction false} FinishIgnoresHook(c: EthConfig, st: ExecState)
    ensures var o := Finish(c, st);
            Finish(c, Unhooked(st)) == Outcome(Unhooked(o.state), o.result)
  {
    PostExecutionIgnoresHook(c.block.evm, st.world);
    var r := RequestStage(c, st);
    assert RequestStage(c, Unhooked(st)) == Outcome(WithoutHook(r.state), r.result);
    if r.result.Ok? {
      SnapshotSucceeds(DrainBalances(r.state.db, DrainList(c)), FinalIncrements(c, r.state.db));
    }
  }

  /** Installing a hook changes neither the result of a session, nor its database, receipts or gas. */
  lemma {:induction false} SessionIgnoresHook(c: EthConfig, st: ExecState, attempts: seq<Attempt>)
    ensures var o := Session(c, st, attempts);
            Session(c, Unhooked(st), attempts) == Outcome(Unhooked(o.state), o.result)
  {
    PreExecutionIgnoresHook(c.block, st.world);
    RunIgnoresHook(c.block, Opened(c.block, st), attempts);
    FinishIgnoresHook(c, Run(c.block, Opened(c.block, st), attempts));
  }

  lemma {:induction false} LoopIgnoresHook(c: BlockConfig, st: ExecState, txs: seq<Recovered>)
    ensures var o := ExecuteAll(c, st, txs);
            ExecuteAll(c, Unhooked(st), txs) == Outcome(Unhooked(o.state), o.result)
    decreases |txs|
  {
    if txs != [] {
      var o := ExecuteTransaction(c, st, txs[0]);
      assert ExecuteTransaction(c, Unhooked(st), txs[0]) == Outcome(Unhooked(o.state), o.result);
      if o.result.Ok? {
        LoopIgnoresHook(c, o.state, txs[1..]);
      }
    }
  }

  /** The same of a block, its error included. */
  lemma {:induction false} BlockIgnoresHook(c: EthConfig, st: ExecState, txs: seq<Recovered>)
    ensures var o := ExecuteBlock(c, st, txs);
            ExecuteBlock(c, Unhooked(st), txs) == Outcome(Unhooked(o.state), o.result)
  {
    PreExecutionIgnoresHook(c.block, st.world);
    LoopIgnoresHook(c.block, Opened(c.block, st), txs);
    FinishIgnoresHook(c, ExecuteAll(c.block, Opened(c.block, st), txs).state);
  }

  // ---- Event order -------------------------------------------------------------------------

  function TransactionSources(n: nat): seq<Source> {
    seq(n, i requires 0 <= i < n => Transaction(i))
  }

  lemma {:induction false} RunSources(c: BlockConfig, st: ExecState, attempts: seq<Attempt>)
    requires st.world.hook.Some? && st.receipts == []
    ensures var end := Run(c, st, attempts);
            var n := |Survivors(c, st, attempts)|;
            end.world.hook.Some? && |end.receipts| == n &&
            Sources(end.world.hook) == Sources(st.world.hook) + TransactionSources(n)
  {
    var n := |Survivors(c, st, attempts)|;
    RunGrows(c, st, attempts);
    var log0, log := st.world.hook.value, Run(c, st, attempts).world.hook.value;
    forall i | 0 <= i < n
      ensures log[|log0| + i].source == Transaction(i)
    {
      CommittedInOrder(c, st, attempts, i);
    }
    SourcesExtend(log0, log, n);
  }

  lemma {:induction false} SourcesExtend(log0: seq<HookEvent>, log: seq<HookEvent>, n: nat)
    requires log0 <= log && |log| == |log0| + n
    requires forall i :: 0 <= i < n ==> log[|log0| + i].source == Transaction(i)
    ensures Sources(Some(log)) == Sources(Some(log0)) + TransactionSources(n)
  {
    forall j | |log0| <= j < |log|
      ensures log[j].source == Transaction(j - |log0|)
    {
      assert log[|log0| + (j - |log0|)].source == Transaction(j - |log0|);
    }
  }

  /** The sources a session reports when it commits `n` transactions. */
  function ExpectedSources(c: EthConfig, n: nat): seq<Source> {
    PreSources(c.block.spec, c.block.evm) + TransactionSources(n)
    + (if RequestsGate(c) then [WithdrawalRequestsContract, ConsolidationRequestsContract] else [])
    + [BalanceIncrements]
  }

  lemma {:induction false} FinishSources(c: EthConfig, st: ExecState)
    requires st.world.hook.Some? && Finish(c, st).result.Ok?
    ensures Sources(Finish(c, st).state.world.hook) ==
            Sources(st.world.hook)
            + (if RequestsGate(c) then [WithdrawalRequestsContract, ConsolidationRequestsContract] else [])
            + [BalanceIncrements]
  {
    if RequestsGate(c) {
      PostExecutionSources(c.block.evm, st.world);
    }
    BalanceStageSources(c, RequestStage(c, st).state);
  }

  /**
   The events of a successful session: blockhashes, beacon root, the committed transactions numbered
   from 0 with no gaps for rejected, failed or declined attempts and one a receipt, withdrawal
   requests, consolidation requests, balance increments.
   */
  lemma {:induction false} SessionEventOrder(c: EthConfig, st: ExecState, attempts: seq<Attempt>)
    requires st.world.hook == Some([]) && st.receipts == [] && Session(c, st, attempts).result.Ok?
    ensures var o := Session(c, st, attempts);
            var n := |Survivors(c.block, Opened(c.block, st), attempts)|;
            |o.result.value.receipts| == n && Sources(o.state.world.hook) == ExpectedSources(c, n)
  {
    var first := Opened(c.block, st);
    var end := Run(c.block, first, attempts);
    PreExecutionSources(c.block, st.world);
    RunSources(c.block, first, attempts);
    assert Session(c, st, attempts) == Finish(c, end);
    FinishSources(c, end);
    FinishFailsOnlyOnRequests(c, end);
  }

  lemma {:induction false} PreExecutionSources(c: BlockConfig, w: World)
    requires w.hook == Some([]) && PreExecution(c, w).result.Ok?
    ensures PreExecution(c, w).state.hook.Some?
    ensures Sources(PreExecution(c, w).state.hook) == PreSources(c.spec, c.evm)
  {
    PreCallSources(c.spec, c.parentHash, c.parentBeaconRoot, c.evm, w.(db := Prepared(c, w.db)));
    assert Sources(w.hook) == [];
  }

  /** The same of a successful block, which commits every transaction. */
  lemma {:induction false} EventOrder(c: EthConfig, st: ExecState, txs: seq<Recovered>)
    requires st.world.hook == Some([]) && st.receipts == [] && ExecuteBlock(c, st, txs).result.Ok?
    ensures var o := ExecuteBlock(c, st, txs);
            |o.result.value.receipts| == |txs| && Sources(o.state.world.hook) == ExpectedSources(c, |txs|)
  {
    var k := BlockIsSession(c, st, txs);
    SessionEventOrder(c, st, AttemptsOf(txs));
  }

  lemma {:induction false} BalanceStageSources(c: EthConfig, w: World)
    requires w.hook.Some?
    ensures BalanceStage(c, w).state.hook.Some?
    ensures Sources(BalanceStage(c, w).state.hook) == Sources(w.hook) + [BalanceIncrements]
  {
    var drained := DrainBalances(w.db, DrainList(c));
    var incs := FinalIncrements(c, w.db);
    SnapshotSucceeds(drained, incs);
    var cs := BalanceIncrementState(incs, IncrementBalances(drained, incs)).value;
    assert Sources(Report(w.hook, BalanceIncrements, cs)) == Sources(w.hook) + [BalanceIncrements];
  }

  // ---- Gas ---------------------------------------------------------------------------------

  /**
   A successful session uses at most the gas limit; the reported figure is the sum of what its
   committed transactions returned, and the cumulative gas of its last receipt.
   */
  lemma {:induction false} SessionGas(c: EthConfig, st: ExecState, attempts: seq<Attempt>)
    requires RespectsGasLimit(c.block.evm) && RecordsGas(c.block.buildReceipt) && AllGated(c.block, attempts)
    requires st.receipts == [] && st.gasUsed == 0 && Session(c, st, attempts).result.Ok?
    ensures var r := Session(c, st, attempts).result.value;
            r.gasUsed <= c.block.evm.env.block.gasLimit &&
            r.gasUsed == Sum(Gases(c.block, Opened(c.block, st), attempts)) &&
            r.gasUsed == LastCumulativeGas(r.receipts)
  {
    GasSafety(c.block, Opened(c.block, st), attempts);
    CounterInReceipts(c.block, Opened(c.block, st), attempts);
  }

  /** The same of a successful block. */
  lemma {:induction false} BlockGas(c: EthConfig, st: ExecState, txs: seq<Recovered>)
    requires RespectsGasLimit(c.block.evm) && RecordsGas(c.block.buildReceipt) && forall tx :: c.block.gated(tx)
    requires st.receipts == [] && st.gasUsed == 0 && ExecuteBlock(c, st, txs).result.Ok?
    ensures var r := ExecuteBlock(c, st, txs).result.value;
            r.gasUsed <= c.block.evm.env.block.gasLimit &&
            r.gasUsed == Sum(Gases(c.block, Opened(c.block, st), AttemptsOf(txs))) &&
            r.gasUsed == LastCumulativeGas(r.receipts)
  {
    var k := BlockIsSession(c, st, txs);
    SessionGas(c, st, AttemptsOf(txs));
  }

  // ---- Supply ------------------------------------------------------------------------------

  /** All contributions of the balance stage: rewards, withdrawals and, at the DAO block, the refund. */
  function FinalContributions(c: EthConfig, db: Db): seq<Contribution> {
    if IsDaoBlock(c)
    then BlockContributions(c)
         + [Contribution(DAO_HARDFORK_BENEFICIARY, Sum(DrainedBalances(db, c.daoAccounts)) % U128)]
    else BlockContributions(c)
  }

  lemma {:induction false} FinalIncrementsAccumulate(c: EthConfig, db: Db)
    ensures FinalIncrements(c, db) == Accumulate(map[], FinalContributions(c, db))
  {
    if IsDaoBlock(c) {
      AccumulateSnoc(
        map[], BlockContributions(c),
        Contribution(DAO_HARDFORK_BENEFICIARY, Sum(DrainedBalances(db, c.daoAccounts)) % U128));
    }
  }

  /** Nothing is lost: the drained sum fits, no entry wraps and no balance saturates. */
  ghost predicate NothingLost(c: EthConfig, db: Db) {
    var cs := FinalContributions(c, db);
    var drained := DrainBalances(db, DrainList(c));
    Sum(DrainedBalances(db, DrainList(c))) < U128 &&
    forall a :: a in Beneficiaries(cs) ==>
      AmountFor(cs, a) < U128 && drained.InfoOf(a).balance + AmountFor(cs, a) < U256
  }

  lemma {:induction false} CreditSupply(db: Db, cs: seq<Contribution>)
    ensures var after := IncrementBalances(db, Accumulate(map[], cs));
            Supply(after) <= Supply(db) + Sum(Amounts(cs)) &&
            (Supply(after) == Supply(db) + Sum(Amounts(cs)) <==>
             forall a :: a in Beneficiaries(cs) ==>
               AmountFor(cs, a) < U128 && db.InfoOf(a).balance + AmountFor(cs, a) < U256)
  {
    var incs, due := Accumulate(map[], cs), Due(cs);
    EntryIsSumOfContributions(cs, Address(0));
    forall a | a in incs
      ensures due[a] == AmountFor(cs, a) && incs[a] <= due[a] && (incs[a] == due[a] <==> due[a] < U128)
    {
      EntryIsSumOfContributions(cs, a);
      ModAtMost(AmountFor(cs, a));
    }
    DueTotal(cs);
    IncrementSupply(db, incs, due);
  }

  lemma {:induction false} ModAtMost(x: nat)
    ensures x % U128 <= x && (x % U128 == x <==> x < U128)
  {
  }

  lemma {:induction false} FinalAmounts(c: EthConfig, db: Db)
    ensures Sum(Amounts(FinalContributions(c, db)))
         == Sum(Amounts(BlockContributions(c))) + Sum(DrainedBalances(db, DrainList(c))) % U128
  {
    if IsDaoBlock(c) {
      AmountsSnoc(
        BlockContributions(c),
        Contribution(DAO_HARDFORK_BENEFICIARY, Sum(DrainedBalances(db, c.daoAccounts)) % U128));
    } else {
      assert DrainedBalances(db, []) == [];
    }
  }

  /**
   The balance stage raises the total supply by exactly the block's rewards and withdrawals if and
   only if nothing is lost to overflow. The DAO drain and refund net to zero, whether a drained account
   is listed twice, is rewarded in the same block, or is the beneficiary itself.
   */
  lemma {:induction false} SupplyConserved(c: EthConfig, w: World)
    ensures var after := BalanceStage(c, w).state.db;
            Supply(after) <= Supply(w.db) + Sum(Amounts(BlockContributions(c))) &&
            (Supply(after) == Supply(w.db) + Sum(Amounts(BlockContributions(c))) <==> NothingLost(c, w.db))
  {
    var list, cs := DrainList(c), FinalContributions(c, w.db);
    DrainConserves(w.db, list);
    FinalAmounts(c, w.db);
    ModAtMost(Sum(DrainedBalances(w.db, list)));
    CreditSupply(DrainBalances(w.db, list), cs);
    BalanceStageDb(c, w);
  }

  lemma {:induction false} BalanceStageDb(c: EthConfig, w: World)
    ensures BalanceStage(c, w).state.db
         == IncrementBalances(DrainBalances(w.db, DrainList(c)), Accumulate(map[], FinalContributions(c, w.db)))
  {
    FinalIncrementsAccumulate(c, w.db);
  }

  // ---- Every account after the block -------------------------------------------------------

  /** The database in which the balances of a finished block start to change. */
  function AfterRequests(c: EthConfig, db: Db): Db {
    if !PragueNow(c) then db
    else
      var db1 := AfterCall(db, RequestCall(c.block.evm, db, WITHDRAWAL_REQUEST_ADDRESS));
      AfterCall(db1, RequestCall(c.block.evm, db1, CONSOLIDATION_REQUEST_ADDRESS))
  }

  /** The block is the one the DAO fork is scheduled for. */
  predicate DaoNow(c: EthConfig) {
    c.block.spec.dao == AtBlock(SaturatingU64(c.block.evm.env.block.number))
  }

  /** What the stage pays to `a`: what it is due, and the drained sum if it is the refunded account. */
  ghost function Paid(c: EthConfig, db: Db, a: Address): nat {
    AmountFor(Contributions(c.block.spec, c.block.evm.env.block, c.ommers, c.withdrawals), a)
    + (if DaoNow(c) && a == DAO_HARDFORK_BENEFICIARY then Sum(DrainedBalances(db, c.daoAccounts)) else 0)
  }

  /**
   Each account's balance after the balance stage is what it had, nothing if it was drained, plus all
   it is paid; its nonce, code and storage are what they were.
   */
  lemma {:induction false} BalanceStageAt(c: EthConfig, w: World, a: Address)
    ensures var after := BalanceStage(c, w).state.db;
            var kept := if DaoNow(c) && a in c.daoAccounts then 0 else w.db.InfoOf(a).balance;
            after.InfoOf(a) == w.db.InfoOf(a).(balance := Min(kept + Paid(c, w.db, a) % U128, U256 - 1)) &&
            forall k :: after.SlotOf(a, k) == w.db.SlotOf(a, k)
  {
    var drained := DrainBalances(w.db, DrainList(c));
    BalanceStageDb(c, w);
    DrainedAccount(w.db, DrainList(c), a);
    EntryIsPayment(c, w.db, a);
    CreditedAccount(drained, Accumulate(map[], FinalContributions(c, w.db)), a);
  }

  lemma {:induction false} DrainedAccount(db: Db, list: seq<Address>, a: Address)
    ensures var after := DrainBalances(db, list);
            after.InfoOf(a) == db.InfoOf(a).(balance := if a in list then 0 else db.InfoOf(a).balance) &&
            forall k :: after.SlotOf(a, k) == db.SlotOf(a, k)
  {
    DrainFind(db, list, a);
    assert DrainBalances(db, list).InfoOf(a) == OrDefault(DrainBalances(db, list).Find(a)).info;
    assert db.InfoOf(a) == OrDefault(db.Find(a)).info;
  }

  lemma {:induction false} EntryIsPayment(c: EthConfig, db: Db, a: Address)
    ensures var incs := Accumulate(map[], FinalContributions(c, db));
            (if a in incs then incs[a] else 0) == Paid(c, db, a) % U128
  {
    EntryIsSumOfContributions(FinalContributions(c, db), a);
    PaidByContributions(c, db, a);
  }

  lemma {:induction false} FinalAmountAt(c: EthConfig, db: Db, a: Address)
    ensures AmountFor(FinalContributions(c, db), a)
         == AmountFor(BlockContributions(c), a)
            + (if IsDaoBlock(c) && a == DAO_HARDFORK_BENEFICIARY then Sum(DrainedBalances(db, c.daoAccounts)) % U128 else 0)
  {
    if IsDaoBlock(c) {
      AmountSnoc(
        BlockContributions(c),
        Contribution(DAO_HARDFORK_BENEFICIARY, Sum(DrainedBalances(db, c.daoAccounts)) % U128), a);
    }
  }

  lemma {:induction false} PaidByContributions(c: EthConfig, db: Db, a: Address)
    ensures AmountFor(FinalContributions(c, db), a) % U128 == Paid(c, db, a) % U128
  {
    FinalAmountAt(c, db, a);
    var due, drained := AmountFor(BlockContributions(c), a), Sum(DrainedBalances(db, c.daoAccounts));
    if IsDaoBlock(c) && a == DAO_HARDFORK_BENEFICIARY {
      assert Paid(c, db, a) == due + drained;
      ModRight(due, drained);
    } else {
      assert Paid(c, db, a) == due;
    }
  }

  lemma {:induction false} ModRight(x: nat, r: nat)
    ensures (x + r % U128) % U128 == (x + r) % U128
  {
    assert r == r / U128 * U128 + r % U128;
    ModShift(x + r % U128, r / U128);
  }

  lemma {:induction false} CreditedAccount(db: Db, incs: map<Address, u128>, a: Address)
    ensures var after := IncrementBalances(db, incs);
            var amount := if a in incs then incs[a] else 0;
            after.InfoOf(a) == db.InfoOf(a).(balance := Min(db.InfoOf(a).balance + amount, U256 - 1)) &&
            forall k :: after.SlotOf(a, k) == db.SlotOf(a, k)
  {
  }

  /** Every account of a finished block, from the state in which `finish` was called. */
  lemma {:induction false} FinishAccounts(c: EthConfig, st: ExecState, a: Address)
    requires Finish(c, st).result.Ok?
    ensures var before := AfterRequests(c, st.world.db);
            var after := Finish(c, st).state.world.db;
            var kept := if DaoNow(c) && a in c.daoAccounts then 0 else before.InfoOf(a).balance;
            after.InfoOf(a) == before.InfoOf(a).(balance := Min(kept + Paid(c, before, a) % U128, U256 - 1)) &&
            forall k :: after.SlotOf(a, k) == before.SlotOf(a, k)
  {
    FinishFailsOnlyOnRequests(c, st);
    PostExecutionExact(c.block.evm, st.world);
    assert RequestStage(c, st).state.db == AfterRequests(c, st.world.db);
    BalanceStageAt(c, RequestStage(c, st).state, a);
  }

  lemma {:induction false} BalanceAtMostSupply(db: Db, a: Address)
    ensures db.InfoOf(a).balance <= Supply(db)
  {
    TotalRemove(Balances(db), a);
  }

  /** A supply that stays below 2^128 wei, rewards included, is enough for nothing to be lost. */
  lemma {:induction false} SmallSupplyLosesNothing(c: EthConfig, w: World)
    requires Supply(w.db) + Sum(Amounts(BlockContributions(c))) < U128
    ensures Supply(BalanceStage(c, w).state.db) == Supply(w.db) + Sum(Amounts(BlockContributions(c)))
  {
    var list, cs := DrainList(c), FinalContributions(c, w.db);
    var drained, taken := DrainBalances(w.db, list), Sum(DrainedBalances(w.db, list));
    DrainConserves(w.db, list);
    ModAtMost(taken);
    FinalAmounts(c, w.db);
    forall a | a in Beneficiaries(cs)
      ensures AmountFor(cs, a) < U128 && drained.InfoOf(a).balance + AmountFor(cs, a) < U256
    {
      AmountAtMostSum(cs, a);
      BalanceAtMostSupply(drained, a);
    }
    SupplyConserved(c, w);
  }
}
