/**
 Executing the transactions of a block: the gas gate, conditional commit, the hook, gas counting and
 receipts. One step function serves the Ethereum and the Optimism executor, which differ in which
 transactions the gas gate binds and in how a receipt is built.
 */
module TxExecution {
  import opened Common
  import opened State
  import opened Hardforks
  import opened Evm
  import opened SystemCalls

  datatype BlockConfig = BlockConfig(
    spec: ChainSpec, evm: Evm, parentHash: Hash, parentBeaconRoot: Option<Hash>,
    gated: TxEnvelope -> bool, buildReceipt: ReceiptBuilder, trieHash: TxEnvelope -> Hash)

  datatype ExecState = ExecState(world: World, receipts: seq<Receipt>, gasUsed: u64)

  /** A transaction with the closure that decides, from its result, whether to commit it. */
  datatype Attempt = Attempt(tx: Recovered, commitIf: ExecutionResult -> bool)

  type StepResult = Result<Option<u64>, BlockError>

  function Always(result: ExecutionResult): bool { true }

  function Available(c: BlockConfig, st: ExecState): u64 {
    SubU64(c.evm.env.block.gasLimit, st.gasUsed)
  }

  /** The state after committing a transaction with outcome `res`. */
  function CommitTx(c: BlockConfig, st: ExecState, tx: Recovered, res: ResultAndState): ExecState {
    var gas := AddU64(st.gasUsed, res.result.gas);
    ExecState(
      ReportAndCommit(st.world, Transaction(|st.receipts|), res.state),
      st.receipts + [c.buildReceipt(tx, st.world.db, res, gas)],
      gas)
  }

  /** `execute_transaction_with_commit_condition`. */
  function Step(c: BlockConfig, st: ExecState, a: Attempt): Outcome<ExecState, Option<u64>, BlockError> {
    var available := Available(c, st);
    if a.tx.tx.gasLimit > available && c.gated(a.tx.tx) then
      Outcome(st, Err(GasLimitMoreThanAvailable(a.tx.tx.gasLimit, available)))
    else match c.evm.transact(st.world.db, c.evm.env, a.tx)
      case Err(e) => Outcome(st, Err(FromEvmError(e, c.trieHash(a.tx.tx))))
      case Ok(res) =>
        if !a.commitIf(res.result) then Outcome(st, Ok(None))
        else Outcome(CommitTx(c, st, a.tx, res), Ok(Some(res.result.gas)))
  }

  predicate Commits(r: StepResult) { r.Ok? && r.value.Some? }

  /** The state after trying all attempts in turn, going on after each failure. */
  function Run(c: BlockConfig, st: ExecState, attempts: seq<Attempt>): ExecState
    decreases |attempts|
  {
    if attempts == [] then st else Run(c, Step(c, st, attempts[0]).state, attempts[1..])
  }

  /** The attempts of a run that commit, each judged in the state it meets. */
  function Survivors(c: BlockConfig, st: ExecState, attempts: seq<Attempt>): seq<Attempt>
    decreases |attempts|
  {
    if attempts == [] then []
    else
      var o := Step(c, st, attempts[0]);
      (if Commits(o.result) then [attempts[0]] else []) + Survivors(c, o.state, attempts[1..])
  }

  /** The gas amounts a run returns, in order. */
  function Gases(c: BlockConfig, st: ExecState, attempts: seq<Attempt>): seq<nat>
    decreases |attempts|
  {
    if attempts == [] then []
    else
      var o := Step(c, st, attempts[0]);
      (if Commits(o.result) then [o.result.value.value] else []) + Gases(c, o.state, attempts[1..])
  }

  // ---- Which attempts commit ---------------------------------------------------------------

  /**
   An attempt commits if and only if the gate, where it binds, leaves room for the gas limit, the
   execution succeeds and the closure says yes to its result; otherwise it answers with the reason.
   */
  lemma {:induction false} StepExact(c: BlockConfig, st: ExecState, a: Attempt)
    ensures var result := Step(c, st, a).result;
            var limit := a.tx.tx.gasLimit;
            var available := SubU64(c.evm.env.block.gasLimit, st.gasUsed);
            var passes := c.gated(a.tx.tx) ==> limit <= available;
            var outcome := c.evm.transact(st.world.db, c.evm.env, a.tx);
            if !passes then result == Err(GasLimitMoreThanAvailable(limit, available))
            else if outcome.Err?
            then result == Err(if outcome.error.InvalidTransaction?
                               then InvalidTx(c.trieHash(a.tx.tx), outcome.error.code)
                               else InternalEvm(c.trieHash(a.tx.tx), outcome.error.code))
            else result == Ok(if a.commitIf(outcome.value.result) then Some(outcome.value.result.gas) else None)
  {
  }

  lemma {:induction false} RunConcat(c: BlockConfig, st: ExecState, xs: seq<Attempt>, ys: seq<Attempt>)
    ensures Run(c, st, xs + ys) == Run(c, Run(c, st, xs), ys)
    ensures Survivors(c, st, xs + ys) == Survivors(c, st, xs) + Survivors(c, Run(c, st, xs), ys)
    decreases |xs|
  {
    if xs == [] {
      assert xs + ys == ys;
    } else {
      assert (xs + ys)[1..] == xs[1..] + ys;
      RunConcat(c, Step(c, st, xs[0]).state, xs[1..], ys);
    }
  }

  /** Attempt i of a run survives if and only if its gate, execution and closure say so in the state it meets. */
  lemma {:induction false} SurvivesIff(c: BlockConfig, st: ExecState, attempts: seq<Attempt>, i: nat)
    requires i < |attempts|
    ensures var a := attempts[i];
            var before := Run(c, st, attempts[..i]);
            var outcome := c.evm.transact(before.world.db, c.evm.env, a.tx);
            var survives :=
              (c.gated(a.tx.tx) ==> a.tx.tx.gasLimit <= SubU64(c.evm.env.block.gasLimit, before.gasUsed)) &&
              outcome.Ok? && a.commitIf(outcome.value.result);
            Survivors(c, st, attempts[..i + 1])
            == Survivors(c, st, attempts[..i]) + (if survives then [a] else []) &&
            (!survives ==> Run(c, st, attempts[..i + 1]) == before)
  {
    var a, before := attempts[i], Run(c, st, attempts[..i]);
    assert attempts[..i + 1] == attempts[..i] + [a];
    RunConcat(c, st, attempts[..i], [a]);
    StepExact(c, before, a);
    OnlyCommitsChange(c, before, a);
    assert Survivors(c, before, [a]) == if Commits(Step(c, before, a).result) then [a] else [];
    assert Run(c, before, [a]) == Step(c, before, a).state;
  }

  // ---- Failed and declined attempts are stuttering steps -----------------------------------

  lemma {:induction false} OnlyCommitsChange(c: BlockConfig, st: ExecState, a: Attempt)
    ensures !Commits(Step(c, st, a).result) ==> Step(c, st, a).state == st
  {
  }

  /**
   Erasing every attempt that was rejected, failed or was declined changes nothing: the survivors
   alone reach the same database, receipts, gas and hook log, and all of them commit again.
   */
  lemma {:induction false} FailuresStutter(c: BlockConfig, st: ExecState, attempts: seq<Attempt>)
    ensures Run(c, st, Survivors(c, st, attempts)) == Run(c, st, attempts)
    ensures Survivors(c, st, Survivors(c, st, attempts)) == Survivors(c, st, attempts)
    decreases |attempts|
  {
    if attempts != [] {
      var o := Step(c, st, attempts[0]);
      var rest := Survivors(c, o.state, attempts[1..]);
      FailuresStutter(c, o.state, attempts[1..]);
      if Commits(o.result) {
        assert ([attempts[0]] + rest)[1..] == rest;
      } else {
        OnlyCommitsChange(c, st, attempts[0]);
        assert [] + rest == rest;
      }
    }
  }

  // ---- Gas ---------------------------------------------------------------------------------

  /** The gas counter is within the block limit. */
  predicate WithinLimit(c: BlockConfig, st: ExecState) {
    st.gasUsed <= c.evm.env.block.gasLimit
  }

  predicate AllGated(c: BlockConfig, attempts: seq<Attempt>) {
    forall i :: 0 <= i < |attempts| ==> c.gated(attempts[i].tx.tx)
  }

  lemma {:induction false} StepWithinLimit(c: BlockConfig, st: ExecState, a: Attempt)
    requires RespectsGasLimit(c.evm) && WithinLimit(c, st) && c.gated(a.tx.tx)
    ensures var o := Step(c, st, a);
            Available(c, st) == c.evm.env.block.gasLimit - st.gasUsed && WithinLimit(c, o.state) &&
            o.state.gasUsed == st.gasUsed + (if Commits(o.result) then o.result.value.value else 0)
  {
    var res := c.evm.transact(st.world.db, c.evm.env, a.tx);
    if res.Ok? {
      assert res.value.result.gas <= a.tx.tx.gasLimit;
    }
  }

  /**
   In every state a run of gated transactions reaches, the gas used is the sum of what the committed
   transactions used and at most the block gas limit; so `gas_limit - gas_used` never underflows and
   the sum never overflows.
   */
  lemma {:induction false} GasSafety(c: BlockConfig, st: ExecState, attempts: seq<Attempt>)
    requires RespectsGasLimit(c.evm) && WithinLimit(c, st) && AllGated(c, attempts)
    ensures var end := Run(c, st, attempts);
            WithinLimit(c, end) && Available(c, end) == c.evm.env.block.gasLimit - end.gasUsed &&
            end.gasUsed == st.gasUsed + Sum(Gases(c, st, attempts))
    decreases |attempts|
  {
    if attempts != [] {
      var o := Step(c, st, attempts[0]);
      StepWithinLimit(c, st, attempts[0]);
      GasSafety(c, o.state, attempts[1..]);
      var rest := Gases(c, o.state, attempts[1..]);
      if Commits(o.result) {
        var g := o.result.value.value;
        SumConcat([g], rest);
        assert [g][..0] == [];
      } else {
        assert [] + rest == rest;
      }
    }
  }

  function LastCumulativeGas(receipts: seq<Receipt>): u64 {
    if receipts == [] then 0 else receipts[|receipts| - 1].cumulativeGasUsed
  }

  /** Cumulative gas in the receipts, whichever executor wrote them: the last one is the counter. */
  predicate LastReceiptIsCounter(st: ExecState) {
    st.gasUsed == LastCumulativeGas(st.receipts)
  }

  lemma {:induction false} CounterInReceipts(c: BlockConfig, st: ExecState, attempts: seq<Attempt>)
    requires RecordsGas(c.buildReceipt) && LastReceiptIsCounter(st)
    ensures LastReceiptIsCounter(Run(c, st, attempts))
    decreases |attempts|
  {
    if attempts != [] {
      CounterInReceipts(c, Step(c, st, attempts[0]).state, attempts[1..]);
    }
  }

  // ---- The i-th committed transaction ------------------------------------------------------

  lemma {:induction false} RunGrows(c: BlockConfig, st: ExecState, attempts: seq<Attempt>)
    ensures st.receipts <= Run(c, st, attempts).receipts
    ensures |Run(c, st, attempts).receipts| == |st.receipts| + |Survivors(c, st, attempts)|
    ensures |Gases(c, st, attempts)| == |Survivors(c, st, attempts)|
    ensures st.world.hook.None? <==> Run(c, st, attempts).world.hook.None?
    ensures st.world.hook.Some? ==>
              st.world.hook.value <= Run(c, st, attempts).world.hook.value &&
              |Run(c, st, attempts).world.hook.value| == |st.world.hook.value| + |Survivors(c, st, attempts)|
    decreases |attempts|
  {
    if attempts != [] {
      RunGrows(c, Step(c, st, attempts[0]).state, attempts[1..]);
    }
  }

  /** Transaction `tx` takes `before` to `after`; receipt `n` and hook event `e` of `end` are its own. */
  ghost predicate Recorded(
      c: BlockConfig, tx: Recovered, before: ExecState, after: ExecState, end: ExecState, n: nat, e: int)
  {
    var outcome := c.evm.transact(before.world.db, c.evm.env, tx);
    && outcome.Ok?
    && |before.receipts| == n
    && n < |end.receipts|
    && end.receipts[n] == c.buildReceipt(tx, before.world.db, outcome.value, after.gasUsed)
    && after.gasUsed == AddU64(before.gasUsed, outcome.value.result.gas)
    && after.world.db == Commit(before.world.db, outcome.value.state)
    && (end.world.hook.Some? ==>
        && 0 <= e < |end.world.hook.value|
        && end.world.hook.value[e] == HookEvent(Transaction(n), outcome.value.state))
  }

  function EventCount(hook: Hook): nat { if hook.Some? then |hook.value| else 0 }

  /** In `end`, what the executor writes down for the i-th of the attempts that commit from `st` on. */
  ghost predicate RecordedIn(c: BlockConfig, st: ExecState, survivors: seq<Attempt>, end: ExecState, i: nat)
    requires i < |survivors|
  {
    Recorded(
      c, survivors[i].tx, Run(c, st, survivors[..i]), Run(c, st, survivors[..i + 1]), end,
      |st.receipts| + i, EventCount(st.world.hook) + i)
  }

  ghost predicate RecordedAt(c: BlockConfig, st: ExecState, attempts: seq<Attempt>, i: nat)
    requires i < |Survivors(c, st, attempts)|
  {
    RecordedIn(c, st, Survivors(c, st, attempts), Run(c, st, attempts), i)
  }

  /**
   The i-th committed transaction is executed on the database holding exactly the commits before it;
   its receipt is built against that database, not its own commit, and the hook is told index n, the
   index of the receipt, with no gaps for attempts that failed in between.
   */
  lemma {:induction false} CommittedInOrder(c: BlockConfig, st: ExecState, attempts: seq<Attempt>, i: nat)
    requires i < |Survivors(c, st, attempts)|
    ensures RecordedAt(c, st, attempts, i)
    decreases |attempts|
  {
    var o := Step(c, st, attempts[0]);
    if !Commits(o.result) {
      OnlyCommitsChange(c, st, attempts[0]);
      CommittedInOrder(c, st, attempts[1..], i);
      SkipFirst(c, st, attempts, i);
    } else if i == 0 {
      FirstCommitted(c, st, attempts);
    } else {
      CommittedInOrder(c, o.state, attempts[1..], i - 1);
      LaterCommitted(c, st, attempts, i);
    }
  }

  lemma {:induction false} SkipFirst(c: BlockConfig, st: ExecState, attempts: seq<Attempt>, i: nat)
    requires attempts != [] && !Commits(Step(c, st, attempts[0]).result)
    requires i < |Survivors(c, st, attempts[1..])| && RecordedAt(c, st, attempts[1..], i)
    ensures i < |Survivors(c, st, attempts)| && RecordedAt(c, st, attempts, i)
  {
    OnlyCommitsChange(c, st, attempts[0]);
    assert Survivors(c, st, attempts) == Survivors(c, st, attempts[1..]);
    assert Run(c, st, attempts) == Run(c, st, attempts[1..]);
  }

  /** Without a hook the event index says nothing. */
  lemma {:induction false} SameEvent(
      c: BlockConfig, tx: Recovered, before: ExecState, after: ExecState, end: ExecState, n: nat, e: int, e': int)
    requires Recorded(c, tx, before, after, end, n, e) && (end.world.hook.Some? ==> e == e')
    ensures Recorded(c, tx, before, after, end, n, e')
  {
  }

  lemma {:induction false} CommitCounts(c: BlockConfig, st: ExecState, a: Attempt)
    requires Commits(Step(c, st, a).result)
    ensures var next := Step(c, st, a).state;
            |next.receipts| == |st.receipts| + 1 &&
            EventCount(next.world.hook) == EventCount(st.world.hook) + (if st.world.hook.Some? then 1 else 0)
  {
  }

  lemma {:induction false} ShiftRecord(
      c: BlockConfig, st: ExecState, a: Attempt, rest: seq<Attempt>, end: ExecState, i: nat)
    requires Commits(Step(c, st, a).result) && 0 < i <= |rest|
    requires RecordedIn(c, Step(c, st, a).state, rest, end, i - 1)
    requires st.world.hook.None? ==> end.world.hook.None?
    ensures RecordedIn(c, st, [a] + rest, end, i)
  {
    var next, all := Step(c, st, a).state, [a] + rest;
    UnfoldPrefix(c, st, a, rest, i);
    UnfoldPrefix(c, st, a, rest, i + 1);
    assert all[i] == rest[i - 1];
    CommitCounts(c, st, a);
    var before, after, e := Run(c, st, all[..i]), Run(c, st, all[..i + 1]), EventCount(st.world.hook) + i;
    assert Recorded(c, all[i].tx, before, after, end, |st.receipts| + i, EventCount(next.world.hook) + i - 1);
    SameEvent(c, all[i].tx, before, after, end, |st.receipts| + i, EventCount(next.world.hook) + i - 1, e);
  }

  lemma {:induction false} LaterCommitted(c: BlockConfig, st: ExecState, attempts: seq<Attempt>, i: nat)
    requires attempts != [] && i > 0 && Commits(Step(c, st, attempts[0]).result)
    requires i < |Survivors(c, st, attempts)|
    requires RecordedAt(c, Step(c, st, attempts[0]).state, attempts[1..], i - 1)
    ensures RecordedAt(c, st, attempts, i)
  {
    var rest := Survivors(c, Step(c, st, attempts[0]).state, attempts[1..]);
    assert Survivors(c, st, attempts) == [attempts[0]] + rest;
    RunGrows(c, st, attempts);
    ShiftRecord(c, st, attempts[0], rest, Run(c, st, attempts), i);
  }

  lemma {:induction false} UnfoldPrefix(c: BlockConfig, st: ExecState, a: Attempt, rest: seq<Attempt>, i: nat)
    requires 1 <= i <= |rest| + 1
    ensures Run(c, st, ([a] + rest)[..i]) == Run(c, Step(c, st, a).state, rest[..i - 1])
  {
    assert ([a] + rest)[..i] == [a] + rest[..i - 1];
    assert ([a] + rest[..i - 1])[1..] == rest[..i - 1];
  }

  lemma {:induction false} FirstCommitted(c: BlockConfig, st: ExecState, attempts: seq<Attempt>)
    requires attempts != [] && Commits(Step(c, st, attempts[0]).result)
    ensures |Survivors(c, st, attempts)| > 0 && RecordedAt(c, st, attempts, 0)
  {
    var next := Step(c, st, attempts[0]).state;
    var rest := Survivors(c, next, attempts[1..]);
    UnfoldPrefix(c, st, attempts[0], rest, 1);
    RunGrows(c, next, attempts[1..]);
    assert Run(c, st, attempts) == Run(c, next, attempts[1..]);
    assert ([attempts[0]] + rest)[..0] == [];
    assert rest[..0] == [];
  }

  /** Receipts carry the running sum of gas: each differs from the one before by its own transaction's gas. */
  lemma {:induction false} ReceiptGas(c: BlockConfig, st: ExecState, attempts: seq<Attempt>, i: nat)
    requires RespectsGasLimit(c.evm) && RecordsGas(c.buildReceipt) && WithinLimit(c, st) && AllGated(c, attempts)
    requires i < |Survivors(c, st, attempts)|
    ensures var gases := Gases(c, st, attempts);
            var receipts := Run(c, st, attempts).receipts;
            |gases| == |Survivors(c, st, attempts)| && |receipts| == |st.receipts| + |gases| &&
            receipts[|st.receipts| + i].cumulativeGasUsed == st.gasUsed + Sum(gases[..i + 1])
  {
    CommittedInOrder(c, st, attempts, i);
    RunGrows(c, st, attempts);
    GasOfPrefix(c, st, attempts, i + 1);
  }

  lemma {:induction false} GasOfPrefix(c: BlockConfig, st: ExecState, attempts: seq<Attempt>, i: nat)
    requires RespectsGasLimit(c.evm) && WithinLimit(c, st) && AllGated(c, attempts)
    requires i <= |Survivors(c, st, attempts)|
    ensures |Gases(c, st, attempts)| == |Survivors(c, st, attempts)|
    ensures Run(c, st, Survivors(c, st, attempts)[..i]).gasUsed == st.gasUsed + Sum(Gases(c, st, attempts)[..i])
  {
    GasesOfPrefix(c, st, attempts, i);
    SurvivorsGated(c, st, attempts);
    GasSafety(c, st, Survivors(c, st, attempts)[..i]);
  }

  /** With the standard builder, receipt i tells the type, the success and the logs of the i-th committed transaction. */
  lemma {:induction false} ReceiptContents(c: BlockConfig, st: ExecState, attempts: seq<Attempt>, i: nat)
    requires c.buildReceipt == AlloyBuildReceipt && i < |Survivors(c, st, attempts)|
    ensures var survivors := Survivors(c, st, attempts);
            var before := Run(c, st, survivors[..i]);
            var outcome := c.evm.transact(before.world.db, c.evm.env, survivors[i].tx);
            var receipts := Run(c, st, attempts).receipts;
            outcome.Ok? && |st.receipts| + i < |receipts| &&
            receipts[|st.receipts| + i].ty == survivors[i].tx.tx.ty &&
            match outcome.value.result
            case Success(_, logs, _) => receipts[|st.receipts| + i].success && receipts[|st.receipts| + i].logs == logs
            case _ => !receipts[|st.receipts| + i].success && receipts[|st.receipts| + i].logs == []
  {
    CommittedInOrder(c, st, attempts, i);
  }

  lemma {:induction false} SurvivorsGated(c: BlockConfig, st: ExecState, attempts: seq<Attempt>)
    requires AllGated(c, attempts)
    ensures AllGated(c, Survivors(c, st, attempts))
    decreases |attempts|
  {
    if attempts != [] {
      SurvivorsGated(c, Step(c, st, attempts[0]).state, attempts[1..]);
    }
  }

  lemma {:induction false} GasesOfPrefix(c: BlockConfig, st: ExecState, attempts: seq<Attempt>, i: nat)
    requires i <= |Survivors(c, st, attempts)|
    ensures |Gases(c, st, attempts)| == |Survivors(c, st, attempts)|
    ensures Gases(c, st, Survivors(c, st, attempts)[..i]) == Gases(c, st, attempts)[..i]
    decreases |attempts|
  {
    RunGrows(c, st, attempts);
    if attempts != [] && i > 0 {
      var o := Step(c, st, attempts[0]);
      var rest := Survivors(c, o.state, attempts[1..]);
      if Commits(o.result) {
        GasesOfPrefix(c, o.state, attempts[1..], i - 1);
        assert ([attempts[0]] + rest)[..i] == [attempts[0]] + rest[..i - 1];
        assert ([attempts[0]] + rest[..i - 1])[1..] == rest[..i - 1];
      } else {
        OnlyCommitsChange(c, st, attempts[0]);
        GasesOfPrefix(c, st, attempts[1..], i);
        assert Survivors(c, st, attempts) == rest;
        assert Gases(c, st, attempts) == Gases(c, st, attempts[1..]);
      }
    }
  }

  // ---- Hook --------------------------------------------------------------------------------

  lemma {:induction false} RunTracked(c: BlockConfig, start: Db, skip: nat, st: ExecState, attempts: seq<Attempt>)
    requires TrackedSince(start, skip, st.world)
    ensures TrackedSince(start, skip, Run(c, st, attempts).world)
    decreases |attempts|
  {
    if attempts != [] {
      forall source, cs {
        ReportTracked(start, skip, st.world, source, cs);
      }
      RunTracked(c, start, skip, Step(c, st, attempts[0]).state, attempts[1..]);
    }
  }

  function Unhooked(st: ExecState): ExecState { st.(world := WithoutHook(st.world)) }

  lemma {:induction false} RunIgnoresHook(c: BlockConfig, st: ExecState, attempts: seq<Attempt>)
    ensures Run(c, Unhooked(st), attempts) == Unhooked(Run(c, st, attempts))
    ensures Gases(c, Unhooked(st), attempts) == Gases(c, st, attempts)
    decreases |attempts|
  {
    if attempts != [] {
      var o := Step(c, st, attempts[0]);
      assert Step(c, Unhooked(st), attempts[0]) == Outcome(Unhooked(o.state), o.result);
      RunIgnoresHook(c, o.state, attempts[1..]);
    }
  }

  // ---- The transaction loop of a block -----------------------------------------------------

  /** `execute_transaction_with_result_closure`: always commits, and reports the gas used. */
  function ExecuteTransaction(c: BlockConfig, st: ExecState, tx: Recovered): Outcome<ExecState, u64, BlockError> {
    var o := Step(c, st, Attempt(tx, Always));
    match o.result
    case Err(e) => Outcome(o.state, Err(e))
    case Ok(None) => Outcome(o.state, Ok(0))
    case Ok(Some(gas)) => Outcome(o.state, Ok(gas))
  }

  /** The closure entry point returns the gas of a transaction it has committed, or fails without effect. */
  lemma {:induction false} ClosureAlwaysCommits(c: BlockConfig, st: ExecState, tx: Recovered)
    ensures var o := ExecuteTransaction(c, st, tx);
            var outcome := c.evm.transact(st.world.db, c.evm.env, tx);
            (o.result.Ok? ==>
              outcome.Ok? && o.result.value == outcome.value.result.gas &&
              o.state.world.db == Commit(st.world.db, outcome.value.state) && |o.state.receipts| == |st.receipts| + 1) &&
            (o.result.Err? ==> o.state == st) &&
            (outcome.Ok? && tx.tx.gasLimit <= SubU64(c.evm.env.block.gasLimit, st.gasUsed) ==> o.result.Ok?)
  {
    StepExact(c, st, Attempt(tx, Always));
  }

  /** The loop of `execute_block`: in order, up to the first error. */
  function ExecuteAll(c: BlockConfig, st: ExecState, txs: seq<Recovered>): Outcome<ExecState, (), BlockError>
    decreases |txs|
  {
    if txs == [] then Outcome(st, Ok(()))
    else
      var o := ExecuteTransaction(c, st, txs[0]);
      match o.result
      case Err(e) => Outcome(o.state, Err(e))
      case Ok(_) => ExecuteAll(c, o.state, txs[1..])
  }

  function AttemptsOf(txs: seq<Recovered>): seq<Attempt> {
    seq(|txs|, i requires 0 <= i < |txs| => Attempt(txs[i], Always))
  }

  /** The loop reaches the state of a run: all transactions committed, or all before the one that is its error. */
  lemma {:induction false} LoopIsRun(c: BlockConfig, st: ExecState, txs: seq<Recovered>) returns (k: nat)
    ensures k <= |txs|
    ensures var o := ExecuteAll(c, st, txs);
            o.state == Run(c, st, AttemptsOf(txs)[..k]) &&
            Survivors(c, st, AttemptsOf(txs)[..k]) == AttemptsOf(txs)[..k] &&
            (if k == |txs| then o.result.Ok?
             else o.result.Err? && Step(c, o.state, AttemptsOf(txs)[k]).result == Err(o.result.error))
    decreases |txs|
  {
    k := 0;
    if txs != [] {
      var attempts := AttemptsOf(txs);
      var o := Step(c, st, attempts[0]);
      LoopUnfolds(c, st, txs);
      if o.result.Ok? {
        var j := LoopIsRun(c, o.state, txs[1..]);
        k := j + 1;
        assert attempts[..k] == [attempts[0]] + AttemptsOf(txs[1..])[..j];
        assert attempts[..k][1..] == AttemptsOf(txs[1..])[..j];
      } else {
        assert attempts[..0] == [];
      }
    }
  }

  lemma {:induction false} LoopUnfolds(c: BlockConfig, st: ExecState, txs: seq<Recovered>)
    requires txs != []
    ensures var a := AttemptsOf(txs)[0];
            var o := Step(c, st, a);
            AttemptsOf(txs) == [a] + AttemptsOf(txs[1..]) &&
            if o.result.Ok? then Commits(o.result) && ExecuteAll(c, st, txs) == ExecuteAll(c, o.state, txs[1..])
            else ExecuteAll(c, st, txs) == Outcome(st, Err(o.result.error))
  {
    OnlyCommitsChange(c, st, AttemptsOf(txs)[0]);
  }
}
