/** System contract calls around a block, and the hook told about each state change. */
module SystemCalls {
  import opened Common
  import opened State
  import opened Hardforks
  import opened Evm

  datatype Source =
    | Transaction(index: nat)
    | BlockHashesContract
    | BeaconRootContract
    | WithdrawalRequestsContract
    | ConsolidationRequestsContract
    | BalanceIncrements

  datatype HookEvent = HookEvent(source: Source, state: ChangeSet)

  /** The events a hook has been told, oldest first; `None` when no hook is installed. */
  type Hook = Option<seq<HookEvent>>

  /** What system calls act on. */
  datatype World = World(db: Db, hook: Hook)

  type Requests = seq<Bytes>

  const SYSTEM_ADDRESS: Address := Address(0xfffffffffffffffffffffffffffffffffffffffe)
  const HISTORY_STORAGE_ADDRESS: Address := Address(0x0000f90827f1c53a10cb7a02335b175320002935)
  const BEACON_ROOTS_ADDRESS: Address := Address(0x000f3df6d732807ef1319fb7b8bb8522d0beac02)
  const WITHDRAWAL_REQUEST_ADDRESS: Address := Address(0x00000961ef480eb55e80d19ad83579a64c007002)
  const CONSOLIDATION_REQUEST_ADDRESS: Address := Address(0x0000bbddc7ce488642fb579f8b00f3a590007251)

  const DEPOSIT_REQUEST_TYPE: byte := 0
  const WITHDRAWAL_REQUEST_TYPE: byte := 1
  const CONSOLIDATION_REQUEST_TYPE: byte := 2

  function Report(hook: Hook, source: Source, cs: ChangeSet): Hook {
    match hook
    case None => None
    case Some(events) => Some(events + [HookEvent(source, cs)])
  }

  /** Reports a change set, then commits it. */
  function ReportAndCommit(w: World, source: Source, cs: ChangeSet): World {
    World(Commit(w.db, cs), Report(w.hook, source, cs))
  }

  // ---- Gates -------------------------------------------------------------------------------

  /** The timestamp the pre-block gates use: seconds, whatever the unit of the block. */
  function GateSeconds(evm: Evm): u64 {
    var t := SaturatingU64(evm.env.block.timestamp);
    if evm.timestampInSeconds then t else t / 1000
  }

  /** The timestamp the post-block gates use: the block's own, unscaled. */
  function RawTimestamp(evm: Evm): u64 {
    SaturatingU64(evm.env.block.timestamp)
  }

  /**
   In a build with millisecond timestamps a fork at time T counts as active for the post-block gates
   and not yet for the pre-block ones exactly while T <= timestamp < 1000 T; it is never the other
   way round.
   */
  lemma {:induction false} GatesDisagreeExactly(evm: Evm, fork: ForkCondition)
    requires !evm.timestampInSeconds
    ensures fork.ActiveAtTimestamp(GateSeconds(evm)) ==> fork.ActiveAtTimestamp(RawTimestamp(evm))
    ensures fork.ActiveAtTimestamp(GateSeconds(evm)) != fork.ActiveAtTimestamp(RawTimestamp(evm)) <==>
            fork.AtTimestamp? && fork.time <= RawTimestamp(evm) < 1000 * fork.time
  {
  }

  // ---- The four calls ----------------------------------------------------------------------

  function TransactBlockhashes(spec: ChainSpec, parentHash: Hash, evm: Evm, db: Db)
    : Result<Option<ResultAndState>, BlockError>
  {
    if !spec.prague.ActiveAtTimestamp(GateSeconds(evm)) then Ok(None)
    else if evm.env.block.number == 0 then Ok(None)
    else match evm.systemCall(db, evm.env, SYSTEM_ADDRESS, HISTORY_STORAGE_ADDRESS, Word(parentHash))
      case Ok(res) => Ok(Some(res))
      case Err(e) => Err(BlockHashContractCall(e))
  }

  function TransactBeaconRoot(spec: ChainSpec, parentRoot: Option<Hash>, evm: Evm, db: Db)
    : Result<Option<ResultAndState>, BlockError>
  {
    if !spec.cancun.ActiveAtTimestamp(GateSeconds(evm)) then Ok(None)
    else match parentRoot
      case None => Err(MissingParentBeaconBlockRoot)
      case Some(root) =>
        if evm.env.block.number == 0 then
          if root != 0 then Err(GenesisBeaconRootNotZero(root)) else Ok(None)
        else match evm.systemCall(db, evm.env, SYSTEM_ADDRESS, BEACON_ROOTS_ADDRESS, Word(root))
          case Ok(res) => Ok(Some(res))
          case Err(e) => Err(BeaconRootContractCall(root, e))
  }

  function ApplyPreCall(w: World, source: Source, res: Result<Option<ResultAndState>, BlockError>)
    : Outcome<World, (), BlockError>
  {
    match res
    case Err(e) => Outcome(w, Err(e))
    case Ok(None) => Outcome(w, Ok(()))
    case Ok(Some(r)) => Outcome(ReportAndCommit(w, source, r.state), Ok(()))
  }

  function ApplyBlockhashes(spec: ChainSpec, parentHash: Hash, evm: Evm, w: World): Outcome<World, (), BlockError> {
    ApplyPreCall(w, BlockHashesContract, TransactBlockhashes(spec, parentHash, evm, w.db))
  }

  function ApplyBeaconRoot(spec: ChainSpec, parentRoot: Option<Hash>, evm: Evm, w: World)
    : Outcome<World, (), BlockError>
  {
    ApplyPreCall(w, BeaconRootContract, TransactBeaconRoot(spec, parentRoot, evm, w.db))
  }

  /** Reads the requests out of the result of a call already committed. */
  function PostCommit(result: ExecutionResult): Result<Bytes, CallFailure> {
    match result
    case Success(_, _, output) => Ok(output)
    case Revert(_, output) => Err(Reverted(output))
    case Halt(_, reason) => Err(Halted(reason))
  }

  function PostCall(evm: Evm, contract: Address, source: Source, w: World): Outcome<World, Bytes, CallFailure> {
    match evm.systemCall(w.db, evm.env, SYSTEM_ADDRESS, contract, NoData)
    case Err(e) => Outcome(w, Err(ExecutionFailed(e)))
    case Ok(res) => Outcome(ReportAndCommit(w, source, res.state), PostCommit(res.result))
  }

  function ApplyWithdrawalRequests(evm: Evm, w: World): Outcome<World, Bytes, BlockError> {
    var o := PostCall(evm, WITHDRAWAL_REQUEST_ADDRESS, WithdrawalRequestsContract, w);
    match o.result
    case Ok(b) => Outcome(o.state, Ok(b))
    case Err(f) => Outcome(o.state, Err(WithdrawalRequestsContractCall(f)))
  }

  function ApplyConsolidationRequests(evm: Evm, w: World): Outcome<World, Bytes, BlockError> {
    var o := PostCall(evm, CONSOLIDATION_REQUEST_ADDRESS, ConsolidationRequestsContract, w);
    match o.result
    case Ok(b) => Outcome(o.state, Ok(b))
    case Err(f) => Outcome(o.state, Err(ConsolidationRequestsContractCall(f)))
  }

  /** Pushes a request, its payload behind a type byte, unless the payload is empty. */
  function PushRequest(requests: Requests, ty: byte, payload: Bytes): Requests {
    if payload == [] then requests else requests + [[ty] + payload]
  }

  function ApplyPostExecution(evm: Evm, w: World): Outcome<World, Requests, BlockError> {
    var o1 := ApplyWithdrawalRequests(evm, w);
    match o1.result
    case Err(e) => Outcome(o1.state, Err(e))
    case Ok(withdrawals) =>
      var o2 := ApplyConsolidationRequests(evm, o1.state);
      match o2.result
      case Err(e) => Outcome(o2.state, Err(e))
      case Ok(consolidations) =>
        Outcome(o2.state, Ok(PushRequest(
          PushRequest([], WITHDRAWAL_REQUEST_TYPE, withdrawals), CONSOLIDATION_REQUEST_TYPE, consolidations)))
  }

  // ---- The caller object -------------------------------------------------------------------

  class SystemCaller {
    const spec: ChainSpec
    var hook: Hook

    constructor (spec: ChainSpec)
      ensures this.spec == spec && hook == None
    {
      this.spec := spec;
      hook := None;
    }

    method WithStateHook(h: Hook)
      modifies this
      ensures hook == h
    {
      hook := h;
    }

    method OnState(source: Source, state: ChangeSet)
      modifies this
      ensures hook == Report(old(hook), source, state)
    {
      if hook.Some? {
        hook := Some(hook.value + [HookEvent(source, state)]);
      }
    }

    method ApplyBlockhashesContractCall(parentHash: Hash, evm: Evm, db: StateDb)
      returns (r: Result<(), BlockError>)
      modifies this, db
      ensures Outcome(World(db.view, hook), r) == ApplyBlockhashes(spec, parentHash, evm, old(World(db.view, hook)))
    {
      var res := TransactBlockhashes(spec, parentHash, evm, db.view);
      match res {
        case Err(e) => return Err(e);
        case Ok(None) =>
        case Ok(Some(ras)) =>
          OnState(BlockHashesContract, ras.state);
          db.CommitChanges(ras.state);
      }
      r := Ok(());
    }

    method ApplyBeaconRootContractCall(parentRoot: Option<Hash>, evm: Evm, db: StateDb)
      returns (r: Result<(), BlockError>)
      modifies this, db
      ensures Outcome(World(db.view, hook), r) == ApplyBeaconRoot(spec, parentRoot, evm, old(World(db.view, hook)))
    {
      var res := TransactBeaconRoot(spec, parentRoot, evm, db.view);
      match res {
        case Err(e) => return Err(e);
        case Ok(None) =>
        case Ok(Some(ras)) =>
          OnState(BeaconRootContract, ras.state);
          db.CommitChanges(ras.state);
      }
      r := Ok(());
    }

    method ApplyWithdrawalRequestsContractCall(evm: Evm, db: StateDb) returns (r: Result<Bytes, BlockError>)
      modifies this, db
      ensures Outcome(World(db.view, hook), r) == ApplyWithdrawalRequests(evm, old(World(db.view, hook)))
    {
      var res := evm.systemCall(db.view, evm.env, SYSTEM_ADDRESS, WITHDRAWAL_REQUEST_ADDRESS, NoData);
      match res {
        case Err(e) => r := Err(WithdrawalRequestsContractCall(ExecutionFailed(e)));
        case Ok(ras) =>
          OnState(WithdrawalRequestsContract, ras.state);
          db.CommitChanges(ras.state);
          match PostCommit(ras.result) {
            case Ok(output) => r := Ok(output);
            case Err(f) => r := Err(WithdrawalRequestsContractCall(f));
          }
      }
    }

    method ApplyConsolidationRequestsContractCall(evm: Evm, db: StateDb) returns (r: Result<Bytes, BlockError>)
      modifies this, db
      ensures Outcome(World(db.view, hook), r) == ApplyConsolidationRequests(evm, old(World(db.view, hook)))
    {
      var res := evm.systemCall(db.view, evm.env, SYSTEM_ADDRESS, CONSOLIDATION_REQUEST_ADDRESS, NoData);
      match res {
        case Err(e) => r := Err(ConsolidationRequestsContractCall(ExecutionFailed(e)));
        case Ok(ras) =>
          OnState(ConsolidationRequestsContract, ras.state);
          db.CommitChanges(ras.state);
          match PostCommit(ras.result) {
            case Ok(output) => r := Ok(output);
            case Err(f) => r := Err(ConsolidationRequestsContractCall(f));
          }
      }
    }

    method ApplyPostExecutionChanges(evm: Evm, db: StateDb) returns (r: Result<Requests, BlockError>)
      modifies this, db
      ensures Outcome(World(db.view, hook), r) == ApplyPostExecution(evm, old(World(db.view, hook)))
    {
      var requests: Requests := [];
      var withdrawals := ApplyWithdrawalRequestsContractCall(evm, db);
      if withdrawals.Err? {
        return Err(withdrawals.error);
      }
      if withdrawals.value != [] {
        requests := requests + [[WITHDRAWAL_REQUEST_TYPE] + withdrawals.value];
      }
      var consolidations := ApplyConsolidationRequestsContractCall(evm, db);
      if consolidations.Err? {
        return Err(consolidations.error);
      }
      if consolidations.value != [] {
        requests := requests + [[CONSOLIDATION_REQUEST_TYPE] + consolidations.value];
      }
      r := Ok(requests);
    }
  }

  // ---- Replaying the hook log --------------------------------------------------------------

  /** Commits the reported change sets in order. */
  function Replay(db: Db, events: seq<HookEvent>): Db {
    if events == [] then db else Commit(Replay(db, events[..|events| - 1]), events[|events| - 1].state)
  }

  lemma {:induction false} ReplayConcat(db: Db, xs: seq<HookEvent>, ys: seq<HookEvent>)
    ensures Replay(db, xs + ys) == Replay(Replay(db, xs), ys)
    decreases |ys|
  {
    if ys == [] {
      assert xs + ys == xs;
    } else {
      assert (xs + ys)[..|xs + ys| - 1] == xs + ys[..|ys| - 1];
      ReplayConcat(db, xs, ys[..|ys| - 1]);
    }
  }

  /** The log from event `skip` on, replayed over `start`, gives the database as it is. */
  ghost predicate TrackedSince(start: Db, skip: nat, w: World) {
    w.hook.Some? && skip <= |w.hook.value| && Replay(start, w.hook.value[skip..]) == w.db
  }

  /** The whole log, replayed over `start`, gives the database as it is. */
  ghost predicate Tracked(start: Db, w: World) { TrackedSince(start, 0, w) }

  lemma {:induction false} ReplayReport(start: Db, skip: nat, events: seq<HookEvent>, e: HookEvent)
    requires skip <= |events|
    ensures Replay(start, (events + [e])[skip..]) == Commit(Replay(start, events[skip..]), e.state)
  {
    var kept := events[skip..];
    assert (events + [e])[skip..] == kept + [e];
    assert (kept + [e])[..|kept|] == kept;
  }

  lemma {:induction false} ReportTracked(start: Db, skip: nat, w: World, source: Source, cs: ChangeSet)
    requires TrackedSince(start, skip, w)
    ensures TrackedSince(start, skip, ReportAndCommit(w, source, cs))
  {
    ReplayReport(start, skip, w.hook.value, HookEvent(source, cs));
  }

  lemma {:induction false} PreCallsTracked(
      spec: ChainSpec, parentHash: Hash, parentRoot: Option<Hash>, evm: Evm, start: Db, w: World)
    requires Tracked(start, w)
    ensures Tracked(start, ApplyBlockhashes(spec, parentHash, evm, w).state)
    ensures Tracked(start, ApplyBeaconRoot(spec, parentRoot, evm, w).state)
  {
    forall source, cs {
      ReportTracked(start, 0, w, source, cs);
    }
  }

  lemma {:induction false} PostCallTracked(evm: Evm, contract: Address, source: Source, start: Db, w: World)
    requires Tracked(start, w)
    ensures Tracked(start, PostCall(evm, contract, source, w).state)
  {
    forall cs {
      ReportTracked(start, 0, w, source, cs);
    }
  }

  lemma {:induction false} PostExecutionTracked(evm: Evm, start: Db, w: World)
    requires Tracked(start, w)
    ensures Tracked(start, ApplyPostExecution(evm, w).state)
  {
    PostCallTracked(evm, WITHDRAWAL_REQUEST_ADDRESS, WithdrawalRequestsContract, start, w);
    PostCallTracked(
      evm, CONSOLIDATION_REQUEST_ADDRESS, ConsolidationRequestsContract, start, ApplyWithdrawalRequests(evm, w).state);
  }

  // ---- Sources, in order -------------------------------------------------------------------

  function Sources(hook: Hook): seq<Source> {
    if hook.None? then [] else seq(|hook.value|, i requires 0 <= i < |hook.value| => hook.value[i].source)
  }

  lemma {:induction false} ReportSources(w: World, source: Source, cs: ChangeSet)
    requires w.hook.Some?
    ensures ReportAndCommit(w, source, cs).hook.Some?
    ensures Sources(ReportAndCommit(w, source, cs).hook) == Sources(w.hook) + [source]
  {
  }

  /** The calls a block makes before its transactions. */
  function PreSources(spec: ChainSpec, evm: Evm): seq<Source> {
    (if spec.prague.ActiveAtTimestamp(GateSeconds(evm)) && evm.env.block.number != 0 then [BlockHashesContract] else [])
    + (if spec.cancun.ActiveAtTimestamp(GateSeconds(evm)) && evm.env.block.number != 0 then [BeaconRootContract] else [])
  }

  lemma {:induction false} PreCallSources(spec: ChainSpec, parentHash: Hash, parentRoot: Option<Hash>, evm: Evm, w: World)
    requires w.hook.Some?
    ensures var o1 := ApplyBlockhashes(spec, parentHash, evm, w);
            o1.state.hook.Some? &&
            (o1.result.Ok? ==>
              var o2 := ApplyBeaconRoot(spec, parentRoot, evm, o1.state);
              o2.state.hook.Some? &&
              (o2.result.Ok? ==> Sources(o2.state.hook) == Sources(w.hook) + PreSources(spec, evm)))
  {
    forall v: World, source, cs | v.hook.Some? {
      ReportSources(v, source, cs);
    }
  }

  lemma {:induction false} PostExecutionSources(evm: Evm, w: World)
    requires w.hook.Some? && ApplyPostExecution(evm, w).result.Ok?
    ensures ApplyPostExecution(evm, w).state.hook.Some?
    ensures Sources(ApplyPostExecution(evm, w).state.hook)
         == Sources(w.hook) + [WithdrawalRequestsContract, ConsolidationRequestsContract]
  {
    forall v: World, source, cs | v.hook.Some? {
      ReportSources(v, source, cs);
    }
  }

  // ---- The hook is only an observer --------------------------------------------------------

  function WithoutHook(w: World): World { w.(hook := None) }

  lemma {:induction false} PreCallsIgnoreHook(spec: ChainSpec, parentHash: Hash, parentRoot: Option<Hash>, evm: Evm, w: World)
    ensures var (a, b) := (ApplyBlockhashes(spec, parentHash, evm, w), ApplyBeaconRoot(spec, parentRoot, evm, w));
            ApplyBlockhashes(spec, parentHash, evm, WithoutHook(w)) == Outcome(WithoutHook(a.state), a.result) &&
            ApplyBeaconRoot(spec, parentRoot, evm, WithoutHook(w)) == Outcome(WithoutHook(b.state), b.result)
  {
  }

  lemma {:induction false} PostExecutionIgnoresHook(evm: Evm, w: World)
    ensures var o := ApplyPostExecution(evm, w);
            ApplyPostExecution(evm, WithoutHook(w)) == Outcome(WithoutHook(o.state), o.result)
  {
  }
}
