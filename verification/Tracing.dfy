/** Tracing a list of transactions one by one, with a look ahead that decides the last commit. */
module Tracing {
  import opened Common
  import opened State
  import opened Evm

  /** What the hook is shown: the transaction, its outcome, the inspector and the database before the commit. */
  datatype TracingCtx<I> = TracingCtx(
    tx: Recovered, result: ExecutionResult, state: ChangeSet, inspector: I, db: Db)

  /** What the hook leaves behind; `wasFused` records a call of `take_inspector`. */
  datatype HookReturn<I, O> = HookReturn(output: O, inspector: I, db: Db, wasFused: bool)

  datatype Tracer<!I, !O> = Tracer(
    transact: (Db, I, Recovered) -> (EvmOutcome, I),
    hook: TracingCtx<I> -> HookReturn<I, O>,
    fusedInspector: I, skipLastCommit: bool, fuse: bool)

  datatype TracerState<I> = TracerState(db: Db, inspector: I, txs: seq<Recovered>)

  /** `TracerIter::next`. */
  function Next<I, O>(t: Tracer<I, O>, s: TracerState<I>): (TracerState<I>, Option<O>) {
    if s.txs == [] then (s, None)
    else
      var (outcome, inspector) := t.transact(s.db, s.inspector, s.txs[0]);
      var rest := s.txs[1..];
      match outcome
      case Err(_) => (TracerState(s.db, inspector, rest), None)
      case Ok(res) =>
        var h := t.hook(TracingCtx(s.txs[0], res.result, res.state, inspector, s.db));
        var db := if !t.skipLastCommit || rest != [] then Commit(h.db, res.state) else h.db;
        var next := if t.fuse && !h.wasFused then t.fusedInspector else h.inspector;
        (TracerState(db, next, rest), Some(h.output))
  }

  /** Calling `next` until it first answers `None`: the state left and the items yielded. */
  function Consume<I, O>(t: Tracer<I, O>, s: TracerState<I>): (TracerState<I>, seq<O>)
    decreases |s.txs|
  {
    if s.txs == [] then (s, [])
    else
      var (next, item) := Next(t, s);
      match item
      case None => (next, [])
      case Some(o) => var (end, items) := Consume(t, next); (end, [o] + items)
  }

  class TracerIter<I, O> {
    const tracer: Tracer<I, O>
    const db: StateDb
    var inspector: I
    var txs: seq<Recovered>

    function View(): TracerState<I>
      reads this, db
    {
      TracerState(db.view, inspector, txs)
    }

    constructor (tracer: Tracer<I, O>, db: StateDb, inspector: I, txs: seq<Recovered>)
      ensures this.tracer == tracer && this.db == db && View() == TracerState(db.view, inspector, txs)
    {
      this.tracer, this.db, this.inspector, this.txs := tracer, db, inspector, txs;
    }

    method NextItem() returns (r: Option<O>)
      modifies this, db
      ensures (View(), r) == Next(tracer, old(View()))
    {
      if txs == [] {
        return None;
      }
      var tx := txs[0];
      txs := txs[1..];
      var (outcome, seen) := tracer.transact(db.view, inspector, tx);
      inspector := seen;
      if outcome.Err? {
        return None;
      }
      var res := outcome.value;
      var h := tracer.hook(TracingCtx(tx, res.result, res.state, inspector, db.view));
      db.view := h.db;
      inspector := h.inspector;
      if !tracer.skipLastCommit || txs != [] {
        db.CommitChanges(res.state);
      }
      if tracer.fuse && !h.wasFused {
        inspector := tracer.fusedInspector;
      }
      r := Some(h.output);
    }
  }

  // ---- Reference: every transaction committed, no look ahead -------------------------------

  /** The hook is shown the transaction, its outcome, the inspector that ran and the database before the commit. */
  function Shown<I, O>(t: Tracer<I, O>, db: Db, tx: Recovered, res: ResultAndState, inspector: I): HookReturn<I, O> {
    t.hook(TracingCtx(tx, res.result, res.state, inspector, db))
  }

  /** The database and inspector transaction `i` meets when each one before it has been committed. */
  function Before<I, O>(t: Tracer<I, O>, s: TracerState<I>, i: nat): (Db, I)
    requires i <= |s.txs|
    decreases i
  {
    if i == 0 then (s.db, s.inspector)
    else
      var (outcome, inspector) := t.transact(s.db, s.inspector, s.txs[0]);
      match outcome
      case Err(_) => (s.db, inspector)
      case Ok(res) => Before(t, AfterFirst(t, s, res, inspector), i - 1)
  }

  function AfterFirst<I, O>(t: Tracer<I, O>, s: TracerState<I>, res: ResultAndState, inspector: I): TracerState<I>
    requires s.txs != []
  {
    var h := Shown(t, s.db, s.txs[0], res, inspector);
    TracerState(Commit(h.db, res.state), if !t.fuse || h.wasFused then h.inspector else t.fusedInspector, s.txs[1..])
  }

  /** How many transactions execute before the first that fails. */
  function Executable<I, O>(t: Tracer<I, O>, s: TracerState<I>): (k: nat)
    ensures k <= |s.txs|
    decreases |s.txs|
  {
    if s.txs == [] then 0
    else
      var (outcome, inspector) := t.transact(s.db, s.inspector, s.txs[0]);
      match outcome
      case Err(_) => 0
      case Ok(res) => 1 + Executable(t, AfterFirst(t, s, res, inspector))
  }

  /** What transaction `i` returns when it meets the state `Before` gives. */
  function OutcomeAt<I, O>(t: Tracer<I, O>, s: TracerState<I>, i: nat): (EvmOutcome, I)
    requires i < |s.txs|
  {
    var (db, inspector) := Before(t, s, i);
    t.transact(db, inspector, s.txs[i])
  }

  /** What the hook leaves behind after being shown transaction `i` on the database before its commit. */
  function ShownAt<I, O>(t: Tracer<I, O>, s: TracerState<I>, i: nat): HookReturn<I, O>
    requires i < |s.txs| && OutcomeAt(t, s, i).0.Ok?
  {
    var (outcome, inspector) := OutcomeAt(t, s, i);
    Shown(t, Before(t, s, i).0, s.txs[i], outcome.value, inspector)
  }

  lemma {:induction false} LaterAlike<I, O>(
      t: Tracer<I, O>, s: TracerState<I>, res: ResultAndState, inspector: I, i: nat)
    requires s.txs != [] && t.transact(s.db, s.inspector, s.txs[0]) == (Ok(res), inspector)
    requires i < |s.txs| - 1
    ensures OutcomeAt(t, s, i + 1) == OutcomeAt(t, AfterFirst(t, s, res, inspector), i)
    ensures OutcomeAt(t, s, i + 1).0.Ok? ==> ShownAt(t, s, i + 1) == ShownAt(t, AfterFirst(t, s, res, inspector), i)
  {
  }

  /** Item i is what the hook yields for transaction i, for each transaction that executes. */
  ghost predicate ShowsAll<I, O>(t: Tracer<I, O>, s: TracerState<I>, items: seq<O>) {
    var k := Executable(t, s);
    && |items| == k
    && (forall i :: 0 <= i < k ==> OutcomeAt(t, s, i).0.Ok? && items[i] == ShownAt(t, s, i).output)
    && (k < |s.txs| ==> OutcomeAt(t, s, k).0.Err?)
  }

  lemma {:induction false} ShowsOneMore<I, O>(
      t: Tracer<I, O>, s: TracerState<I>, res: ResultAndState, inspector: I, items: seq<O>)
    requires s.txs != [] && t.transact(s.db, s.inspector, s.txs[0]) == (Ok(res), inspector)
    requires ShowsAll(t, AfterFirst(t, s, res, inspector), items)
    ensures ShowsAll(t, s, [Shown(t, s.db, s.txs[0], res, inspector).output] + items)
  {
    var next := AfterFirst(t, s, res, inspector);
    var all := [Shown(t, s.db, s.txs[0], res, inspector).output] + items;
    forall i | 1 <= i < |all|
      ensures OutcomeAt(t, s, i).0.Ok? && all[i] == ShownAt(t, s, i).output
    {
      LaterAlike(t, s, res, inspector, i - 1);
    }
    if |items| < |next.txs| {
      LaterAlike(t, s, res, inspector, |items|);
    }
  }

  lemma {:induction false} ConsumeLast<I, O>(t: Tracer<I, O>, s: TracerState<I>)
    requires |s.txs| == 1 && t.transact(s.db, s.inspector, s.txs[0]).0.Ok?
    ensures Executable(t, s) == 1 && OutcomeAt(t, s, 0).0.Ok?
    ensures Consume(t, s).1 == [ShownAt(t, s, 0).output]
    ensures Consume(t, s).0.db == if t.skipLastCommit then ShownAt(t, s, 0).db else Before(t, s, 1).0
  {
    var (outcome, inspector) := t.transact(s.db, s.inspector, s.txs[0]);
    assert ShownAt(t, s, 0) == Shown(t, s.db, s.txs[0], outcome.value, inspector);
  }

  lemma {:induction false} ConsumeFirst<I, O>(t: Tracer<I, O>, s: TracerState<I>, res: ResultAndState, inspector: I)
    requires |s.txs| > 1 && t.transact(s.db, s.inspector, s.txs[0]) == (Ok(res), inspector)
    ensures var (end, items) := Consume(t, AfterFirst(t, s, res, inspector));
            Consume(t, s) == (end, [Shown(t, s.db, s.txs[0], res, inspector).output] + items)
  {
    assert Next(t, s) == (AfterFirst(t, s, res, inspector), Some(Shown(t, s.db, s.txs[0], res, inspector).output));
  }

  /**
   Item i is executed and shown with exactly transactions 0 to i - 1 committed, whatever the hook does.
   Stopping on an error at index k leaves exactly k commits in both modes; running out of n > 0
   transactions leaves n of them, or n - 1 and what the hook wrote last when the last commit is skipped.
   */
  lemma {:induction false} ConsumeExact<I, O>(t: Tracer<I, O>, s: TracerState<I>)
    ensures var (end, items) := Consume(t, s);
            var k := Executable(t, s);
            var n := |s.txs|;
            ShowsAll(t, s, items) &&
            end.db == if k == n && n > 0 && t.skipLastCommit then ShownAt(t, s, n - 1).db else Before(t, s, k).0
    decreases |s.txs|
  {
    if s.txs != [] {
      var (outcome, inspector) := t.transact(s.db, s.inspector, s.txs[0]);
      if outcome.Ok? {
        var res := outcome.value;
        var next := AfterFirst(t, s, res, inspector);
        if s.txs[1..] == [] {
          ConsumeLast(t, s);
        } else {
          ConsumeFirst(t, s, res, inspector);
          ConsumeExact(t, next);
          ShowsOneMore(t, s, res, inspector, Consume(t, next).1);
          LaterAlike(t, s, res, inspector, |next.txs| - 1);
        }
      }
    }
  }

  /**
   After an error at index k the transactions from k + 1 on are still there to be traced, with the
   inspector as the failed one left it; otherwise none is left.
   */
  lemma {:induction false} ConsumeLeaves<I, O>(t: Tracer<I, O>, s: TracerState<I>)
    ensures var end := Consume(t, s).0;
            var (k, n) := (Executable(t, s), |s.txs|);
            end.txs == (if k < n then s.txs[k + 1..] else []) &&
            end.inspector == if k < n then OutcomeAt(t, s, k).1 else Before(t, s, n).1
    decreases |s.txs|
  {
    if s.txs != [] {
      var (outcome, inspector) := t.transact(s.db, s.inspector, s.txs[0]);
      if outcome.Ok? {
        var next := AfterFirst(t, s, outcome.value, inspector);
        if s.txs[1..] == [] {
          ConsumeLast(t, s);
        } else {
          ConsumeFirst(t, s, outcome.value, inspector);
          ConsumeLeaves(t, next);
          if Executable(t, next) < |next.txs| {
            LaterAlike(t, s, outcome.value, inspector, Executable(t, next));
          }
        }
      }
    }
  }

  /** The hook looks at the database but does not write it. */
  ghost predicate ReadsOnly<I(!new), O>(t: Tracer<I, O>) {
    forall ctx :: t.hook(ctx).db == ctx.db
  }

  /** The change sets of the transactions that execute, in order. */
  function ChangeSets<I, O>(t: Tracer<I, O>, s: TracerState<I>): seq<ChangeSet>
    decreases |s.txs|
  {
    if s.txs == [] then []
    else
      var (outcome, inspector) := t.transact(s.db, s.inspector, s.txs[0]);
      match outcome
      case Err(_) => []
      case Ok(res) => [res.state] + ChangeSets(t, AfterFirst(t, s, res, inspector))
  }

  function CommitAll(db: Db, sets: seq<ChangeSet>): Db
    decreases |sets|
  {
    if sets == [] then db else CommitAll(Commit(db, sets[0]), sets[1..])
  }

  lemma {:induction false} BeforeIsCommits<I(!new), O>(t: Tracer<I, O>, s: TracerState<I>, i: nat)
    requires ReadsOnly(t) && i <= Executable(t, s)
    ensures |ChangeSets(t, s)| == Executable(t, s)
    ensures Before(t, s, i).0 == CommitAll(s.db, ChangeSets(t, s)[..i])
    decreases |s.txs|
  {
    if s.txs != [] {
      var (outcome, inspector) := t.transact(s.db, s.inspector, s.txs[0]);
      if outcome.Ok? {
        var res := outcome.value;
        var next := AfterFirst(t, s, res, inspector);
        assert Shown(t, s.db, s.txs[0], res, inspector).db == s.db;
        var sets := [res.state] + ChangeSets(t, next);
        if i > 0 {
          BeforeIsCommits(t, next, i - 1);
          assert sets[..i][1..] == ChangeSets(t, next)[..i - 1];
        } else {
          BeforeIsCommits(t, next, 0);
        }
      }
    }
  }

  /**
   With a hook that only reads, what is left is the initial database with change sets committed and
   nothing else: k of them after an error at index k, and n or n - 1 at the end of n transactions.
   */
  lemma {:induction false} ReadingHookCommits<I(!new), O>(t: Tracer<I, O>, s: TracerState<I>)
    requires ReadsOnly(t)
    ensures var k := Executable(t, s);
            var n := |s.txs|;
            var committed := if k == n && n > 0 && t.skipLastCommit then n - 1 else k;
            committed <= |ChangeSets(t, s)| == k &&
            Consume(t, s).0.db == CommitAll(s.db, ChangeSets(t, s)[..committed]) &&
            forall i :: 0 <= i < k ==> Before(t, s, i).0 == CommitAll(s.db, ChangeSets(t, s)[..i])
  {
    var k := Executable(t, s);
    ConsumeExact(t, s);
    forall i | 0 <= i <= k
      ensures |ChangeSets(t, s)| == k && Before(t, s, i).0 == CommitAll(s.db, ChangeSets(t, s)[..i])
    {
      BeforeIsCommits(t, s, i);
    }
    BeforeIsCommits(t, s, k);
    if k > 0 {
      assert ShownAt(t, s, k - 1).db == Before(t, s, k - 1).0;
    }
  }

  /** A hook that reports `take_inspector` leaves the fused inspector behind. */
  ghost predicate FusesHonestly<I(!new), O>(t: Tracer<I, O>) {
    forall ctx :: t.hook(ctx).wasFused ==> t.hook(ctx).inspector == t.fusedInspector
  }

  /**
   With fusing on, the inspector is the fused one after every item yielded, and every transaction of
   a run that starts fused is executed under the fused inspector.
   */
  lemma {:induction false} AlwaysFused<I(!new), O>(t: Tracer<I, O>, s: TracerState<I>, i: nat)
    requires t.fuse && FusesHonestly(t)
    requires s.inspector == t.fusedInspector && i <= Executable(t, s)
    ensures Next(t, s).1.Some? ==> Next(t, s).0.inspector == t.fusedInspector
    ensures Before(t, s, i).1 == t.fusedInspector
    decreases i
  {
    if s.txs != [] {
      var (outcome, inspector) := t.transact(s.db, s.inspector, s.txs[0]);
      if outcome.Ok? && i > 0 {
        AlwaysFused(t, AfterFirst(t, s, outcome.value, inspector), i - 1);
      }
    }
  }
}
