/**
 The account database an executor writes to: revm's `State`, reduced to the accounts a reader sees.
 Its operations belong to a library outside the repository; the contracts fixed here are the ones
 the executors rely on.
 */
module State {
  import opened Common

  type Slot = u256
  type Word = u256

  // keccak256 of the empty string
  const KECCAK_EMPTY: Hash := 0xc5d2460186f7233c927e7db2dcc703c0e500b653ca82273b7bfad8045d85a470

  datatype AccountInfo = AccountInfo(balance: u256, nonce: u64, codeHash: Hash, code: Option<Bytes>) {
    predicate IsEmpty() {
      (codeHash == KECCAK_EMPTY || codeHash == 0) && balance == 0 && nonce == 0
    }
  }

  const DEFAULT_INFO: AccountInfo := AccountInfo(0, 0, KECCAK_EMPTY, Some([]))

  datatype Account = Account(info: AccountInfo, storage: map<Slot, Word>)

  datatype Db = Db(accounts: map<Address, Account>, stateClear: bool) {
    function Find(a: Address): Option<Account> {
      if a in accounts then Some(accounts[a]) else None
    }

    /** `basic(a)` with the default for a missing account. */
    function InfoOf(a: Address): AccountInfo {
      if a in accounts then accounts[a].info else DEFAULT_INFO
    }

    /** A slot never written reads zero. */
    function SlotOf(a: Address, k: Slot): Word {
      if a in accounts && k in accounts[a].storage then accounts[a].storage[k] else 0
    }
  }

  datatype SlotChange = SlotChange(original: Word, present: Word)

  datatype Change = Change(
    info: AccountInfo, storage: map<Slot, SlotChange>, touched: bool, selfDestructed: bool, created: bool)

  type ChangeSet = map<Address, Change>

  /** The new values of the slots whose value changed. */
  function ChangedSlots(storage: map<Slot, SlotChange>): map<Slot, Word> {
    map k | k in storage && storage[k].original != storage[k].present :: storage[k].present
  }

  /** What committing one entry of a change set makes of an account. */
  function ApplyChange(stateClear: bool, prior: Option<Account>, ch: Change): Option<Account> {
    if !ch.touched then prior
    else if ch.selfDestructed then None
    else if ch.created then Some(Account(ch.info, ChangedSlots(ch.storage)))
    else if ch.info.IsEmpty() && stateClear then None
    else
      var kept := if prior.Some? then prior.value.storage else map[];
      Some(Account(ch.info, kept + ChangedSlots(ch.storage)))
  }

  function After(db: Db, cs: ChangeSet, a: Address): Option<Account> {
    if a in cs then ApplyChange(db.stateClear, db.Find(a), cs[a]) else db.Find(a)
  }

  function Commit(db: Db, cs: ChangeSet): Db {
    db.(accounts := map a | a in db.accounts.Keys + cs.Keys && After(db, cs, a).Some? :: After(db, cs, a).value)
  }

  /** Two databases are the same when they agree on every account. */
  lemma {:induction false} SameDb(d: Db, e: Db)
    requires d.stateClear == e.stateClear
    requires forall a :: d.Find(a) == e.Find(a)
    ensures d == e
  {
    forall a
      ensures a in d.accounts <==> a in e.accounts
      ensures a in d.accounts ==> d.accounts[a] == e.accounts[a]
    {
      assert d.Find(a) == e.Find(a);
    }
    assert d.accounts == e.accounts;
  }

  // ---- Balance increments and drains -------------------------------------------------------

  /** The addresses an increment map credits; zero increments are skipped. */
  function Credited(incs: map<Address, u128>): set<Address> {
    set a | a in incs && incs[a] != 0
  }

  function OrDefault(acc: Option<Account>): Account {
    if acc.Some? then acc.value else Account(DEFAULT_INFO, map[])
  }

  function WithBalance(acc: Account, balance: u256): Account {
    acc.(info := acc.info.(balance := balance))
  }

  function Credit(db: Db, a: Address, amount: u128): Account {
    var acc := OrDefault(db.Find(a));
    WithBalance(acc, Min(acc.info.balance + amount, U256 - 1))
  }

  function IncrementBalances(db: Db, incs: map<Address, u128>): Db {
    db.(accounts := map a | a in db.accounts.Keys + Credited(incs) ::
      if a in Credited(incs) then Credit(db, a, incs[a]) else db.accounts[a])
  }

  function DrainOne(db: Db, a: Address): Db {
    db.(accounts := db.accounts[a := WithBalance(OrDefault(db.Find(a)), 0)])
  }

  /** Zeroes the balances in order; an account listed twice is drained once. */
  function DrainBalances(db: Db, list: seq<Address>): Db
    decreases |list|
  {
    if list == [] then db else DrainBalances(DrainOne(db, list[0]), list[1..])
  }

  /** The balances `drain_balances` returns, one an address. */
  function DrainedBalances(db: Db, list: seq<Address>): seq<u256>
    decreases |list|
  {
    if list == [] then [] else [db.InfoOf(list[0]).balance] + DrainedBalances(DrainOne(db, list[0]), list[1..])
  }

  lemma {:induction false} DrainFind(db: Db, list: seq<Address>, a: Address)
    ensures DrainBalances(db, list).stateClear == db.stateClear
    ensures DrainBalances(db, list).Find(a) ==
            if a in list then Some(WithBalance(OrDefault(db.Find(a)), 0)) else db.Find(a)
    decreases |list|
  {
    if list != [] {
      DrainFind(DrainOne(db, list[0]), list[1..], a);
    }
  }

  // ---- Supply ------------------------------------------------------------------------------

  function Balances(db: Db): map<Address, nat> {
    map a | a in db.accounts :: db.accounts[a].info.balance
  }

  /** The sum of all balances. */
  ghost function Supply(db: Db): nat { Total(Balances(db)) }

  lemma {:induction false} DrainOneSupply(db: Db, a: Address)
    ensures Supply(DrainOne(db, a)) + db.InfoOf(a).balance == Supply(db)
  {
    assert Balances(DrainOne(db, a)) == Balances(db)[a := 0];
    TotalUpdate(Balances(db), a, 0);
  }

  lemma {:induction false} DrainConserves(db: Db, list: seq<Address>)
    ensures Supply(DrainBalances(db, list)) + Sum(DrainedBalances(db, list)) == Supply(db)
    decreases |list|
  {
    if list != [] {
      var next := DrainOne(db, list[0]);
      DrainOneSupply(db, list[0]);
      DrainConserves(next, list[1..]);
      SumConcat([db.InfoOf(list[0]).balance], DrainedBalances(next, list[1..]));
      assert [db.InfoOf(list[0]).balance][..0] == [];
    } else {
      assert DrainedBalances(db, list) == [];
    }
  }

  /** What each credited account really receives when the intended amounts are `due`. */
  ghost function Shortfall(db: Db, incs: map<Address, u128>, due: map<Address, nat>): map<Address, nat>
    requires due.Keys == incs.Keys && forall a :: a in incs ==> incs[a] <= due[a]
  {
    map a | a in due :: db.InfoOf(a).balance + due[a] - IncrementBalances(db, incs).InfoOf(a).balance
  }

  lemma {:induction false} IncrementBalanceOf(db: Db, incs: map<Address, u128>, a: Address)
    ensures IncrementBalances(db, incs).InfoOf(a).balance
         == if a in incs then Min(db.InfoOf(a).balance + incs[a], U256 - 1) else db.InfoOf(a).balance
  {
  }

  lemma {:induction false} ShortfallAt(db: Db, incs: map<Address, u128>, due: map<Address, nat>, a: Address)
    requires due.Keys == incs.Keys && forall a :: a in incs ==> incs[a] <= due[a]
    ensures Get(Balances(IncrementBalances(db, incs)), a) + Get(Shortfall(db, incs, due), a)
         == Get(Balances(db), a) + Get(due, a)
  {
    IncrementBalanceOf(db, incs, a);
    assert Get(Balances(db), a) == db.InfoOf(a).balance;
    var next := IncrementBalances(db, incs);
    assert Get(Balances(next), a) == next.InfoOf(a).balance;
  }

  lemma {:induction false} ShortfallTotal(db: Db, incs: map<Address, u128>, due: map<Address, nat>)
    requires due.Keys == incs.Keys && forall a :: a in incs ==> incs[a] <= due[a]
    ensures Supply(IncrementBalances(db, incs)) + Total(Shortfall(db, incs, due)) == Supply(db) + Total(due)
  {
    var before, next, short := Balances(db), Balances(IncrementBalances(db, incs)), Shortfall(db, incs, due);
    forall a
      ensures Get(next, a) + Get(short, a) == Get(before, a) + Get(due, a)
    {
      ShortfallAt(db, incs, due, a);
    }
    assert next.Keys <= db.accounts.Keys + incs.Keys;
    TotalsAgree(db.accounts.Keys + incs.Keys, next, short, before, due);
  }

  lemma {:induction false} ShortfallZero(db: Db, incs: map<Address, u128>, due: map<Address, nat>, a: Address)
    requires due.Keys == incs.Keys && forall a :: a in incs ==> incs[a] <= due[a]
    requires a in incs
    ensures Shortfall(db, incs, due)[a] == 0 <==> incs[a] == due[a] && db.InfoOf(a).balance + due[a] < U256
  {
    IncrementBalanceOf(db, incs, a);
  }

  /**
   The increments raise the supply by exactly the sum of the amounts due if and only if no amount
   was cut down on its way into the map and no balance saturates; otherwise they raise it by less.
   */
  lemma {:induction false} IncrementSupply(db: Db, incs: map<Address, u128>, due: map<Address, nat>)
    requires due.Keys == incs.Keys && forall a :: a in incs ==> incs[a] <= due[a]
    ensures Supply(IncrementBalances(db, incs)) <= Supply(db) + Total(due)
    ensures Supply(IncrementBalances(db, incs)) == Supply(db) + Total(due) <==>
            forall a :: a in incs ==> incs[a] == due[a] && db.InfoOf(a).balance + due[a] < U256
  {
    var short := Shortfall(db, incs, due);
    ShortfallTotal(db, incs, due);
    TotalZero(short);
    forall a | a in incs
      ensures short[a] == 0 <==> incs[a] == due[a] && db.InfoOf(a).balance + due[a] < U256
    {
      ShortfallZero(db, incs, due, a);
    }
    assert short.Keys == incs.Keys;
  }

  // ---- The snapshot reported after the increments ------------------------------------------

  /** A touched entry holding the account as it is now; `None` when a credited account is missing. */
  function BalanceIncrementState(incs: map<Address, u128>, db: Db): Option<ChangeSet> {
    if Credited(incs) <= db.accounts.Keys
    then Some(map a | a in Credited(incs) && a in db.accounts ::
      Change(db.accounts[a].info, map[], true, false, false))
    else None
  }

  /** After the increments every credited account is there, so the snapshot cannot fail. */
  lemma {:induction false} SnapshotSucceeds(db: Db, incs: map<Address, u128>)
    ensures BalanceIncrementState(incs, IncrementBalances(db, incs)).Some?
  {
  }

  /**
   Committing the snapshot to the database as it was before the drain gives the database after the
   drain and the increments if and only if each drained account is credited too, or was there with
   nothing to drain.
   */
  lemma {:induction false} SnapshotReplays(db: Db, list: seq<Address>, incs: map<Address, u128>)
    ensures var last := IncrementBalances(DrainBalances(db, list), incs);
            var snapshot := BalanceIncrementState(incs, last);
            snapshot.Some? &&
            (Commit(db, snapshot.value) == last <==>
             forall a :: a in list ==> a in Credited(incs) || (a in db.accounts && db.InfoOf(a).balance == 0))
  {
    var drained := DrainBalances(db, list);
    var last := IncrementBalances(drained, incs);
    SnapshotSucceeds(drained, incs);
    var replay := Commit(db, BalanceIncrementState(incs, last).value);
    DrainFind(db, list, Address(0));
    forall a
      ensures replay.Find(a) == last.Find(a) <==>
              (a in list ==> a in Credited(incs) || (a in db.accounts && db.InfoOf(a).balance == 0))
    {
      SnapshotReplaysAt(db, list, incs, a);
    }
    if forall a :: replay.Find(a) == last.Find(a) {
      SameDb(replay, last);
    }
  }

  lemma {:induction false} SnapshotReplaysAt(db: Db, list: seq<Address>, incs: map<Address, u128>, a: Address)
    ensures var last := IncrementBalances(DrainBalances(db, list), incs);
            var snapshot := BalanceIncrementState(incs, last);
            snapshot.Some? &&
            (Commit(db, snapshot.value).Find(a) == last.Find(a) <==>
             (a in list ==> a in Credited(incs) || (a in db.accounts && db.InfoOf(a).balance == 0)))
  {
    var drained := DrainBalances(db, list);
    var last := IncrementBalances(drained, incs);
    SnapshotSucceeds(drained, incs);
    DrainFind(db, list, a);
    var snapshot := BalanceIncrementState(incs, last).value;
    assert Commit(db, snapshot).Find(a) == After(db, snapshot, a);
    if a in Credited(incs) {
      assert last.Find(a) == Some(Credit(drained, a, incs[a]));
      TouchedReplaces(db, a, last.accounts[a].info);
    } else {
      assert last.Find(a) == drained.Find(a);
    }
  }

  /** Committing a touched, non-empty account sets its info and keeps its storage. */
  lemma {:induction false} TouchedReplaces(db: Db, a: Address, info: AccountInfo)
    requires !info.IsEmpty()
    ensures ApplyChange(db.stateClear, db.Find(a), Change(info, map[], true, false, false))
         == Some(OrDefault(db.Find(a)).(info := info))
  {
    assert ChangedSlots(map[]) == map[];
    assert OrDefault(db.Find(a)).storage + map[] == OrDefault(db.Find(a)).storage;
  }

  // ---- The mutable database ----------------------------------------------------------------

  class StateDb {
    var view: Db

    constructor (db: Db)
      ensures view == db
    {
      view := db;
    }

    method SetStateClearFlag(flag: bool)
      modifies this
      ensures view == old(view).(stateClear := flag)
    {
      view := view.(stateClear := flag);
    }

    method CommitChanges(cs: ChangeSet)
      modifies this
      ensures view == Commit(old(view), cs)
    {
      view := Commit(view, cs);
    }

    method Increment(incs: map<Address, u128>)
      modifies this
      ensures view == IncrementBalances(old(view), incs)
    {
      view := IncrementBalances(view, incs);
    }

    method Drain(list: seq<Address>) returns (balances: seq<u256>)
      modifies this
      ensures view == DrainBalances(old(view), list)
      ensures balances == DrainedBalances(old(view), list)
    {
      balances := DrainedBalances(view, list);
      view := DrainBalances(view, list);
    }
  }
}
