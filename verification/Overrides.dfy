/** State overrides of an RPC call: replacing account fields, whole storages or single slots. */
module Overrides {
  import opened Common
  import opened State

  datatype AccountOverride = AccountOverride(
    balance: Option<u256>, nonce: Option<u64>, code: Option<Bytes>,
    state: Option<map<Slot, Word>>, stateDiff: Option<map<Slot, Word>>)

  datatype OverrideError = InvalidBytecode | BothStateAndStateDiff(account: Address)

  /** Hashing code, and checking that it is well formed. */
  datatype CodeOps = CodeOps(keccak: Bytes -> Hash, wellFormed: Bytes -> bool)

  // ---- Specification -----------------------------------------------------------------------

  function OverriddenInfo(ops: CodeOps, info: AccountInfo, ov: AccountOverride): AccountInfo {
    AccountInfo(
      if ov.balance.Some? then ov.balance.value else info.balance,
      if ov.nonce.Some? then ov.nonce.value else info.nonce,
      if ov.code.Some? then ops.keccak(ov.code.value) else info.codeHash,
      if ov.code.Some? then ov.code else info.code)
  }

  /** The error an override runs into, if any; the code is looked at first. */
  function ErrorOf(ops: CodeOps, a: Address, ov: AccountOverride): Option<OverrideError> {
    if ov.code.Some? && !ops.wellFormed(ov.code.value) then Some(InvalidBytecode)
    else if ov.state.Some? && ov.stateDiff.Some? then Some(BothStateAndStateDiff(a))
    else None
  }

  function Not(v: Word): Word { U256 - 1 - v }

  /** Slots marked as changed: the original value is the bitwise complement of the new one. */
  function InvertedSlots(m: map<Slot, Word>): map<Slot, SlotChange> {
    map k | k in m :: SlotChange(Not(m[k]), m[k])
  }

  const DESTROYED: Change := Change(DEFAULT_INFO, map[], true, true, false)

  /** The database after an override without error. */
  function Override(ops: CodeOps, db: Db, a: Address, ov: AccountOverride): Db {
    var info := OverriddenInfo(ops, db.InfoOf(a), ov);
    if ov.state.Some? then
      Commit(Commit(db, map[a := DESTROYED]), map[a := Change(info, InvertedSlots(ov.state.value), true, false, true)])
    else
      var slots := if ov.stateDiff.Some? then InvertedSlots(ov.stateDiff.value) else map[];
      Commit(db, map[a := Change(info, slots, true, false, false)])
  }

  // ---- The methods -------------------------------------------------------------------------

  method ApplyAccountOverride(ops: CodeOps, a: Address, ov: AccountOverride, db: StateDb)
    returns (r: Result<(), OverrideError>)
    modifies db
    ensures r == if ov.code.Some? && !ops.wellFormed(ov.code.value) then Err(InvalidBytecode)
                 else if ov.state.Some? && ov.stateDiff.Some? then Err(BothStateAndStateDiff(a))
                 else Ok(())
    ensures r.Ok? <==> ErrorOf(ops, a, ov).None?
    ensures r.Ok? ==> db.view == Override(ops, old(db.view), a, ov)
    ensures r.Err? ==> ErrorOf(ops, a, ov) == Some(r.error) && db.view == old(db.view)
  {
    var info := db.view.InfoOf(a);
    if ov.nonce.Some? {
      info := info.(nonce := ov.nonce.value);
    }
    if ov.code.Some? {
      info := info.(codeHash := ops.keccak(ov.code.value));
      if !ops.wellFormed(ov.code.value) {
        return Err(InvalidBytecode);
      }
      info := info.(code := ov.code);
    }
    if ov.balance.Some? {
      info := info.(balance := ov.balance.value);
    }
    var acc := Change(info, map[], true, false, false);
    var storage: Option<map<Slot, Word>> := None;
    match (ov.state, ov.stateDiff) {
      case (Some(_), Some(_)) => return Err(BothStateAndStateDiff(a));
      case (None, None) =>
      case (Some(state), None) =>
        db.CommitChanges(map[a := DESTROYED]);
        acc := acc.(created := true);
        storage := Some(state);
      case (None, Some(diff)) => storage := Some(diff);
    }
    if storage.Some? {
      var slots: map<Slot, SlotChange> := map[];
      var m := storage.value;
      var rest := m.Keys;
      while rest != {}
        invariant rest <= m.Keys && slots.Keys == m.Keys - rest
        invariant forall k :: k in slots ==> slots[k] == SlotChange(Not(m[k]), m[k])
        decreases rest
      {
        var k :| k in rest;
        slots := slots[k := SlotChange(Not(m[k]), m[k])];
        rest := rest - {k};
      }
      assert slots == InvertedSlots(m);
      acc := acc.(storage := slots);
    }
    db.CommitChanges(map[a := acc]);
    r := Ok(());
  }

  /** What the overrides make of account `a`. */
  function Overridden(ops: CodeOps, db: Db, overrides: map<Address, AccountOverride>, a: Address): Option<Account> {
    if a in overrides then Override(ops, db, a, overrides[a]).Find(a) else db.Find(a)
  }

  /**
   Applies the overrides in whatever order the map yields them. It succeeds exactly when none of them
   is in error, with a result that does not depend on the order; otherwise every account is either
   fully overridden or untouched, and the faulty ones are untouched.
   */
  method ApplyStateOverrides(ops: CodeOps, overrides: map<Address, AccountOverride>, db: StateDb)
    returns (r: Result<(), OverrideError>)
    modifies db
    ensures r.Ok? <==> forall a :: a in overrides ==> ErrorOf(ops, a, overrides[a]).None?
    ensures r.Ok? ==> forall a :: db.view.Find(a) == Overridden(ops, old(db.view), overrides, a)
    ensures r.Err? ==> exists a :: a in overrides && ErrorOf(ops, a, overrides[a]) == Some(r.error)
    ensures forall a :: db.view.Find(a) == old(db.view).Find(a) ||
                        db.view.Find(a) == Overridden(ops, old(db.view), overrides, a)
    ensures forall a :: a in overrides && ErrorOf(ops, a, overrides[a]).Some? ==>
                        db.view.Find(a) == old(db.view).Find(a)
    ensures db.view.stateClear == old(db.view).stateClear
  {
    ghost var start := db.view;
    var rest := overrides.Keys;
    while rest != {}
      invariant rest <= overrides.Keys
      invariant db.view.stateClear == start.stateClear
      invariant forall a :: a in overrides && a !in rest ==> ErrorOf(ops, a, overrides[a]).None?
      invariant forall a :: a in overrides && a !in rest ==> db.view.Find(a) == Overridden(ops, start, overrides, a)
      invariant forall a :: a !in overrides || a in rest ==> db.view.Find(a) == start.Find(a)
      decreases rest
    {
      var a :| a in rest;
      ghost var before := db.view;
      var one := ApplyAccountOverride(ops, a, overrides[a], db);
      if one.Err? {
        return Err(one.error);
      }
      assert before.Find(a) == start.Find(a);
      OverrideIsLocal(ops, start, before, a, overrides[a]);
      rest := rest - {a};
    }
    r := Ok(());
  }

  // ---- Meaning -----------------------------------------------------------------------------

  lemma {:induction false} CommitOne(db: Db, a: Address, ch: Change)
    ensures var after := Commit(db, map[a := ch]);
            after.stateClear == db.stateClear &&
            after.Find(a) == ApplyChange(db.stateClear, db.Find(a), ch) &&
            forall b :: b != a ==> after.Find(b) == db.Find(b)
  {
    var cs := map[a := ch];
    assert After(db, cs, a) == ApplyChange(db.stateClear, db.Find(a), ch);
    forall b | b != a
      ensures Commit(db, cs).Find(b) == db.Find(b)
    {
      assert After(db, cs, b) == db.Find(b);
    }
  }

  /** An override touches its own account only, and depends on nothing else. */
  lemma {:induction false} OverrideIsLocal(ops: CodeOps, d: Db, e: Db, a: Address, ov: AccountOverride)
    requires d.stateClear == e.stateClear && d.Find(a) == e.Find(a)
    ensures Override(ops, d, a, ov).Find(a) == Override(ops, e, a, ov).Find(a)
    ensures Override(ops, e, a, ov).stateClear == e.stateClear
    ensures forall b :: b != a ==> Override(ops, e, a, ov).Find(b) == e.Find(b)
  {
    forall db: Db, ch {
      CommitOne(db, a, ch);
    }
    assert d.InfoOf(a) == e.InfoOf(a);
  }

  /** The inverted original differs from the new value, so every overridden slot counts as changed. */
  lemma {:induction false} EverySlotChanges(m: map<Slot, Word>)
    ensures ChangedSlots(InvertedSlots(m)) == m
  {
    forall v: Word
      ensures Not(v) != v
    {
      assert U256 % 2 == 0;
    }
  }

  function OrElse<T>(o: Option<T>, was: T): T { if o.Some? then o.value else was }

  /** Each field that is set replaces the account's, code together with its hash; the others are kept. */
  predicate FieldsOverridden(ops: CodeOps, was: AccountInfo, now: AccountInfo, ov: AccountOverride) {
    && now.balance == OrElse(ov.balance, was.balance)
    && now.nonce == OrElse(ov.nonce, was.nonce)
    && match ov.code
       case Some(code) => now.code == Some(code) && now.codeHash == ops.keccak(code)
       case None => now.code == was.code && now.codeHash == was.codeHash
  }

  /** `state` replaces the storage: every slot reads its override or zero, whatever was there before. */
  lemma {:induction false} FullStateReplaces(ops: CodeOps, db: Db, a: Address, ov: AccountOverride, k: Slot)
    requires ov.state.Some? && ov.stateDiff.None?
    ensures var after := Override(ops, db, a, ov);
            FieldsOverridden(ops, db.InfoOf(a), after.InfoOf(a), ov) && a in after.accounts &&
            after.SlotOf(a, k) == if k in ov.state.value then ov.state.value[k] else 0
  {
    var info := OverriddenInfo(ops, db.InfoOf(a), ov);
    var cleared := Commit(db, map[a := DESTROYED]);
    CommitOne(cleared, a, Change(info, InvertedSlots(ov.state.value), true, false, true));
    EverySlotChanges(ov.state.value);
    var after := Override(ops, db, a, ov);
    assert after.Find(a) == Some(Account(info, ov.state.value));
  }

  /** The value a slot should read without `state`: its `stateDiff` override, or what it was. */
  function Expected(db: Db, a: Address, ov: AccountOverride, k: Slot): Word {
    if ov.stateDiff.Some? && k in ov.stateDiff.value then ov.stateDiff.value[k] else db.SlotOf(a, k)
  }

  /** The overridden account is empty and state clearing is on: the commit removes it. */
  predicate ClearedAway(ops: CodeOps, db: Db, a: Address, ov: AccountOverride) {
    var info := db.InfoOf(a);
    var hash := if ov.code.Some? then ops.keccak(ov.code.value) else info.codeHash;
    db.stateClear && OrElse(ov.balance, info.balance) == 0 && OrElse(ov.nonce, info.nonce) == 0 &&
    (hash == 0 || hash == KECCAK_EMPTY)
  }

  /**
   Without `state`, each slot reads its `stateDiff` override or what it was if and only if the account
   is not cleared away for being empty, or every slot should read zero anyway.
   */
  lemma {:induction false} StateDiffKeepsTheRest(ops: CodeOps, db: Db, a: Address, ov: AccountOverride)
    requires ov.state.None?
    ensures var after := Override(ops, db, a, ov);
            (!ClearedAway(ops, db, a, ov) ==>
              a in after.accounts && FieldsOverridden(ops, db.InfoOf(a), after.InfoOf(a), ov)) &&
            (ClearedAway(ops, db, a, ov) ==> a !in after.accounts) &&
            ((forall k :: after.SlotOf(a, k) == Expected(db, a, ov, k)) <==>
             (!ClearedAway(ops, db, a, ov) || forall k :: Expected(db, a, ov, k) == 0))
  {
    var info := OverriddenInfo(ops, db.InfoOf(a), ov);
    var diff: map<Slot, Word> := if ov.stateDiff.Some? then ov.stateDiff.value else map[];
    CommitOne(db, a, Change(info, InvertedSlots(diff), true, false, false));
    EverySlotChanges(diff);
    assert InvertedSlots(map[]) == map[];
    var after := Override(ops, db, a, ov);
    if ClearedAway(ops, db, a, ov) {
      assert after.Find(a) == None;
      forall k
        ensures after.SlotOf(a, k) == 0
      {
      }
    } else {
      var kept := OrDefault(db.Find(a)).storage;
      assert after.Find(a) == Some(Account(info, kept + diff));
      forall k
        ensures after.SlotOf(a, k) == Expected(db, a, ov, k)
      {
      }
    }
  }

  /** Such a clearing loses an override: an absent account with one slot overridden keeps none of it. */
  lemma {:induction false} DiffLostOnEmptyAccount(ops: CodeOps, a: Address)
    ensures var db := Db(map[], true);
            var ov := AccountOverride(None, None, None, None, Some(map[1 := 100]));
            ErrorOf(ops, a, ov).None? && Override(ops, db, a, ov).SlotOf(a, 1) == 0
  {
    var db := Db(map[], true);
    var ov := AccountOverride(None, None, None, None, Some(map[1 := 100]));
    CommitOne(db, a, Change(OverriddenInfo(ops, db.InfoOf(a), ov), InvertedSlots(map[1 := 100]), true, false, false));
    assert Override(ops, db, a, ov).Find(a) == None;
  }
}
