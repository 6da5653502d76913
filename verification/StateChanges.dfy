/** Balance changes at the end of a block: block and ommer rewards and withdrawals. */
module StateChanges {
  import opened Common
  import opened Hardforks
  import opened Calc
  import opened Evm

  datatype Header = Header(beneficiary: Address, number: u64)

  datatype Withdrawal = Withdrawal(address: Address, amount: u64)

  const GWEI_TO_WEI: nat := 1_000_000_000

  // ---- Specification: a list of contributions ----------------------------------------------

  datatype Contribution = Contribution(to: Address, amount: u128)

  /** Keeps, in order, what `f` makes of each element. */
  function Collect<T>(f: T -> Option<Contribution>, xs: seq<T>): seq<Contribution> {
    if xs == [] then []
    else
      var front := Collect(f, xs[..|xs| - 1]);
      match f(xs[|xs| - 1])
      case None => front
      case Some(c) => front + [c]
  }

  function OmmerContribution(base: u128, number: u64): Header -> Option<Contribution> {
    (o: Header) => Some(Contribution(o.beneficiary, OmmerReward(base, number, o.number)))
  }

  /** Zero withdrawals contribute nothing, not even an entry. */
  function WithdrawalContribution(w: Withdrawal): Option<Contribution> {
    if w.amount > 0 then Some(Contribution(w.address, w.amount * GWEI_TO_WEI)) else None
  }

  function RewardContributions(spec: ChainSpec, env: BlockEnv, ommers: seq<Header>): seq<Contribution>
  {
    var number := SaturatingU64(env.number);
    match BaseBlockReward(spec, number)
    case None => []
    case Some(base) =>
      Collect(OmmerContribution(base, number), ommers) + [Contribution(env.beneficiary, BlockReward(base, |ommers|))]
  }

  function WithdrawalContributions(spec: ChainSpec, timestamp: u64, withdrawals: Option<seq<Withdrawal>>)
    : seq<Contribution>
  {
    if spec.shanghai.ActiveAtTimestamp(timestamp) && withdrawals.Some?
    then Collect(WithdrawalContribution, withdrawals.value)
    else []
  }

  function Contributions(spec: ChainSpec, env: BlockEnv, ommers: seq<Header>, withdrawals: Option<seq<Withdrawal>>)
    : seq<Contribution>
  {
    RewardContributions(spec, env, ommers)
    + WithdrawalContributions(spec, SaturatingU64(env.timestamp), withdrawals)
  }

  /** `*m.entry(to).or_default() += amount`. */
  function AddEntry(m: map<Address, u128>, to: Address, amount: u128): map<Address, u128> {
    m[to := AddU128(if to in m then m[to] else 0, amount)]
  }

  function Accumulate(m: map<Address, u128>, cs: seq<Contribution>): map<Address, u128> {
    if cs == [] then m
    else AddEntry(Accumulate(m, cs[..|cs| - 1]), cs[|cs| - 1].to, cs[|cs| - 1].amount)
  }

  /** The increments a block makes. */
  function Increments(spec: ChainSpec, env: BlockEnv, ommers: seq<Header>, withdrawals: Option<seq<Withdrawal>>)
    : map<Address, u128>
  {
    Accumulate(map[], Contributions(spec, env, ommers, withdrawals))
  }

  /** All that an address is due, as a mathematical sum. */
  function AmountFor(cs: seq<Contribution>, a: Address): nat {
    if cs == [] then 0
    else AmountFor(cs[..|cs| - 1], a) + (if cs[|cs| - 1].to == a then cs[|cs| - 1].amount else 0)
  }

  function Beneficiaries(cs: seq<Contribution>): set<Address> {
    set i | 0 <= i < |cs| :: cs[i].to
  }

  function Amounts(cs: seq<Contribution>): seq<nat> {
    seq(|cs|, i requires 0 <= i < |cs| => cs[i].amount)
  }

  // ---- The methods -------------------------------------------------------------------------

  method PostBlockBalanceIncrements(
      spec: ChainSpec, env: BlockEnv, ommers: seq<Header>, withdrawals: Option<seq<Withdrawal>>)
    returns (increments: map<Address, u128>)
    ensures increments == Increments(spec, env, ommers, withdrawals)
  {
    increments := map[];
    var number := SaturatingU64(env.number);
    ghost var rewards := RewardContributions(spec, env, ommers);
    match BaseBlockReward(spec, number) {
      case None =>
      case Some(base) =>
        ghost var f := OmmerContribution(base, number);
        for i := 0 to |ommers|
          invariant increments == Accumulate(map[], Collect(f, ommers[..i]))
        {
          assert ommers[..i + 1][..i] == ommers[..i];
          increments := AddEntry(increments, ommers[i].beneficiary, OmmerReward(base, number, ommers[i].number));
          AccumulateSnoc(map[], Collect(f, ommers[..i]), f(ommers[i]).value);
        }
        assert ommers[..|ommers|] == ommers;
        AccumulateSnoc(
          map[], Collect(f, ommers), Contribution(env.beneficiary, BlockReward(base, |ommers|)));
        increments := AddEntry(increments, env.beneficiary, BlockReward(base, |ommers|));
    }
    AccumulateConcat(
      map[], rewards, WithdrawalContributions(spec, SaturatingU64(env.timestamp), withdrawals));
    increments := InsertPostBlockWithdrawals(spec, SaturatingU64(env.timestamp), withdrawals, increments);
  }

  method InsertPostBlockWithdrawals(
      spec: ChainSpec, timestamp: u64, withdrawals: Option<seq<Withdrawal>>, increments: map<Address, u128>)
    returns (r: map<Address, u128>)
    ensures r == Accumulate(increments, WithdrawalContributions(spec, timestamp, withdrawals))
  {
    r := increments;
    if spec.shanghai.ActiveAtTimestamp(timestamp) {
      if withdrawals.Some? {
        var ws := withdrawals.value;
        for i := 0 to |ws|
          invariant r == Accumulate(increments, Collect(WithdrawalContribution, ws[..i]))
        {
          assert ws[..i + 1][..i] == ws[..i];
          if ws[i].amount > 0 {
            r := AddEntry(r, ws[i].address, ws[i].amount * GWEI_TO_WEI);
            AccumulateSnoc(
              increments, Collect(WithdrawalContribution, ws[..i]), WithdrawalContribution(ws[i]).value);
          }
        }
        assert ws[..|ws|] == ws;
      }
    }
  }

  lemma {:induction false} AccumulateSnoc(m: map<Address, u128>, cs: seq<Contribution>, c: Contribution)
    ensures Accumulate(m, cs + [c]) == AddEntry(Accumulate(m, cs), c.to, c.amount)
  {
    assert (cs + [c])[..|cs|] == cs;
  }

  lemma {:induction false} AccumulateConcat(m: map<Address, u128>, xs: seq<Contribution>, ys: seq<Contribution>)
    ensures Accumulate(m, xs + ys) == Accumulate(Accumulate(m, xs), ys)
    decreases |ys|
  {
    if ys == [] {
      assert xs + ys == xs;
    } else {
      var front := ys[..|ys| - 1];
      assert (xs + ys)[..|xs + ys| - 1] == xs + front;
      AccumulateConcat(m, xs, front);
    }
  }

  // ---- What the map holds ------------------------------------------------------------------

  /**
   The map has an entry for exactly the contributed-to addresses, each holding the sum of all its
   contributions modulo 2^128: collisions between roles add up.
   */
  lemma {:induction false} EntryIsSumOfContributions(cs: seq<Contribution>, a: Address)
    ensures var m := Accumulate(map[], cs);
            m.Keys == Beneficiaries(cs) &&
            (if a in m then m[a] == AmountFor(cs, a) % U128 else AmountFor(cs, a) == 0)
    decreases |cs|
  {
    if cs != [] {
      var front, last := cs[..|cs| - 1], cs[|cs| - 1];
      EntryIsSumOfContributions(front, a);
      assert Beneficiaries(cs) == Beneficiaries(front) + {last.to};
      ModAdd(AmountFor(front, a), last.amount);
    }
  }

  lemma {:induction false} ModAdd(x: nat, y: u128)
    ensures (x % U128 + y) % U128 == (x + y) % U128
    ensures y % U128 == y
  {
    assert x == x / U128 * U128 + x % U128;
    ModShift(x % U128 + y, x / U128);
  }

  lemma {:induction false} ModShift(r: nat, q: nat)
    ensures (q * U128 + r) % U128 == r % U128
  {
    assert r == r / U128 * U128 + r % U128;
    assert q * U128 + r == (q + r / U128) * U128 + r % U128;
  }

  /** The order in which contributions arrive does not matter. */
  lemma {:induction false} OrderIrrelevant(xs: seq<Contribution>, ys: seq<Contribution>)
    requires multiset(xs) == multiset(ys)
    ensures Accumulate(map[], xs) == Accumulate(map[], ys)
  {
    var m, n := Accumulate(map[], xs), Accumulate(map[], ys);
    forall a
      ensures a in m <==> a in n
      ensures a in m && a in n ==> m[a] == n[a]
    {
      EntryIsSumOfContributions(xs, a);
      EntryIsSumOfContributions(ys, a);
      AmountPermutes(xs, ys, a);
      BeneficiariesPermute(xs, ys, a);
      BeneficiariesPermute(ys, xs, a);
    }
  }

  lemma {:induction false} BeneficiariesPermute(xs: seq<Contribution>, ys: seq<Contribution>, a: Address)
    requires multiset(xs) == multiset(ys)
    ensures a in Beneficiaries(xs) ==> a in Beneficiaries(ys)
  {
    if a in Beneficiaries(xs) {
      var i :| 0 <= i < |xs| && xs[i].to == a;
      assert xs[i] in multiset(xs);
      assert xs[i] in multiset(ys);
      var j :| 0 <= j < |ys| && ys[j] == xs[i];
    }
  }

  lemma {:induction false} AmountConcat(xs: seq<Contribution>, ys: seq<Contribution>, a: Address)
    ensures AmountFor(xs + ys, a) == AmountFor(xs, a) + AmountFor(ys, a)
    decreases |ys|
  {
    if ys == [] {
      assert xs + ys == xs;
    } else {
      assert (xs + ys)[..|xs + ys| - 1] == xs + ys[..|ys| - 1];
      AmountConcat(xs, ys[..|ys| - 1], a);
    }
  }

  /** An element of a permutation, cut out of it. */
  lemma {:induction false} CutOut<T>(xs: seq<T>, ys: seq<T>) returns (j: nat)
    requires xs != [] && multiset(xs) == multiset(ys)
    ensures j < |ys| && ys[j] == xs[|xs| - 1] && ys == ys[..j] + [ys[j]] + ys[j + 1..]
    ensures multiset(xs[..|xs| - 1]) == multiset(ys[..j] + ys[j + 1..])
  {
    var x := xs[|xs| - 1];
    assert x in multiset(xs);
    assert x in multiset(ys);
    j :| 0 <= j < |ys| && ys[j] == x;
    assert xs == xs[..|xs| - 1] + [x];
    assert ys == ys[..j] + [x] + ys[j + 1..];
    assert multiset(xs) == multiset(xs[..|xs| - 1]) + multiset{x};
    assert multiset(ys) == multiset(ys[..j] + ys[j + 1..]) + multiset{x};
    assert multiset(xs[..|xs| - 1]) == multiset(xs) - multiset{x};
  }

  lemma {:induction false} AmountPermutes(xs: seq<Contribution>, ys: seq<Contribution>, a: Address)
    requires multiset(xs) == multiset(ys)
    ensures AmountFor(xs, a) == AmountFor(ys, a)
    decreases |xs|
  {
    if xs == [] {
      assert |multiset(ys)| == |ys|;
      assert ys == [];
    } else {
      var j := CutOut(xs, ys);
      AmountPermutes(xs[..|xs| - 1], ys[..j] + ys[j + 1..], a);
      AmountConcat(ys[..j], ys[j + 1..], a);
      AmountConcat(ys[..j] + [ys[j]], ys[j + 1..], a);
      AmountConcat(ys[..j], [ys[j]], a);
      assert [ys[j]][..0] == [];
    }
  }

  lemma {:induction false} CollectConcat<T>(f: T -> Option<Contribution>, xs: seq<T>, ys: seq<T>)
    ensures Collect(f, xs + ys) == Collect(f, xs) + Collect(f, ys)
    decreases |ys|
  {
    if ys == [] {
      assert xs + ys == xs;
    } else {
      assert (xs + ys)[..|xs + ys| - 1] == xs + ys[..|ys| - 1];
      CollectConcat(f, xs, ys[..|ys| - 1]);
    }
  }

  lemma {:induction false} CollectPermutes<T>(f: T -> Option<Contribution>, xs: seq<T>, ys: seq<T>)
    requires multiset(xs) == multiset(ys)
    ensures multiset(Collect(f, xs)) == multiset(Collect(f, ys))
    decreases |xs|
  {
    if xs == [] {
      assert |multiset(ys)| == |ys|;
      assert ys == [];
    } else {
      var j := CutOut(xs, ys);
      CollectPermutes(f, xs[..|xs| - 1], ys[..j] + ys[j + 1..]);
      CollectConcat(f, ys[..j], ys[j + 1..]);
      CollectConcat(f, ys[..j] + [ys[j]], ys[j + 1..]);
      CollectConcat(f, ys[..j], [ys[j]]);
      assert [ys[j]][..0] == [];
    }
  }

  /** Both absent, or the same withdrawals in some order. */
  predicate SameWithdrawals(ws: Option<seq<Withdrawal>>, ws': Option<seq<Withdrawal>>) {
    (ws.Some? <==> ws'.Some?) && (ws.Some? ==> multiset(ws.value) == multiset(ws'.value))
  }

  /** Reordering the ommers and the withdrawals of a block leaves its increments as they are. */
  lemma {:induction false} IncrementsPermute(
      spec: ChainSpec, env: BlockEnv, ommers: seq<Header>, ommers': seq<Header>,
      ws: Option<seq<Withdrawal>>, ws': Option<seq<Withdrawal>>)
    requires multiset(ommers) == multiset(ommers') && SameWithdrawals(ws, ws')
    ensures Increments(spec, env, ommers, ws) == Increments(spec, env, ommers', ws')
  {
    var number := SaturatingU64(env.number);
    assert |multiset(ommers)| == |ommers| && |multiset(ommers')| == |ommers'|;
    if !spec.paris.ActiveAtBlock(number) {
      CollectPermutes(OmmerContribution(BaseBlockRewardPreMerge(spec, number), number), ommers, ommers');
    }
    if ws.Some? {
      CollectPermutes(WithdrawalContribution, ws.value, ws'.value);
    }
    OrderIrrelevant(Contributions(spec, env, ommers, ws), Contributions(spec, env, ommers', ws'));
  }

  // ---- Who is paid what --------------------------------------------------------------------

  /** The gwei a list of withdrawals pays to `a`. */
  function GweiFor(ws: seq<Withdrawal>, a: Address): nat {
    if ws == [] then 0
    else GweiFor(ws[..|ws| - 1], a) + (if ws[|ws| - 1].address == a then ws[|ws| - 1].amount else 0)
  }

  /** The ommer rewards of `a`: one for each ommer it is the beneficiary of. */
  function OmmerRewardsFor(base: u128, number: u64, ommers: seq<Header>, a: Address): nat {
    if ommers == [] then 0
    else
      OmmerRewardsFor(base, number, ommers[..|ommers| - 1], a)
      + (if ommers[|ommers| - 1].beneficiary == a then OmmerReward(base, number, ommers[|ommers| - 1].number) else 0)
  }

  lemma {:induction false} AmountSnoc(cs: seq<Contribution>, c: Contribution, a: Address)
    ensures AmountFor(cs + [c], a) == AmountFor(cs, a) + (if c.to == a then c.amount else 0)
  {
    assert (cs + [c])[..|cs|] == cs;
  }

  lemma {:induction false} WithdrawalsPaid(ws: seq<Withdrawal>, a: Address)
    ensures AmountFor(Collect(WithdrawalContribution, ws), a) == 1_000_000_000 * GweiFor(ws, a)
    decreases |ws|
  {
    if ws != [] {
      var front, last := ws[..|ws| - 1], ws[|ws| - 1];
      WithdrawalsPaid(front, a);
      if last.amount > 0 {
        AmountSnoc(Collect(WithdrawalContribution, front), WithdrawalContribution(last).value, a);
      }
    }
  }

  lemma {:induction false} OmmersPaid(base: u128, number: u64, ommers: seq<Header>, a: Address)
    ensures AmountFor(Collect(OmmerContribution(base, number), ommers), a) == OmmerRewardsFor(base, number, ommers, a)
    decreases |ommers|
  {
    if ommers != [] {
      var front, last := ommers[..|ommers| - 1], ommers[|ommers| - 1];
      var f := OmmerContribution(base, number);
      OmmersPaid(base, number, front, a);
      AmountSnoc(Collect(f, front), f(last).value, a);
    }
  }

  /**
   What each address is due, from the headers and withdrawals alone: before Paris its ommer rewards,
   and the block reward if it is the beneficiary; under Shanghai its withdrawals, in wei.
   */
  lemma {:induction false} AmountDue(
      spec: ChainSpec, env: BlockEnv, ommers: seq<Header>, withdrawals: Option<seq<Withdrawal>>, a: Address)
    ensures var number := SaturatingU64(env.number);
            AmountFor(Contributions(spec, env, ommers, withdrawals), a) ==
            (match BaseBlockReward(spec, number)
             case None => 0
             case Some(base) =>
               OmmerRewardsFor(base, number, ommers, a)
               + (if a == env.beneficiary then BlockReward(base, |ommers|) else 0))
            + (if spec.shanghai.ActiveAtTimestamp(SaturatingU64(env.timestamp)) && withdrawals.Some?
               then 1_000_000_000 * GweiFor(withdrawals.value, a) else 0)
  {
    var number := SaturatingU64(env.number);
    AmountConcat(
      RewardContributions(spec, env, ommers),
      WithdrawalContributions(spec, SaturatingU64(env.timestamp), withdrawals), a);
    RewardsDue(spec, env, ommers, a);
    if withdrawals.Some? {
      WithdrawalsPaid(withdrawals.value, a);
    }
  }

  lemma {:induction false} RewardsDue(spec: ChainSpec, env: BlockEnv, ommers: seq<Header>, a: Address)
    ensures var number := SaturatingU64(env.number);
            AmountFor(RewardContributions(spec, env, ommers), a) ==
            match BaseBlockReward(spec, number)
            case None => 0
            case Some(base) =>
              OmmerRewardsFor(base, number, ommers, a)
              + (if a == env.beneficiary then BlockReward(base, |ommers|) else 0)
  {
    var number := SaturatingU64(env.number);
    if !spec.paris.ActiveAtBlock(number) {
      var base := BaseBlockRewardPreMerge(spec, number);
      OmmersPaid(base, number, ommers, a);
      AmountSnoc(
        Collect(OmmerContribution(base, number), ommers),
        Contribution(env.beneficiary, BlockReward(base, |ommers|)), a);
    }
  }

  /** The depths d of the ommers of `a`, as the sum of 8 - d. */
  function EighthsFor(number: u64, ommers: seq<Header>, a: Address): int {
    if ommers == [] then 0
    else
      EighthsFor(number, ommers[..|ommers| - 1], a)
      + (if ommers[|ommers| - 1].beneficiary == a then 8 + ommers[|ommers| - 1].number - number else 0)
  }

  /** For ommers in range, each pays its beneficiary (8 - depth) eighths of the base reward. */
  lemma {:induction false} OmmerRewardsAreEighths(base: u128, number: u64, ommers: seq<Header>, a: Address)
    requires IsBaseReward(base) && OmmersInRange(number, ommers)
    ensures OmmerRewardsFor(base, number, ommers, a) == EighthsFor(number, ommers, a) * (base / 8)
    decreases |ommers|
  {
    if ommers != [] {
      var front, last := ommers[..|ommers| - 1], ommers[|ommers| - 1];
      OmmerRewardsAreEighths(base, number, front, a);
      OmmerRewardExact(base, number, last.number);
      Distribute(EighthsFor(number, front, a), 8 + last.number - number, base / 8);
    }
  }

  lemma {:induction false} CollectMember<T>(f: T -> Option<Contribution>, xs: seq<T>, a: Address)
    ensures a in Beneficiaries(Collect(f, xs)) <==>
            exists i :: 0 <= i < |xs| && f(xs[i]).Some? && f(xs[i]).value.to == a
    decreases |xs|
  {
    if xs != [] {
      var front, last := xs[..|xs| - 1], xs[|xs| - 1];
      CollectMember(f, front, a);
      if f(last).Some? {
        BeneficiariesSnoc(Collect(f, front), f(last).value);
      }
      assert (exists i :: 0 <= i < |xs| && f(xs[i]).Some? && f(xs[i]).value.to == a) <==>
             (exists i :: 0 <= i < |front| && f(front[i]).Some? && f(front[i]).value.to == a) ||
             (f(last).Some? && f(last).value.to == a) by {
        assert forall i :: 0 <= i < |front| ==> front[i] == xs[i];
      }
    }
  }

  lemma {:induction false} BeneficiariesSnoc(cs: seq<Contribution>, c: Contribution)
    ensures Beneficiaries(cs + [c]) == Beneficiaries(cs) + {c.to}
  {
    assert forall i :: 0 <= i < |cs| ==> (cs + [c])[i] == cs[i];
    assert (cs + [c])[|cs|] == c;
  }

  lemma {:induction false} BeneficiariesConcat(xs: seq<Contribution>, ys: seq<Contribution>)
    ensures Beneficiaries(xs + ys) == Beneficiaries(xs) + Beneficiaries(ys)
  {
    assert forall i :: 0 <= i < |xs| ==> (xs + ys)[i] == xs[i];
    assert forall i :: 0 <= i < |ys| ==> (xs + ys)[|xs| + i] == ys[i];
  }

  /**
   The map has an entry for exactly the beneficiary and the ommers' beneficiaries, before Paris, and
   the addresses of positive withdrawals, under Shanghai; a zero withdrawal makes none.
   */
  lemma {:induction false} EntriesExact(
      spec: ChainSpec, env: BlockEnv, ommers: seq<Header>, withdrawals: Option<seq<Withdrawal>>, a: Address)
    ensures a in Increments(spec, env, ommers, withdrawals) <==>
            (!spec.paris.ActiveAtBlock(SaturatingU64(env.number)) &&
             (a == env.beneficiary || exists i :: 0 <= i < |ommers| && ommers[i].beneficiary == a)) ||
            (spec.shanghai.ActiveAtTimestamp(SaturatingU64(env.timestamp)) && withdrawals.Some? &&
             exists i :: 0 <= i < |withdrawals.value| &&
               withdrawals.value[i].amount > 0 && withdrawals.value[i].address == a)
  {
    var number := SaturatingU64(env.number);
    var rewards := RewardContributions(spec, env, ommers);
    EntryIsSumOfContributions(Contributions(spec, env, ommers, withdrawals), a);
    BeneficiariesConcat(rewards, WithdrawalContributions(spec, SaturatingU64(env.timestamp), withdrawals));
    if !spec.paris.ActiveAtBlock(number) {
      var base := BaseBlockRewardPreMerge(spec, number);
      var f := OmmerContribution(base, number);
      CollectMember(f, ommers, a);
      assert forall i :: 0 <= i < |ommers| ==> f(ommers[i]).Some? && f(ommers[i]).value.to == ommers[i].beneficiary;
      BeneficiariesSnoc(Collect(f, ommers), Contribution(env.beneficiary, BlockReward(base, |ommers|)));
    }
    if withdrawals.Some? {
      CollectMember(WithdrawalContribution, withdrawals.value, a);
    }
  }

  // ---- Totals ------------------------------------------------------------------------------

  /** What each entry of the map is due, before any wrap-around. */
  ghost function Due(cs: seq<Contribution>): map<Address, nat> {
    map a | a in Beneficiaries(cs) :: AmountFor(cs, a)
  }

  lemma {:induction false} NothingForOthers(cs: seq<Contribution>, a: Address)
    requires a !in Beneficiaries(cs)
    ensures AmountFor(cs, a) == 0
  {
    EntryIsSumOfContributions(cs, a);
  }

  /** The amounts due add up to the sum of the contributions. */
  lemma {:induction false} DueTotal(cs: seq<Contribution>)
    ensures Total(Due(cs)) == Sum(Amounts(cs))
    decreases |cs|
  {
    if cs != [] {
      var front, last := cs[..|cs| - 1], cs[|cs| - 1];
      DueTotal(front);
      assert Amounts(cs)[..|cs| - 1] == Amounts(front);
      assert Beneficiaries(cs) == Beneficiaries(front) + {last.to};
      if last.to !in Beneficiaries(front) {
        NothingForOthers(front, last.to);
      }
      assert Get(Due(front), last.to) == AmountFor(front, last.to);
      assert Due(cs) == Due(front)[last.to := AmountFor(cs, last.to)];
      TotalUpdate(Due(front), last.to, AmountFor(cs, last.to));
    } else {
      assert Due(cs) == map[];
      assert Amounts(cs) == [];
    }
  }

  lemma {:induction false} AmountAtMostSum(cs: seq<Contribution>, a: Address)
    ensures AmountFor(cs, a) <= Sum(Amounts(cs))
    decreases |cs|
  {
    if cs != [] {
      AmountAtMostSum(cs[..|cs| - 1], a);
      assert Amounts(cs)[..|cs| - 1] == Amounts(cs[..|cs| - 1]);
    }
  }

  /** Ommers at most 8 blocks back and below the block, as consensus admits them. */
  predicate OmmersInRange(number: u64, ommers: seq<Header>) {
    forall i :: 0 <= i < |ommers| ==> ommers[i].number < number <= ommers[i].number + 8
  }

  ghost function SumOfDepthsBelow8(number: u64, ommers: seq<Header>): int {
    if ommers == [] then 0
    else SumOfDepthsBelow8(number, ommers[..|ommers| - 1]) + (8 - (number - ommers[|ommers| - 1].number))
  }

  lemma {:induction false} OmmerTotal(base: u128, number: u64, ommers: seq<Header>)
    requires IsBaseReward(base) && OmmersInRange(number, ommers)
    ensures 0 <= SumOfDepthsBelow8(number, ommers) <= 7 * |ommers|
    ensures Sum(Amounts(Collect(OmmerContribution(base, number), ommers)))
         == SumOfDepthsBelow8(number, ommers) * (base / 8)
    decreases |ommers|
  {
    if ommers != [] {
      var front, last := ommers[..|ommers| - 1], ommers[|ommers| - 1];
      OmmerTotal(base, number, front);
      OmmerRewardExact(base, number, last.number);
      var f := OmmerContribution(base, number);
      AmountsSnoc(Collect(f, front), f(last).value);
      Distribute(SumOfDepthsBelow8(number, front), 8 + last.number - number, base / 8);
    } else {
      assert Amounts(Collect(OmmerContribution(base, number), ommers)) == [];
    }
  }

  lemma {:induction false} Distribute(x: int, y: int, z: int)
    ensures (x + y) * z == x * z + y * z
  {
  }

  lemma {:induction false} AmountsSnoc(cs: seq<Contribution>, c: Contribution)
    ensures Sum(Amounts(cs + [c])) == Sum(Amounts(cs)) + c.amount
  {
    assert Amounts(cs + [c])[..|cs|] == Amounts(cs);
  }

  lemma {:induction false} AmountsConcat(xs: seq<Contribution>, ys: seq<Contribution>)
    ensures Sum(Amounts(xs + ys)) == Sum(Amounts(xs)) + Sum(Amounts(ys))
  {
    assert Amounts(xs + ys) == Amounts(xs) + Amounts(ys);
    SumConcat(Amounts(xs), Amounts(ys));
  }

  /** Before Paris a block with ommers at depths d1..dn pays base + n/32 base + sum of (8 - di)/8 base. */
  lemma {:induction false} PreMergeTotal(spec: ChainSpec, env: BlockEnv, ommers: seq<Header>)
    requires |ommers| < U64
    requires !spec.paris.ActiveAtBlock(SaturatingU64(env.number))
    requires OmmersInRange(SaturatingU64(env.number), ommers)
    ensures var number := SaturatingU64(env.number);
            var base := BaseBlockRewardPreMerge(spec, number);
            32 * Sum(Amounts(RewardContributions(spec, env, ommers)))
            == 32 * base + |ommers| * base + 4 * SumOfDepthsBelow8(number, ommers) * base
  {
    var number := SaturatingU64(env.number);
    var base := BaseBlockRewardPreMerge(spec, number);
    var f := OmmerContribution(base, number);
    OmmerTotal(base, number, ommers);
    BlockRewardExact(base, |ommers|);
    AmountsSnoc(Collect(f, ommers), Contribution(env.beneficiary, BlockReward(base, |ommers|)));
    var d := SumOfDepthsBelow8(number, ommers);
    assert 32 * (d * (base / 8)) == 4 * d * base by {
      assert base == 8 * (base / 8);
      Reassociate(d, base / 8);
    }
  }

  lemma {:induction false} Reassociate(d: int, eighth: int)
    ensures 32 * (d * eighth) == 4 * d * (8 * eighth)
  {
  }

  lemma {:induction false} WithdrawalTotal(ws: seq<Withdrawal>)
    ensures Sum(Amounts(Collect(WithdrawalContribution, ws))) <= |ws| * (U64 * GWEI_TO_WEI)
    decreases |ws|
  {
    if ws != [] {
      var front, last := ws[..|ws| - 1], ws[|ws| - 1];
      WithdrawalTotal(front);
      if last.amount > 0 {
        AmountsSnoc(Collect(WithdrawalContribution, front), WithdrawalContribution(last).value);
      }
    } else {
      assert Amounts(Collect(WithdrawalContribution, ws)) == [];
    }
  }

  /**
   With fewer than 2^33 ommers and withdrawals, all ommers in range, no entry can wrap: every
   increment is the exact sum of its contributions.
   */
  lemma {:induction false} NoEntryOverflows(
      spec: ChainSpec, env: BlockEnv, ommers: seq<Header>, withdrawals: Option<seq<Withdrawal>>, a: Address)
    requires |ommers| + (if withdrawals.Some? then |withdrawals.value| else 0) < 0x2_0000_0000
    requires OmmersInRange(SaturatingU64(env.number), ommers)
    ensures var cs := Contributions(spec, env, ommers, withdrawals);
            var m := Increments(spec, env, ommers, withdrawals);
            Sum(Amounts(cs)) < U128 && (if a in m then m[a] == AmountFor(cs, a) else AmountFor(cs, a) == 0)
  {
    var cs := Contributions(spec, env, ommers, withdrawals);
    ContributionsBounded(spec, env, ommers, withdrawals);
    EntryIsSumOfContributions(cs, a);
    AmountAtMostSum(cs, a);
    Unwrapped(AmountFor(cs, a));
  }

  lemma {:induction false} ContributionsBounded(
      spec: ChainSpec, env: BlockEnv, ommers: seq<Header>, withdrawals: Option<seq<Withdrawal>>)
    requires |ommers| + (if withdrawals.Some? then |withdrawals.value| else 0) < 0x2_0000_0000
    requires OmmersInRange(SaturatingU64(env.number), ommers)
    ensures Sum(Amounts(Contributions(spec, env, ommers, withdrawals))) < U128
  {
    var rewards := RewardContributions(spec, env, ommers);
    var paid := WithdrawalContributions(spec, SaturatingU64(env.timestamp), withdrawals);
    AmountsConcat(rewards, paid);
    RewardsBounded(spec, env, ommers);
    if spec.shanghai.ActiveAtTimestamp(SaturatingU64(env.timestamp)) && withdrawals.Some? {
      WithdrawalTotal(withdrawals.value);
    } else {
      assert Amounts(paid) == [];
    }
  }

  lemma {:induction false} RewardsBounded(spec: ChainSpec, env: BlockEnv, ommers: seq<Header>)
    requires |ommers| < 0x2_0000_0000
    requires OmmersInRange(SaturatingU64(env.number), ommers)
    ensures Sum(Amounts(RewardContributions(spec, env, ommers))) <= 5 * ETH_TO_WEI * (|ommers| + 1)
  {
    var number := SaturatingU64(env.number);
    if spec.paris.ActiveAtBlock(number) {
      assert Amounts(RewardContributions(spec, env, ommers)) == [];
    } else {
      PreMergeTotal(spec, env, ommers);
      var base := BaseBlockRewardPreMerge(spec, number);
      OmmerTotal(base, number, ommers);
      RewardBound(|ommers|, SumOfDepthsBelow8(number, ommers), base);
    }
  }

  lemma {:induction false} RewardBound(n: nat, d: nat, base: nat)
    requires d <= 7 * n && base <= 5 * ETH_TO_WEI
    ensures 32 * base + n * base + 4 * d * base <= 32 * (5 * ETH_TO_WEI * (n + 1))
  {
    MulMono(4 * d, 28 * n, base);
    MulMono(base, 5 * ETH_TO_WEI, 32 * n + 32);
    assert 32 * base + n * base + 28 * n * base <= base * (32 * n + 32);
  }

  lemma {:induction false} MulMono(x: nat, y: nat, z: nat)
    requires x <= y
    ensures x * z <= y * z
  {
  }
}
