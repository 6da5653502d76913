/** Machine integers, options, results and finite sums shared by every module. */
module Common {
  datatype Option<+T> = None | Some(value: T)

  datatype Result<+T, +E> = Ok(value: T) | Err(error: E)

  /** What a fallible step leaves behind: the state it reached and the value or error it returned. */
  datatype Outcome<+S, +T, +E> = Outcome(state: S, result: Result<T, E>)

  const U64: nat := 0x1_0000_0000_0000_0000
  const U128: nat := 0x1_0000_0000_0000_0000_0000_0000_0000_0000
  const U256: nat := 0x1_0000_0000_0000_0000_0000_0000_0000_0000_0000_0000_0000_0000_0000_0000_0000_0000

  type u64 = n: int | 0 <= n < U64
  type u128 = n: int | 0 <= n < U128
  type u256 = n: int | 0 <= n < U256
  type byte = n: int | 0 <= n < 256

  datatype Address = Address(word: nat)
  type Hash = int
  type Bytes = seq<byte>

  function Min(a: int, b: int): int { if a <= b then a else b }

  // Addition and subtraction as an optimised build performs them: modulo the width of the type.
  function AddU64(a: u64, b: u64): (r: u64)
    ensures r == a + b || r == a + b - U64
  {
    (a + b) % U64
  }

  function SubU64(a: u64, b: u64): (r: u64)
    ensures r == a - b || r == a - b + U64
  {
    (a - b) % U64
  }

  function AddU128(a: u128, b: u128): (r: u128)
    ensures r == a + b || r == a + b - U128
  {
    (a + b) % U128
  }

  /** `saturating_to::<u64>()` of a 256-bit value: the value itself, or the largest that fits below it. */
  function SaturatingU64(x: u256): (r: u64)
    ensures r <= x && (r < x ==> r + 1 == U64)
  {
    Min(x, U64 - 1)
  }

  function Sum(xs: seq<nat>): nat
  {
    if xs == [] then 0 else Sum(xs[..|xs| - 1]) + xs[|xs| - 1]
  }

  lemma {:induction false} SumConcat(xs: seq<nat>, ys: seq<nat>)
    ensures Sum(xs + ys) == Sum(xs) + Sum(ys)
    decreases |ys|
  {
    if ys == [] {
      assert xs + ys == xs;
    } else {
      var front := ys[..|ys| - 1];
      assert (xs + ys)[..|xs + ys| - 1] == xs + front;
      SumConcat(xs, front);
    }
  }

  function Get(m: map<Address, nat>, k: Address): nat { if k in m then m[k] else 0 }

  /** The sum of all the values of a finite map. */
  ghost function Total(m: map<Address, nat>): nat
  {
    if m == map[] then 0 else var k :| k in m; m[k] + Total(m - {k})
  }

  lemma {:induction false} TotalRemove(m: map<Address, nat>, k: Address)
    ensures Total(m) == Get(m, k) + Total(m - {k})
    decreases |m|
  {
    if k !in m {
      assert m - {k} == m;
    } else {
      var j :| j in m && Total(m) == m[j] + Total(m - {j});
      if j != k {
        TotalRemove(m - {j}, k);
        TotalRemove(m - {k}, j);
        assert m - {j} - {k} == m - {k} - {j};
      }
    }
  }

  lemma {:induction false} TotalUpdate(m: map<Address, nat>, k: Address, v: nat)
    ensures Total(m[k := v]) + Get(m, k) == Total(m) + v
  {
    TotalRemove(m[k := v], k);
    TotalRemove(m, k);
    assert m[k := v] - {k} == m - {k};
  }

  lemma {:induction false} GetRemove(m: map<Address, nat>, k: Address, j: Address)
    ensures Get(m - {k}, j) == if j == k then 0 else Get(m, j)
  {
  }

  /** Maps that add up key by key add up in total. */
  lemma {:induction false} TotalsAgree(
      keys: set<Address>, a: map<Address, nat>, b: map<Address, nat>, c: map<Address, nat>, d: map<Address, nat>)
    requires a.Keys <= keys && b.Keys <= keys && c.Keys <= keys && d.Keys <= keys
    requires forall k :: Get(a, k) + Get(b, k) == Get(c, k) + Get(d, k)
    ensures Total(a) + Total(b) == Total(c) + Total(d)
    decreases keys
  {
    if keys == {} {
      assert a == map[] && b == map[] && c == map[] && d == map[];
    } else {
      var k :| k in keys;
      TotalRemove(a, k);
      TotalRemove(b, k);
      TotalRemove(c, k);
      TotalRemove(d, k);
      forall j
        ensures Get(a - {k}, j) + Get(b - {k}, j) == Get(c - {k}, j) + Get(d - {k}, j)
      {
        GetRemove(a, k, j);
        GetRemove(b, k, j);
        GetRemove(c, k, j);
        GetRemove(d, k, j);
      }
      TotalsAgree(keys - {k}, a - {k}, b - {k}, c - {k}, d - {k});
    }
  }

  lemma {:induction false} TotalZero(m: map<Address, nat>)
    ensures Total(m) == 0 <==> forall k :: k in m ==> m[k] == 0
    decreases |m|
  {
    if m != map[] {
      var k :| k in m;
      TotalRemove(m, k);
      assert m.Keys == (m - {k}).Keys + {k};
      TotalZero(m - {k});
      if forall j :: j in m - {k} ==> (m - {k})[j] == 0 {
        assert forall j :: j in m && j != k ==> j in m - {k} && m[j] == (m - {k})[j];
      } else {
        var j :| j in m - {k} && (m - {k})[j] != 0;
        assert m[j] != 0;
      }
    }
  }
}
