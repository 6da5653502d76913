/** A precompile table that stays static until it is changed, with a lookup for other addresses. */
module Precompiles {
  import opened Common

  datatype PrecompileInput = PrecompileInput(
    data: Bytes, gas: u64, caller: Address, value: u256, target: Address, bytecodeAddress: Address, journal: nat)

  datatype PrecompileResult = Done(gasUsed: u64, bytes: Bytes, reverted: bool) | Failed(reason: nat)

  type PrecompileFn = (Bytes, u64) -> PrecompileResult

  /** A precompile of the static set: pure, reading its data and gas only. */
  datatype Builtin = Builtin(id: string, fn: PrecompileFn)

  datatype DynPrecompile = DynPrecompile(id: string, call: PrecompileInput -> PrecompileResult, pure: bool)

  type Lookup = Address -> Option<DynPrecompile>

  /** `DynPrecompile::from(fn)`: same behaviour, but the id becomes that of a closure. */
  function FromFn(fn: PrecompileFn): DynPrecompile {
    DynPrecompile("closure", (input: PrecompileInput) => fn(input.data, input.gas), true)
  }

  /** A static precompile seen through the `Precompile` trait. */
  function AsPrecompile(b: Builtin): DynPrecompile {
    FromFn(b.fn).(id := b.id)
  }

  datatype Kind =
    | Static(table: map<Address, Builtin>)
    | Dynamic(inner: map<Address, DynPrecompile>, addresses: set<Address>)

  datatype Table = Table(kind: Kind, lookup: Option<Lookup>)

  datatype Operation =
    | MapOne(address: Address, f: DynPrecompile -> DynPrecompile)
    | MapFiltered(g: (Address, DynPrecompile) -> DynPrecompile, filter: (Address, DynPrecompile) -> bool)
    | Apply(address: Address, h: Option<DynPrecompile> -> Option<DynPrecompile>)
    | SetLookup(l: Lookup)
    | EnsureDynamic

  // ---- What the code does ------------------------------------------------------------------

  function ToDynamic(k: Kind): (r: Kind)
    ensures r.Dynamic?
  {
    match k
    case Static(table) => Dynamic(map a | a in table :: FromFn(table[a].fn), table.Keys)
    case Dynamic(_, _) => k
  }

  function Transition(t: Table, op: Operation): Table {
    var d := ToDynamic(t.kind);
    match op
    case MapOne(a, f) =>
      t.(kind := if a in d.inner then d.(inner := (d.inner - {a})[a := f(d.inner[a])]) else d)
    case MapFiltered(g, filter) =>
      t.(kind := d.(inner := map a | a in d.inner :: if filter(a, d.inner[a]) then g(a, d.inner[a]) else d.inner[a]))
    case Apply(a, h) =>
      (match h(if a in d.inner then Some(d.inner[a]) else None)
       case Some(p) => t.(kind := Dynamic(d.inner[a := p], d.addresses + {a}))
       case None => t.(kind := Dynamic(d.inner - {a}, d.addresses - {a})))
    case SetLookup(l) => t.(lookup := Some(l))
    case EnsureDynamic => t.(kind := d)
  }

  function Run(t: Table, ops: seq<Operation>): Table
    decreases |ops|
  {
    if ops == [] then t else Run(Transition(t, ops[0]), ops[1..])
  }

  function Get(t: Table, a: Address): Option<DynPrecompile> {
    var found :=
      match t.kind
      case Static(table) => if a in table then Some(AsPrecompile(table[a])) else None
      case Dynamic(inner, _) => if a in inner then Some(inner[a]) else None;
    if found.Some? then found
    else match t.lookup
      case None => None
      case Some(l) => l(a)
  }

  function Addresses(t: Table): set<Address> {
    match t.kind
    case Static(table) => table.Keys
    case Dynamic(_, addresses) => addresses
  }

  class PrecompilesMap {
    var kind: Kind
    var lookup: Option<Lookup>

    function View(): Table
      reads this
    {
      Table(kind, lookup)
    }

    constructor (table: map<Address, Builtin>)
      ensures View() == Table(Static(table), None)
    {
      kind, lookup := Static(table), None;
    }

    method EnsureDynamicPrecompiles()
      modifies this
      ensures View() == Transition(old(View()), EnsureDynamic)
    {
      if kind.Static? {
        var table := kind.table;
        var inner: map<Address, DynPrecompile> := map[];
        var addresses: set<Address> := {};
        var rest := table.Keys;
        while rest != {}
          invariant rest <= table.Keys && inner.Keys == addresses == table.Keys - rest
          invariant forall a :: a in inner ==> inner[a] == FromFn(table[a].fn)
          decreases rest
        {
          var a :| a in rest;
          inner := inner[a := FromFn(table[a].fn)];
          addresses := addresses + {a};
          rest := rest - {a};
        }
        kind := Dynamic(inner, addresses);
        assert kind == ToDynamic(Static(table));
      }
    }

    method MapPrecompile(address: Address, f: DynPrecompile -> DynPrecompile)
      modifies this
      ensures View() == Transition(old(View()), MapOne(address, f))
    {
      EnsureDynamicPrecompiles();
      if address in kind.inner {
        var p := kind.inner[address];
        kind := kind.(inner := kind.inner - {address});
        kind := kind.(inner := kind.inner[address := f(p)]);
      }
    }

    method MapPrecompilesFiltered(
        f: (Address, DynPrecompile) -> DynPrecompile, filter: (Address, DynPrecompile) -> bool)
      modifies this
      ensures View() == Transition(old(View()), MapFiltered(f, filter))
    {
      EnsureDynamicPrecompiles();
      var entries := kind.inner;
      kind := kind.(inner := map[]);
      var newMap: map<Address, DynPrecompile> := map[];
      var rest := entries.Keys;
      while rest != {}
        invariant rest <= entries.Keys && newMap.Keys == entries.Keys - rest
        invariant forall a :: a in newMap ==>
          newMap[a] == if filter(a, entries[a]) then f(a, entries[a]) else entries[a]
        decreases rest
      {
        var a :| a in rest;
        if filter(a, entries[a]) {
          newMap := newMap[a := f(a, entries[a])];
        } else {
          newMap := newMap[a := entries[a]];
        }
        rest := rest - {a};
      }
      kind := kind.(inner := newMap);
      assert newMap == map a | a in entries :: if filter(a, entries[a]) then f(a, entries[a]) else entries[a];
    }

    method ApplyPrecompile(address: Address, f: Option<DynPrecompile> -> Option<DynPrecompile>)
      modifies this
      ensures View() == Transition(old(View()), Apply(address, f))
    {
      EnsureDynamicPrecompiles();
      var current := if address in kind.inner then Some(kind.inner[address]) else None;
      match f(current) {
        case Some(p) =>
          kind := kind.(inner := kind.inner[address := p]);
          kind := kind.(addresses := kind.addresses + {address});
        case None =>
          kind := kind.(inner := kind.inner - {address});
          kind := kind.(addresses := kind.addresses - {address});
      }
    }

    method SetPrecompileLookup(l: Lookup)
      modifies this
      ensures View() == Transition(old(View()), SetLookup(l))
    {
      lookup := Some(l);
    }
  }

  // ---- The simple table it stands for ------------------------------------------------------

  /** One map from addresses to precompiles, and a fallback. */
  datatype Simple = Simple(entries: map<Address, DynPrecompile>, fallback: Option<Lookup>)

  function Model(t: Table): Simple {
    Simple(
      match t.kind
      case Static(table) => map a | a in table :: FromFn(table[a].fn)
      case Dynamic(inner, _) => inner,
      t.lookup)
  }

  function SimpleTransition(s: Simple, op: Operation): Simple {
    match op
    case MapOne(a, f) => if a in s.entries then s.(entries := s.entries[a := f(s.entries[a])]) else s
    case MapFiltered(g, filter) =>
      s.(entries := map a | a in s.entries ::
        if filter(a, s.entries[a]) then g(a, s.entries[a]) else s.entries[a])
    case Apply(a, h) =>
      (match h(if a in s.entries then Some(s.entries[a]) else None)
       case Some(p) => s.(entries := s.entries[a := p])
       case None => s.(entries := s.entries - {a}))
    case SetLookup(l) => s.(fallback := Some(l))
    case EnsureDynamic => s
  }

  function SimpleRun(s: Simple, ops: seq<Operation>): Simple
    decreases |ops|
  {
    if ops == [] then s else SimpleRun(SimpleTransition(s, ops[0]), ops[1..])
  }

  function SimpleGet(s: Simple, a: Address): Option<DynPrecompile> {
    if a in s.entries then Some(s.entries[a])
    else if s.fallback.Some? then s.fallback.value(a)
    else None
  }

  /** The separate address set is the key set. */
  predicate AddressesExact(t: Table) {
    t.kind.Dynamic? ==> t.kind.addresses == t.kind.inner.Keys
  }

  lemma {:induction false} TransitionRefines(t: Table, op: Operation)
    requires AddressesExact(t)
    ensures AddressesExact(Transition(t, op))
    ensures Model(Transition(t, op)) == SimpleTransition(Model(t), op)
  {
    var d := ToDynamic(t.kind);
    assert d.inner == Model(t).entries;
    if op.MapOne? && op.address in d.inner {
      var v := op.f(d.inner[op.address]);
      assert (d.inner - {op.address})[op.address := v] == d.inner[op.address := v];
    }
  }

  /** Any sequence of operations keeps the table in step with the simple one. */
  lemma {:induction false} RunRefines(t: Table, ops: seq<Operation>)
    requires AddressesExact(t)
    ensures AddressesExact(Run(t, ops))
    ensures Model(Run(t, ops)) == SimpleRun(Model(t), ops)
    decreases |ops|
  {
    if ops != [] {
      TransitionRefines(t, ops[0]);
      RunRefines(Transition(t, ops[0]), ops[1..]);
    }
  }

  /** Two answers a caller cannot tell apart except by their ids. */
  ghost predicate SameButId(x: Option<DynPrecompile>, y: Option<DynPrecompile>) {
    && (x.Some? <==> y.Some?)
    && (x.Some? ==> x.value.pure == y.value.pure && forall input :: x.value.call(input) == y.value.call(input))
  }

  /**
   After any operations `get` answers as the simple table does, in behaviour and purity; ids agree too
   unless the table is still static and holds the address. The registered (and warm) addresses are
   exactly the simple table's keys, so addresses only the fallback knows are never among them.
   */
  lemma {:induction false} ObservationsAgree(t: Table, ops: seq<Operation>, a: Address)
    requires AddressesExact(t)
    ensures var end := Run(t, ops);
            var simple := SimpleRun(Model(t), ops);
            SameButId(Get(end, a), SimpleGet(simple, a)) &&
            (end.kind.Dynamic? || a !in simple.entries ==> Get(end, a) == SimpleGet(simple, a)) &&
            Addresses(end) == simple.entries.Keys &&
            (a !in simple.entries ==> a !in Addresses(end))
  {
    RunRefines(t, ops);
    var end := Run(t, ops);
    if end.kind.Static? && a in end.kind.table {
      assert Model(end).entries[a] == FromFn(end.kind.table[a].fn);
    }
  }

  /**
   Converting to the dynamic form changes nothing a caller sees but the id of each static entry: before
   and after, the entry runs the built-in function on the data and gas of its input, and is pure.
   */
  lemma {:induction false} ConversionChangesOnlyIds(t: Table, a: Address)
    requires AddressesExact(t)
    ensures var (before, after) := (Get(t, a), Get(Transition(t, EnsureDynamic), a));
            SameButId(after, before) && Addresses(Transition(t, EnsureDynamic)) == Addresses(t) &&
            (t.kind.Static? && a in t.kind.table ==>
             before.Some? && after.Some? && before.value.pure && after.value.pure &&
             before.value.id == t.kind.table[a].id && after.value.id == "closure" &&
             forall input ::
               before.value.call(input) == after.value.call(input) == t.kind.table[a].fn(input.data, input.gas))
  {
    ObservationsAgree(t, [EnsureDynamic], a);
  }

  /** A static table answers for its own entries by its own functions and leaves the rest to the fallback. */
  lemma {:induction false} StaticRuns(table: map<Address, Builtin>, lookup: Option<Lookup>, a: Address)
    ensures var t := Table(Static(table), lookup);
            if a in table then
              Get(t, a).Some? && Get(t, a).value.id == table[a].id && Get(t, a).value.pure &&
              forall input :: Get(t, a).value.call(input) == table[a].fn(input.data, input.gas)
            else Get(t, a) == if lookup.Some? then lookup.value(a) else None
  {
    var t := Table(Static(table), lookup);
    if a in table {
      forall input: PrecompileInput
        ensures Get(t, a).value.call(input) == table[a].fn(input.data, input.gas)
      {
      }
    }
  }

  /**
   One operation, as `get` tells of it: what it does at its own address, or at the addresses its filter
   picks, and that all others answer as before. All but the lookup see the dynamic form.
   */
  lemma {:induction false} OperationExact(t: Table, op: Operation, a: Address)
    requires AddressesExact(t)
    ensures var seen := if op.SetLookup? then t else Transition(t, EnsureDynamic);
            var (before, after) := (Get(seen, a), Get(Transition(t, op), a));
            var here := a in Addresses(t);
            (here ==> before.Some?) &&
            match op
            case MapOne(b, f) => after == if here && a == b then Some(f(before.value)) else before
            case MapFiltered(g, filter) =>
              after == if here && filter(a, before.value) then Some(g(a, before.value)) else before
            case Apply(b, h) =>
              if a != b then after == before
              else
                var p := h(if here then before else None);
                after == if p.Some? then p else if t.lookup.Some? then t.lookup.value(a) else None
            case SetLookup(l) => after == if here then before else l(a)
            case EnsureDynamic => after == before
  {
  }
}
