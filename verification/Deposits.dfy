/** EIP-6110: collecting the deposit events of a block into one byte string. */
module Deposits {
  import opened Common
  import opened Evm

  const DEPOSIT_BYTES_SIZE: nat := 48 + 32 + 8 + 96 + 8

  const DEPOSIT_EVENT_SIGNATURE: Hash := 0x649bbc62d0e31342afea4e5cd82d4049e7e1ee912fc0889aa790803be39038c5

  const MAINNET_DEPOSIT_CONTRACT: Address := Address(0x00000000219ab540356cbb839cbe05303d7705fa)

  datatype DepositEvent = DepositEvent(
    pubkey: Bytes, withdrawalCredentials: Bytes, amount: Bytes, signature: Bytes, index: Bytes)
  {
    /** The field sizes section "Deposit request" of EIP-6110 fixes. */
    predicate WellSized() {
      |pubkey| == 48 && |withdrawalCredentials| == 32 && |amount| == 8 && |signature| == 96 && |index| == 8
    }
  }

  /** The ABI decoder of the event; it may reject a log. */
  type DepositDecoder = Log -> Option<DepositEvent>

  function Encode(e: DepositEvent): Bytes {
    e.pubkey + e.withdrawalCredentials + e.amount + e.signature + e.index
  }

  function EncodeAll(es: seq<DepositEvent>): Bytes {
    if es == [] then [] else Encode(es[0]) + EncodeAll(es[1..])
  }

  predicate IsDeposit(contract: Address, log: Log) {
    log.address == contract && log.topics != [] && log.topics[0] == DEPOSIT_EVENT_SIGNATURE
  }

  /** The deposit logs among `logs`, in order: those of the contract whose first topic is the event's. */
  function DepositLogs(contract: Address, logs: seq<Log>): (r: seq<Log>)
    ensures forall l :: l in r <==>
      l in logs && l.address == contract && l.topics != [] && l.topics[0] == DEPOSIT_EVENT_SIGNATURE
  {
    if logs == [] then []
    else
      var front := DepositLogs(contract, logs[..|logs| - 1]);
      var last := logs[|logs| - 1];
      assert forall l :: l in logs <==> l in logs[..|logs| - 1] || l == last;
      if IsDeposit(contract, last) then front + [last] else front
  }

  ghost predicate AllDecode(decode: DepositDecoder, logs: seq<Log>) {
    forall i :: 0 <= i < |logs| ==> decode(logs[i]).Some?
  }

  ghost function DecodeAll(decode: DepositDecoder, logs: seq<Log>): seq<DepositEvent>
    requires AllDecode(decode, logs)
  {
    seq(|logs|, i requires 0 <= i < |logs| => decode(logs[i]).value)
  }

  /** Appending to `out` log by log, stopping at the first deposit log that does not decode. */
  function Accumulate(contract: Address, decode: DepositDecoder, out: Bytes, logs: seq<Log>)
    : Outcome<Bytes, (), BlockError>
  {
    if logs == [] then Outcome(out, Ok(()))
    else
      var front := Accumulate(contract, decode, out, logs[..|logs| - 1]);
      var last := logs[|logs| - 1];
      if front.result.Err? || !IsDeposit(contract, last) then front
      else match decode(last)
        case None => Outcome(front.state, Err(DepositRequestDecode))
        case Some(e) => Outcome(front.state + Encode(e), Ok(()))
  }

  function LogsOf(receipts: seq<Receipt>): seq<Log> {
    if receipts == [] then [] else LogsOf(receipts[..|receipts| - 1]) + receipts[|receipts| - 1].logs
  }

  function ContractOf(configured: Option<Address>): Address {
    if configured.Some? then configured.value else MAINNET_DEPOSIT_CONTRACT
  }

  function Parse(configured: Option<Address>, decode: DepositDecoder, receipts: seq<Receipt>)
    : Result<Bytes, BlockError>
  {
    var o := Accumulate(ContractOf(configured), decode, [], LogsOf(receipts));
    match o.result
    case Ok(_) => Ok(o.state)
    case Err(e) => Err(e)
  }

  method AccumulateDepositsFromLogs(contract: Address, decode: DepositDecoder, logs: seq<Log>, out: Bytes)
    returns (out': Bytes, r: Result<(), BlockError>)
    ensures Outcome(out', r) == Accumulate(contract, decode, out, logs)
  {
    out', r := out, Ok(());
    for i := 0 to |logs|
      invariant Outcome(out', r) == Accumulate(contract, decode, out, logs[..i])
      invariant r.Ok?
    {
      assert logs[..i + 1][..i] == logs[..i];
      if logs[i].address == contract {
        if logs[i].topics != [] && logs[i].topics[0] == DEPOSIT_EVENT_SIGNATURE {
          match decode(logs[i]) {
            case None =>
              r := Err(DepositRequestDecode);
              ErrorStays(contract, decode, out, logs[..i + 1], logs[i + 1..]);
              assert logs == logs[..i + 1] + logs[i + 1..];
              return;
            case Some(e) =>
              ghost var before := out';
              out' := out' + e.pubkey + e.withdrawalCredentials + e.amount + e.signature + e.index;
              assert out' == before + Encode(e);
          }
        }
      }
    }
    assert logs[..|logs|] == logs;
  }

  method AccumulateDepositsFromReceipts(
      contract: Address, decode: DepositDecoder, receipts: seq<Receipt>, out: Bytes)
    returns (out': Bytes, r: Result<(), BlockError>)
    ensures Outcome(out', r) == Accumulate(contract, decode, out, LogsOf(receipts))
  {
    out', r := out, Ok(());
    for i := 0 to |receipts|
      invariant Outcome(out', r) == Accumulate(contract, decode, out, LogsOf(receipts[..i]))
      invariant r.Ok?
    {
      assert receipts[..i + 1][..i] == receipts[..i];
      AccumulateConcat(contract, decode, out, LogsOf(receipts[..i]), receipts[i].logs);
      out', r := AccumulateDepositsFromLogs(contract, decode, receipts[i].logs, out');
      if r.Err? {
        ReceiptErrorStays(contract, decode, out, receipts, i + 1);
        return;
      }
    }
    assert receipts[..|receipts|] == receipts;
  }

  method ParseDepositsFromReceipts(configured: Option<Address>, decode: DepositDecoder, receipts: seq<Receipt>)
    returns (r: Result<Bytes, BlockError>)
    ensures r == Parse(configured, decode, receipts)
  {
    var contract := if configured.Some? then configured.value else MAINNET_DEPOSIT_CONTRACT;
    var out, ok := AccumulateDepositsFromReceipts(contract, decode, receipts, []);
    match ok {
      case Ok(_) => r := Ok(out);
      case Err(e) => r := Err(e);
    }
  }

  lemma {:induction false} AccumulateConcat(
      contract: Address, decode: DepositDecoder, out: Bytes, xs: seq<Log>, ys: seq<Log>)
    ensures var first := Accumulate(contract, decode, out, xs);
            Accumulate(contract, decode, out, xs + ys) ==
            if first.result.Err? then first else Accumulate(contract, decode, first.state, ys)
    decreases |ys|
  {
    if ys == [] {
      assert xs + ys == xs;
      var first := Accumulate(contract, decode, out, xs);
      assert first.result.Ok? ==> first.result.value == ();
    } else {
      assert (xs + ys)[..|xs + ys| - 1] == xs + ys[..|ys| - 1];
      AccumulateConcat(contract, decode, out, xs, ys[..|ys| - 1]);
    }
  }

  lemma {:induction false} ErrorStays(contract: Address, decode: DepositDecoder, out: Bytes, xs: seq<Log>, ys: seq<Log>)
    requires Accumulate(contract, decode, out, xs).result.Err?
    ensures Accumulate(contract, decode, out, xs + ys) == Accumulate(contract, decode, out, xs)
  {
    AccumulateConcat(contract, decode, out, xs, ys);
  }

  lemma {:induction false} LogsOfConcat(xs: seq<Receipt>, ys: seq<Receipt>)
    ensures LogsOf(xs + ys) == LogsOf(xs) + LogsOf(ys)
    decreases |ys|
  {
    if ys == [] {
      assert xs + ys == xs;
    } else {
      assert (xs + ys)[..|xs + ys| - 1] == xs + ys[..|ys| - 1];
      LogsOfConcat(xs, ys[..|ys| - 1]);
    }
  }

  /** Selecting keeps order and repetitions: it goes part by part, and log by log. */
  lemma {:induction false} DepositLogsConcat(contract: Address, xs: seq<Log>, ys: seq<Log>, l: Log)
    ensures DepositLogs(contract, xs + ys) == DepositLogs(contract, xs) + DepositLogs(contract, ys)
    ensures DepositLogs(contract, [l]) ==
            if l.address == contract && l.topics != [] && l.topics[0] == DEPOSIT_EVENT_SIGNATURE then [l] else []
    decreases |ys|
  {
    assert [l][..0] == [];
    if ys == [] {
      assert xs + ys == xs;
    } else {
      assert (xs + ys)[..|xs + ys| - 1] == xs + ys[..|ys| - 1];
      DepositLogsConcat(contract, xs, ys[..|ys| - 1], l);
    }
  }

  lemma {:induction false} ReceiptErrorStays(contract: Address, decode: DepositDecoder, out: Bytes, receipts: seq<Receipt>, i: nat)
    requires i <= |receipts|
    requires Accumulate(contract, decode, out, LogsOf(receipts[..i])).result.Err?
    ensures Accumulate(contract, decode, out, LogsOf(receipts))
         == Accumulate(contract, decode, out, LogsOf(receipts[..i]))
  {
    LogsOfConcat(receipts[..i], receipts[i..]);
    ErrorStays(contract, decode, out, LogsOf(receipts[..i]), LogsOf(receipts[i..]));
    assert receipts == receipts[..i] + receipts[i..];
  }

  lemma {:induction false} EncodeSnoc(es: seq<DepositEvent>, e: DepositEvent)
    ensures EncodeAll(es + [e]) == EncodeAll(es) + Encode(e)
    decreases |es|
  {
    if es == [] {
      assert es + [e] == [e];
      assert [e][1..] == [];
    } else {
      assert (es + [e])[1..] == es[1..] + [e];
      EncodeSnoc(es[1..], e);
    }
  }

  /**
   The bytes appended are the encodings of exactly the deposit logs, in order; collecting fails if
   and only if some deposit log does not decode.
   */
  lemma {:induction false} AccumulateExact(contract: Address, decode: DepositDecoder, out: Bytes, logs: seq<Log>)
    ensures var o := Accumulate(contract, decode, out, logs);
            var deposits := DepositLogs(contract, logs);
            (o.result.Ok? <==> AllDecode(decode, deposits)) &&
            (AllDecode(decode, deposits) ==> o.state == out + EncodeAll(DecodeAll(decode, deposits)))
    decreases |logs|
  {
    if logs != [] {
      var front, last := logs[..|logs| - 1], logs[|logs| - 1];
      AccumulateExact(contract, decode, out, front);
      if IsDeposit(contract, last) {
        OneMoreDeposit(decode, out, DepositLogs(contract, front), last);
      }
    }
  }

  lemma {:induction false} OneMoreDeposit(decode: DepositDecoder, out: Bytes, before: seq<Log>, last: Log)
    ensures AllDecode(decode, before + [last]) <==> AllDecode(decode, before) && decode(last).Some?
    ensures AllDecode(decode, before + [last]) ==>
              out + EncodeAll(DecodeAll(decode, before + [last]))
              == out + EncodeAll(DecodeAll(decode, before)) + Encode(decode(last).value)
  {
    var deposits := before + [last];
    assert deposits[|before|] == last;
    assert forall i :: 0 <= i < |before| ==> deposits[i] == before[i];
    if AllDecode(decode, deposits) {
      assert DecodeAll(decode, deposits) == DecodeAll(decode, before) + [decode(last).value];
      EncodeSnoc(DecodeAll(decode, before), decode(last).value);
    }
  }

  lemma {:induction false} OnlyDecodeErrors(contract: Address, decode: DepositDecoder, out: Bytes, logs: seq<Log>)
    ensures var r := Accumulate(contract, decode, out, logs).result;
            r.Ok? || r.error == DepositRequestDecode
    decreases |logs|
  {
    if logs != [] {
      OnlyDecodeErrors(contract, decode, out, logs[..|logs| - 1]);
    }
  }

  /** A failure leaves behind the encodings of the deposit logs before the first that does not decode. */
  lemma {:induction false} AccumulateStops(contract: Address, decode: DepositDecoder, out: Bytes, logs: seq<Log>)
    returns (k: nat)
    requires !AllDecode(decode, DepositLogs(contract, logs))
    ensures var deposits := DepositLogs(contract, logs);
            k < |deposits| && decode(deposits[k]).None? && AllDecode(decode, deposits[..k]) &&
            Accumulate(contract, decode, out, logs).state == out + EncodeAll(DecodeAll(decode, deposits[..k]))
    decreases |logs|
  {
    var front, last := logs[..|logs| - 1], logs[|logs| - 1];
    var before := DepositLogs(contract, front);
    AccumulateExact(contract, decode, out, front);
    var deposits := if IsDeposit(contract, last) then before + [last] else before;
    assert deposits == DepositLogs(contract, logs);
    if AllDecode(decode, before) {
      k := |before|;
      assert deposits[..k] == before;
    } else {
      k := AccumulateStops(contract, decode, out, front);
      assert deposits[..k] == before[..k];
    }
  }

  /** The logs of a block, receipt by receipt. */
  lemma {:induction false} LogsInOrder(xs: seq<Receipt>, ys: seq<Receipt>, r: Receipt)
    ensures LogsOf(xs + ys) == LogsOf(xs) + LogsOf(ys) && LogsOf([r]) == r.logs
    decreases |ys|
  {
    assert [r][..0] == [];
    if ys == [] {
      assert xs + ys == xs;
    } else {
      assert (xs + ys)[..|xs + ys| - 1] == xs + ys[..|ys| - 1];
      LogsInOrder(xs, ys[..|ys| - 1], r);
    }
  }

  // ---- Cutting the byte string back into events --------------------------------------------

  function DecodeRecord(b: Bytes): DepositEvent
    requires |b| == DEPOSIT_BYTES_SIZE
  {
    DepositEvent(b[..48], b[48..80], b[80..88], b[88..184], b[184..])
  }

  function Split(b: Bytes): seq<DepositEvent> {
    if |b| < DEPOSIT_BYTES_SIZE then []
    else [DecodeRecord(b[..DEPOSIT_BYTES_SIZE])] + Split(b[DEPOSIT_BYTES_SIZE..])
  }

  lemma {:induction false} RecordRoundTrip(e: DepositEvent)
    requires e.WellSized()
    ensures |Encode(e)| == DEPOSIT_BYTES_SIZE && DecodeRecord(Encode(e)) == e
  {
    var a := e.pubkey + e.withdrawalCredentials;
    var b := a + e.amount;
    var c := b + e.signature;
    assert c[..88] == b && b[..80] == a;
    assert Encode(e) == c + e.index;
    assert Encode(e)[..48] == e.pubkey;
    assert Encode(e)[48..80] == e.withdrawalCredentials;
    assert Encode(e)[80..88] == e.amount;
    assert Encode(e)[88..184] == e.signature;
    assert Encode(e)[184..] == e.index;
  }

  /** Events of the fixed sizes take 192 bytes each and can be read back from the byte string. */
  lemma {:induction false} SplitRoundTrip(es: seq<DepositEvent>)
    requires forall i :: 0 <= i < |es| ==> es[i].WellSized()
    ensures |EncodeAll(es)| == DEPOSIT_BYTES_SIZE * |es|
    ensures Split(EncodeAll(es)) == es
    decreases |es|
  {
    if es != [] {
      var head, rest := Encode(es[0]), EncodeAll(es[1..]);
      RecordRoundTrip(es[0]);
      SplitRoundTrip(es[1..]);
      assert (head + rest)[..DEPOSIT_BYTES_SIZE] == head;
      assert (head + rest)[DEPOSIT_BYTES_SIZE..] == rest;
      assert EncodeAll(es) == head + rest;
    }
  }

  /** What a successful parse returns gives back the deposit events of the block, in order. */
  lemma {:induction false} ParseRoundTrip(configured: Option<Address>, decode: DepositDecoder, receipts: seq<Receipt>)
    requires forall log :: decode(log).Some? ==> decode(log).value.WellSized()
    ensures var contract := if configured.Some? then configured.value else MAINNET_DEPOSIT_CONTRACT;
            var deposits := DepositLogs(contract, LogsOf(receipts));
            var r := Parse(configured, decode, receipts);
            (r.Ok? <==> AllDecode(decode, deposits)) &&
            (r.Ok? ==> |r.value| == DEPOSIT_BYTES_SIZE * |deposits| && Split(r.value) == DecodeAll(decode, deposits))
  {
    var deposits := DepositLogs(ContractOf(configured), LogsOf(receipts));
    AccumulateExact(ContractOf(configured), decode, [], LogsOf(receipts));
    if AllDecode(decode, deposits) {
      var events := DecodeAll(decode, deposits);
      SplitRoundTrip(events);
      assert [] + EncodeAll(events) == EncodeAll(events);
    }
  }
}
