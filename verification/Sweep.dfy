/** Checking selected inputs against the transactions that created them, through a cache. */
module PrevOutputs {
  import opened Wrappers
  import opened UtxoSelection

  datatype TxOut = TxOut(value: int, script: Script)

  /** What the API answers for a raw transaction. */
  datatype Fetched = Unavailable | Undecodable | Decoded(hash: string, outputs: seq<TxOut>)

  /** A transaction with the outputs its inputs claim to spend. */
  datatype Authored = Authored(inputs: seq<Input>, prevScripts: seq<Script>, prevValues: seq<int>,
                               totalInput: int, outputs: seq<TxOut>)

  datatype VerifyError =
    | Misaligned
    | CannotGet(txid: string)
    | CannotDecode(txid: string)
    | HashMismatch(txid: string)
    | NoOutput(txid: string, vout: nat)
    | ValueMismatch(txid: string, vout: nat)
    | ScriptMismatch(txid: string, vout: nat)

  predicate Aligned(tx: Authored) {
    |tx.inputs| == |tx.prevScripts| == |tx.prevValues|
  }

  function Answer(fetch: string -> Fetched, txid: string): Result<seq<TxOut>, VerifyError> {
    match fetch(txid)
    case Unavailable => Err(CannotGet(txid))
    case Undecodable => Err(CannotDecode(txid))
    case Decoded(hash, outputs) => if hash != txid then Err(HashMismatch(txid)) else Ok(outputs)
  }

  /** The check of one input, asking for its transaction afresh. */
  function InputVerdict(fetch: string -> Fetched, tx: Authored, i: nat): Option<VerifyError>
    requires Aligned(tx) && i < |tx.inputs|
  {
    var (txid, vout) := tx.inputs[i].outpoint;
    match Answer(fetch, txid)
    case Err(e) => Some(e)
    case Ok(outputs) =>
      if vout >= |outputs| then Some(NoOutput(txid, vout))
      else if outputs[vout].value != tx.prevValues[i] then Some(ValueMismatch(txid, vout))
      else if outputs[vout].script != tx.prevScripts[i] then Some(ScriptMismatch(txid, vout))
      else None
  }

  /** The first error of the inputs from i on. */
  function VerdictFrom(fetch: string -> Fetched, tx: Authored, i: nat): Option<VerifyError>
    requires Aligned(tx) && i <= |tx.inputs|
    decreases |tx.inputs| - i
  {
    if i == |tx.inputs| then None
    else if InputVerdict(fetch, tx, i).Some? then InputVerdict(fetch, tx, i)
    else VerdictFrom(fetch, tx, i + 1)
  }

  function Verdict(fetch: string -> Fetched, tx: Authored): Option<VerifyError> {
    if !Aligned(tx) then Some(Misaligned) else VerdictFrom(fetch, tx, 0)
  }

  /**
   The cached check gives the verdict of fetching every input's transaction afresh, and asks for
   each transaction at most once; `asked` lists the requests in order.
   */
  method VerifySelected(fetch: string -> Fetched, tx: Authored) returns (verdict: Option<VerifyError>, asked: seq<string>)
    ensures verdict == Verdict(fetch, tx)
    ensures forall j, k :: 0 <= j < k < |asked| ==> asked[j] != asked[k]
    ensures forall id <- asked :: exists i :: 0 <= i < |tx.inputs| && tx.inputs[i].outpoint.0 == id
  {
    asked := [];
    if !Aligned(tx) { return Some(Misaligned), asked; }
    var transactions: map<string, seq<TxOut>> := map[];
    for i := 0 to |tx.inputs|
      invariant VerdictFrom(fetch, tx, 0) == VerdictFrom(fetch, tx, i)
      invariant forall id <- transactions :: Answer(fetch, id) == Ok(transactions[id])
      invariant forall id :: id in asked <==> id in transactions
      invariant forall j, k :: 0 <= j < k < |asked| ==> asked[j] != asked[k]
      invariant forall id <- asked :: exists i :: 0 <= i < |tx.inputs| && tx.inputs[i].outpoint.0 == id
    {
      var (txid, vout) := tx.inputs[i].outpoint;
      if txid !in transactions {
        asked := asked + [txid];
        match fetch(txid)
        case Unavailable => return Some(CannotGet(txid)), asked;
        case Undecodable => return Some(CannotDecode(txid)), asked;
        case Decoded(hash, outputs) =>
          if hash != txid { return Some(HashMismatch(txid)), asked; }
          transactions := transactions[txid := outputs];
      }
      var outputs := transactions[txid];
      if vout >= |outputs| { return Some(NoOutput(txid, vout)), asked; }
      if outputs[vout].value != tx.prevValues[i] { return Some(ValueMismatch(txid, vout)), asked; }
      if outputs[vout].script != tx.prevScripts[i] { return Some(ScriptMismatch(txid, vout)), asked; }
    }
    return None, asked;
  }

  /** Acceptance means that every input spends an existing output of the claimed value and script. */
  lemma {:induction false} AcceptedInputs(fetch: string -> Fetched, tx: Authored, i: nat)
    requires Aligned(tx) && i <= |tx.inputs|
    ensures VerdictFrom(fetch, tx, i) == None <==>
      forall k :: i <= k < |tx.inputs| ==>
        var (txid, vout) := tx.inputs[k].outpoint;
        && fetch(txid).Decoded? && fetch(txid).hash == txid && vout < |fetch(txid).outputs|
        && fetch(txid).outputs[vout] == TxOut(tx.prevValues[k], tx.prevScripts[k])
    decreases |tx.inputs| - i
  {
    if i < |tx.inputs| {
      AcceptedInputs(fetch, tx, i + 1);
      InputAccepted(fetch, tx, i);
    }
  }

  /** The verdict on a whole transaction: misaligned, or that on its inputs. */
  lemma VerdictMeans(fetch: string -> Fetched, tx: Authored)
    ensures Verdict(fetch, tx) == Some(Misaligned) <==> !(|tx.inputs| == |tx.prevScripts| == |tx.prevValues|)
    ensures Verdict(fetch, tx) == None <==>
      && |tx.inputs| == |tx.prevScripts| == |tx.prevValues|
      && forall k :: 0 <= k < |tx.inputs| ==>
           var (txid, vout) := tx.inputs[k].outpoint;
           && fetch(txid).Decoded? && fetch(txid).hash == txid && vout < |fetch(txid).outputs|
           && fetch(txid).outputs[vout] == TxOut(tx.prevValues[k], tx.prevScripts[k])
  {
    if Aligned(tx) {
      AcceptedInputs(fetch, tx, 0);
      if VerdictFrom(fetch, tx, 0).Some? {
        var k := RefusedInput(fetch, tx, 0);
      }
    }
  }

  /** A refusal names the first input at fault, and what is wrong with it. */
  lemma {:induction false} RefusedInput(fetch: string -> Fetched, tx: Authored, i: nat) returns (k: nat)
    requires Aligned(tx) && i <= |tx.inputs| && VerdictFrom(fetch, tx, i).Some?
    ensures i <= k < |tx.inputs| && forall j :: i <= j < k ==> InputVerdict(fetch, tx, j) == None
    ensures var (txid, vout) := tx.inputs[k].outpoint;
      var f := fetch(txid);
      match VerdictFrom(fetch, tx, i).value
      case Misaligned => false
      case CannotGet(id) => id == txid && f.Unavailable?
      case CannotDecode(id) => id == txid && f.Undecodable?
      case HashMismatch(id) => id == txid && f.Decoded? && f.hash != txid
      case NoOutput(id, n) => (id, n) == (txid, vout) && f.Decoded? && f.hash == txid && vout >= |f.outputs|
      case ValueMismatch(id, n) =>
        (id, n) == (txid, vout) && f.Decoded? && f.hash == txid && vout < |f.outputs| && f.outputs[vout].value != tx.prevValues[k]
      case ScriptMismatch(id, n) =>
        && (id, n) == (txid, vout) && f.Decoded? && f.hash == txid && vout < |f.outputs|
        && f.outputs[vout].value == tx.prevValues[k] && f.outputs[vout].script != tx.prevScripts[k]
    decreases |tx.inputs| - i
  {
    if InputVerdict(fetch, tx, i).Some? {
      k := i;
    } else {
      k := RefusedInput(fetch, tx, i + 1);
    }
  }

  lemma InputAccepted(fetch: string -> Fetched, tx: Authored, i: nat)
    requires Aligned(tx) && i < |tx.inputs|
    ensures InputVerdict(fetch, tx, i) == None <==>
      var (txid, vout) := tx.inputs[i].outpoint;
      && fetch(txid).Decoded? && fetch(txid).hash == txid && vout < |fetch(txid).outputs|
      && fetch(txid).outputs[vout] == TxOut(tx.prevValues[i], tx.prevScripts[i])
  {
    var (txid, vout) := tx.inputs[i].outpoint;
    match fetch(txid)
    case Unavailable =>
    case Undecodable =>
    case Decoded(hash, outputs) =>
      if hash == txid && vout < |outputs| {
        assert outputs[vout] == TxOut(outputs[vout].value, outputs[vout].script);
      }
  }
}

/** Sending everything an address holds: the fee is raised until the signed size is paid for. */
module Sweep {
  import opened Wrappers
  import opened Integers
  import opened UtxoList
  import opened UtxoSelection
  import opened PrevOutputs

  /** Satoshi per virtual byte, as validateFeeRate leaves it. */
  type FeeRate = r: real | 1.0 <= r <= 100000.0 witness 1.0

  /** Virtual size in bytes; no transaction in memory comes near the bound. */
  type VSize = n: nat | n <= 0xFFFF_FFFF

  const ATTEMPTS := 4

  datatype Failure =
    | NoCoins
    | TooManyInputs
    | TotalOverflows
    | NotEnough(fee: int)
    | DustAmount(amount: int)
    | VerifyFailed(error: VerifyError)
    | SigningFailed
    | NoConvergence(actual: int, required: int)

  function Ceil(r: real): (n: int)
    ensures r <= n as real < r + 1.0
  {
    -((-r).Floor)
  }

  /** The least whole fee that pays the rate for every byte. */
  ghost predicate JustPays(fee: int, rate: FeeRate, size: VSize) {
    rate * size as real <= fee as real < rate * size as real + 1.0
  }

  lemma SmallerNeedsLess(rate: FeeRate, a: VSize, feeA: int, b: VSize, feeB: int)
    requires JustPays(feeA, rate, a) && JustPays(feeB, rate, b) && a <= b
    ensures feeA <= feeB
  {
    RateGrows(rate, a as real, b as real);
    NotRaised(rate * a as real, feeA, feeB);
  }

  lemma RateGrows(rate: real, a: real, b: real)
    requires rate >= 0.0 && a <= b
    ensures rate * a <= rate * b
  {
  }

  lemma NotRaised(needed: real, fee: int, paid: int)
    requires needed <= paid as real && (fee as real) < needed + 1.0
    ensures fee <= paid
  {
  }

  /** The fee a size requires. */
  function Required(rate: FeeRate, size: VSize): (fee: nat)
    ensures IsInt64(fee) && rate * size as real <= fee as real < rate * size as real + 1.0
  {
    assert 0.0 <= rate * (size as real) <= 100000.0 * (size as real);
    Ceil(rate * size as real)
  }

  function FirstFee(rate: FeeRate, estimate: VSize): (fee: int)
    ensures 1 <= fee && IsInt64(fee) && fee as real >= rate * estimate as real
    ensures fee == 1 || (fee as real) < rate * estimate as real + 1.0
  {
    if Required(rate, estimate) < 1 then 1 else Required(rate, estimate)
  }

  function OutputTotal(outputs: seq<TxOut>): int {
    if outputs == [] then 0 else OutputTotal(outputs[..|outputs| - 1]) + outputs[|outputs| - 1].value
  }

  method TransactionFee(tx: Authored) returns (fee: int)
    ensures fee == tx.totalInput - OutputTotal(tx.outputs)
  {
    var outputs := 0;
    for i := 0 to |tx.outputs|
      invariant outputs == OutputTotal(tx.outputs[..i])
    {
      outputs := outputs + tx.outputs[i].value;
      assert tx.outputs[..i + 1][..i] == tx.outputs[..i];
    }
    assert tx.outputs[..|tx.outputs|] == tx.outputs;
    return tx.totalInput - outputs;
  }

  /**
   The fees tried and the sizes measured. The first fee is the greater of 1 and what the estimate
   requires, each further one is what the attempt before it turned out to require, and was too
   little there.
   */
  ghost predicate FeeTrail(rate: FeeRate, estimate: VSize, fees: seq<int>, sizes: seq<VSize>) {
    && 0 < |fees| <= ATTEMPTS && |fees| - 1 <= |sizes| <= |fees|
    && fees[0] >= 1 && fees[0] as real >= rate * estimate as real
    && (fees[0] == 1 || JustPays(fees[0], rate, estimate))
    && forall i :: 0 <= i < |fees| - 1 ==> fees[i] < fees[i + 1] && JustPays(fees[i + 1], rate, sizes[i])
  }

  lemma TrailStarts(rate: FeeRate, estimate: VSize)
    ensures FeeTrail(rate, estimate, [FirstFee(rate, estimate)], [])
  {
  }

  /** Measuring the size of the last attempt, and raising the fee to what it requires, continue the trail. */
  lemma TrailContinues(rate: FeeRate, estimate: VSize, fees: seq<int>, sizes: seq<VSize>, size: VSize)
    requires FeeTrail(rate, estimate, fees, sizes) && |sizes| == |fees| - 1
    ensures FeeTrail(rate, estimate, fees, sizes + [size])
    ensures |fees| < ATTEMPTS && fees[|fees| - 1] < Required(rate, size) ==>
      FeeTrail(rate, estimate, fees + [Required(rate, size)], sizes + [size])
  {
    assert JustPays(Required(rate, size), rate, size);
    hide Required, JustPays;
  }

  lemma {:induction false} FeesIncrease(rate: FeeRate, estimate: VSize, fees: seq<int>, sizes: seq<VSize>, i: nat, j: nat)
    requires FeeTrail(rate, estimate, fees, sizes) && i < j < |fees|
    ensures fees[i] < fees[j]
  {
    if i + 1 < j {
      FeesIncrease(rate, estimate, fees, sizes, i, j - 1);
    }
  }

  /** The unfinished transaction that spends all the coins, in order. */
  function Bare(coins: seq<Utxo>, script: Script, sequence: nat): Authored {
    Authored(seq(|coins|, i requires 0 <= i < |coins| => Input(Outpoint(coins[i]), sequence)), seq(|coins|, _ => script),
             seq(|coins|, i requires 0 <= i < |coins| => coins[i].value), Total(coins), [])
  }

  /** All four attempts can fall short only if every signed transaction was larger than the one before. */
  lemma FailureNeedsGrowth(rate: FeeRate, estimate: VSize, fees: seq<int>, sizes: seq<VSize>, required: int, i: nat)
    requires FeeTrail(rate, estimate, fees, sizes) && |fees| == |sizes| == ATTEMPTS && i + 1 < ATTEMPTS
    requires JustPays(required, rate, sizes[ATTEMPTS - 1]) && fees[ATTEMPTS - 1] < required
    ensures sizes[i] < sizes[i + 1]
  {
    hide JustPays;
    var next := if i + 2 < ATTEMPTS then fees[i + 2] else required;
    assert fees[i + 1] < next && JustPays(fees[i + 1], rate, sizes[i]) && JustPays(next, rate, sizes[i + 1]);
    if sizes[i + 1] <= sizes[i] {
      SmallerNeedsLess(rate, sizes[i + 1], next, sizes[i], fees[i + 1]);
    }
  }

  /** Each size is what signing gave for its fee, and no amount left the int64 range. */
  ghost predicate Tried(total: int, sign: (int, nat) -> Option<VSize>, fees: seq<int>, sizes: seq<VSize>) {
    && |sizes| <= |fees|
    && (forall i :: 0 <= i < |fees| ==> IsInt64(fees[i]) && IsInt64(total - fees[i]))
    && forall i :: 0 <= i < |sizes| ==> sign(total - fees[i], i) == Some(sizes[i])
  }

  lemma NothingTried(total: int, sign: (int, nat) -> Option<VSize>)
    ensures Tried(total, sign, [], [])
  {
  }

  lemma TryFee(total: int, sign: (int, nat) -> Option<VSize>, fees: seq<int>, sizes: seq<VSize>, fee: int)
    requires Tried(total, sign, fees, sizes) && |sizes| == |fees|
    requires IsInt64(fee) && IsInt64(total - fee)
    ensures Tried(total, sign, fees + [fee], sizes)
    ensures forall size: VSize :: sign(total - fee, |fees|) == Some(size) ==> Tried(total, sign, fees + [fee], sizes + [size])
  {
  }

  /** Collects the inputs and their sum; fails exactly when the sum is no int64. */
  method SweepInputs(coins: seq<Utxo>, source: Script, sequence: nat)
    returns (ok: bool, inputs: seq<Input>, values: seq<int>, scripts: seq<Script>, totalInput: int)
    requires CoinList(coins)
    ensures ok <==> IsInt64(Total(coins))
    ensures ok ==> Authored(inputs, scripts, values, totalInput, []) == Bare(coins, source, sequence)
  {
    hide IsTransactionID, Outpoint, Total;
    inputs, values, scripts, totalInput := [], [], [], 0;
    TotalOfNone();
    assert coins[..0] == [] && coins[..|coins|] == coins;
    NonNegativeTotal(coins, |coins|);
    for i := 0 to |coins|
      invariant |inputs| == |values| == |scripts| == i
      invariant forall j :: 0 <= j < i ==>
        inputs[j] == Input(Outpoint(coins[j]), sequence) && values[j] == coins[j].value && scripts[j] == source
      invariant 0 <= totalInput == Total(coins[..i]) <= MAX_INT64
    {
      TotalStep(coins, i + 1);
      inputs := inputs + [Input(Outpoint(coins[i]), sequence)];
      values := values + [coins[i].value];
      scripts := scripts + [source];
      if coins[i].value > MAX_INT64 - totalInput {
        TotalGrows(coins, i + 1, |coins|);
        return false, inputs, values, scripts, totalInput;
      }
      totalInput := totalInput + coins[i].value;
    }
    ok := true;
  }

  /**
   Raises the fee until the signed size is paid for, in at most four attempts. `sign(amount, attempt)`
   stands for signing and checking the transaction of an attempt and gives its virtual size, `dust`
   for the relay policy, `fetch` for the API; `bare` holds the inputs.
   */
  method PayForSize(bare: Authored, destination: Script, rate: FeeRate, estimate: VSize, verify: bool,
                    fetch: string -> Fetched, dust: int -> bool, sign: (int, nat) -> Option<VSize>)
    returns (r: Result<Authored, Failure>, fees: seq<int>, sizes: seq<VSize>)
    requires 0 <= bare.totalInput <= MAX_INT64
    ensures |fees| <= 4 && FeeTrail(rate, estimate, fees, sizes)
    ensures Tried(bare.totalInput, sign, fees, sizes)
    ensures r.Ok? ==>
      var tx, fee := r.value, fees[|fees| - 1];
      && |sizes| == |fees|
      && tx == bare.(outputs := [TxOut(bare.totalInput - fee, destination)])
      && bare.totalInput - fee > 0 && !dust(bare.totalInput - fee)
      && fee as real >= rate * sizes[|fees| - 1] as real
      && (verify ==> Verdict(fetch, tx) == None)
    ensures r.Err? ==> Explained(r.error, bare.totalInput, rate, verify, Verdict(fetch, bare), dust, sign, fees, sizes)
    ensures verify && r.Err? && !r.error.VerifyFailed? && sizes != [] ==> Verdict(fetch, bare) == None
  {
    hide FirstFee, Required, Verdict, FeeTrail, Tried, OutputTotal, Ceil;
    fees, sizes := [], [];
    var feeSatoshi := FirstFee(rate, estimate);
    TrailStarts(rate, estimate);
    NothingTried(bare.totalInput, sign);
    assert fees + [feeSatoshi] == [feeSatoshi];
    var attempt := 0;
    while attempt < ATTEMPTS
      invariant 0 <= attempt < ATTEMPTS && |fees| == |sizes| == attempt
      invariant 1 <= feeSatoshi <= MAX_INT64
      invariant FeeTrail(rate, estimate, fees + [feeSatoshi], sizes)
      invariant Tried(bare.totalInput, sign, fees, sizes)
      invariant attempt > 0 && verify ==> Verdict(fetch, bare) == None
    {
      TryFee(bare.totalInput, sign, fees, sizes, feeSatoshi);
      fees := fees + [feeSatoshi];
      var amount := bare.totalInput - feeSatoshi;
      if amount <= 0 { return Err(NotEnough(feeSatoshi)), fees, sizes; }
      if dust(amount) { return Err(DustAmount(amount)), fees, sizes; }
      var tx := bare.(outputs := [TxOut(amount, destination)]);
      InputsDecide(fetch, bare, tx);
      if verify && attempt == 0 {
        var verdict, _ := VerifySelected(fetch, tx);
        if verdict.Some? { return Err(VerifyFailed(verdict.value)), fees, sizes; }
      }
      var size := sign(amount, attempt);
      if size == None { return Err(SigningFailed), fees, sizes; }
      TrailContinues(rate, estimate, fees, sizes, size.value);
      sizes := sizes + [size.value];
      var actualFee := TransactionFee(tx);
      SingleOutput(tx.outputs);
      var requiredFee := Required(rate, size.value);
      if actualFee >= requiredFee { return Ok(tx), fees, sizes; }
      feeSatoshi := feeSatoshi + (requiredFee - actualFee);
      if attempt == 3 { return Err(NoConvergence(actualFee, requiredFee)), fees, sizes; }
      attempt := attempt + 1;
    }
    assert false;
  }

  /** Each failure of the fee loop with what must have happened; `verdict` is that on the inputs. */
  ghost predicate Explained(error: Failure, total: int, rate: FeeRate, verify: bool, verdict: Option<VerifyError>,
                            dust: int -> bool, sign: (int, nat) -> Option<VSize>, fees: seq<int>, sizes: seq<VSize>) {
    var last := |fees| - 1;
    && last >= 0
    && match error
       case NotEnough(fee) => fee == fees[last] >= total
       case DustAmount(amount) => amount == total - fees[last] > 0 && dust(amount)
       case VerifyFailed(e) => verify && |fees| == 1 && sizes == [] && verdict == Some(e)
       case SigningFailed => sign(total - fees[last], last) == None
       case NoConvergence(actual, required) =>
         |fees| == |sizes| == 4 && actual == fees[last] < required && JustPays(required, rate, sizes[last])
       case _ => false
  }

  /** A sweep of everything listed for an address. */
  method BuildSweep(response: seq<Utxo>, includeUnconfirmed: bool, maxInputs: int, source: Script, destination: Script,
                    sequence: nat, rate: FeeRate, estimate: VSize, verify: bool, fetch: string -> Fetched,
                    dust: int -> bool, sign: (int, nat) -> Option<VSize>)
    returns (r: Result<Authored, Failure>, fees: seq<int>, sizes: seq<VSize>)
    requires forall u <- response :: IsInt64(u.value)
    ensures fees != [] ==> FeeTrail(rate, estimate, fees, sizes)
    ensures fees != [] ==> Tried(Total(Listed(response, includeUnconfirmed)), sign, fees, sizes)
    ensures r.Ok? ==>
      var coins := Listed(response, includeUnconfirmed);
      var tx, fee := r.value, if fees == [] then 0 else fees[|fees| - 1];
      && (maxInputs <= 0 || |coins| <= maxInputs)
      && |sizes| == |fees| > 0
      && |tx.inputs| == |tx.prevValues| == |tx.prevScripts| == |coins|
      && (forall i :: 0 <= i < |coins| ==>
           && tx.inputs[i] == Input(Outpoint(coins[i]), sequence)
           && tx.prevValues[i] == coins[i].value && tx.prevScripts[i] == source)
      && |tx.outputs| == 1 && tx.outputs[0].script == destination
      && tx.outputs[0].value + fee == Total(coins) == tx.totalInput && IsInt64(Total(coins))
      && tx.outputs[0].value > 0 && !dust(tx.outputs[0].value)
      && fee as real >= rate * sizes[|fees| - 1] as real
      && (verify ==> Verdict(fetch, tx) == None)
    ensures r.Err? ==>
      var coins := Listed(response, includeUnconfirmed);
      match r.error
      case NoCoins => coins == []
      case TooManyInputs => 0 < maxInputs < |coins|
      case TotalOverflows => Total(coins) > MAX_INT64
      case error =>
        var verdict := Verdict(fetch, Bare(coins, source, sequence));
        Explained(error, Total(coins), rate, verify, verdict, dust, sign, fees, sizes)
  {
    hide IsTransactionID, Outpoint, Listed, FirstFee, Required, Total, Verdict, Explained, Tried;
    fees, sizes := [], [];
    var coins := ListUnspent(response, includeUnconfirmed);
    ListedCoins(response, includeUnconfirmed);
    if |coins| == 0 { return Err(NoCoins), fees, sizes; }
    if maxInputs > 0 && |coins| > maxInputs { return Err(TooManyInputs), fees, sizes; }
    assert coins[..|coins|] == coins;
    NonNegativeTotal(coins, |coins|);
    var ok, inputs, values, scripts, totalInput := SweepInputs(coins, source, sequence);
    if !ok { return Err(TotalOverflows), fees, sizes; }
    var bare := Authored(inputs, scripts, values, totalInput, []);
    r, fees, sizes := PayForSize(bare, destination, rate, estimate, verify, fetch, dust, sign);
    if r.Err? {
      assert !(r.error.NoCoins? || r.error.TooManyInputs? || r.error.TotalOverflows?) by {
        ExplainedByLoop(r.error, Total(coins), rate, verify, Verdict(fetch, bare), dust, sign, fees, sizes);
      }
    }
  }

  lemma ExplainedByLoop(error: Failure, total: int, rate: FeeRate, verify: bool, verdict: Option<VerifyError>,
                        dust: int -> bool, sign: (int, nat) -> Option<VSize>, fees: seq<int>, sizes: seq<VSize>)
    requires Explained(error, total, rate, verify, verdict, dust, sign, fees, sizes)
    ensures !(error.NoCoins? || error.TooManyInputs? || error.TotalOverflows?)
  {
  }

  lemma SingleOutput(outputs: seq<TxOut>)
    requires |outputs| == 1
    ensures OutputTotal(outputs) == outputs[0].value
  {
    assert outputs[..0] == [];
  }

  /** The verdict depends on the inputs only, so the check of the first attempt covers the last. */
  lemma {:induction false} InputsDecideFrom(fetch: string -> Fetched, a: Authored, b: Authored, i: nat)
    requires a.inputs == b.inputs && a.prevScripts == b.prevScripts && a.prevValues == b.prevValues
    requires Aligned(a) && i <= |a.inputs|
    ensures VerdictFrom(fetch, a, i) == VerdictFrom(fetch, b, i)
    decreases |a.inputs| - i
  {
    if i < |a.inputs| {
      InputsDecideFrom(fetch, a, b, i + 1);
    }
  }

  lemma InputsDecide(fetch: string -> Fetched, a: Authored, b: Authored)
    requires a.inputs == b.inputs && a.prevScripts == b.prevScripts && a.prevValues == b.prevValues
    ensures Verdict(fetch, a) == Verdict(fetch, b)
  {
    if Aligned(a) {
      InputsDecideFrom(fetch, a, b, 0);
    }
  }
}
