/**
 * Mempool policy for transaction outputs (rules.go): dust detection, the
 * consensus and policy checks on one output, and the fee for a serialized size.
 * Amounts are `dcrutil.Amount`, an int64; every multiplication that can
 * overflow wraps as Go's does.
 */
module Rules {
  import opened Wrappers
  import opened GoInt
  import opened Encoding

  /** `dcrutil.MaxAmount`: 21 million coins of 1e8 atoms. */
  const MaxAmount: int := 21_000_000 * 100_000_000

  /** `DefaultRelayFeePerKb` (rules.go:18). */
  const DefaultRelayFeePerKb: int := 10_000

  /** Size of the average compressed P2PKH redeeming input assumed by the dust rule. */
  const RedeemInputSize: nat := 165

  /**
   * An output script. Wire messages are capped at 32 MiB, so no script
   * reaches 2^32 bytes; the bound keeps the dust arithmetic free of int wrap-around.
   */
  type Script = s: seq<byte> | |s| < TwoTo32

  datatype TxOut = TxOut(value: int, version: nat, pkScript: Script)

  /** Script classification from txscript, outside this model. */
  datatype ScriptClassifier = ScriptClassifier(
    isNullData: (nat, seq<byte>) -> bool,    // DetermineScriptType(...) == STNullData
    isUnspendable: (int, seq<byte>) -> bool  // txscript.IsUnspendable
  )

  /** Cost in bytes of creating and later redeeming an output with this script length. */
  function DustTotalSize(scriptSize: nat): (t: nat)
    requires scriptSize < TwoTo32
    ensures scriptSize + 176 <= t <= scriptSize + 184
  {
    8 + 2 + VarIntSize(scriptSize) + scriptSize + RedeemInputSize
  }

  /**
   * `IsDustAmount`: dust when the value per byte of the network cost, scaled
   * by 1000/3, falls below the relay fee. `int64(amount)*1000` wraps; the
   * division truncates toward zero. While the product fits in an int64, a
   * non-negative amount is dust exactly when 1000 times it is below three
   * times the relay fee for the network cost, and a non-positive one is dust
   * under any positive relay fee.
   */
  predicate IsDustAmount(amount: int, scriptSize: nat, relayFeePerKb: int): (dust: bool)
    requires scriptSize < TwoTo32
    ensures 0 <= amount && amount * 1000 <= MaxInt64 ==>
      (dust <==> amount * 1000 < relayFeePerKb * (3 * DustTotalSize(scriptSize)))
    ensures MinInt64 <= amount * 1000 <= 0 && relayFeePerKb > 0 ==> dust
  {
    var cost := 3 * DustTotalSize(scriptSize);
    PerByteWithoutWrap(amount, cost, relayFeePerKb);
    Quo(Wrap64(amount * 1000), cost) < relayFeePerKb
  }

  /** The scaled value per byte, when `amount * 1000` does not wrap, compared with the relay fee. */
  lemma PerByteWithoutWrap(amount: int, cost: nat, relayFeePerKb: int)
    requires cost > 0
    ensures 0 <= amount && amount * 1000 <= MaxInt64 ==>
      (Quo(Wrap64(amount * 1000), cost) < relayFeePerKb <==> amount * 1000 < relayFeePerKb * cost)
    ensures MinInt64 <= amount * 1000 <= 0 ==> Quo(Wrap64(amount * 1000), cost) <= 0
  {
    var x := amount * 1000;
    if MinInt64 <= x <= MaxInt64 {
      assert Wrap64(x) == x;
      if x >= 0 {
        QuoNonNegative(x, cost);
        DivLessIff(x, cost, relayFeePerKb);
      }
    }
  }

  /** Floor division compared with an integer, multiplied out. */
  lemma DivLessIff(x: nat, d: nat, r: int)
    requires d > 0
    ensures x / d < r <==> x < r * d
  {
    var q := x / d;
    assert q * d <= x < q * d + d;
    if r <= q {
      assert r * d <= q * d by { MulMonotone(r, q, d); }
    } else {
      assert (q + 1) * d <= r * d by { MulMonotone(q + 1, r, d); }
    }
  }

  lemma MulMonotone(a: int, b: int, d: nat)
    requires a <= b
    ensures a * d <= b * d
  {
  }

  /** A larger amount is never dust when a smaller one is not, as long as neither product wraps. */
  lemma DustAntitoneInAmount(a1: int, a2: int, scriptSize: nat, relayFeePerKb: int)
    requires 0 <= a1 <= a2 && a2 * 1000 <= MaxInt64 && scriptSize < TwoTo32
    requires IsDustAmount(a2, scriptSize, relayFeePerKb)
    ensures IsDustAmount(a1, scriptSize, relayFeePerKb)
  {
    assert a1 * 1000 <= a2 * 1000;
  }

  /** Raising the relay fee can only turn non-dust into dust. */
  lemma DustMonotoneInRelayFee(amount: int, scriptSize: nat, r1: int, r2: int)
    requires scriptSize < TwoTo32 && r1 <= r2
    requires IsDustAmount(amount, scriptSize, r1)
    ensures IsDustAmount(amount, scriptSize, r2)
  {
  }

  /**
   * `IsDustOutput`: null-data outputs are exempt and other unspendable ones
   * are dust. A spendable output with a value in [0, MaxAmount] is dust
   * exactly when 1000 times its value is below three times the relay fee
   * for the network cost of its script.
   */
  predicate IsDustOutput(output: TxOut, relayFeePerKb: int, classify: ScriptClassifier): (dust: bool)
    ensures classify.isNullData(output.version, output.pkScript) ==> !dust
    ensures !classify.isNullData(output.version, output.pkScript) && !classify.isUnspendable(output.value, output.pkScript)
            && 0 <= output.value <= MaxAmount ==>
      (dust <==> output.value * 1000 < relayFeePerKb * (3 * DustTotalSize(|output.pkScript|)))
  {
    if classify.isNullData(output.version, output.pkScript) then false
    else if classify.isUnspendable(output.value, output.pkScript) then true
    else IsDustAmount(output.value, |output.pkScript|, relayFeePerKb)
  }

  /** Null-data outputs are exempt; other unspendable outputs are dust; the rest go by amount. */
  lemma DustOutputCases(output: TxOut, relayFeePerKb: int, classify: ScriptClassifier)
    ensures classify.isNullData(output.version, output.pkScript) ==> !IsDustOutput(output, relayFeePerKb, classify)
    ensures !classify.isNullData(output.version, output.pkScript) && classify.isUnspendable(output.value, output.pkScript)
            ==> IsDustOutput(output, relayFeePerKb, classify)
    ensures !classify.isNullData(output.version, output.pkScript) && !classify.isUnspendable(output.value, output.pkScript)
            ==> (IsDustOutput(output, relayFeePerKb, classify) <==> IsDustAmount(output.value, |output.pkScript|, relayFeePerKb))
  {
  }

  datatype OutputError = NegativeAmount | ExceedsMaxAmount | Dust

  /**
   * `CheckOutput`: the three tests in order, reporting the first that fails;
   * no error exactly when the value is in [0, MaxAmount] and the output is not dust.
   */
  function CheckOutput(output: TxOut, relayFeePerKb: int, classify: ScriptClassifier): (r: Option<OutputError>)
    ensures r.None? <==> 0 <= output.value <= MaxAmount && !IsDustOutput(output, relayFeePerKb, classify)
    ensures r == Some(NegativeAmount) <==> output.value < 0
    ensures r == Some(ExceedsMaxAmount) <==> output.value > MaxAmount
    ensures r == Some(Dust) ==> 0 <= output.value <= MaxAmount
  {
    if output.value < 0 then Some(NegativeAmount)
    else if output.value > MaxAmount then Some(ExceedsMaxAmount)
    else if IsDustOutput(output, relayFeePerKb, classify) then Some(Dust)
    else None
  }

  /** The proportional fee before the floor and the clamp: `relayFeePerKb * size / 1000` in int64. */
  function ProportionalFee(relayFeePerKb: int, txSerializeSize: int): int
  {
    Quo(Wrap64(relayFeePerKb * txSerializeSize), 1000)
  }

  /**
   * `FeeForSerializeSize`: the fee always lies in [0, MaxAmount]; a negative
   * proportional fee (a negative rate or an overflowing product) becomes
   * MaxAmount, and a positive rate whose proportional fee truncates to zero is
   * charged the rate itself; one above MaxAmount is clamped to MaxAmount.
   */
  function FeeForSerializeSize(relayFeePerKb: int, txSerializeSize: int): (fee: int)
    ensures 0 <= fee <= MaxAmount
    ensures ProportionalFee(relayFeePerKb, txSerializeSize) < 0 ==> fee == MaxAmount
    ensures ProportionalFee(relayFeePerKb, txSerializeSize) == 0 && 0 < relayFeePerKb <= MaxAmount
            ==> fee == relayFeePerKb
    ensures 0 < ProportionalFee(relayFeePerKb, txSerializeSize) <= MaxAmount
            ==> fee == ProportionalFee(relayFeePerKb, txSerializeSize)
    ensures ProportionalFee(relayFeePerKb, txSerializeSize) > MaxAmount ==> fee == MaxAmount
  {
    var fee := ProportionalFee(relayFeePerKb, txSerializeSize);
    var fee := if fee == 0 && relayFeePerKb > 0 then relayFeePerKb else fee;
    if fee < 0 || fee > MaxAmount then MaxAmount else fee
  }

  /** Without overflow the proportional fee is the floor of rate times size over 1000. */
  lemma ProportionalFeeNoOverflow(relayFeePerKb: nat, txSerializeSize: nat)
    requires relayFeePerKb * txSerializeSize <= MaxInt64
    ensures ProportionalFee(relayFeePerKb, txSerializeSize) == relayFeePerKb * txSerializeSize / 1000
  {
    QuoNonNegative(relayFeePerKb * txSerializeSize, 1000);
  }

  lemma MulMonotoneLeft(k: nat, a: int, b: int)
    requires a <= b
    ensures k * a <= k * b
  {
  }

  /**
   * Once both proportional fees are positive, a bigger transaction never pays
   * less. Below that, the floor makes the fee non-monotone: see FeeFloorIsNotMonotone.
   */
  lemma FeeMonotoneAboveFloor(relayFeePerKb: nat, s1: nat, s2: nat)
    requires s1 <= s2 && relayFeePerKb * s2 <= MaxInt64
    requires relayFeePerKb * s1 >= 1000
    ensures FeeForSerializeSize(relayFeePerKb, s1) <= FeeForSerializeSize(relayFeePerKb, s2)
  {
    MulMonotoneLeft(relayFeePerKb, s1, s2);
    ProportionalFeeNoOverflow(relayFeePerKb, s1);
    ProportionalFeeNoOverflow(relayFeePerKb, s2);
    assert relayFeePerKb * s1 / 1000 <= relayFeePerKb * s2 / 1000;
  }

  /** A 99-byte transaction at 10 atoms/kB pays 10 atoms, a 100-byte one pays 1. */
  lemma FeeFloorIsNotMonotone()
    ensures FeeForSerializeSize(10, 99) == 10 && FeeForSerializeSize(10, 100) == 1
  {
    ProportionalFeeNoOverflow(10, 99);
    ProportionalFeeNoOverflow(10, 100);
  }

  /** The exact sum of the output values, element by element from the front. */
  function SumValues(outputs: seq<TxOut>): int
  {
    if outputs == [] then 0 else SumValues(outputs[..|outputs| - 1]) + outputs[|outputs| - 1].value
  }

  /** `sumOutputValues`: the int64 running total of the output values. */
  method SumOutputValues(outputs: seq<TxOut>) returns (totalOutput: int)
    ensures totalOutput == Wrap64(SumValues(outputs))
  {
    totalOutput := 0;
    for i := 0 to |outputs|
      invariant totalOutput == Wrap64(SumValues(outputs[..i]))
    {
      assert outputs[..i + 1][..i] == outputs[..i];
      Wrap64Add(SumValues(outputs[..i]), outputs[i].value);
      totalOutput := Wrap64(totalOutput + outputs[i].value);
    }
    assert outputs[..|outputs|] == outputs;
  }

  /** Values each in [0, MaxAmount] sum without wrapping for up to 4000 outputs. */
  lemma {:induction false} SumValuesBounded(outputs: seq<TxOut>)
    requires forall i :: 0 <= i < |outputs| ==> 0 <= outputs[i].value <= MaxAmount
    ensures 0 <= SumValues(outputs) <= |outputs| * MaxAmount
    ensures |outputs| <= 4000 ==> Wrap64(SumValues(outputs)) == SumValues(outputs)
  {
    if outputs != [] {
      SumValuesBounded(outputs[..|outputs| - 1]);
    }
    if |outputs| <= 4000 {
      MulMonotone(|outputs|, 4000, MaxAmount);
    }
  }
}
