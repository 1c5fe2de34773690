/**
 * Building, signing and optionally publishing a treasury spend (tspend.go):
 * the expiry, the payouts from the command line or a CSV file, the OP_RETURN
 * output that commits to the input value, the fee estimate, the signature
 * with its key wipe, the Pi key lookup and the publish step.
 *
 * Everything the tool takes from dcrd's libraries or the outside world is a
 * parameter: address decoding, amount conversion, the pay-from-treasury
 * script, serialization size, BLAKE-256, the signer, CheckTSpend and the
 * consensus expiry rule are function-valued fields of `Library`; the node is
 * a `Node` value; the CSV file, the random source and the key sources are an
 * `Inputs` value.
 */
module TSpend {
  import opened Wrappers
  import opened GoInt
  import opened Encoding
  import opened Strings
  import opened Networks
  import opened Rules
  import opened Window
  import opened TSpendConfig

  /** `tspend_sigscript_size`: OP_DATA_65, signature and hash type, OP_DATA_33, compressed key. */
  const TSpendSigScriptSize: nat := 1 + 65 + 1 + 33

  const TxVersion: nat := 1
  const TxVersionTreasury: nat := 3
  const MaxPrevOutIndex: nat := 0xffff_ffff
  const TxTreeRegular: nat := 0
  const MaxTxInSequenceNum: nat := 0xffff_ffff
  const NullBlockHeight: nat := 0
  const NullBlockIndex: nat := 0xffff_ffff
  const HashSize: nat := 32

  const OpReturn: byte := 0x6a
  const OpData32: byte := 0x20

  /** Length of `OP_RETURN OP_DATA_32 <32 bytes>`. */
  const OpReturnScriptSize: nat := 1 + 1 + 32

  /** `dcrjson.ErrRPCDuplicateTx` */
  const ErrRPCDuplicateTx: int := -40

  /** The domain tag hashed first by the deterministic OP_RETURN. */
  const OpReturnTag: string := "tspend OP_RETURN"

  // ------------------------------------------------------------ transactions

  datatype OutPoint = OutPoint(hash: seq<byte>, index: nat, tree: nat)

  datatype TxIn = TxIn(
    previousOutPoint: OutPoint,
    sequence: nat,
    valueIn: int,
    blockHeight: nat,
    blockIndex: nat,
    signatureScript: seq<byte>
  )

  datatype Tx = Tx(version: nat, txIn: seq<TxIn>, txOut: seq<TxOut>, lockTime: nat, expiry: int)

  /** `wire.MsgTx`, which genTspend fills in field by field. */
  class MsgTx {
    var version: nat
    var txIn: seq<TxIn>
    var txOut: seq<TxOut>
    var lockTime: nat
    var expiry: int

    /** `wire.NewMsgTx` */
    constructor ()
      ensures Value() == Tx(TxVersion, [], [], 0, 0)
    {
      version := TxVersion;
      txIn := [];
      txOut := [];
      lockTime := 0;
      expiry := 0;
    }

    function Value(): Tx
      reads this
    {
      Tx(version, txIn, txOut, lockTime, expiry)
    }

    method AddTxOut(output: TxOut)
      modifies this
      ensures Value() == old(Value()).(txOut := old(txOut) + [output])
    {
      txOut := txOut + [output];
    }

    method AddTxIn(input: TxIn)
      modifies this
      ensures Value() == old(Value()).(txIn := old(txIn) + [input])
    {
      txIn := txIn + [input];
    }
  }

  // ------------------------------------------------------------ environment

  datatype StakeAddress = StakeAddress(encoded: string)

  /** What `stdaddr.DecodeAddress` and the StakeAddress assertion make of a string. */
  datatype Decoded = Stake(address: StakeAddress) | NotStakeable | NotAnAddress

  /** `strconv.ParseFloat` followed by `dcrutil.NewAmount` on a CSV field. */
  datatype CsvAmount = Atoms(atoms: int) | NotAFloat | NotAnAmount

  datatype Payout = Payout(address: StakeAddress, amount: int)

  datatype PublishError = RPCError(code: int) | OtherPublishError

  datatype Library = Library(
    decodeAddress: (string, Network) -> Decoded,
    newAmount: int -> Option<int>,              // dcrutil.NewAmount on a configured amount
    parseCsvAmount: string -> CsvAmount,
    payFromTreasury: StakeAddress -> (nat, Script), // PayFromTreasuryScript: (version, script)
    classify: ScriptClassifier,
    serializeSize: Tx -> nat,
    blake256: seq<byte> -> seq<byte>,
    sign: (Tx, seq<byte>) -> Option<seq<byte>>, // sign.TSpendSignatureScript; None on error
    checkTSpend: Tx -> Option<seq<byte>>,       // stake.CheckTSpend: the signing key, None on error
    rules: ExpiryRules
  )

  /** The dcrd node: whether the client can be created, GetBestBlock and SendRawTransaction. */
  datatype Node = Node(
    connects: bool,
    bestHeight: Option<int>,
    sendRawTransaction: Tx -> Option<PublishError>
  )

  /**
   * The records the CSV reader yields, in order; `readError` is a read
   * error in place of the final end of file.
   */
  datatype CsvInput = CsvInput(readable: bool, records: seq<seq<string>>, readError: bool)

  datatype Inputs = Inputs(
    csv: CsvInput,
    random: Option<seq<byte>>,    // crypto/rand.Read
    keyFile: Option<seq<byte>>,   // decryptPrivKeyFile (ss.go is not part of this model)
    keyStdin: Option<string>      // the line read from standard input
  )

  datatype Failure =
    | ConnectFailed
    | BestBlockFailed
    | InvalidAmount(index: nat)
    | NotAnAddressAt(index: nat)
    | NotStakeableAt(index: nat)
    | CsvUnreadable
    | CsvReadFailed
    | RecordShape(record: nat, fields: nat)
    | NotAFloatAt(index: nat)
    | NotAnAmountAt(index: nat)
    | NoPayouts
    | OpReturnDataInvalid(hexError: HexError)   // DestinationTooShort is Go's index-out-of-range panic
    | RandomFailed
    | PrivKeyUnavailable
    | PrivKeyInvalid(keyError: HexError)
    | SignFailed
    | CheckTSpendFailed
    | PublishFailed(publishError: PublishError)

  // ------------------------------------------------------------ expiry

  /**
   * `loadExpiry`: an explicit expiry wins (as uint32); otherwise the next
   * block after the configured height, or after the node's best height when
   * none is configured, placed per Window.PlacementHeight and handed to
   * CalcTSpendExpiry.
   */
  function ExpiryFor(expiry: int, currentHeight: int, bestHeight: Option<int>, params: ChainParams, rules: ExpiryRules): (r: Result<int, Failure>)
    requires params.tvi > 0
    ensures expiry != 0 ==> r == Ok(WrapU32(expiry))
    ensures r.Err? <==> expiry == 0 && currentHeight == 0 && bestHeight.None?
    ensures r.Err? ==> r.error == BestBlockFailed
  {
    if expiry != 0 then Ok(WrapU32(expiry))
    else
      var current := if currentHeight != 0 then Some(currentHeight) else bestHeight;
      match current
      case None => Err(BestBlockFailed)
      case Some(h) =>
        Ok(rules.calcExpiry(PlacementHeight(h + 1, params.tvi), params.tvi, params.tviMultiplier))
  }

  method LoadExpiry(cfg: Config, params: ChainParams, node: Node, rules: ExpiryRules) returns (r: Result<int, Failure>)
    requires params.tvi > 0
    ensures r == ExpiryFor(cfg.expiry, cfg.currentHeight, node.bestHeight, params, rules)
  {
    if cfg.expiry != 0 {
      return Ok(WrapU32(cfg.expiry));
    }
    var currentHeight := cfg.currentHeight;
    if currentHeight == 0 {
      if node.bestHeight.None? {
        return Err(BestBlockFailed);
      }
      currentHeight := node.bestHeight.value;
    }
    var tvi := params.tvi;
    var mul := params.tviMultiplier;
    var nextHeight := currentHeight + 1;
    var blocksToTVI := tvi - Rem(nextHeight, tvi);
    var tooCloseThresh := tvi / 4;
    if blocksToTVI < tooCloseThresh {
      nextHeight := nextHeight + blocksToTVI;
    }
    return Ok(rules.calcExpiry(nextHeight, tvi, mul));
  }

  // ------------------------------------------------------------ payouts

  /**
   * The payouts of a list of per-entry results: all of them when every entry
   * decodes, else the error of the first entry that does not.
   */
  function Collect(entries: seq<Result<Payout, Failure>>): Result<seq<Payout>, Failure>
  {
    if entries == [] then Ok([])
    else
      match Collect(entries[..|entries| - 1])
      case Err(e) => Err(e)
      case Ok(prefix) =>
        var last := entries[|entries| - 1];
        if last.Err? then Err(last.error) else Ok(prefix + [last.value])
  }

  /** Once a prefix fails, the whole list fails with the same error. */
  lemma {:induction false} CollectFailureSticks(entries: seq<Result<Payout, Failure>>, k: nat)
    requires k <= |entries| && Collect(entries[..k]).Err?
    ensures Collect(entries) == Collect(entries[..k])
    decreases |entries|
  {
    if k < |entries| {
      var init := entries[..|entries| - 1];
      assert init[..k] == entries[..k];
      CollectFailureSticks(init, k);
    } else {
      assert entries[..k] == entries;
    }
  }

  /** Success exactly when every entry succeeds, with the entries' payouts in order; else the first failure. */
  lemma {:induction false} CollectCharacterization(entries: seq<Result<Payout, Failure>>)
    ensures Collect(entries).Ok? <==> forall i :: 0 <= i < |entries| ==> entries[i].Ok?
    ensures Collect(entries).Ok? ==>
      |Collect(entries).value| == |entries| &&
      forall i :: 0 <= i < |entries| ==> Collect(entries).value[i] == entries[i].value
    ensures Collect(entries).Err? ==>
      exists i :: 0 <= i < |entries| && entries[i] == Err(Collect(entries).error) &&
        forall j :: 0 <= j < i ==> entries[j].Ok?
  {
    if entries != [] {
      var init := entries[..|entries| - 1];
      CollectCharacterization(init);
      assert forall i :: 0 <= i < |init| ==> init[i] == entries[i];
      if Collect(init).Err? {
        var i :| 0 <= i < |init| && init[i] == Err(Collect(init).error) &&
          forall j :: 0 <= j < i ==> init[j].Ok?;
        assert entries[i] == Err(Collect(entries).error);
      } else if entries[|entries| - 1].Err? {
        assert entries[|entries| - 1] == Err(Collect(entries).error);
      }
    }
  }

  /** One configured address/amount pair: the amount is converted first, then the address decoded. */
  function CfgEntry(address: string, amount: int, i: nat, net: Network, lib: Library): Result<Payout, Failure>
  {
    match lib.newAmount(amount)
    case None => Err(InvalidAmount(i))
    case Some(atoms) =>
      match lib.decodeAddress(address, net)
      case NotAnAddress => Err(NotAnAddressAt(i))
      case NotStakeable => Err(NotStakeableAt(i))
      case Stake(a) => Ok(Payout(a, atoms))
  }

  function CfgEntries(addresses: seq<string>, amounts: seq<int>, net: Network, lib: Library): (r: seq<Result<Payout, Failure>>)
    requires |addresses| <= |amounts|
    ensures |r| == |addresses|
  {
    seq(|addresses|, i requires 0 <= i < |addresses| => CfgEntry(addresses[i], amounts[i], i, net, lib))
  }

  /** `payoutsFromCfg` */
  method PayoutsFromCfg(addresses: seq<string>, amounts: seq<int>, net: Network, lib: Library) returns (r: Result<seq<Payout>, Failure>)
    requires |addresses| <= |amounts|
    ensures r == Collect(CfgEntries(addresses, amounts, net, lib))
  {
    ghost var entries := CfgEntries(addresses, amounts, net, lib);
    var payouts: seq<Payout> := [];
    for i := 0 to |addresses|
      invariant Collect(entries[..i]) == Ok(payouts)
    {
      assert entries[..i + 1][..i] == entries[..i];
      var amt := lib.newAmount(amounts[i]);
      if amt.None? {
        CollectFailureSticks(entries, i + 1);
        return Err(InvalidAmount(i));
      }
      var addr := lib.decodeAddress(addresses[i], net);
      if addr.NotAnAddress? {
        CollectFailureSticks(entries, i + 1);
        return Err(NotAnAddressAt(i));
      }
      if addr.NotStakeable? {
        CollectFailureSticks(entries, i + 1);
        return Err(NotStakeableAt(i));
      }
      payouts := payouts + [Payout(addr.address, amt.value)];
    }
    assert entries[..|addresses|] == entries;
    return Ok(payouts);
  }

  /** One CSV record: exactly two fields, a stake address, then an amount. */
  function CsvEntry(record: seq<string>, i: nat, net: Network, lib: Library): Result<Payout, Failure>
  {
    if |record| != 2 then Err(RecordShape(i, |record|))
    else
      match lib.decodeAddress(record[0], net)
      case NotAnAddress => Err(NotAnAddressAt(i))
      case NotStakeable => Err(NotStakeableAt(i))
      case Stake(a) =>
        match lib.parseCsvAmount(record[1])
        case NotAFloat => Err(NotAFloatAt(i))
        case NotAnAmount => Err(NotAnAmountAt(i))
        case Atoms(atoms) => Ok(Payout(a, atoms))
  }

  /** The entries `payoutsFromCSV` sees: one per record, then the read error if the file ends in one. */
  function CsvEntries(csv: CsvInput, net: Network, lib: Library): (r: seq<Result<Payout, Failure>>)
    ensures |r| == |csv.records| + (if csv.readError then 1 else 0)
  {
    seq(|csv.records|, i requires 0 <= i < |csv.records| => CsvEntry(csv.records[i], i, net, lib))
    + (if csv.readError then [Err(CsvReadFailed)] else [])
  }

  function CsvPayouts(csv: CsvInput, net: Network, lib: Library): Result<seq<Payout>, Failure>
  {
    if !csv.readable then Err(CsvUnreadable) else Collect(CsvEntries(csv, net, lib))
  }

  /** `payoutsFromCSV` */
  method PayoutsFromCSV(csv: CsvInput, net: Network, lib: Library) returns (r: Result<seq<Payout>, Failure>)
    ensures r == CsvPayouts(csv, net, lib)
  {
    if !csv.readable {
      return Err(CsvUnreadable);
    }
    ghost var entries := CsvEntries(csv, net, lib);
    var payouts: seq<Payout> := [];
    var i := 0;
    while i < |csv.records|
      invariant 0 <= i <= |csv.records|
      invariant Collect(entries[..i]) == Ok(payouts)
    {
      assert entries[..i + 1][..i] == entries[..i];
      var record := csv.records[i];
      if |record| != 2 {
        CollectFailureSticks(entries, i + 1);
        return Err(RecordShape(i, |record|));
      }
      var addr := lib.decodeAddress(record[0], net);
      if addr.NotAnAddress? {
        CollectFailureSticks(entries, i + 1);
        return Err(NotAnAddressAt(i));
      }
      if addr.NotStakeable? {
        CollectFailureSticks(entries, i + 1);
        return Err(NotStakeableAt(i));
      }
      var amt := lib.parseCsvAmount(record[1]);
      if amt.NotAFloat? {
        CollectFailureSticks(entries, i + 1);
        return Err(NotAFloatAt(i));
      }
      if amt.NotAnAmount? {
        CollectFailureSticks(entries, i + 1);
        return Err(NotAnAmountAt(i));
      }
      payouts := payouts + [Payout(addr.address, amt.atoms)];
      i := i + 1;
    }
    if csv.readError {
      assert entries[..i + 1] == entries;
      return Err(CsvReadFailed);
    }
    assert entries[..i] == entries;
    return Ok(payouts);
  }

  /** `loadPayouts`: the CSV file when one is named, else the configured pairs. */
  function LoadedPayouts(csvPath: string, addresses: seq<string>, amounts: seq<int>, net: Network, lib: Library, csv: CsvInput): Result<seq<Payout>, Failure>
    requires csvPath == "" ==> |addresses| <= |amounts|
  {
    if csvPath != "" then CsvPayouts(csv, net, lib) else Collect(CfgEntries(addresses, amounts, net, lib))
  }

  /** The failures reading payouts can produce. */
  predicate IsPayoutFailure(f: Failure)
  {
    f.InvalidAmount? || f.NotAnAddressAt? || f.NotStakeableAt? || f.CsvUnreadable? || f.CsvReadFailed?
    || f.RecordShape? || f.NotAFloatAt? || f.NotAnAmountAt?
  }

  /** Loading payouts fails only with a payout failure. */
  lemma LoadedPayoutsFailure(csvPath: string, addresses: seq<string>, amounts: seq<int>, net: Network, lib: Library, csv: CsvInput)
    requires csvPath == "" ==> |addresses| <= |amounts|
    ensures LoadedPayouts(csvPath, addresses, amounts, net, lib, csv).Err? ==>
      IsPayoutFailure(LoadedPayouts(csvPath, addresses, amounts, net, lib, csv).error)
  {
    if csvPath != "" {
      if csv.readable {
        CollectCharacterization(CsvEntries(csv, net, lib));
      }
    } else {
      CollectCharacterization(CfgEntries(addresses, amounts, net, lib));
    }
  }

  method LoadPayouts(cfg: Config, lib: Library, csv: CsvInput) returns (r: Result<seq<Payout>, Failure>)
    requires cfg.csv == "" ==> |cfg.addresses| <= |cfg.amounts|
    ensures r == LoadedPayouts(cfg.csv, cfg.addresses, cfg.amounts, cfg.activeNet, lib, csv)
  {
    if cfg.csv != "" {
      r := PayoutsFromCSV(csv, cfg.activeNet, lib);
    } else {
      r := PayoutsFromCfg(cfg.addresses, cfg.amounts, cfg.activeNet, lib);
    }
  }

  // ------------------------------------------------------------ the unsigned transaction

  function PayoutOutput(p: Payout, lib: Library): TxOut
  {
    var (version, script) := lib.payFromTreasury(p.address);
    TxOut(p.amount, version, script)
  }

  function PayoutOutputs(payouts: seq<Payout>, lib: Library): (r: seq<TxOut>)
    ensures |r| == |payouts|
  {
    seq(|payouts|, i requires 0 <= i < |payouts| => PayoutOutput(payouts[i], lib))
  }

  /** The single stakebase input: zero hash, maximum index, regular tree, null block location. */
  function StakebaseIn(valueIn: int, signatureScript: seq<byte>): TxIn
  {
    TxIn(OutPoint(Zeros(HashSize), MaxPrevOutIndex, TxTreeRegular), MaxTxInSequenceNum,
         valueIn, NullBlockHeight, NullBlockIndex, signatureScript)
  }

  /** The zero-filled OP_RETURN stand-in, of the final script's size. */
  function Placeholder(): TxOut
  {
    TxOut(0, 0, Zeros(OpReturnScriptSize))
  }

  /** The transaction whose size the fee estimate uses. */
  function UnsignedTx(expiry: int, payouts: seq<Payout>, lib: Library): Tx
  {
    Tx(TxVersionTreasury, [StakebaseIn(0, [])], [Placeholder()] + PayoutOutputs(payouts, lib), 0, expiry)
  }

  datatype Warning = OutputCheckFailed(index: nat, outputError: OutputError) | NotAPiKey

  /** The warning logged for each payout output that fails CheckOutput, in output order. */
  function OutputWarnings(outputs: seq<TxOut>, relayFee: int, classify: ScriptClassifier): seq<Warning>
  {
    if outputs == [] then []
    else
      var prefix := OutputWarnings(outputs[..|outputs| - 1], relayFee, classify);
      match CheckOutput(outputs[|outputs| - 1], relayFee, classify)
      case None => prefix
      case Some(e) => prefix + [OutputCheckFailed(|outputs| - 1, e)]
  }

  /** Exactly one warning per failing output, carrying its index and error. */
  lemma {:induction false} OutputWarningsCharacterization(outputs: seq<TxOut>, relayFee: int, classify: ScriptClassifier)
    ensures forall k :: 0 <= k < |OutputWarnings(outputs, relayFee, classify)| ==>
      var w := OutputWarnings(outputs, relayFee, classify)[k];
      w.OutputCheckFailed? && w.index < |outputs| && CheckOutput(outputs[w.index], relayFee, classify) == Some(w.outputError)
    ensures forall i :: 0 <= i < |outputs| && CheckOutput(outputs[i], relayFee, classify).Some? ==>
      OutputCheckFailed(i, CheckOutput(outputs[i], relayFee, classify).value) in OutputWarnings(outputs, relayFee, classify)
  {
    if outputs != [] {
      var init := outputs[..|outputs| - 1];
      OutputWarningsCharacterization(init, relayFee, classify);
      assert forall i :: 0 <= i < |init| ==> init[i] == outputs[i];
    }
  }

  /**
   * The first part of genTspend's transaction: version, expiry, the
   * placeholder, one output per payout (each checked against the output
   * policy, failures only logged), then the stakebase input.
   */
  method BuildUnsigned(expiry: int, payouts: seq<Payout>, relayFee: int, lib: Library)
    returns (msgTx: MsgTx, totalPayout: int, warnings: seq<Warning>)
    ensures fresh(msgTx)
    ensures msgTx.Value() == UnsignedTx(expiry, payouts, lib)
    ensures totalPayout == Wrap64(SumValues(PayoutOutputs(payouts, lib)))
    ensures warnings == OutputWarnings(PayoutOutputs(payouts, lib), relayFee, lib.classify)
  {
    ghost var outputs := PayoutOutputs(payouts, lib);
    msgTx := new MsgTx();
    msgTx.version := TxVersionTreasury;
    msgTx.expiry := expiry;
    msgTx.AddTxOut(Placeholder());
    totalPayout := 0;
    warnings := [];
    for i := 0 to |payouts|
      invariant msgTx.txOut == [Placeholder()] + outputs[..i]
      invariant msgTx.version == TxVersionTreasury && msgTx.txIn == [] && msgTx.lockTime == 0 && msgTx.expiry == expiry
      invariant totalPayout == Wrap64(SumValues(outputs[..i]))
      invariant warnings == OutputWarnings(outputs[..i], relayFee, lib.classify)
    {
      BuildStep(payouts, lib, relayFee, i, totalPayout);
      totalPayout := Wrap64(totalPayout + payouts[i].amount);
      var (version, script) := lib.payFromTreasury(payouts[i].address);
      var txOut := TxOut(payouts[i].amount, version, script);
      assert txOut == outputs[i];
      var err := CheckOutput(txOut, relayFee, lib.classify);
      if err.Some? {
        warnings := warnings + [OutputCheckFailed(i, err.value)];
      }
      msgTx.AddTxOut(txOut);
    }
    assert outputs[..|payouts|] == outputs;
    msgTx.AddTxIn(StakebaseIn(0, []));
  }

  /** One more payout output: its value joins the int64 total and its check failure, if any, the warnings. */
  lemma BuildStep(payouts: seq<Payout>, lib: Library, relayFee: int, i: nat, total: int)
    requires i < |payouts| && total == Wrap64(SumValues(PayoutOutputs(payouts, lib)[..i]))
    ensures var outputs := PayoutOutputs(payouts, lib);
      && outputs[i] == TxOut(payouts[i].amount, lib.payFromTreasury(payouts[i].address).0,
                             lib.payFromTreasury(payouts[i].address).1)
      && outputs[..i + 1] == outputs[..i] + [outputs[i]]
      && Wrap64(total + payouts[i].amount) == Wrap64(SumValues(outputs[..i + 1]))
      && OutputWarnings(outputs[..i + 1], relayFee, lib.classify)
         == OutputWarnings(outputs[..i], relayFee, lib.classify)
            + (match CheckOutput(outputs[i], relayFee, lib.classify)
               case None => []
               case Some(e) => [OutputCheckFailed(i, e)])
  {
    var outputs := PayoutOutputs(payouts, lib);
    assert outputs[..i + 1][..i] == outputs[..i];
    Wrap64Add(SumValues(outputs[..i]), payouts[i].amount);
  }

  // ------------------------------------------------------------ OP_RETURN

  /** `copy(dst, src)`: the leading bytes of `dst` replaced by as much of `src` as fits. */
  function Overlay(dst: seq<byte>, src: seq<byte>): (r: seq<byte>)
    ensures |r| == |dst|
    ensures forall i :: 0 <= i < |dst| ==> r[i] == (if i < |src| then src[i] else dst[i])
  {
    if |src| >= |dst| then src[..|dst|] else src + dst[|src|..]
  }

  /** Copying into a zeroed buffer pads the source with zeros. */
  lemma OverlayOnZeros(n: nat, src: seq<byte>)
    requires |src| <= n
    ensures Overlay(Zeros(n), src) == src + Zeros(n - |src|)
  {
    var r := Overlay(Zeros(n), src);
    assert forall i :: 0 <= i < n ==> r[i] == (src + Zeros(n - |src|))[i];
  }

  /**
   * `byte(version << 8)` on a uint16: the shift drops the high byte, so the
   * byte is always zero (see VersionHighByteIsZero).
   */
  function VersionShiftedByte(version: nat): byte
  {
    (version * 256) % 0x1_0000 % 256
  }

  lemma VersionHighByteIsZero(version: nat)
    ensures VersionShiftedByte(version) == 0
  {
    var q := (version * 256) / 0x1_0000;
    assert (version * 256) % 0x1_0000 == 256 * (version - 256 * q);
    MultipleMod(version - 256 * q, 256);
  }

  /** What the deterministic OP_RETURN hashes for one payout: amount, version bytes, script. */
  function PayoutHashInput(p: Payout, lib: Library): seq<byte>
  {
    var (version, script) := lib.payFromTreasury(p.address);
    LittleEndian(WrapU64(p.amount), 8) + [VersionShiftedByte(version), version % 256] + script
  }

  function PayoutsHashInput(payouts: seq<Payout>, lib: Library): seq<byte>
  {
    if payouts == [] then []
    else PayoutsHashInput(payouts[..|payouts| - 1], lib) + PayoutHashInput(payouts[|payouts| - 1], lib)
  }

  /** The bytes written to the BLAKE-256 hasher before any extra data. */
  function DeterministicPrefix(payouts: seq<Payout>, lib: Library): seq<byte>
  {
    AsciiBytes(OpReturnTag) + PayoutsHashInput(payouts, lib)
  }

  /**
   * The 24 bytes after the encoded value in the OP_RETURN payload: the
   * leading bytes of the hash of the payouts (and of the hex extra data, at
   * most 32 bytes) in deterministic mode, else the hex data (at most 24 bytes),
   * else random bytes; whatever is not written stays zero.
   */
  function PayloadTail(deterministic: bool, opReturnData: string, payouts: seq<Payout>, lib: Library, random: Option<seq<byte>>): (r: Result<seq<byte>, Failure>)
    ensures r.Ok? ==> |r.value| == HashSize - 8
  {
    if deterministic then DeterministicTail(opReturnData, payouts, lib)
    else GivenTail(opReturnData, random)
  }

  /** The deterministic tail: the hash of the tag, the payouts and the hex extra data (at most 32 bytes). */
  function DeterministicTail(opReturnData: string, payouts: seq<Payout>, lib: Library): (r: Result<seq<byte>, Failure>)
    ensures r.Ok? ==> |r.value| == HashSize - 8
  {
    var extra := if opReturnData != "" then DecodeHex(HashSize, opReturnData) else Ok([]);
    match extra
    case Err(e) => Err(OpReturnDataInvalid(e))
    case Ok(x) => Ok(Overlay(Zeros(HashSize - 8), lib.blake256(DeterministicPrefix(payouts, lib) + x)))
  }

  /** The tail otherwise: the hex data (at most 24 bytes) when given, else random bytes. */
  function GivenTail(opReturnData: string, random: Option<seq<byte>>): (r: Result<seq<byte>, Failure>)
    ensures r.Ok? ==> |r.value| == HashSize - 8
  {
    if opReturnData != "" then
      match DecodeHex(HashSize - 8, opReturnData)
      case Err(e) => Err(OpReturnDataInvalid(e))
      case Ok(x) => Ok(Overlay(Zeros(HashSize - 8), x))
    else
      match random
      case None => Err(RandomFailed)
      case Some(x) => Ok(Overlay(Zeros(HashSize - 8), x))
  }

  /** `OP_RETURN`, then the 32-byte payload pushed with OP_DATA_32. */
  function OpReturnScript(valueIn: nat, tail: seq<byte>): seq<byte>
  {
    [OpReturn, OpData32] + LittleEndian(valueIn, 8) + tail
  }

  /**
   * The script has the placeholder's size, and its first eight payload
   * bytes decode back to the value.
   */
  lemma OpReturnScriptLayout(valueIn: nat, tail: seq<byte>)
    requires valueIn < TwoTo64 && |tail| == HashSize - 8
    ensures |OpReturnScript(valueIn, tail)| == OpReturnScriptSize
    ensures OpReturnScript(valueIn, tail)[..2] == [OpReturn, OpData32]
    ensures FromLittleEndian(OpReturnScript(valueIn, tail)[2..10]) == valueIn
    ensures OpReturnScript(valueIn, tail)[10..] == tail
  {
    var s := OpReturnScript(valueIn, tail);
    assert s[2..10] == LittleEndian(valueIn, 8);
    assert Pow256(8) == TwoTo64;
    LittleEndianRoundTrip(valueIn, 8);
  }

  /** `binary.LittleEndian.PutUint64` into the first eight bytes of `a`. */
  method PutUint64(a: array<byte>, v: nat)
    requires a.Length >= 8
    modifies a
    ensures a[..] == LittleEndian(v, 8) + old(a[8..])
  {
    var x := v;
    for i := 0 to 8
      invariant a[..i] + LittleEndian(x, 8 - i) == LittleEndian(v, 8)
      invariant a[8..] == old(a[8..])
    {
      assert LittleEndian(x, 8 - i) == [x % 256] + LittleEndian(x / 256, 8 - i - 1);
      a[i] := x % 256;
      assert a[..i + 1] == a[..i] + [x % 256];
      x := x / 256;
    }
    assert a[..] == a[..8] + a[8..];
  }

  /** `copy(a[off:], src)` */
  method CopyInto(a: array<byte>, off: nat, src: seq<byte>)
    requires off <= a.Length
    modifies a
    ensures a[..] == old(a[..off]) + Overlay(old(a[off..]), src)
  {
    var n := if |src| < a.Length - off then |src| else a.Length - off;
    for i := 0 to n
      invariant forall k :: 0 <= k < a.Length ==> a[k] == (if off <= k < off + i then src[k - off] else old(a[k]))
    {
      a[off + i] := src[i];
    }
  }

  /** `loadOpReturnScript`, with the value already converted to uint64. */
  method LoadOpReturnScript(deterministic: bool, opReturnData: string, payouts: seq<Payout>, valueIn: nat, lib: Library, random: Option<seq<byte>>)
    returns (r: Result<seq<byte>, Failure>)
    ensures r == (match PayloadTail(deterministic, opReturnData, payouts, lib, random)
                  case Ok(tail) => Ok(OpReturnScript(valueIn, tail))
                  case Err(e) => Err(e))
  {
    var randPayload := new byte[HashSize](_ => 0);
    assert randPayload[8..] == Zeros(HashSize - 8);
    PutUint64(randPayload, valueIn);
    ghost var tail := PayloadTail(deterministic, opReturnData, payouts, lib, random);
    if deterministic {
      var h := DeterministicHashInput(payouts, lib);
      if opReturnData != "" {
        var extra := DecodeHex(HashSize, opReturnData);
        if extra.Err? {
          assert tail == Err(OpReturnDataInvalid(extra.error));
          return Err(OpReturnDataInvalid(extra.error));
        }
        h := h + extra.value;
      } else {
        assert h + [] == h;
      }
      var hash := lib.blake256(h);
      CopyInto(randPayload, 8, hash);
      assert tail == Ok(Overlay(Zeros(HashSize - 8), hash));
    } else if opReturnData != "" {
      var decoded := DecodeHex(HashSize - 8, opReturnData);
      if decoded.Err? {
        return Err(OpReturnDataInvalid(decoded.error));
      }
      CopyInto(randPayload, 8, decoded.value);
      assert tail == Ok(Overlay(Zeros(HashSize - 8), decoded.value));
    } else {
      if random.None? {
        return Err(RandomFailed);
      }
      CopyInto(randPayload, 8, random.value);
      assert tail == Ok(Overlay(Zeros(HashSize - 8), random.value));
    }
    assert randPayload[..] == LittleEndian(valueIn, 8) + tail.value;
    assert [OpReturn, OpData32] + randPayload[..] == OpReturnScript(valueIn, tail.value);
    r := Ok([OpReturn, OpData32] + randPayload[..]);
  }

  /** The hasher's input in deterministic mode: the tag, then each payout in order. */
  method DeterministicHashInput(payouts: seq<Payout>, lib: Library) returns (h: seq<byte>)
    ensures h == DeterministicPrefix(payouts, lib)
  {
    h := AsciiBytes(OpReturnTag);
    for i := 0 to |payouts|
      invariant h == AsciiBytes(OpReturnTag) + PayoutsHashInput(payouts[..i], lib)
    {
      assert payouts[..i + 1][..i] == payouts[..i];
      var (version, script) := lib.payFromTreasury(payouts[i].address);
      var ab := LittleEndian(WrapU64(payouts[i].amount), 8);
      h := h + ab;
      h := h + [VersionShiftedByte(version), version % 256];
      h := h + script;
    }
    assert payouts[..|payouts|] == payouts;
  }

  // ------------------------------------------------------------ the private key

  /** `privKeyFromHex` (and `privKeyFromStdIn` on the line read): white space trimmed, hex into 32 bytes. */
  function PrivKeyFromHex(hexPk: string): (r: Result<seq<byte>, Failure>)
    ensures r.Ok? ==> |r.value| <= HashSize
  {
    match DecodeHex(HashSize, TrimSpace(hexPk))
    case Ok(k) => Ok(k)
    case Err(e) => Err(PrivKeyInvalid(e))
  }

  lemma HexDigitNotSpace(d: nat)
    requires d < 16
    ensures !IsSpace(HexDigits[d])
  {
  }

  /** Hex text has no white space in it. */
  lemma {:induction false} HexDigitsAreNotSpace(bs: seq<byte>)
    ensures forall i :: 0 <= i < |EncodeHex(bs)| ==> !IsSpace(EncodeHex(bs)[i])
  {
    if bs != [] {
      var e, tail := EncodeHex(bs), EncodeHex(bs[1..]);
      HexDigitsAreNotSpace(bs[1..]);
      HexDigitNotSpace(bs[0] / 16);
      HexDigitNotSpace(bs[0] % 16);
      assert e == [HexDigits[bs[0] / 16], HexDigits[bs[0] % 16]] + tail;
      forall i | 2 <= i < |e| ensures !IsSpace(e[i]) {
        assert e[i] == tail[i - 2];
      }
    }
  }

  /** A key written as 64 hex digits, with any surrounding white space, reads back. */
  lemma PrivKeyHexRoundTrip(key: seq<byte>, before: string, after: string)
    requires |key| == HashSize
    requires forall i :: 0 <= i < |before| ==> IsSpace(before[i])
    requires forall i :: 0 <= i < |after| ==> IsSpace(after[i])
    ensures PrivKeyFromHex(before + EncodeHex(key) + after) == Ok(key)
  {
    var hex := EncodeHex(key);
    var s := before + hex + after;
    HexDigitsAreNotSpace(key);
    TrimSpaceStripsPadding(before, hex, after);
    HexRoundTrip(HashSize, key);
  }

  /** `loadPrivKey`: the key file wins, then standard input for "-", else the hex option. */
  function LoadedKey(privKeyFile: string, privKey: string, inputs: Inputs): (r: Result<seq<byte>, Failure>)
    ensures r.Err? ==> r.error == PrivKeyUnavailable || r.error.PrivKeyInvalid?
  {
    if privKeyFile != "" then
      (match inputs.keyFile case None => Err(PrivKeyUnavailable) case Some(k) => Ok(k))
    else if privKey == "-" then
      (match inputs.keyStdin case None => Err(PrivKeyUnavailable) case Some(line) => PrivKeyFromHex(line))
    else PrivKeyFromHex(privKey)
  }

  /** The `[32]byte` key buffer once the loaded key has been decoded into it. */
  function KeyBuffer(key: seq<byte>): seq<byte>
  {
    Overlay(Zeros(HashSize), key)
  }

  /** `zeroBytes` */
  method ZeroBytes(s: array<byte>)
    modifies s
    ensures forall i :: 0 <= i < s.Length ==> s[i] == 0
  {
    for i := 0 to s.Length
      invariant forall k :: 0 <= k < i ==> s[k] == 0
    {
      s[i] := 0;
    }
  }

  /**
   * The signature step of genTspend: the key buffer is wiped right after
   * signing, whether or not signing succeeded.
   */
  method SignAndWipe(tx: Tx, privKeyBytes: array<byte>, sign: (Tx, seq<byte>) -> Option<seq<byte>>)
    returns (sigscript: Option<seq<byte>>)
    modifies privKeyBytes
    ensures sigscript == sign(tx, old(privKeyBytes[..]))
    ensures forall i :: 0 <= i < privKeyBytes.Length ==> privKeyBytes[i] == 0
  {
    sigscript := sign(tx, privKeyBytes[..]);
    ZeroBytes(privKeyBytes);
  }

  // ------------------------------------------------------------ Pi keys and publishing

  /** The Pi key loop: whether the signing key is one of the network's Pi keys. */
  method FindPiKey(pubKey: seq<byte>, piKeys: seq<seq<byte>>) returns (found: bool)
    ensures found <==> pubKey in piKeys
  {
    found := false;
    var i := 0;
    while i < |piKeys| && !found
      invariant 0 <= i <= |piKeys|
      invariant found <==> pubKey in piKeys[..i]
    {
      assert piKeys[..i + 1] == piKeys[..i] + [piKeys[i]];
      found := found || pubKey == piKeys[i];
      i := i + 1;
    }
  }

  /** `isAlreadyHaveTxErr` */
  predicate IsAlreadyHaveTxErr(e: PublishError)
  {
    e.RPCError? && e.code == ErrRPCDuplicateTx
  }

  // ------------------------------------------------------------ genTspend

  datatype Sink = Stdout | File(path: string)

  datatype Generated = Generated(
    tx: Tx,
    payouts: seq<Payout>,
    expiry: int,
    totalPayout: int,
    estimatedSize: int,
    fee: int,
    pubKey: seq<byte>,
    published: bool,
    duplicated: bool,
    sink: Sink,
    warnings: seq<Warning>
  )

  /** The transaction with its input value and real OP_RETURN script in place, before signing. */
  function Funded(unsigned: Tx, valueIn: int, opReturn: Script): Tx
    requires |unsigned.txIn| >= 1 && |unsigned.txOut| >= 1
  {
    unsigned.(txIn := unsigned.txIn[0 := unsigned.txIn[0].(valueIn := valueIn)],
              txOut := unsigned.txOut[0 := unsigned.txOut[0].(pkScript := opReturn)])
  }

  function Signed(tx: Tx, sigscript: seq<byte>): Tx
    requires |tx.txIn| >= 1
  {
    tx.(txIn := tx.txIn[0 := tx.txIn[0].(signatureScript := sigscript)])
  }

  /**
   * What genTspend computes from the payouts and the expiry: the total,
   * the estimated size (the unsigned transaction plus a signature script),
   * the fee for it, the input value, and the funded and signed transaction.
   */
  ghost predicate Assembled(g: Generated, relayFee: int, deterministic: bool, opReturnData: string, key: seq<byte>, lib: Library, random: Option<seq<byte>>)
  {
    var unsigned := UnsignedTx(g.expiry, g.payouts, lib);
    var valueIn := Wrap64(g.totalPayout + g.fee);
    var tail := PayloadTail(deterministic, opReturnData, g.payouts, lib, random);
    && g.totalPayout == Wrap64(SumValues(PayoutOutputs(g.payouts, lib)))
    && g.estimatedSize == lib.serializeSize(unsigned) + TSpendSigScriptSize
    && g.fee == FeeForSerializeSize(relayFee, g.estimatedSize)
    && tail.Ok?
    && var funded := Funded(unsigned, valueIn, OpReturnScript(WrapU64(valueIn), tail.value));
       && lib.sign(funded, KeyBuffer(key)).Some?
       && g.tx == Signed(funded, lib.sign(funded, KeyBuffer(key)).value)
  }

  /**
   * What the middle of genTspend ends in: the first failure among the
   * OP_RETURN payload, the key and the signer, in that order, or else the
   * funded transaction signed with the key.
   */
  ghost function SignedOutcome(expiry: int, payouts: seq<Payout>, relayFee: int, deterministic: bool, opReturnData: string,
                               key: Result<seq<byte>, Failure>, lib: Library, random: Option<seq<byte>>): Result<Tx, Failure>
  {
    match PayloadTail(deterministic, opReturnData, payouts, lib, random)
    case Err(e) => Err(e)
    case Ok(tail) => SignedWith(FundedFor(expiry, payouts, relayFee, lib, tail), key, lib)
  }

  /** The unsigned transaction with ValueIn charged for its estimated size and the OP_RETURN that encodes it. */
  ghost function FundedFor(expiry: int, payouts: seq<Payout>, relayFee: int, lib: Library, tail: seq<byte>): (tx: Tx)
    requires |tail| == HashSize - 8
    ensures |tx.txIn| >= 1
  {
    var unsigned := UnsignedTx(expiry, payouts, lib);
    var fee := FeeForSerializeSize(relayFee, lib.serializeSize(unsigned) + TSpendSigScriptSize);
    var valueIn := Wrap64(Wrap64(SumValues(PayoutOutputs(payouts, lib))) + fee);
    OpReturnScriptLayout(WrapU64(valueIn), tail);
    Funded(unsigned, valueIn, OpReturnScript(WrapU64(valueIn), tail))
  }

  /** Signing a funded transaction with the loaded key, or the failure to load or to sign. */
  ghost function SignedWith(funded: Tx, key: Result<seq<byte>, Failure>, lib: Library): Result<Tx, Failure>
    requires |funded.txIn| >= 1
  {
    match key
    case Err(e) => Err(e)
    case Ok(k) =>
      match lib.sign(funded, KeyBuffer(k))
      case None => Err(SignFailed)
      case Some(sigscript) => Ok(Signed(funded, sigscript))
  }

  /**
   * What genTspend ends in: the first failure among the node connection,
   * the expiry, the payouts, an empty payout list, the middle steps,
   * CheckTSpend and a publish error other than a duplicate, in that order,
   * or else the signed transaction. Output policy warnings and a key outside
   * the Pi keys are not among the failures.
   */
  ghost function GeneratedOutcome(cfg: Config, params: ChainParams, lib: Library, node: Node, inputs: Inputs): Result<Tx, Failure>
    reads cfg
    requires params.tvi > 0
    requires cfg.csv == "" ==> |cfg.addresses| <= |cfg.amounts|
  {
    if cfg.NeedsDcrd() && !node.connects then Err(ConnectFailed)
    else match ExpiryFor(cfg.expiry, cfg.currentHeight, node.bestHeight, params, lib.rules)
    case Err(e) => Err(e)
    case Ok(expiry) =>
      match LoadedPayouts(cfg.csv, cfg.addresses, cfg.amounts, cfg.activeNet, lib, inputs.csv)
      case Err(e) => Err(e)
      case Ok(payouts) =>
        if payouts == [] then Err(NoPayouts)
        else match SignedOutcome(expiry, payouts, cfg.feeRate, cfg.deterministicOpReturn, cfg.opReturnData,
                                 LoadedKey(cfg.privKeyFile, cfg.privKey, inputs), lib, inputs.random)
        case Err(e) => Err(e)
        case Ok(tx) => CheckedOutcome(tx, cfg.publish, lib, node)
  }

  /**
   * What the end of genTspend makes of a signed transaction: CheckTSpend
   * must recover a key, and a publish error fails unless it reports a
   * duplicate.
   */
  ghost function CheckedOutcome(tx: Tx, publish: bool, lib: Library, node: Node): Result<Tx, Failure>
  {
    if lib.checkTSpend(tx).None? then Err(CheckTSpendFailed)
    else if publish && node.sendRawTransaction(tx).Some? && !IsAlreadyHaveTxErr(node.sendRawTransaction(tx).value)
    then Err(PublishFailed(node.sendRawTransaction(tx).value))
    else Ok(tx)
  }

  /**
   * `genTspend`. The node is contacted only when the configuration needs it;
   * output policy failures and a key outside the Pi keys are warnings; a
   * duplicate transaction on publish is not an error.
   */
  method GenTspend(cfg: Config, params: ChainParams, lib: Library, node: Node, inputs: Inputs)
    returns (r: Result<Generated, Failure>)
    requires params.tvi > 0
    requires cfg.csv == "" ==> |cfg.addresses| <= |cfg.amounts|
    ensures r.Err? ==> GeneratedOutcome(cfg, params, lib, node, inputs) == Err(r.error)
    ensures r.Ok? ==> GeneratedOutcome(cfg, params, lib, node, inputs) == Ok(r.value.tx)
    ensures cfg.NeedsDcrd() && !node.connects ==> r == Err(ConnectFailed)
    ensures r == Err(BestBlockFailed) ==> cfg.NeedsDcrd()
    ensures r.Err? && r.error.PublishFailed? ==> cfg.publish && !IsAlreadyHaveTxErr(r.error.publishError)
    ensures r.Ok? ==>
      var g := r.value;
      && (cfg.NeedsDcrd() ==> node.connects)
      && ExpiryFor(cfg.expiry, cfg.currentHeight, node.bestHeight, params, lib.rules) == Ok(g.expiry)
      && LoadedPayouts(cfg.csv, cfg.addresses, cfg.amounts, cfg.activeNet, lib, inputs.csv) == Ok(g.payouts)
      && g.payouts != []
      && LoadedKey(cfg.privKeyFile, cfg.privKey, inputs).Ok?
      && Assembled(g, cfg.feeRate, cfg.deterministicOpReturn, cfg.opReturnData,
                   LoadedKey(cfg.privKeyFile, cfg.privKey, inputs).value, lib, inputs.random)
      && lib.checkTSpend(g.tx) == Some(g.pubKey)
      && (g.published <==> cfg.publish && node.sendRawTransaction(g.tx).None?)
      && (g.duplicated <==> cfg.publish && node.sendRawTransaction(g.tx).Some?)
      && (g.duplicated ==> IsAlreadyHaveTxErr(node.sendRawTransaction(g.tx).value))
      && g.sink == (if cfg.out != "" then File(cfg.out) else Stdout)
      && g.warnings == OutputWarnings(PayoutOutputs(g.payouts, lib), cfg.feeRate, lib.classify)
                       + (if g.pubKey in params.piKeys then [] else [NotAPiKey])
  {
    var relayFee := cfg.feeRate;
    if cfg.NeedsDcrd() && !node.connects {
      return Err(ConnectFailed);
    }

    var expiry := LoadExpiry(cfg, params, node, lib.rules);
    if expiry.Err? {
      return Err(expiry.error);
    }

    var payouts := LoadPayouts(cfg, lib, inputs.csv);
    if payouts.Err? {
      LoadedPayoutsFailure(cfg.csv, cfg.addresses, cfg.amounts, cfg.activeNet, lib, inputs.csv);
      return Err(payouts.error);
    }
    if |payouts.value| == 0 {
      return Err(NoPayouts);
    }

    var key := LoadedKey(cfg.privKeyFile, cfg.privKey, inputs);
    var signed := FundAndSign(expiry.value, payouts.value, relayFee, cfg.deterministicOpReturn,
                              cfg.opReturnData, key, lib, inputs.random);
    if signed.Err? {
      return Err(signed.error);
    }
    var g := signed.value;

    var done := CheckAndPublish(g, cfg.publish, cfg.out, params.piKeys, lib, node);
    if done.Ok? {
      AssembledIgnoresReport(g, done.value, relayFee, cfg.deterministicOpReturn, cfg.opReturnData,
                             LoadedKey(cfg.privKeyFile, cfg.privKey, inputs).value, lib, inputs.random);
    }
    r := done;
  }

  /**
   * The end of genTspend once the transaction is signed: CheckTSpend
   * recovers the signing key, which is looked up among the Pi keys, then
   * the transaction is published when asked (a duplicate is not an error)
   * and written out.
   */
  method CheckAndPublish(g: Generated, publish: bool, out: string, piKeys: seq<seq<byte>>, lib: Library, node: Node)
    returns (r: Result<Generated, Failure>)
    ensures r.Err? ==> CheckedOutcome(g.tx, publish, lib, node) == Err(r.error)
    ensures r.Ok? ==> CheckedOutcome(g.tx, publish, lib, node) == Ok(g.tx)
    ensures r.Err? ==>
      (r.error == CheckTSpendFailed && lib.checkTSpend(g.tx).None?)
      || (r.error.PublishFailed? && publish && node.sendRawTransaction(g.tx) == Some(r.error.publishError)
          && !IsAlreadyHaveTxErr(r.error.publishError))
    ensures r.Ok? ==>
      var h := r.value;
      && h == g.(pubKey := h.pubKey, published := h.published, duplicated := h.duplicated,
                 sink := h.sink, warnings := h.warnings)
      && lib.checkTSpend(g.tx) == Some(h.pubKey)
      && (h.published <==> publish && node.sendRawTransaction(g.tx).None?)
      && (h.duplicated <==> publish && node.sendRawTransaction(g.tx).Some?)
      && (h.duplicated ==> IsAlreadyHaveTxErr(node.sendRawTransaction(g.tx).value))
      && h.sink == (if out != "" then File(out) else Stdout)
      && h.warnings == g.warnings + (if h.pubKey in piKeys then [] else [NotAPiKey])
  {
    var pubKeyBytes := lib.checkTSpend(g.tx);
    if pubKeyBytes.None? {
      return Err(CheckTSpendFailed);
    }

    var foundPiKey := FindPiKey(pubKeyBytes.value, piKeys);

    var published, duplicated := false, false;
    if publish {
      var err := node.sendRawTransaction(g.tx);
      if err.Some? {
        if IsAlreadyHaveTxErr(err.value) {
          duplicated := true;
        } else {
          return Err(PublishFailed(err.value));
        }
      } else {
        published := true;
      }
    }

    var sink := if out != "" then File(out) else Stdout;
    var warnings := g.warnings;
    if !foundPiKey {
      warnings := warnings + [NotAPiKey];
    }
    r := Ok(g.(pubKey := pubKeyBytes.value, published := published, duplicated := duplicated,
               sink := sink, warnings := warnings));
  }

  /** Whether a generated transaction was assembled does not depend on what happened to it afterwards. */
  lemma AssembledIgnoresReport(g: Generated, h: Generated, relayFee: int, deterministic: bool, opReturnData: string,
                               key: seq<byte>, lib: Library, random: Option<seq<byte>>)
    requires Assembled(g, relayFee, deterministic, opReturnData, key, lib, random)
    requires h.tx == g.tx && h.payouts == g.payouts && h.expiry == g.expiry
    requires h.totalPayout == g.totalPayout && h.estimatedSize == g.estimatedSize && h.fee == g.fee
    ensures Assembled(h, relayFee, deterministic, opReturnData, key, lib, random)
  {
  }

  /**
   * The first half of the middle of genTspend: build the unsigned
   * transaction, estimate its size with a signature script, charge the fee,
   * and fill in ValueIn and the OP_RETURN that encodes it. On success
   * `funding` holds the payload tail written after ValueIn.
   */
  method FundTx(expiry: int, payouts: seq<Payout>, relayFee: int, deterministic: bool, opReturnData: string,
                lib: Library, random: Option<seq<byte>>)
    returns (msgTx: MsgTx, totalPayout: int, warnings: seq<Warning>, estimatedSize: int, fee: int,
             valueIn: int, funding: Result<seq<byte>, Failure>)
    ensures fresh(msgTx)
    ensures totalPayout == Wrap64(SumValues(PayoutOutputs(payouts, lib)))
    ensures warnings == OutputWarnings(PayoutOutputs(payouts, lib), relayFee, lib.classify)
    ensures estimatedSize == lib.serializeSize(UnsignedTx(expiry, payouts, lib)) + TSpendSigScriptSize
    ensures fee == FeeForSerializeSize(relayFee, estimatedSize)
    ensures valueIn == Wrap64(totalPayout + fee)
    ensures funding == PayloadTail(deterministic, opReturnData, payouts, lib, random)
    ensures funding.Ok? ==>
      msgTx.Value() == Funded(UnsignedTx(expiry, payouts, lib), valueIn, OpReturnScript(WrapU64(valueIn), funding.value))
    ensures funding.Ok? ==> msgTx.Value() == FundedFor(expiry, payouts, relayFee, lib, funding.value)
  {
    var totalPayout', warnings';
    msgTx, totalPayout', warnings' := BuildUnsigned(expiry, payouts, relayFee, lib);
    totalPayout, warnings := totalPayout', warnings';
    ghost var unsigned := msgTx.Value();

    estimatedSize := lib.serializeSize(msgTx.Value()) + TSpendSigScriptSize;
    fee := FeeForSerializeSize(relayFee, estimatedSize);
    valueIn := Wrap64(totalPayout + fee);
    msgTx.txIn := msgTx.txIn[0 := msgTx.txIn[0].(valueIn := valueIn)];

    var opReturn := LoadOpReturnScript(deterministic, opReturnData, payouts, WrapU64(valueIn), lib, random);
    funding := PayloadTail(deterministic, opReturnData, payouts, lib, random);
    if opReturn.Err? {
      return;
    }
    assert |opReturn.value| == OpReturnScriptSize by {
      OpReturnScriptLayout(WrapU64(valueIn), funding.value);
    }
    msgTx.txOut := msgTx.txOut[0 := msgTx.txOut[0].(pkScript := opReturn.value)];
  }

  /**
   * The middle of genTspend: build the unsigned transaction, estimate its
   * size with a signature script, charge the fee, fill in ValueIn and the
   * OP_RETURN that encodes it, then sign with the loaded key and wipe it.
   */
  method FundAndSign(expiry: int, payouts: seq<Payout>, relayFee: int, deterministic: bool, opReturnData: string,
                     key: Result<seq<byte>, Failure>, lib: Library, random: Option<seq<byte>>)
    returns (r: Result<Generated, Failure>)
    ensures r.Err? ==> r.error.OpReturnDataInvalid? || r.error == RandomFailed || r.error == SignFailed
                       || (key.Err? && r.error == key.error)
    ensures key.Err? ==> r.Err?
    ensures r.Err? ==> SignedOutcome(expiry, payouts, relayFee, deterministic, opReturnData, key, lib, random) == Err(r.error)
    ensures r.Ok? ==> SignedOutcome(expiry, payouts, relayFee, deterministic, opReturnData, key, lib, random) == Ok(r.value.tx)
    ensures r.Ok? ==>
      var g := r.value;
      && key.Ok? && g.expiry == expiry && g.payouts == payouts
      && Assembled(g, relayFee, deterministic, opReturnData, key.value, lib, random)
      && g.warnings == OutputWarnings(PayoutOutputs(payouts, lib), relayFee, lib.classify)
  {
    var msgTx, totalPayout, warnings, estimatedSize, fee, valueInAmt, funding :=
      FundTx(expiry, payouts, relayFee, deterministic, opReturnData, lib, random);
    if funding.Err? {
      return Err(funding.error);
    }
    ghost var unsigned := UnsignedTx(expiry, payouts, lib);
    ghost var tail := funding.value;
    ghost var funded := msgTx.Value();

    if key.Err? {
      return Err(key.error);
    }
    var privKeyBytes := new byte[HashSize](_ => 0);
    assert privKeyBytes[..] == Zeros(HashSize);
    CopyInto(privKeyBytes, 0, key.value);
    assert privKeyBytes[..] == KeyBuffer(key.value);
    var sigscript := SignAndWipe(msgTx.Value(), privKeyBytes, lib.sign);
    if sigscript.None? {
      return Err(SignFailed);
    }
    msgTx.txIn := msgTx.txIn[0 := msgTx.txIn[0].(signatureScript := sigscript.value)];
    assert msgTx.Value() == Signed(funded, sigscript.value);
    var g := Generated(msgTx.Value(), payouts, expiry, totalPayout, estimatedSize, fee,
                       [], false, false, Stdout, warnings);
    AssembledFrom(g, relayFee, deterministic, opReturnData, key.value, lib, random,
                  unsigned, valueInAmt, tail, funded, sigscript.value);
    r := Ok(g);
  }

  /** The steps of genTspend, one by one, make an assembled transaction. */
  lemma AssembledFrom(g: Generated, relayFee: int, deterministic: bool, opReturnData: string, key: seq<byte>,
                      lib: Library, random: Option<seq<byte>>,
                      unsigned: Tx, valueIn: int, tail: seq<byte>, funded: Tx, sigscript: seq<byte>)
    requires unsigned == UnsignedTx(g.expiry, g.payouts, lib)
    requires g.totalPayout == Wrap64(SumValues(PayoutOutputs(g.payouts, lib)))
    requires g.estimatedSize == lib.serializeSize(unsigned) + TSpendSigScriptSize
    requires g.fee == FeeForSerializeSize(relayFee, g.estimatedSize)
    requires valueIn == Wrap64(g.totalPayout + g.fee)
    requires PayloadTail(deterministic, opReturnData, g.payouts, lib, random) == Ok(tail)
    requires funded == Funded(unsigned, valueIn, OpReturnScript(WrapU64(valueIn), tail))
    requires lib.sign(funded, KeyBuffer(key)) == Some(sigscript)
    requires g.tx == Signed(funded, sigscript)
    ensures Assembled(g, relayFee, deterministic, opReturnData, key, lib, random)
  {
  }

  // ------------------------------------------------------------ properties of the result

  /**
   * The generated transaction has the shape genTspend builds: one stakebase
   * input carrying ValueIn, and after the OP_RETURN exactly the payout
   * outputs the size estimate counted.
   */
  lemma AssembledShape(g: Generated, relayFee: int, deterministic: bool, opReturnData: string, key: seq<byte>, lib: Library, random: Option<seq<byte>>)
    requires Assembled(g, relayFee, deterministic, opReturnData, key, lib, random)
    ensures |g.tx.txIn| == 1 && |g.tx.txOut| == |g.payouts| + 1
    ensures g.tx.txIn[0].valueIn == Wrap64(g.totalPayout + g.fee)
    ensures g.tx.txOut[1..] == UnsignedTx(g.expiry, g.payouts, lib).txOut[1..]
    ensures forall i :: 0 <= i < |g.payouts| ==> g.tx.txOut[i + 1].value == g.payouts[i].amount
    ensures g.tx.version == TxVersionTreasury && g.tx.expiry == g.expiry
    ensures g.tx.txIn[0].previousOutPoint == OutPoint(Zeros(HashSize), MaxPrevOutIndex, TxTreeRegular)
  {
    var unsigned := UnsignedTx(g.expiry, g.payouts, lib);
    assert g.tx.txOut[1..] == unsigned.txOut[1..];
  }

  /**
   * The generated transaction's OP_RETURN commits to its input value: the
   * first eight payload bytes, read as a little-endian int64, are ValueIn,
   * and the script has the placeholder's length, so the size estimate
   * differs from the final size only by the signature script.
   */
  lemma AssembledCommitsToValueIn(g: Generated, relayFee: int, deterministic: bool, opReturnData: string, key: seq<byte>, lib: Library, random: Option<seq<byte>>)
    requires Assembled(g, relayFee, deterministic, opReturnData, key, lib, random)
    ensures |g.tx.txOut| >= 1 && |g.tx.txIn| >= 1
    ensures |g.tx.txOut[0].pkScript| == OpReturnScriptSize == |Placeholder().pkScript|
    ensures Wrap64(FromLittleEndian(g.tx.txOut[0].pkScript[2..10])) == g.tx.txIn[0].valueIn
  {
    var valueIn := Wrap64(g.totalPayout + g.fee);
    var tail := PayloadTail(deterministic, opReturnData, g.payouts, lib, random).value;
    OpReturnScriptLayout(WrapU64(valueIn), tail);
    SignedUnsignedRoundTrip(valueIn);
  }

  /**
   * Without wrap-around (payouts each within MaxAmount, at most 4000 of
   * them) the input value covers every payout plus the fee.
   */
  lemma ValueInCoversPayoutsAndFee(g: Generated, relayFee: int, deterministic: bool, opReturnData: string, key: seq<byte>, lib: Library, random: Option<seq<byte>>)
    requires Assembled(g, relayFee, deterministic, opReturnData, key, lib, random)
    requires |g.payouts| <= 4000
    requires forall i :: 0 <= i < |g.payouts| ==> 0 <= g.payouts[i].amount <= MaxAmount
    ensures g.tx.txIn[0].valueIn == SumValues(g.tx.txOut[1..]) + g.fee
    ensures g.tx.txIn[0].valueIn - SumValues(g.tx.txOut[1..]) >= 0
  {
    var outputs := PayoutOutputs(g.payouts, lib);
    SumValuesBounded(outputs);
    AssembledShape(g, relayFee, deterministic, opReturnData, key, lib, random);
    assert g.tx.txOut[1..] == outputs;
    MulMonotone(|outputs|, 4000, MaxAmount);
  }

  /** In deterministic mode without extra data, the payload tail is the hash's first 24 bytes. */
  lemma DeterministicTailIsHashPrefix(payouts: seq<Payout>, lib: Library, random: Option<seq<byte>>)
    requires |lib.blake256(DeterministicPrefix(payouts, lib))| == HashSize
    ensures PayloadTail(true, "", payouts, lib, random) == Ok(lib.blake256(DeterministicPrefix(payouts, lib))[..HashSize - 8])
  {
    assert DeterministicPrefix(payouts, lib) + [] == DeterministicPrefix(payouts, lib);
  }

  /**
   * Data given as hex of at most 24 bytes lands at the start of the tail,
   * zero-padded; the random source is not consulted.
   */
  lemma HexDataFillsTail(data: seq<byte>, payouts: seq<Payout>, lib: Library, random: Option<seq<byte>>)
    requires 0 < |data| <= HashSize - 8
    ensures PayloadTail(false, EncodeHex(data), payouts, lib, random) == Ok(data + Zeros(HashSize - 8 - |data|))
  {
    var hex := EncodeHex(data);
    HexRoundTrip(HashSize - 8, data);
    GivenHexTail(hex, data, random);
    OverlayOnZeros(HashSize - 8, data);
  }

  lemma GivenHexTail(hex: string, data: seq<byte>, random: Option<seq<byte>>)
    requires |hex| > 0 && DecodeHex(HashSize - 8, hex) == Ok(data)
    ensures GivenTail(hex, random) == Ok(Overlay(Zeros(HashSize - 8), data))
  {
  }
}
