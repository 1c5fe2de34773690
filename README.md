# Decred treasury spend tools, modelled in Dafny

This project models the integer core of a small set of Decred command-line tools for
treasury spends ("tspends"):

- **tspend** builds, signs and optionally publishes a treasury spend. The model covers the
  mempool output policy it applies (dust, output checks and the fee for a size), the choice of
  expiry, the loading of payouts, the transaction layout, the OP_RETURN that commits to the
  input value, the key wipe, the Pi key lookup and the publish step. Its configuration covers
  network selection, the address/amount count check and `--debuglevel` parsing.
- **voteprogress** reports the progress of a tspend vote. The model covers quorum, the
  required and missing yes votes, the approved / disapproved / undecided outcome, Scenario 1
  (every later vote is a yes) and Scenario 3 (no more votes), each with its TVI-aligned
  inclusion block. The model also covers the worked example of `test01_main.go`, with every
  quantity a wrapping `uint64`.
- **spendestimate** walks back from the tip over the expenditure policy window. It totals
  the treasury's adds and spends and collects the tspends mined there. It then estimates what
  is spendable now, what each past spend frees when it leaves the window, and what a spend
  created now could take.
- **expiryfor** prints the expiry of a spend created on top of a given height.

Go's semantics are written out:

- `int64` and `uint64` arithmetic wraps (`GoInt.Wrap64`, `GoInt.WrapU64`, the `uint64`
  operations of `VoteProgress`).
- `/` and `%` truncate toward zero (`GoInt.Quo`, `GoInt.Rem`).
- `uint32(x)` truncates (`GoInt.WrapU32`).
- `wire.VarIntSerializeSize` is the CompactSize length, proved equal to the length of the
  encoding.

Whatever the tools take from dcrd's libraries or the outside world is a parameter:

- Function-valued fields of `TSpend.Library`, `Rules.ScriptClassifier` and
  `Window.ExpiryRules` stand for address decoding, amount conversion, `PayFromTreasuryScript`,
  script classification, `SerializeSize`, BLAKE-256, the signer, `CheckTSpend`,
  `CalcTSpendExpiry` and `CalcTSpendWindow`.
- The subsidy `CalcTreasurySubsidy` is a function of the height.
- Each dcrd node is a value: `TSpend.Node`, and `SpendEstimate.Node`, which has one map per
  RPC.
- The CSV file, random bytes and key sources are a `TSpend.Inputs` value.

Mutable state takes the source's form:

- `wire.MsgTx` is the class `TSpend.MsgTx`.
- The three tools' `config` structs are classes whose selection methods modify their fields.
- The subsystem loggers are the class `TSpendConfig.Loggers`.
- Byte buffers that the source overwrites in place are arrays (`TSpend.ZeroBytes`,
  `TSpend.PutUint64`, `TSpend.CopyInto`).
- Loops are methods proved against specification functions. Properties of those functions are
  proved as lemmas.

The tspend tool reads `cfg.DeterministicOpReturn` and `cfg.Out`, but config.go:80-119 does not
declare them. They are the plain fields `deterministicOpReturn` and `out` of
`TSpendConfig.Config`.

Some of the source's decisions are plain boolean expressions or switches, and the model
defines them directly: `TSpendConfig.Config.NeedsDcrd`, `TSpendConfig.Config.PrivKeyFromStdin`,
`TSpend.IsAlreadyHaveTxErr`, `Networks.DefaultDcrdRPCConnect` and `Rules.DefaultRelayFeePerKb`.
The contracts of the members below use them. For example, `TSpend.GenTspend` states when a
node is needed, and `SpendEstimateConfig.ConnectForNameAgrees` pins the default addresses.

Points of the code the model keeps as they are:

- The required yes votes are a floored division (voteprogress/progress.go:79), so a fractional
  requirement rounds down.
- The fee for a size replaces a negative proportional fee with `MaxAmount` (rules.go:81-83).
- `valueIn == sum(payouts) + fee` holds only while the int64 sums do not wrap
  (`TSpend.ValueInCoversPayoutsAndFee` states the bound).
- The block consistency test of `pastTreasuryChanges` compares with `==`; see Findings.

## Model

| member | source | states |
|---|---|---|
| GoInt.Quo | rules.go:35 | Go's `/` for a positive divisor: the remainder is smaller than the divisor and takes the dividend's sign. |
| GoInt.Wrap64Add | rules.go:88-93 | Wrapping an int64 running sum after every addition gives the same value as wrapping the exact sum once. |
| Encoding.VarIntSize | rules.go:30 | The CompactSize length of a uint64 is 1, 3, 5 or 9 bytes. |
| Encoding.VarIntSizeIsEncodingLength | rules.go:30-31 | The size is exactly the length of the CompactSize encoding, and that encoding reads back to the value. |
| Encoding.LittleEndianRoundTrip | tspend.go:192 | Decoding `PutUint64`'s little-endian bytes gives back every value that fits in the width. |
| Encoding.FromLittleEndianRoundTrip | tspend.go:192 | Re-encoding a decoded little-endian byte string gives back the bytes. |
| Encoding.DecodeHex | tspend.go:218 | `hex.Decode` succeeds only on an even number of digits whose bytes fit in the destination, and yields half as many bytes as digits. |
| Encoding.HexRoundTrip | tspend.go:218 | Decoding the lower-case hex encoding of bytes that fit the destination gives the bytes back. |
| Encoding.HexPairValue | tspend.go:218 | Both hex digits of a byte decode to its high and low nibble, and the nibbles recombine to the byte. |
| Encoding.ParseInt32 | expiryfor/main.go:30 | `strconv.ParseInt(s, 10, 32)` accepts only values in [-2^31, 2^31-1]. |
| Encoding.ParseFormatRoundTrip | expiryfor/main.go:30 | Every int32 written in base 10 parses back to itself. |
| Encoding.FormatNat | spendestimate/util.go:18 | The `%d` rendering of a natural number is a non-empty string of digits. |
| Strings.Split | config.go:207 | `strings.Split` on one character gives at least one part, no part holds the separator, and a string containing the separator gives at least two parts. |
| Strings.SplitJoin | config.go:207 | Joining the parts with the separator restores the string, so splitting loses nothing. |
| Strings.SplitNoSep | config.go:207 | A string without the separator is its own single part. |
| Strings.SplitAtFirst | config.go:215-216 | The first separator ends the first part, and the rest is split the same way. |
| Strings.TrimLeft | tspend.go:60 | Removes exactly the leading white space: the result is a suffix, its first character is not a space, and every removed character is. |
| Strings.TrimRight | tspend.go:60 | Removes exactly the trailing white space: the result is a prefix, its last character is not a space, and every removed character is. |
| Strings.TrimSpace | tspend.go:60 | The result is a slice of the input that neither starts nor ends with white space. |
| Strings.TrimSpaceStripsPadding | tspend.go:60 | Trimming a non-blank core padded with white space on both sides gives back the core. |
| Strings.TrimLeftStrips | tspend.go:60 | Leading white space before a non-space character is exactly what the left trim removes. |
| Strings.TrimRightStrips | tspend.go:60 | Trailing white space after a non-space character is exactly what the right trim removes. |
| Strings.AsciiBytes | tspend.go:61 | `[]byte(s)` of an ASCII string keeps its length and maps each character to its code. |
| Networks.SingleFlagSelectsItsNetwork | config.go:142-162 | With at most one network flag, the selected network is that flag's, and mainnet when none is set. |
| Window.BlocksToTVI | tspend.go:264 | `tvi - h % tvi` with Go's `%` reaches the next multiple of the TVI; for a non-negative height it lies in [1, tvi]. |
| Window.PlacementHeight | tspend.go:256-271 | Fewer than tvi/4 blocks before the next TVI boundary moves the height onto that boundary; otherwise the height is unchanged. |
| Window.PlacementLeavesQuarterInterval | tspend.go:256-271 | After placement at least a quarter TVI of blocks remains before the next boundary. |
| Rules.DustTotalSize | rules.go:30-31 | The network cost of an output is 176 to 184 bytes more than its script length. |
| Rules.IsDustAmount | rules.go:23-36 | While `amount*1000` fits in an int64, a non-negative amount is dust exactly when 1000 times it is below the relay fee times three times the network cost. The truncating division is multiplied out. A non-positive amount is dust under any positive relay fee. |
| Rules.DustAntitoneInAmount | rules.go:35 | For non-negative amounts whose product with 1000 fits in an int64, any smaller amount is also dust when a larger one is. |
| Rules.DustMonotoneInRelayFee | rules.go:35 | Raising the relay fee never turns dust into non-dust. |
| Rules.IsDustOutput | rules.go:41-54 | Null-data outputs are never dust. A spendable output with a value in [0, MaxAmount] is dust exactly when 1000 times its value is below the relay fee times three times the network cost of its script. |
| Rules.DustOutputCases | rules.go:41-54 | Null-data outputs are never dust, every other unspendable output is dust, and the rest go by the amount rule. |
| Rules.CheckOutput | rules.go:59-70 | No error exactly when the value is in [0, MaxAmount] and the output is not dust. The negative-amount error comes exactly for a negative value, and the exceeds-maximum error exactly for a value above MaxAmount. The dust error comes only for an in-range value. |
| Rules.FeeForSerializeSize | rules.go:74-86 | The fee is always in [0, MaxAmount]. A negative proportional fee becomes MaxAmount. A rate in (0, MaxAmount] whose fee truncates to 0 pays the rate. An in-range positive fee is kept, and one above MaxAmount is clamped to MaxAmount. |
| Rules.ProportionalFeeNoOverflow | rules.go:75 | Without overflow, the proportional fee is the floor of rate times size over 1000. |
| Rules.FeeMonotoneAboveFloor | rules.go:74-86 | Once rate times size reaches 1000, and while nothing overflows, a larger transaction never pays less. |
| Rules.FeeFloorIsNotMonotone | rules.go:77-79 | Below that point the floor breaks monotonicity: 99 bytes pay 10 atoms and 100 bytes pay 1 atom at 10 atoms/kB. |
| Rules.SumOutputValues | rules.go:88-93 | The loop's result is the int64 wrap of the exact sum of the output values. |
| Rules.SumValuesBounded | rules.go:88-93 | Up to 4000 values, each in [0, MaxAmount], sum without wrapping. |
| TSpendConfig.Config.FillActiveNet | config.go:142-164 | `activeNet` is the last flag set (main, test, sim order) or mainnet. More than one flag is an error that leaves `chainParams` as it was; otherwise `chainParams` is the selected network's. |
| TSpendConfig.Config.ResolveDerived | config.go:326-335 | Conflicting network flags fail first. Otherwise the configuration is accepted exactly when the numbers of addresses and amounts are equal, and the error carries both counts. |
| TSpendConfig.Loggers.ParseAndSetDebugLevels | config.go:189-235 | The new logger levels and the error are those of the reference walk `ApplyDebugLevels` over the old levels. |
| TSpendConfig.SetAll | config.go:199-200 | A bare level sets every known subsystem to that level and adds none. |
| TSpendConfig.ApplyPairsStep | config.go:207-232 | Applying one more pair extends the walk over the earlier pairs: it stops at an earlier error, otherwise it applies or rejects the new pair. |
| TSpendConfig.ApplyPairsKeepsSubsystems | config.go:207-232 | Any walk over pairs changes only levels, never the set of subsystems. |
| TSpendConfig.FirstBadPairAborts | config.go:207-232 | The first bad pair's error is reported, and the earlier pairs stay applied. |
| TSpendConfig.GoodPairsSetLevels | config.go:214-231 | After an error-free walk, every pair contains `=` and names a known subsystem. A pair's level stands when no later pair names the same subsystem. |
| TSpend.MsgTx.constructor | tspend.go:308 | `wire.NewMsgTx`: version 1, no inputs or outputs, zero lock time and expiry. |
| TSpend.MsgTx.AddTxOut | tspend.go:316 | Appends the output and changes nothing else. |
| TSpend.MsgTx.AddTxIn | tspend.go:340-350 | Appends the input and changes nothing else. |
| TSpend.ExpiryFor | tspend.go:231-275 | A non-zero configured expiry is returned as uint32. It fails only when there is neither a configured expiry, a configured height nor a best height from the node, and then fails with the best-block error. |
| TSpend.LoadExpiry | tspend.go:231-275 | The imperative `loadExpiry` (including its `nextHeight` advance) returns what `ExpiryFor` specifies. |
| TSpend.CollectFailureSticks | tspend.go:153-176 | Once a prefix of the payout entries fails, the whole list fails with that error. |
| TSpend.CollectCharacterization | tspend.go:153-176 | Loading succeeds exactly when every entry does, with their payouts in order; otherwise it fails with the first failing entry's error. |
| TSpend.CfgEntries | tspend.go:153-175 | One payout result per configured address. |
| TSpend.PayoutsFromCfg | tspend.go:150-177 | The append loop returns `Collect` over the configured entries. By `CollectCharacterization`, that is all payouts in order, or the first entry's amount or address error. |
| TSpend.CsvEntries | tspend.go:104-145 | One result per CSV record, plus the read error when the file ends in one. |
| TSpend.PayoutsFromCSV | tspend.go:95-148 | An unreadable file fails. Otherwise the record loop returns `Collect` over the CSV entries: every record's payout in order, or the first failing record's error (wrong field count, bad address, bad amount), or the read error. |
| TSpend.LoadedPayoutsFailure | tspend.go:179-185 | Loading payouts can fail only with a payout-loading error. |
| TSpend.LoadPayouts | tspend.go:179-185 | Reads the CSV file when one is named, else the configured pairs. |
| TSpend.PayoutOutputs | tspend.go:319-329 | One output per payout. |
| TSpend.OutputWarningsCharacterization | tspend.go:330-333 | Each output that fails `CheckOutput` gets exactly one warning, carrying its index and error; every warning is of this kind. |
| TSpend.BuildUnsigned | tspend.go:308-350 | The built transaction has version 3 and the stakebase input. Its outputs are the zero OP_RETURN placeholder followed by one output per payout, in order. Its lock time is 0 and its expiry is the given one. The total is the int64 sum of the payouts, and the warnings are those of the failing outputs. |
| TSpend.BuildStep | tspend.go:319-337 | One payout adds its output, joins the int64 total and adds at most one warning. |
| TSpend.Overlay | tspend.go:216 | `copy` keeps the destination's length and replaces only its leading bytes. |
| TSpend.OverlayOnZeros | tspend.go:216-218 | Copying into a zeroed buffer gives the source padded with zeros. |
| TSpend.VersionHighByteIsZero | tspend.go:203 | `byte(version << 8)` on a uint16 is always 0. |
| TSpend.PayloadTail | tspend.go:194-221 | The 24 payload bytes after the value have the same length in all three modes: deterministic, hex data or random. |
| TSpend.DeterministicTail | tspend.go:195-216 | The deterministic tail, when the extra data decodes, is 24 bytes long. |
| TSpend.GivenTail | tspend.go:217-221 | The hex-data or random tail, when it succeeds, is 24 bytes long. |
| TSpend.DeterministicTailIsHashPrefix | tspend.go:195-216 | Without extra data, the deterministic tail is the first 24 bytes of the BLAKE-256 hash of the tag and payouts. |
| TSpend.HexDataFillsTail | tspend.go:217-218 | Hex data of 1 to 24 bytes lands at the start of the tail, zero-padded, and the random source is not consulted. |
| TSpend.GivenHexTail | tspend.go:217-218 | Hex data that decodes is copied over the zeroed tail. |
| TSpend.OpReturnScriptLayout | tspend.go:187-228 | The final script is OP_RETURN OP_DATA_32 and has the 34-byte placeholder's size. Its bytes 2..10 decode to the value, and the rest is the tail. So the size charged for the fee does not drift when the placeholder is replaced. |
| TSpend.PutUint64 | tspend.go:192 | Writes the value's 8 little-endian bytes at the start of the buffer and keeps the rest. |
| TSpend.CopyInto | tspend.go:216 | `copy(a[off:], src)` changes only the bytes from `off` on, as `Overlay` says. |
| TSpend.LoadOpReturnScript | tspend.go:187-229 | Produces the OP_RETURN script over the value and the mode's tail, or that mode's error (bad hex data or a failed random read). |
| TSpend.DeterministicHashInput | tspend.go:196-205 | The bytes written to the hasher are the domain tag, then for each payout its LE amount, two version bytes and script. |
| TSpend.PrivKeyFromHex | tspend.go:59-63 | A decoded key has at most 32 bytes. |
| TSpend.HexDigitsAreNotSpace | tspend.go:60-61 | Hex text contains no white space, so trimming never eats into a key. |
| TSpend.LoadedKey | tspend.go:65-75 | Loading the key fails only because the key file or standard input is unavailable, or because the hex key is invalid. |
| TSpend.PrivKeyHexRoundTrip | tspend.go:59-63 | A 32-byte key written as hex, with any surrounding white space, reads back as the key. |
| TSpend.ZeroBytes | tspend.go:77-81 | Every byte of the buffer is 0 afterwards. |
| TSpend.SignAndWipe | tspend.go:377-381 | The signer sees the key as it was, and the key buffer is all zeros afterwards, whether or not signing failed. |
| TSpend.FindPiKey | tspend.go:390-393 | True exactly when the recovered public key is one of the network's Pi keys. |
| TSpend.FundTx | tspend.go:339-367 | The estimated size is the unsigned transaction's size plus the 100-byte signature allowance, and the fee is charged for that size. ValueIn is the int64 wrap of the payout total plus the fee. When the OP_RETURN tail can be made, the transaction carries ValueIn and the OP_RETURN encoding it. |
| TSpend.FundAndSign | tspend.go:339-382 | The result is `SignedOutcome`'s: the OP_RETURN payload's error (bad hex data or a failed random read) when it cannot be made; else the key's error when the key did not load; else the signing error exactly when the signer refuses the funded transaction. Otherwise it is a transaction `Assembled` from the payouts and expiry, with the output warnings. Output warnings never cause a failure. |
| TSpend.CheckAndPublish | tspend.go:384-426 | The result is `CheckedOutcome`'s: it fails exactly when CheckTSpend recovers no key, or when publishing is asked for and the node reports an error other than a duplicate. A failed CheckTSpend is fatal. A publish error is fatal unless it is a duplicate, which is only flagged. The recovered key, the published and duplicate flags, the output sink and the Pi key warning are reported as the source decides them. |
| TSpend.GenTspend | tspend.go:277-463 | The result is `GeneratedOutcome`'s: the first failure among the needed node connection, `ExpiryFor`, `LoadedPayouts`, an empty payout list, the middle steps (`SignedOutcome`) and the end (`CheckedOutcome`), each exactly when its cause occurs. When none occurs it succeeds with the signed transaction, so output warnings and a key outside the Pi keys never make it fail. A node that is needed but cannot be reached gives the connection error. The best-block error comes only when a node is needed. A publish error comes only when publishing, and never for a duplicate. On success: the expiry is `ExpiryFor`'s, and the payouts are the loaded ones and non-empty. The key loaded, and the transaction is assembled from them and passes CheckTSpend. It is published exactly when publishing is asked for and the node accepts it, and flagged as a duplicate exactly when the node says it already has it. The raw transaction goes to the output file when one is named. The warnings are the failing outputs' plus the Pi key warning. |
| TSpend.AssembledShape | tspend.go:308-350 | The generated transaction has one input, spending the null outpoint (zero hash, maximal index) and carrying the int64 wrap of payout total plus fee. After the OP_RETURN come exactly the payout outputs with their amounts. The version is 3 and the expiry is the loaded one. |
| TSpend.AssembledCommitsToValueIn | tspend.go:359-364 | The OP_RETURN has the placeholder's length, and its first eight payload bytes, read as an int64, are the input's ValueIn. |
| TSpend.ValueInCoversPayoutsAndFee | tspend.go:352-361 | Without wrap-around (at most 4000 payouts, each in [0, MaxAmount]), ValueIn is exactly the sum of the payout outputs plus the fee. |
| VoteProgress.Div | voteprogress/progress.go:65 | uint64 division is the floor: `r*b <= a < (r+1)*b`. |
| VoteProgress.DivCeil | voteprogress/progress.go:13-19 | `divCeil(a, b)` is the least `r` with `r*b >= a`. |
| VoteProgress.InclusionBlock | voteprogress/progress.go:87 | Without wrap-around, the inclusion block is a multiple of the TVI, strictly above the approval block and at most one TVI after it. |
| VoteProgress.Scenario3Exact | voteprogress/progress.go:156-163 | Without wrap-around, Scenario 3's threshold is the floored share `yes*requiredDiv/requiredMul`, the shortcut exists exactly when it exceeds the votes cast, and then the remaining votes and the threshold block are the plain differences. |
| VoteProgress.Scenario1NoLaterThanScenario3 | voteprogress/progress.go:104-167 | While the spend is undecided and Scenario 3 has a threshold block, and the required share is at most one: that block lies between the current block and the end of voting, and Scenario 1's approval block is no later than Scenario 3's (without wrap-around). |
| VoteProgress.ProgressForTspend | voteprogress/progress.go:21-181 | Not started exactly when the current block is at or before the vote start, with the blocks still to go. Otherwise the tally is `TallyAt`. Approved exactly when no yes vote is missing, with inclusion from the current block. Disapproved exactly when more are missing than can still be cast. Undecided with Scenario 1 after `divCeil(missing, vpb)` blocks, and with Scenario 3. |
| VoteProgress.CountVotes | voteprogress/progress.go:57-83 | The uint64 counts once voting has started are those of `TallyAt`. |
| VoteProgress.NoMoreVotes | voteprogress/progress.go:153-178 | Returns `Scenario3For`: the uint64 threshold `yes*div/mul`. When it exceeds the votes cast, the shortcut carries the threshold's remaining votes, its block and the projection to it; otherwise there is no shortcut, which is the impossible case. |
| VoteProgress.Project | voteprogress/progress.go:106-110 | The approval and inclusion blocks of a projection, as `ProjectFrom` specifies. |
| VoteProgress.TallyExact | voteprogress/progress.go:63-83 | For chain-sized inputs nothing wraps. The quorum is the floored fraction of every possible vote. The required yes votes are the floored fraction of the votes cast plus those still possible. None are missing exactly when the yes votes reach that. |
| VoteProgress.AllYesKeepsRequired | voteprogress/progress.go:103-106 | If every later vote is a yes, the required yes votes stay the same, and approval comes when the added yes votes cover the missing ones. |
| VoteProgress.Scenario1ReachesApproval | voteprogress/progress.go:103-110 | For an undecided spend, Scenario 1's approval block is at or before the vote end. With all-yes votes no yes vote is missing there, and some still is at every earlier block. |
| VoteProgress.Scenario3ApprovalIsThresholdBlock | voteprogress/progress.go:162-167 | Scenario 3's approval block is its threshold block: the uint64 round trip through the block count cancels even when it wraps. |
| VoteProgress.Scenario3ApprovesAtThreshold | voteprogress/progress.go:156-167 | Without wrap-around, the tally at Scenario 3's threshold block, with no new votes, already shows no missing yes vote. |
| VoteFixture.Test01Main | voteprogress/test01_main.go:7-107 | The example prints: 8478 votes cast of 12320 possible so far, max votes 17280, quorum 3456 (reached), 992 blocks and 4960 votes remaining, 8062 required and 0 missing, and Scenario 1 approval at 564352 with inclusion at 564480. The unguarded Scenario 3 gives threshold block 564214 and a block count that wraps to 2^64-138. |
| VoteFixture.Test01TallyApproved | voteprogress/test01_main.go:34-51 | The report's own `TallyAt` on the example's figures gives the same quorum and required votes, so the spend is already approved. |
| VoteFixture.Test01Inclusion | voteprogress/test01_main.go:56-60 | With no yes vote missing, Scenario 1 needs 0 blocks: approval at block 564352, and the inclusion opportunity at block 564480, 128 blocks on. |
| VoteFixture.Test01Scenario3 | voteprogress/test01_main.go:95-102 | The report's guarded Scenario 3 applies to the example too, because the threshold 14130 exceeds the 8478 votes cast. It gives 5652 remaining votes, threshold block 564214 and the same wrapped block count. |
| VoteProgressConfig.Config.FillActiveNet | voteprogress/config.go:103-125 | The last flag set wins, and mainnet wins with none. More than one flag is an error that leaves `chainParams` as it was; otherwise `chainParams` is the selected network's. |
| VoteProgressConfig.Config.ResolveNetwork | voteprogress/config.go:197-206 | Conflicting flags fail and keep the node address. After a successful selection, the active network is the last flag set (mainnet when none), and an empty node address gets the selected network's default, and an address the user gave is kept. |
| SpendEstimateConfig.SelectNetworkIsFillActiveNet | spendestimate/config.go:70-83 | The fall-through switch fails exactly when two or more flags are set; otherwise it selects the one flag's network, and mainnet with none. |
| SpendEstimateConfig.ConnectForName | spendestimate/config.go:85-94 | Only the names mainnet, testnet3 and simnet get a default address. |
| SpendEstimateConfig.ConnectForNameAgrees | spendestimate/config.go:85-94 | The default chosen by parameter name is the per-network default of the other two tools (ports 9109, 19109, 19556). |
| SpendEstimateConfig.Config.ResolveNetwork | spendestimate/config.go:70-94 | More than one flag is an error that changes nothing. Otherwise the selected parameters are the single flag's, and an empty address gets their default. |
| SpendEstimateUtil.ChunkLength | spendestimate/util.go:34-43 | A chunk is 1 to `end - height + 1` blocks long and, from a non-negative height, stays within one reduction interval. |
| SpendEstimateUtil.ChunkWithinInterval | spendestimate/util.go:34-39 | A chunk no longer than the distance to the next reduction boundary does not cross it. |
| SpendEstimateUtil.SumTbases | spendestimate/util.go:29-52 | The chunk loop returns `WindowSum`: the subsidies of the `blocks` blocks ending at `endHeight`, each chunk charged at its first block's subsidy. |
| SpendEstimateUtil.ChunkedSumIsPerBlockSum | spendestimate/util.go:29-52 | When the subsidy changes only at reduction boundaries, the chunked sum equals the per-block sum. |
| SpendEstimateUtil.ChunksCoverWindow | spendestimate/util.go:31-48 | The chunks together cover exactly the `blocks` blocks of the window. |
| SpendEstimateUtil.Plural | spendestimate/util.go:54-59 | `one` exactly when the count is 1. |
| SpendEstimateUtil.FormatDuration | spendestimate/util.go:13-22 | The day format is used exactly for durations over 24h. It splits at `d` into the whole days and then the remaining whole hours followed by `h`. |
| SpendEstimateUtil.DaysAndHours | spendestimate/util.go:14-18 | The printed days are at least 1 and the hours below 24, and together they are the whole hours of the duration. |
| SpendEstimate.TSpendsIn | spendestimate/main.go:84-95 | Each collected tspend records the visited block's hash and height. |
| SpendEstimate.VisitBlock | spendestimate/main.go:39-103 | A block passed without error was known to the node, and the walk continues at its parent. |
| SpendEstimate.TallyUpdates | spendestimate/main.go:56-65 | The update loop adds every positive update to `added`, adds the negation of every negative update to `spent` (both int64 sums), and counts the negative updates. |
| SpendEstimate.TallyStep | spendestimate/main.go:57-65 | One update folded into the int64 totals matches the exact totals up to it. |
| SpendEstimate.CollectTSpends | spendestimate/main.go:84-95 | The stake transaction loop returns the block's tspends in order. |
| SpendEstimate.VisitOne | spendestimate/main.go:40-102 | One pass of the loop body changes the named results as `VisitBlock` says, and keeps them int64. |
| SpendEstimate.PastTreasuryChanges | spendestimate/main.go:32-106 | The loop's seven results are those of the reference walk `ScanFrom`. |
| SpendEstimate.Chain | spendestimate/main.go:39-47 | The walk visits at most `nbBlocks` blocks, starting at the tip. |
| SpendEstimate.ChainFollowsParents | spendestimate/main.go:39-47 | Each visited block is the `PrevBlock` of the one before, and a short walk ends at a block the node does not know. |
| SpendEstimate.TotalFound | spendestimate/main.go:84-102 | Every collected tspend names a visited block and that block's height. |
| SpendEstimate.VisitIntended | spendestimate/main.go:40-102 | With the intended test, a block passes exactly when it is consistent, and then adds its own figures. |
| SpendEstimate.ScanSucceedsIff | spendestimate/main.go:39-106 | With the intended test, the walk succeeds exactly when the node has all `n` blocks and each is consistent. |
| SpendEstimate.WrappedAddedIsWrapOfTotal | spendestimate/main.go:57-60 | Wrapping `added` after every block equals wrapping its exact total once. |
| SpendEstimate.WrappedSpentIsWrapOfTotal | spendestimate/main.go:61-64 | Wrapping `spent` after every block equals wrapping its exact total once. |
| SpendEstimate.ScanTotals | spendestimate/main.go:55-65 | A walk over consistent blocks keeps the int64 running totals of their adds and spends. |
| SpendEstimate.ScanCollects | spendestimate/main.go:84-102 | A walk over consistent blocks collects their tspends in visiting order. |
| SpendEstimate.ScanBalances | spendestimate/main.go:67-72 | `initialBalance` is the last visited block's balance, and `finalBalance` is the tip's. |
| SpendEstimate.ScanSums | spendestimate/main.go:55-65 | From zero, the totals are the int64 sums over the walk. |
| SpendEstimate.ScanIsWalk | spendestimate/main.go:32-106 | With the intended test, the walk succeeds exactly when all blocks are present and consistent. Then the totals are the int64 sums, the tspends are those of the walk in order, and the balances are the oldest block's and the tip's. |
| SpendEstimate.AsWrittenRejectsConsistentBlock | spendestimate/main.go:96-101 | As written, a block whose tspends all turn up stops the walk with a "found only" error naming equal counts. |
| SpendEstimate.AsWrittenSucceedsOnlyOnMismatch | spendestimate/main.go:96-102 | As written, a successful walk met only blocks without negative updates or inconsistent ones. |
| SpendEstimate.ExampleShowsCountTest | spendestimate/main.go:96-102 | On a one-block chain with one 100-atom tspend, the walk as written fails, while the intended walk collects the spend. |
| SpendEstimate.InsertByHeight | spendestimate/main.go:141-143 | Insertion adds exactly one element. |
| SpendEstimate.InsertKeepsSorted | spendestimate/main.go:141-143 | Inserting into height-sorted spends keeps them sorted. |
| SpendEstimate.InsertAddsOne | spendestimate/main.go:141-143 | Inserting adds exactly the one spend to the multiset. |
| SpendEstimate.SortByHeight | spendestimate/main.go:141-143 | The sort yields the same spends in ascending order of mined height. |
| SpendEstimate.Spendable | spendestimate/main.go:146-150 | An int64, and 0 when the int64 allowance `added + added/2` (truncating) is at most `spent`. While neither the allowance nor the difference wraps, it is never negative, and it is positive exactly when the allowance exceeds `spent`, being then their difference. |
| SpendEstimate.SpendableMonotone | spendestimate/main.go:146-150 | Adding more or spending less never makes less spendable, while the larger allowance and its difference stay within int64. |
| SpendEstimate.StaleCount | spendestimate/main.go:172-177 | The number of spends that no longer count is at most the number of spends. |
| SpendEstimate.AllOverlap | spendestimate/main.go:213-218 | When every spend still counts, all their amounts are subtracted. |
| SpendEstimate.NoneOverlap | spendestimate/main.go:213-218 | When no spend counts, nothing is subtracted. |
| SpendEstimate.StaleArePrefix | spendestimate/main.go:172-177 | For height-sorted spends, those that no longer count are a prefix, and all after it still count. |
| SpendEstimate.OverlapIsSuffix | spendestimate/main.go:172-177 | For height-sorted spends, the subtracted amounts are those of the suffix after the stale prefix. |
| SpendEstimate.EstimateAfterLeaving | spendestimate/main.go:160-196 | The report says when the spend leaves the window: at its mined height plus the policy window, with the block count, its plural word and the formatted time. The estimate is the treasury bases of the window ending there, plus half (truncating), minus every later spend that still counts against a window two TVIs longer. The maturity note appears exactly while the spend is younger than coinbase maturity, with the blocks still to go. |
| SpendEstimate.LaterSpendsAllSubtracted | spendestimate/main.go:172-177 | For sorted spends and a positive TVI, every later spend is subtracted from an earlier one's estimate. |
| SpendEstimate.LeaveWindowFollowsSpend | spendestimate/main.go:161-171 | A leaving spend's estimate sums the policy window that starts right after its block, each block at its own subsidy. |
| SpendEstimate.EstimateAllLeaving | spendestimate/main.go:160-196 | One report per spend, in order. |
| SpendEstimate.EstimateNewSpend | spendestimate/main.go:198-219 | The new spend's expiry is placed from the tip height itself, as the tspend tool places a next height. The estimate is the treasury bases of the policy window ending at the end of its vote, plus half (truncating), minus every known spend still counting then. |
| SpendEstimate.NewSpendExpiryOneBlockBehind | spendestimate/main.go:200-208 | That expiry is the one the tspend tool would give on a chain one block lower. |
| SpendEstimate.EstimateSpend | spendestimate/main.go:109-231 | It fails exactly when the walk over the policy window fails, with the walk's error. Otherwise it reports the rules label DCP0007, the policy window, the tip's balance and `Spendable` of the walk's totals. The walk's spends come sorted by height and as a permutation, each with its leave report, followed by the new-spend report. |
| ExpiryFor.Run | expiryfor/main.go:13-62 | Fewer than two arguments give the usage exit. A network flag without a height after it is the index panic, and a height that does not parse as int32 gives the parse error. Otherwise the report is for the chosen network (mainnet without a flag) and the height after the parsed one. It holds that height's TVI flag, blocks to the TVI, the quarter-TVI threshold, the first expiry and that expiry's voting window. A second, advanced expiry appears exactly when the height is too close, at the placed height, with its own window. The final expiry equals the tspend tool's own for that chain height. |

## Left out

- Command-line and configuration-file parsing, directory creation, log rotation and
  certificate reads (config.go:237-403 apart from the network and count checks,
  voteprogress/config.go:127-219 apart from the address default, the `flags` part of
  spendestimate/config.go): this is I/O. The parsed options are the fields of each `Config`
  class.
- Node RPC (dcrd.go, `voteProgress`, `realMain`, `GetBestBlock`, `SendRawTransaction`,
  `GetBlockHash`) is network I/O. Node answers are the `TSpend.Node` and
  `SpendEstimate.Node` values, so `estimateSpend` starts from a resolved tip.
- Encrypted key files (ss.go) and reading the key from a terminal or standard input are
  foreign crypto and TTY I/O. The key text they yield is a field of `TSpend.Inputs`, decoded
  as `privKeyFromHex` does.
- Signal and shutdown plumbing (spendestimate/signal.go, main.go) is goroutines and
  channels.
- Floating point is not modelled: the yes share, progress, participation, day counts,
  Scenario 2 of voteprogress (both files), and `strconv.ParseFloat` of CSV amounts, which is
  part of `Library.parseCsvAmount`.
- Library and consensus internals are parameters whose bodies are not modelled: BLAKE-256,
  `rand.Read`, `TSpendSignatureScript`, `CheckTSpend`, `IsTSpend`, `CalcTSpendExpiry`,
  `CalcTSpendWindow`, `CalcTreasurySubsidy`, `IsTreasuryVoteInterval`, address decoding,
  `PayFromTreasuryScript`, `SerializeSize`, `TxHash`, script classification and
  `slog.LevelFromString`.
- Printing is not modelled (`fmt`, `println`, spew, debug logs and the hex dump of the raw
  transaction). The reports are datatypes, and the raw transaction's destination is the
  `sink` field. `Duration.String`, used by the other branch of `formatDuration`, is `None`. Failures creating the output file or serializing the transaction are not modelled.
- SpendEstimate.EstimateAfterLeaving: computes the estimate, leave height and maturity in exact
  integers rather than int64, because realistic heights, windows and subsidies stay far below
  2^63.
- SpendEstimate.EstimateNewSpend: exact integers rather than int64, for the same reason.
- SpendEstimateUtil.SumTbases: `res += tbase * blocksToAdd` is exact rather than int64, for the
  same reason.
- VoteProgress.InclusionBlock, VoteProgress.TallyExact, VoteProgress.Scenario1ReachesApproval,
  VoteProgress.Scenario3ApprovesAtThreshold, VoteProgress.Scenario3Exact and
  VoteProgress.Scenario1NoLaterThanScenario3: state their meaning only for inputs small enough
  that nothing wraps, because with wrapped uint64 figures the report's quantities carry no
  meaning. The figures themselves are modelled with wrap-around for all inputs.
- SpendEstimate.SortByHeight: an insertion sort stands for Go's `sort.Slice`, which is not stable. Spends mined at the same height may come in another order, so `EstimateSpend` states only sortedness and permutation.
- TSpend.ValueInCoversPayoutsAndFee: holds only without int64 wrap-around, because the source
  sums with wrapping `dcrutil.Amount` arithmetic.
- Rules.IsDustAmount and Rules.DustAntitoneInAmount: the multiplied-out comparison is stated only
  for non-negative amounts up to MaxInt64/1000 (about 9.22e15 atoms, above MaxAmount). Beyond
  that `int64(amount)*1000` wraps. For negative amounts the truncating division rounds toward
  zero, so only their dustiness under a positive fee is stated.
- SpendEstimate.Spendable and SpendEstimate.SpendableMonotone: the function wraps as Go's
  int64 arithmetic does, but its sign and difference are stated only while neither
  `added + added/2` nor the difference with `spent` wraps, because a wrapped allowance carries no
  meaning. SpendEstimate.EstimateSpend reports `Spendable` of the walk's int64 totals, so the
  same bound applies to its figure.
- Encoding.DecodeHex, TSpend.LoadOpReturnScript and TSpend.PrivKeyFromHex: Go's `hex.Decode` into a
  destination too short for the input panics with an index out of range (tspend.go:61, :209,
  :218). The model returns the error value `DestinationTooShort` instead, because a Dafny
  function cannot panic; the callers report it as they report a decoding error.
- TSpendConfig.Config.FillActiveNet: the `panic` for an unknown network (config.go:59-60) is left out, because the model's `Network` has only the three networks.

## Findings

| source | as written | input that shows it | evidently intended | confidence | as-written member | corrected member |
|---|---|---|---|---|---|---|
| spendestimate/main.go:96 | `pastTreasuryChanges` returns a "found only %d tspends while expected %d" error when the number of tspends found in a block equals its count of negative treasury updates | one block whose balance has the single update -100 and whose stake transactions hold one tspend of 100 atoms: the walk fails with counts 1 and 1 | fail only when the counts differ (`!=`), and otherwise append the block's tspends | not executed | SpendEstimate.ExampleShowsCountTest | SpendEstimate.ScanIsWalk |

The walk is parameterised by its count test (`SpendEstimate.CountCheck`).
`SpendEstimate.AsWrittenRejectsConsistentBlock` and
`SpendEstimate.AsWrittenSucceedsOnlyOnMismatch` show that the test as written rejects every
block with a tspend whose data is consistent. `SpendEstimate.ScanIsWalk` proves the intended
test's behaviour over all chains.
