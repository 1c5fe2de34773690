/**
 * The treasury spend estimator (spendestimate/main.go): a walk back from the
 * tip over the expenditure policy window that totals the treasury's adds and
 * spends and collects the treasury spends mined in it, then the arithmetic of
 * the report: what is spendable now, what each past spend frees when it
 * leaves the window, and what a spend created now could take at the end of
 * its vote.
 *
 * The node is a set of maps, one per RPC the walk makes (a missing key is
 * that call's error). The treasury subsidy, `CalcTSpendExpiry` and
 * `CalcTSpendWindow` are parameters. The running totals of the walk are
 * int64 and wrap as in the source; the estimate's arithmetic is exact.
 */
module SpendEstimate {
  import opened Wrappers
  import opened GoInt
  import opened Encoding
  import opened Networks
  import opened Window
  import opened SpendEstimateUtil
  import TSpend

  type Hash = seq<byte>

  /** `chainhash.Hash{}`, the value of the unset `prevNode` result. */
  function ZeroHash(): (h: Hash)
    ensures |h| == 32
  {
    Zeros(32)
  }

  datatype Header = Header(prevBlock: Hash, height: nat)

  /** `GetTreasuryBalanceResult` with its per-transaction updates: adds positive, spends negative. */
  datatype TreasuryBalance = TreasuryBalance(balance: nat, updates: seq<int>)

  /** A stake transaction of a block: whether `stake.IsTSpend` accepts it, its hash and `TxIn[0].ValueIn`. */
  datatype StakeTx = StakeTx(isTSpend: bool, hash: Hash, valueIn: int)

  /** The answers of `GetBlockHeader`, `GetTreasuryBalance` and `GetBlock`, by block hash. */
  datatype Node = Node(
    headers: map<Hash, Header>,
    balances: map<Hash, TreasuryBalance>,
    blocks: map<Hash, seq<StakeTx>>
  )

  /** The `tspend` struct. */
  datatype TSpendRecord = TSpendRecord(hash: Hash, minedHash: Hash, minedHeight: nat, amount: int)

  datatype ScanError =
    | HeaderUnavailable(block: Hash)
    | BalanceUnavailable(block: Hash)
    | BlockUnavailable(block: Hash)
    | CountMismatch(found: nat, expected: nat, block: Hash)

  /**
   * The test after a block's treasury spends are collected. As written it
   * fails when as many were found as the block's negative updates announce;
   * the evident intent is to fail when the two differ.
   */
  datatype CountCheck = AsWritten | Intended

  predicate Rejects(check: CountCheck, found: nat, expected: nat)
  {
    match check
    case AsWritten => found == expected
    case Intended => found != expected
  }

  /** The named results of `pastTreasuryChanges`. */
  datatype Scan = Scan(
    added: int,
    spent: int,
    initialBalance: int,
    finalBalance: int,
    tspends: seq<TSpendRecord>,
    prevNode: Hash,
    err: Option<ScanError>
  )

  // ------------------------------------------------------------ one block

  /** The sum of the positive updates. */
  function AddedBy(updates: seq<int>): int
  {
    if updates == [] then 0
    else
      var v := updates[|updates| - 1];
      AddedBy(updates[..|updates| - 1]) + (if v > 0 then v else 0)
  }

  /** The sum of the negated negative updates. */
  function SpentBy(updates: seq<int>): int
  {
    if updates == [] then 0
    else
      var v := updates[|updates| - 1];
      SpentBy(updates[..|updates| - 1]) + (if v < 0 then -v else 0)
  }

  /** How many updates are negative: the treasury spends the block should hold. */
  function NegativeCount(updates: seq<int>): nat
  {
    if updates == [] then 0
    else NegativeCount(updates[..|updates| - 1]) + (if updates[|updates| - 1] < 0 then 1 else 0)
  }

  /** The records of the treasury spends among a block's stake transactions, in block order. */
  function TSpendsIn(txs: seq<StakeTx>, block: Hash, height: nat): (r: seq<TSpendRecord>)
    ensures |r| <= |txs|
    ensures forall k :: 0 <= k < |r| ==> r[k].minedHash == block && r[k].minedHeight == height
  {
    if txs == [] then []
    else
      var tx := txs[|txs| - 1];
      TSpendsIn(txs[..|txs| - 1], block, height)
        + (if tx.isTSpend then [TSpendRecord(tx.hash, block, height, tx.valueIn)] else [])
  }

  // ------------------------------------------------------------ the walk

  /**
   * One pass of the loop of `pastTreasuryChanges` on block `cur`: the totals
   * `st` updated with that block, or with the error that ends the walk there
   * (the named results keep what they had accumulated). `setFinal` says
   * whether this is the first block visited.
   */
  function VisitBlock(node: Node, check: CountCheck, cur: Hash, st: Scan, setFinal: bool): (r: Scan)
    ensures r.err.None? ==> cur in node.headers && r.prevNode == node.headers[cur].prevBlock
  {
    if cur !in node.headers then st.(err := Some(HeaderUnavailable(cur)))
    else
      var header := node.headers[cur];
      var st1 := st.(prevNode := header.prevBlock);
      if cur !in node.balances then st1.(err := Some(BalanceUnavailable(cur)))
      else
        var tb := node.balances[cur];
        var count := NegativeCount(tb.updates);
        var st2 := st1.(added := Wrap64(st.added + AddedBy(tb.updates)),
                        spent := Wrap64(st.spent + SpentBy(tb.updates)),
                        initialBalance := Wrap64(tb.balance),
                        finalBalance := if setFinal then Wrap64(tb.balance) else st.finalBalance);
        if count == 0 then st2
        else if cur !in node.blocks then st2.(err := Some(BlockUnavailable(cur)))
        else
          var found := TSpendsIn(node.blocks[cur], cur, header.height);
          if Rejects(check, |found|, count) then st2.(err := Some(CountMismatch(|found|, count, cur)))
          else st2.(tspends := st.tspends + found)
  }

  /** The state after visiting at most `n` more blocks from `cur`, stopping at the first error. */
  function ScanFrom(node: Node, check: CountCheck, cur: Hash, n: nat, st: Scan, setFinal: bool): Scan
    decreases n
  {
    if n == 0 then st
    else
      var s := VisitBlock(node, check, cur, st, setFinal);
      if s.err.Some? then s else ScanFrom(node, check, s.prevNode, n - 1, s, false)
  }

  function InitialScan(): Scan
  {
    Scan(0, 0, 0, 0, [], ZeroHash(), None)
  }

  lemma AddedStep(updates: seq<int>, j: nat)
    requires j < |updates|
    ensures AddedBy(updates[..j + 1]) == AddedBy(updates[..j]) + (if updates[j] > 0 then updates[j] else 0)
    ensures SpentBy(updates[..j + 1]) == SpentBy(updates[..j]) + (if updates[j] < 0 then -updates[j] else 0)
    ensures NegativeCount(updates[..j + 1]) == NegativeCount(updates[..j]) + (if updates[j] < 0 then 1 else 0)
  {
    assert updates[..j + 1][..j] == updates[..j];
  }

  /** Two int64 additions in a row wrap as the one exact addition of both amounts. */
  lemma WrapAccumulates(a: int, x: int, t: int, total: int, s: int, r: int)
    requires s == Wrap64(a + x) && r == Wrap64(s + t) && total == x + t
    ensures r == Wrap64(a + total)
  {
    Wrap64Add(a + x, t);
  }

  /** The same when the second amount is itself wrapped first, as `-dcrutil.Amount(v)` is. */
  lemma WrapAccumulatesWrapped(a: int, x: int, t: int, total: int, s: int)
    requires s == Wrap64(a + x) && total == x + t
    ensures Wrap64(s + Wrap64(t)) == Wrap64(a + total)
  {
    Wrap64Add(t, s);
    Wrap64Add(a + x, t);
  }

  /** The loop of `pastTreasuryChanges` over one block's treasury updates. */
  method TallyUpdates(updates: seq<int>, addedIn: int, spentIn: int)
    returns (added: int, spent: int, tspendCount: nat)
    requires IsInt64(addedIn) && IsInt64(spentIn)
    ensures added == Wrap64(addedIn + AddedBy(updates)) && IsInt64(added)
    ensures spent == Wrap64(spentIn + SpentBy(updates)) && IsInt64(spent)
    ensures tspendCount == NegativeCount(updates)
  {
    added, spent, tspendCount := addedIn, spentIn, 0;
    for j := 0 to |updates|
      invariant added == Wrap64(addedIn + AddedBy(updates[..j]))
      invariant spent == Wrap64(spentIn + SpentBy(updates[..j]))
      invariant tspendCount == NegativeCount(updates[..j])
    {
      var v := updates[j];
      TallyStep(updates, j, addedIn, spentIn, added, spent);
      added := if v > 0 then Wrap64(added + v) else added;
      if v < 0 {
        spent := Wrap64(spent + Wrap64(-v));
        tspendCount := tspendCount + 1;
      }
    }
    assert updates[..|updates|] == updates;
  }

  /** One update folded into the int64 running totals. */
  lemma TallyStep(updates: seq<int>, j: nat, addedIn: int, spentIn: int, added: int, spent: int)
    requires j < |updates|
    requires added == Wrap64(addedIn + AddedBy(updates[..j]))
    requires spent == Wrap64(spentIn + SpentBy(updates[..j]))
    ensures (if updates[j] > 0 then Wrap64(added + updates[j]) else added)
         == Wrap64(addedIn + AddedBy(updates[..j + 1]))
    ensures (if updates[j] < 0 then Wrap64(spent + Wrap64(-updates[j])) else spent)
         == Wrap64(spentIn + SpentBy(updates[..j + 1]))
    ensures NegativeCount(updates[..j + 1]) == NegativeCount(updates[..j]) + (if updates[j] < 0 then 1 else 0)
  {
    var v := updates[j];
    AddedStep(updates, j);
    if v > 0 {
      WrapAccumulates(addedIn, AddedBy(updates[..j]), v, AddedBy(updates[..j + 1]), added, Wrap64(added + v));
    }
    if v < 0 {
      WrapAccumulatesWrapped(spentIn, SpentBy(updates[..j]), -v, SpentBy(updates[..j + 1]), spent);
    }
  }

  /** The loop of `pastTreasuryChanges` over one block's stake transactions. */
  method CollectTSpends(txs: seq<StakeTx>, block: Hash, height: nat) returns (found: seq<TSpendRecord>)
    ensures found == TSpendsIn(txs, block, height)
  {
    found := [];
    for j := 0 to |txs|
      invariant found == TSpendsIn(txs[..j], block, height)
    {
      assert txs[..j + 1][..j] == txs[..j];
      if txs[j].isTSpend {
        found := found + [TSpendRecord(txs[j].hash, block, height, txs[j].valueIn)];
      }
    }
    assert txs[..|txs|] == txs;
  }

  /**
   * The body of the loop of `pastTreasuryChanges`: one block visited, the
   * named results `st` updated as the function VisitBlock says.
   */
  method VisitOne(node: Node, check: CountCheck, cur: Hash, st: Scan, setFinal: bool) returns (s: Scan)
    requires IsInt64(st.added) && IsInt64(st.spent)
    ensures s == VisitBlock(node, check, cur, st, setFinal)
    ensures IsInt64(s.added) && IsInt64(s.spent)
  {
    s := st;
    if cur !in node.headers {
      s := s.(err := Some(HeaderUnavailable(cur)));
      return;
    }
    var header := node.headers[cur];
    s := s.(prevNode := header.prevBlock);

    if cur !in node.balances {
      s := s.(err := Some(BalanceUnavailable(cur)));
      return;
    }
    var tbalance := node.balances[cur];
    var added, spent, tspendCount := TallyUpdates(tbalance.updates, s.added, s.spent);
    s := s.(added := added, spent := spent, initialBalance := Wrap64(tbalance.balance));
    if setFinal {
      s := s.(finalBalance := Wrap64(tbalance.balance));
    }
    if tspendCount == 0 {
      return;
    }

    if cur !in node.blocks {
      s := s.(err := Some(BlockUnavailable(cur)));
      return;
    }
    var blockTspends := CollectTSpends(node.blocks[cur], cur, header.height);

    if Rejects(check, |blockTspends|, tspendCount) {
      s := s.(err := Some(CountMismatch(|blockTspends|, tspendCount, cur)));
      return;
    }
    s := s.(tspends := s.tspends + blockTspends);
  }

  /**
   * `pastTreasuryChanges` on the tip `start` with `nbBlocks` to visit; the
   * count test is the parameter `check`.
   */
  method PastTreasuryChanges(node: Node, check: CountCheck, start: Hash, nbBlocks: nat)
    returns (added: int, spent: int, initialBalance: int, finalBalance: int,
             tspends: seq<TSpendRecord>, prevNode: Hash, err: Option<ScanError>)
    ensures Scan(added, spent, initialBalance, finalBalance, tspends, prevNode, err)
         == ScanFrom(node, check, start, nbBlocks, InitialScan(), true)
  {
    var st := InitialScan();
    var cur := start;
    var n := nbBlocks;
    var setFinalBal := true;
    while n > 0
      invariant ScanFrom(node, check, cur, n, st, setFinalBal) == ScanFrom(node, check, start, nbBlocks, InitialScan(), true)
      invariant st.err.None? && IsInt64(st.added) && IsInt64(st.spent)
      decreases n
    {
      var next := VisitOne(node, check, cur, st, setFinalBal);
      n := n - 1;
      if next.err.Some? {
        st := next;
        break;
      }
      st, cur, setFinalBal := next, next.prevNode, false;
    }
    added, spent, initialBalance, finalBalance := st.added, st.spent, st.initialBalance, st.finalBalance;
    tspends, prevNode, err := st.tspends, st.prevNode, st.err;
  }

  // ------------------------------------------------------------ what the walk means

  /**
   * The hashes the walk visits: from `cur`, each the `PrevBlock` of the one
   * before, at most `n` of them, ending early at a block the node does not
   * know.
   */
  function Chain(node: Node, cur: Hash, n: nat): (w: seq<Hash>)
    ensures |w| <= n
    ensures forall i :: 0 <= i < |w| ==> w[i] in node.headers
    ensures |w| > 0 ==> w[0] == cur
    decreases n
  {
    if n == 0 || cur !in node.headers then []
    else [cur] + Chain(node, node.headers[cur].prevBlock, n - 1)
  }

  /**
   * Each visited block is the parent of the one before, and a walk shorter
   * than `n` ends at a block whose header the node does not have.
   */
  lemma {:induction false} ChainFollowsParents(node: Node, cur: Hash, n: nat)
    ensures var w := Chain(node, cur, n);
            (forall i :: 0 <= i < |w| - 1 ==> w[i + 1] == node.headers[w[i]].prevBlock) &&
            (|w| < n ==> (if |w| == 0 then cur else node.headers[w[|w| - 1]].prevBlock) !in node.headers)
    decreases n
  {
    if n > 0 && cur in node.headers {
      var w := Chain(node, cur, n);
      var rest := Chain(node, node.headers[cur].prevBlock, n - 1);
      ChainFollowsParents(node, node.headers[cur].prevBlock, n - 1);
      assert w == [cur] + rest;
      forall i | 0 <= i < |w| - 1 ensures w[i + 1] == node.headers[w[i]].prevBlock {
        if i > 0 { assert w[i] == rest[i - 1] && w[i + 1] == rest[i]; }
      }
    }
  }

  /**
   * A block the walk can pass: its treasury balance is known and, when it
   * has negative updates, the block is known and holds exactly that many
   * treasury spends.
   */
  predicate BlockConsistent(node: Node, h: Hash)
    requires h in node.headers
  {
    h in node.balances &&
    var count := NegativeCount(node.balances[h].updates);
    count > 0 ==> h in node.blocks && |TSpendsIn(node.blocks[h], h, node.headers[h].height)| == count
  }

  predicate Consistent(node: Node, w: seq<Hash>)
    requires forall i :: 0 <= i < |w| ==> w[i] in node.headers
  {
    forall i :: 0 <= i < |w| ==> BlockConsistent(node, w[i])
  }

  /** The treasury spends recorded for one consistent block: none when it has no negative update. */
  function FoundIn(node: Node, h: Hash): seq<TSpendRecord>
    requires h in node.headers && BlockConsistent(node, h)
  {
    if NegativeCount(node.balances[h].updates) == 0 then []
    else TSpendsIn(node.blocks[h], h, node.headers[h].height)
  }

  function TotalAdded(node: Node, w: seq<Hash>): int
    requires forall i :: 0 <= i < |w| ==> w[i] in node.balances
  {
    if w == [] then 0 else AddedBy(node.balances[w[0]].updates) + TotalAdded(node, w[1..])
  }

  function TotalSpent(node: Node, w: seq<Hash>): int
    requires forall i :: 0 <= i < |w| ==> w[i] in node.balances
  {
    if w == [] then 0 else SpentBy(node.balances[w[0]].updates) + TotalSpent(node, w[1..])
  }

  /** The spends of the walk in visiting order; each names a visited block and that block's height. */
  function TotalFound(node: Node, w: seq<Hash>): (r: seq<TSpendRecord>)
    requires forall i :: 0 <= i < |w| ==> w[i] in node.headers
    requires Consistent(node, w)
    ensures forall k :: 0 <= k < |r| ==>
              r[k].minedHash in w && r[k].minedHash in node.headers &&
              r[k].minedHeight == node.headers[r[k].minedHash].height
  {
    if w == [] then []
    else
      assert BlockConsistent(node, w[0]);
      var rest := TotalFound(node, w[1..]);
      assert forall k :: 0 <= k < |rest| ==> rest[k].minedHash in w;
      FoundIn(node, w[0]) + rest
  }

  /** With the intended count test, a block is passed exactly when it is consistent, and adds its own figures. */
  lemma VisitIntended(node: Node, cur: Hash, st: Scan, setFinal: bool)
    requires st.err.None?
    ensures var s := VisitBlock(node, Intended, cur, st, setFinal);
            (s.err.None? <==> cur in node.headers && BlockConsistent(node, cur)) &&
            (s.err.None? ==>
              var tb := node.balances[cur];
              s == st.(prevNode := node.headers[cur].prevBlock,
                       added := Wrap64(st.added + AddedBy(tb.updates)),
                       spent := Wrap64(st.spent + SpentBy(tb.updates)),
                       initialBalance := Wrap64(tb.balance),
                       finalBalance := if setFinal then Wrap64(tb.balance) else st.finalBalance,
                       tspends := st.tspends + FoundIn(node, cur)))
  {
    assert st.tspends + [] == st.tspends;
  }

  /**
   * With the intended count test, the walk succeeds exactly when the node
   * has all `n` blocks back from `cur` and each of them is consistent.
   */
  lemma {:induction false} ScanSucceedsIff(node: Node, cur: Hash, n: nat, st: Scan, setFinal: bool)
    requires st.err.None?
    ensures var w := Chain(node, cur, n);
            ScanFrom(node, Intended, cur, n, st, setFinal).err.None? <==> |w| == n && Consistent(node, w)
    decreases n
  {
    if n == 0 {
      return;
    }
    var r := ScanFrom(node, Intended, cur, n, st, setFinal);
    var w := Chain(node, cur, n);
    var s := VisitBlock(node, Intended, cur, st, setFinal);
    VisitIntended(node, cur, st, setFinal);
    if s.err.Some? {
      assert r == s;
      if cur in node.headers {
        assert w[0] == cur && !BlockConsistent(node, w[0]);
      }
      return;
    }
    assert r == ScanFrom(node, Intended, s.prevNode, n - 1, s, false);
    ScanSucceedsIff(node, s.prevNode, n - 1, s, false);
    ChainStep(node, cur, n);
  }

  /** A consistent block is passed, and each field of the totals takes that block's figures. */
  lemma VisitPasses(node: Node, cur: Hash, st: Scan, setFinal: bool)
    requires st.err.None? && cur in node.headers && BlockConsistent(node, cur)
    ensures var s := VisitBlock(node, Intended, cur, st, setFinal);
            var tb := node.balances[cur];
            s.err.None? &&
            s.prevNode == node.headers[cur].prevBlock &&
            s.added == Wrap64(st.added + AddedBy(tb.updates)) &&
            s.spent == Wrap64(st.spent + SpentBy(tb.updates)) &&
            s.initialBalance == Wrap64(tb.balance) &&
            s.finalBalance == (if setFinal then Wrap64(tb.balance) else st.finalBalance) &&
            s.tspends == st.tspends + FoundIn(node, cur)
  {
    assert st.tspends + [] == st.tspends;
  }

  /**
   * One step of a walk over `n > 0` consistent blocks: the first block is
   * passed with its own figures, and the rest of the walk continues from its
   * parent over the `n - 1` consistent blocks behind it.
   */
  lemma {:induction false} ScanStep(node: Node, cur: Hash, n: nat, st: Scan, setFinal: bool) returns (s: Scan)
    requires st.err.None? && n > 0
    requires |Chain(node, cur, n)| == n && Consistent(node, Chain(node, cur, n))
    ensures cur in node.headers && cur in node.balances
    ensures var tb := node.balances[cur];
            var w := Chain(node, cur, n);
            var rest := Chain(node, s.prevNode, n - 1);
            && s.err.None?
            && s.prevNode == node.headers[cur].prevBlock
            && ScanFrom(node, Intended, cur, n, st, setFinal) == ScanFrom(node, Intended, s.prevNode, n - 1, s, false)
            && s.added == Wrap64(st.added + AddedBy(tb.updates))
            && s.spent == Wrap64(st.spent + SpentBy(tb.updates))
            && s.initialBalance == Wrap64(tb.balance)
            && s.finalBalance == (if setFinal then Wrap64(tb.balance) else st.finalBalance)
            && s.tspends == st.tspends + FoundIn(node, cur)
            && |rest| == n - 1 && Consistent(node, rest)
            && w == [cur] + rest
            && TotalFound(node, w) == FoundIn(node, cur) + TotalFound(node, rest)
            && (n > 1 ==> w[n - 1] == rest[n - 2])
  {
    var w := Chain(node, cur, n);
    assert w[0] == cur && BlockConsistent(node, w[0]);
    VisitPasses(node, cur, st, setFinal);
    s := VisitBlock(node, Intended, cur, st, setFinal);
    ChainStep(node, cur, n);
  }

  /** The int64 running total of the walk's adds: each block's added to `a`, wrapping at every block. */
  function WrappedAdded(a: int, node: Node, w: seq<Hash>): int
    requires forall i :: 0 <= i < |w| ==> w[i] in node.balances
    decreases |w|
  {
    if w == [] then a else WrappedAdded(Wrap64(a + AddedBy(node.balances[w[0]].updates)), node, w[1..])
  }

  /** The int64 running total of the walk's spends. */
  function WrappedSpent(a: int, node: Node, w: seq<Hash>): int
    requires forall i :: 0 <= i < |w| ==> w[i] in node.balances
    decreases |w|
  {
    if w == [] then a else WrappedSpent(Wrap64(a + SpentBy(node.balances[w[0]].updates)), node, w[1..])
  }

  /** Wrapping the adds at every block is wrapping their exact total once. */
  lemma {:induction false} WrappedAddedIsWrapOfTotal(a: int, node: Node, w: seq<Hash>)
    requires IsInt64(a)
    requires forall i :: 0 <= i < |w| ==> w[i] in node.balances
    ensures WrappedAdded(a, node, w) == Wrap64(a + TotalAdded(node, w))
    decreases |w|
  {
    if w != [] {
      var x := AddedBy(node.balances[w[0]].updates);
      WrappedAddedIsWrapOfTotal(Wrap64(a + x), node, w[1..]);
      WrapAccumulates(a, x, TotalAdded(node, w[1..]), TotalAdded(node, w), Wrap64(a + x), WrappedAdded(a, node, w));
    }
  }

  /** Wrapping the spends at every block is wrapping their exact total once. */
  lemma {:induction false} WrappedSpentIsWrapOfTotal(a: int, node: Node, w: seq<Hash>)
    requires IsInt64(a)
    requires forall i :: 0 <= i < |w| ==> w[i] in node.balances
    ensures WrappedSpent(a, node, w) == Wrap64(a + TotalSpent(node, w))
    decreases |w|
  {
    if w != [] {
      var x := SpentBy(node.balances[w[0]].updates);
      WrappedSpentIsWrapOfTotal(Wrap64(a + x), node, w[1..]);
      WrapAccumulates(a, x, TotalSpent(node, w[1..]), TotalSpent(node, w), Wrap64(a + x), WrappedSpent(a, node, w));
    }
  }

  /** A walk over `n` consistent blocks keeps the int64 running totals of their adds and spends. */
  lemma {:induction false} ScanTotals(node: Node, cur: Hash, n: nat, st: Scan, setFinal: bool)
    requires st.err.None?
    requires |Chain(node, cur, n)| == n && Consistent(node, Chain(node, cur, n))
    ensures var r := ScanFrom(node, Intended, cur, n, st, setFinal);
            r.added == WrappedAdded(st.added, node, Chain(node, cur, n)) &&
            r.spent == WrappedSpent(st.spent, node, Chain(node, cur, n))
    decreases n
  {
    if n > 0 {
      var s := ScanStep(node, cur, n, st, setFinal);
      ScanTotals(node, s.prevNode, n - 1, s, false);
    }
  }

  /** A walk over `n` consistent blocks collects their treasury spends, in visiting order. */
  lemma {:induction false} ScanCollects(node: Node, cur: Hash, n: nat, st: Scan, setFinal: bool)
    requires st.err.None?
    requires |Chain(node, cur, n)| == n && Consistent(node, Chain(node, cur, n))
    ensures ScanFrom(node, Intended, cur, n, st, setFinal).tspends == st.tspends + TotalFound(node, Chain(node, cur, n))
    decreases n
  {
    if n > 0 {
      var s := ScanStep(node, cur, n, st, setFinal);
      ScanCollects(node, s.prevNode, n - 1, s, false);
      AppendAssociates(st.tspends, FoundIn(node, cur), TotalFound(node, Chain(node, s.prevNode, n - 1)), s.tspends,
                       ScanFrom(node, Intended, cur, n, st, setFinal).tspends);
    }
  }

  /** A walk over `n > 0` consistent blocks reports the last one's balance as initial and the first's as final. */
  lemma {:induction false} ScanBalances(node: Node, cur: Hash, n: nat, st: Scan, setFinal: bool)
    requires st.err.None? && n > 0
    requires |Chain(node, cur, n)| == n && Consistent(node, Chain(node, cur, n))
    ensures var r := ScanFrom(node, Intended, cur, n, st, setFinal);
            var w := Chain(node, cur, n);
            r.initialBalance == Wrap64(node.balances[w[n - 1]].balance) &&
            r.finalBalance == (if setFinal then Wrap64(node.balances[w[0]].balance) else st.finalBalance)
    decreases n
  {
    var s := ScanStep(node, cur, n, st, setFinal);
    if n > 1 {
      ScanBalances(node, s.prevNode, n - 1, s, false);
    }
  }

  lemma AppendAssociates<T>(a: seq<T>, b: seq<T>, c: seq<T>, ab: seq<T>, abc: seq<T>)
    requires ab == a + b && abc == ab + c
    ensures abc == a + (b + c)
  {
  }

  /** The walk from a consistent block is that block followed by the walk from its parent. */
  lemma ChainStep(node: Node, cur: Hash, n: nat)
    requires n > 0 && cur in node.headers && BlockConsistent(node, cur)
    ensures var w := Chain(node, cur, n);
            var rest := Chain(node, node.headers[cur].prevBlock, n - 1);
            var tb := node.balances[cur];
            w == [cur] + rest &&
            (Consistent(node, w) <==> Consistent(node, rest)) &&
            (Consistent(node, rest) ==>
              TotalAdded(node, w) == AddedBy(tb.updates) + TotalAdded(node, rest) &&
              TotalSpent(node, w) == SpentBy(tb.updates) + TotalSpent(node, rest) &&
              TotalFound(node, w) == FoundIn(node, cur) + TotalFound(node, rest)) &&
            (|rest| == n - 1 > 0 ==> w[n - 1] == rest[n - 2])
  {
    var w := Chain(node, cur, n);
    var rest := Chain(node, node.headers[cur].prevBlock, n - 1);
    assert w[1..] == rest;
    assert Consistent(node, w) <==> Consistent(node, rest) by {
      if Consistent(node, rest) {
        forall i | 0 <= i < |w| ensures BlockConsistent(node, w[i]) {
          if i > 0 { assert w[i] == rest[i - 1]; }
        }
      }
      if Consistent(node, w) {
        forall i | 0 <= i < |rest| ensures BlockConsistent(node, rest[i]) {
          assert rest[i] == w[i + 1];
        }
      }
    }
  }

  /**
   * `pastTreasuryChanges` with the intended count test, from its initial
   * state: it succeeds exactly when the node has all `nbBlocks` blocks back
   * from the tip and each is consistent; then the totals are the int64 sums
   * of their updates, the spends are theirs in visiting order, the initial
   * balance is the oldest block's and the final balance the tip's.
   */
  lemma ScanIsWalk(node: Node, start: Hash, nbBlocks: nat)
    ensures var r := ScanFrom(node, Intended, start, nbBlocks, InitialScan(), true);
            var w := Chain(node, start, nbBlocks);
            (r.err.None? <==> |w| == nbBlocks && Consistent(node, w)) &&
            (r.err.None? ==>
              r.added == Wrap64(TotalAdded(node, w)) &&
              r.spent == Wrap64(TotalSpent(node, w)) &&
              r.tspends == TotalFound(node, w) &&
              (nbBlocks > 0 ==> r.initialBalance == Wrap64(node.balances[w[nbBlocks - 1]].balance) &&
                                r.finalBalance == Wrap64(node.balances[w[0]].balance)))
  {
    var st := InitialScan();
    ScanSucceedsIff(node, start, nbBlocks, st, true);
    if ScanFrom(node, Intended, start, nbBlocks, st, true).err.None? {
      ScanSums(node, start, nbBlocks);
      ScanCollects(node, start, nbBlocks, st, true);
      if nbBlocks > 0 {
        ScanBalances(node, start, nbBlocks, st, true);
      }
    }
  }

  /** From the initial state the running totals are the int64 sums over the walk. */
  lemma ScanSums(node: Node, start: Hash, nbBlocks: nat)
    requires |Chain(node, start, nbBlocks)| == nbBlocks && Consistent(node, Chain(node, start, nbBlocks))
    ensures var r := ScanFrom(node, Intended, start, nbBlocks, InitialScan(), true);
            var w := Chain(node, start, nbBlocks);
            r.added == Wrap64(TotalAdded(node, w)) && r.spent == Wrap64(TotalSpent(node, w))
  {
    var w := Chain(node, start, nbBlocks);
    ScanTotals(node, start, nbBlocks, InitialScan(), true);
    WrappedAddedIsWrapOfTotal(0, node, w);
    WrappedSpentIsWrapOfTotal(0, node, w);
    assert 0 + TotalAdded(node, w) == TotalAdded(node, w);
    assert 0 + TotalSpent(node, w) == TotalSpent(node, w);
  }

  // ------------------------------------------------------------ the count test as written

  /**
   * As written, a block whose treasury spends all turn up (as many as its
   * negative updates) stops the walk with a "found only" error naming equal
   * counts.
   */
  lemma AsWrittenRejectsConsistentBlock(node: Node, cur: Hash, n: nat, st: Scan, setFinal: bool)
    requires n > 0 && cur in node.headers && BlockConsistent(node, cur)
    requires NegativeCount(node.balances[cur].updates) > 0
    ensures var count := NegativeCount(node.balances[cur].updates);
            ScanFrom(node, AsWritten, cur, n, st, setFinal).err == Some(CountMismatch(count, count, cur))
  {
  }

  /**
   * As written, a walk that gets past every block met a mismatch at each
   * block with negative updates: it can only succeed on inconsistent data
   * or on blocks without treasury spends.
   */
  lemma {:induction false} AsWrittenSucceedsOnlyOnMismatch(node: Node, cur: Hash, n: nat, st: Scan, setFinal: bool)
    requires st.err.None?
    ensures var w := Chain(node, cur, n);
            ScanFrom(node, AsWritten, cur, n, st, setFinal).err.None? ==>
              |w| == n &&
              forall i :: 0 <= i < |w| ==>
                w[i] in node.balances &&
                (NegativeCount(node.balances[w[i]].updates) > 0 ==> !BlockConsistent(node, w[i]))
    decreases n
  {
    if n == 0 {
      return;
    }
    var r := ScanFrom(node, AsWritten, cur, n, st, setFinal);
    var s := VisitBlock(node, AsWritten, cur, st, setFinal);
    if s.err.Some? {
      assert r == s;
      return;
    }
    var rest := Chain(node, s.prevNode, n - 1);
    var w := Chain(node, cur, n);
    assert w == [cur] + rest;
    assert cur in node.balances;
    assert NegativeCount(node.balances[cur].updates) > 0 ==> !BlockConsistent(node, cur);
    assert r == ScanFrom(node, AsWritten, s.prevNode, n - 1, s, false);
    AsWrittenSucceedsOnlyOnMismatch(node, s.prevNode, n - 1, s, false);
    if r.err.None? {
      forall i | 0 < i < |w| ensures w[i] == rest[i - 1] { }
    }
  }

  /** A one-block chain: a treasury spend of 100 atoms with its transaction in the block. */
  function ExampleNode(): Node
  {
    var tip := Zeros(31) + [1];
    Node(map[tip := Header(ZeroHash(), 10)],
         map[tip := TreasuryBalance(900, [-100])],
         map[tip := [StakeTx(true, Zeros(31) + [2], 100)]])
  }

  /** On that chain the walk as written fails while the intended walk collects the spend. */
  lemma ExampleShowsCountTest()
    ensures var tip := Zeros(31) + [1];
            ScanFrom(ExampleNode(), AsWritten, tip, 1, InitialScan(), true).err == Some(CountMismatch(1, 1, tip)) &&
            ScanFrom(ExampleNode(), Intended, tip, 1, InitialScan(), true)
              == Scan(0, 100, 900, 900, [TSpendRecord(Zeros(31) + [2], tip, 10, 100)], ZeroHash(), None)
  {
    var tip := Zeros(31) + [1];
    var txs := [StakeTx(true, Zeros(31) + [2], 100)];
    assert txs[..0] == [];
    assert TSpendsIn(txs, tip, 10) == [TSpendRecord(Zeros(31) + [2], tip, 10, 100)];
    var ups: seq<int> := [-100];
    assert ups[..0] == [];
    assert NegativeCount(ups) == 1 && AddedBy(ups) == 0 && SpentBy(ups) == 100;
  }

  // ------------------------------------------------------------ ordering the spends

  predicate SortedByHeight(s: seq<TSpendRecord>)
  {
    forall i, j :: 0 <= i < j < |s| ==> s[i].minedHeight <= s[j].minedHeight
  }

  /** `x` placed before the first spend mined no lower than it. */
  function InsertByHeight(x: TSpendRecord, s: seq<TSpendRecord>): (r: seq<TSpendRecord>)
    ensures |r| == |s| + 1
  {
    if s == [] || x.minedHeight <= s[0].minedHeight then [x] + s
    else [s[0]] + InsertByHeight(x, s[1..])
  }

  /** Inserting into sorted spends keeps them sorted; the first is `x` or the old first. */
  lemma {:induction false} InsertKeepsSorted(x: TSpendRecord, s: seq<TSpendRecord>)
    requires SortedByHeight(s)
    ensures SortedByHeight(InsertByHeight(x, s))
    ensures InsertByHeight(x, s)[0] == x || (s != [] && InsertByHeight(x, s)[0] == s[0])
  {
    if s != [] && x.minedHeight > s[0].minedHeight {
      var rest := InsertByHeight(x, s[1..]);
      InsertKeepsSorted(x, s[1..]);
      assert s[0].minedHeight <= rest[0].minedHeight;
    }
  }

  /** Inserting adds exactly `x` to the spends. */
  lemma {:induction false} InsertAddsOne(x: TSpendRecord, s: seq<TSpendRecord>)
    ensures multiset(InsertByHeight(x, s)) == multiset(s) + multiset{x}
  {
    if s != [] && x.minedHeight > s[0].minedHeight {
      InsertAddsOne(x, s[1..]);
      assert s == [s[0]] + s[1..];
    }
  }

  lemma MultisetOfSnoc(s: seq<TSpendRecord>)
    requires s != []
    ensures multiset(s) == multiset(s[..|s| - 1]) + multiset{s[|s| - 1]}
  {
    assert s == s[..|s| - 1] + [s[|s| - 1]];
  }

  /**
   * The `sort.Slice` of `estimateSpend`: the spends in ascending order of
   * mined height, the same spends as before.
   */
  function SortByHeight(s: seq<TSpendRecord>): (r: seq<TSpendRecord>)
    ensures SortedByHeight(r)
    ensures multiset(r) == multiset(s)
  {
    if s == [] then []
    else
      var sorted := SortByHeight(s[..|s| - 1]);
      InsertKeepsSorted(s[|s| - 1], sorted);
      InsertAddsOne(s[|s| - 1], sorted);
      MultisetOfSnoc(s);
      InsertByHeight(s[|s| - 1], sorted)
  }

  // ------------------------------------------------------------ spendable now

  /** The label `estimateSpend` prints for the treasury rules its arithmetic follows. */
  const ConsensusRules: string := "DCP0007"

  /** `policyWindow`: the expenditure policy window in blocks. */
  function PolicyWindow(p: ChainParams): nat
  {
    p.tvi * p.tviMultiplier * p.expenditureWindow
  }

  /**
   * `spendable`: what was added over the window plus half of it again (Go's
   * truncating `/ 2`), less what was spent, and zero when that is not
   * positive. Both the sum and the difference are int64 and wrap. While
   * neither wraps, the result is never negative, and it is positive exactly
   * when the allowance exceeds what was spent, the difference then.
   */
  function Spendable(added: int, spent: int): (r: int)
    ensures IsInt64(r)
    ensures Wrap64(added + Quo(added, 2)) <= spent ==> r == 0
    ensures IsInt64(added + Quo(added, 2)) && IsInt64(added + Quo(added, 2) - spent) ==>
      && r >= 0
      && (r > 0 <==> added + Quo(added, 2) > spent)
      && (r > 0 ==> r + spent == added + Quo(added, 2))
  {
    var allowance := Wrap64(added + Quo(added, 2));
    if allowance > spent then Wrap64(allowance - spent) else 0
  }

  /** More added or less spent never makes less spendable, while the larger allowance and difference stay within int64. */
  lemma SpendableMonotone(added1: int, spent1: int, added2: int, spent2: int)
    requires 0 <= added1 <= added2 && IsInt64(spent2) && spent2 <= spent1 <= MaxInt64
    requires added2 + Quo(added2, 2) <= MaxInt64 && added2 + Quo(added2, 2) - spent2 <= MaxInt64
    ensures Spendable(added1, spent1) <= Spendable(added2, spent2)
  {
    QuoNonNegative(added1, 2);
    QuoNonNegative(added2, 2);
    DivMonotone(added1, added2, 2);
  }

  // ------------------------------------------------------------ spends still in effect

  /** A spend mined at `mined` still counts against a window of `span` blocks ending at `end`. */
  predicate Overlaps(mined: int, end: int, span: int)
  {
    span - (end - mined) > 0
  }

  /** The amounts of the spends that still count against the window. */
  function OverlapSum(ts: seq<TSpendRecord>, end: int, span: int): int
  {
    if ts == [] then 0
    else
      var last := ts[|ts| - 1];
      OverlapSum(ts[..|ts| - 1], end, span) + (if Overlaps(last.minedHeight, end, span) then last.amount else 0)
  }

  function AmountSum(ts: seq<TSpendRecord>): int
  {
    if ts == [] then 0 else AmountSum(ts[..|ts| - 1]) + ts[|ts| - 1].amount
  }

  /** How many spends no longer count against the window. */
  function StaleCount(ts: seq<TSpendRecord>, end: int, span: int): (c: nat)
    ensures c <= |ts|
  {
    if ts == [] then 0
    else StaleCount(ts[..|ts| - 1], end, span) + (if Overlaps(ts[|ts| - 1].minedHeight, end, span) then 0 else 1)
  }

  lemma AmountSumSnoc(s: seq<TSpendRecord>, x: TSpendRecord, t: seq<TSpendRecord>)
    requires t == s + [x]
    ensures AmountSum(t) == AmountSum(s) + x.amount
  {
    assert t[..|t| - 1] == s;
  }

  /** When every spend counts, all of their amounts are subtracted. */
  lemma {:induction false} AllOverlap(ts: seq<TSpendRecord>, end: int, span: int)
    requires forall k :: 0 <= k < |ts| ==> Overlaps(ts[k].minedHeight, end, span)
    ensures OverlapSum(ts, end, span) == AmountSum(ts)
  {
    if ts != [] {
      AllOverlap(ts[..|ts| - 1], end, span);
    }
  }

  /** When the latest spend no longer counts, none of the sorted ones before it do. */
  lemma {:induction false} NoneOverlap(ts: seq<TSpendRecord>, end: int, span: int)
    requires forall k :: 0 <= k < |ts| ==> !Overlaps(ts[k].minedHeight, end, span)
    ensures OverlapSum(ts, end, span) == 0 && StaleCount(ts, end, span) == |ts|
  {
    if ts != [] {
      NoneOverlap(ts[..|ts| - 1], end, span);
    }
  }

  /**
   * For spends sorted by height, those that no longer count against a
   * window are a prefix, and all the ones after it still count.
   */
  lemma {:induction false} StaleArePrefix(ts: seq<TSpendRecord>, end: int, span: int)
    requires SortedByHeight(ts)
    ensures var c := StaleCount(ts, end, span);
            (forall k :: 0 <= k < c ==> !Overlaps(ts[k].minedHeight, end, span)) &&
            (forall k :: c <= k < |ts| ==> Overlaps(ts[k].minedHeight, end, span))
  {
    if ts != [] {
      var init := ts[..|ts| - 1];
      assert SortedByHeight(init);
      StaleArePrefix(init, end, span);
      if Overlaps(ts[|ts| - 1].minedHeight, end, span) {
        SplitExtends(ts, init, end, span, StaleCount(init, end, span));
      } else {
        StaleBeforeStale(ts, end, span);
        NoneOverlap(ts, end, span);
      }
    }
  }

  /**
   * So the amounts subtracted for sorted spends are those of every spend
   * after the stale ones.
   */
  lemma {:induction false} OverlapIsSuffix(ts: seq<TSpendRecord>, end: int, span: int)
    requires SortedByHeight(ts)
    ensures OverlapSum(ts, end, span) == AmountSum(ts[StaleCount(ts, end, span)..])
  {
    if ts != [] {
      var init := ts[..|ts| - 1];
      var last := ts[|ts| - 1];
      assert SortedByHeight(init);
      OverlapIsSuffix(init, end, span);
      var c := StaleCount(init, end, span);
      if Overlaps(last.minedHeight, end, span) {
        AmountSumSnoc(init[c..], last, ts[c..]);
      } else {
        StaleBeforeStale(ts, end, span);
        NoneOverlap(ts, end, span);
      }
    }
  }

  /** Appending a spend that counts keeps the stale spends a prefix. */
  lemma SplitExtends(ts: seq<TSpendRecord>, init: seq<TSpendRecord>, end: int, span: int, c: nat)
    requires ts != [] && init == ts[..|ts| - 1] && c <= |init|
    requires Overlaps(ts[|ts| - 1].minedHeight, end, span)
    requires forall k :: 0 <= k < c ==> !Overlaps(init[k].minedHeight, end, span)
    requires forall k :: c <= k < |init| ==> Overlaps(init[k].minedHeight, end, span)
    ensures forall k :: 0 <= k < c ==> !Overlaps(ts[k].minedHeight, end, span)
    ensures forall k :: c <= k < |ts| ==> Overlaps(ts[k].minedHeight, end, span)
  {
    forall k | 0 <= k < c ensures !Overlaps(ts[k].minedHeight, end, span) {
      assert ts[k] == init[k];
    }
    forall k | c <= k < |ts| ensures Overlaps(ts[k].minedHeight, end, span) {
      if k < |init| { assert ts[k] == init[k]; }
    }
  }

  /** When the latest of sorted spends no longer counts, none of them do. */
  lemma StaleBeforeStale(ts: seq<TSpendRecord>, end: int, span: int)
    requires SortedByHeight(ts) && ts != [] && !Overlaps(ts[|ts| - 1].minedHeight, end, span)
    ensures forall k :: 0 <= k < |ts| ==> !Overlaps(ts[k].minedHeight, end, span)
  {
    forall k | 0 <= k < |ts| ensures !Overlaps(ts[k].minedHeight, end, span) {
      assert ts[k].minedHeight <= ts[|ts| - 1].minedHeight;
    }
  }

  // ------------------------------------------------------------ each past spend leaving the window

  /** What `estimateSpend` prints for one past spend. */
  datatype LeaveReport = LeaveReport(
    spend: TSpendRecord,
    leaveHeight: int,           // tviAfterLeft
    blocksToLeave: int,
    blocksWord: string,
    timeToLeave: int,           // nanoseconds
    timeText: Option<string>,   // None where Duration.String prints it
    spendEstimate: int,
    blocksToMaturity: Option<int> // present when the maturity note is printed
  )

  /**
   * The report for the `i`-th spend (in sorted order): it leaves the policy
   * window `policyWindow` blocks after the block that mined it; the estimate
   * is the treasury bases of the window ending there, plus half, less the
   * later spends that still count against a window two TVIs longer; the
   * maturity note appears while the spend is younger than coinbase maturity.
   */
  predicate IsLeaveReport(tspends: seq<TSpendRecord>, i: nat, tipHeight: int, p: ChainParams, subsidy: int -> int, r: LeaveReport)
    requires i < |tspends|
    requires PolicyWindow(p) > 0 ==> p.subsidyReductionInterval > 0
  {
    var ts := tspends[i];
    var pw := PolicyWindow(p);
    var tb := WindowSum(r.leaveHeight, pw, p.subsidyReductionInterval, subsidy);
    && r.spend == ts
    && r.leaveHeight == ts.minedHeight + pw
    && r.blocksToLeave == r.leaveHeight - tipHeight
    && r.blocksWord == Plural(r.blocksToLeave, "block", "blocks")
    && r.timeToLeave == r.blocksToLeave * p.targetTimePerBlock
    && r.timeText == FormatDuration(r.timeToLeave)
    && r.spendEstimate == tb + Quo(tb, 2) - OverlapSum(tspends[i + 1..], r.leaveHeight, pw + 2 * p.tvi)
    && (r.blocksToMaturity.Some? <==> tipHeight - ts.minedHeight < p.coinbaseMaturity)
    && (r.blocksToMaturity.Some? ==> r.blocksToMaturity.value == p.coinbaseMaturity - (tipHeight - ts.minedHeight))
  }

  /** One pass of the loop over the sorted spends in `estimateSpend`. */
  method EstimateAfterLeaving(tspends: seq<TSpendRecord>, i: nat, tipHeight: int, p: ChainParams, subsidy: int -> int)
    returns (r: LeaveReport)
    requires i < |tspends|
    requires PolicyWindow(p) > 0 ==> p.subsidyReductionInterval > 0
    ensures IsLeaveReport(tspends, i, tipHeight, p, subsidy, r)
  {
    var ts := tspends[i];
    var tvi := p.tvi;
    var policyWindow := PolicyWindow(p);
    var blocksFromTip := tipHeight - ts.minedHeight;
    var blocksToLeave := policyWindow - blocksFromTip;
    var tviAfterLeft := tipHeight + blocksToLeave;
    var timeToLeave := blocksToLeave * p.targetTimePerBlock;

    var tbaseEstimate := SumTbases(tviAfterLeft, policyWindow, p.subsidyReductionInterval, subsidy);
    var spendEstimate := tbaseEstimate + Quo(tbaseEstimate, 2);
    var later := tspends[i + 1..];
    for k := 0 to |later|
      invariant spendEstimate == tbaseEstimate + Quo(tbaseEstimate, 2) - OverlapSum(later[..k], tviAfterLeft, policyWindow + 2 * tvi)
    {
      assert later[..k + 1][..k] == later[..k];
      var ots := later[k];
      var otsBlocksToLeave := (policyWindow + tvi * 2) - (tviAfterLeft - ots.minedHeight);
      if otsBlocksToLeave > 0 {
        spendEstimate := spendEstimate - ots.amount;
      }
    }
    assert later[..|later|] == later;

    var blocksToMaturity := p.coinbaseMaturity - blocksFromTip;
    var note := if blocksToMaturity > 0 then Some(blocksToMaturity) else None;
    r := LeaveReport(ts, tviAfterLeft, blocksToLeave, Plural(blocksToLeave, "block", "blocks"),
                     timeToLeave, FormatDuration(timeToLeave), spendEstimate, note);
  }

  /**
   * For spends sorted by height and a positive TVI, every later spend is
   * subtracted from a spend's estimate: each one still counts when the
   * earlier one leaves.
   */
  lemma LaterSpendsAllSubtracted(tspends: seq<TSpendRecord>, i: nat, p: ChainParams)
    requires SortedByHeight(tspends) && i < |tspends| && p.tvi > 0
    ensures var leave := tspends[i].minedHeight + PolicyWindow(p);
            OverlapSum(tspends[i + 1..], leave, PolicyWindow(p) + 2 * p.tvi) == AmountSum(tspends[i + 1..])
  {
    var later := tspends[i + 1..];
    var leave := tspends[i].minedHeight + PolicyWindow(p);
    forall k | 0 <= k < |later| ensures Overlaps(later[k].minedHeight, leave, PolicyWindow(p) + 2 * p.tvi) {
      assert later[k] == tspends[i + 1 + k];
    }
    AllOverlap(later, leave, PolicyWindow(p) + 2 * p.tvi);
  }

  /**
   * The window a leaving spend's estimate sums is the policy window that
   * starts right after the block that mined it: with a subsidy that only
   * changes at reduction boundaries, every block in it at its own subsidy.
   */
  lemma LeaveWindowFollowsSpend(mined: nat, p: ChainParams, subsidy: int -> int)
    requires PolicyWindow(p) > 0 && p.subsidyReductionInterval > 0
    requires ConstantPerInterval(subsidy, p.subsidyReductionInterval)
    ensures WindowSum(mined + PolicyWindow(p), PolicyWindow(p), p.subsidyReductionInterval, subsidy)
         == PerBlockSum(mined + 1, mined + PolicyWindow(p), subsidy)
  {
    ChunkedSumIsPerBlockSum(mined + 1, mined + PolicyWindow(p), p.subsidyReductionInterval, subsidy);
  }

  /** The loop of `estimateSpend` over the sorted spends: one report per spend, in order. */
  method EstimateAllLeaving(tspends: seq<TSpendRecord>, tipHeight: int, p: ChainParams, subsidy: int -> int)
    returns (leaving: seq<LeaveReport>)
    requires PolicyWindow(p) > 0 ==> p.subsidyReductionInterval > 0
    ensures |leaving| == |tspends|
    ensures forall k :: 0 <= k < |tspends| ==> IsLeaveReport(tspends, k, tipHeight, p, subsidy, leaving[k])
  {
    leaving := [];
    for i := 0 to |tspends|
      invariant |leaving| == i
      invariant forall k :: 0 <= k < i ==> IsLeaveReport(tspends, k, tipHeight, p, subsidy, leaving[k])
    {
      var report := EstimateAfterLeaving(tspends, i, tipHeight, p, subsidy);
      leaving := leaving + [report];
    }
  }

  // ------------------------------------------------------------ a spend created now

  /** What `estimateSpend` prints for a treasury spend created on top of the tip. */
  datatype NewSpendReport = NewSpendReport(
    blocksToTVI: int,
    tooClose: bool,
    expiry: int,
    endVoting: int,
    timeToExpiry: int,          // nanoseconds
    timeText: Option<string>,
    spendEstimate: int
  )

  /**
   * The projection for a new spend: its expiry placed from the tip height
   * itself (not the next block), the end of its vote, and the treasury
   * bases of the policy window ending there plus half, less every known
   * spend that still counts against that window.
   */
  predicate IsNewSpendReport(tspends: seq<TSpendRecord>, tipHeight: int, p: ChainParams, subsidy: int -> int,
                             rules: ExpiryRules, r: NewSpendReport)
    requires p.tvi > 0
    requires PolicyWindow(p) > 0 ==> p.subsidyReductionInterval > 0
  {
    var pw := PolicyWindow(p);
    var tb := WindowSum(r.endVoting, pw, p.subsidyReductionInterval, subsidy);
    && r.blocksToTVI == BlocksToTVI(tipHeight, p.tvi)
    && r.tooClose == TooClose(tipHeight, p.tvi)
    && r.expiry == rules.calcExpiry(PlacementHeight(tipHeight, p.tvi), p.tvi, p.tviMultiplier)
    && r.endVoting == rules.calcWindow(r.expiry, p.tvi, p.tviMultiplier).1
    && r.timeToExpiry == (r.expiry - tipHeight) * p.targetTimePerBlock
    && r.timeText == FormatDuration(r.timeToExpiry)
    && r.spendEstimate == tb + Quo(tb, 2) - OverlapSum(tspends, r.endVoting, pw)
  }

  /** The tail of `estimateSpend`: the estimate for a spend created now. */
  method EstimateNewSpend(tspends: seq<TSpendRecord>, tipHeight: int, p: ChainParams, subsidy: int -> int, rules: ExpiryRules)
    returns (r: NewSpendReport)
    requires p.tvi > 0
    requires PolicyWindow(p) > 0 ==> p.subsidyReductionInterval > 0
    ensures IsNewSpendReport(tspends, tipHeight, p, subsidy, rules, r)
  {
    var tvi := p.tvi;
    var mul := p.tviMultiplier;
    var policyWindow := PolicyWindow(p);
    var blocksToTVI := tvi - Rem(tipHeight, tvi);
    var tooCloseThresh := tvi / 4;
    var isTooClose := blocksToTVI < tooCloseThresh;
    var expiry := rules.calcExpiry(tipHeight, tvi, mul);
    if isTooClose {
      expiry := rules.calcExpiry(tipHeight + blocksToTVI, tvi, mul);
    }
    var (_, endVoting) := rules.calcWindow(expiry, tvi, mul);
    var tbaseEstimate := SumTbases(endVoting, policyWindow, p.subsidyReductionInterval, subsidy);
    var spendEstimate := tbaseEstimate + Quo(tbaseEstimate, 2);
    for k := 0 to |tspends|
      invariant spendEstimate == tbaseEstimate + Quo(tbaseEstimate, 2) - OverlapSum(tspends[..k], endVoting, policyWindow)
    {
      assert tspends[..k + 1][..k] == tspends[..k];
      var blocksToLeave := policyWindow - (endVoting - tspends[k].minedHeight);
      if blocksToLeave > 0 {
        spendEstimate := spendEstimate - tspends[k].amount;
      }
    }
    assert tspends[..|tspends|] == tspends;
    var timeToExpiry := (expiry - tipHeight) * p.targetTimePerBlock;
    r := NewSpendReport(blocksToTVI, isTooClose, expiry, endVoting, timeToExpiry, FormatDuration(timeToExpiry), spendEstimate);
  }

  /**
   * The new spend's expiry is the one the tspend tool would give on a chain
   * whose tip is one block lower: the tool places the spend from the block
   * after its current height, this estimate from the tip height itself.
   */
  lemma NewSpendExpiryOneBlockBehind(tipHeight: int, p: ChainParams, rules: ExpiryRules)
    requires p.tvi > 0
    ensures var expiry := TSpend.ExpiryFor(0, tipHeight - 1, Some(tipHeight - 1), p, rules);
            expiry.Ok? &&
            expiry.value == rules.calcExpiry(PlacementHeight(tipHeight, p.tvi), p.tvi, p.tviMultiplier)
  {
  }

  // ------------------------------------------------------------ estimateSpend

  /** Everything `estimateSpend` prints once the walk succeeds. */
  datatype Estimate = Estimate(
    consensusRules: string,
    policyWindow: nat,
    finalBalance: int,
    spendable: int,
    tspends: seq<TSpendRecord>,
    leaving: seq<LeaveReport>,
    newSpend: NewSpendReport
  )

  /**
   * `estimateSpend` from a tip the caller has resolved (the best block or
   * the configured height): the walk over the policy window, then the
   * spendable balance, one report per past spend in height order and the
   * projection for a new spend. A failed walk is the whole result.
   */
  method EstimateSpend(node: Node, check: CountCheck, tipHash: Hash, tipHeight: int, p: ChainParams,
                       subsidy: int -> int, rules: ExpiryRules)
    returns (r: Result<Estimate, ScanError>)
    requires p.tvi > 0
    requires PolicyWindow(p) > 0 ==> p.subsidyReductionInterval > 0
    ensures var scan := ScanFrom(node, check, tipHash, PolicyWindow(p), InitialScan(), true);
            (r.Err? <==> scan.err.Some?) &&
            (r.Err? ==> r.error == scan.err.value) &&
            (r.Ok? ==>
              var e := r.value;
              && e.consensusRules == ConsensusRules
              && e.policyWindow == PolicyWindow(p)
              && e.finalBalance == scan.finalBalance
              && e.spendable == Spendable(scan.added, scan.spent)
              && SortedByHeight(e.tspends) && multiset(e.tspends) == multiset(scan.tspends)
              && |e.leaving| == |e.tspends|
              && (forall k :: 0 <= k < |e.tspends| ==> IsLeaveReport(e.tspends, k, tipHeight, p, subsidy, e.leaving[k]))
              && IsNewSpendReport(e.tspends, tipHeight, p, subsidy, rules, e.newSpend))
  {
    var policyWindow := PolicyWindow(p);
    var added, spent, _, finalBalance, tspends, _, err := PastTreasuryChanges(node, check, tipHash, policyWindow);
    if err.Some? {
      return Err(err.value);
    }
    tspends := SortByHeight(tspends);

    var spendable := Spendable(added, spent);

    var leaving := EstimateAllLeaving(tspends, tipHeight, p, subsidy);

    var newSpend := EstimateNewSpend(tspends, tipHeight, p, subsidy, rules);
    r := Ok(Estimate(ConsensusRules, policyWindow, finalBalance, spendable, tspends, leaving, newSpend));
  }
}
