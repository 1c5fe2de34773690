/**
 * The integer part of the treasury vote progress report
 * (voteprogress/progress.go): quorum, the yes votes still required for the
 * shortcut approval, the approved / disapproved / undecided classification,
 * and the two integer projections (every later vote a yes; no more votes),
 * each ending at the next TVI boundary where the spend can be mined.
 *
 * Every quantity is a Go uint64, so subtraction and multiplication wrap
 * modulo 2^64; Add, Sub and Mul below write that out. Lemmas state what the
 * figures mean once the inputs are small enough for nothing to wrap.
 */
module VoteProgress {
  import opened Wrappers
  import opened GoInt
  import opened Networks

  type u64 = x: int | 0 <= x < TwoTo64

  function Add(a: u64, b: u64): u64 { WrapU64(a + b) }
  function Sub(a: u64, b: u64): u64 { WrapU64(a - b) }
  function Mul(a: u64, b: u64): u64 { WrapU64(a * b) }

  /** uint64 `a / b`: never larger than the dividend. */
  function Div(a: u64, b: u64): (r: u64)
    requires b > 0
    ensures r <= a
    ensures r * b <= a < (r + 1) * b
  {
    DivBounds(a, b);
    a / b
  }

  lemma DivBounds(a: nat, b: int)
    requires b > 0
    ensures a / b <= a
    ensures (a / b) * b <= a < (a / b + 1) * b
  {
    var q := a / b;
    assert q * b + a % b == a;
    if q > a {
      MulAtLeast(b, q);
    }
  }

  /** `divCeil`: the least number of `b`-sized steps that reach `a`. */
  function DivCeil(a: u64, b: u64): (r: u64)
    requires b > 0
    ensures r * b >= a
    ensures r > 0 ==> (r - 1) * b < a
  {
    var q := a / b;
    if a % b > 0 then q + 1 else q
  }

  /** The chain parameters the report divides by are non-zero and fit in a uint64. */
  predicate ValidRules(params: ChainParams)
  {
    && 0 < params.votesPerBlock < TwoTo64
    && 0 < params.requiredMul < TwoTo64 && 0 < params.requiredDiv < TwoTo64
    && params.quorumMul < TwoTo64 && 0 < params.quorumDiv < TwoTo64
    && 0 < params.tvi < TwoTo64
  }

  /** `chainjson.TreasurySpendVotes`: int64 fields, converted to uint64 by the report. */
  datatype TSpendVotes = TSpendVotes(voteStart: int, voteEnd: int, yesVotes: int, noVotes: int)

  datatype Tally = Tally(
    numVotesCast: u64,
    maxVotes: u64,
    quorum: u64,
    hasQuorum: bool,
    remainingBlocks: u64,
    maxRemainingVotes: u64,
    requiredYesVotes: u64,
    missingYesVotes: u64
  )

  /** The counts at `cur`: quorum over the whole interval, and the shortcut threshold over the votes that can still come. */
  function TallyAt(params: ChainParams, cur: u64, yes: u64, no: u64, start: u64, end: u64): Tally
    requires ValidRules(params)
  {
    var vpb := params.votesPerBlock;
    var cast := Add(yes, no);
    var maxVotes := Mul(vpb, Sub(end, start));
    var quorum := Div(Mul(maxVotes, params.quorumMul), params.quorumDiv);
    var remaining := Sub(end, cur);
    var maxRemaining := Mul(remaining, vpb);
    var required := Div(Mul(Add(cast, maxRemaining), params.requiredMul), params.requiredDiv);
    var missing := if required > yes then required - yes else 0;
    Tally(cast, maxVotes, quorum, cast >= quorum, remaining, maxRemaining, required, missing)
  }

  /**
   * `approvalBlock + (tvi - approvalBlock % tvi)`: the next multiple of the
   * TVI strictly above the approval block (when the sum does not wrap).
   */
  function InclusionBlock(approval: u64, tvi: u64): (r: u64)
    requires tvi > 0
    ensures approval + tvi < TwoTo64 ==> r % tvi == 0 && approval < r <= approval + tvi
  {
    var q := approval / tvi;
    assert approval + (tvi - approval % tvi) == tvi * (q + 1);
    MultipleMod(q + 1, tvi);
    Add(approval, tvi - approval % tvi)
  }

  datatype Projection = Projection(blocksToReqVotes: u64, approvalBlock: u64, inclusionBlock: u64, blocksToInclusion: u64)

  /** The figures printed for an approval `blocks` blocks after `cur`. */
  function ProjectFrom(cur: u64, blocks: u64, tvi: u64): Projection
    requires tvi > 0
  {
    var approval := Add(cur, blocks);
    var inclusion := InclusionBlock(approval, tvi);
    Projection(blocks, approval, inclusion, Sub(inclusion, cur))
  }

  datatype Shortcut = Shortcut(thresholdRemainingVotes: u64, thresholdBlock: u64, projection: Projection)

  datatype Scenario3 = Scenario3(thresholdYesVotes: u64, shortcut: Option<Shortcut>)

  /**
   * Scenario 3: with the votes frozen, the number of further votes the yes
   * share can absorb, and the block after which fewer than that remain;
   * impossible unless the threshold exceeds the votes already cast.
   */
  function Scenario3For(params: ChainParams, cur: u64, yes: u64, no: u64, end: u64): Scenario3
    requires ValidRules(params)
  {
    var threshold := Div(Mul(yes, params.requiredDiv), params.requiredMul);
    if threshold > Add(yes, no) then
      var thresholdRemaining := Sub(Sub(threshold, yes), no);
      var thresholdBlock := Sub(end, Div(thresholdRemaining, params.votesPerBlock));
      Scenario3(threshold, Some(Shortcut(thresholdRemaining, thresholdBlock,
                                         ProjectFrom(cur, Sub(thresholdBlock, cur), params.tvi))))
    else Scenario3(threshold, None)
  }

  datatype Progress =
    | NotStarted(blocksToStart: u64)
    | Approved(tally: Tally, projection: Projection)
    | Disapproved(tally: Tally)
    | Undecided(tally: Tally, scenario1: Projection, scenario3: Scenario3)

  /**
   * `progressForTspend` without its floating-point figures (yes share,
   * progress, participation, days, and Scenario 2).
   */
  method ProgressForTspend(params: ChainParams, curBlockHeight: u64, tspend: TSpendVotes) returns (p: Progress)
    requires ValidRules(params)
    ensures var start, end := WrapU64(tspend.voteStart), WrapU64(tspend.voteEnd);
      var yes, no := WrapU64(tspend.yesVotes), WrapU64(tspend.noVotes);
      && (p.NotStarted? <==> curBlockHeight <= start)
      && (p.NotStarted? ==> p.blocksToStart == start - curBlockHeight)
      && (!p.NotStarted? ==> p.tally == TallyAt(params, curBlockHeight, yes, no, start, end))
      && (p.Approved? <==> !p.NotStarted? && p.tally.missingYesVotes == 0)
      && (p.Approved? ==> p.projection == ProjectFrom(curBlockHeight, 0, params.tvi))
      && (p.Disapproved? <==> !p.NotStarted? && p.tally.missingYesVotes > p.tally.maxRemainingVotes)
      && (p.Undecided? ==>
            p.scenario1 == ProjectFrom(curBlockHeight, DivCeil(p.tally.missingYesVotes, params.votesPerBlock), params.tvi)
            && p.scenario3 == Scenario3For(params, curBlockHeight, yes, no, end))
  {
    var yesVotes := WrapU64(tspend.yesVotes);
    var noVotes := WrapU64(tspend.noVotes);
    var voteStartBlock := WrapU64(tspend.voteStart);
    var voteEndBlock := WrapU64(tspend.voteEnd);

    if curBlockHeight <= voteStartBlock {
      return NotStarted(voteStartBlock - curBlockHeight);
    }

    var tally := CountVotes(params, curBlockHeight, yesVotes, noVotes, voteStartBlock, voteEndBlock);
    var votesPerBlock, tvi := params.votesPerBlock, params.tvi;
    var missingYesVotes, maxRemainingVotes := tally.missingYesVotes, tally.maxRemainingVotes;

    if missingYesVotes == 0 {
      // The approval block is the current block.
      var projection := Project(curBlockHeight, 0, tvi);
      return Approved(tally, projection);
    }

    if missingYesVotes > maxRemainingVotes {
      return Disapproved(tally);
    }

    // Scenario 1: every vote from now on is a yes.
    var blocksToReqVotes := DivCeil(missingYesVotes, votesPerBlock);
    var scenario1 := Project(curBlockHeight, blocksToReqVotes, tvi);

    var scenario3 := NoMoreVotes(params, curBlockHeight, yesVotes, noVotes, voteEndBlock);
    return Undecided(tally, scenario1, scenario3);
  }

  /** The counts `progressForTspend` computes once the vote has started. */
  method CountVotes(params: ChainParams, curBlockHeight: u64, yesVotes: u64, noVotes: u64,
                    voteStartBlock: u64, voteEndBlock: u64) returns (tally: Tally)
    requires ValidRules(params)
    ensures tally == TallyAt(params, curBlockHeight, yesVotes, noVotes, voteStartBlock, voteEndBlock)
  {
    var votesPerBlock := params.votesPerBlock;
    var tvrMul, tvrDiv := params.requiredMul, params.requiredDiv;
    var tvqMul, tvqDiv := params.quorumMul, params.quorumDiv;
    var numVotesCast := Add(yesVotes, noVotes);

    var maxVotes := Mul(votesPerBlock, Sub(voteEndBlock, voteStartBlock));
    var quorum := Div(Mul(maxVotes, tvqMul), tvqDiv);
    var hasQuorum := numVotesCast >= quorum;

    var remainingBlocks := Sub(voteEndBlock, curBlockHeight);
    var maxRemainingVotes := Mul(remainingBlocks, votesPerBlock);

    var requiredYesVotes := Div(Mul(Add(numVotesCast, maxRemainingVotes), tvrMul), tvrDiv);
    var missingYesVotes := 0;
    if requiredYesVotes > yesVotes {
      missingYesVotes := requiredYesVotes - yesVotes;
    }
    tally := Tally(numVotesCast, maxVotes, quorum, hasQuorum, remainingBlocks, maxRemainingVotes,
                   requiredYesVotes, missingYesVotes);
  }

  /** Scenario 3 of `progressForTspend`: no more votes come in. */
  method NoMoreVotes(params: ChainParams, curBlockHeight: u64, yesVotes: u64, noVotes: u64, voteEndBlock: u64)
    returns (scenario3: Scenario3)
    requires ValidRules(params)
    ensures scenario3 == Scenario3For(params, curBlockHeight, yesVotes, noVotes, voteEndBlock)
  {
    var votesPerBlock, tvi := params.votesPerBlock, params.tvi;
    var numVotesCast := Add(yesVotes, noVotes);
    var thresholdYesVotes := Div(Mul(yesVotes, params.requiredDiv), params.requiredMul);
    scenario3 := Scenario3(thresholdYesVotes, None);
    if thresholdYesVotes > numVotesCast {
      var thresholdRemainingVotes := Sub(Sub(thresholdYesVotes, yesVotes), noVotes);
      var thresholdBlock := Sub(voteEndBlock, Div(thresholdRemainingVotes, votesPerBlock));
      var blocksToReqVotes := Sub(thresholdBlock, curBlockHeight);
      var projection := Project(curBlockHeight, blocksToReqVotes, tvi);
      scenario3 := Scenario3(thresholdYesVotes, Some(Shortcut(thresholdRemainingVotes, thresholdBlock, projection)));
    }
  }

  /** The approval block `blocksToReqVotes` after the current one, and the inclusion opportunity after it. */
  method Project(curBlockHeight: u64, blocksToReqVotes: u64, tvi: u64) returns (p: Projection)
    requires tvi > 0
    ensures p == ProjectFrom(curBlockHeight, blocksToReqVotes, tvi)
  {
    var approvalBlock := Add(curBlockHeight, blocksToReqVotes);
    var inclusionBlock := Add(approvalBlock, tvi - approvalBlock % tvi);
    var blocksToInclusion := Sub(inclusionBlock, curBlockHeight);
    p := Projection(blocksToReqVotes, approvalBlock, inclusionBlock, blocksToInclusion);
  }

  // ------------------------------------------------------------ arithmetic helpers

  /** A uint64 product of factors bounded by `x` and `y` does not wrap when `x * y` fits. */
  lemma MulFits(a: u64, b: u64, x: int, y: int)
    requires a <= x && b <= y && x * y < TwoTo64
    ensures Mul(a, b) == a * b <= x * y
  {
    MulBounded(a, b, x, y);
    var p := a * b;
    assert 0 <= p < TwoTo64;
    assert WrapU64(p) == p;
  }

  /** A floored quotient is at most `y` when the dividend is at most `y * d`. */
  lemma DivAtMost(n: int, d: int, y: int)
    requires 0 <= n <= y * d && d > 0 && y >= 0
    ensures n / d <= y
  {
    DivMonotone(n, y * d, d);
    MultipleMod(y, d);
  }

  // ------------------------------------------------------------ properties

  /** Parameters of the size of the real chains: small factors, heights below 2^32. */
  predicate SmallRules(params: ChainParams)
  {
    && 0 < params.votesPerBlock < 256
    && 0 < params.requiredMul < 256 && 0 < params.requiredDiv < 256
    && params.quorumMul < 256 && 0 < params.quorumDiv < 256
    && 0 < params.tvi < TwoTo32
  }

  const VoteBound: int := 0x1_0000_0000_0000

  /**
   * With small parameters, vote counts below 2^48 and `start <= cur <= end`
   * below 2^32, nothing wraps: the quorum is the floored fraction of every
   * possible vote, and the required yes votes the floored fraction of the
   * votes cast plus every vote still possible.
   */
  lemma TallyExact(params: ChainParams, cur: u64, yes: u64, no: u64, start: u64, end: u64)
    requires SmallRules(params)
    requires yes < VoteBound && no < VoteBound && start <= cur <= end < TwoTo32
    ensures var t := TallyAt(params, cur, yes, no, start, end);
      && t.numVotesCast == yes + no
      && t.maxVotes == params.votesPerBlock * (end - start)
      && t.quorum == params.votesPerBlock * (end - start) * params.quorumMul / params.quorumDiv
      && (t.hasQuorum <==> yes + no >= t.quorum)
      && t.remainingBlocks == end - cur
      && t.maxRemainingVotes == (end - cur) * params.votesPerBlock
      && t.requiredYesVotes == (yes + no + (end - cur) * params.votesPerBlock) * params.requiredMul / params.requiredDiv
      && (t.missingYesVotes == 0 <==> yes >= t.requiredYesVotes)
      && (t.missingYesVotes > 0 ==> yes + t.missingYesVotes == t.requiredYesVotes)
  {
    var vpb := params.votesPerBlock;
    var t := TallyAt(params, cur, yes, no, start, end);
    MulFits(vpb, end - start, 256, TwoTo32);
    var mv := vpb * (end - start);
    MulFits(mv, params.quorumMul, 256 * TwoTo32, 256);
    MulFits(end - cur, vpb, TwoTo32, 256);
    var sum := yes + no + (end - cur) * vpb;
    MulFits(sum, params.requiredMul, 4 * VoteBound, 256);
  }

  /** The tally `blocks` blocks after `cur` when every vote cast in them is a yes (Scenario 1's premise). */
  function AllYesAfter(params: ChainParams, cur: u64, yes: u64, no: u64, start: u64, end: u64, blocks: u64): Tally
    requires ValidRules(params)
  {
    TallyAt(params, Add(cur, blocks), Add(yes, Mul(blocks, params.votesPerBlock)), no, start, end)
  }

  /**
   * Yes votes added block by block leave the required yes votes unchanged:
   * each block adds to the votes cast exactly what it takes from the votes
   * still possible.
   */
  lemma AllYesKeepsRequired(params: ChainParams, cur: u64, yes: u64, no: u64, start: u64, end: u64, k: u64)
    requires SmallRules(params)
    requires yes < VoteBound / 2 && no < VoteBound / 2 && start <= cur <= end < TwoTo32 && k <= end - cur
    ensures var t := TallyAt(params, cur, yes, no, start, end);
      var tk := AllYesAfter(params, cur, yes, no, start, end, k);
      && tk.requiredYesVotes == t.requiredYesVotes
      && (tk.missingYesVotes == 0 <==> yes + k * params.votesPerBlock >= t.requiredYesVotes)
  {
    var vpb := params.votesPerBlock;
    MulFits(k, vpb, TwoTo32, 256);
    var y := yes + k * vpb;
    assert Add(yes, Mul(k, vpb)) == y;
    assert Add(cur, k) == cur + k;
    var x := yes + no + (end - cur) * vpb;
    RequiredExact(params, cur, yes, no, start, end, end - cur, x);
    MulSubDistrib(end - cur, k, vpb);
    assert y + no + (end - (cur + k)) * vpb == x;
    RequiredExact(params, cur + k, y, no, start, end, end - (cur + k), x);
  }

  lemma MulSubDistrib(a: int, k: int, v: int)
    ensures (a - k) * v == a * v - k * v
  {
  }

  lemma MulCancelLess(a: int, c: int, v: int)
    requires v > 0 && a * v < c * v
    ensures a < c
  {
    MulSubDistrib(c, a, v);
  }

  /**
   * Scenario 1 is exact: when the spend is undecided, the scenario's
   * approval block is no later than the end of voting; if every vote from
   * now on is a yes, the tally at that block shows no missing yes vote, and
   * at every earlier block it still does.
   */
  lemma Scenario1ReachesApproval(params: ChainParams, cur: u64, yes: u64, no: u64, start: u64, end: u64)
    requires SmallRules(params)
    requires yes < VoteBound / 2 && no < VoteBound / 2 && start <= cur <= end < TwoTo32
    requires var t := TallyAt(params, cur, yes, no, start, end);
      0 < t.missingYesVotes <= t.maxRemainingVotes
    ensures var t := TallyAt(params, cur, yes, no, start, end);
      var b := DivCeil(t.missingYesVotes, params.votesPerBlock);
      && ProjectFrom(cur, b, params.tvi).approvalBlock == cur + b <= end
      && AllYesAfter(params, cur, yes, no, start, end, b).missingYesVotes == 0
      && forall k: u64 :: k < b ==> AllYesAfter(params, cur, yes, no, start, end, k).missingYesVotes > 0
  {
    var vpb := params.votesPerBlock;
    var t := TallyAt(params, cur, yes, no, start, end);
    TallyExact(params, cur, yes, no, start, end);
    var m := t.missingYesVotes;
    var b := DivCeil(m, vpb);
    assert b > 0;
    assert (b - 1) * vpb < (end - cur) * vpb;
    MulCancelLess(b - 1, end - cur, vpb);
    assert Add(cur, b) == cur + b;
    AllYesKeepsRequired(params, cur, yes, no, start, end, b);
    forall k: u64 | k < b
      ensures AllYesAfter(params, cur, yes, no, start, end, k).missingYesVotes > 0
    {
      AllYesKeepsRequired(params, cur, yes, no, start, end, k);
      MulBounded(k, vpb, b - 1, vpb);
    }
  }

  /** Scenario 3's approval block is its threshold block: the uint64 round trip through `blocksToReqVotes` cancels. */
  lemma Scenario3ApprovalIsThresholdBlock(params: ChainParams, cur: u64, yes: u64, no: u64, end: u64)
    requires ValidRules(params)
    requires Scenario3For(params, cur, yes, no, end).shortcut.Some?
    ensures var s := Scenario3For(params, cur, yes, no, end).shortcut.value;
      s.projection.approvalBlock == s.thresholdBlock
  {
    var s := Scenario3For(params, cur, yes, no, end).shortcut.value;
    AddSubCancel(cur, s.thresholdBlock);
  }

  /**
   * While the spend is undecided, Scenario 1 is never later than Scenario 3
   * when the required share is at most one: Scenario 3's threshold block
   * lies between the current block and the end of voting, and the yes votes
   * Scenario 1 still needs fit in the blocks before it.
   */
  lemma Scenario1NoLaterThanScenario3(params: ChainParams, cur: u64, yes: u64, no: u64, start: u64, end: u64)
    requires SmallRules(params) && params.requiredMul <= params.requiredDiv
    requires yes < VoteBound / 256 && no < VoteBound / 2 && start <= cur <= end < TwoTo32
    requires var t := TallyAt(params, cur, yes, no, start, end);
      0 < t.missingYesVotes <= t.maxRemainingVotes
    requires Scenario3For(params, cur, yes, no, end).shortcut.Some?
    ensures var t := TallyAt(params, cur, yes, no, start, end);
      var s := Scenario3For(params, cur, yes, no, end).shortcut.value;
      && cur <= s.thresholdBlock <= end
      && ProjectFrom(cur, DivCeil(t.missingYesVotes, params.votesPerBlock), params.tvi).approvalBlock
         <= s.projection.approvalBlock
  {
    var vpb, rMul, rDiv := params.votesPerBlock, params.requiredMul, params.requiredDiv;
    var t := TallyAt(params, cur, yes, no, start, end);
    var r := end - cur;
    var x := yes + no + r * vpb;
    RequiredExact(params, cur, yes, no, start, end, r, x);
    Scenario3Exact(params, cur, yes, no, end);
    var sc := Scenario3For(params, cur, yes, no, end);
    var threshold := sc.thresholdYesVotes;
    var thresholdRemaining := threshold - yes - no;
    var j := thresholdRemaining / vpb;
    DivBounds(thresholdRemaining, vpb);
    assert yes + no + j * vpb <= threshold;
    if j > r {
      // Then the votes cast and still possible are below the threshold, so nothing is missing.
      MulBounded(r, vpb, j, vpb);
      MulBounded(x, rMul, threshold, rMul);
      DivAtMost(x * rMul, rDiv, yes);
      assert false;
    }
    assert Sub(end, j) == end - j;
    RequiredWithinSlack(yes, no, r, vpb, j, threshold, rMul, rDiv);
    var m := t.missingYesVotes;
    var b := DivCeil(m, vpb);
    assert (b - 1) * vpb < (r - j) * vpb;
    MulCancelLess(b - 1, r - j, vpb);
    assert Add(cur, b) == cur + b;
    Scenario3ApprovalIsThresholdBlock(params, cur, yes, no, end);
  }

  /** The required and missing yes votes of `TallyExact`, for `r` blocks left and `x` votes cast or still possible. */
  lemma RequiredExact(params: ChainParams, cur: u64, yes: u64, no: u64, start: u64, end: u64, r: int, x: int)
    requires SmallRules(params)
    requires yes < VoteBound && no < VoteBound && start <= cur <= end < TwoTo32
    requires r == end - cur && x == yes + no + r * params.votesPerBlock
    ensures var t := TallyAt(params, cur, yes, no, start, end);
      && t.requiredYesVotes == x * params.requiredMul / params.requiredDiv
      && t.missingYesVotes == (if t.requiredYesVotes > yes then t.requiredYesVotes - yes else 0)
  {
    TallyExact(params, cur, yes, no, start, end);
  }

  /**
   * With the votes cast plus `j` blocks of votes within the threshold, and a
   * required share of at most one, the required yes votes over `r` blocks
   * exceed the yes votes by at most the votes of the other `r - j` blocks.
   */
  lemma RequiredWithinSlack(yes: nat, no: nat, r: nat, vpb: nat, j: nat, threshold: nat, rMul: nat, rDiv: nat)
    requires 0 < rMul <= rDiv && j <= r
    requires threshold * rMul <= yes * rDiv && yes + no + j * vpb <= threshold
    ensures (yes + no + r * vpb) * rMul / rDiv <= yes + (r - j) * vpb
  {
    var x := yes + no + r * vpb;
    var slack := (r - j) * vpb;
    MulSubDistrib(r, j, vpb);
    assert x <= threshold + slack;
    MulBounded(x, rMul, threshold + slack, rMul);
    MulBounded(slack, rMul, slack, rDiv);
    assert x * rMul <= (yes + slack) * rDiv;
    DivAtMost(x * rMul, rDiv, yes + slack);
  }

  /**
   * Scenario 3's figures without wrap-around: the threshold is the floored
   * share of the yes votes, the shortcut exists exactly when it exceeds the
   * votes cast, and then the remaining votes and the threshold block are
   * the plain differences.
   */
  lemma Scenario3Exact(params: ChainParams, cur: u64, yes: u64, no: u64, end: u64)
    requires SmallRules(params)
    requires yes < VoteBound / 256 && no < VoteBound
    ensures var sc := Scenario3For(params, cur, yes, no, end);
      && sc.thresholdYesVotes == yes * params.requiredDiv / params.requiredMul
      && sc.thresholdYesVotes * params.requiredMul <= yes * params.requiredDiv
      && (sc.shortcut.Some? <==> sc.thresholdYesVotes > yes + no)
      && (sc.shortcut.Some? ==>
            && sc.shortcut.value.thresholdRemainingVotes == sc.thresholdYesVotes - yes - no
            && sc.shortcut.value.thresholdBlock
               == Sub(end, (sc.thresholdYesVotes - yes - no) / params.votesPerBlock))
  {
    MulFits(yes, params.requiredDiv, VoteBound / 256, 256);
  }

  /** `a + (b - a)` in uint64 arithmetic is `b`, whichever of the two is larger. */
  lemma AddSubCancel(a: u64, b: u64)
    ensures Add(a, Sub(b, a)) == b
  {
    if b < a {
      assert Sub(b, a) == b - a + TwoTo64;
      ModShift(b, 1);
    }
  }

  /**
   * Scenario 3 is sound: at its threshold block, with no vote added, the
   * tally already shows no missing yes vote (when nothing wraps and the
   * threshold block is within the voting interval).
   */
  lemma Scenario3ApprovesAtThreshold(params: ChainParams, cur: u64, yes: u64, no: u64, start: u64, end: u64)
    requires SmallRules(params)
    requires yes < VoteBound / 256 && no < VoteBound && start <= end < TwoTo32
    requires Scenario3For(params, cur, yes, no, end).shortcut.Some?
    requires var s := Scenario3For(params, cur, yes, no, end).shortcut.value;
      s.thresholdRemainingVotes / params.votesPerBlock <= end - start
    ensures var s := Scenario3For(params, cur, yes, no, end).shortcut.value;
      TallyAt(params, s.thresholdBlock, yes, no, start, end).missingYesVotes == 0
  {
    var vpb, rMul, rDiv := params.votesPerBlock, params.requiredMul, params.requiredDiv;
    Scenario3Exact(params, cur, yes, no, end);
    var sc := Scenario3For(params, cur, yes, no, end);
    var threshold := sc.thresholdYesVotes;
    var thresholdRemaining := threshold - yes - no;
    var q := thresholdRemaining / vpb;
    DivBounds(thresholdRemaining, vpb);
    var tb := end - q;
    assert Sub(end, q) == tb;
    // The votes still possible after tb are at most the threshold's slack.
    MulBounded(q, vpb, q, vpb);
    var sum := yes + no + q * vpb;
    RequiredExact(params, tb, yes, no, start, end, q, sum);
    assert 0 <= sum <= threshold;
    MulBounded(sum, rMul, threshold, rMul);
    assert sum * rMul <= yes * rDiv;
    DivAtMost(sum * rMul, rDiv, yes);
  }
}
