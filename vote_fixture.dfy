/**
 * The worked example of voteprogress/test01_main.go: one treasury spend
 * 2464 blocks into a 3456-block vote on mainnet-like parameters, with 8478
 * yes votes and none against. The integer figures it prints are stated
 * outright, and tied to the report's definitions in VoteProgress.
 */
module VoteFixture {
  import opened Wrappers
  import opened GoInt
  import opened Networks
  import opened VoteProgress

  /** The integer figures `__main` prints; floating-point ones (progress, participation, days, Scenario 2) are not modelled. */
  datatype Test01Figures = Test01Figures(
    numVotesCast: u64,
    maxVotesToCurBlock: u64,
    tally: Tally,
    scenario1: Projection,
    thresholdRemainingVotes: u64,
    thresholdBlock: u64,
    scenario3: Projection
  )

  /**
   * `__main` as written: the same locals reassigned scenario after scenario,
   * and Scenario 3 computed without the guard progressForTspend has, so its
   * `thresholdBlock - curBlockHeight` wraps below zero and the approval block
   * wraps back to the threshold block.
   */
  method Test01Main() returns (r: Test01Figures)
    ensures r.numVotesCast == 8478 && r.maxVotesToCurBlock == 12320
    ensures r.tally.maxVotes == 17280 && r.tally.quorum == 3456 && r.tally.hasQuorum
    ensures r.tally.remainingBlocks == 992 && r.tally.maxRemainingVotes == 4960
    ensures r.tally.requiredYesVotes == 8062 && r.tally.missingYesVotes == 0
    ensures r.scenario1 == Projection(0, 564352, 564480, 128)
    ensures r.thresholdRemainingVotes == 5652 && r.thresholdBlock == 564214
    ensures r.scenario3 == Projection(TwoTo64 - 138, 564214, 564480, 128)
  {
    var yesVotes: u64 := 8478;
    var noVotes: u64 := 0;
    var curBlockHeight: u64 := 564352;
    var voteStartBlock: u64 := 561888;
    var voteEndBlock: u64 := 565344;

    var votesPerBlock: u64 := 5;
    var tvrMul: u64 := 3;
    var tvrDiv: u64 := 5;
    var tvqMul: u64 := 1;
    var tvqDiv: u64 := 5;
    var tvi: u64 := 288;

    var numVotesCast := Add(yesVotes, noVotes);
    var maxVotesToCurBlock := Mul(Sub(curBlockHeight, voteStartBlock), votesPerBlock);
    assert numVotesCast == 8478 && maxVotesToCurBlock == 12320;

    var maxVotes := Mul(votesPerBlock, Sub(voteEndBlock, voteStartBlock));
    var quorum := Div(Mul(maxVotes, tvqMul), tvqDiv);
    var hasQuorum := numVotesCast >= quorum;
    assert maxVotes == 17280 && quorum == 3456;

    var remainingBlocks := Sub(voteEndBlock, curBlockHeight);
    var maxRemainingVotes := Mul(remainingBlocks, votesPerBlock);
    assert remainingBlocks == 992 && maxRemainingVotes == 4960;

    var requiredYesVotes := Div(Mul(Add(numVotesCast, maxRemainingVotes), tvrMul), tvrDiv);
    assert requiredYesVotes == 8062;
    var missingYesVotes := 0;
    if requiredYesVotes > yesVotes {
      missingYesVotes := requiredYesVotes - yesVotes;
    }
    var tally := Tally(numVotesCast, maxVotes, quorum, hasQuorum, remainingBlocks, maxRemainingVotes,
                       requiredYesVotes, missingYesVotes);

    // Scenario 1: every vote from now on is a yes.
    var blocksToReqVotes := DivCeil(missingYesVotes, votesPerBlock);
    var approvalBlock := Add(curBlockHeight, blocksToReqVotes);
    var inclusionBlock := Add(approvalBlock, tvi - approvalBlock % tvi);
    var blocksToInclusion := Sub(inclusionBlock, curBlockHeight);
    var scenario1 := Projection(blocksToReqVotes, approvalBlock, inclusionBlock, blocksToInclusion);
    assert scenario1 == Projection(0, 564352, 564480, 128);

    // Scenario 3: no more votes come in.
    var thresholdRemainingVotes := Sub(Sub(Div(Mul(yesVotes, tvrDiv), tvrMul), yesVotes), noVotes);
    var thresholdBlock := Sub(voteEndBlock, Div(thresholdRemainingVotes, votesPerBlock));
    assert thresholdRemainingVotes == 5652 && thresholdBlock == 564214;
    blocksToReqVotes := Sub(thresholdBlock, curBlockHeight);
    approvalBlock := Add(curBlockHeight, blocksToReqVotes);
    inclusionBlock := Add(approvalBlock, tvi - approvalBlock % tvi);
    blocksToInclusion := Sub(inclusionBlock, curBlockHeight);
    var scenario3 := Projection(blocksToReqVotes, approvalBlock, inclusionBlock, blocksToInclusion);

    r := Test01Figures(numVotesCast, maxVotesToCurBlock, tally, scenario1, thresholdRemainingVotes,
                       thresholdBlock, scenario3);
  }

  /** The treasury vote constants the example hard-codes; the fields it does not read are left zero. */
  const Test01Params: ChainParams :=
    ChainParams("mainnet", 288, 0, 0, 5, 3, 5, 1, 5, 0, 0, 0, [])

  /** The report's tally for the example: quorum reached, and already approved since no yes vote is missing. */
  lemma Test01TallyApproved()
    ensures ValidRules(Test01Params)
    ensures TallyAt(Test01Params, 564352, 8478, 0, 561888, 565344)
         == Tally(8478, 17280, 3456, true, 992, 4960, 8062, 0)
  {
    assert Mul(5, 3456) == 17280;
    assert Div(Mul(17280, 1), 5) == 3456;
    assert Mul(992, 5) == 4960;
    assert Div(Mul(13438, 3), 5) == 8062;
  }

  /** The approved spend's inclusion opportunity: the TVI boundary 128 blocks after the current block. */
  lemma Test01Inclusion()
    ensures ProjectFrom(564352, 0, 288) == Projection(0, 564352, 564480, 128)
  {
    assert InclusionBlock(564352, 288) == 564480;
  }

  /**
   * The guarded Scenario 3 of the report would also run for the example:
   * its threshold block lies before the current block, the block count
   * wraps, and the approval block wraps back to the threshold block.
   */
  lemma Test01Scenario3()
    ensures ValidRules(Test01Params)
    ensures Scenario3For(Test01Params, 564352, 8478, 0, 565344)
         == Scenario3(14130, Some(Shortcut(5652, 564214, Projection(TwoTo64 - 138, 564214, 564480, 128))))
  {
    assert Div(Mul(8478, 5), 3) == 14130;
    assert Div(5652, 5) == 1130;
    assert Sub(564214, 564352) == TwoTo64 - 138;
    AddSubCancel(564352, 564214);
    assert InclusionBlock(564214, 288) == 564480;
  }
}
