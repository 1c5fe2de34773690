/**
 * Helpers of the treasury spend estimator (spendestimate/util.go): the sum of
 * treasury bases over a window of blocks, taken in chunks that never cross a
 * subsidy reduction boundary, the singular/plural choice, and the day branch
 * of the duration formatter.
 *
 * `CalcTreasurySubsidy(height, 5, true)` is the `subsidy` parameter: a
 * function of the height alone. Amounts and heights are exact integers here;
 * realistic windows and subsidies stay far inside int64.
 */
module SpendEstimateUtil {
  import opened Wrappers
  import opened GoInt
  import opened Encoding
  import Strings

  // ------------------------------------------------------------ sumTbases

  /**
   * The `blocksToAdd` of one step of `sumTbases`: up to the next multiple of
   * the reduction interval, cut at the end of the window. A chunk starting at
   * a non-negative height stays within one reduction interval.
   */
  function ChunkLength(height: int, endHeight: int, interval: int): (n: int)
    requires interval > 0 && height <= endHeight
    ensures 1 <= n <= endHeight - height + 1
    ensures height >= 0 ==> (height + n - 1) / interval == height / interval
  {
    var toBoundary := if Rem(height, interval) != 0 then interval - Rem(height, interval) else interval;
    var n := if height + toBoundary > endHeight then endHeight - height + 1 else toBoundary;
    ChunkWithinInterval(height, n, interval);
    n
  }

  lemma ChunkWithinInterval(height: int, n: int, interval: int)
    requires interval > 0 && n >= 1
    requires n <= (if Rem(height, interval) != 0 then interval - Rem(height, interval) else interval)
    ensures height >= 0 ==> (height + n - 1) / interval == height / interval
  {
    if height >= 0 {
      QuoNonNegative(height, interval);
      var q := height / interval;
      assert height == interval * q + height % interval;
      assert interval * q <= height + n - 1 < interval * (q + 1);
      DivRange(height + n - 1, interval, q);
    }
  }

  /** What `sumTbases` adds from `height` on: each chunk at the subsidy of its first block. */
  function ChunkedSum(height: int, endHeight: int, interval: int, subsidy: int -> int): int
    requires interval > 0
    decreases endHeight - height
  {
    if height > endHeight then 0
    else
      var n := ChunkLength(height, endHeight, interval);
      subsidy(height) * n + ChunkedSum(height + n, endHeight, interval, subsidy)
  }

  /** The reference: every block of `[low, high]` counted at its own subsidy. */
  function PerBlockSum(low: int, high: int, subsidy: int -> int): int
    decreases high - low
  {
    if low > high then 0 else subsidy(low) + PerBlockSum(low + 1, high, subsidy)
  }

  /** The subsidy changes only at multiples of the reduction interval (for non-negative heights). */
  ghost predicate ConstantPerInterval(subsidy: int -> int, interval: int)
    requires interval > 0
  {
    forall a, b :: 0 <= a <= b && a / interval == b / interval ==> subsidy(a) == subsidy(b)
  }

  /** The treasury bases of the `blocks` blocks ending at `endHeight`, as `sumTbases` adds them. */
  function WindowSum(endHeight: int, blocks: int, interval: int, subsidy: int -> int): int
    requires blocks > 0 ==> interval > 0
  {
    if blocks <= 0 then 0 else ChunkedSum(endHeight - blocks + 1, endHeight, interval, subsidy)
  }

  /**
   * `sumTbases(endHeight, blocks, subReductionInterval, subCache)`: the loop
   * over chunks of the window `[endHeight - blocks + 1, endHeight]`. The
   * source divides by the interval only inside the loop, so an empty window
   * needs no interval.
   */
  method SumTbases(endHeight: int, blocks: int, interval: int, subsidy: int -> int) returns (res: int)
    requires blocks > 0 ==> interval > 0
    ensures res == WindowSum(endHeight, blocks, interval, subsidy)
  {
    res := 0;
    var startHeight := endHeight - blocks + 1;
    var height := startHeight;
    while height <= endHeight
      invariant height > endHeight ==> height == startHeight || height == endHeight + 1
      invariant blocks > 0 ==> startHeight <= height <= endHeight + 1
      invariant blocks > 0 ==> res + ChunkedSum(height, endHeight, interval, subsidy)
                               == ChunkedSum(startHeight, endHeight, interval, subsidy)
      invariant blocks <= 0 ==> res == 0
      decreases endHeight - height
    {
      var blocksToAdd := interval;
      if Rem(height, interval) != 0 {
        blocksToAdd := interval - Rem(height, interval);
      }
      if height + blocksToAdd > endHeight {
        blocksToAdd := endHeight - height + 1;
      }
      assert blocksToAdd == ChunkLength(height, endHeight, interval);
      var tbase := subsidy(height);
      res := res + tbase * blocksToAdd;
      height := height + blocksToAdd;
    }
  }

  lemma {:induction false} PerBlockSplit(low: int, mid: int, high: int, subsidy: int -> int)
    requires low <= mid <= high + 1
    ensures PerBlockSum(low, high, subsidy) == PerBlockSum(low, mid - 1, subsidy) + PerBlockSum(mid, high, subsidy)
    decreases mid - low
  {
    if low < mid {
      PerBlockSplit(low + 1, mid, high, subsidy);
    }
  }

  lemma {:induction false} PerBlockConstant(low: int, high: int, subsidy: int -> int, interval: int)
    requires interval > 0 && 0 <= low <= high + 1 && ConstantPerInterval(subsidy, interval)
    requires high / interval == low / interval
    ensures PerBlockSum(low, high, subsidy) == subsidy(low) * (high - low + 1)
    decreases high - low
  {
    if low <= high {
      if low < high {
        DivMonotone(low, low + 1, interval);
        DivMonotone(low + 1, high, interval);
        PerBlockConstant(low + 1, high, subsidy, interval);
        assert subsidy(low + 1) == subsidy(low);
      }
    }
  }

  /**
   * The chunked sum is the per-block sum when the subsidy only changes at
   * reduction boundaries: the chunks are contiguous, cover the window
   * exactly, and none of them straddles a boundary.
   */
  lemma {:induction false} ChunkedSumIsPerBlockSum(height: int, endHeight: int, interval: int, subsidy: int -> int)
    requires interval > 0 && 0 <= height && ConstantPerInterval(subsidy, interval)
    ensures ChunkedSum(height, endHeight, interval, subsidy) == PerBlockSum(height, endHeight, subsidy)
    decreases endHeight - height
  {
    if height <= endHeight {
      var n := ChunkLength(height, endHeight, interval);
      ChunkedSumIsPerBlockSum(height + n, endHeight, interval, subsidy);
      PerBlockSplit(height, height + n, endHeight, subsidy);
      PerBlockConstant(height, height + n - 1, subsidy, interval);
    }
  }

  /** With a subsidy of one per block, the chunks add up to the number of blocks in the window. */
  lemma ChunksCoverWindow(endHeight: int, blocks: int, interval: int)
    requires interval > 0 && blocks > 0 && endHeight - blocks + 1 >= 0
    ensures ChunkedSum(endHeight - blocks + 1, endHeight, interval, _ => 1) == blocks
  {
    var one: int -> int := _ => 1;
    ChunkedSumIsPerBlockSum(endHeight - blocks + 1, endHeight, interval, one);
    PerBlockConstantOne(endHeight - blocks + 1, endHeight);
  }

  lemma {:induction false} PerBlockConstantOne(low: int, high: int)
    requires low <= high + 1
    ensures PerBlockSum(low, high, _ => 1) == high - low + 1
    decreases high - low
  {
    if low <= high {
      PerBlockConstantOne(low + 1, high);
    }
  }

  // ------------------------------------------------------------ plural

  /** `plural(i, one, many)` */
  function Plural(i: int, one: string, many: string): (r: string)
    ensures i == 1 ==> r == one
    ensures i != 1 ==> r == many
  {
    if i == 1 then one else many
  }

  // ------------------------------------------------------------ formatDuration

  const Hour: int := 3600 * 1_000_000_000
  const Day: int := 24 * Hour

  /**
   * The day branch of `formatDuration`: a duration strictly longer than a
   * day prints as "<days>d<hours>h"; anything else goes to
   * `Duration.String`, which is not modelled (None).
   */
  function FormatDuration(d: int): (r: Option<string>)
    ensures r.Some? <==> d > Day
    ensures r.Some? ==> Strings.Split(r.value, 'd') == [FormatNat(d / Day), FormatNat((d - d / Day * Day) / Hour) + "h"]
  {
    if d > Day then
      var days := d / Day;
      var hours := (d - days * Day) / Hour;
      var tail := FormatNat(hours) + "h";
      var s := FormatNat(days) + "d" + tail;
      assert forall i :: 0 <= i < |tail| ==> tail[i] != 'd' by {
        forall i | 0 <= i < |tail| ensures tail[i] != 'd' {
          if i < |FormatNat(hours)| { assert IsDigit(FormatNat(hours)[i]); }
        }
      }
      DigitsSplit(FormatNat(days), tail);
      Some(s)
    else None
  }

  lemma DigitsSplit(a: string, b: string)
    requires forall i :: 0 <= i < |a| ==> IsDigit(a[i])
    requires forall i :: 0 <= i < |b| ==> b[i] != 'd'
    ensures Strings.Split(a + "d" + b, 'd') == [a, b]
  {
    assert 'd' !in a by {
      forall i | 0 <= i < |a| ensures a[i] != 'd' { assert IsDigit(a[i]); }
    }
    Strings.SplitAtFirst(a, b, 'd');
    Strings.SplitNoSep(b, 'd');
  }

  /** The day and hour figures are the whole hours of the duration, split into days and a remainder below 24. */
  lemma DaysAndHours(d: int)
    requires d > Day
    ensures var days := d / Day;
      var hours := (d - days * Day) / Hour;
      days >= 1 && 0 <= hours < 24 && days * 24 + hours == d / Hour
  {
    var days := d / Day;
    var rest := d - days * Day;
    assert 0 <= rest < Day;
    var hours := rest / Hour;
    DivMonotone(rest, Day - 1, Hour);
    assert (Day - 1) / Hour == 23;
    var q := d / Hour;
    assert Hour * (days * 24 + hours) <= d < Hour * (days * 24 + hours + 1);
    DivRange(d, Hour, days * 24 + hours);
  }
}
