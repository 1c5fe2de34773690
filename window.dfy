/**
 * Placement of a treasury spend's vote relative to the treasury vote interval
 * (TVI): the "too close to the next TVI" rule shared by tspend.go (loadExpiry),
 * expiryfor/main.go and spendestimate/main.go. Heights are int64 in the
 * source and Go's `%` keeps the dividend's sign, so the rule is written with
 * GoInt.Rem.
 */
module Window {
  import opened GoInt

  /** `tvi - height % tvi` */
  function BlocksToTVI(height: int, tvi: nat): (b: int)
    requires tvi > 0
    ensures (height + b) % tvi == 0
    ensures height >= 0 ==> 1 <= b <= tvi
    ensures height < 0 ==> tvi <= b < 2 * tvi
  {
    var r := Rem(height, tvi);
    assert height + tvi - r == tvi * (Quo(height, tvi) + 1);
    MultipleMod(Quo(height, tvi) + 1, tvi);
    tvi - r
  }

  /** `tooCloseThresh`: a quarter of the interval, rounded down. */
  function TooCloseThreshold(tvi: nat): nat { tvi / 4 }

  predicate TooClose(height: int, tvi: nat)
    requires tvi > 0
  {
    BlocksToTVI(height, tvi) < TooCloseThreshold(tvi)
  }

  /**
   * The height handed to CalcTSpendExpiry: advanced to the next multiple of
   * the TVI when fewer than a quarter TVI of blocks remain before it, left
   * unchanged otherwise.
   */
  function PlacementHeight(height: int, tvi: nat): (h: int)
    requires tvi > 0
    ensures TooClose(height, tvi) ==> height < h && h % tvi == 0 && h - height < tvi / 4
    ensures !TooClose(height, tvi) ==> h == height
  {
    if TooClose(height, tvi) then height + BlocksToTVI(height, tvi) else height
  }

  /**
   * After placement, at least a quarter TVI of blocks remain before the next
   * interval boundary (a full TVI when the height was advanced onto one).
   */
  lemma PlacementLeavesQuarterInterval(height: int, tvi: nat)
    requires height >= 0 && tvi > 0
    ensures BlocksToTVI(PlacementHeight(height, tvi), tvi) >= TooCloseThreshold(tvi)
  {
    var h := PlacementHeight(height, tvi);
    if TooClose(height, tvi) {
      assert Rem(h, tvi) == 0 by { QuoNonNegative(h, tvi); }
    }
  }

  /** Consensus rules outside the core: `CalcTSpendExpiry` and `CalcTSpendWindow`. */
  datatype ExpiryRules = ExpiryRules(
    calcExpiry: (int, nat, nat) -> int,          // (height, tvi, mul) -> expiry
    calcWindow: (int, nat, nat) -> (int, int)    // (expiry, tvi, mul) -> (start, end)
  )
}
