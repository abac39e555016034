/**
 The PRACH noise floor estimate over whole runs: a fixed-point first-order filter (weights 900 and 124
 over 1024) that runs on every occasion without an indication, and an occasion counter that must reach
 100 before anything is indicated.
 */
module PrachNoise {
  import opened Fs6Prach

  /** One PRACH occasion: the detection and the time it belongs to. */
  datatype Occasion = Occasion(d: Detection, frame: nat, subframe: nat)

  function Run(rach: Rach, occasions: seq<Occasion>, cell: Cell): Rach {
    if occasions == [] then rach
    else
      var n := |occasions| - 1;
      var o := occasions[n];
      After(Run(rach, occasions[..n], cell), o.d, o.frame, o.subframe, cell)
  }

  // Occasions that updated the noise floor.
  function NoiseUpdates(rach: Rach, occasions: seq<Occasion>, cell: Cell): (k: nat)
    ensures k <= |occasions|
  {
    if occasions == [] then 0
    else
      var n := |occasions| - 1;
      NoiseUpdates(rach, occasions[..n], cell)
      + (if Indicates(Run(rach, occasions[..n], cell), occasions[n].d, cell.threshold) then 0 else 1)
  }

  predicate AveragesIn(occasions: seq<Occasion>, lo: int, hi: int) {
    forall k :: 0 <= k < |occasions| ==> lo <= occasions[k].d.average <= hi
  }

  // How far the estimate is from the interval it is drawn to.
  function Distance(i0: int, lo: int, hi: int): nat {
    if i0 > hi then i0 - hi else if i0 < lo - 16 then lo - 16 - i0 else 0
  }

  lemma FilterAttracts(i0: int, e: int, lo: int, hi: int)
    requires lo <= e <= hi
    ensures Distance(i0, lo, hi) == 0 ==> Distance(Filtered(i0, e), lo, hi) == 0
    ensures Distance(i0, lo, hi) > 0 ==> Distance(Filtered(i0, e), lo, hi) < Distance(i0, lo, hi)
  {
  }

  /** Attraction: if all average energies lie in [lo, hi], every noise update brings the estimate closer
      to [lo - 16, hi] until it is inside, and then it stays there; indications do not move it. */
  lemma {:induction false} Attraction(rach: Rach, occasions: seq<Occasion>, cell: Cell, lo: int, hi: int)
    requires AveragesIn(occasions, lo, hi)
    ensures var far := Distance(rach.i0, lo, hi);
            var updates := NoiseUpdates(rach, occasions, cell);
            Distance(Run(rach, occasions, cell).i0, lo, hi) <= if updates < far then far - updates else 0
  {
    if occasions != [] {
      var n := |occasions| - 1;
      Attraction(rach, occasions[..n], cell, lo, hi);
      FilterAttracts(Run(rach, occasions[..n], cell).i0, occasions[n].d.average, lo, hi);
      hide Distance, Filtered;
    }
  }

  /** After as many noise updates as the start is away from it, the estimate is in [lo - 16, hi]. */
  lemma EntersAndStays(rach: Rach, occasions: seq<Occasion>, cell: Cell, lo: int, hi: int)
    requires AveragesIn(occasions, lo, hi)
    requires NoiseUpdates(rach, occasions, cell) >= Distance(rach.i0, lo, hi)
    ensures lo - 16 <= Run(rach, occasions, cell).i0 <= hi
  {
    Attraction(rach, occasions, cell, lo, hi);
  }

  /** The margin of 16 is needed: on a constant average of 33 an estimate of 17 never moves again. */
  lemma {:induction false} MarginIsTight(rach: Rach, occasions: seq<Occasion>, cell: Cell)
    requires rach.i0 == 33 - 16 && AveragesIn(occasions, 33, 33)
    ensures Run(rach, occasions, cell).i0 == 33 - 16
  {
    if occasions != [] {
      MarginIsTight(rach, occasions[..|occasions| - 1], cell);
    }
  }

  /** From a zero counter the first 100 occasions are noise updates: the counter counts them, and no
      indication is possible before all 100 are done. */
  lemma {:induction false} WarmUp(rach: Rach, occasions: seq<Occasion>, cell: Cell)
    requires rach.energyCounter == 0
    ensures Run(rach, occasions, cell).energyCounter == if |occasions| < 100 then |occasions| else 100
    ensures |occasions| <= 100 ==> NoiseUpdates(rach, occasions, cell) == |occasions|
    ensures |occasions| <= 100 ==>
              var after := Run(rach, occasions, cell);
              after.sfnSf == rach.sfnSf && after.number == rach.number && after.preamble0 == rach.preamble0
  {
    hide Filtered;
    if occasions != [] {
      WarmUp(rach, occasions[..|occasions| - 1], cell);
    }
  }

  /** Every indication is preceded by at least 100 noise updates. */
  lemma IndicationNeedsHundred(rach: Rach, occasions: seq<Occasion>, cell: Cell, d: Detection)
    requires rach.energyCounter == 0 && Indicates(Run(rach, occasions, cell), d, cell.threshold)
    ensures NoiseUpdates(rach, occasions, cell) >= 100
  {
    hide Filtered;
    WarmUp(rach, occasions, cell);
    UpdatesGrow(rach, occasions, cell, 100);
    WarmUp(rach, occasions[..100], cell);
  }

  lemma {:induction false} UpdatesGrow(rach: Rach, occasions: seq<Occasion>, cell: Cell, k: nat)
    requires k <= |occasions|
    ensures NoiseUpdates(rach, occasions[..k], cell) <= NoiseUpdates(rach, occasions, cell)
  {
    if k < |occasions| {
      var n := |occasions| - 1;
      UpdatesGrow(rach, occasions[..n], cell, k);
      assert occasions[..n][..k] == occasions[..k];
    } else {
      assert occasions[..k] == occasions;
    }
  }
}
