/** Dirty masks: the value passed to `matrixSwitchBuf` that says which regions of the matrix
    must be rewritten. The renderers of display.c OR one region bit per changed digit into
    the mask they are given. */
module DirtyMask {

  /** The regions a mask can name. The header that assigns them bits is not part of this
      model, so a mask is the set of regions whose bits it holds: OR is union, MASK_NONE is
      the empty set and MASK_ALL holds every region. */
  datatype Region =
    | HourTens | HourUnits | MinTens | MinUnits | SecTens | SecUnits
    | BigHourTens | BigHourUnits | BigMinTens | BigMinUnits
    | ExtraHourTens | ExtraHourUnits | ExtraMinTens | ExtraMinUnits
    | AlarmRegion | BrTens | BrUnits

  type Mask = set<Region>

  const MASK_NONE: Mask := {}
  const MASK_ALL: Mask := {HourTens, HourUnits, MinTens, MinUnits, SecTens, SecUnits,
                           BigHourTens, BigHourUnits, BigMinTens, BigMinUnits,
                           ExtraHourTens, ExtraHourUnits, ExtraMinTens, ExtraMinUnits,
                           AlarmRegion, BrTens, BrUnits}

  /** The region of one digit when it changed, nothing otherwise. */
  function DirtyBit(cached: int, current: int, region: Region): Mask
  {
    if cached != current then {region} else MASK_NONE
  }

  /** The regions of the digits whose cached value differs from the current one: digit i
      owns `regions[i]`, was last drawn as `olds[i]` and is now `news[i]`. */
  function DirtyBits(olds: seq<int>, news: seq<int>, regions: seq<Region>): (r: Mask)
    requires |olds| == |news| == |regions|
    decreases |regions|
  {
    if |regions| == 0 then MASK_NONE
    else
      var k := |regions| - 1;
      DirtyBits(olds[..k], news[..k], regions[..k]) + DirtyBit(olds[k], news[k], regions[k])
  }

  /** The comparisons of the first k digits are those of the first k - 1 and digit k - 1, as
      each `if (old != digit) mask |= ...` step of a renderer adds one. */
  lemma DirtyBitsPrefix(olds: seq<int>, news: seq<int>, regions: seq<Region>, k: nat)
    requires |olds| == |news| == |regions| && 0 < k <= |regions|
    ensures DirtyBits(olds[..k], news[..k], regions[..k]) ==
            DirtyBits(olds[..k - 1], news[..k - 1], regions[..k - 1]) + DirtyBit(olds[k - 1], news[k - 1], regions[k - 1])
  {
    assert olds[..k][..k - 1] == olds[..k - 1];
    assert news[..k][..k - 1] == news[..k - 1];
    assert regions[..k][..k - 1] == regions[..k - 1];
  }

  /** A region is dirty exactly when some digit that owns it changed. */
  lemma {:induction false} DirtyMembers(olds: seq<int>, news: seq<int>, regions: seq<Region>, r: Region)
    requires |olds| == |news| == |regions|
    ensures r in DirtyBits(olds, news, regions) <==>
            exists i :: 0 <= i < |regions| && regions[i] == r && olds[i] != news[i]
    decreases |regions|
  {
    if |regions| > 0 {
      var k := |regions| - 1;
      DirtyMembers(olds[..k], news[..k], regions[..k], r);
      if r in DirtyBits(olds[..k], news[..k], regions[..k]) {
        var i :| 0 <= i < k && regions[..k][i] == r && olds[..k][i] != news[..k][i];
        assert regions[i] == r && olds[i] != news[i];
      }
      if exists i :: 0 <= i < |regions| && regions[i] == r && olds[i] != news[i] {
        var i :| 0 <= i < |regions| && regions[i] == r && olds[i] != news[i];
        if i < k {
          assert regions[..k][i] == r && olds[..k][i] != news[..k][i];
        }
      }
    }
  }

  /** Regions that are pairwise different. */
  predicate Separate(regions: seq<Region>)
  {
    forall i, j :: 0 <= i < j < |regions| ==> regions[i] != regions[j]
  }

  /** With separate regions, a digit's region is dirty exactly when the digit changed. */
  lemma DirtyExactly(olds: seq<int>, news: seq<int>, regions: seq<Region>, i: nat)
    requires |olds| == |news| == |regions|
    requires Separate(regions)
    requires i < |regions|
    ensures regions[i] in DirtyBits(olds, news, regions) <==> olds[i] != news[i]
  {
    DirtyMembers(olds, news, regions, regions[i]);
    assert forall j :: 0 <= j < |regions| && j != i ==> regions[j] != regions[i];
  }

  /** Nothing outside the digits' regions is ever marked. */
  lemma DirtyWithin(olds: seq<int>, news: seq<int>, regions: seq<Region>, r: Region)
    requires |olds| == |news| == |regions|
    requires r !in regions
    ensures r !in DirtyBits(olds, news, regions)
  {
    DirtyMembers(olds, news, regions, r);
  }

  /** The dirty set is empty exactly when no digit changed. */
  lemma {:induction false} DirtyEmptyIffUnchanged(olds: seq<int>, news: seq<int>, regions: seq<Region>)
    requires |olds| == |news| == |regions|
    ensures DirtyBits(olds, news, regions) == MASK_NONE <==> olds == news
    decreases |regions|
  {
    if |regions| > 0 {
      var k := |regions| - 1;
      DirtyEmptyIffUnchanged(olds[..k], news[..k], regions[..k]);
      if olds[..k] == news[..k] && olds[k] == news[k] {
        assert olds == olds[..k] + [olds[k]] && news == news[..k] + [news[k]];
      }
      if olds == news {
        assert olds[..k] == news[..k];
      }
    }
  }
}
