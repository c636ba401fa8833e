/** The level estimator of the processing block in main.c: empty-offset
    removal, the 8.8 fixed-point gain, the submersion threshold, the
    end/interior electrode weighting, the snap-to-full clamp and the 24.8
    percentage. Everything is a pure function of the raw counts, the
    calibration offsets and the per-electrode scales. */
module Estimator {
  import opened FixedPoint
  import opened Config

  /** sensorScale: per-electrode 8.8 gain normalising full-scale counts
      (0x0100 is 1.0); the two end electrodes get extra gain. */
  const SensorScale: seq<int> :=
    [0x01D0, 0x0100, 0x0100, 0x0100, 0x0100, 0x0100,
     0x0100, 0x0100, 0x0100, 0x0100, 0x0100, 0x01C0]

  /** `sensorHeight >> 1`: the height one unit of electrode weight stands for. */
  const HalfHeight: int := SensorHeight / 2
  /** `LEVELMM_MAX << 8`: the full tank height in 24.8 fixed point. */
  const MaxHeight: int := LevelMmMax * 256
  /** Heights above this are snapped to `MaxHeight`. */
  const SnapThreshold: int := MaxHeight - SensorHeight / 4
  /** The weight of a fully submerged array: two per interior electrode, one per end. */
  const FullWeight: nat := 2 * NumSensors - 2
  /** 100.0 percent in 24.8 fixed point. */
  const FullPercent: int := 100 * 256

  /** Largest |raw - offset| for a uint16 raw count and an int16 offset. */
  const MaxDiff: int := 0xFFFF + 0x8000
  /** Largest |scale| for which every `diff * scale` fits in an int32. */
  const ScaleHeadroom: int := 21845

  /** One processing cycle's results: sensorProcessed, sensorActiveCount,
      levelMm and levelPercent. */
  datatype Level = Level(processed: seq<int>, activeCount: nat, levelMm: nat, levelPercent: nat)

  /** `((raw - offset) * scale) >> 8`: the offset-free count normalised by the
      8.8 gain, 24.8 fixed point, rounded toward negative infinity. */
  function Processed(raw: int, offset: int, scale: int): (p: int)
    ensures p * 256 <= (raw - offset) * scale < p * 256 + 256
  {
    Asr8((raw - offset) * scale)
  }

  /** An electrode is submerged when its processed value exceeds the limit. */
  predicate Submerged(p: int)
  {
    p > SensorLimit
  }

  /** The end electrodes are half as tall as the interior ones. */
  function Weight(i: int): nat
  {
    if i == 0 || i == NumSensors - 1 then 1 else 2
  }

  /** The weight of the first `k` electrodes when all are submerged. */
  function TotalWeight(k: nat): nat
  {
    if k == 0 then 0 else TotalWeight(k - 1) + Weight(k - 1)
  }

  /** sensorActiveCount after the first `k` electrodes have been examined:
      the sum of the weights of the submerged ones. It reaches the full
      weight exactly when every one of them is submerged and is zero exactly
      when none is. */
  function ActiveWeight(processed: seq<int>, k: nat): (c: nat)
    requires k <= |processed|
    ensures c <= TotalWeight(k)
    ensures c == TotalWeight(k) <==> forall i :: 0 <= i < k ==> Submerged(processed[i])
    ensures c == 0 <==> forall i :: 0 <= i < k ==> !Submerged(processed[i])
  {
    if k == 0 then 0
    else ActiveWeight(processed, k - 1) + (if Submerged(processed[k - 1]) then Weight(k - 1) else 0)
  }

  lemma TotalWeightOfArray()
    ensures TotalWeight(NumSensors) == FullWeight == 22
  {
  }

  /** levelMm: the weight times half an electrode height, snapped to the full
      height when within a quarter electrode of it. Below the full weight the
      snap never fires; at or above it the level is exactly the full height. */
  function LevelMm(count: nat): (mm: nat)
    ensures count < FullWeight ==> mm == count * HalfHeight
    ensures count >= FullWeight ==> mm == MaxHeight
  {
    SnapsExactlyAtFullWeight(count);
    var mm := count * HalfHeight;
    if mm > SnapThreshold then MaxHeight else mm
  }

  /** The snap threshold lies between 21 and 22 half heights. */
  lemma SnapsExactlyAtFullWeight(count: nat)
    ensures count * HalfHeight > SnapThreshold <==> count >= FullWeight
  {
    assert HalfHeight == 1780 && SnapThreshold == 38278 && FullWeight == 22;
    if count >= FullWeight {
      MulMonotone(22, count, 1780);
    } else {
      MulMonotone(count, 21, 1780);
    }
  }

  /** levelPercent: `levelMm * 100 / LEVELMM_MAX`. Dividing a 24.8 height by
      the integer 153 leaves the percentage in 24.8 fixed point. */
  function LevelPercent(mm: nat): (pct: nat)
    ensures pct * LevelMmMax <= mm * 100 < pct * LevelMmMax + LevelMmMax
  {
    (mm * 100) / LevelMmMax
  }

  /** The byte sent over the air: `levelPercent >> 8` passed as a uint8.
      For a percentage in range it is the whole-number percentage. */
  function ReportedPercent(pct: int): (b: byte)
    ensures 0 <= pct <= FullPercent ==> b <= 100 && b * 256 <= pct < b * 256 + 256
  {
    ToUint8(Asr8(pct))
  }

  /** sensorProcessed for every electrode. */
  function ProcessAll(raw: seq<int>, offsets: seq<int>, scales: seq<int>): (p: seq<int>)
    requires |offsets| == |raw| && |scales| == |raw|
    ensures |p| == |raw|
    ensures forall i :: 0 <= i < |p| ==> p[i] == Processed(raw[i], offsets[i], scales[i])
  {
    seq(|raw|, i requires 0 <= i < |raw| => Processed(raw[i], offsets[i], scales[i]))
  }

  /** The height and percentage that a given electrode weight produces: the
      percentage is full exactly when the weight is, zero exactly when the
      weight is, and never above 100.0. */
  lemma LevelOfWeight(count: nat)
    requires count <= FullWeight
    ensures LevelMm(count) <= MaxHeight
    ensures LevelMm(count) == MaxHeight <==> count == FullWeight
    ensures LevelPercent(LevelMm(count)) <= FullPercent
    ensures LevelPercent(LevelMm(count)) == FullPercent <==> count == FullWeight
    ensures LevelPercent(LevelMm(count)) == 0 <==> count == 0
  {
  }

  /** The complete cycle: processed values, weighted count, height and
      percentage, with the properties the firmware depends on. */
  function Estimate(raw: seq<int>, offsets: seq<int>, scales: seq<int>): (r: Level)
    requires |raw| == NumSensors && |offsets| == NumSensors && |scales| == NumSensors
    ensures |r.processed| == NumSensors
    ensures forall i :: 0 <= i < NumSensors ==>
              r.processed[i] * 256 <= (raw[i] - offsets[i]) * scales[i] < r.processed[i] * 256 + 256
    ensures r.activeCount <= FullWeight
    ensures r.activeCount == FullWeight <==> forall i :: 0 <= i < NumSensors ==> Submerged(r.processed[i])
    ensures r.activeCount == 0 <==> forall i :: 0 <= i < NumSensors ==> !Submerged(r.processed[i])
    ensures r.levelMm == if r.activeCount == FullWeight then MaxHeight else r.activeCount * HalfHeight
    ensures r.levelPercent <= FullPercent
    ensures r.levelPercent == FullPercent <==> r.activeCount == FullWeight
    ensures r.levelPercent == 0 <==> r.activeCount == 0
  {
    var p := ProcessAll(raw, offsets, scales);
    var count := ActiveWeight(p, NumSensors);
    TotalWeightOfArray();
    LevelOfWeight(count);
    var mm := LevelMm(count);
    Level(p, count, mm, LevelPercent(mm))
  }

  /** The first loop of the processing block: subtract each electrode's
      empty offset from its raw count and apply its 8.8 gain. */
  method NormaliseReadings(raw: seq<int>, offsets: seq<int>, scales: seq<int>) returns (processed: seq<int>)
    requires |raw| == NumSensors && |offsets| == NumSensors && |scales| == NumSensors
    ensures processed == ProcessAll(raw, offsets, scales)
  {
    var diff := raw;
    processed := seq(NumSensors, _ => 0);
    var i := 0;
    while i < NumSensors
      invariant 0 <= i <= NumSensors
      invariant |diff| == NumSensors && |processed| == NumSensors
      invariant forall k :: 0 <= k < i ==> processed[k] == Processed(raw[k], offsets[k], scales[k])
      invariant forall k :: i <= k < NumSensors ==> diff[k] == raw[k]
    {
      diff := diff[i := diff[i] - offsets[i]];
      processed := processed[i := Asr8(diff[i] * scales[i])];
      i := i + 1;
    }
  }

  /** The second loop: add 1 for a submerged end electrode and 2 for a
      submerged interior one. */
  method CountSubmerged(processed: seq<int>) returns (count: nat)
    requires |processed| == NumSensors
    ensures count == ActiveWeight(processed, NumSensors)
  {
    count := 0;
    var i := 0;
    while i < NumSensors
      invariant 0 <= i <= NumSensors
      invariant count == ActiveWeight(processed, i)
    {
      if processed[i] > SensorLimit {
        if i == 0 || i == NumSensors - 1 {
          count := count + 1;
        } else {
          count := count + 2;
        }
      }
      i := i + 1;
    }
  }

  /** The processing block of the main loop as written: the two loops, the
      clamp and the division. It computes exactly the functional pipeline. */
  method ProcessScan(raw: seq<int>, offsets: seq<int>, scales: seq<int>) returns (r: Level)
    requires |raw| == NumSensors && |offsets| == NumSensors && |scales| == NumSensors
    ensures r == Estimate(raw, offsets, scales)
  {
    var processed := NormaliseReadings(raw, offsets, scales);
    var count := CountSubmerged(processed);
    MulMonotone(0, count, HalfHeight);
    var levelMm: nat := count * HalfHeight;
    if levelMm > SnapThreshold {
      levelMm := MaxHeight;
    }
    assert levelMm == LevelMm(count);
    var levelPercent := (levelMm * 100) / LevelMmMax;
    r := Level(processed, count, levelMm, levelPercent);
    EstimateUnfold(raw, offsets, scales, r);
  }

  /** The pieces of `Estimate`, one at a time. */
  lemma EstimateUnfold(raw: seq<int>, offsets: seq<int>, scales: seq<int>, r: Level)
    requires |raw| == NumSensors && |offsets| == NumSensors && |scales| == NumSensors
    requires r.processed == ProcessAll(raw, offsets, scales)
    requires r.activeCount == ActiveWeight(r.processed, NumSensors)
    requires r.levelMm == LevelMm(r.activeCount)
    requires r.levelPercent == LevelPercent(r.levelMm)
    ensures r == Estimate(raw, offsets, scales)
  {
  }

  /** With a uint16 raw count, an int16 offset and a scale within the
      headroom (every entry of the scale table is), neither the difference
      nor the 8.8 product nor the shifted value leaves int32. */
  lemma ProductFitsInt32(raw: int, offset: int, scale: int)
    requires InUint16(raw) && InInt16(offset)
    requires -ScaleHeadroom <= scale <= ScaleHeadroom
    ensures InInt32(raw - offset)
    ensures InInt32((raw - offset) * scale)
    ensures InInt32(Processed(raw, offset, scale))
  {
    MulAbsBound(raw - offset, scale, MaxDiff, ScaleHeadroom);
    assert MaxDiff * ScaleHeadroom == 2147429035;
  }

  /** The headroom is tight: one more unit of scale overflows int32 for the
      largest positive difference. */
  lemma ScaleHeadroomIsTight()
    ensures !InInt32((0xFFFF - (-0x8000)) * (ScaleHeadroom + 1))
  {
  }

  /** Every entry of the scale table is positive and within the headroom. */
  lemma SensorScaleInRange()
    ensures |SensorScale| == NumSensors
    ensures forall i :: 0 <= i < |SensorScale| ==> 0 < SensorScale[i] <= ScaleHeadroom
  {
  }

  /** No intermediate of a whole cycle overflows its C type: products and
      processed values fit in int32, the weighted count fits in uint8 and the
      percentage numerator fits in int32. */
  lemma EstimateFitsMachineTypes(raw: seq<int>, offsets: seq<int>, scales: seq<int>)
    requires |raw| == NumSensors && |offsets| == NumSensors && |scales| == NumSensors
    requires forall i :: 0 <= i < NumSensors ==> InUint16(raw[i]) && InInt16(offsets[i])
    requires forall i :: 0 <= i < NumSensors ==> -ScaleHeadroom <= scales[i] <= ScaleHeadroom
    ensures forall i :: 0 <= i < NumSensors ==> InInt32((raw[i] - offsets[i]) * scales[i])
    ensures forall i :: 0 <= i < NumSensors ==> InInt32(Estimate(raw, offsets, scales).processed[i])
    ensures Estimate(raw, offsets, scales).activeCount < 0x100
    ensures InInt32(Estimate(raw, offsets, scales).levelMm * 100)
  {
    forall i | 0 <= i < NumSensors
      ensures InInt32((raw[i] - offsets[i]) * scales[i])
      ensures InInt32(Estimate(raw, offsets, scales).processed[i])
    {
      ProductFitsInt32(raw[i], offsets[i], scales[i]);
    }
  }

  /** Raising one electrode's offset-free count never lowers its processed
      value when its scale is non-negative. */
  lemma ProcessedMonotone(raw: int, raw': int, offset: int, scale: int)
    requires raw <= raw' && 0 <= scale
    ensures Processed(raw, offset, scale) <= Processed(raw', offset, scale)
  {
    MulMonotone(raw - offset, raw' - offset, scale);
    Asr8Monotone((raw - offset) * scale, (raw' - offset) * scale);
  }

  /** If every electrode submerged in `p` is submerged in `q`, the weighted
      count of `q` is at least that of `p`. */
  lemma {:induction false} ActiveWeightMonotone(p: seq<int>, q: seq<int>, k: nat)
    requires k <= |p| && k <= |q|
    requires forall i :: 0 <= i < k && Submerged(p[i]) ==> Submerged(q[i])
    ensures ActiveWeight(p, k) <= ActiveWeight(q, k)
  {
    if k > 0 {
      ActiveWeightMonotone(p, q, k - 1);
    }
  }

  /** The height and the percentage never decrease with the weight. */
  lemma LevelMonotone(c: nat, c': nat)
    requires c <= c'
    ensures LevelMm(c) <= LevelMm(c')
    ensures LevelPercent(LevelMm(c)) <= LevelPercent(LevelMm(c'))
  {
  }

  /** Raising one electrode's reading, the others fixed, never lowers the
      weighted count, the height or the percentage. */
  lemma RaisingOneReadingNeverLowersLevel(raw: seq<int>, offsets: seq<int>, scales: seq<int>, j: nat, v: int)
    requires |raw| == NumSensors && |offsets| == NumSensors && |scales| == NumSensors
    requires j < NumSensors && raw[j] <= v && 0 <= scales[j]
    ensures Estimate(raw, offsets, scales).activeCount <= Estimate(raw[j := v], offsets, scales).activeCount
    ensures Estimate(raw, offsets, scales).levelMm <= Estimate(raw[j := v], offsets, scales).levelMm
    ensures Estimate(raw, offsets, scales).levelPercent <= Estimate(raw[j := v], offsets, scales).levelPercent
  {
    var lo := Estimate(raw, offsets, scales);
    var hi := Estimate(raw[j := v], offsets, scales);
    ProcessedMonotone(raw[j], v, offsets[j], scales[j]);
    assert forall i :: 0 <= i < NumSensors ==> lo.processed[i] <= hi.processed[i];
    ActiveWeightMonotone(lo.processed, hi.processed, NumSensors);
    LevelMonotone(lo.activeCount, hi.activeCount);
  }

  /** A reading at or below its empty offset never marks its electrode
      submerged when the scale is non-negative. */
  lemma AtOrBelowOffsetNeverSubmerged(raw: int, offset: int, scale: int)
    requires raw <= offset && 0 <= scale
    ensures Processed(raw, offset, scale) <= 0
    ensures !Submerged(Processed(raw, offset, scale))
  {
    MulMonotone(raw - offset, 0, scale);
  }

  /** Readings at or below their offsets, with non-negative scales, give an
      empty tank. */
  lemma NotAboveOffsetsIsEmpty(raw: seq<int>, offsets: seq<int>, scales: seq<int>)
    requires |raw| == NumSensors && |offsets| == NumSensors && |scales| == NumSensors
    requires forall i :: 0 <= i < NumSensors ==> raw[i] <= offsets[i] && 0 <= scales[i]
    ensures Estimate(raw, offsets, scales).activeCount == 0
    ensures Estimate(raw, offsets, scales).levelPercent == 0
  {
    var r := Estimate(raw, offsets, scales);
    forall i | 0 <= i < NumSensors
      ensures !Submerged(r.processed[i])
    {
      AtOrBelowOffsetNeverSubmerged(raw[i], offsets[i], scales[i]);
    }
  }

  /** Readings equal to the offsets give an empty tank, whatever the scales. */
  lemma ReadingsAtOffsetsAreEmpty(offsets: seq<int>, scales: seq<int>)
    requires |offsets| == NumSensors && |scales| == NumSensors
    ensures Estimate(offsets, offsets, scales).activeCount == 0
    ensures Estimate(offsets, offsets, scales).levelPercent == 0
  {
    var r := Estimate(offsets, offsets, scales);
    assert forall i :: 0 <= i < NumSensors ==> r.processed[i] == 0;
  }

  /** When exactly one electrode is submerged the weighted count is that
      electrode's weight: 1 at either end, 2 in between. */
  lemma {:induction false} OnlyOneSubmerged(p: seq<int>, j: nat, k: nat)
    requires j < k <= |p|
    requires Submerged(p[j])
    requires forall i :: 0 <= i < k && i != j ==> !Submerged(p[i])
    ensures ActiveWeight(p, k) == Weight(j)
  {
    if k - 1 != j {
      OnlyOneSubmerged(p, j, k - 1);
    } else {
      assert ActiveWeight(p, k - 1) == 0;
    }
  }

  /** Worked values of the whole pipeline: one end electrode reports 4 %,
      one interior electrode 9 %, all but one end electrode 95 % and the full
      array exactly 100 %. */
  lemma ReportedPercentExamples()
    ensures LevelPercent(LevelMm(1)) == 1163 && ReportedPercent(1163) == 4
    ensures LevelPercent(LevelMm(2)) == 2326 && ReportedPercent(2326) == 9
    ensures LevelPercent(LevelMm(21)) == 24431 && ReportedPercent(24431) == 95
    ensures LevelPercent(LevelMm(22)) == FullPercent && ReportedPercent(FullPercent) == 100
  {
  }
}
