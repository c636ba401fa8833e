/** The empty-offset tables held in flash and the boot-time copy of them into
    the working offsets (the offset loop of InitializeSystem in both main.c
    variants). */
module Calibration {
  import opened FixedPoint
  import opened Config
  import opened Estimator

  /** eepromEmptyOffset of the SmartMop build: one empty count per electrode. */
  const SmartMopEmptyOffset: seq<int> :=
    [0, 1486, 1864, 2563, 2680, 1892, 1905, 1825, 1904, 2024, 2086, 884]

  /** eepromEmptyOffset of the LLS_CSD_12RX-042 build: declared with a single
      initialiser, so it holds one entry. */
  const LlsEmptyOffset: seq<int> := [0]

  /** The outcome of the offset copy loop: the loaded offsets, or the first
      table index the loop reads past the end of the table. */
  datatype LoadResult = Loaded(offsets: seq<int>) | ReadPastTable(index: nat)

  /** The corrected load: copy the first NumSensors entries of a table that
      has at least that many. */
  function LoadOffsets(table: seq<int>): (offsets: seq<int>)
    requires NumSensors <= |table|
    ensures |offsets| == NumSensors
    ensures forall i :: 0 <= i < NumSensors ==> offsets[i] == table[i]
  {
    table[..NumSensors]
  }

  /** The copy loop as written: it reads table entries 0 to NumSensors - 1
      whatever the table's length. It loads the offsets exactly when the table
      is long enough, and otherwise reports the first index it reads out of
      bounds. */
  function LoadOffsetsAsWritten(table: seq<int>): (r: LoadResult)
    ensures r.Loaded? <==> NumSensors <= |table|
    ensures r.Loaded? ==> r.offsets == LoadOffsets(table)
    ensures r.ReadPastTable? ==> r.index == |table| && r.index < NumSensors
  {
    if |table| < NumSensors then ReadPastTable(|table|) else Loaded(LoadOffsets(table))
  }

  /** The LLS build reads eleven entries past its one-entry table. */
  lemma LlsLoadReadsPastTable()
    ensures LoadOffsetsAsWritten(LlsEmptyOffset) == ReadPastTable(1)
  {
  }

  /** The SmartMop table loads, and every loaded offset fits in an int16. */
  lemma SmartMopTableLoads()
    ensures LoadOffsetsAsWritten(SmartMopEmptyOffset) == Loaded(SmartMopEmptyOffset)
    ensures forall i :: 0 <= i < NumSensors ==> InInt16(LoadOffsets(SmartMopEmptyOffset)[i])
  {
    assert SmartMopEmptyOffset[..NumSensors] == SmartMopEmptyOffset;
  }

  /** All-zero raw counts, the state before the first scan completes, give an
      empty tank with the SmartMop offsets and scales, since no offset is
      negative and every scale is positive. */
  lemma ZeroReadingsReadEmpty()
    ensures Estimate(seq(NumSensors, _ => 0), LoadOffsets(SmartMopEmptyOffset), SensorScale).levelPercent == 0
  {
    var zeros := seq(NumSensors, _ => 0);
    var offsets := LoadOffsets(SmartMopEmptyOffset);
    assert forall i :: 0 <= i < NumSensors ==> zeros[i] <= offsets[i] && 0 <= SensorScale[i];
    NotAboveOffsetsIsEmpty(zeros, offsets, SensorScale);
  }
}
