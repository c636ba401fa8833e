# Liquid-level sensor firmware: a verified model of its core

The firmware measures the liquid level in a tank with twelve stacked
capacitive electrodes. It reports the level over Bluetooth LE and keeps its
calibration in an emulated EEPROM in program flash. There are two builds of
the main loop, `SmartMop` and `LLS_CSD_12RX-042`. This project models the
sequential core that both builds share, in Dafny, and proves properties of it.

- **Level estimator** (`estimator.dfy`, module `Estimator`). For each
  electrode it subtracts the empty offset, applies the 8.8 fixed-point gain
  with an arithmetic `>> 8`, and tests the result against the submersion
  threshold. It then weights the electrodes (1 at each end, 2 in between),
  computes the height and snaps it to full height near the top, and gives the
  percentage in 24.8 fixed point. There is a pure pipeline (`Estimate`) and a
  loop-for-loop rendering of the C block (`ProcessScan`) proved equal to it.
- **Constants** (`config.dfy`, `fixed_point.dfy`). The `main.h` constants,
  the TRUE/FALSE flag encoding, the C integer widths as range predicates, and
  the two narrowing operations the code relies on: `>> 8` and the implicit
  conversion to `uint8`.
- **Offset load** (`calibration.dfy`). The two builds' empty-offset tables
  and the boot-time copy loop, both as written and corrected.
- **Em_EEPROM_Write** (`em_eeprom.dfy`). The row-by-row copy-modify-write of
  flash. Flash is a byte sequence. The row write primitive is an oracle that
  reports a status for each call.
- **BLE flag state machine** (`ble.dfy`). The event callback and the three
  helpers are steps on a record of `uint8` flags. Each step records the stack
  calls it makes as effects.
- **Main loop** (`main_loop.dfy`). One pass of each build's endless loop:
  dispatch the BLE events, mirror the CCCD, send the level (on change in
  SmartMop, on every pass in LLS), and process a finished scan. The LLS pass
  also handles the calibration request flag. Runs of passes are modelled for
  both builds.

Every hardware read is an input: the raw counts, the scan-busy flag, the BLE
events, the two main-loop flags, and any write to the calibration request
flag from outside the loop. Every call into a vendor component is a
recorded output.

Three consequences of the code's integer arithmetic, which the model keeps:

- The percentage is `levelMm * 100 / 153`. The code divides the 24.8 height
  by the plain integer `LEVELMM_MAX`, not by the 24.8 full height 39168.
- The electrode height is the truncated `(153 * 256) / 11 = 3560`, not 3561.
- The snap to full height fires only when all twelve electrodes are
  submerged (weight 22). It never fires for a height that is merely close to
  full, because weight 21 gives 37380, below the threshold 38278.

## Model

| member | source | states |
|---|---|---|
| FixedPoint.Asr8 | SmartMop.cydsn/main.c:131 | `x >> 8` rounds toward negative infinity: the result r satisfies r*256 <= x < r*256 + 256, for negative x too |
| FixedPoint.ToUint8 | SmartMop.cydsn/BLEApplications.c:177 | passing an int to a uint8 parameter keeps the value modulo 256, and is the identity on 0..255 |
| Config.DerivedConstants | SmartMop.cydsn/main.h:55-59 | SENSORLIMIT is 300; SENSORHEIGHT is 3560 after truncation, so 11 heights (39160) fall short of 153<<8 (39168); the snap threshold 38278 lies strictly between 21 and 22 half heights |
| Config.TrueTestIsStricter | SmartMop.cydsn/main.h:71-72 | a `TRUE == flag` test implies C truthiness, and the two disagree exactly on the byte values other than 0 and 1 |
| Estimator.Processed | SmartMop.cydsn/main.c:130-131 | the processed value is floor((raw - offset) * scale / 256) |
| Estimator.ActiveWeight | SmartMop.cydsn/main.c:135-151 | the weighted count over the first k electrodes is at most their total weight; it equals that weight iff all k are submerged, and is 0 iff none is |
| Estimator.TotalWeightOfArray | SmartMop.cydsn/main.c:141-148 | two ends of weight 1 and ten interior electrodes of weight 2 give a full weight of 22 |
| Estimator.LevelMm | SmartMop.cydsn/main.c:154-159 | below the full weight the height is count * 1780; at the full weight it is exactly 153<<8 |
| Estimator.SnapsExactlyAtFullWeight | SmartMop.cydsn/main.c:156 | the snap condition count*1780 > 38278 holds iff the count is at least 22 |
| Estimator.LevelPercent | SmartMop.cydsn/main.c:162 | the percentage is the quotient of height*100 by 153, rounded down |
| Estimator.ReportedPercent | SmartMop.cydsn/main.c:105 | for a percentage in [0, 25600] the notified byte is its whole part: at most 100, and byte*256 <= pct < byte*256 + 256 |
| Estimator.ProcessAll | SmartMop.cydsn/main.c:128-132 | one processed value per electrode, each from that electrode's raw count, offset and scale |
| Estimator.LevelOfWeight | SmartMop.cydsn/main.c:154-162 | for a weight in [0, 22], the height is at most full and is full iff the weight is 22; the percentage is at most 25600, is 25600 iff the weight is 22, and is 0 iff the weight is 0 |
| Estimator.Estimate | SmartMop.cydsn/main.c:127-162 | a whole cycle: the processed values are the floored 8.8 products; the count is at most 22, 22 iff every electrode is submerged and 0 iff none is; the height snaps exactly at full weight; the percentage is in [0, 25600], full iff the count is full and 0 iff the count is 0 |
| Estimator.NormaliseReadings | SmartMop.cydsn/main.c:128-132 | the offset-removal loop, with its running diff array, leaves the same processed values as the per-electrode definition |
| Estimator.CountSubmerged | SmartMop.cydsn/main.c:135-151 | the counting loop computes the weighted count of the submerged electrodes |
| Estimator.ProcessScan | SmartMop.cydsn/main.c:127-162 | the C processing block, its loops, clamp and division, computes exactly the functional pipeline `Estimate` |
| Estimator.ProductFitsInt32 | SmartMop.cydsn/main.c:130-131 | with a uint16 raw count, an int16 offset and a scale within ±21845, the difference, the product and the shifted value all fit in int32 |
| Estimator.ScaleHeadroomIsTight | SmartMop.cydsn/main.c:131 | a scale of 21846 overflows int32 for the largest difference, so the bound above cannot be widened |
| Estimator.SensorScaleInRange | SmartMop.cydsn/main.c:59 | every entry of the 12-entry scale table is positive and within the int32 headroom |
| Estimator.EstimateFitsMachineTypes | SmartMop.cydsn/main.c:127-162 | over a whole cycle with uint16 raw counts and int16 offsets, every product and processed value fits in int32, the count fits in uint8, and height*100 fits in int32 |
| Estimator.ProcessedMonotone | SmartMop.cydsn/main.c:130-131 | with a non-negative scale, a larger raw count never gives a smaller processed value |
| Estimator.ActiveWeightMonotone | SmartMop.cydsn/main.c:136-151 | if every electrode submerged in one scan is submerged in another, the second count is at least the first |
| Estimator.LevelMonotone | SmartMop.cydsn/main.c:154-162 | a larger weight never gives a lower height or percentage, across the snap as well |
| Estimator.RaisingOneReadingNeverLowersLevel | SmartMop.cydsn/main.c:127-162 | raising one electrode's reading with the others fixed never lowers the count, the height or the percentage |
| Estimator.AtOrBelowOffsetNeverSubmerged | SmartMop.cydsn/main.c:130-138 | a reading at or below its offset, with a non-negative scale, gives a processed value <= 0 and is never submerged |
| Estimator.NotAboveOffsetsIsEmpty | SmartMop.cydsn/main.c:127-162 | readings all at or below their offsets give count 0 and percentage 0 |
| Estimator.ReadingsAtOffsetsAreEmpty | SmartMop.cydsn/main.c:130-131 | readings equal to the offsets give count 0 and percentage 0, whatever the scales |
| Estimator.OnlyOneSubmerged | SmartMop.cydsn/main.c:136-151 | with exactly one electrode submerged the count is that electrode's weight |
| Estimator.ReportedPercentExamples | SmartMop.cydsn/main.c:154-162 | weight 1 gives 1163 and byte 4; weight 2 gives 2326 and byte 9; weight 21 gives 24431 and byte 95; weight 22 gives 25600 and byte 100 |
| Calibration.LoadOffsets | SmartMop.cydsn/main.c:185-188 | from a table of at least 12 entries, the working offsets are its first 12 entries |
| Calibration.LoadOffsetsAsWritten | LLS_CSD_12RX-042.cydsn/main.c:176-179 | the copy loop succeeds iff the table has at least 12 entries, and then agrees with the corrected load; otherwise its first out-of-bounds read is at index `|table|` |
| Calibration.LlsLoadReadsPastTable | LLS_CSD_12RX-042.cydsn/main.c:56 | the LLS table has one entry, so the load reads past it, first at index 1 |
| Calibration.SmartMopTableLoads | SmartMop.cydsn/main.c:58 | the SmartMop table loads unchanged, and every entry fits in int16 |
| Calibration.ZeroReadingsReadEmpty | SmartMop.cydsn/main.c:55-59 | all-zero raw counts with the SmartMop offsets and scales give percentage 0 |
| EmEeprom.Mask | SmartMop.cydsn/interface.c:181-187 | the result is always SUCCESS, BAD_PARAM or UNKNOWN; it is SUCCESS iff the row status was; documented codes pass through unchanged |
| EmEeprom.WriteRow | SmartMop.cydsn/interface.c:161 | a successful row write replaces exactly that row's bytes with the buffer; a failed one changes nothing |
| EmEeprom.RowStartIsProduct | SmartMop.cydsn/interface.c:138 | the first address of row r is r * rowSize |
| EmEeprom.GeometryMacros | SmartMop.cydsn/main.h:80-83 | the rows of an array tile it exactly, and the end of flash is base + array size, which is the start of the row after the last one |
| EmEeprom.FirstRow | SmartMop.cydsn/interface.c:136-138 | for an address inside flash: the array index is 0, the `% ROWS_IN_ARRAY` does not change the row index, and the byte offset is the first address of the row holding the address |
| EmEeprom.FillRowBuffer | SmartMop.cydsn/interface.c:146-158 | the buffer holds the next source byte at every address of the target range and the current flash byte elsewhere; the source index advances by the number of target addresses in the row |
| EmEeprom.WriteNextRow | SmartMop.cydsn/interface.c:143-164 | one pass of the row loop keeps the loop invariant: the rows are consecutive and overlap the target; everything below the loop position holds its target value (except the last row if its write failed); everything else is untouched |
| EmEeprom.WriteRows | SmartMop.cydsn/interface.c:136-172 | the row loop: byteCount 0 writes nothing; no address outside the target changes; on success the target holds the source bytes and every overlapping row was written, consecutively from the row holding ptr; the loop stops at the first failed write, and the rows after it are untouched |
| EmEeprom.Write | SmartMop.cydsn/interface.c:120-188 | the status is documented; a range reaching the end of flash returns BAD_PARAM and writes nothing; no byte outside [ptr, ptr+byteCount) ever changes; on success `flash'[ptr..ptr+byteCount]` is the source; the rows written are exactly the overlapping ones, in order; a failure is the masked status of the last row write, and the bytes from that row on are unchanged |
| Ble.UpdateNotificationCccdAttribute | SmartMop.cydsn/BLEApplications.c:205-225 | when an update is pending it clears the flag and writes {enabled, 0x00} to the CCCD; otherwise it does nothing; afterwards no update is pending |
| Ble.CccdUpdateIsIdempotent | SmartMop.cydsn/BLEApplications.c:207-209 | a second CCCD update right after the first changes nothing and calls nothing |
| Ble.UpdateConnectionParameters | SmartMop.cydsn/BLEApplications.c:242-250 | when connected and an update is required, it sends one request on the connection's device handle and clears "required"; otherwise it does nothing |
| Ble.SendNotification | SmartMop.cydsn/BLEApplications.c:177-189 | the argument reaches the uint8 parameter as its value modulo 256 and is sent as a one-byte notification; an argument in 0..255 is sent unchanged |
| Ble.HandleEvent | SmartMop.cydsn/BLEApplications.c:83-160 | stack-on, advertising, GAP-disconnect and unknown events change nothing; busy status stores the byte; GATT connect sets connected and the handle; GATT disconnect clears connected and enabled, zeroes both levels, re-arms the parameter update and flushes the CCCD to {0,0}; a write to the CCCD handle sets enabled and marks an update pending; a write elsewhere changes no flag; every write is answered |
| Ble.AdvertisementNeverRequested | SmartMop.cydsn/BLEApplications.c:90-110 | no run of events and helpers ever changes the advertisement flag |
| Ble.ApplyKeepsCccdSynced | SmartMop.cydsn/BLEApplications.c:132-147 | every event and helper keeps the CCCD mirroring the enabled flag whenever no update is pending |
| Ble.RunKeepsCccdSynced | SmartMop.cydsn/BLEApplications.c:83-225 | from a synced state, the CCCD mirrors the enabled flag after any run |
| Ble.InitialIsSynced | SmartMop.cydsn/BLEApplications.c:48-54 | at reset: not connected, notifications off, no CCCD update pending, a parameter update required, and the CCCD in sync |
| Ble.ConnectedFollowsLastConnectionEvent | SmartMop.cydsn/BLEApplications.c:115-123 | after a run, connected is TRUE if the last connect/disconnect event was a connect, FALSE if it was a disconnect, and unchanged if there was none |
| Ble.RunNeverNotifies | SmartMop.cydsn/BLEApplications.c:83-160 | no event and no helper ever sends a notification |
| Ble.RunKeepsOrResetsLevels | SmartMop.cydsn/BLEApplications.c:122-130 | the BLE side writes the level globals only to zero them, and zeroes both whenever the run contains a disconnect |
| Ble.ApplyRequestBudget | SmartMop.cydsn/BLEApplications.c:244-249 | one action sends a request only by spending the "required" flag, and only a disconnect sets the flag again |
| Ble.RequestsBoundedByDisconnects | SmartMop.cydsn/BLEApplications.c:244-249 | over any run, requests sent plus a still-armed flag are at most the initial arming plus the number of disconnects (each re-arms, line 128) |
| Ble.AtMostOneRequestWithoutDisconnect | SmartMop.cydsn/BLEApplications.c:242-250 | from reset, a run without a disconnect sends at most one parameter update request |
| MainLoop.Boot | SmartMop.cydsn/main.c:183-188 | the loop starts from the BLE reset state, with the first 12 table entries as offsets, levels in range and no calibration request |
| MainLoop.ProcessEvents | SmartMop.cydsn/main.c:87 | dispatching events sends no notification, and leaves each level global as it was or at 0 |
| MainLoop.NotifyOnChange | SmartMop.cydsn/main.c:89-107 | a notification of `levelPercent >> 8`, which is the whole percentage, is sent iff connected and notifying (both `TRUE ==` tests) and the level differs from the last one sent; the CCCD is synced iff connected; only previousLevelPercent changes, and it becomes the level exactly when both flags are TRUE |
| MainLoop.NoResendOfUnchangedLevel | SmartMop.cydsn/main.c:102-105 | a second transport step right after the first sends nothing |
| MainLoop.LlsPayloadAsWritten | LLS_CSD_12RX-042.cydsn/main.c:92 | the LLS build's payload is the 24.8 level modulo 256 |
| MainLoop.LlsPayload | LLS_CSD_12RX-042.cydsn/main.c:92 | the corrected payload is the whole percentage, at most 100, as the SmartMop build sends it |
| MainLoop.LlsPayloadAsWrittenMisreports | LLS_CSD_12RX-042.cydsn/main.c:92 | as written, a full tank notifies 0 instead of 100, and one wet end electrode notifies 139 instead of 4 |
| MainLoop.NotifyAlways | LLS_CSD_12RX-042.cydsn/main.c:79-94 | the LLS build notifies iff connected and notifying, with no change check; as written the byte is the 24.8 level modulo 256 (line 92 passes it unshifted), corrected it is the whole percentage; the CCCD is synced iff connected; no flag changes |
| MainLoop.SmartMopTransport | SmartMop.cydsn/main.c:87-108 | the event effects followed by the notify-on-change step: the same notification and previousLevelPercent as the step alone, and only stack calls and CCCD syncs |
| MainLoop.LlsTransport | LLS_CSD_12RX-042.cydsn/main.c:77-94 | the event effects followed by the unconditional notify: one notification iff connected and notifying, carrying the build's payload (the low byte of the 24.8 level as written), and no flag changes |
| MainLoop.SmartMopScanOutputs | SmartMop.cydsn/main.c:113-168 | a finished scan gives exactly [StartScan, ProcessUprobe]; a busy one gives nothing at all; this build never stores a calibration or runs the UART task |
| MainLoop.SmartMopPass | SmartMop.cydsn/main.c:89-168 | a pass never changes the offsets or calFlag; it notifies exactly as the transport step decides; the level becomes the scanned one iff the scan had finished |
| MainLoop.LlsScanOutputs | LLS_CSD_12RX-042.cydsn/main.c:99-159 | a finished scan gives exactly [StartScan, StoreCalibration?, ProcessUprobe, ProcessUart], with StoreCalibration iff one is requested; a busy one gives nothing at all |
| MainLoop.LlsPass | LLS_CSD_12RX-042.cydsn/main.c:79-159 | the pass notifies iff connected and notifying, with the build's payload (as written, the 24.8 level modulo 256); if the scan has finished and calFlag is TRUE, it clears calFlag and uses the stored offsets, and otherwise keeps both; a write to calFlag from outside the loop during the pass is what the flag holds afterwards; the level becomes the scanned one iff the scan had finished |
| MainLoop.SmartMopIteration | SmartMop.cydsn/main.c:85-170 | after a finished scan the level is the estimator's percentage for the raw counts and offsets; both level globals stay within [0, 25600] |
| MainLoop.LlsIteration | LLS_CSD_12RX-042.cydsn/main.c:75-161 | for either build, after a finished scan the level is the estimator's percentage with the offsets the pass leaves, a new calibration included; both level globals stay within [0, 25600] |
| MainLoop.SmartMopPassOrder | SmartMop.cydsn/main.c:113-168 | a pass starts a scan iff the last one had finished, and then ends with StartScan followed by ProcessUprobe; a busy pass does not run the uProbe task; it never stores a calibration or runs the UART task |
| MainLoop.LlsPassRestartsScan | LLS_CSD_12RX-042.cydsn/main.c:99-159 | an LLS pass starts a scan iff the previous one had finished; a busy pass runs none of StoreCalibration, ProcessUprobe and ProcessUart |
| MainLoop.LlsPassOrder | LLS_CSD_12RX-042.cydsn/main.c:99-159 | a finished LLS pass ends with StartScan, then StoreCalibration (only when calFlag is TRUE), then ProcessUprobe, then ProcessUart |
| MainLoop.LlsPassStoresOnce | LLS_CSD_12RX-042.cydsn/main.c:111-116 | a pass calls StoreCalibration exactly once when calFlag is TRUE and the scan has finished, and never otherwise |
| MainLoop.VariantsAgreeOnLevel | LLS_CSD_12RX-042.cydsn/main.c:118-153 | with no calibration request, both builds reach the same level and keep the same offsets after the same events and scan |
| MainLoop.CalibrationStoredOnce | LLS_CSD_12RX-042.cydsn/main.c:112-157 | a calibration request is served once: the pass that stores it calls StoreCalibration once; the next pass calls it again (once) iff something outside the loop wrote TRUE to calFlag during the storing pass and the next scan has finished, and otherwise zero times |
| MainLoop.PassReportsPercentages | SmartMop.cydsn/main.c:102-105 | a SmartMop pass whose events left the level within [0, 25600] notifies only bytes at most 100 |
| MainLoop.IterationReportsPercentages | SmartMop.cydsn/main.c:89-162 | from levels in range, every byte a SmartMop pass notifies is at most 100 |
| MainLoop.LlsPassReportsPercentages | LLS_CSD_12RX-042.cydsn/main.c:92 | with the corrected payload, an LLS pass whose events left the level in range notifies only bytes at most 100 |
| MainLoop.LlsIterationReportsPercentages | LLS_CSD_12RX-042.cydsn/main.c:79-153 | with the corrected payload, every byte an LLS pass notifies is at most 100 |
| MainLoop.LlsPassNotifiesAbove100 | LLS_CSD_12RX-042.cydsn/main.c:92 | as written, a connected, notifying LLS pass at one wet end electrode's level (1163) sends 139, where the corrected build sends 4 |
| MainLoop.LlsAsWrittenPassNotifiesAbove100 | LLS_CSD_12RX-042.cydsn/main.c:75-161 | the same for a whole LLS pass without BLE events: as written it notifies [139], corrected [4] |
| MainLoop.SmartMopRun | SmartMop.cydsn/main.c:85-170 | any number of passes of the endless loop keep the offsets well formed and both level globals within [0, 25600] |
| MainLoop.LlsRun | LLS_CSD_12RX-042.cydsn/main.c:75-161 | any number of LLS passes keep the offsets well formed and both level globals within [0, 25600] |
| MainLoop.PassStoresNothingUnasked | LLS_CSD_12RX-042.cydsn/main.c:112-115 | an LLS pass that finds calFlag clear, with no outside write, calls StoreCalibration zero times and keeps the offsets and calFlag |
| MainLoop.IterationStoresNothingUnasked | LLS_CSD_12RX-042.cydsn/main.c:75-161 | the same for a whole LLS pass, events and scan included |
| MainLoop.NoCalibrationWithoutRequest | LLS_CSD_12RX-042.cydsn/main.c:75-161 | the loop never raises calFlag itself: over any run with calFlag clear and no outside write, StoreCalibration is never called and the offsets and the flag never change |
| MainLoop.BootedLlsCalibratesOnlyOnRequest | LLS_CSD_12RX-042.cydsn/main.c:64 | from boot (calFlag FALSE), a run without outside writes to calFlag never stores a calibration and keeps the booted offsets |
| MainLoop.SmartMopReportsPercentages | SmartMop.cydsn/main.c:85-170 | over any number of passes from levels in range, whatever the BLE events and scans, every notified byte is at most 100 |
| MainLoop.BootedSmartMopReportsPercentages | SmartMop.cydsn/main.c:83-170 | from boot with the SmartMop table, every byte the loop ever notifies is at most 100 |

## Left out

- `InitializeSystem` apart from the offset copy is not modelled: BMI270 set-up over I2C, the CapSense, BLE, UART and PrISM starts, `InitialUartMessage`, and the LED pins. It is hardware bring-up with no logic to verify. `common_bmi270.c`, the LED/PrISM handling and the interrupt handler are left out for the same reason.
- `ProcessUprobe`, `StoreCalibration` and `ProcessUart` appear only as recorded outputs. The first pushes tuning values into hardware registers; the bodies of the others are not part of this model. The offsets that `StoreCalibration` leaves behind are an input of the LLS pass.
- MainLoop.LlsPass: `calFlag` is shared with the interface module (interface.c:68). Only `ProcessUart`, whose body is not part of this model, or the uProbe host writing globals over the debug interface can raise it. Such a write is an input of the pass (`calWrite`) that takes effect after the loop's calibration test. A write between the test at LLS main.c:112 and the clear at :114 is a race and is not modelled.
- The calls into vendor components are oracles or recorded effects: `CyBle_*`, `CapSense_CSD_*`, `CySysFlashWriteRow` and the flash byte read.
- Interrupts and callback concurrency are left out. Each BLE event is one atomic step, and all pending events are dispatched at the top of a pass.
- Operating states, sleep, and the wake timer are left out. Only unused constants exist for them.
- The multi-array branch of `Em_EEPROM_Write` (interface.c:165-171) is left out. The model is the single-array case with flash based at address 0, because the code uses the absolute pointer as its flash offset.
- EmEeprom.Write: requires `ptr + byteCount < 2^32`. The uint32 wrap-around of the bounds check, which would let a range wrapping past 2^32 through, is not modelled.
- EmEeprom.WriteRow: the effect of a failed `CySysFlashWriteRow` on the row is not documented. The model assumes the row keeps its old contents.
- EmEeprom.Write: the guard is a strict `<`, so a range ending exactly at the last flash byte is refused with BAD_PARAM. The model keeps this as written.
- MainLoop.NotifyOnChange: `deviceConnected` and `sendCapSenseSliderNotifications` are inputs of the pass. Their link to the BLE flags `DeviceConnected` and `CapSenseNotificationEnabled` lives in headers that are not part of this model. The same holds for `UpdateNotificationCCCD()`, which is recorded as an output rather than tied to `UpdateNotificationCCCDAttribute`.
- MainLoop.LlsTransport: the LLS build's own `BLEApplications.c` is not part of this model. The SmartMop one stands in for it, including the uint8 parameter of `SendCapSenseNotification`, so the LLS pass as written (`LlsBuild.AsWritten`) notifies the low byte of the 24.8 level. The LLS build has no `previousLevelPercent`, so the disconnect handler's reset of it has no effect there.
- MainLoop.LlsRun: in an LLS run the calibration values each pass would store are an input per pass (`cals`), because `StoreCalibration` is not modelled.
- The `Custom Profile` project's `interface.h` is not part of this model.

## Findings

| source | as written | input that shows it | evidently intended | confidence | as-written member | corrected member |
|---|---|---|---|---|---|---|
| LLS_CSD_12RX-042.cydsn/main.c:176-179 | the table `eepromEmptyOffset[]` is declared with one initialiser (line 56), but the load copies 12 entries from it | booting the LLS build: indices 1 to 11 read past the table | a 12-entry calibration table, as in the SmartMop build | high; not executed | Calibration.LoadOffsetsAsWritten, Calibration.LlsLoadReadsPastTable | Calibration.LoadOffsets |
| LLS_CSD_12RX-042.cydsn/main.c:92 | `SendCapSenseNotification(levelPercent)` passes the 24.8 level to a uint8 parameter, so only its low byte is sent | a full tank (levelPercent 25600) notifies 0; one wet end electrode (1163) notifies 139 | `levelPercent >> 8`, the whole percentage, as in SmartMop.cydsn/main.c:105 | low (the LLS build's own BLE file is not part of this model); not executed | MainLoop.LlsPayloadAsWritten, MainLoop.LlsAsWrittenPassNotifiesAbove100 | MainLoop.LlsPayload, MainLoop.LlsIterationReportsPercentages |
