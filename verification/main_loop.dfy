/** One pass of main()'s endless loop, in the SmartMop build and in the
    LLS_CSD_12RX-042 build: deliver the pending BLE events, mirror the CCCD
    and send the level while connected, and, when the capacitive scan has
    finished, restart it and turn the fresh raw counts into a level. The
    hardware reads are inputs and the calls into the vendor components are
    recorded as outputs. */
module MainLoop {
  import opened FixedPoint
  import opened Config
  import opened Estimator
  import opened Calibration
  import Ble

  /** What one pass does that is visible outside it, in order. */
  datatype Output =
    | Stack(effect: Ble.Effect)  // a BLE stack call, from the callback or SendCapSenseNotification
    | SyncCccd                   // UpdateNotificationCCCD()
    | StartScan                  // CapSense_CSD_ScanEnabledWidgets()
    | StoreCalibration           // StoreCalibration()
    | ProcessUprobe              // ProcessUprobe()
    | ProcessUart                // ProcessUart()

  /** The globals main() keeps between passes. The BLE record holds
      levelPercent and previousLevelPercent, which its disconnect handler
      also writes. */
  datatype Machine = Machine(link: Ble.Link, offsets: seq<int>, calFlag: byte)

  /** What one pass reads from outside. Only code outside the loop raises
      calFlag: ProcessUart, whose body is not part of this model, or the
      uProbe host writing the global over the debug interface. `calWrite`
      is such a write, taking effect after the loop's own calibration test;
      None when nothing outside touches the flag. */
  datatype Inputs = Inputs(
    events: seq<Ble.Event>,  // the events CyBle_ProcessEvents delivers, in order
    connected: byte,         // deviceConnected, as the loop reads it
    notifyOn: byte,          // sendCapSenseSliderNotifications, as the loop reads it
    busy: bool,              // CapSense_CSD_IsBusy()
    raw: seq<int>,           // CapSense_CSD_ReadSensorRaw(i) for each electrode
    calWrite: Ble.Option<byte>)  // a value written to calFlag from outside the loop during the pass

  /** The BLE state and outputs after the transport step. */
  datatype Sync = Sync(link: Ble.Link, outputs: seq<Output>)

  /** The state and outputs after a whole pass. */
  datatype Cycle = Cycle(machine: Machine, outputs: seq<Output>)

  predicate WellFormed(m: Machine)
  {
    |m.offsets| == NumSensors
  }

  predicate ValidInputs(io: Inputs)
  {
    |io.raw| == NumSensors
  }

  /** Both level globals hold values the estimator can produce. */
  predicate LevelInRange(m: Machine)
  {
    && 0 <= m.link.levelPercent <= FullPercent
    && 0 <= m.link.previousLevelPercent <= FullPercent
  }

  /** The state main() enters its loop with: the BLE reset state, the
      offsets copied from the first NumSensors entries of the table, and no
      calibration requested. */
  function Boot(table: seq<int>): (m: Machine)
    requires NumSensors <= |table|
    ensures WellFormed(m) && LevelInRange(m)
    ensures m.link == Ble.Initial && m.calFlag == False
    ensures forall i :: 0 <= i < NumSensors ==> m.offsets[i] == table[i]
  {
    Machine(Ble.Initial, LoadOffsets(table), False)
  }

  /** The BLE stack calls of the callback as outputs. */
  function Lift(effects: seq<Ble.Effect>): (outs: seq<Output>)
    ensures |outs| == |effects|
    ensures forall i :: 0 <= i < |effects| ==> outs[i] == Stack(effects[i])
  {
    seq(|effects|, i requires 0 <= i < |effects| => Stack(effects[i]))
  }

  /** The payloads of the notifications among `outs`, in order. */
  function Notifications(outs: seq<Output>): (payloads: seq<byte>)
    ensures |payloads| <= |outs|
    decreases |outs|
  {
    if outs == [] then []
    else
      var head := if outs[0].Stack? && outs[0].effect.Notification? then [outs[0].effect.payload] else [];
      head + Notifications(outs[1..])
  }

  lemma {:induction false} NotificationsAppend(a: seq<Output>, b: seq<Output>)
    ensures Notifications(a + b) == Notifications(a) + Notifications(b)
    decreases |a|
  {
    if a == [] {
      assert a + b == b;
    } else {
      assert (a + b)[1..] == a[1..] + b;
      NotificationsAppend(a[1..], b);
    }
  }

  /** Outputs that are not notifications contribute no payload. */
  lemma {:induction false} NoNotificationsAmong(outs: seq<Output>)
    requires forall i :: 0 <= i < |outs| ==> !(outs[i].Stack? && outs[i].effect.Notification?)
    ensures Notifications(outs) == []
    decreases |outs|
  {
    if outs != [] {
      NoNotificationsAmong(outs[1..]);
    }
  }

  /** A CCCD sync followed by one notification carries exactly that
      notification's payload: the argument as a uint8. */
  lemma OneNotification(arg: int)
    ensures Notifications([SyncCccd, Stack(Ble.SendNotification(arg))]) == [ToUint8(arg)]
    ensures Notifications([SyncCccd]) == []
  {
    NotificationsAppend([SyncCccd], [Stack(Ble.SendNotification(arg))]);
  }

  /** CyBle_ProcessEvents: every pending event through the callback, in
      order. The callback never sends a notification. */
  function ProcessEvents(link: Ble.Link, events: seq<Ble.Event>, cccdHandle: nat): (r: Ble.Step)
    ensures NoNotification(r.effects)
    ensures r.link.levelPercent in {link.levelPercent, 0}
    ensures r.link.previousLevelPercent in {link.previousLevelPercent, 0}
  {
    var actions := seq(|events|, i requires 0 <= i < |events| => Ble.Deliver(events[i]));
    Ble.RunNeverNotifies(link, actions, cccdHandle);
    Ble.RunKeepsOrResetsLevels(link, actions, cccdHandle);
    Ble.Run(link, actions, cccdHandle)
  }

  /** None of `effects` is a notification. */
  predicate NoNotification(effects: seq<Ble.Effect>)
  {
    forall i :: 0 <= i < |effects| ==> !effects[i].Notification?
  }

  /** The transport step of the SmartMop loop: while connected, mirror the
      CCCD; while notifications are also on, send the level byte if the
      level differs from the last one sent, and remember it as sent. */
  function NotifyOnChange(s: Ble.Link, connected: byte, notifyOn: byte): (r: Sync)
    ensures Notifications(r.outputs) ==
              if IsTrue(connected) && IsTrue(notifyOn) && s.levelPercent != s.previousLevelPercent
              then [ReportedPercent(s.levelPercent)] else []
    ensures IsTrue(connected) <==> SyncCccd in r.outputs
    ensures r.link == s.(previousLevelPercent := r.link.previousLevelPercent)
    ensures r.link.previousLevelPercent ==
              if IsTrue(connected) && IsTrue(notifyOn) then s.levelPercent else s.previousLevelPercent
  {
    OneNotification(Asr8(s.levelPercent));
    if !IsTrue(connected) then Sync(s, [])
    else if IsTrue(notifyOn) && s.levelPercent != s.previousLevelPercent then
      Sync(s.(previousLevelPercent := s.levelPercent),
           [SyncCccd, Stack(Ble.SendNotification(Asr8(s.levelPercent)))])
    else Sync(s, [SyncCccd])
  }

  /** An unchanged level is never sent twice: a second transport step right
      after the first sends nothing. */
  lemma NoResendOfUnchangedLevel(s: Ble.Link, connected: byte, notifyOn: byte)
    ensures Notifications(NotifyOnChange(NotifyOnChange(s, connected, notifyOn).link, connected, notifyOn).outputs) == []
  {
  }

  /** The notification payload of the LLS build as written: the 24.8 level
      passed unshifted to a uint8 parameter, so only its low byte is sent. */
  function LlsPayloadAsWritten(levelPercent: int): (b: byte)
    ensures (levelPercent - b) % 0x100 == 0
  {
    ToUint8(levelPercent)
  }

  /** The LLS payload as the SmartMop build sends it: the whole percentage. */
  function LlsPayload(levelPercent: int): (b: byte)
    ensures 0 <= levelPercent <= FullPercent ==> b <= 100 && b * 256 <= levelPercent < b * 256 + 256
  {
    ReportedPercent(levelPercent)
  }

  /** A full tank and a tank with one end electrode wet, as the LLS build
      sends them: the full tank reads 0 and the nearly empty one 139. */
  lemma LlsPayloadAsWrittenMisreports()
    ensures LlsPayloadAsWritten(FullPercent) == 0 && LlsPayload(FullPercent) == 100
    ensures LlsPayloadAsWritten(LevelPercent(LevelMm(1))) == 139 && LlsPayload(LevelPercent(LevelMm(1))) == 4
  {
    LevelOfWeight(1);
    assert LevelMm(1) == 1780;
    assert LevelPercent(1780) == 1163;
  }

  /** The LLS build as written, passing the 24.8 level itself to
      SendCapSenseNotification, and corrected, passing `levelPercent >> 8`
      as the SmartMop build does. */
  datatype LlsBuild = AsWritten | Corrected

  /** The argument an LLS build passes to SendCapSenseNotification. */
  function LlsArgument(build: LlsBuild, levelPercent: int): int
  {
    match build
    case AsWritten => levelPercent
    case Corrected => Asr8(levelPercent)
  }

  /** The byte an LLS build's notification should carry: the low byte of
      the 24.8 level as written, the whole percentage when corrected. */
  function LlsSent(build: LlsBuild, levelPercent: int): byte
  {
    match build
    case AsWritten => LlsPayloadAsWritten(levelPercent)
    case Corrected => LlsPayload(levelPercent)
  }

  /** The transport step of the LLS build: the same CCCD mirror, but the
      level is sent on every pass with notifications on, changed or not. */
  function NotifyAlways(s: Ble.Link, connected: byte, notifyOn: byte, build: LlsBuild): (r: Sync)
    ensures Notifications(r.outputs) ==
              if IsTrue(connected) && IsTrue(notifyOn) then [LlsSent(build, s.levelPercent)] else []
    ensures IsTrue(connected) <==> SyncCccd in r.outputs
    ensures r.link == s
  {
    var arg := LlsArgument(build, s.levelPercent);
    OneNotification(arg);
    if !IsTrue(connected) then Sync(s, [])
    else if IsTrue(notifyOn) then Sync(s, [SyncCccd, Stack(Ble.SendNotification(arg))])
    else Sync(s, [SyncCccd])
  }

  /** The outputs of the transport half of a pass are stack calls and CCCD
      mirror updates; appending scan outputs adds no notification. */
  lemma ScanOutputs(before: seq<Output>, tail: seq<Output>)
    requires forall i :: 0 <= i < |before| ==> before[i].Stack? || before[i] == SyncCccd
    requires forall i :: 0 <= i < |tail| ==> !tail[i].Stack?
    ensures Notifications(before + tail) == Notifications(before)
    ensures StartScan in before + tail <==> StartScan in tail
    ensures StoreCalibration in before + tail <==> StoreCalibration in tail
    ensures ProcessUart in before + tail <==> ProcessUart in tail
    ensures ProcessUprobe in before + tail <==> ProcessUprobe in tail
  {
    NoNotificationsAmong(tail);
    NotificationsAppend(before, tail);
    assert StartScan !in before && StoreCalibration !in before && ProcessUart !in before && ProcessUprobe !in before;
  }

  /** A sequence ends with whatever was appended to it. */
  lemma SuffixOf(before: seq<Output>, tail: seq<Output>)
    ensures (before + tail)[|before + tail| - |tail|..] == tail
  {
    assert (before + tail)[|before|..] == tail;
  }

  /** The transport half of a pass never stores a calibration, so a pass
      stores as often as its scan half does. */
  lemma ScanOutputsCount(before: seq<Output>, tail: seq<Output>)
    requires forall i :: 0 <= i < |before| ==> before[i].Stack? || before[i] == SyncCccd
    ensures multiset(before + tail)[StoreCalibration] == multiset(tail)[StoreCalibration]
  {
    assert StoreCalibration !in before;
    assert multiset(before)[StoreCalibration] == 0;
  }

  /** levelPercent computed from a finished scan with the scale table of both
      builds. */
  function ScanLevel(raw: seq<int>, offsets: seq<int>): (pct: nat)
    requires |raw| == NumSensors && |offsets| == NumSensors
    ensures pct <= FullPercent
  {
    Estimate(raw, offsets, SensorScale).levelPercent
  }

  /** The transport half of a SmartMop pass, after the events `ev`
      dispatched: their stack calls, then the notify-on-change step. */
  function SmartMopTransport(ev: Ble.Step, io: Inputs): (r: Sync)
    requires NoNotification(ev.effects)
    ensures Notifications(r.outputs) ==
              if IsTrue(io.connected) && IsTrue(io.notifyOn) && ev.link.levelPercent != ev.link.previousLevelPercent
              then [ReportedPercent(ev.link.levelPercent)] else []
    ensures r.link == ev.link.(previousLevelPercent := r.link.previousLevelPercent)
    ensures r.link.previousLevelPercent ==
              if IsTrue(io.connected) && IsTrue(io.notifyOn) then ev.link.levelPercent else ev.link.previousLevelPercent
    ensures forall i :: 0 <= i < |r.outputs| ==> r.outputs[i].Stack? || r.outputs[i] == SyncCccd
  {
    var sync := NotifyOnChange(ev.link, io.connected, io.notifyOn);
    NoNotificationsAmong(Lift(ev.effects));
    NotificationsAppend(Lift(ev.effects), sync.outputs);
    Sync(sync.link, Lift(ev.effects) + sync.outputs)
  }

  /** The transport half of an LLS pass, after the events `ev` dispatched:
      their stack calls, then the unconditional notify. */
  function LlsTransport(ev: Ble.Step, io: Inputs, build: LlsBuild): (r: Sync)
    requires NoNotification(ev.effects)
    ensures Notifications(r.outputs) ==
              if IsTrue(io.connected) && IsTrue(io.notifyOn) then [LlsSent(build, ev.link.levelPercent)] else []
    ensures r.link == ev.link
    ensures forall i :: 0 <= i < |r.outputs| ==> r.outputs[i].Stack? || r.outputs[i] == SyncCccd
  {
    var sync := NotifyAlways(ev.link, io.connected, io.notifyOn, build);
    NoNotificationsAmong(Lift(ev.effects));
    NotificationsAppend(Lift(ev.effects), sync.outputs);
    Sync(sync.link, Lift(ev.effects) + sync.outputs)
  }

  /** The outputs of the scan half of a SmartMop pass. */
  function SmartMopScanOutputs(busy: bool): (outs: seq<Output>)
    ensures forall i :: 0 <= i < |outs| ==> !outs[i].Stack?
    ensures busy <==> StartScan !in outs
    ensures StoreCalibration !in outs && ProcessUart !in outs
    ensures !busy ==> outs == [StartScan, ProcessUprobe]
    ensures busy ==> outs == []
  {
    if busy then [] else [StartScan, ProcessUprobe]
  }

  /** A SmartMop pass after CyBle_ProcessEvents has dispatched `ev`: the
      notify-on-change step, then, if the scan has finished, the level
      `scanned` the estimator computed from its raw counts. */
  function SmartMopPass(m: Machine, ev: Ble.Step, io: Inputs, scanned: nat): (r: Cycle)
    requires WellFormed(m) && ValidInputs(io) && NoNotification(ev.effects)
    ensures WellFormed(r.machine) && r.machine.offsets == m.offsets && r.machine.calFlag == m.calFlag
    ensures Notifications(r.outputs) ==
              if IsTrue(io.connected) && IsTrue(io.notifyOn) && ev.link.levelPercent != ev.link.previousLevelPercent
              then [ReportedPercent(ev.link.levelPercent)] else []
    ensures r.machine.link.levelPercent == if io.busy then ev.link.levelPercent else scanned
    ensures r.machine.link.previousLevelPercent ==
              if IsTrue(io.connected) && IsTrue(io.notifyOn) then ev.link.levelPercent else ev.link.previousLevelPercent
  {
    var front := SmartMopTransport(ev, io);
    var tail := SmartMopScanOutputs(io.busy);
    ScanOutputs(front.outputs, tail);
    var level := if io.busy then front.link.levelPercent else scanned;
    Cycle(m.(link := front.link.(levelPercent := level)), front.outputs + tail)
  }

  /** The outputs of the scan half of an LLS pass: nothing while the scan is
      busy; otherwise restart the scan, store a requested calibration, report
      and run the UART task. */
  function LlsScanOutputs(busy: bool, store: bool): (outs: seq<Output>)
    ensures forall i :: 0 <= i < |outs| ==> !outs[i].Stack?
    ensures busy <==> StartScan !in outs
    ensures !busy && store ==> outs == [StartScan, StoreCalibration, ProcessUprobe, ProcessUart]
    ensures !busy && !store ==> outs == [StartScan, ProcessUprobe, ProcessUart]
    ensures busy ==> outs == []
  {
    if busy then [] else [StartScan] + (if store then [StoreCalibration] else []) + [ProcessUprobe, ProcessUart]
  }

  /** Whether this LLS pass stores a calibration: one was requested and the
      scan has finished. */
  predicate StoresCalibration(m: Machine, busy: bool)
  {
    !busy && IsTrue(m.calFlag)
  }

  /** The offsets the scan half of an LLS pass estimates with: the freshly
      stored calibration when it stores one, else the current offsets. */
  function OffsetsInUse(m: Machine, busy: bool, calibrated: seq<int>): seq<int>
  {
    if StoresCalibration(m, busy) then calibrated else m.offsets
  }

  /** An LLS_CSD_12RX-042 pass after CyBle_ProcessEvents has dispatched `ev`,
      with `calibrated` the offsets StoreCalibration leaves behind and
      `scanned` the level the estimator computes with the offsets in use. A
      calibration request is honoured only once the scan has finished: the
      flag is cleared and the stored offsets become the working ones; while
      the scan is busy the request waits. A write to calFlag from outside
      the loop during the pass overrides what the loop left there. */
  function LlsPass(m: Machine, ev: Ble.Step, io: Inputs, calibrated: seq<int>, scanned: nat, build: LlsBuild): (r: Cycle)
    requires WellFormed(m) && ValidInputs(io) && NoNotification(ev.effects) && |calibrated| == NumSensors
    ensures WellFormed(r.machine)
    ensures Notifications(r.outputs) ==
              if IsTrue(io.connected) && IsTrue(io.notifyOn) then [LlsSent(build, ev.link.levelPercent)] else []
    ensures r.machine.calFlag ==
              if io.calWrite.Some? then io.calWrite.value
              else if StoresCalibration(m, io.busy) then False else m.calFlag
    ensures r.machine.offsets == if StoresCalibration(m, io.busy) then calibrated else m.offsets
    ensures r.machine.link.levelPercent == if io.busy then ev.link.levelPercent else scanned
    ensures r.machine.link.previousLevelPercent == ev.link.previousLevelPercent
  {
    var front := LlsTransport(ev, io, build);
    var store := StoresCalibration(m, io.busy);
    var tail := LlsScanOutputs(io.busy, IsTrue(m.calFlag));
    ScanOutputs(front.outputs, tail);
    var level := if io.busy then front.link.levelPercent else scanned;
    var flag := match io.calWrite case Some(v) => v case None => if store then False else m.calFlag;
    Cycle(Machine(front.link.(levelPercent := level), OffsetsInUse(m, io.busy, calibrated), flag),
          front.outputs + tail)
  }

  /** One whole pass of the SmartMop loop. A finished scan sets the level
      from its raw counts and the offsets; both level globals stay in the
      range the estimator produces. */
  function SmartMopIteration(m: Machine, io: Inputs, cccdHandle: nat): (r: Cycle)
    requires WellFormed(m) && ValidInputs(io)
    ensures WellFormed(r.machine)
    ensures !io.busy ==> r.machine.link.levelPercent == ScanLevel(io.raw, m.offsets)
    ensures LevelInRange(m) ==> LevelInRange(r.machine)
  {
    SmartMopPass(m, ProcessEvents(m.link, io.events, cccdHandle), io, ScanLevel(io.raw, m.offsets))
  }

  /** One whole pass of the LLS_CSD_12RX-042 loop. A finished scan sets the
      level from its raw counts and the offsets the pass leaves, freshly
      stored ones included; both level globals stay in range. */
  function LlsIteration(m: Machine, io: Inputs, calibrated: seq<int>, cccdHandle: nat, build: LlsBuild): (r: Cycle)
    requires WellFormed(m) && ValidInputs(io) && |calibrated| == NumSensors
    ensures WellFormed(r.machine)
    ensures !io.busy ==> r.machine.link.levelPercent == ScanLevel(io.raw, r.machine.offsets)
    ensures LevelInRange(m) ==> LevelInRange(r.machine)
  {
    LlsPass(m, ProcessEvents(m.link, io.events, cccdHandle), io, calibrated,
            ScanLevel(io.raw, OffsetsInUse(m, io.busy, calibrated)), build)
  }

  /** The order of a SmartMop pass: only a finished scan restarts the scan
      and reports, in that order, at the end of the pass; this build never
      stores a calibration or runs the UART task. */
  lemma SmartMopPassOrder(m: Machine, ev: Ble.Step, io: Inputs, scanned: nat)
    requires WellFormed(m) && ValidInputs(io) && NoNotification(ev.effects)
    ensures var outs := SmartMopPass(m, ev, io, scanned).outputs;
            && (io.busy <==> StartScan !in outs)
            && (!io.busy ==> |outs| >= 2 && outs[|outs| - 2..] == [StartScan, ProcessUprobe])
            && StoreCalibration !in outs && ProcessUart !in outs
            && (io.busy ==> ProcessUprobe !in outs)
  {
    var front := SmartMopTransport(ev, io);
    var tail := SmartMopScanOutputs(io.busy);
    assert SmartMopPass(m, ev, io, scanned).outputs == front.outputs + tail;
    ScanOutputs(front.outputs, tail);
    SuffixOf(front.outputs, tail);
  }

  /** The outputs of an LLS pass: its transport half, then its scan half. */
  lemma LlsPassOutputs(m: Machine, ev: Ble.Step, io: Inputs, calibrated: seq<int>, scanned: nat, build: LlsBuild)
    requires WellFormed(m) && ValidInputs(io) && NoNotification(ev.effects) && |calibrated| == NumSensors
    ensures LlsPass(m, ev, io, calibrated, scanned, build).outputs
         == LlsTransport(ev, io, build).outputs + LlsScanOutputs(io.busy, IsTrue(m.calFlag))
  {
  }

  /** An LLS pass restarts the scan exactly when the scan has finished;
      a busy pass runs none of the report tasks. */
  lemma LlsPassRestartsScan(m: Machine, ev: Ble.Step, io: Inputs, calibrated: seq<int>, scanned: nat, build: LlsBuild)
    requires WellFormed(m) && ValidInputs(io) && NoNotification(ev.effects) && |calibrated| == NumSensors
    ensures var outs := LlsPass(m, ev, io, calibrated, scanned, build).outputs;
            && (io.busy <==> StartScan !in outs)
            && (io.busy ==> StoreCalibration !in outs && ProcessUprobe !in outs && ProcessUart !in outs)
  {
    LlsPassOutputs(m, ev, io, calibrated, scanned, build);
    ScanOutputs(LlsTransport(ev, io, build).outputs, LlsScanOutputs(io.busy, IsTrue(m.calFlag)));
  }

  /** The order of a finished LLS pass: it restarts the scan, stores a
      requested calibration, reports, and runs the UART task, in that order,
      at the end of the pass. */
  lemma LlsPassOrder(m: Machine, ev: Ble.Step, io: Inputs, calibrated: seq<int>, scanned: nat, build: LlsBuild)
    requires WellFormed(m) && ValidInputs(io) && NoNotification(ev.effects) && |calibrated| == NumSensors
    requires !io.busy
    ensures var outs := LlsPass(m, ev, io, calibrated, scanned, build).outputs;
            && (IsTrue(m.calFlag) ==>
                  |outs| >= 4 && outs[|outs| - 4..] == [StartScan, StoreCalibration, ProcessUprobe, ProcessUart])
            && (!IsTrue(m.calFlag) ==>
                  |outs| >= 3 && outs[|outs| - 3..] == [StartScan, ProcessUprobe, ProcessUart])
  {
    LlsPassOutputs(m, ev, io, calibrated, scanned, build);
    SuffixOf(LlsTransport(ev, io, build).outputs, LlsScanOutputs(io.busy, IsTrue(m.calFlag)));
  }

  /** An LLS pass runs StoreCalibration once when it stores a calibration
      and never otherwise. */
  lemma LlsPassStoresOnce(m: Machine, ev: Ble.Step, io: Inputs, calibrated: seq<int>, scanned: nat, build: LlsBuild)
    requires WellFormed(m) && ValidInputs(io) && NoNotification(ev.effects) && |calibrated| == NumSensors
    ensures multiset(LlsPass(m, ev, io, calibrated, scanned, build).outputs)[StoreCalibration]
         == if StoresCalibration(m, io.busy) then 1 else 0
  {
    LlsPassOutputs(m, ev, io, calibrated, scanned, build);
    ScanOutputsCount(LlsTransport(ev, io, build).outputs, LlsScanOutputs(io.busy, IsTrue(m.calFlag)));
  }

  /** Without a calibration request the two builds leave the same level and
      the same offsets after the same events and scan. */
  lemma VariantsAgreeOnLevel(m: Machine, io: Inputs, calibrated: seq<int>, cccdHandle: nat, build: LlsBuild)
    requires WellFormed(m) && ValidInputs(io) && |calibrated| == NumSensors
    requires !IsTrue(m.calFlag)
    ensures SmartMopIteration(m, io, cccdHandle).machine.link.levelPercent
         == LlsIteration(m, io, calibrated, cccdHandle, build).machine.link.levelPercent
    ensures SmartMopIteration(m, io, cccdHandle).machine.offsets
         == LlsIteration(m, io, calibrated, cccdHandle, build).machine.offsets
  {
    var ev := ProcessEvents(m.link, io.events, cccdHandle);
    var scanned := ScanLevel(io.raw, m.offsets);
    assert OffsetsInUse(m, io.busy, calibrated) == m.offsets;
    assert SmartMopIteration(m, io, cccdHandle) == SmartMopPass(m, ev, io, scanned);
    assert LlsIteration(m, io, calibrated, cccdHandle, build) == LlsPass(m, ev, io, calibrated, scanned, build);
  }

  /** A calibration request is served once: the pass after the one that
      stored the calibration stores again only if something outside the
      loop raised calFlag during the storing pass, and then only once its
      scan has finished. */
  lemma CalibrationStoredOnce(m: Machine, first: Inputs, second: Inputs, calibrated: seq<int>, cccdHandle: nat,
                              build: LlsBuild)
    requires WellFormed(m) && ValidInputs(first) && ValidInputs(second) && |calibrated| == NumSensors
    requires IsTrue(m.calFlag) && !first.busy
    ensures var r := LlsIteration(m, first, calibrated, cccdHandle, build);
            multiset(r.outputs)[StoreCalibration] == 1
            && multiset(LlsIteration(r.machine, second, calibrated, cccdHandle, build).outputs)[StoreCalibration]
               == if !second.busy && first.calWrite.Some? && IsTrue(first.calWrite.value) then 1 else 0
  {
    var ev := ProcessEvents(m.link, first.events, cccdHandle);
    var scanned := ScanLevel(first.raw, OffsetsInUse(m, first.busy, calibrated));
    var r := LlsIteration(m, first, calibrated, cccdHandle, build);
    assert r == LlsPass(m, ev, first, calibrated, scanned, build);
    LlsPassStoresOnce(m, ev, first, calibrated, scanned, build);
    var m' := r.machine;
    var ev' := ProcessEvents(m'.link, second.events, cccdHandle);
    var scanned' := ScanLevel(second.raw, OffsetsInUse(m', second.busy, calibrated));
    assert LlsIteration(m', second, calibrated, cccdHandle, build) == LlsPass(m', ev', second, calibrated, scanned', build);
    LlsPassStoresOnce(m', ev', second, calibrated, scanned', build);
  }

  /** Every level byte notified among `outs` is a whole percentage. */
  predicate PercentPayloads(outs: seq<Output>)
  {
    forall k :: 0 <= k < |Notifications(outs)| ==> Notifications(outs)[k] <= 100
  }

  lemma PercentPayloadsAppend(a: seq<Output>, b: seq<Output>)
    requires PercentPayloads(a) && PercentPayloads(b)
    ensures PercentPayloads(a + b)
  {
    NotificationsAppend(a, b);
  }

  /** A SmartMop pass whose dispatched events left the level in range
      notifies percentages only. */
  lemma PassReportsPercentages(m: Machine, ev: Ble.Step, io: Inputs, scanned: nat)
    requires WellFormed(m) && ValidInputs(io) && NoNotification(ev.effects)
    requires 0 <= ev.link.levelPercent <= FullPercent
    ensures PercentPayloads(SmartMopPass(m, ev, io, scanned).outputs)
  {
    assert ReportedPercent(ev.link.levelPercent) <= 100;
  }

  /** One SmartMop pass from a state in range notifies percentages only. */
  lemma IterationReportsPercentages(m: Machine, io: Inputs, cccdHandle: nat)
    requires WellFormed(m) && LevelInRange(m) && ValidInputs(io)
    ensures PercentPayloads(SmartMopIteration(m, io, cccdHandle).outputs)
  {
    var ev := ProcessEvents(m.link, io.events, cccdHandle);
    var scanned := ScanLevel(io.raw, m.offsets);
    assert SmartMopIteration(m, io, cccdHandle) == SmartMopPass(m, ev, io, scanned);
    PassReportsPercentages(m, ev, io, scanned);
  }

  /** A corrected LLS pass whose dispatched events left the level in range
      notifies percentages only. */
  lemma LlsPassReportsPercentages(m: Machine, ev: Ble.Step, io: Inputs, calibrated: seq<int>, scanned: nat)
    requires WellFormed(m) && ValidInputs(io) && NoNotification(ev.effects) && |calibrated| == NumSensors
    requires 0 <= ev.link.levelPercent <= FullPercent
    ensures PercentPayloads(LlsPass(m, ev, io, calibrated, scanned, Corrected).outputs)
  {
    assert LlsSent(Corrected, ev.link.levelPercent) <= 100;
  }

  /** With the corrected payload, one LLS pass from a state in range
      notifies percentages only. */
  lemma LlsIterationReportsPercentages(m: Machine, io: Inputs, calibrated: seq<int>, cccdHandle: nat)
    requires WellFormed(m) && LevelInRange(m) && ValidInputs(io) && |calibrated| == NumSensors
    ensures PercentPayloads(LlsIteration(m, io, calibrated, cccdHandle, Corrected).outputs)
  {
    var ev := ProcessEvents(m.link, io.events, cccdHandle);
    var scanned := ScanLevel(io.raw, OffsetsInUse(m, io.busy, calibrated));
    assert LlsIteration(m, io, calibrated, cccdHandle, Corrected) == LlsPass(m, ev, io, calibrated, scanned, Corrected);
    LlsPassReportsPercentages(m, ev, io, calibrated, scanned);
  }

  /** As written, an LLS pass notifies bytes that are no percentage: when
      its events leave one end electrode's level (1163 in 24.8) and it is
      connected and notifying, it sends 139, where the corrected build
      sends 4. */
  lemma LlsPassNotifiesAbove100(m: Machine, ev: Ble.Step, io: Inputs, calibrated: seq<int>, scanned: nat)
    requires WellFormed(m) && ValidInputs(io) && NoNotification(ev.effects) && |calibrated| == NumSensors
    requires IsTrue(io.connected) && IsTrue(io.notifyOn)
    requires ev.link.levelPercent == LevelPercent(LevelMm(1))
    ensures Notifications(LlsPass(m, ev, io, calibrated, scanned, AsWritten).outputs) == [139]
    ensures Notifications(LlsPass(m, ev, io, calibrated, scanned, Corrected).outputs) == [4]
  {
    LlsPayloadAsWrittenMisreports();
  }

  /** The same from a whole pass without BLE events. */
  lemma LlsAsWrittenPassNotifiesAbove100(m: Machine, io: Inputs, calibrated: seq<int>, cccdHandle: nat)
    requires WellFormed(m) && ValidInputs(io) && |calibrated| == NumSensors
    requires io.events == [] && IsTrue(io.connected) && IsTrue(io.notifyOn)
    requires m.link.levelPercent == LevelPercent(LevelMm(1))
    ensures Notifications(LlsIteration(m, io, calibrated, cccdHandle, AsWritten).outputs) == [139]
    ensures Notifications(LlsIteration(m, io, calibrated, cccdHandle, Corrected).outputs) == [4]
  {
    var ev := ProcessEvents(m.link, io.events, cccdHandle);
    assert ev.link == m.link;
    var scanned := ScanLevel(io.raw, OffsetsInUse(m, io.busy, calibrated));
    assert LlsIteration(m, io, calibrated, cccdHandle, AsWritten) == LlsPass(m, ev, io, calibrated, scanned, AsWritten);
    assert LlsIteration(m, io, calibrated, cccdHandle, Corrected) == LlsPass(m, ev, io, calibrated, scanned, Corrected);
    LlsPassNotifiesAbove100(m, ev, io, calibrated, scanned);
  }

  /** Every pass's inputs are well formed. */
  predicate AllValid(ios: seq<Inputs>)
  {
    ios == [] || (ValidInputs(ios[0]) && AllValid(ios[1..]))
  }

  /** A run of SmartMop passes, one per element of `ios`. */
  function SmartMopRun(m: Machine, ios: seq<Inputs>, cccdHandle: nat): (r: Cycle)
    requires WellFormed(m) && AllValid(ios)
    ensures WellFormed(r.machine)
    ensures LevelInRange(m) ==> LevelInRange(r.machine)
    decreases |ios|
  {
    if ios == [] then Cycle(m, [])
    else
      var first := SmartMopIteration(m, ios[0], cccdHandle);
      var rest := SmartMopRun(first.machine, ios[1..], cccdHandle);
      Cycle(rest.machine, first.outputs + rest.outputs)
  }

  /** From boot, however the BLE link and the tank behave, every level byte
      the SmartMop build ever notifies is a percentage between 0 and 100. */
  lemma {:induction false} SmartMopReportsPercentages(m: Machine, ios: seq<Inputs>, cccdHandle: nat)
    requires WellFormed(m) && LevelInRange(m) && AllValid(ios)
    ensures PercentPayloads(SmartMopRun(m, ios, cccdHandle).outputs)
    decreases |ios|
  {
    if ios != [] {
      var first := SmartMopIteration(m, ios[0], cccdHandle);
      var rest := SmartMopRun(first.machine, ios[1..], cccdHandle);
      assert SmartMopRun(m, ios, cccdHandle).outputs == first.outputs + rest.outputs;
      IterationReportsPercentages(m, ios[0], cccdHandle);
      SmartMopReportsPercentages(first.machine, ios[1..], cccdHandle);
      PercentPayloadsAppend(first.outputs, rest.outputs);
    }
  }

  /** Booting from the SmartMop table, every level byte ever notified is a
      percentage. */
  lemma BootedSmartMopReportsPercentages(ios: seq<Inputs>, cccdHandle: nat)
    requires AllValid(ios)
    ensures PercentPayloads(SmartMopRun(Boot(SmartMopEmptyOffset), ios, cccdHandle).outputs)
  {
    SmartMopReportsPercentages(Boot(SmartMopEmptyOffset), ios, cccdHandle);
  }

  /** Every pass of a run has a full set of calibration values. */
  predicate AllCalibrations(cals: seq<seq<int>>)
  {
    cals == [] || (|cals[0]| == NumSensors && AllCalibrations(cals[1..]))
  }

  /** Nothing outside the loop writes calFlag during the run. */
  predicate NoCalWrites(ios: seq<Inputs>)
  {
    ios == [] || (ios[0].calWrite.None? && NoCalWrites(ios[1..]))
  }

  /** A run of LLS_CSD_12RX-042 passes, one per element of `ios`, where
      `cals[i]` is what StoreCalibration would leave behind in pass i. */
  function LlsRun(m: Machine, ios: seq<Inputs>, cals: seq<seq<int>>, cccdHandle: nat, build: LlsBuild): (r: Cycle)
    requires WellFormed(m) && AllValid(ios) && |cals| == |ios| && AllCalibrations(cals)
    ensures WellFormed(r.machine)
    ensures LevelInRange(m) ==> LevelInRange(r.machine)
    decreases |ios|
  {
    if ios == [] then Cycle(m, [])
    else
      var first := LlsIteration(m, ios[0], cals[0], cccdHandle, build);
      var rest := LlsRun(first.machine, ios[1..], cals[1..], cccdHandle, build);
      Cycle(rest.machine, first.outputs + rest.outputs)
  }

  /** An LLS pass that finds calFlag clear, with nothing outside writing
      it, stores nothing and keeps the offsets and the flag. */
  lemma PassStoresNothingUnasked(m: Machine, ev: Ble.Step, io: Inputs, calibrated: seq<int>, scanned: nat,
                                 build: LlsBuild)
    requires WellFormed(m) && ValidInputs(io) && NoNotification(ev.effects) && |calibrated| == NumSensors
    requires !IsTrue(m.calFlag) && io.calWrite.None?
    ensures var r := LlsPass(m, ev, io, calibrated, scanned, build);
            StoreCalibration !in r.outputs && r.machine.offsets == m.offsets && r.machine.calFlag == m.calFlag
  {
    LlsPassStoresOnce(m, ev, io, calibrated, scanned, build);
  }

  /** The same for a whole LLS pass. */
  lemma IterationStoresNothingUnasked(m: Machine, io: Inputs, calibrated: seq<int>, cccdHandle: nat, build: LlsBuild)
    requires WellFormed(m) && ValidInputs(io) && |calibrated| == NumSensors
    requires !IsTrue(m.calFlag) && io.calWrite.None?
    ensures var r := LlsIteration(m, io, calibrated, cccdHandle, build);
            StoreCalibration !in r.outputs && r.machine.offsets == m.offsets && r.machine.calFlag == m.calFlag
  {
    var ev := ProcessEvents(m.link, io.events, cccdHandle);
    var scanned := ScanLevel(io.raw, m.offsets);
    assert LlsIteration(m, io, calibrated, cccdHandle, build) == LlsPass(m, ev, io, calibrated, scanned, build);
    PassStoresNothingUnasked(m, ev, io, calibrated, scanned, build);
  }

  /** The loop never raises calFlag itself: with the flag clear and nothing
      outside writing it, no pass of a run stores a calibration, and the
      offsets and the flag stay as they were. */
  lemma {:induction false} NoCalibrationWithoutRequest(m: Machine, ios: seq<Inputs>, cals: seq<seq<int>>,
                                                        cccdHandle: nat, build: LlsBuild)
    requires WellFormed(m) && AllValid(ios) && |cals| == |ios| && AllCalibrations(cals)
    requires !IsTrue(m.calFlag) && NoCalWrites(ios)
    ensures var r := LlsRun(m, ios, cals, cccdHandle, build);
            StoreCalibration !in r.outputs && r.machine.offsets == m.offsets && r.machine.calFlag == m.calFlag
    decreases |ios|
  {
    if ios != [] {
      var first := LlsIteration(m, ios[0], cals[0], cccdHandle, build);
      IterationStoresNothingUnasked(m, ios[0], cals[0], cccdHandle, build);
      var rest := LlsRun(first.machine, ios[1..], cals[1..], cccdHandle, build);
      NoCalibrationWithoutRequest(first.machine, ios[1..], cals[1..], cccdHandle, build);
      assert LlsRun(m, ios, cals, cccdHandle, build).outputs == first.outputs + rest.outputs;
    }
  }

  /** From boot, the LLS build stores a calibration only after something
      outside the loop has raised calFlag. */
  lemma BootedLlsCalibratesOnlyOnRequest(table: seq<int>, ios: seq<Inputs>, cals: seq<seq<int>>,
                                         cccdHandle: nat, build: LlsBuild)
    requires NumSensors <= |table| && AllValid(ios) && |cals| == |ios| && AllCalibrations(cals)
    requires NoCalWrites(ios)
    ensures StoreCalibration !in LlsRun(Boot(table), ios, cals, cccdHandle, build).outputs
    ensures LlsRun(Boot(table), ios, cals, cccdHandle, build).machine.offsets == Boot(table).offsets
  {
    NoCalibrationWithoutRequest(Boot(table), ios, cals, cccdHandle, build);
  }
}
