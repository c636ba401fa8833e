/** The link and notification flags of the BLE application (BLEApplications.c):
    the stack's event callback, the CCCD mirror update, the connection
    parameter request and the notification send, as steps on a record of
    flags. Every call into the BLE stack is recorded as an effect instead of
    being performed. */
module Ble {
  import opened FixedPoint
  import opened Config

  /** CYBLE_CONN_HANDLE_T: the device handle and the ATT connection id. */
  datatype ConnHandle = ConnHandle(bdHandle: byte, attId: byte)

  /** The flags of BLEApplications.c together with the two level globals of
      main.c that the disconnect handler resets. Every flag is a uint8 and
      may hold any byte value. */
  datatype Link = Link(
    startAdvertisement: byte,
    deviceConnected: byte,
    stackStatus: byte,
    paramUpdateRequired: byte,
    notificationEnabled: byte,
    cccdUpdatePending: byte,
    cccdValue: seq<byte>,
    connection: ConnHandle,
    levelPercent: int,
    previousLevelPercent: int)

  /** The state at reset: nothing connected, notifications off, no CCCD
      update pending, and a connection parameter update wanted. Statics
      without an initialiser are zero. */
  const Initial: Link := Link(
    startAdvertisement := False,
    deviceConnected := False,
    stackStatus := False,
    paramUpdateRequired := True,
    notificationEnabled := False,
    cccdUpdatePending := False,
    cccdValue := [0, 0],
    connection := ConnHandle(0, 0),
    levelPercent := 0,
    previousLevelPercent := 0)

  /** A call into the BLE stack. */
  datatype Effect =
    | WriteResponse(connection: ConnHandle)               // CyBle_GattsWriteRsp
    | CccdWrite(value: seq<byte>, connection: ConnHandle)  // CyBle_GattsWriteAttributeValue
    | Notification(payload: byte)                          // CyBle_GattsNotification
    | ParamUpdateRequest(bdHandle: byte)                   // CyBle_L2capLeConnectionParamUpdateRequest

  /** The events the callback receives, with the part of the event parameter
      it reads. A write request carries the written attribute handle and the
      byte at CCC_DATA_INDEX. */
  datatype Event =
    | StackOn
    | StackBusyStatus(status: byte)
    | AdvertisementStartStop
    | GapDeviceDisconnected
    | GattConnect(connection: ConnHandle)
    | GattDisconnect
    | WriteRequest(attrHandle: nat, cccByte: byte)
    | ParamUpdateResponse
    | OtherEvent

  datatype Option<T> = None | Some(value: T)

  /** The state after a step and the stack calls it made, in order. */
  datatype Step = Step(link: Link, effects: seq<Effect>)

  /** The CCCD attribute mirrors the enabled flag whenever no mirror update
      is pending. */
  predicate CccdSynced(s: Link)
  {
    !IsSet(s.cccdUpdatePending) ==> s.cccdValue == [s.notificationEnabled, 0]
  }

  /** UpdateNotificationCCCDAttribute: when an update is pending, clear the
      pending flag and publish {enabled, 0x00} as the CCCD value; otherwise
      do nothing. Afterwards no update is pending and the CCCD mirrors the
      enabled flag whenever it did before or an update was pending. */
  function UpdateNotificationCccdAttribute(s: Link): (r: Step)
    ensures !IsSet(r.link.cccdUpdatePending)
    ensures IsSet(s.cccdUpdatePending) ==>
              r.link == s.(cccdUpdatePending := False, cccdValue := [s.notificationEnabled, 0])
              && r.effects == [CccdWrite([s.notificationEnabled, 0], s.connection)]
    ensures !IsSet(s.cccdUpdatePending) ==> r == Step(s, [])
    ensures CccdSynced(s) || IsSet(s.cccdUpdatePending) ==> r.link.cccdValue == [s.notificationEnabled, 0]
  {
    if IsSet(s.cccdUpdatePending) then
      var value := [s.notificationEnabled, 0];
      Step(s.(cccdUpdatePending := False, cccdValue := value), [CccdWrite(value, s.connection)])
    else
      Step(s, [])
  }

  /** A second CCCD update right after the first does nothing. */
  lemma CccdUpdateIsIdempotent(s: Link)
    ensures UpdateNotificationCccdAttribute(UpdateNotificationCccdAttribute(s).link)
            == Step(UpdateNotificationCccdAttribute(s).link, [])
  {
  }

  /** UpdateConnectionParameters: request new parameters on the current
      connection when connected and an update is wanted, then stop wanting
      one. */
  function UpdateConnectionParameters(s: Link): (r: Step)
    ensures IsSet(s.deviceConnected) && IsSet(s.paramUpdateRequired) ==>
              r.link == s.(paramUpdateRequired := False)
              && r.effects == [ParamUpdateRequest(s.connection.bdHandle)]
    ensures !(IsSet(s.deviceConnected) && IsSet(s.paramUpdateRequired)) ==> r == Step(s, [])
  {
    if IsSet(s.deviceConnected) && IsSet(s.paramUpdateRequired) then
      Step(s.(paramUpdateRequired := False), [ParamUpdateRequest(s.connection.bdHandle)])
    else
      Step(s, [])
  }

  /** SendCapSenseNotification(arg): a one-byte notification. The parameter
      is a uint8, so an int argument arrives as its value modulo 256; an
      argument already in 0..255 is sent unchanged. */
  function SendNotification(arg: int): (e: Effect)
    ensures e.Notification?
    ensures (arg - e.payload) % 0x100 == 0
    ensures 0 <= arg < 0x100 ==> e.payload == arg
  {
    Notification(ToUint8(arg))
  }

  /** CustomEventHandler for one event, with `cccdHandle` the handle of the
      level characteristic's CCCD. */
  function HandleEvent(s: Link, e: Event, cccdHandle: nat): (r: Step)
    ensures e.StackOn? || e.AdvertisementStartStop? || e.GapDeviceDisconnected? || e.OtherEvent? ==>
              r == Step(s, [])
    ensures e.StackBusyStatus? ==> r == Step(s.(stackStatus := e.status), [])
    ensures e.GattConnect? ==>
              r == Step(s.(deviceConnected := True, connection := e.connection), [])
    ensures e.GattDisconnect? ==>
              r.link == s.(deviceConnected := False, notificationEnabled := False,
                           cccdUpdatePending := False, cccdValue := [0, 0],
                           levelPercent := 0, previousLevelPercent := 0,
                           paramUpdateRequired := True)
              && r.effects == [CccdWrite([0, 0], s.connection)]
    ensures e.WriteRequest? && e.attrHandle == cccdHandle ==>
              r.link == s.(notificationEnabled := e.cccByte, cccdUpdatePending := True)
    ensures e.WriteRequest? && e.attrHandle != cccdHandle ==> r.link == s
    ensures e.WriteRequest? ==> r.effects == [WriteResponse(s.connection)]
    ensures e.ParamUpdateResponse? ==> r == Step(s.(paramUpdateRequired := False), [])
  {
    match e
    case StackOn => Step(s, [])
    case StackBusyStatus(status) => Step(s.(stackStatus := status), [])
    case AdvertisementStartStop => Step(s, [])
    case GapDeviceDisconnected => Step(s, [])
    case GattConnect(c) => Step(s.(deviceConnected := True, connection := c), [])
    case GattDisconnect =>
      var cleared := s.(deviceConnected := False, notificationEnabled := False,
                        cccdUpdatePending := True, levelPercent := 0,
                        previousLevelPercent := 0, paramUpdateRequired := True);
      UpdateNotificationCccdAttribute(cleared)
    case WriteRequest(attrHandle, cccByte) =>
      var s' := if attrHandle == cccdHandle
                then s.(notificationEnabled := cccByte, cccdUpdatePending := True)
                else s;
      Step(s', [WriteResponse(s.connection)])
    case ParamUpdateResponse => Step(s.(paramUpdateRequired := False), [])
    case OtherEvent => Step(s, [])
  }

  /** One atomic step of the application's BLE side: an event delivered to
      the callback, or a call of one of the two helpers. */
  datatype Action = Deliver(event: Event) | SyncCccd | UpdateParams

  function Apply(s: Link, a: Action, cccdHandle: nat): Step
  {
    match a
    case Deliver(e) => HandleEvent(s, e, cccdHandle)
    case SyncCccd => UpdateNotificationCccdAttribute(s)
    case UpdateParams => UpdateConnectionParameters(s)
  }

  /** A sequence of actions from `s`: the final state and all stack calls. */
  function Run(s: Link, actions: seq<Action>, cccdHandle: nat): (r: Step)
    decreases |actions|
  {
    if actions == [] then Step(s, [])
    else
      var first := Apply(s, actions[0], cccdHandle);
      var rest := Run(first.link, actions[1..], cccdHandle);
      Step(rest.link, first.effects + rest.effects)
  }

  /** No action ever sets the advertisement flag: every assignment to it in
      the callback is disabled. */
  lemma {:induction false} AdvertisementNeverRequested(s: Link, actions: seq<Action>, cccdHandle: nat)
    ensures Run(s, actions, cccdHandle).link.startAdvertisement == s.startAdvertisement
    decreases |actions|
  {
    if actions != [] {
      AdvertisementNeverRequested(Apply(s, actions[0], cccdHandle).link, actions[1..], cccdHandle);
    }
  }

  /** Every action keeps the CCCD mirror in step with the enabled flag. */
  lemma ApplyKeepsCccdSynced(s: Link, a: Action, cccdHandle: nat)
    requires CccdSynced(s)
    ensures CccdSynced(Apply(s, a, cccdHandle).link)
  {
  }

  /** From a synced state (such as the initial one) the CCCD mirror is in step
      after any run. */
  lemma {:induction false} RunKeepsCccdSynced(s: Link, actions: seq<Action>, cccdHandle: nat)
    requires CccdSynced(s)
    ensures CccdSynced(Run(s, actions, cccdHandle).link)
    decreases |actions|
  {
    if actions != [] {
      ApplyKeepsCccdSynced(s, actions[0], cccdHandle);
      RunKeepsCccdSynced(Apply(s, actions[0], cccdHandle).link, actions[1..], cccdHandle);
    }
  }

  lemma InitialIsSynced()
    ensures CccdSynced(Initial)
    ensures !IsSet(Initial.deviceConnected) && !IsSet(Initial.notificationEnabled)
    ensures !IsSet(Initial.cccdUpdatePending) && IsTrue(Initial.paramUpdateRequired)
  {
  }

  /** The last connect or disconnect among `actions`: true for a connect,
      false for a disconnect, none if there is neither. */
  function LastConnectionEvent(actions: seq<Action>): (r: Option<bool>)
    decreases |actions|
  {
    if actions == [] then None
    else
      var last := actions[|actions| - 1];
      if last.Deliver? && last.event.GattConnect? then Some(true)
      else if last.Deliver? && last.event.GattDisconnect? then Some(false)
      else LastConnectionEvent(actions[..|actions| - 1])
  }

  /** Running `a + b` is running `a` and then `b` from where `a` stopped. */
  lemma {:induction false} RunAppend(s: Link, a: seq<Action>, b: seq<Action>, cccdHandle: nat)
    ensures Run(s, a + b, cccdHandle).link == Run(Run(s, a, cccdHandle).link, b, cccdHandle).link
    ensures Run(s, a + b, cccdHandle).effects
            == Run(s, a, cccdHandle).effects + Run(Run(s, a, cccdHandle).link, b, cccdHandle).effects
    decreases |a|
  {
    if a == [] {
      assert a + b == b;
    } else {
      assert (a + b)[1..] == a[1..] + b;
      RunAppend(Apply(s, a[0], cccdHandle).link, a[1..], b, cccdHandle);
    }
  }

  /** The connected flag follows the connection events: after a run it is
      TRUE when the last connect/disconnect event was a connect, FALSE when
      it was a disconnect, and unchanged when there was neither. */
  lemma {:induction false} ConnectedFollowsLastConnectionEvent(s: Link, actions: seq<Action>, cccdHandle: nat)
    ensures LastConnectionEvent(actions) == Some(true) ==> Run(s, actions, cccdHandle).link.deviceConnected == True
    ensures LastConnectionEvent(actions) == Some(false) ==> Run(s, actions, cccdHandle).link.deviceConnected == False
    ensures LastConnectionEvent(actions) == None ==> Run(s, actions, cccdHandle).link.deviceConnected == s.deviceConnected
    decreases |actions|
  {
    if actions != [] {
      var init := actions[..|actions| - 1];
      var last := actions[|actions| - 1];
      assert actions == init + [last];
      RunAppend(s, init, [last], cccdHandle);
      ConnectedFollowsLastConnectionEvent(s, init, cccdHandle);
      var mid := Run(s, init, cccdHandle).link;
      assert Run(mid, [last], cccdHandle).link == Apply(mid, last, cccdHandle).link;
    }
  }

  /** Notifications come only from the main loop: no event and neither
      helper ever sends one. */
  lemma {:induction false} RunNeverNotifies(s: Link, actions: seq<Action>, cccdHandle: nat)
    ensures forall i :: 0 <= i < |Run(s, actions, cccdHandle).effects| ==>
              !Run(s, actions, cccdHandle).effects[i].Notification?
    decreases |actions|
  {
    if actions != [] {
      RunNeverNotifies(Apply(s, actions[0], cccdHandle).link, actions[1..], cccdHandle);
    }
  }

  /** The BLE side writes the two level globals only to reset them: after a
      run each holds its old value or zero, and zero when the run contains
      a disconnect. */
  lemma {:induction false} RunKeepsOrResetsLevels(s: Link, actions: seq<Action>, cccdHandle: nat)
    ensures Run(s, actions, cccdHandle).link.levelPercent in {s.levelPercent, 0}
    ensures Run(s, actions, cccdHandle).link.previousLevelPercent in {s.previousLevelPercent, 0}
    ensures Disconnects(actions) > 0 ==>
              Run(s, actions, cccdHandle).link.levelPercent == 0
              && Run(s, actions, cccdHandle).link.previousLevelPercent == 0
    decreases |actions|
  {
    if actions != [] {
      RunKeepsOrResetsLevels(Apply(s, actions[0], cccdHandle).link, actions[1..], cccdHandle);
    }
  }

  /** The number of parameter update requests among `effects`. */
  function Requests(effects: seq<Effect>): (n: nat)
    ensures n <= |effects|
    decreases |effects|
  {
    if effects == [] then 0
    else (if effects[0].ParamUpdateRequest? then 1 else 0) + Requests(effects[1..])
  }

  lemma {:induction false} RequestsAppend(a: seq<Effect>, b: seq<Effect>)
    ensures Requests(a + b) == Requests(a) + Requests(b)
    decreases |a|
  {
    if a == [] {
      assert a + b == b;
    } else {
      assert (a + b)[1..] == a[1..] + b;
      RequestsAppend(a[1..], b);
    }
  }

  /** The number of GATT disconnect events among `actions`. */
  function Disconnects(actions: seq<Action>): nat
    decreases |actions|
  {
    if actions == [] then 0
    else (if actions[0] == Deliver(GattDisconnect) then 1 else 0) + Disconnects(actions[1..])
  }

  /** 1 when a flag is set, else 0. */
  function Armed(flag: byte): nat
  {
    if IsSet(flag) then 1 else 0
  }

  /** One action sends at most one request, and only by spending the
      "update required" flag; only a disconnect sets the flag again. */
  lemma ApplyRequestBudget(s: Link, a: Action, cccdHandle: nat)
    ensures Requests(Apply(s, a, cccdHandle).effects) + Armed(Apply(s, a, cccdHandle).link.paramUpdateRequired)
            <= Armed(s.paramUpdateRequired) + (if a == Deliver(GattDisconnect) then 1 else 0)
  {
    var r := Apply(s, a, cccdHandle);
    assert Requests(r.effects) == (if a == UpdateParams && IsSet(s.deviceConnected) && IsSet(s.paramUpdateRequired) then 1 else 0) by {
      if |r.effects| == 1 {
        assert r.effects[1..] == [];
      }
    }
  }

  /** At most one parameter update request per connection: over any run,
      the requests sent are bounded by the flag's initial arming plus the
      number of disconnects that re-arm it. */
  lemma {:induction false} RequestsBoundedByDisconnects(s: Link, actions: seq<Action>, cccdHandle: nat)
    ensures Requests(Run(s, actions, cccdHandle).effects) + Armed(Run(s, actions, cccdHandle).link.paramUpdateRequired)
            <= Armed(s.paramUpdateRequired) + Disconnects(actions)
    decreases |actions|
  {
    if actions != [] {
      var first := Apply(s, actions[0], cccdHandle);
      ApplyRequestBudget(s, actions[0], cccdHandle);
      RequestsBoundedByDisconnects(first.link, actions[1..], cccdHandle);
      RequestsAppend(first.effects, Run(first.link, actions[1..], cccdHandle).effects);
    }
  }

  /** From reset, a run without disconnects sends at most one request. */
  lemma AtMostOneRequestWithoutDisconnect(actions: seq<Action>, cccdHandle: nat)
    requires Disconnects(actions) == 0
    ensures Requests(Run(Initial, actions, cccdHandle).effects) <= 1
  {
    RequestsBoundedByDisconnects(Initial, actions, cccdHandle);
  }
}
