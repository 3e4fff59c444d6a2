/**
 * The Xiaomi BLE node: one object per configured device.  Its fields are the
 * node's own state (cached peripheral, scanning and requesting flags) and the
 * closure state of every scan window and every acquisition session it has
 * opened.  Each asynchronous event the radio or a timer delivers is a method,
 * so the properties below hold whatever order the events come in.
 */
module XiaomiBle {
  import opened Wrappers
  import opened Codecs
  import opened NotificationText
  import opened Peripherals
  import opened RequestGate

  /** Handles and uuids of the two connected sensor families. */
  const SoilBatteryHandle := 0x38
  const NotifyBatteryHandle := 0x18
  const TriggerHandle := 0x33
  const TriggerCommand: seq<byte> := [0xA0, 0x1F]
  const BlockHandle := 0x35
  const DataServiceUuid: string := "226c000064764566756266734470666d"
  const DataCharUuid: string := "226caa5564764566756266734470666d"

  // ---------------------------------------------------------------------------
  // What the node shows the outside world (all recorded, never read back)
  // ---------------------------------------------------------------------------

  datatype Fill = Red | Green | Yellow

  /** A `node.status` call; `Cleared` is `node.status({})`. */
  datatype Status = Status(fill: Fill, text: string) | Cleared

  /** What an effective `send` does: a `node.send` of the reading, or the "no data" status. */
  datatype Outcome = Delivered(payload: Reading, address: string) | NoData

  /** The effective `send` of one session. */
  datatype Final = Final(session: nat, outcome: Outcome)

  /** A `node.error` call. */
  datatype Report = NotFound(address: string, found: seq<string>) | IncorrectData(payload: string) | SubscribeError(error: string)

  /** A call into the radio library. */
  datatype RadioCall =
    | StartScanning
    | StopScanning
    | Connect(uuid: string)
    | Disconnect(uuid: string)
    | ReadHandle(uuid: string, handle: int)
    | WriteHandle(uuid: string, handle: int, bytes: seq<byte>)
    | DiscoverCharacteristics(uuid: string, services: seq<string>, characteristics: seq<string>)
    | Subscribe(uuid: string)

  // ---------------------------------------------------------------------------
  // Acquisition sessions (the closure of one `getData` call)
  // ---------------------------------------------------------------------------

  /** Where the `connect` call of a session stands. */
  datatype Link = Connecting | Linked | Refused

  /**
   * The state of one `getData` call: `msg`, `sent` and the codec's
   * `dataCount`; whether the disconnect timeout is still armed and the
   * `disconnect` listener still registered; and which radio callbacks,
   * notification handlers and listener-expiry timers are still outstanding
   * (the last three by characteristic index); and the handler every expiry
   * timer removes when it fires.
   */
  datatype Session = Session(
    peripheral: Peripheral,
    msg: Reading,
    sent: bool,
    dataCount: nat,
    link: Link,
    watchdogArmed: bool,
    listening: bool,
    batteryPending: bool,
    writePending: bool,
    blockPending: bool,
    discoverPending: bool,
    listeners: set<nat>,
    expiries: set<nat>,
    expiryTarget: Option<nat>,
    acks: set<nat>)

  /** A session just opened: empty reading, timeout armed, disconnect listener registered. */
  function NewSession(p: Peripheral): Session {
    Session(p, map[], false, 0, Connecting, true, true, false, false, false, false, {}, {}, None, {})
  }

  /** A session that may still end in a delivered reading. */
  predicate Live(s: Session) {
    !s.sent && s.link != Refused
  }

  /**
   * What holds of every session at all times: once sent, neither the timeout
   * nor the disconnect listener can fire; until then, unless the connection
   * was refused, the timeout is armed and will end the session; and nothing
   * is read before the connection is made.
   */
  predicate SessionOk(s: Session) {
    && (s.sent ==> !s.watchdogArmed && !s.listening)
    && (!s.sent && s.link != Refused ==> s.watchdogArmed)
    && (s.link == Refused ==> !s.watchdogArmed)
    && (s.link != Linked ==>
          s.msg == map[] && s.dataCount == 0 && !s.batteryPending && !s.writePending && !s.blockPending
          && !s.discoverPending && s.listeners == {} && s.expiries == {} && s.acks == {})
  }

  /** The session after its effective `send`. */
  function Closed(s: Session): Session {
    s.(sent := true, watchdogArmed := false, listening := false)
  }

  /** What `send` does with the reading: deliver it when it has a key, else report no data. */
  function Conclude(s: Session): (o: Outcome)
    ensures o.Delivered? <==> s.msg.Keys != {}
    ensures o.Delivered? ==> o.payload == s.msg && o.address == s.peripheral.address
  {
    if s.msg.Keys != {} then Delivered(s.msg, s.peripheral.address) else NoData
  }

  /** The status `send` leaves: cleared after a delivery, "no data" otherwise. */
  function ConcludeStatus(o: Outcome): Status {
    if o.Delivered? then Cleared else Status(Red, "no data")
  }

  /**
   * The two values a connected codec waits for may arrive in either order:
   * the reading `send` delivers is the same both ways.
   */
  lemma ArrivalOrderIrrelevant(msg: Reading, battery: seq<byte>, block: seq<byte>, t: Value, h: Value)
    ensures msg[Battery := BatteryLevel(battery)] + SoilReading(block)
         == (msg + SoilReading(block))[Battery := BatteryLevel(battery)]
    ensures msg[Battery := BatteryLevel(battery)][Temperature := t][Humidity := h]
         == msg[Temperature := t][Humidity := h][Battery := BatteryLevel(battery)]
  {
  }

  /** Characteristic indices the notify codec subscribes to: those with the data uuid. */
  function DataCharIndices(chars: seq<string>): set<nat> {
    set i | 0 <= i < |chars| && chars[i] == DataCharUuid
  }

  /** The subscribe calls the notify codec makes, one per matching characteristic. */
  function SubscribeCalls(uuid: string, chars: seq<string>): (r: seq<RadioCall>)
    ensures forall c :: c in r ==> c == Subscribe(uuid)
  {
    if chars == [] then []
    else SubscribeCalls(uuid, chars[..|chars| - 1]) + (if chars[|chars| - 1] == DataCharUuid then [Subscribe(uuid)] else [])
  }

  /** Every characteristic that gets a listener gets exactly one subscribe call. */
  lemma {:induction false} SubscribePerListener(uuid: string, chars: seq<string>)
    ensures |SubscribeCalls(uuid, chars)| == |DataCharIndices(chars)|
    ensures forall k :: k in DataCharIndices(chars) ==> k < |chars|
  {
    if chars != [] {
      var n := |chars| - 1;
      var p := chars[..n];
      SubscribePerListener(uuid, p);
      assert DataCharIndices(chars) == DataCharIndices(p) + (if chars[n] == DataCharUuid then {n} else {});
    }
  }

  /**
   * The handler the notify codec's expiry timers remove.  The timers share
   * the loop's function-scoped `chr` and `dataFunction`, so when they fire
   * both name the last characteristic and the handler of the last matching
   * one: a handler is removed only when the last characteristic is a data
   * characteristic, and then it is that one's.
   */
  function ExpiryTarget(chars: seq<string>): Option<nat> {
    if |chars| > 0 && chars[|chars| - 1] == DataCharUuid then Some(|chars| - 1) else None
  }

  /** The handlers left after an expiry timer removes `target`'s, if any. */
  function Expire(listeners: set<nat>, target: Option<nat>): set<nat> {
    if target.Some? then listeners - {target.value} else listeners
  }

  /**
   * Once the expiry timers have fired, every data characteristic but the
   * last characteristic keeps its handler: only the last one's is removed.
   */
  lemma TimersSpareEarlierListeners(chars: seq<string>)
    ensures ExpiryTarget(chars).Some? ==> ExpiryTarget(chars).value in DataCharIndices(chars)
    ensures forall k :: k in DataCharIndices(chars) ==>
      (k in Expire(DataCharIndices(chars), ExpiryTarget(chars)) <==> k + 1 < |chars|)
  {
  }

  /** With two data characteristics, the first one's handler outlives both timers. */
  lemma TwoDataCharacteristicsKeepFirstHandler()
    ensures var chars := [DataCharUuid, DataCharUuid];
      DataCharIndices(chars) == {0, 1} && Expire(DataCharIndices(chars), ExpiryTarget(chars)) == {0}
  {
    var chars := [DataCharUuid, DataCharUuid];
    assert 0 in DataCharIndices(chars) && 1 in DataCharIndices(chars);
    TimersSpareEarlierListeners(chars);
  }

  /**
   * The notify codec's loop over the characteristics it found: the indices
   * that get a listener, a timer and a subscribe call, and those calls.
   */
  method SubscribeAll(uuid: string, chars: seq<string>) returns (ks: set<nat>, calls: seq<RadioCall>)
    ensures ks == DataCharIndices(chars)
    ensures calls == SubscribeCalls(uuid, chars)
  {
    ks, calls := {}, [];
    var i := 0;
    while i < |chars|
      invariant 0 <= i <= |chars|
      invariant ks == DataCharIndices(chars[..i])
      invariant calls == SubscribeCalls(uuid, chars[..i])
    {
      assert chars[..i + 1][..i] == chars[..i];
      if chars[i] == DataCharUuid {
        ks := ks + {i};
        calls := calls + [Subscribe(uuid)];
      }
      i := i + 1;
    }
    assert chars[..|chars|] == chars;
  }

  /**
   * The session part of the node invariant: every effective `send` belongs to
   * an existing session whose `sent` flag is set, no session has two, and
   * every session keeps SessionOk.
   */
  ghost predicate SessionsValid(fs: seq<Final>, ss: seq<Session>) {
    && (forall i :: 0 <= i < |fs| ==> fs[i].session < |ss| && ss[fs[i].session].sent)
    && (forall i, j :: 0 <= i < j < |fs| ==> fs[i].session != fs[j].session)
    && (forall sid :: 0 <= sid < |ss| ==> SessionOk(ss[sid]))
  }

  /**
   * The latch: closing a session that was not yet sent records its one
   * effective `send` and keeps every session at no more than one.
   */
  lemma FinalizeKeepsSessionsValid(fs: seq<Final>, ss: seq<Session>, sid: nat, s: Session, o: Outcome)
    requires SessionsValid(fs, ss) && sid < |ss| && !ss[sid].sent
    requires !s.sent && SessionOk(s)
    ensures SessionsValid(fs + [Final(sid, o)], ss[sid := Closed(s)])
  {
    var fs', ss' := fs + [Final(sid, o)], ss[sid := Closed(s)];
    forall i | 0 <= i < |fs'| ensures fs'[i].session < |ss'| && ss'[fs'[i].session].sent {
      if i < |fs| {
        assert fs'[i] == fs[i];
      }
    }
    forall i, j | 0 <= i < j < |fs'| ensures fs'[i].session != fs'[j].session {
      assert fs'[i] == fs[i];
      if j < |fs| {
        assert fs'[j] == fs[j];
      }
    }
  }

  /** Changing a session without touching its `sent` flag keeps the invariant. */
  lemma UpdateKeepsSessionsValid(fs: seq<Final>, ss: seq<Session>, sid: nat, s: Session)
    requires SessionsValid(fs, ss) && sid < |ss|
    requires s.sent == ss[sid].sent && SessionOk(s)
    ensures SessionsValid(fs, ss[sid := s])
  {
  }

  /** Opening a fresh session keeps the invariant. */
  lemma AppendKeepsSessionsValid(fs: seq<Final>, ss: seq<Session>, s: Session)
    requires SessionsValid(fs, ss) && !s.sent && SessionOk(s)
    ensures SessionsValid(fs, ss + [s])
  {
    var ss' := ss + [s];
    forall i | 0 <= i < |fs| ensures ss'[fs[i].session].sent {
      assert ss'[fs[i].session] == ss[fs[i].session];
    }
  }

  // ---------------------------------------------------------------------------
  // The broadcast codec's pass over the advertisement's service data
  // ---------------------------------------------------------------------------

  /** The reading after the codec has stored every tagged entry of `es` in turn. */
  function Overlay(msg: Reading, es: seq<ServiceData>): Reading {
    if es == [] then msg
    else
      var m := Overlay(msg, es[..|es| - 1]);
      if Tagged(es[|es| - 1]) then m + AdvertisementReading(es[|es| - 1].data) else m
  }

  /** The index of the first tagged entry, where the codec's `send` has its effect. */
  function FirstTagged(es: seq<ServiceData>): (r: Option<nat>)
    ensures r.Some? ==> r.value < |es| && Tagged(es[r.value])
  {
    if es == [] then None
    else
      var f := FirstTagged(es[..|es| - 1]);
      if f.Some? then f else if Tagged(es[|es| - 1]) then Some(|es| - 1) else None
  }

  /** FirstTagged finds the first tagged entry, and finds none only when there is none. */
  lemma {:induction false} FirstTaggedIsFirst(es: seq<ServiceData>)
    ensures FirstTagged(es).Some? ==> forall j :: 0 <= j < FirstTagged(es).value ==> !Tagged(es[j])
    ensures FirstTagged(es).None? ==> forall j :: 0 <= j < |es| ==> !Tagged(es[j])
  {
    if es != [] {
      var p := es[..|es| - 1];
      FirstTaggedIsFirst(p);
      assert forall j :: 0 <= j < |p| ==> p[j] == es[j];
    }
  }

  /** Before the first tagged entry, the pass stores nothing. */
  lemma {:induction false} OverlayUntagged(msg: Reading, es: seq<ServiceData>)
    requires forall j :: 0 <= j < |es| ==> !Tagged(es[j])
    ensures Overlay(msg, es) == msg
  {
    if es != [] {
      OverlayUntagged(msg, es[..|es| - 1]);
    }
  }

  /**
   * The reading a broadcast sensor's session delivers is the decode of the
   * first tagged entry: its temperature, humidity and battery.
   */
  lemma OverlayFirstTagged(es: seq<ServiceData>)
    requires FirstTagged(es).Some?
    ensures var f := FirstTagged(es).value;
      Overlay(map[], es[..f + 1]) == AdvertisementReading(es[f].data)
  {
    var f := FirstTagged(es).value;
    var p := es[..f + 1];
    assert p[..|p| - 1] == es[..f];
    FirstTaggedIsFirst(es);
    OverlayUntagged(map[], es[..f]);
    assert map[] + AdvertisementReading(es[f].data) == AdvertisementReading(es[f].data);
  }

  /** The reading as the pass's first `send` sees it: stored up to the first tagged entry. */
  function AtFirstSend(msg: Reading, es: seq<ServiceData>): Reading
    requires FirstTagged(es).Some?
  {
    Overlay(msg, es[..FirstTagged(es).value + 1])
  }

  /** One more entry: the pass's reading, and where its first `send` happened. */
  lemma PassPrefix(msg: Reading, es: seq<ServiceData>, i: nat)
    requires i < |es|
    ensures Overlay(msg, es[..i + 1]) ==
      (if Tagged(es[i]) then Overlay(msg, es[..i]) + AdvertisementReading(es[i].data) else Overlay(msg, es[..i]))
    ensures FirstTagged(es[..i]).Some? ==>
      FirstTagged(es[..i + 1]) == FirstTagged(es[..i]) && AtFirstSend(msg, es[..i + 1]) == AtFirstSend(msg, es[..i])
    ensures FirstTagged(es[..i]).None? && Tagged(es[i]) ==>
      FirstTagged(es[..i + 1]) == Some(i) && AtFirstSend(msg, es[..i + 1]) == Overlay(msg, es[..i + 1])
    ensures FirstTagged(es[..i]).None? && !Tagged(es[i]) ==> FirstTagged(es[..i + 1]).None?
  {
    var p, q := es[..i], es[..i + 1];
    assert q[..|q| - 1] == p;
    if FirstTagged(p).Some? {
      var f := FirstTagged(p).value;
      assert q[..f + 1] == p[..f + 1];
    } else if Tagged(es[i]) {
      assert q[..i + 1] == q;
    }
  }

  /**
   * The broadcast codec's loop over the advertisement's service data: every
   * tagged entry overwrites temperature, humidity and battery and calls
   * `send`.  Returns the final reading and the reading the first `send` saw.
   */
  method BroadcastPass(msg: Reading, es: seq<ServiceData>) returns (full: Reading, atSend: Option<Reading>)
    ensures full == Overlay(msg, es)
    ensures FirstTagged(es).None? ==> atSend.None?
    ensures FirstTagged(es).Some? ==> atSend == Some(AtFirstSend(msg, es))
  {
    full, atSend := msg, None;
    var i := 0;
    assert es[..0] == [];
    while i < |es|
      invariant 0 <= i <= |es|
      invariant full == Overlay(msg, es[..i])
      invariant FirstTagged(es[..i]).None? ==> atSend.None?
      invariant FirstTagged(es[..i]).Some? ==> atSend == Some(AtFirstSend(msg, es[..i]))
    {
      PassPrefix(msg, es, i);
      if Tagged(es[i]) {
        full := full + AdvertisementReading(es[i].data);
        if atSend.None? {
          atSend := Some(full);
        }
      }
      i := i + 1;
    }
    assert es[..|es|] == es;
  }

  /** The reading the broadcast codec leaves for `send`: as the first `send` saw it. */
  function AdvertisementMsg(msg: Reading, es: seq<ServiceData>): Reading {
    if FirstTagged(es).Some? then AtFirstSend(msg, es) else Overlay(msg, es)
  }

  /**
   * A fresh broadcast session with a tagged entry delivers the decode of the
   * first tagged entry, to the peripheral's address.
   */
  lemma PassDelivers(s: Session)
    requires s.msg == map[] && FirstTagged(s.peripheral.serviceData).Some?
    ensures var es := s.peripheral.serviceData;
      Conclude(s.(msg := AtFirstSend(s.msg, es)))
        == Delivered(AdvertisementReading(es[FirstTagged(es).value].data), s.peripheral.address)
  {
    OverlayFirstTagged(s.peripheral.serviceData);
  }

  // ---------------------------------------------------------------------------
  // Scan windows (the closure of one scan started by the `input` handler)
  // ---------------------------------------------------------------------------

  /**
   * One scan: the address looked for, the addresses seen so far, whether its
   * `discover` listener and its `scanStop` once-listener are still registered,
   * and whether its scan timeout is still pending.
   */
  datatype ScanWindow = ScanWindow(target: string, found: seq<string>, discovering: bool, awaitingStop: bool, timerArmed: bool)

  /** A window after its `scanStop` listener has run. */
  function Stopped(w: ScanWindow): ScanWindow {
    w.(discovering := false, awaitingStop := false)
  }

  function StopAll(ws: seq<ScanWindow>): (r: seq<ScanWindow>)
    ensures |r| == |ws| && forall i :: 0 <= i < |ws| ==> r[i] == Stopped(ws[i])
  {
    seq(|ws|, i requires 0 <= i < |ws| => Stopped(ws[i]))
  }

  /** The "not found" errors the `scanStop` listeners of `ws` report, in order. */
  function NotFoundReports(ws: seq<ScanWindow>): seq<Report> {
    if ws == [] then []
    else
      var w := ws[|ws| - 1];
      NotFoundReports(ws[..|ws| - 1]) + (if w.awaitingStop then [NotFound(w.target, w.found)] else [])
  }

  /** The "not found" statuses the `scanStop` listeners of `ws` set, in order. */
  function NotFoundStatuses(ws: seq<ScanWindow>): seq<Status> {
    if ws == [] then []
    else NotFoundStatuses(ws[..|ws| - 1]) + (if ws[|ws| - 1].awaitingStop then [Status(Red, "not found")] else [])
  }

  /** One more window's `scanStop` listener adds its own report and status. */
  lemma NotFoundPrefix(ws: seq<ScanWindow>, i: nat)
    requires i < |ws|
    ensures NotFoundReports(ws[..i + 1]) == NotFoundReports(ws[..i]) + (if ws[i].awaitingStop then [NotFound(ws[i].target, ws[i].found)] else [])
    ensures NotFoundStatuses(ws[..i + 1]) == NotFoundStatuses(ws[..i]) + (if ws[i].awaitingStop then [Status(Red, "not found")] else [])
  {
    assert ws[..i + 1][..i] == ws[..i];
  }

  /**
   * The `scanStop` once-listeners of ws, oldest first: each stops its window
   * and, while nothing is cached, sets the "not found" status and reports
   * the addresses its window saw.
   */
  method RunScanStop(ws: seq<ScanWindow>, cached: bool) returns (stopped: seq<ScanWindow>, st: seq<Status>, rp: seq<Report>)
    ensures stopped == StopAll(ws)
    ensures st == (if cached then [] else NotFoundStatuses(ws))
    ensures rp == (if cached then [] else NotFoundReports(ws))
  {
    stopped, st, rp := ws, [], [];
    var i := 0;
    while i < |ws|
      invariant 0 <= i <= |ws| == |stopped|
      invariant forall k :: 0 <= k < i ==> stopped[k] == Stopped(ws[k])
      invariant forall k :: i <= k < |ws| ==> stopped[k] == ws[k]
      invariant st == (if cached then [] else NotFoundStatuses(ws[..i]))
      invariant rp == (if cached then [] else NotFoundReports(ws[..i]))
    {
      var w := ws[i];
      NotFoundPrefix(ws, i);
      stopped := stopped[i := Stopped(w)];
      // a listener that already ran is no longer registered
      if w.awaitingStop && !cached {
        st := st + [Status(Red, "not found")];
        rp := rp + [NotFound(w.target, w.found)];
      }
      i := i + 1;
    }
    assert ws[..|ws|] == ws;
  }

  function Repeat<T>(x: T, n: nat): (r: seq<T>)
    ensures |r| == n && forall i :: 0 <= i < n ==> r[i] == x
  {
    if n == 0 then [] else Repeat(x, n - 1) + [x]
  }

  // ---------------------------------------------------------------------------
  // The node
  // ---------------------------------------------------------------------------

  class XiaomiNode {
    /** `config.address` (empty when not configured). */
    const configAddress: string

    /** `node.peripheral`, `node.scanningActive`, `node.requestActive`. */
    var peripheral: Option<Peripheral>
    var scanningActive: bool
    var requestActive: bool

    /** Every scan window and every session opened so far, oldest first. */
    var scans: seq<ScanWindow>
    var sessions: seq<Session>

    /** `stateChange` once-listeners waiting for the radio to power on. */
    var powerListeners: nat

    /** Effective sends, statuses, errors and radio calls, in order of occurrence. */
    ghost var finals: seq<Final>
    ghost var statuses: seq<Status>
    ghost var reports: seq<Report>
    ghost var radio: seq<RadioCall>

    /**
     * The node invariant: every session has at most one effective `send`, and
     * has it only once its `sent` flag is set; every session keeps
     * SessionOk; `requestActive` implies the newest session is live; and at
     * most one scan window, the newest, is discovering, exactly when
     * `scanningActive` is set.
     */
    ghost predicate Valid()
      reads this
    {
      && SessionsValid(finals, sessions)
      && (requestActive ==> |sessions| > 0 && Live(sessions[|sessions| - 1]))
      && (scanningActive <==> |scans| > 0 && scans[|scans| - 1].discovering)
      && (forall w :: 0 <= w < |scans| ==> scans[w].discovering ==> scans[w].awaitingStop)
      && (forall w :: 0 <= w < |scans| - 1 ==> !scans[w].discovering)
    }

    constructor (configAddress: string)
      ensures Valid() && this.configAddress == configAddress
      ensures peripheral == None && !scanningActive && !requestActive && powerListeners == 0
      ensures scans == [] && sessions == [] && finals == [] && statuses == [] && reports == [] && radio == []
    {
      this.configAddress := configAddress;
      peripheral := None;
      scanningActive, requestActive := false, false;
      scans, sessions, powerListeners := [], [], 0;
      finals, statuses, reports, radio := [], [], [], [];
    }

    /** The cache, the scan state and the power listeners did not change. */
    twostate predicate GateUnchanged()
      reads this
    {
      peripheral == old(peripheral) && scanningActive == old(scanningActive) && scans == old(scans)
      && powerListeners == old(powerListeners)
    }

    /**
     * One callback of session sid: the session became s, the callback set the
     * statuses st, reported rp and called the radio with rc; then, when fire,
     * it called `send`, which had its effect only if s was not yet sent.
     */
    twostate predicate SessionStep(sid: nat, s: Session, fire: bool, st: seq<Status>, rp: seq<Report>, rc: seq<RadioCall>)
      reads this
    {
      && sid < |old(sessions)|
      && GateUnchanged()
      && reports == old(reports) + rp
      && if fire && !s.sent then
           && sessions == old(sessions)[sid := Closed(s)]
           && finals == old(finals) + [Final(sid, Conclude(s))]
           && statuses == old(statuses) + st + [ConcludeStatus(Conclude(s))]
           && !requestActive
           && radio == old(radio) + rc + [Disconnect(s.peripheral.uuid)]
         else
           && sessions == old(sessions)[sid := s]
           && finals == old(finals)
           && statuses == old(statuses) + st
           && requestActive == old(requestActive)
           && radio == old(radio) + rc
    }

    /**
     * What `getData(p)` does: when a request is already active, only the
     * yellow "requesting" status; otherwise a new session, the green status,
     * `requestActive` set and a connect call.
     */
    twostate predicate Requested(p: Peripheral)
      reads this
    {
      && finals == old(finals) && reports == old(reports) && requestActive
      && if old(requestActive) then
           && sessions == old(sessions)
           && statuses == old(statuses) + [Status(Yellow, "requesting")]
           && radio == old(radio)
         else
           && sessions == old(sessions) + [NewSession(p)]
           && statuses == old(statuses) + [Status(Green, "requesting")]
           && radio == old(radio) + [Connect(p.uuid)]
    }

    /**
     * One callback of session sid: it leaves the session as s, sets the
     * statuses st, reports rp and calls the radio with rc, and then, when
     * fire, calls `send`, which has its effect only if s is not yet sent.
     */
    method Commit(sid: nat, s: Session, fire: bool, st: seq<Status>, rp: seq<Report>, rc: seq<RadioCall>)
      requires Valid() && sid < |sessions|
      requires s.sent == sessions[sid].sent && SessionOk(s)
      requires Live(sessions[sid]) ==> Live(s)
      modifies this
      ensures Valid()
      ensures SessionStep(sid, s, fire, st, rp, rc)
    {
      if fire && !s.sent {
        Finalize(sid, s, st, rp, rc);
      } else {
        Update(sid, s, st, rp, rc);
      }
    }

    /** A callback that leaves session sid as s and does not reach an effective `send`. */
    method Update(sid: nat, s: Session, st: seq<Status>, rp: seq<Report>, rc: seq<RadioCall>)
      requires Valid() && sid < |sessions|
      requires s.sent == sessions[sid].sent && SessionOk(s)
      requires Live(sessions[sid]) ==> Live(s)
      modifies this
      ensures Valid()
      ensures GateUnchanged() && sessions == old(sessions)[sid := s] && finals == old(finals)
      ensures statuses == old(statuses) + st && reports == old(reports) + rp && radio == old(radio) + rc
      ensures requestActive == old(requestActive)
    {
      UpdateKeepsSessionsValid(finals, sessions, sid, s);
      sessions := sessions[sid := s];
      statuses := statuses + st;
      reports := reports + rp;
      radio := radio + rc;
    }

    /**
     * A callback that leaves session sid as s, not yet sent, and then calls
     * `send`: the reading goes out (or "no data" is shown), the request is
     * released and the peripheral disconnected.
     */
    method Finalize(sid: nat, s: Session, st: seq<Status>, rp: seq<Report>, rc: seq<RadioCall>)
      requires Valid() && sid < |sessions|
      requires !s.sent && !sessions[sid].sent && SessionOk(s)
      modifies this
      ensures Valid()
      ensures GateUnchanged() && sessions == old(sessions)[sid := Closed(s)]
      ensures finals == old(finals) + [Final(sid, Conclude(s))]
      ensures statuses == old(statuses) + st + [ConcludeStatus(Conclude(s))]
      ensures reports == old(reports) + rp && radio == old(radio) + rc + [Disconnect(s.peripheral.uuid)]
      ensures !requestActive
    {
      var o := Conclude(s);
      FinalizeKeepsSessionsValid(finals, sessions, sid, s, o);
      finals := finals + [Final(sid, o)];
      sessions := sessions[sid := Closed(s)];
      statuses := statuses + st + [ConcludeStatus(o)];
      reports := reports + rp;
      radio := radio + rc + [Disconnect(s.peripheral.uuid)];
      requestActive := false;
    }

    /** The `send` closure of session sid: effective once, a no-op afterwards. */
    method Send(sid: nat)
      requires Valid() && sid < |sessions|
      modifies this
      ensures Valid()
      ensures SessionStep(sid, old(sessions[sid]), true, [], [], [])
    {
      Commit(sid, sessions[sid], true, [], [], []);
    }

    /** `getData(p)`: a busy request changes nothing but the status. */
    method GetData(p: Peripheral)
      requires Valid()
      modifies this
      ensures Valid()
      ensures GateUnchanged()
      ensures Requested(p)
    {
      if requestActive {
        statuses := statuses + [Status(Yellow, "requesting")];
        return;
      }
      statuses := statuses + [Status(Green, "requesting")];
      AppendKeepsSessionsValid(finals, sessions, NewSession(p));
      requestActive := true;
      sessions := sessions + [NewSession(p)];
      radio := radio + [Connect(p.uuid)];
    }

    /** Nothing but the cache and the statuses changed; the statuses grew by st. */
    twostate predicate OnlyStatus(st: seq<Status>)
      reads this
    {
      && scanningActive == old(scanningActive) && scans == old(scans) && powerListeners == old(powerListeners)
      && sessions == old(sessions) && requestActive == old(requestActive)
      && finals == old(finals) && reports == old(reports) && radio == old(radio)
      && statuses == old(statuses) + st
    }

    // -------------------------------------------------------------------------
    // The request gate: the `input` handler and the scan it may start
    // -------------------------------------------------------------------------

    /**
     * The `input` handler.  The cache rule runs first; then, by the gate's
     * decision, the handler requests data from the cached peripheral, reports
     * "searching", reports the missing address, or opens a scan window, arms
     * its timeout and starts scanning (or waits for the radio to power on).
     */
    method Input(m: InputMsg, poweredOn: bool)
      requires Valid()
      modifies this
      ensures Valid()
      ensures peripheral == Retained(old(peripheral), m)
      ensures var d := Gate(old(peripheral), old(scanningActive), m, configAddress);
        d.UseCached? ==>
          && Requested(d.p)
          && scanningActive == old(scanningActive) && scans == old(scans) && powerListeners == old(powerListeners)
      ensures Gate(old(peripheral), old(scanningActive), m, configAddress).ReportSearching? ==>
        OnlyStatus([Status(Yellow, "searching")])
      ensures Gate(old(peripheral), old(scanningActive), m, configAddress).MissingAddress? ==>
        OnlyStatus([Status(Red, "address is not specified")])
      ensures var d := Gate(old(peripheral), old(scanningActive), m, configAddress);
        d.StartScan? ==>
          && scanningActive
          && scans == old(scans) + [ScanWindow(d.target, [], true, true, true)]
          && statuses == old(statuses) + [Status(Green, "searching")]
          && sessions == old(sessions) && requestActive == old(requestActive)
          && finals == old(finals) && reports == old(reports)
          && (poweredOn ==> radio == old(radio) + [StartScanning] && powerListeners == old(powerListeners))
          && (!poweredOn ==> radio == old(radio) && powerListeners == old(powerListeners) + 1)
    {
      ghost var d := Gate(peripheral, scanningActive, m, configAddress);
      ApplyCacheRule(m);

      if peripheral.Some? {
        assert d == UseCached(peripheral.value);
        GetData(peripheral.value);
      } else if scanningActive {
        assert d == ReportSearching;
        statuses := statuses + [Status(Yellow, "searching")];
      } else {
        var address := if m.address != "" then m.address else configAddress;
        if address == "" {
          assert d == MissingAddress;
          statuses := statuses + [Status(Red, "address is not specified")];
          return;
        }
        assert d == StartScan(address);
        OpenScan(address, poweredOn);
      }
    }

    /** The `input` handler's first step: drop the cached peripheral when the message asks for it. */
    method ApplyCacheRule(m: InputMsg)
      requires Valid()
      modifies this
      ensures Valid()
      ensures peripheral == Retained(old(peripheral), m)
      ensures OnlyStatus([])
    {
      var forceScan := m.scan;
      var addressChanged := peripheral.Some? && m.address != "" && peripheral.value.address != Lower(m.address);
      if peripheral.Some? && peripheral.value.uuid == ClearGrassUuid {
        // the data is in the advertisement, so this device is scanned for every time
        forceScan := true;
      }
      if forceScan || addressChanged {
        peripheral := None;
      }
    }

    /**
     * The scan the `input` handler starts: `scanningActive` set, a window
     * with its scan timeout, `discover` listener and `scanStop` once-listener,
     * and the radio's scan started now or once it powers on.
     */
    method OpenScan(address: string, poweredOn: bool)
      requires Valid() && !scanningActive
      modifies this
      ensures Valid()
      ensures scanningActive && peripheral == old(peripheral)
      ensures scans == old(scans) + [ScanWindow(address, [], true, true, true)]
      ensures statuses == old(statuses) + [Status(Green, "searching")]
      ensures sessions == old(sessions) && requestActive == old(requestActive)
      ensures finals == old(finals) && reports == old(reports)
      ensures poweredOn ==> radio == old(radio) + [StartScanning] && powerListeners == old(powerListeners)
      ensures !poweredOn ==> radio == old(radio) && powerListeners == old(powerListeners) + 1
    {
      scanningActive := true;
      statuses := statuses + [Status(Green, "searching")];
      scans := scans + [ScanWindow(address, [], true, true, true)];
      if poweredOn {
        radio := radio + [StartScanning];
      } else {
        powerListeners := powerListeners + 1;
      }
    }

    /**
     * A `discover` event.  Only the newest window can still be listening; it
     * records the address, and on a match caches the peripheral, stops
     * listening, clears `scanningActive` and requests data.
     */
    method Discover(p: Peripheral)
      requires Valid()
      modifies this
      ensures Valid()
      ensures !old(scanningActive) ==> unchanged(this)
      ensures old(scanningActive) ==>
        var last := |old(scans)| - 1;
        var w := old(scans)[last].(found := old(scans)[last].found + [p.address]);
        if AddressMatches(p, w.target) then
          && peripheral == Some(p) && !scanningActive
          && scans == old(scans)[last := w.(discovering := false)]
          && powerListeners == old(powerListeners)
          && Requested(p)
        else
          && scans == old(scans)[last := w]
          && peripheral == old(peripheral) && scanningActive && powerListeners == old(powerListeners)
          && sessions == old(sessions) && requestActive == old(requestActive)
          && finals == old(finals) && statuses == old(statuses) && reports == old(reports) && radio == old(radio)
    {
      if !scanningActive {
        // no `discover` listener is registered
        return;
      }
      var last := |scans| - 1;
      var w := scans[last];
      w := w.(found := w.found + [p.address]);
      scans := scans[last := w];
      if p.address == Lower(w.target) {
        peripheral := Some(p);
        scans := scans[last := w.(discovering := false)];
        scanningActive := false;
        GetData(p);
      }
    }

    /** The scan timeout of window w fires and stops the radio's scan. */
    method ScanTimeout(w: nat)
      requires Valid() && w < |scans| && scans[w].timerArmed
      modifies this
      ensures Valid()
      ensures scans == old(scans)[w := old(scans)[w].(timerArmed := false)]
      ensures radio == old(radio) + [StopScanning]
      ensures peripheral == old(peripheral) && scanningActive == old(scanningActive) && powerListeners == old(powerListeners)
      ensures sessions == old(sessions) && requestActive == old(requestActive)
      ensures finals == old(finals) && statuses == old(statuses) && reports == old(reports)
    {
      scans := scans[w := scans[w].(timerArmed := false)];
      radio := radio + [StopScanning];
    }

    /**
     * A `scanStop` event runs every `scanStop` once-listener registered so
     * far, oldest first: each removes its `discover` listener and clears
     * `scanningActive`, and reports "not found" while nothing is cached.
     */
    method ScanStop()
      requires Valid()
      modifies this
      ensures Valid()
      ensures !scanningActive && scans == StopAll(old(scans))
      ensures peripheral.None? ==>
        statuses == old(statuses) + NotFoundStatuses(old(scans)) && reports == old(reports) + NotFoundReports(old(scans))
      ensures peripheral.Some? ==> statuses == old(statuses) && reports == old(reports)
      ensures peripheral == old(peripheral) && powerListeners == old(powerListeners)
      ensures sessions == old(sessions) && requestActive == old(requestActive)
      ensures finals == old(finals) && radio == old(radio)
    {
      var stopped, st, rp := RunScanStop(scans, peripheral.Some?);
      scans := stopped;
      scanningActive := false;
      statuses := statuses + st;
      reports := reports + rp;
    }

    /**
     * A `stateChange` event runs every waiting once-listener: each starts the
     * scan when the radio is now powered on, and reports the state otherwise.
     */
    method StateChange(state: string)
      requires Valid()
      modifies this
      ensures Valid()
      ensures powerListeners == 0
      ensures state == "poweredOn" ==>
        radio == old(radio) + Repeat(StartScanning, old(powerListeners)) && statuses == old(statuses)
      ensures state != "poweredOn" ==>
        radio == old(radio) && statuses == old(statuses) + Repeat(Status(Red, "device status: " + state), old(powerListeners))
      ensures peripheral == old(peripheral) && scanningActive == old(scanningActive) && scans == old(scans)
      ensures sessions == old(sessions) && requestActive == old(requestActive)
      ensures finals == old(finals) && reports == old(reports)
    {
      if state == "poweredOn" {
        radio := radio + Repeat(StartScanning, powerListeners);
      } else {
        statuses := statuses + Repeat(Status(Red, "device status: " + state), powerListeners);
      }
      powerListeners := 0;
    }

    // -------------------------------------------------------------------------
    // Session callbacks
    // -------------------------------------------------------------------------

    /**
     * The `connect` callback of session sid.  On error: the red status, the
     * timeout cleared and `requestActive` released (the `disconnect` listener
     * stays registered).  Otherwise the codec the peripheral selects starts:
     * the soil codec reads the battery and writes the trigger command, the
     * notify codec reads the battery and looks up the data characteristic,
     * and the broadcast codec decodes the advertisement and calls `send`.
     */
    method Connected(sid: nat, error: Option<string>)
      requires Valid() && sid < |sessions| && sessions[sid].link == Connecting
      modifies this
      ensures Valid()
      ensures error.Some? ==>
        && GateUnchanged()
        && sessions == old(sessions)[sid := old(sessions[sid]).(link := Refused, watchdogArmed := false)]
        && statuses == old(statuses) + [Status(Red, "cannot connect: " + error.value)]
        && !requestActive && finals == old(finals) && reports == old(reports) && radio == old(radio)
      ensures var s := old(sessions[sid]).(link := Linked); var u := s.peripheral.uuid;
        error.None? && SelectCodec(s.peripheral) == SoilSensor ==>
          SessionStep(sid, s.(batteryPending := true, writePending := true), false, [], [],
            [ReadHandle(u, SoilBatteryHandle), WriteHandle(u, TriggerHandle, TriggerCommand)])
      ensures var s := old(sessions[sid]).(link := Linked); var u := s.peripheral.uuid;
        error.None? && SelectCodec(s.peripheral) == NotifySensor ==>
          SessionStep(sid, s.(batteryPending := true, discoverPending := true), false, [], [],
            [ReadHandle(u, NotifyBatteryHandle), DiscoverCharacteristics(u, [DataServiceUuid], [DataCharUuid])])
      ensures var s := old(sessions[sid]).(link := Linked); var es := s.peripheral.serviceData;
        error.None? && SelectCodec(s.peripheral) == BroadcastSensor ==>
          SessionStep(sid, s.(msg := AdvertisementMsg(s.msg, es)), FirstTagged(es).Some?, [], [], [])
    {
      var s := sessions[sid];
      if error.Some? {
        s := s.(link := Refused, watchdogArmed := false);
        UpdateKeepsSessionsValid(finals, sessions, sid, s);
        sessions := sessions[sid := s];
        statuses := statuses + [Status(Red, "cannot connect: " + error.value)];
        requestActive := false;
        return;
      }
      s := s.(link := Linked);
      var u := s.peripheral.uuid;
      var codec := SelectCodec(s.peripheral);
      if codec == SoilSensor {
        // mifloraRead
        Commit(sid, s.(batteryPending := true, writePending := true), false, [], [],
          [ReadHandle(u, SoilBatteryHandle), WriteHandle(u, TriggerHandle, TriggerCommand)]);
      } else if codec == BroadcastSensor {
        // cleargrassTempHumiRead
        var full, atSend := BroadcastPass(s.msg, s.peripheral.serviceData);
        var msg := if atSend.Some? then atSend.value else full;
        Commit(sid, s.(msg := msg), atSend.Some?, [], [], []);
      } else {
        // mijiaTemperatureRead
        Commit(sid, s.(batteryPending := true, discoverPending := true), false, [], [],
          [ReadHandle(u, NotifyBatteryHandle), DiscoverCharacteristics(u, [DataServiceUuid], [DataCharUuid])]);
      }
    }

    /**
     * The battery read of either connected codec: on error the red status;
     * otherwise the first byte becomes the battery level and counts as one
     * of the two values whose arrival calls `send`.
     */
    method BatteryResult(sid: nat, r: Result<seq<byte>>)
      requires Valid() && sid < |sessions| && sessions[sid].batteryPending
      modifies this
      ensures Valid()
      ensures var s := old(sessions[sid]).(batteryPending := false);
        r.Err? ==> SessionStep(sid, s, false, [Status(Red, "cannot read battery: " + r.error)], [], [])
      ensures var s := old(sessions[sid]).(batteryPending := false);
        r.Ok? ==>
          var s' := s.(msg := s.msg[Battery := BatteryLevel(r.value)], dataCount := s.dataCount + 1);
          SessionStep(sid, s', s'.dataCount == 2, [], [], [])
    {
      var s := sessions[sid].(batteryPending := false);
      if r.Err? {
        Commit(sid, s, false, [Status(Red, "cannot read battery: " + r.error)], [], []);
      } else {
        s := s.(msg := s.msg[Battery := BatteryLevel(r.value)], dataCount := s.dataCount + 1);
        Commit(sid, s, s.dataCount == 2, [], [], []);
      }
    }

    /** The soil codec's trigger write: on success, read the data block. */
    method WriteResult(sid: nat, error: Option<string>)
      requires Valid() && sid < |sessions| && sessions[sid].writePending
      modifies this
      ensures Valid()
      ensures var s := old(sessions[sid]).(writePending := false);
        error.Some? ==> SessionStep(sid, s, false, [Status(Red, "cannot write: " + error.value)], [], [])
      ensures var s := old(sessions[sid]).(writePending := false);
        error.None? ==> SessionStep(sid, s.(blockPending := true), false, [], [], [ReadHandle(s.peripheral.uuid, BlockHandle)])
    {
      var s := sessions[sid].(writePending := false);
      if error.Some? {
        Commit(sid, s, false, [Status(Red, "cannot write: " + error.value)], [], []);
      } else {
        Commit(sid, s.(blockPending := true), false, [], [], [ReadHandle(s.peripheral.uuid, BlockHandle)]);
      }
    }

    /** The soil codec's data-block read: decode it, one of the two values. */
    method BlockResult(sid: nat, r: Result<seq<byte>>)
      requires Valid() && sid < |sessions| && sessions[sid].blockPending
      modifies this
      ensures Valid()
      ensures var s := old(sessions[sid]).(blockPending := false);
        r.Err? ==> SessionStep(sid, s, false, [Status(Red, "cannot read data: " + r.error)], [], [])
      ensures var s := old(sessions[sid]).(blockPending := false);
        r.Ok? ==>
          var s' := s.(msg := s.msg + SoilReading(r.value), dataCount := s.dataCount + 1);
          SessionStep(sid, s', s'.dataCount == 2, [], [], [])
    {
      var s := sessions[sid].(blockPending := false);
      if r.Err? {
        Commit(sid, s, false, [Status(Red, "cannot read data: " + r.error)], [], []);
      } else {
        s := s.(msg := s.msg + SoilReading(r.value), dataCount := s.dataCount + 1);
        Commit(sid, s, s.dataCount == 2, [], [], []);
      }
    }

    /**
     * The notify codec's characteristic lookup: for every characteristic
     * with the data uuid, a once-listener for its first notification, a
     * 30-second timer that removes it, and a subscribe call.
     */
    method Discovered(sid: nat, r: Result<seq<string>>)
      requires Valid() && sid < |sessions| && sessions[sid].discoverPending
      modifies this
      ensures Valid()
      ensures var s := old(sessions[sid]).(discoverPending := false);
        r.Err? ==> SessionStep(sid, s, false, [Status(Red, "cannot discover services: " + r.error)], [], [])
      ensures var s := old(sessions[sid]).(discoverPending := false);
        r.Ok? ==>
          var ks := DataCharIndices(r.value);
          SessionStep(sid, s.(listeners := s.listeners + ks, expiries := s.expiries + ks,
                              expiryTarget := ExpiryTarget(r.value), acks := s.acks + ks),
            false, [], [], SubscribeCalls(s.peripheral.uuid, r.value))
    {
      var s := sessions[sid].(discoverPending := false);
      if r.Err? {
        Commit(sid, s, false, [Status(Red, "cannot discover services: " + r.error)], [], []);
      } else {
        var ks, calls := SubscribeAll(s.peripheral.uuid, r.value);
        Commit(sid, s.(listeners := s.listeners + ks, expiries := s.expiries + ks,
                       expiryTarget := ExpiryTarget(r.value), acks := s.acks + ks), false, [], [], calls);
      }
    }

    /**
     * The first notification on characteristic k: a well-formed payload
     * stores temperature and humidity, one of the two values; any other is
     * reported as incorrect data.  The listener is removed either way.
     */
    method Notification(sid: nat, k: nat, payload: string)
      requires Valid() && sid < |sessions| && k in sessions[sid].listeners
      modifies this
      ensures Valid()
      ensures var s := old(sessions[sid]).(listeners := old(sessions[sid]).listeners - {k});
        ParseNotification(payload).None? ==> SessionStep(sid, s, false, [], [IncorrectData(payload)], [])
      ensures var s := old(sessions[sid]).(listeners := old(sessions[sid]).listeners - {k});
        ParseNotification(payload).Some? ==>
          var (t, h) := ParseNotification(payload).value;
          var s' := s.(msg := s.msg[Temperature := t][Humidity := h], dataCount := s.dataCount + 1);
          SessionStep(sid, s', s'.dataCount == 2, [], [], [])
    {
      var s := sessions[sid];
      s := s.(listeners := s.listeners - {k});
      var parsed := ParseNotification(payload);
      if parsed.None? {
        Commit(sid, s, false, [], [IncorrectData(payload)], []);
      } else {
        var (t, h) := parsed.value;
        s := s.(msg := s.msg[Temperature := t][Humidity := h], dataCount := s.dataCount + 1);
        Commit(sid, s, s.dataCount == 2, [], [], []);
      }
    }

    /**
     * The 30-second timer set up for characteristic k fires.  It removes the
     * handler its closure names (ExpiryTarget), if still registered, which
     * is characteristic k's own only when k is the last characteristic.
     */
    method ListenerExpired(sid: nat, k: nat)
      requires Valid() && sid < |sessions| && k in sessions[sid].expiries
      modifies this
      ensures Valid()
      ensures var s := old(sessions[sid]);
        SessionStep(sid, s.(listeners := Expire(s.listeners, s.expiryTarget), expiries := s.expiries - {k}), false, [], [], [])
    {
      var s := sessions[sid];
      Commit(sid, s.(listeners := Expire(s.listeners, s.expiryTarget), expiries := s.expiries - {k}), false, [], [], []);
    }

    /** The subscribe callback of characteristic k: an error is reported. */
    method Subscribed(sid: nat, k: nat, error: Option<string>)
      requires Valid() && sid < |sessions| && k in sessions[sid].acks
      modifies this
      ensures Valid()
      ensures var s := old(sessions[sid]).(acks := old(sessions[sid]).acks - {k});
        SessionStep(sid, s, false, [], if error.Some? then [SubscribeError(error.value)] else [], [])
    {
      var s := sessions[sid];
      Commit(sid, s.(acks := s.acks - {k}), false, [], if error.Some? then [SubscribeError(error.value)] else [], []);
    }

    /**
     * The 30-second disconnect timeout of session sid fires.  It is armed
     * only while the session is unsent, so its `send` always has its effect.
     */
    method WatchdogFired(sid: nat)
      requires Valid() && sid < |sessions| && sessions[sid].watchdogArmed
      modifies this
      ensures Valid()
      ensures SessionStep(sid, old(sessions[sid]), true, [], [], [])
      ensures finals == old(finals) + [Final(sid, Conclude(old(sessions[sid])))]
    {
      Send(sid);
    }

    /**
     * The peripheral's `disconnect` event reaches the once-listener of
     * session sid: its `send` has its effect unless the session was sent.
     */
    method Disconnected(sid: nat)
      requires Valid() && sid < |sessions| && sessions[sid].listening
      modifies this
      ensures Valid()
      ensures SessionStep(sid, old(sessions[sid]), true, [], [], [])
      ensures finals == old(finals) + [Final(sid, Conclude(old(sessions[sid])))]
    {
      Send(sid);
    }
  }
}
