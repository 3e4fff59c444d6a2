/**
 * The decision the `input` handler takes for one inbound message: keep or
 * drop the cached peripheral, then request data from it, report that a scan
 * is under way, refuse for want of an address, or start a scan.
 */
module RequestGate {
  import opened Wrappers
  import opened Peripherals

  /**
   * The parts of an inbound message the handler reads: whether `msg.scan` is
   * truthy, and `msg.address` (the empty string when absent or falsy).
   */
  datatype InputMsg = InputMsg(scan: bool, address: string)

  /** What the handler does once the cache rule has run. */
  datatype Decision =
    | UseCached(p: Peripheral)   // request data from the cached peripheral
    | ReportSearching            // a scan is active: report "searching" only
    | MissingAddress             // no address anywhere: report an error
    | StartScan(target: string)  // open a scan window for this address

  /**
   * The cached peripheral is dropped when a rescan is asked for, when the
   * message names another address (compared lowered), or when the cached
   * device is the CGG1, which must be rescanned every time.
   */
  predicate DropsCache(cached: Peripheral, m: InputMsg) {
    m.scan
    || (m.address != "" && cached.address != Lower(m.address))
    || cached.uuid == ClearGrassUuid
  }

  /** The cache after the drop rule. */
  function Retained(cached: Option<Peripheral>, m: InputMsg): (r: Option<Peripheral>)
    ensures r.Some? ==> r == cached && !DropsCache(cached.value, m)
    ensures cached.Some? && !DropsCache(cached.value, m) ==> r == cached
  {
    if cached.Some? && !DropsCache(cached.value, m) then cached else None
  }

  /** The address a scan looks for: the message's, else the configured one. */
  function Target(m: InputMsg, configAddress: string): string {
    if m.address != "" then m.address else configAddress
  }

  /** The gate of the `input` handler. */
  function Gate(cached: Option<Peripheral>, scanning: bool, m: InputMsg, configAddress: string): (d: Decision)
    ensures d.UseCached? <==> Retained(cached, m).Some?
    ensures d == ReportSearching <==> Retained(cached, m).None? && scanning
    ensures d.StartScan? <==> Retained(cached, m).None? && !scanning && Target(m, configAddress) != ""
    ensures d.StartScan? ==> d.target == Target(m, configAddress) && d.target != ""
  {
    var kept := Retained(cached, m);
    if kept.Some? then UseCached(kept.value)
    else if scanning then ReportSearching
    else if Target(m, configAddress) == "" then MissingAddress
    else StartScan(Target(m, configAddress))
  }

  /** The cached peripheral is used exactly when it survives the drop rule. */
  lemma GateUsesCache(cached: Option<Peripheral>, scanning: bool, m: InputMsg, configAddress: string)
    ensures Gate(cached, scanning, m, configAddress).UseCached?
        <==> cached.Some? && !DropsCache(cached.value, m)
    ensures Gate(cached, scanning, m, configAddress).UseCached? ==>
        Gate(cached, scanning, m, configAddress).p == cached.value
  {
  }

  /** Without a usable cache, an active scan turns every request into a "searching" report. */
  lemma GateWhileScanning(cached: Option<Peripheral>, m: InputMsg, configAddress: string)
    requires Retained(cached, m).None?
    ensures Gate(cached, true, m, configAddress) == ReportSearching
  {
  }

  /** A scan starts only when no scan is active, and never without an address. */
  lemma GateScanNeedsAddress(cached: Option<Peripheral>, scanning: bool, m: InputMsg, configAddress: string)
    ensures Gate(cached, scanning, m, configAddress) == MissingAddress
        <==> Retained(cached, m).None? && !scanning && m.address == "" && configAddress == ""
    ensures Gate(cached, scanning, m, configAddress).StartScan? ==>
        Gate(cached, scanning, m, configAddress).target
          == (if m.address != "" then m.address else configAddress)
  {
  }

  /**
   * Repeating a request that was served from the cache is served from the
   * cache again, whatever the scan state: no rescan is triggered.
   */
  lemma GateRepeatUsesCache(cached: Option<Peripheral>, scanning: bool, scanning': bool, m: InputMsg, configAddress: string)
    requires Gate(cached, scanning, m, configAddress).UseCached?
    ensures Retained(Retained(cached, m), m) == Retained(cached, m)
    ensures Gate(Retained(cached, m), scanning', m, configAddress) == Gate(cached, scanning, m, configAddress)
  {
  }

  /** A CGG1 in the cache is never used: every request for it scans again. */
  lemma GateRescansBroadcastSensor(p: Peripheral, scanning: bool, m: InputMsg, configAddress: string)
    requires p.uuid == ClearGrassUuid
    ensures !Gate(Some(p), scanning, m, configAddress).UseCached?
  {
  }
}
