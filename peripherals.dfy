/**
 * What the node knows about a discovered device, how it picks the codec for
 * it, and the string helpers the request gate uses on addresses and uuids.
 */
module Peripherals {
  import opened Codecs

  /** The uuid of the ClearGrass CGG1 sensor, whose data is only in its advertisement. */
  const ClearGrassUuid: string := "582d3410b29b"
  /** The advertised service whose presence marks the soil sensor. */
  const SoilServiceUuid: string := "fe95"
  /** The tag of the advertisement service-data block that carries the broadcast readings. */
  const BroadcastTag: string := "fdcd"

  /** One entry of `advertisement.serviceData`. */
  datatype ServiceData = ServiceData(uuid: string, data: seq<byte>)

  /** A discovered peripheral: identity, address and the advertisement the codecs inspect. */
  datatype Peripheral = Peripheral(
    uuid: string,
    address: string,
    serviceUuids: seq<string>,
    serviceData: seq<ServiceData>)

  /** The three device families. */
  datatype Codec = SoilSensor | BroadcastSensor | NotifySensor

  /**
   * The codec a connected peripheral is read with: the soil sensor when it
   * advertises service fe95, else the broadcast sensor when it is the CGG1,
   * else the notify-based sensor.  Each family is chosen exactly under its
   * condition, the soil service taking priority.
   */
  function SelectCodec(p: Peripheral): (c: Codec)
    ensures c == SoilSensor <==> SoilServiceUuid in p.serviceUuids
    ensures c == BroadcastSensor <==> SoilServiceUuid !in p.serviceUuids && p.uuid == ClearGrassUuid
    ensures c == NotifySensor <==> SoilServiceUuid !in p.serviceUuids && p.uuid != ClearGrassUuid
  {
    if SoilServiceUuid in p.serviceUuids then SoilSensor
    else if p.uuid == ClearGrassUuid then BroadcastSensor
    else NotifySensor
  }

  /** `sub` stands in s at position i. */
  predicate SubstringAt(s: string, i: nat, sub: string) {
    i + |sub| <= |s| && s[i..i + |sub|] == sub
  }

  /** `s.includes(sub)`. */
  predicate Contains(s: string, sub: string) {
    exists i: nat | i <= |s| :: SubstringAt(s, i, sub)
  }

  /** The service-data entries the broadcast codec decodes. */
  predicate Tagged(e: ServiceData) {
    Contains(e.uuid, BroadcastTag)
  }

  /** `toLowerCase` on one character (ASCII letters only). */
  function LowerChar(c: char): (r: char)
    ensures 'A' <= c <= 'Z' ==> r as int == c as int + 32
    ensures !('A' <= c <= 'Z') ==> r == c
  {
    if 'A' <= c <= 'Z' then (c as int + 32) as char else c
  }

  /** `toLowerCase` on a string: every character lowered in place. */
  function Lower(s: string): (r: string)
    ensures |r| == |s|
    ensures forall i :: 0 <= i < |s| ==> r[i] == LowerChar(s[i])
  {
    if s == [] then [] else [LowerChar(s[0])] + Lower(s[1..])
  }

  /** Lowering twice is lowering once. */
  lemma LowerIdempotent(s: string)
    ensures Lower(Lower(s)) == Lower(s)
  {
  }

  /** A string without upper-case letters is its own lower-case form. */
  lemma LowerFixesLowerCase(s: string)
    requires forall i :: 0 <= i < |s| ==> !('A' <= s[i] <= 'Z')
    ensures Lower(s) == s
  {
  }

  /** The discover check: the peripheral's address is the target lowered. */
  predicate AddressMatches(p: Peripheral, target: string) {
    p.address == Lower(target)
  }

  /** The check ignores the case of the target: the target and its lower-case form match alike. */
  lemma AddressMatchesIgnoresCase(p: Peripheral, target: string)
    ensures AddressMatches(p, target) <==> AddressMatches(p, Lower(target))
  {
    LowerIdempotent(target);
  }
}
