/**
 * The byte-level decoders of the three sensor families.  A reading is the
 * `msg` object the node fills in: a map from field name to the JavaScript
 * number stored under it.  Numbers are kept exact as fixed-point decimals.
 */
module Codecs {

  /** One octet of a Buffer. */
  type byte = b: int | 0 <= b < 256

  /**
   * A JavaScript number as the decoders produce it: `Num(m, k)` stands for
   * m / 10^k; `NaN` is what arithmetic on a missing buffer byte gives, and
   * `Undefined` is a buffer index past the end, stored as is.
   */
  datatype Value = Num(mantissa: int, scale: nat) | NaN | Undefined

  /** The keys a reading may carry. */
  datatype Field = Battery | Temperature | Humidity | Light | Moisture | Conductivity

  /** The `msg` object under construction: `Object.keys(msg)` is its key set. */
  type Reading = map<Field, Value>

  /** `data[i]` of a Buffer: undefined past the end. */
  function ByteAt(data: seq<byte>, i: nat): (v: Value)
    ensures v != Undefined <==> i < |data|
    ensures i < |data| ==> v == Num(data[i], 0)
  {
    if i < |data| then Num(data[i], 0) else Undefined
  }

  /** `256 * data[i + 1] + data[i]`: NaN as soon as one of the two bytes is missing. */
  function Le16(data: seq<byte>, i: nat): (v: Value)
    ensures v != NaN <==> i + 1 < |data|
    ensures i + 1 < |data| ==> v == Num(256 * (data[i + 1] as int) + data[i] as int, 0)
    ensures v.Num? ==> v.scale == 0 && 0 <= v.mantissa < 0x1_0000
  {
    if i + 1 < |data| then Num(256 * (data[i + 1] as int) + data[i] as int, 0) else NaN
  }

  /** Division by ten of a decoded number; NaN and undefined both give NaN. */
  function Tenths(v: Value): (r: Value)
    ensures r.Num? <==> v.Num?
    ensures v.Num? ==> r.mantissa == v.mantissa && r.scale == v.scale + 1
    ensures !v.Num? ==> r == NaN
  {
    match v
    case Num(m, k) => Num(m, k + 1)
    case _ => NaN
  }

  /** The two little-endian bytes of a 16-bit unsigned number. */
  function Le16Bytes(n: nat): (r: seq<byte>)
    requires n < 0x1_0000
    ensures |r| == 2 && 256 * (r[1] as int) + r[0] as int == n
  {
    [n % 256, n / 256]
  }

  /** Decoding the bytes of a 16-bit number gives the number back. */
  lemma Le16RoundTrip(prefix: seq<byte>, n: nat, suffix: seq<byte>)
    requires n < 0x1_0000
    ensures Le16(prefix + Le16Bytes(n) + suffix, |prefix|) == Num(n, 0)
  {
    var s := prefix + Le16Bytes(n) + suffix;
    assert s[|prefix|] == Le16Bytes(n)[0] && s[|prefix| + 1] == Le16Bytes(n)[1];
  }

  /** Two byte pairs with the same little-endian value are the same pair. */
  lemma Le16Injective(lo: byte, hi: byte, lo': byte, hi': byte)
    requires 256 * (hi as int) + lo as int == 256 * (hi' as int) + lo' as int
    ensures lo == lo' && hi == hi'
  {
  }

  // ---------------------------------------------------------------------------
  // Battery level (both connected sensor families)
  // ---------------------------------------------------------------------------

  /**
   * `data.toString().charCodeAt(0)`: the first byte of the read result, NaN
   * when the result is empty.  Exact for a first byte below 0x80.
   */
  function BatteryLevel(data: seq<byte>): (v: Value)
    ensures v.Num? <==> |data| > 0
    ensures |data| > 0 ==> v == Num(data[0], 0)
    ensures |data| == 0 ==> v == NaN
    ensures v.Num? ==> v.scale == 0 && 0 <= v.mantissa < 256
  {
    if |data| > 0 then Num(data[0], 0) else NaN
  }

  /** A battery read result whose first byte is b reads as the level b. */
  lemma BatteryLevelIsFirstByte(b: byte, rest: seq<byte>)
    ensures BatteryLevel([b] + rest) == Num(b, 0)
  {
  }

  // ---------------------------------------------------------------------------
  // Soil sensor: the 10-byte measurement block read from handle 0x35
  // ---------------------------------------------------------------------------

  /**
   * The four fields the soil sensor codec stores from a measurement block:
   * temperature in tenths of a degree (bytes 0-1), light (bytes 3-4),
   * moisture (byte 7) and conductivity (bytes 8-9).
   */
  function SoilReading(data: seq<byte>): (r: Reading)
    ensures r.Keys == {Temperature, Light, Moisture, Conductivity}
  {
    map[Temperature := Tenths(Le16(data, 0)),
        Light := Le16(data, 3),
        Moisture := ByteAt(data, 7),
        Conductivity := Le16(data, 8)]
  }

  /** On a full block every field is the exact little-endian value of its bytes. */
  lemma SoilReadingExact(data: seq<byte>)
    requires |data| >= 10
    ensures SoilReading(data)[Temperature] == Num(data[0] as int + 256 * data[1] as int, 1)
    ensures SoilReading(data)[Light] == Num(data[3] as int + 256 * data[4] as int, 0)
    ensures SoilReading(data)[Moisture] == Num(data[7], 0)
    ensures SoilReading(data)[Conductivity] == Num(data[8] as int + 256 * data[9] as int, 0)
  {
  }

  /** On a short block the missing bytes show up as NaN or undefined, never as a number. */
  lemma SoilReadingShort(data: seq<byte>)
    requires |data| < 10
    ensures SoilReading(data)[Conductivity] == NaN
    ensures |data| <= 7 ==> SoilReading(data)[Moisture] == Undefined
    ensures |data| <= 4 ==> SoilReading(data)[Light] == NaN
    ensures |data| <= 1 ==> SoilReading(data)[Temperature] == NaN
  {
  }

  /** A soil sensor block carrying the given readings (the unused bytes 2, 5 and 6 zero). */
  function SoilBlock(temperature: nat, light: nat, moisture: byte, conductivity: nat): (r: seq<byte>)
    requires temperature < 0x1_0000 && light < 0x1_0000 && conductivity < 0x1_0000
    ensures |r| == 10
  {
    Le16Bytes(temperature) + [0] + Le16Bytes(light) + [0, 0] + [moisture] + Le16Bytes(conductivity)
  }

  /** Decoding a block built from readings gives those readings back. */
  lemma SoilRoundTrip(temperature: nat, light: nat, moisture: byte, conductivity: nat)
    requires temperature < 0x1_0000 && light < 0x1_0000 && conductivity < 0x1_0000
    ensures SoilReading(SoilBlock(temperature, light, moisture, conductivity))
         == map[Temperature := Num(temperature, 1), Light := Num(light, 0),
                Moisture := Num(moisture, 0), Conductivity := Num(conductivity, 0)]
  {
    var b := SoilBlock(temperature, light, moisture, conductivity);
    var t, l, c := Le16Bytes(temperature), Le16Bytes(light), Le16Bytes(conductivity);
    assert b[0] == t[0] && b[1] == t[1];
    assert b[3] == l[0] && b[4] == l[1];
    assert b[7] == moisture;
    assert b[8] == c[0] && b[9] == c[1];
    SoilReadingExact(b);
  }

  /**
   * Decoding loses only the unused bytes 2, 5 and 6: two full blocks with the
   * same reading agree on every other byte.
   */
  lemma SoilReadingInjective(a: seq<byte>, b: seq<byte>)
    requires |a| == 10 && |b| == 10
    requires SoilReading(a) == SoilReading(b)
    ensures forall i :: i in {0, 1, 3, 4, 7, 8, 9} ==> a[i] == b[i]
  {
    SoilReadingExact(a);
    SoilReadingExact(b);
    assert SoilReading(a)[Temperature] == SoilReading(b)[Temperature];
    assert SoilReading(a)[Light] == SoilReading(b)[Light];
    assert SoilReading(a)[Moisture] == SoilReading(b)[Moisture];
    assert SoilReading(a)[Conductivity] == SoilReading(b)[Conductivity];
    Le16Injective(a[0], a[1], b[0], b[1]);
    Le16Injective(a[3], a[4], b[3], b[4]);
    Le16Injective(a[8], a[9], b[8], b[9]);
  }

  /** The block `64 00 00 E8 03 00 00 2A 10 00` reads 10.0 degrees, 1000 lux, 42 % and 16. */
  lemma SoilDocumentedBlock()
    ensures SoilReading([0x64, 0x00, 0x00, 0xE8, 0x03, 0x00, 0x00, 0x2A, 0x10, 0x00])
         == map[Temperature := Num(100, 1), Light := Num(1000, 0),
                Moisture := Num(42, 0), Conductivity := Num(16, 0)]
  {
    SoilReadingExact([0x64, 0x00, 0x00, 0xE8, 0x03, 0x00, 0x00, 0x2A, 0x10, 0x00]);
  }

  // ---------------------------------------------------------------------------
  // Broadcast sensor: the service-data block tagged fdcd in the advertisement
  // ---------------------------------------------------------------------------

  /**
   * The three fields the broadcast codec stores from a service-data block:
   * temperature in tenths of a degree from bytes 10-11 (read unsigned),
   * humidity in tenths of a percent from bytes 12-13 and battery from byte 16.
   * A field whose bytes lie past the end of the block is NaN.
   */
  function AdvertisementReading(data: seq<byte>): (r: Reading)
    ensures r.Keys == {Temperature, Humidity, Battery}
  {
    map[Temperature := Tenths(Le16(data, 10)),
        Humidity := Tenths(Le16(data, 12)),
        Battery := if 16 < |data| then Num(data[16], 0) else NaN]
  }

  /** Each field is a number exactly when its bytes are present, and then it is their value. */
  lemma AdvertisementReadingExact(data: seq<byte>)
    ensures AdvertisementReading(data)[Temperature]
         == if |data| >= 12 then Num(data[10] as int + 256 * data[11] as int, 1) else NaN
    ensures AdvertisementReading(data)[Humidity]
         == if |data| >= 14 then Num(data[12] as int + 256 * data[13] as int, 1) else NaN
    ensures AdvertisementReading(data)[Battery]
         == if |data| >= 17 then Num(data[16], 0) else NaN
  {
  }

  /** s in reverse order (the byte-inverted MAC address of the broadcast block). */
  function Reverse(s: seq<byte>): (r: seq<byte>)
    ensures |r| == |s|
    ensures forall i :: 0 <= i < |s| ==> r[i] == s[|s| - 1 - i]
  {
    if s == [] then [] else Reverse(s[1..]) + [s[0]]
  }

  /**
   * A service-data block as the sensor sends it: frame header 08 07, the MAC
   * address byte-reversed, a temperature/humidity event (01 04 + two 16-bit
   * little-endian numbers) and a battery event (02 01 + one byte).
   */
  function AdvertisementBlock(mac: seq<byte>, temperature: nat, humidity: nat, battery: byte): (r: seq<byte>)
    requires |mac| == 6 && temperature < 0x1_0000 && humidity < 0x1_0000
    ensures |r| == 17
  {
    [0x08, 0x07] + Reverse(mac) + [0x01, 0x04] + Le16Bytes(temperature) + Le16Bytes(humidity)
      + [0x02, 0x01, battery]
  }

  /** Decoding a block built from readings gives those readings back, whatever the MAC. */
  lemma AdvertisementRoundTrip(mac: seq<byte>, temperature: nat, humidity: nat, battery: byte)
    requires |mac| == 6 && temperature < 0x1_0000 && humidity < 0x1_0000
    ensures AdvertisementReading(AdvertisementBlock(mac, temperature, humidity, battery))
         == map[Temperature := Num(temperature, 1), Humidity := Num(humidity, 1), Battery := Num(battery, 0)]
  {
    var b := AdvertisementBlock(mac, temperature, humidity, battery);
    var t, h := Le16Bytes(temperature), Le16Bytes(humidity);
    assert b[10] == t[0] && b[11] == t[1];
    assert b[12] == h[0] && b[13] == h[1];
    assert b[16] == battery;
    AdvertisementReadingExact(b);
  }

  /**
   * The documented block `0807453810342d580104f500da02020145` is the block of
   * MAC 58:2d:34:10:38:45 reading 24.5 degrees, 73.0 % and battery 69.
   */
  lemma AdvertisementDocumentedBlock()
    ensures AdvertisementBlock([0x58, 0x2d, 0x34, 0x10, 0x38, 0x45], 245, 730, 69)
         == [0x08, 0x07, 0x45, 0x38, 0x10, 0x34, 0x2d, 0x58, 0x01, 0x04, 0xf5, 0x00, 0xda, 0x02, 0x02, 0x01, 0x45]
    ensures AdvertisementReading([0x08, 0x07, 0x45, 0x38, 0x10, 0x34, 0x2d, 0x58, 0x01, 0x04, 0xf5, 0x00, 0xda, 0x02, 0x02, 0x01, 0x45])
         == map[Temperature := Num(245, 1), Humidity := Num(730, 1), Battery := Num(69, 0)]
  {
    AdvertisementRoundTrip([0x58, 0x2d, 0x34, 0x10, 0x38, 0x45], 245, 730, 69);
  }
}
