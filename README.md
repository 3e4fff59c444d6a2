# Xiaomi BLE node — a verified model

This project models the core of the Node-RED node in `xiaomi-ble.js`. The node
reads Xiaomi Bluetooth Low Energy sensors. On an inbound message, its `input`
handler takes one of four actions:

- request data from the cached peripheral;
- report that a scan is under way;
- refuse for want of an address;
- or start a scan for the address, cache the peripheral it finds and request
  data from it.

A request (`getData`) opens a session. The session connects to the
peripheral and runs one of three codecs, chosen by what the peripheral
advertises:

- **Soil sensor** (advertises service `fe95`). It reads the battery from
  handle 0x38. It writes `A0 1F` to handle 0x33 and then reads a 10-byte
  measurement block from handle 0x35, decoding:
  - temperature in tenths of a degree from bytes 0–1;
  - light from bytes 3–4;
  - moisture from byte 7;
  - conductivity from bytes 8–9.
- **Broadcast sensor** (the ClearGrass CGG1, uuid `582d3410b29b`). Its data is
  in the service-data block tagged `fdcd` of its advertisement. Temperature
  comes from bytes 10–11, humidity from bytes 12–13 and battery from byte 16.
- **Notify sensor** (any other device). It reads the battery from handle
  0x18. It subscribes to characteristic
  `226caa5564764566756266734470666d`, then parses the first notification as
  text `T=<d+.d+> H=<d+.d+>`. Each matching characteristic gets a 30-second
  timer meant to remove its handler. The timers' closures share the loop's
  function-scoped variables, so every timer removes the handler of the last
  characteristic, and only when that one has the data uuid. With two or more
  data characteristics, the earlier ones keep their handlers. The model
  follows the code here.

Every session has one `send` closure. Its first call delivers the reading
(or shows "no data" when the reading has no key), releases the request and
disconnects; every later call does nothing. Each of these calls `send`:

- the codec, once its two values have arrived;
- the broadcast codec, on every tagged entry;
- a 30-second timeout;
- the peripheral's `disconnect` event.

## How the model is built

- `wrappers.dfy` holds `Option` and `Result` (a callback's value or error).
- `codecs.dfy` holds the byte decoders. A reading is a map from field to a
  JavaScript number. A number is kept exact as a fixed-point decimal
  `Num(m, k)` = m / 10^k. `NaN` is what arithmetic on a missing buffer byte
  gives. `Undefined` is a buffer index past the end, which the soil codec
  stores as is.
- `notification.dfy` holds the notification parser. It models the regular
  expression `T=(\d+\.\d+) H=(\d+\.\d+)` and `parseFloat` of its captures.
  The parser is proved sound, complete and leftmost.
- `peripherals.dfy` holds the peripheral record, codec selection and
  ASCII lower-casing of addresses.
- `gate.dfy` holds the `input` handler's decision as a pure function, with
  its properties.
- `node.dfy` holds the node as a class `XiaomiNode`. Its fields are:
  - the node's own state: `peripheral`, `scanningActive` and `requestActive`;
  - an arena of scan windows (the closure state of each scan);
  - an arena of sessions (the closure state of each `getData` call);
  - ghost logs of deliveries, statuses, errors and radio calls.

  Every asynchronous callback is a method: connect, battery, write, block,
  discovery, notification, subscribe, listener timer, disconnect timeout,
  `disconnect`, `discover`, scan timeout, `scanStop` and `stateChange`.
  Each method states its whole new state and keeps the node invariant
  `Valid()`. `Valid()` says:
  - each session's `send` has its effect at most once, and only once the
    session's `sent` flag is set;
  - a sent session has no armed disconnect timeout and no `disconnect`
    listener left;
  - `requestActive` implies the newest session is still live;
  - at most one scan window, the newest, is discovering, exactly when
    `scanningActive` is set.

## Model

| member | source | states |
|---|---|---|
| Codecs.ByteAt | xiaomi-ble.js:88 | `data[i]` is the byte when i is inside the buffer and undefined exactly when it is past the end |
| Codecs.Le16 | xiaomi-ble.js:86-89 | `256 * data[i+1] + data[i]` is NaN exactly when a byte is missing; otherwise it is that value, a 16-bit unsigned integer |
| Codecs.Tenths | xiaomi-ble.js:86 | division by ten keeps the digits and adds one decimal place; NaN and undefined give NaN |
| Codecs.Le16RoundTrip | xiaomi-ble.js:86-89 | decoding the two little-endian bytes of n at any offset gives n |
| Codecs.Le16Injective | xiaomi-ble.js:86-89 | two byte pairs decoding to the same number are equal |
| Codecs.BatteryLevel | xiaomi-ble.js:70 | the battery level is the first byte of a non-empty read result, and NaN (as `"".charCodeAt(0)`) for an empty one |
| Codecs.BatteryLevelIsFirstByte | xiaomi-ble.js:25 | the battery level is the first byte of the read result |
| Codecs.SoilReading | xiaomi-ble.js:86-89 | the soil block decode sets exactly temperature, light, moisture and conductivity |
| Codecs.SoilReadingExact | xiaomi-ble.js:86-89 | on a full block each field is the value of its bytes (0–1 in tenths, 3–4, 7, 8–9) |
| Codecs.SoilReadingShort | xiaomi-ble.js:86-89 | on a short block each field whose bytes are missing is NaN or undefined, never a number |
| Codecs.SoilRoundTrip | xiaomi-ble.js:86-89 | decoding a block built from four readings gives those readings back |
| Codecs.SoilReadingInjective | xiaomi-ble.js:86-89 | two full blocks with the same reading agree on every byte except the unused 2, 5 and 6 |
| Codecs.SoilDocumentedBlock | xiaomi-ble.js:86-89 | a concrete block decodes to 10.0 degrees, 1000 lux, 42 % and 16 |
| Codecs.AdvertisementReading | xiaomi-ble.js:118-123 | the broadcast block decode sets exactly temperature, humidity and battery |
| Codecs.AdvertisementReadingExact | xiaomi-ble.js:118-123 | each field is its bytes' value (10–11 and 12–13 in tenths, 16) when present, NaN otherwise |
| Codecs.AdvertisementRoundTrip | xiaomi-ble.js:100-123 | decoding a block laid out as documented gives its temperature, humidity and battery back, whatever the MAC |
| Codecs.AdvertisementDocumentedBlock | xiaomi-ble.js:102-114 | the documented block `0807453810342d580104f500da02020145` is MAC 58:2d:34:10:38:45 and reads 24.5, 73.0 and 69 |
| NotificationText.DigitRun | xiaomi-ble.js:40 | the greedy digit run starting at i stays inside the text |
| NotificationText.DecimalAt | xiaomi-ble.js:40 | a decimal read at i is a well-formed `d+.d+` capture ending at i plus the length of its text, inside the payload |
| NotificationText.DigitRunMaximal | xiaomi-ble.js:40 | the run is all digits and is followed by a non-digit or the end of the text |
| NotificationText.DecimalAtComplete | xiaomi-ble.js:40 | every decimal `d+.d+` standing at i and not followed by a digit is what the matcher reads at i |
| NotificationText.DecimalAtSound | xiaomi-ble.js:40 | what the matcher reads at i is a well-formed decimal standing at i, not followed by a digit |
| NotificationText.MatchAtSound | xiaomi-ble.js:40 | a match at i means the text has `T=<decimal> H=<decimal>` at i with those captures |
| NotificationText.MatchAtComplete | xiaomi-ble.js:40 | every occurrence of the pattern at i is matched at i, with its captures |
| NotificationText.MatchAtCharacterised | xiaomi-ble.js:40 | the pattern tried at position i (MatchAt) has captures (t, h) if and only if the pattern occurs at i with them |
| NotificationText.Search | xiaomi-ble.js:40 | a found position is at or after the start and has a match |
| NotificationText.SearchFindsFirstMatch | xiaomi-ble.js:40 | the search from the start stops exactly at the first position with a match |
| NotificationText.SearchLeftmost | xiaomi-ble.js:40 | no position before the found one matches, and when nothing is found no position matches |
| NotificationText.DigitsValueConcat | xiaomi-ble.js:42-43 | the value of a digit string is the value of its head shifted past its tail plus the tail's value |
| NotificationText.CaptureValue | xiaomi-ble.js:42-43 | parseFloat of a capture is the exact decimal whole.frac |
| NotificationText.ParseNotification | xiaomi-ble.js:40-43 | a rejected payload has no match at any position; a decoded one carries the values of an occurrence of the pattern |
| NotificationText.ParseNotificationNone | xiaomi-ble.js:40-47 | the payload is rejected if and only if the pattern occurs nowhere in it |
| NotificationText.ParseNotificationLeftmost | xiaomi-ble.js:40-43 | the values come from the leftmost occurrence of the pattern |
| NotificationText.ParseFormatRoundTrip | xiaomi-ble.js:40-43 | formatting two decimals as `T=.. H=..` and parsing gives their values back |
| NotificationText.ExampleCaptureValues | xiaomi-ble.js:42-43 | the captures "24.5" and "55.0" have the values 24.5 and 55.0 |
| NotificationText.ParseNotificationExample | xiaomi-ble.js:40-44 | the payload `T=24.5 H=55.0` gives temperature 24.5 and humidity 55.0 |
| Peripherals.SelectCodec | xiaomi-ble.js:168-174 | the soil codec is chosen exactly when fe95 is advertised, the broadcast codec exactly when not and the uuid is the CGG1's, the notify codec otherwise |
| Peripherals.LowerChar | xiaomi-ble.js:212 | lower-casing shifts upper-case ASCII letters by 32 and keeps every other character |
| Peripherals.Lower | xiaomi-ble.js:212 | lower-casing keeps the length and lowers every character in place |
| Peripherals.LowerIdempotent | xiaomi-ble.js:212 | lower-casing twice is lower-casing once |
| Peripherals.LowerFixesLowerCase | xiaomi-ble.js:212 | a string without upper-case letters is unchanged by lower-casing |
| Peripherals.AddressMatchesIgnoresCase | xiaomi-ble.js:212 | a peripheral matches a target if and only if it matches the target's lower-case form |
| RequestGate.Retained | xiaomi-ble.js:180-188 | the cache survives exactly when no rescan is asked, the address is unchanged (compared lowered) and the device is not the CGG1 |
| RequestGate.Gate | xiaomi-ble.js:180-201 | the cache is used exactly when it survives the drop rule; "searching" is reported exactly when it does not and a scan is active; a scan is started exactly when it does not, no scan is active and the message or the configuration gives an address, and it targets that address |
| RequestGate.GateUsesCache | xiaomi-ble.js:180-191 | the cached peripheral is used if and only if it survives the drop rule, and then it is that peripheral |
| RequestGate.GateWhileScanning | xiaomi-ble.js:192-193 | with no usable cache, an active scan turns the request into a "searching" report |
| RequestGate.GateScanNeedsAddress | xiaomi-ble.js:195-199 | the request is refused for want of an address exactly when there is no cache, no scan and neither the message nor the configuration gives an address; a scan targets the message's address, else the configured one |
| RequestGate.GateRepeatUsesCache | xiaomi-ble.js:180-191 | a request served from the cache is served from it again when repeated, whatever the scan state |
| RequestGate.GateRescansBroadcastSensor | xiaomi-ble.js:182-185 | a cached CGG1 is never used: it is scanned for every time |
| XiaomiBle.Conclude | xiaomi-ble.js:143-148 | `send` delivers if and only if the reading has a key, and then delivers that reading to the peripheral's address |
| XiaomiBle.ArrivalOrderIrrelevant | xiaomi-ble.js:65-90 | the battery and the data may arrive in either order; the reading is the same |
| XiaomiBle.SubscribeCalls | xiaomi-ble.js:53 | the notify codec only calls subscribe on the peripheral connected to |
| XiaomiBle.SubscribePerListener | xiaomi-ble.js:36-56 | there is one subscribe call per characteristic given a listener, and every such index is a characteristic's |
| XiaomiBle.TimersSpareEarlierListeners | xiaomi-ble.js:36-51 | the handler the expiry timers remove is a data characteristic's, and a data characteristic keeps its handler after the timers fire exactly when it is not the last characteristic |
| XiaomiBle.TwoDataCharacteristicsKeepFirstHandler | xiaomi-ble.js:36-51 | with two data characteristics, both get a handler and the first one's survives both timers |
| XiaomiBle.SubscribeAll | xiaomi-ble.js:36-56 | the loop gives a listener exactly the characteristics with the data uuid and makes their subscribe calls |
| XiaomiBle.FinalizeKeepsSessionsValid | xiaomi-ble.js:141-155 | an effective `send` on an unsent session keeps every session at one effective `send` at most |
| XiaomiBle.UpdateKeepsSessionsValid | xiaomi-ble.js:141-155 | a callback that does not send keeps the session invariant |
| XiaomiBle.AppendKeepsSessionsValid | xiaomi-ble.js:138-139 | a new unsent session keeps the session invariant |
| XiaomiBle.FirstTagged | xiaomi-ble.js:99-125 | the position of the broadcast codec's first effective `send` is a tagged entry |
| XiaomiBle.FirstTaggedIsFirst | xiaomi-ble.js:99-116 | no entry before it is tagged, and when none is found no entry is tagged |
| XiaomiBle.OverlayUntagged | xiaomi-ble.js:116 | untagged entries leave the reading unchanged |
| XiaomiBle.OverlayFirstTagged | xiaomi-ble.js:116-124 | at the first `send` the reading is the decode of the first tagged entry |
| XiaomiBle.PassPrefix | xiaomi-ble.js:99-125 | one more entry: a tagged one overwrites the three fields, and the first `send` is where it was or at this entry |
| XiaomiBle.BroadcastPass | xiaomi-ble.js:99-127 | the loop's reading is every tagged entry stored in turn, and the reading at its first `send` is the one up to the first tagged entry (none when none is tagged) |
| XiaomiBle.PassDelivers | xiaomi-ble.js:116-144 | a broadcast session delivers the decode of the first tagged entry to the peripheral's address |
| XiaomiBle.StopAll | xiaomi-ble.js:222-224 | every scan window is stopped |
| XiaomiBle.NotFoundPrefix | xiaomi-ble.js:225-228 | each window's `scanStop` listener adds its own "not found" status and error |
| XiaomiBle.RunScanStop | xiaomi-ble.js:222-229 | every `scanStop` listener stops its window, and with nothing cached each one still registered reports "not found" with the addresses its window saw |
| XiaomiBle.XiaomiNode.constructor | xiaomi-ble.js:11-14 | nothing cached, not scanning, no request, nothing recorded |
| XiaomiBle.XiaomiNode.Commit | xiaomi-ble.js:141-155 | a session callback's effect, then `send`: effective, and recording the outcome, only when the session is unsent |
| XiaomiBle.XiaomiNode.Update | xiaomi-ble.js:141-155 | a callback that does not reach an effective `send` changes only its session and the logs |
| XiaomiBle.XiaomiNode.Finalize | xiaomi-ble.js:141-155 | an effective `send`: one outcome recorded, the status set, the request released, the peripheral disconnected |
| XiaomiBle.XiaomiNode.Send | xiaomi-ble.js:141-155 | `send` is effective once and a no-op afterwards |
| XiaomiBle.XiaomiNode.GetData | xiaomi-ble.js:130-158 | a busy request only sets the yellow status; otherwise a new session with its timeout and listener, the green status, the request flag and a connect call |
| XiaomiBle.XiaomiNode.ApplyCacheRule | xiaomi-ble.js:180-188 | the cache after the drop rule, nothing else changed |
| XiaomiBle.XiaomiNode.OpenScan | xiaomi-ble.js:200-243 | a new scan window with its timer and listeners, the green status, and the scan started now or once the radio powers on |
| XiaomiBle.XiaomiNode.Input | xiaomi-ble.js:178-244 | the handler does exactly what the gate decides, with the state it leaves for each decision |
| XiaomiBle.XiaomiNode.Discover | xiaomi-ble.js:209-219 | the listening window records the address; a match caches the peripheral, ends the scan state and requests data |
| XiaomiBle.XiaomiNode.ScanTimeout | xiaomi-ble.js:203-205 | the scan timeout stops the radio's scan and changes nothing else |
| XiaomiBle.XiaomiNode.ScanStop | xiaomi-ble.js:222-229 | all windows stopped, scanning cleared, "not found" per registered listener while nothing is cached |
| XiaomiBle.XiaomiNode.StateChange | xiaomi-ble.js:236-242 | each waiting listener starts the scan when the radio is powered on, else reports the state |
| XiaomiBle.XiaomiNode.Connected | xiaomi-ble.js:160-175 | a refused connection sets the red status, clears the timeout and releases the request; otherwise the selected codec's first calls, or the broadcast decode and its `send` |
| XiaomiBle.XiaomiNode.BatteryResult | xiaomi-ble.js:65-72 | an error sets the red status; a value stores the battery level and calls `send` when it is the second value |
| XiaomiBle.XiaomiNode.WriteResult | xiaomi-ble.js:75-80 | an error sets the red status; success reads handle 0x35 |
| XiaomiBle.XiaomiNode.BlockResult | xiaomi-ble.js:80-91 | an error sets the red status; a block stores its decode and calls `send` when it is the second value |
| XiaomiBle.XiaomiNode.Discovered | xiaomi-ble.js:30-58 | an error sets the red status; otherwise each data characteristic gets a listener, a timer and a subscribe call, and the timers' shared target is recorded |
| XiaomiBle.XiaomiNode.Notification | xiaomi-ble.js:39-48 | a well-formed payload stores temperature and humidity and calls `send` when it is the second value; any other is reported as incorrect data |
| XiaomiBle.XiaomiNode.ListenerExpired | xiaomi-ble.js:36-51 | any of the session's expiry timers removes the last characteristic's handler when that one is a data characteristic, and changes nothing else |
| XiaomiBle.XiaomiNode.Subscribed | xiaomi-ble.js:53-55 | a subscribe error is reported |
| XiaomiBle.XiaomiNode.WatchdogFired | xiaomi-ble.js:158 | the timeout's `send` is always effective and records the session's outcome |
| XiaomiBle.XiaomiNode.Disconnected | xiaomi-ble.js:157 | the `disconnect` listener's `send` is effective and records the session's outcome |

## Left out

- The radio library, timers and Node-RED itself are not modelled. Their
  calls are appended to ghost logs. Their callbacks are node methods that
  may be called in any order, limited only by the preconditions. Timer
  durations (30 seconds and the configured scanning timeout) play no part.
- The `close` handler (xiaomi-ble.js:247-252) is not modelled. It clears
  the scan timeout, stops the scan and clears the status.
- The hex-string handling of the broadcast codec (`JSON.stringify`,
  `toString('hex')`, `substring` and `parseInt`) is modelled by the byte
  offsets it selects. A block too short for a field gives NaN for that
  field, as the string code does.
- BatteryLevel: `data.toString().charCodeAt(0)` decodes the buffer as UTF-8.
  The model takes the first byte as the level, which agrees only for a
  first byte below 0x80.
- CaptureValue: `parseFloat` gives a binary floating-point number. The model
  keeps the exact decimal. Rounding is not modelled.
- Peripherals.Lower: `toLowerCase` is modelled on ASCII letters only.
- RequestGate.InputMsg: `msg.scan` is taken as already converted to a truth
  value, and `msg.address` as a string (empty when absent or falsy).
- XiaomiBle.XiaomiNode.Connected: with several tagged entries, the broadcast
  codec calls `send` once per entry,
  and every call after the first is a no-op. The model records the reading
  as it was at the first call. The source goes on overwriting the same
  object after it was handed to `node.send`, so a downstream node may see a
  later entry's values. The model does not capture this aliasing.
- XiaomiBle.XiaomiNode.Finalize: the outcome records the reading as it was
  when `send` had its effect. The source hands `node.send` the live `msg`
  object, and the soil and notify codecs keep writing into it afterwards.
  This happens when a value arrives after the timeout's or the disconnect's
  `send`, or when a second data characteristic notifies. A downstream node
  may see those late values. The model does not capture this aliasing.
- XiaomiBle.XiaomiNode.Connected: the advertisement is taken as it was when
  the peripheral was discovered. Updates by later advertisements are not
  modelled.
- XiaomiBle.XiaomiNode.Disconnected: the peripheral's `disconnect` event is
  delivered to one session's listener at a time. In the source, one event
  runs the listeners of every session on that peripheral at once. The
  model's separate events include that interleaving.
- XiaomiBle.SessionsValid: it states that a session has at most one
  effective `send`, and only after its `sent` flag is set. It does not state
  the converse, that every sent session has one. Finalize is the only method
  that sets the flag, and it always records one.
- Codecs.AdvertisementReading: the broadcast temperature is read as an
  unsigned 16-bit number, as the code does. No sign conversion is applied,
  so a temperature below zero reads as a large positive value.
