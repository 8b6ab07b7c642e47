# Beach-house gateway firmware: a Dafny model

The firmware runs on a board with a wired Ethernet uplink and a WiFi access
point. Its logic, all in `src/main.cpp`, has three parts, and this project
models each of them and proves what they promise:

- **The network event handler** (`onNetworkEvent`). It folds the driver's
  events into two global flags: `eth_up` (the wired link has an address) and
  `ap_up` (the access point has started). `network_events.dfy` gives the
  events as a datatype with an `Other` case for unrecognised identifiers. It
  gives one handler step as `Step`, and a run of events as `Run`. The lemmas
  cover every run of events: the AP flag is up exactly when an "AP started"
  event occurred, and it is never cleared. The wired flag is up exactly when
  some "got IP" event has no "disconnected" event after it. Each flag depends
  only on its own interface's events. Runs of events that are only logged
  change nothing.
- **The periodic status report** (`loop`). The loop keeps a static `last` and
  reports when `now - last >= 30000` in unsigned 32-bit arithmetic.
  `status_reporter.dfy` writes the subtraction out modulo 2^32. It proves that
  the difference of two counter readings is the real time between them when
  the readings are less than 2^32 ms (one counter period) apart. It then
  follows the loop over any sequence of iterations, with real times that are
  nondecreasing and at most 2^32 - 30000 ms apart, the first counted from
  boot. The `last` that the loop keeps on the wrapped counter is always the
  reading at the most recent report of a reference computed on unbounded real
  time. So the loop reports exactly when 30 s of real time have
  passed, across rollovers too. The rendered content is uptime `now / 1000`
  (bounded from both sides) and "UP" or "DOWN" for each flag.
- **Start-up** (`setupEthernetLAN`, `setupWiFiLAN`, `setup`).
  `bring_up.dfy` records the driver calls as a trace. Each boolean driver
  call is stored with its answer. The answers are inputs, so the properties
  hold for every answer the drivers could give. The event handler is
  registered first. Ethernet is set up before WiFi. `ETH.begin` comes right
  after, and only after, an `ETH.config` that succeeded. `WiFi.softAP` comes
  right after, and only after, a `softAPConfig` that succeeded. WiFi is
  attempted however Ethernet went, and mDNS registration comes last.

`gateway.dfy` puts the three together as the class `Firmware.Gateway`. Its
fields are `ethUp`, `apUp`, `last` and the trace of driver calls. Ghost fields
hold the events handled and the counter readings seen. `Valid()` ties the
flags to `Run` of the events from boot, and `last` to the loop's fold of its
readings. The methods `OnNetworkEvent`, `Loop`, `SetupEthernetLan`,
`SetupWiFiLan` and `Setup` follow the C++ statement by statement. Their
postconditions give the new state in terms of the functions above. The
handler's `ETH.setHostname` call on the Ethernet start event is recorded in
the same trace.

What a gateway of this kind might do and this code does not, or does
differently:
- The code keeps two booleans, not a four-state machine per interface.
- Only "got IP" raises the wired flag. "Link up" is only logged.
- Disconnecting just clears the flag; there is no stored address to clear.
- The code has no address translation, no update gate, no start-up timeout
  and no check that the two address ranges are disjoint. The access point is
  even configured with the same `LAN_*` octets as Ethernet
  (src/main.cpp:115-117).
- mDNS is started once, at the end of `setup`, whatever the state of the
  interfaces.

## Model

| member | source | states |
|---|---|---|
| NetworkEvents.Step | src/main.cpp:36-82 | after one event, the wired flag is up iff the event is "got IP", or it was up and the event is not "disconnected"; the AP flag is up iff it was up or the event is "AP started" |
| NetworkEvents.RunConcat | src/main.cpp:36-82 | handling two batches of events in turn equals handling their concatenation |
| NetworkEvents.RunApUp | src/main.cpp:62-67 | after any run, the AP flag is up iff it was up before or the run contains "AP started" |
| NetworkEvents.ApStaysUp | src/main.cpp:36-82 | from boot, once the AP flag is up it stays up for every longer run |
| NetworkEvents.RunEthUp | src/main.cpp:45-59 | after any run, the wired flag is up iff some "got IP" has no "disconnected" after it, or the flag was up and no "disconnected" occurs |
| NetworkEvents.RunSeparatesInterfaces | src/main.cpp:36-82 | the wired flag after a run equals the flag after only the run's Ethernet events, from any state with the same wired flag; likewise for the AP flag and the AP events |
| NetworkEvents.RunIgnoresLoggedEvents | src/main.cpp:40-80 | a run of events that are only logged (ETH start, link up, station joined or left, unrecognised) leaves both flags unchanged |
| StatusReporter.Millis | src/main.cpp:173 | the counter reading differs from real milliseconds since boot by a multiple of 2^32 |
| StatusReporter.Elapsed | src/main.cpp:175 | the unsigned difference is the in-range value that, added to `last` modulo 2^32, gives `now`; without wrap it is the plain difference |
| StatusReporter.ElapsedIsRealTime | src/main.cpp:172-175 | when the readings are less than 2^32 ms (one counter period) apart, the unsigned difference of two readings is the real elapsed time, whether or not the counter wrapped between them |
| StatusReporter.ReportFiresIffPeriodPassed | src/main.cpp:175-176 | when the readings are less than 2^32 ms apart, the guard holds iff at least 30000 ms of real time passed since the reading in `last`, rollover included |
| StatusReporter.LastStampTracksRealTime | src/main.cpp:171-176 | over any loop iterations at most 2^32 - 30000 ms apart, the first counted from boot, the loop's `last` is the counter reading of the last report of the real-time reference, and that report is less than a period before the current iteration |
| StatusReporter.ReportDecisionIsRealTime | src/main.cpp:172-176 | at every iteration of such a sequence, the loop reports iff a full period of real time passed since the last report |
| StatusReporter.LinkText | src/main.cpp:181-183 | the text is "UP" iff the flag is set and "DOWN" iff it is not |
| StatusReporter.Render | src/main.cpp:180-184 | the uptime shown is the whole seconds of the reading; each interface shows "UP" iff its flag is set and "DOWN" iff not |
| BringUp.EthernetCalls | src/main.cpp:87-107 | the handler is registered first and only once; `ETH.config` is made; `ETH.begin` is made iff config succeeded, and exactly right after it |
| BringUp.WiFiCalls | src/main.cpp:112-136 | `softAPConfig` is made first; `softAP` is attempted iff it succeeded, and exactly right after it |
| BringUp.SetupCallsCases | src/main.cpp:153-161 | the start-up trace is one of four call sequences, chosen by the two configuration answers |
| BringUp.SetupOrdering | src/main.cpp:153-161 | the handler is registered first; every Ethernet call precedes every WiFi call; WiFi is attempted whatever the Ethernet outcome; mDNS is the last call |
| BringUp.SetupGuards | src/main.cpp:98-133 | in the whole start-up, `ETH.begin` follows exactly the successful `ETH.config`, `softAP` exactly the successful `softAPConfig`, and each occurs iff that configuration succeeded |
| Firmware.Gateway.constructor | src/main.cpp:10-11 | at power-on both flags are false, `last` is 0 and no calls have been made |
| Firmware.Gateway.OnNetworkEvent | src/main.cpp:36-82 | the flags become `Step` of the old flags; the only driver call with an effect is `ETH.setHostname` on the Ethernet start event; the validity invariant is kept |
| Firmware.Gateway.Loop | src/main.cpp:171-189 | reports iff the unsigned 32-bit guard holds; `last` becomes `now` exactly then and is otherwise unchanged; the report is the rendering of the current flags, which are not changed |
| Firmware.Gateway.SetupEthernetLan | src/main.cpp:87-107 | appends exactly the Ethernet set-up calls for the config answer |
| Firmware.Gateway.SetupWiFiLan | src/main.cpp:112-136 | appends exactly the WiFi set-up calls for the two answers |
| Firmware.Gateway.Setup | src/main.cpp:141-166 | appends exactly the whole start-up trace, and changes neither flag nor `last` |

## Left out

- Serial and debug output (`debugPrint`, `debugPrintf`, the 256-byte format buffer, `Serial.printf`): console I/O. Only the content of the status report is modelled.
- Driver internals (`ETH.config`, `ETH.begin`, `ETH.setHostname`, `softAPConfig`, `softAP`, `MDNS.begin`): foreign library calls. Each is a recorded action, and its boolean answer is an input.
- The station count (`softAPgetStationNum`) in the log lines and the status report: it is queried from the driver and not kept by the code.
- The driver queries the handler makes for its log lines (`ETH.localIP`, `ETH.gatewayIP`, `ETH.subnetMask`, `WiFi.softAPIP`, `softAPgetStationNum`): they are evaluated even when debug output is compiled out, but have no effect, so they are not in the call trace.
- `IPAddress` values, their construction and `toString`: used only for logging and as driver arguments.
- `delay()` (1500 ms, 100 ms) and the clock: the counter reading `now`, or the real time of an iteration, is an input.
- Asynchronous delivery of events: the handler, each loop iteration and start-up are each one atomic step.
- StatusReporter.LastStampTracksRealTime: assumes loop iterations at most 2^32 - 30000 ms (about 49.7 days) apart, the first counted from boot. The code gives no guarantee beyond that gap, because readings one counter period or more apart cannot be told apart.
- Firmware.Gateway.Setup: its trace does not include the `ETH.setHostname` calls that events may add while start-up runs, because events and start-up are modelled as atomic steps.
