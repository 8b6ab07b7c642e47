/** The firmware's process-wide state and its three entry points
    (src/main.cpp): the network event handler, the main loop and start-up. */
module Firmware {
  import opened NetworkEvents
  import opened StatusReporter
  import opened BringUp

  datatype Option<T> = None | Some(value: T)

  /** The globals `eth_up` and `ap_up`, the loop's static `last`, and the
      driver calls made so far. The ghost fields keep the history the state
      was computed from: every event handled and every counter reading the
      loop has seen. */
  class Gateway {
    var ethUp: bool
    var apUp: bool
    var last: uint32
    var calls: seq<Call>
    ghost var events: seq<Event>
    ghost var readings: seq<uint32>

    /** The flags are the fold of the handled events from boot, and `last` is
        the fold of the loop's readings from 0. */
    ghost predicate Valid()
      reads this
    {
      Status() == Run(BOOT, events) && last == LastStamp(readings)
    }

    function Status(): Flags
      reads this
    {
      Flags(ethUp, apUp)
    }

    /** The state at power-on: both interfaces down, no report yet. */
    constructor ()
      ensures Valid()
      ensures Status() == BOOT && last == 0
      ensures calls == [] && events == [] && readings == []
    {
      ethUp, apUp, last := false, false, 0;
      calls, events, readings := [], [], [];
    }

    /** `onNetworkEvent`: updates the flags for one event and, for the
        Ethernet start event, sets the host name. */
    method OnNetworkEvent(e: Event)
      requires Valid()
      modifies this`ethUp, this`apUp, this`calls, this`events
      ensures Valid()
      ensures Status() == Step(old(Status()), e)
      ensures events == old(events) + [e]
      ensures calls == old(calls) + (if e == EthStart then [EthSetHostname] else [])
    {
      RunSnoc(BOOT, events, e);
      match e {
        case EthStart =>
          calls := calls + [EthSetHostname];
        case EthConnected =>
        case EthGotIp =>
          ethUp := true;
        case EthDisconnected =>
          ethUp := false;
        case WifiApStart =>
          apUp := true;
        case WifiApStaConnected =>
        case WifiApStaDisconnected =>
        case Other(_) =>
      }
      assert Status() == Step(old(Status()), e);
      events := events + [e];
    }

    /** One iteration of `loop` with counter reading `now`: reports when
        `now - last >= 30000` in unsigned 32-bit arithmetic, and then moves
        `last` to `now`. The flags are only read. */
    method Loop(now: uint32) returns (report: Option<StatusReport>)
      requires Valid()
      modifies this`last, this`readings
      ensures Valid()
      ensures readings == old(readings) + [now]
      ensures report.Some? <==> ShouldReport(now, old(last))
      ensures last == (if report.Some? then now else old(last))
      ensures report.Some? ==> report.value == Render(now, Status())
    {
      assert (readings + [now])[..|readings|] == readings;
      readings := readings + [now];
      if Elapsed(now, last) >= REPORT_PERIOD {
        last := now;
        report := Some(StatusReport(now / 1000, LinkText(ethUp), LinkText(apUp)));
      } else {
        report := None;
      }
    }

    /** `setupEthernetLAN`, with `configOk` the answer of `ETH.config`. */
    method SetupEthernetLan(configOk: bool)
      modifies this`calls
      ensures calls == old(calls) + EthernetCalls(configOk)
    {
      calls := calls + [RegisterEventHandler];
      calls := calls + [EthConfig(configOk)];
      if !configOk {
        return;
      }
      calls := calls + [EthBegin];
    }

    /** `setupWiFiLAN`, with the answers of `softAPConfig` and `softAP`. */
    method SetupWiFiLan(configOk: bool, apOk: bool)
      modifies this`calls
      ensures calls == old(calls) + WiFiCalls(configOk, apOk)
    {
      calls := calls + [SoftApConfig(configOk)];
      if !configOk {
        return;
      }
      calls := calls + [SoftAp(apOk)];
      if !apOk {
        return;
      }
    }

    /** `setup`: Ethernet first, then WiFi, then the mDNS name. Start-up
        itself changes neither flag nor `last`. */
    method Setup(a: DriverAnswers)
      modifies this`calls
      ensures calls == old(calls) + SetupCalls(a)
    {
      SetupEthernetLan(a.ethConfig);
      SetupWiFiLan(a.softApConfig, a.softAp);
      calls := calls + [MdnsBegin(a.mdns)];
    }
  }
}
