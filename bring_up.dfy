/** The start-up sequence (src/main.cpp, setupEthernetLAN, setupWiFiLAN and
    setup), seen as the trace of driver calls it makes. Each driver call that
    returns a bool is recorded with the answer it gave; the answers are inputs,
    so every property below holds whatever the drivers answer. */
module BringUp {

  /** One call into the ETH, WiFi or MDNS driver. */
  datatype Call =
    | RegisterEventHandler      // WiFi.onEvent(onNetworkEvent)
    | EthConfig(ok: bool)       // ETH.config(ip, gw, sn, dns)
    | EthBegin                  // ETH.begin()
    | SoftApConfig(ok: bool)    // WiFi.softAPConfig(ip, gw, sn)
    | SoftAp(ok: bool)          // WiFi.softAP(ssid, password, channel, visible, max clients)
    | MdnsBegin(ok: bool)       // MDNS.begin(device id)
    | EthSetHostname            // ETH.setHostname(device id), from the event handler

  /** What each boolean driver call answers during one start-up. */
  datatype DriverAnswers = DriverAnswers(ethConfig: bool, softApConfig: bool, softAp: bool, mdns: bool)

  predicate IsEthernetSetupCall(c: Call) {
    c.RegisterEventHandler? || c.EthConfig? || c.EthBegin?
  }

  predicate IsWiFiSetupCall(c: Call) {
    c.SoftApConfig? || c.SoftAp?
  }

  /** The event handler is registered by the first call, and only then. */
  predicate HandlerRegisteredFirst(t: seq<Call>) {
    |t| > 0 && t[0] == RegisterEventHandler
    && forall i :: 0 < i < |t| ==> t[i] != RegisterEventHandler
  }

  /** `ETH.begin()` is called exactly right after an `ETH.config` that succeeded. */
  predicate BeginExactlyAfterConfigured(t: seq<Call>) {
    forall i :: 0 <= i < |t| ==> (t[i] == EthBegin <==> i > 0 && t[i - 1] == EthConfig(true))
  }

  /** `WiFi.softAP` is attempted exactly right after a `softAPConfig` that succeeded. */
  predicate SoftApExactlyAfterConfigured(t: seq<Call>) {
    forall i :: 0 <= i < |t| ==> (t[i].SoftAp? <==> i > 0 && t[i - 1] == SoftApConfig(true))
  }

  /** Every Ethernet set-up call comes before every WiFi set-up call. */
  predicate EthernetBeforeWiFi(t: seq<Call>) {
    forall i, j :: 0 <= i < |t| && 0 <= j < |t| && IsEthernetSetupCall(t[i]) && IsWiFiSetupCall(t[j]) ==> i < j
  }

  /** The calls of `setupEthernetLAN` when `ETH.config` answers `configOk`: the
      handler first, then the static address, then (only if that was
      accepted) the start of the interface. */
  function EthernetCalls(configOk: bool): (t: seq<Call>)
    ensures HandlerRegisteredFirst(t)
    ensures BeginExactlyAfterConfigured(t)
    ensures EthConfig(configOk) in t
    ensures EthBegin in t <==> configOk
    ensures forall c :: c in t ==> IsEthernetSetupCall(c)
  {
    [RegisterEventHandler, EthConfig(configOk)] + (if configOk then [EthBegin] else [])
  }

  /** The calls of `setupWiFiLAN`: the AP address, then (only if that was
      accepted) the start of the access point. */
  function WiFiCalls(configOk: bool, apOk: bool): (t: seq<Call>)
    ensures SoftApExactlyAfterConfigured(t)
    ensures |t| > 0 && t[0] == SoftApConfig(configOk)
    ensures SoftAp(apOk) in t <==> configOk
    ensures forall c :: c in t ==> IsWiFiSetupCall(c)
  {
    [SoftApConfig(configOk)] + (if configOk then [SoftAp(apOk)] else [])
  }

  /** The calls of `setup`: Ethernet, then WiFi, then name registration. */
  function SetupCalls(a: DriverAnswers): seq<Call> {
    EthernetCalls(a.ethConfig) + WiFiCalls(a.softApConfig, a.softAp) + [MdnsBegin(a.mdns)]
  }

  /** The four shapes the start-up trace can take. */
  lemma SetupCallsCases(a: DriverAnswers)
    ensures var m := MdnsBegin(a.mdns);
      SetupCalls(a) ==
        if a.ethConfig && a.softApConfig then
          [RegisterEventHandler, EthConfig(true), EthBegin, SoftApConfig(true), SoftAp(a.softAp), m]
        else if a.ethConfig then
          [RegisterEventHandler, EthConfig(true), EthBegin, SoftApConfig(false), m]
        else if a.softApConfig then
          [RegisterEventHandler, EthConfig(false), SoftApConfig(true), SoftAp(a.softAp), m]
        else
          [RegisterEventHandler, EthConfig(false), SoftApConfig(false), m]
  {
  }

  /** Start-up registers the handler before anything else and finishes
      Ethernet before touching WiFi; it attempts WiFi whatever became of
      Ethernet, and registers the name last whatever became of both. */
  lemma SetupOrdering(a: DriverAnswers)
    ensures var t := SetupCalls(a);
      && HandlerRegisteredFirst(t)
      && EthernetBeforeWiFi(t)
      && SoftApConfig(a.softApConfig) in t
      && t[|t| - 1] == MdnsBegin(a.mdns)
  {
    SetupCallsCases(a);
  }

  /** Start-up starts each interface exactly when the driver accepted its
      address configuration. */
  lemma SetupGuards(a: DriverAnswers)
    ensures var t := SetupCalls(a);
      && BeginExactlyAfterConfigured(t)
      && SoftApExactlyAfterConfigured(t)
      && (EthBegin in t <==> a.ethConfig)
      && (SoftAp(a.softAp) in t <==> a.softApConfig)
  {
    SetupCallsCases(a);
  }
}
