/** The driver events the gateway reacts to, and how they fold into the two
    interface status flags (src/main.cpp, onNetworkEvent). */
module NetworkEvents {

  /** The events the handler distinguishes; every other event identifier the
      driver may deliver is `Other`. */
  datatype Event =
    | EthStart
    | EthConnected
    | EthGotIp
    | EthDisconnected
    | WifiApStart
    | WifiApStaConnected
    | WifiApStaDisconnected
    | Other(code: int)

  /** The two global status flags: wired uplink has an address, AP is started. */
  datatype Flags = Flags(ethUp: bool, apUp: bool)

  /** Both flags are false at boot. */
  const BOOT: Flags := Flags(false, false)

  /** The events that concern the wired interface. */
  predicate IsEthEvent(e: Event) {
    e.EthStart? || e.EthConnected? || e.EthGotIp? || e.EthDisconnected?
  }

  /** The events that concern the access point. */
  predicate IsApEvent(e: Event) {
    e.WifiApStart? || e.WifiApStaConnected? || e.WifiApStaDisconnected?
  }

  /** The events the handler acts on by changing a flag. */
  predicate ChangesFlags(e: Event) {
    e.EthGotIp? || e.EthDisconnected? || e.WifiApStart?
  }

  /** One pass through the handler's switch. Only "got IP" raises the wired
      flag, only "disconnected" lowers it, only "AP started" raises the AP
      flag, and nothing lowers the AP flag. */
  function Step(f: Flags, e: Event): (r: Flags)
    ensures r.ethUp <==> e.EthGotIp? || (f.ethUp && !e.EthDisconnected?)
    ensures r.apUp <==> f.apUp || e.WifiApStart?
  {
    match e
    case EthGotIp => f.(ethUp := true)
    case EthDisconnected => f.(ethUp := false)
    case WifiApStart => f.(apUp := true)
    case _ => f
  }

  /** The flags after the handler has run on each event of `es` in order. */
  function Run(f: Flags, es: seq<Event>): Flags
    decreases |es|
  {
    if es == [] then f else Step(Run(f, es[..|es| - 1]), es[|es| - 1])
  }

  lemma RunSnoc(f: Flags, es: seq<Event>, e: Event)
    ensures Run(f, es + [e]) == Step(Run(f, es), e)
  {
    assert (es + [e])[..|es|] == es;
  }

  /** Handling two batches of events in turn is handling their concatenation. */
  lemma {:induction false} RunConcat(f: Flags, a: seq<Event>, b: seq<Event>)
    ensures Run(f, a + b) == Run(Run(f, a), b)
    decreases |b|
  {
    if b == [] {
      assert a + b == a;
    } else {
      var b', e := b[..|b| - 1], b[|b| - 1];
      assert b == b' + [e];
      assert a + b == (a + b') + [e];
      RunSnoc(f, a + b', e);
      RunConcat(f, a, b');
      RunSnoc(Run(f, a), b', e);
    }
  }

  /** The AP flag is up after a run exactly when it was up before or the run
      contains an "AP started" event. */
  lemma {:induction false} RunApUp(f: Flags, es: seq<Event>)
    ensures Run(f, es).apUp <==> f.apUp || WifiApStart in es
    decreases |es|
  {
    if es != [] {
      var es', e := es[..|es| - 1], es[|es| - 1];
      assert es == es' + [e];
      RunApUp(f, es');
    }
  }

  /** Once the AP flag is up it stays up, whatever events follow. */
  lemma ApStaysUp(es: seq<Event>, i: nat)
    requires i <= |es|
    requires Run(BOOT, es[..i]).apUp
    ensures Run(BOOT, es).apUp
  {
    RunApUp(BOOT, es[..i]);
    RunApUp(BOOT, es);
    var k :| 0 <= k < i && es[..i][k] == WifiApStart;
    assert es[k] == WifiApStart;
  }

  /** Event `i` of `es` is a "got IP" event and no "disconnected" event
      follows it. */
  predicate AddressHeldFrom(es: seq<Event>, i: int) {
    0 <= i < |es| && es[i] == EthGotIp && EthDisconnected !in es[i + 1..]
  }

  /** The wired flag is up after a run exactly when the run contains a "got
      IP" event with no "disconnected" event after it, or the flag was up
      before and the run contains no "disconnected" event at all. */
  lemma {:induction false} RunEthUp(f: Flags, es: seq<Event>)
    ensures Run(f, es).ethUp <==>
              (exists i :: AddressHeldFrom(es, i)) || (f.ethUp && EthDisconnected !in es)
    decreases |es|
  {
    if es != [] {
      var es', e := es[..|es| - 1], es[|es| - 1];
      assert es == es' + [e];
      RunEthUp(f, es');
      if e == EthDisconnected {
        assert EthDisconnected in es;
        forall i | 0 <= i < |es|
          ensures !AddressHeldFrom(es, i)
        {
          if i < |es| - 1 {
            assert es[i + 1..][|es| - 2 - i] == e;
          }
        }
      } else if e == EthGotIp {
        assert es[|es| - 1 + 1..] == [];
        assert AddressHeldFrom(es, |es| - 1);
      } else {
        forall i | 0 <= i < |es'|
          ensures AddressHeldFrom(es, i) <==> AddressHeldFrom(es', i)
        {
          assert es[i + 1..] == es'[i + 1..] + [e];
        }
        if EthDisconnected in es {
          var k :| 0 <= k < |es| && es[k] == EthDisconnected;
          assert k < |es'| && es'[k] == EthDisconnected;
        }
      }
    }
  }

  /** Removing from a run every event that does not satisfy `keep`. */
  function Only(keep: Event -> bool, es: seq<Event>): (r: seq<Event>)
    ensures forall e :: e in r ==> e in es && keep(e)
    ensures |r| <= |es|
    decreases |es|
  {
    if es == [] then []
    else
      var rest := Only(keep, es[..|es| - 1]);
      if keep(es[|es| - 1]) then rest + [es[|es| - 1]] else rest
  }

  /** The wired flag depends only on the wired events and on its own previous
      value; the AP flag depends only on the AP events and its own previous
      value. Neither interface's events ever touch the other's flag. */
  lemma {:induction false} RunSeparatesInterfaces(f: Flags, g: Flags, es: seq<Event>)
    ensures f.ethUp == g.ethUp ==> Run(f, es).ethUp == Run(g, Only(IsEthEvent, es)).ethUp
    ensures f.apUp == g.apUp ==> Run(f, es).apUp == Run(g, Only(IsApEvent, es)).apUp
    decreases |es|
  {
    if es != [] {
      var es', e := es[..|es| - 1], es[|es| - 1];
      assert es == es' + [e];
      RunSeparatesInterfaces(f, g, es');
      if IsEthEvent(e) {
        RunSnoc(g, Only(IsEthEvent, es'), e);
      }
      if IsApEvent(e) {
        RunSnoc(g, Only(IsApEvent, es'), e);
      }
    }
  }

  /** A run made only of events the handler merely logs (ETH start, link up,
      station joined or left, and every unrecognised event) leaves both
      flags as they were. */
  lemma {:induction false} RunIgnoresLoggedEvents(f: Flags, es: seq<Event>)
    requires forall k :: 0 <= k < |es| ==> !ChangesFlags(es[k])
    ensures Run(f, es) == f
    decreases |es|
  {
    if es != [] {
      RunIgnoresLoggedEvents(f, es[..|es| - 1]);
    }
  }
}
