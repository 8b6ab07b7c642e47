/** The periodic status report of the main loop (src/main.cpp, loop): when it
    fires, measured on the wrapping 32-bit millisecond counter, and what it
    shows. */
module StatusReporter {
  import opened NetworkEvents

  const MODULUS: int := 0x1_0000_0000

  /** The C++ `uint32_t`. */
  type uint32 = x: int | 0 <= x < 0x1_0000_0000

  /** Milliseconds between two reports. */
  const REPORT_PERIOD: uint32 := 30000

  /** What `millis()` returns `t` milliseconds after boot: the count modulo 2^32. */
  function Millis(t: nat): (m: uint32)
    ensures (t - m) % MODULUS == 0
  {
    t % MODULUS
  }

  /** The unsigned difference `now - last`: the one counter step in range
      that takes `last` to `now`. */
  function Elapsed(now: uint32, last: uint32): (d: uint32)
    ensures (last + d) % MODULUS == now
    ensures now >= last ==> d == now - last
  {
    (now - last) % MODULUS
  }

  /** The loop's guard `now - last >= 30000`. */
  predicate ShouldReport(now: uint32, last: uint32) {
    Elapsed(now, last) >= REPORT_PERIOD
  }

  /** For readings less than one counter period (2^32 ms) apart, the
      unsigned difference is the real time that passed between them, whether
      or not the counter wrapped in between. */
  lemma ElapsedIsRealTime(tLast: nat, tNow: nat)
    requires tLast <= tNow < tLast + MODULUS
    ensures Elapsed(Millis(tNow), Millis(tLast)) == tNow - tLast
  {
    var ql, qn := tLast / MODULUS, tNow / MODULUS;
    assert tLast == ql * MODULUS + Millis(tLast);
    assert tNow == qn * MODULUS + Millis(tNow);
    assert ql <= qn <= ql + 1;
    if qn == ql {
      assert Millis(tNow) - Millis(tLast) == tNow - tLast;
    } else {
      assert Millis(tNow) - Millis(tLast) == tNow - tLast - MODULUS;
    }
  }

  /** For readings less than one counter period apart, a report fires
      exactly when 30 seconds of real time have passed since the last one,
      even when the counter wrapped in between. */
  lemma ReportFiresIffPeriodPassed(tLast: nat, tNow: nat)
    requires tLast <= tNow < tLast + MODULUS
    ensures ShouldReport(Millis(tNow), Millis(tLast)) <==> tNow - tLast >= REPORT_PERIOD
  {
    ElapsedIsRealTime(tLast, tNow);
  }

  /** The value of the loop's static `last` after it has run with the counter
      readings `nows`, starting from 0. */
  function LastStamp(nows: seq<uint32>): uint32
    decreases |nows|
  {
    if nows == [] then 0
    else
      var prev := LastStamp(nows[..|nows| - 1]);
      var now := nows[|nows| - 1];
      if ShouldReport(now, prev) then now else prev
  }

  /** The same decision taken on real time, with no counter: the time (since
      boot) of the most recent report after the loop ran at times `ts`. */
  function LastReportTime(ts: seq<nat>): nat
    decreases |ts|
  {
    if ts == [] then 0
    else
      var prev := LastReportTime(ts[..|ts| - 1]);
      var t := ts[|ts| - 1];
      if t - prev >= REPORT_PERIOD then t else prev
  }

  /** Loop iterations at nondecreasing real times, none more than
      2^32 - 30000 ms after the one before (the first one counted from boot). */
  predicate LoopTimes(ts: seq<nat>) {
    (ts != [] ==> ts[0] <= MODULUS - REPORT_PERIOD)
    && forall i :: 0 < i < |ts| ==> ts[i - 1] <= ts[i] <= ts[i - 1] + MODULUS - REPORT_PERIOD
  }

  /** `nows` are the counter readings at the real times `ts`. */
  predicate Readings(nows: seq<uint32>, ts: seq<nat>) {
    |nows| == |ts| && forall i :: 0 <= i < |ts| ==> nows[i] == Millis(ts[i])
  }

  lemma PrefixOfLoopTimes(nows: seq<uint32>, ts: seq<nat>)
    requires LoopTimes(ts) && Readings(nows, ts) && ts != []
    ensures LoopTimes(ts[..|ts| - 1]) && Readings(nows[..|nows| - 1], ts[..|ts| - 1])
  {
    var ts', nows' := ts[..|ts| - 1], nows[..|nows| - 1];
    forall i | 0 < i < |ts'|
      ensures ts'[i - 1] <= ts'[i] <= ts'[i - 1] + MODULUS - REPORT_PERIOD
    {
      assert ts'[i] == ts[i] && ts'[i - 1] == ts[i - 1];
    }
    forall i | 0 <= i < |ts'|
      ensures nows'[i] == Millis(ts'[i])
    {
      assert nows'[i] == nows[i] && ts'[i] == ts[i];
    }
  }

  /** The loop's wrapped 32-bit bookkeeping agrees with the real-time
      reference at every iteration: its `last` is the counter reading of the
      last real-time report, and that report is less than one period before
      the current iteration. */
  lemma {:induction false} LastStampTracksRealTime(nows: seq<uint32>, ts: seq<nat>)
    requires LoopTimes(ts) && Readings(nows, ts)
    ensures LastStamp(nows) == Millis(LastReportTime(ts))
    ensures ts != [] ==> LastReportTime(ts) <= ts[|ts| - 1] < LastReportTime(ts) + REPORT_PERIOD
    decreases |ts|, 1
  {
    if ts != [] {
      PrefixOfLoopTimes(nows, ts);
      LastStampTracksRealTime(nows[..|nows| - 1], ts[..|ts| - 1]);
      ReportDecisionIsRealTime(nows, ts);
      assert nows[|nows| - 1] == Millis(ts[|ts| - 1]);
    }
  }

  /** At every iteration, the loop reports exactly when a full period of real
      time has passed since the last report. */
  lemma {:induction false} ReportDecisionIsRealTime(nows: seq<uint32>, ts: seq<nat>)
    requires LoopTimes(ts) && Readings(nows, ts) && ts != []
    ensures var n := |ts| - 1;
      ShouldReport(nows[n], LastStamp(nows[..n])) <==> ts[n] - LastReportTime(ts[..n]) >= REPORT_PERIOD
    decreases |ts|, 0
  {
    var n := |ts| - 1;
    var ts', t := ts[..n], ts[n];
    PrefixOfLoopTimes(nows, ts);
    LastStampTracksRealTime(nows[..n], ts');
    var prev := LastReportTime(ts');
    if n == 0 {
      assert 0 <= t <= MODULUS - REPORT_PERIOD;
    } else {
      assert ts[n - 1] == ts'[n - 1];
      assert prev <= ts'[n - 1] <= t;
    }
    ReportFiresIffPeriodPassed(prev, t);
  }

  /** The text shown for an interface flag. */
  function LinkText(up: bool): (s: string)
    ensures s == "UP" <==> up
    ensures s == "DOWN" <==> !up
  {
    if up then "UP" else "DOWN"
  }

  /** The content of one status report. */
  datatype StatusReport = StatusReport(uptimeSeconds: nat, eth: string, ap: string)

  /** The report rendered at counter reading `now` with flags `f`: whole
      seconds of the counter, and each interface shown "UP" exactly when its
      flag is set. */
  function Render(now: uint32, f: Flags): (r: StatusReport)
    ensures r.uptimeSeconds * 1000 <= now < r.uptimeSeconds * 1000 + 1000
    ensures r.eth == "UP" <==> f.ethUp
    ensures r.eth == "DOWN" <==> !f.ethUp
    ensures r.ap == "UP" <==> f.apUp
    ensures r.ap == "DOWN" <==> !f.apUp
  {
    StatusReport(now / 1000, LinkText(f.ethUp), LinkText(f.apUp))
  }
}
