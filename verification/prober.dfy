/** The per-candidate probe (`ScanSingleIPAsync`, `PingHostAsync`): an
    optional ping gate, then an HTTP request per port in order until one
    answers. The network is an oracle: the ping outcome and the outcome of
    each request attempt are parameters, as is the clock reading. Every
    snapshot of the result that the probe reports is returned in order,
    together with the URLs requested. */
module Prober {
  import opened Wrappers
  import opened Decimal
  import opened Cancellation
  import opened ScanResults
  import opened ScanConfigurations

  /** What `Ping.SendPingAsync` gave: a reply with its round-trip time, or no
      usable reply (a non-success status or an exception). */
  datatype PingOutcome = Reply(roundtripMs: nat) | NoReply

  /** What one `HttpClient.GetAsync` did: any response (whatever its status
      code) with the elapsed time, an exception with its message, or a
      cancellation (the client's own timeout or the scan's token). */
  datatype HttpOutcome = Responded(latencyMs: nat) | TransportError(message: string) | RequestCanceled

  /** The probe's reports, the ports it sent a request to, and the token
      after its checks. */
  datatype ProbeTrace = ProbeTrace(results: seq<ScanResult>, requested: seq<Int32>, token: Token)

  const PingTimeoutMessage: string := "Ping timeout"
  const RequestTimeoutMessage: string := "Request timeout"

  /** `PingHostAsync`: the round-trip time, or `maxPing + 1` milliseconds
      when there was no reply. The addition is 32-bit `int` arithmetic and
      wraps. */
  function PingTime(maxPing: Int32, outcome: PingOutcome): (ms: int)
    ensures outcome.Reply? ==> ms == outcome.roundtripMs
    ensures outcome.NoReply? ==> (ms - (maxPing + 1)) % 0x1_0000_0000 == 0
  {
    match outcome
    case Reply(rtt) => rtt
    case NoReply => Wrap32(maxPing + 1)
  }

  /** Whether the ping gate stops the probe. */
  predicate PingGated(config: ScanConfiguration, outcome: PingOutcome) {
    config.ping && PingTime(config.maxPing, outcome) > config.maxPing
  }

  /** A reply is gated exactly when it is slower than `MaxPing`; a missing
      reply is gated unless `MaxPing + 1` wraps around, which happens only
      for `MaxPing == int.MaxValue`. */
  lemma PingGateRule(config: ScanConfiguration, outcome: PingOutcome)
    requires config.ping
    ensures outcome.Reply? ==> (PingGated(config, outcome) <==> outcome.roundtripMs > config.maxPing)
    ensures outcome.NoReply? ==> (PingGated(config, outcome) <==> config.maxPing < Int32Max)
  {
  }

  /** The port the result starts with: `Ports?.FirstOrDefault() ?? 80`, so
      80 for a null list and 0 for an empty one. */
  function InitialPort(ports: Option<seq<Int32>>): (port: Int32)
    ensures ports.None? ==> port == 80
    ensures ports.Some? && |ports.value| == 0 ==> port == 0
    ensures ports.Some? && |ports.value| > 0 ==> port == ports.value[0]
  {
    match ports
    case None => 80
    case Some(ps) => if |ps| == 0 then 0 else ps[0]
  }

  /** The ports tried: the configured ones, or 80 and 443 when there are
      none. */
  function EffectivePorts(ports: Option<seq<Int32>>): (tried: seq<Int32>)
    ensures |tried| > 0
    ensures ports.Some? && |ports.value| > 0 ==> tried == ports.value
    ensures !(ports.Some? && |ports.value| > 0) ==> tried == DefaultPorts
  {
    if ports.Some? && |ports.value| > 0 then ports.value else DefaultPorts
  }

  /** The URL requested: plain concatenation of scheme, address, ':', port
      and path. */
  function Url(ip: string, port: Int32, path: string): string {
    "http://" + ip + ":" + IntToString(port) + path
  }

  /** An IPv6 address goes into the URL without the square brackets that
      section 3.2.2 of RFC 3986 requires around an IP literal: no '[' appears
      unless the address or the path brings one. */
  lemma UrlLeavesIPv6Unbracketed(ip: string, port: Int32, path: string)
    requires '[' !in ip && '[' !in path
    ensures '[' !in Url(ip, port, path)
  {
    var u := Url(ip, port, path);
    assert u == "http://" + ip + ":" + IntToString(port) + path;
  }

  /** The host a reader of the URL takes from the text after the scheme:
      everything up to the first ':', which starts the port. */
  function HostPart(s: string): (host: string)
    ensures |host| <= |s| && host == s[..|host|] && ':' !in host
    ensures |host| < |s| ==> s[|host|] == ':'
  {
    if |s| == 0 || s[0] == ':' then [] else [s[0]] + HostPart(s[1..])
  }

  /** Text without ':' followed by ':' reads back as its host. */
  lemma {:induction false} HostPartBeforeColon(host: string, rest: string)
    requires ':' !in host
    ensures HostPart(host + ":" + rest) == host
    decreases |host|
  {
    if |host| > 0 {
      assert (host + ":" + rest)[1..] == host[1..] + ":" + rest;
      HostPartBeforeColon(host[1..], rest);
    }
  }

  /** The URL names the probed address as its host exactly when the
      address has no ':'. Every IPv6 address has one, so its URL names a
      different host (for `::1` on port 80, `http://::1:80/` has an empty
      host). */
  lemma UrlHostIsAddressIff(ip: string, port: Int32, path: string)
    ensures HostPart(Url(ip, port, path)[|"http://"|..]) == ip <==> ':' !in ip
  {
    var u := Url(ip, port, path);
    assert u[|"http://"|..] == ip + ":" + (IntToString(port) + path);
    if ':' !in ip {
      HostPartBeforeColon(ip, IntToString(port) + path);
    }
  }

  /** The URLs of the requests sent to `ports`, in order. */
  function RequestUrls(ip: string, path: string, ports: seq<Int32>): (urls: seq<string>)
    ensures |urls| == |ports|
    ensures forall k :: 0 <= k < |ports| ==> urls[k] == Url(ip, ports[k], path)
  {
    if |ports| == 0 then [] else [Url(ip, ports[0], path)] + RequestUrls(ip, path, ports[1..])
  }

  /** The result with the port loop's outcome applied to it. */
  function Outcome(r: ScanResult, outcome: HttpOutcome): (s: ScanResult)
    ensures s.ipAddress == r.ipAddress && s.port == r.port && s.pingTimeMs == r.pingTimeMs
    ensures s.downloadSpeed == r.downloadSpeed && s.scanTime == r.scanTime && s.number == r.number
    ensures outcome.Responded? <==> s.status == Success
    ensures outcome.Responded? ==> s.errorMessage == r.errorMessage && s.latencyMs == outcome.latencyMs
    ensures outcome.TransportError? ==> s.status == Failed && s.errorMessage == outcome.message
    ensures outcome.RequestCanceled? ==> s.status == Timeout && s.errorMessage == RequestTimeoutMessage
  {
    match outcome
    case Responded(latency) => r.(latencyMs := latency, status := Success)
    case TransportError(message) => r.(status := Failed, errorMessage := message)
    case RequestCanceled => r.(status := Timeout, errorMessage := RequestTimeoutMessage)
  }

  /** Report `k` is about `ports[k]`, requested at its URL, and keeps the
      address, ping time and download speed of `r`. */
  predicate ReportsPorts(trace: ProbeTrace, ip: string, path: string, ports: seq<Int32>, r: ScanResult)
    requires |trace.results| <= |ports|
  {
    forall k :: 0 <= k < |trace.results| ==>
      && trace.results[k].port == ports[k]
      && trace.results[k].ipAddress == r.ipAddress
      && trace.results[k].pingTimeMs == r.pingTimeMs
      && trace.results[k].downloadSpeed == r.downloadSpeed
  }

  /** The port loop from attempt `attempt` on, over the ports still to try.
      Before each port the token is checked and the loop stops if it is
      signalled; the request itself is a second check, where a signalled
      token cancels the request. A response reports Success and stops; a
      failure or a timeout reports and moves to the next port. */
  function PortLoop(ip: string, path: string, ports: seq<Int32>, attempt: nat, r: ScanResult,
                    t: Token, http: nat -> HttpOutcome): (trace: ProbeTrace)
    ensures |trace.results| == |trace.requested| <= |ports|
    ensures trace.requested == ports[..|trace.requested|]
    ensures ReportsPorts(trace, ip, path, ports, r)
    ensures t.Never? ==> trace.token.Never?
    decreases |ports|
  {
    if |ports| == 0 || IsCancellationRequested(t) then ProbeTrace([], [], t)
    else
      var t1 := Pass(t);
      var outcome := if IsCancellationRequested(t1) then RequestCanceled else http(attempt);
      var t2 := Pass(t1);
      var s := Outcome(r.(port := ports[0]), outcome);
      if s.status == Success then ProbeTrace([s], [ports[0]], t2)
      else
        var rest := PortLoop(ip, path, ports[1..], attempt + 1, s, t2, http);
        ProbeTrace([s] + rest.results, [ports[0]] + rest.requested, rest.token)
  }

  /** The statuses a finished attempt reports. */
  predicate IsOutcomeStatus(s: ScanStatus) {
    s == Success || s == Failed || s == Timeout
  }

  /** No report but the last is a Success. */
  predicate NoEarlySuccess(results: seq<ScanResult>) {
    forall k :: 0 <= k < |results| - 1 ==> results[k].status != Success
  }

  /** Only the last report of the port loop can be a Success. */
  lemma {:induction false} PortLoopSuccessIsLast(ip: string, path: string, ports: seq<Int32>, attempt: nat,
                                                 r: ScanResult, t: Token, http: nat -> HttpOutcome)
    ensures NoEarlySuccess(PortLoop(ip, path, ports, attempt, r, t, http).results)
    decreases |ports|
  {
    if |ports| > 0 && !IsCancellationRequested(t) {
      var t1 := Pass(t);
      var outcome := if IsCancellationRequested(t1) then RequestCanceled else http(attempt);
      var s := Outcome(r.(port := ports[0]), outcome);
      var rest := PortLoop(ip, path, ports[1..], attempt + 1, s, Pass(t1), http).results;
      PortLoopSuccessIsLast(ip, path, ports[1..], attempt + 1, s, Pass(t1), http);
      var results := PortLoop(ip, path, ports, attempt, r, t, http).results;
      if s.status != Success {
        assert results == [s] + rest;
        forall k | 0 < k < |results| - 1
          ensures results[k].status != Success
        {
          assert results[k] == rest[k - 1];
        }
      }
    }
  }

  /** Every report is a Success, a Failed or a Timeout. */
  predicate AllOutcomes(results: seq<ScanResult>) {
    forall k :: 0 <= k < |results| ==> IsOutcomeStatus(results[k].status)
  }

  /** Every report of the port loop is a Success, a Failed or a Timeout. */
  lemma {:induction false} PortLoopStatuses(ip: string, path: string, ports: seq<Int32>, attempt: nat,
                                            r: ScanResult, t: Token, http: nat -> HttpOutcome)
    ensures AllOutcomes(PortLoop(ip, path, ports, attempt, r, t, http).results)
    decreases |ports|
  {
    if |ports| > 0 && !IsCancellationRequested(t) {
      var t1 := Pass(t);
      var outcome := if IsCancellationRequested(t1) then RequestCanceled else http(attempt);
      var s := Outcome(r.(port := ports[0]), outcome);
      var rest := PortLoop(ip, path, ports[1..], attempt + 1, s, Pass(t1), http).results;
      PortLoopStatuses(ip, path, ports[1..], attempt + 1, s, Pass(t1), http);
      var results := PortLoop(ip, path, ports, attempt, r, t, http).results;
      if s.status != Success {
        assert results == [s] + rest;
        forall k | 0 < k < |results|
          ensures IsOutcomeStatus(results[k].status)
        {
          assert results[k] == rest[k - 1];
        }
      }
    }
  }

  /** A Success keeps the error message an earlier port's failure left
      behind: the message is not cleared. */
  lemma {:induction false} PortLoopSuccessKeepsMessage(ip: string, path: string, ports: seq<Int32>, attempt: nat,
                                                       r: ScanResult, t: Token, http: nat -> HttpOutcome)
    ensures var results := PortLoop(ip, path, ports, attempt, r, t, http).results;
            && (|results| > 0 && results[0].status == Success ==> results[0].errorMessage == r.errorMessage)
            && (forall k :: 0 < k < |results| && results[k].status == Success ==>
                  results[k].errorMessage == results[k - 1].errorMessage)
    decreases |ports|
  {
    if |ports| > 0 && !IsCancellationRequested(t) {
      var t1 := Pass(t);
      var outcome := if IsCancellationRequested(t1) then RequestCanceled else http(attempt);
      var s := Outcome(r.(port := ports[0]), outcome);
      var rest := PortLoop(ip, path, ports[1..], attempt + 1, s, Pass(t1), http).results;
      PortLoopSuccessKeepsMessage(ip, path, ports[1..], attempt + 1, s, Pass(t1), http);
      var results := PortLoop(ip, path, ports, attempt, r, t, http).results;
      if s.status != Success {
        assert results == [s] + rest;
        forall k | 0 < k < |results| && results[k].status == Success
          ensures results[k].errorMessage == results[k - 1].errorMessage
        {
          if k == 1 {
            assert results[1] == rest[0];
          } else {
            assert results[k] == rest[k - 1] && results[k - 1] == rest[k - 2];
          }
        }
      }
    }
  }

  /** Without cancellation the loop stops only at a Success or after the
      last port. */
  lemma {:induction false} PortLoopRunsToEnd(ip: string, path: string, ports: seq<Int32>, attempt: nat,
                                             r: ScanResult, http: nat -> HttpOutcome)
    ensures var results := PortLoop(ip, path, ports, attempt, r, Never, http).results;
            (forall k :: 0 <= k < |results| ==> results[k].status != Success) ==> |results| == |ports|
    decreases |ports|
  {
    if |ports| > 0 {
      var s := Outcome(r.(port := ports[0]), http(attempt));
      var results := PortLoop(ip, path, ports, attempt, r, Never, http).results;
      if s.status != Success {
        var rest := PortLoop(ip, path, ports[1..], attempt + 1, s, Never, http).results;
        PortLoopRunsToEnd(ip, path, ports[1..], attempt + 1, s, http);
        assert results == [s] + rest;
        if forall k :: 0 <= k < |results| ==> results[k].status != Success {
          forall k | 0 <= k < |rest|
            ensures rest[k].status != Success
          {
            assert rest[k] == results[k + 1];
          }
        }
      }
    }
  }

  /** The snapshot report `k` is made from: the starting result for the
      first port, the report before it after that (the code keeps updating
      one result object). */
  function Prior(results: seq<ScanResult>, r: ScanResult, k: nat): ScanResult
    requires k <= |results|
  {
    if k == 0 then r else results[k - 1]
  }

  /** Report `k` is the outcome of attempt `attempt + k`, at port `k`,
      applied to the snapshot before it. */
  predicate FollowsAttempt(results: seq<ScanResult>, ports: seq<Int32>, attempt: nat, r: ScanResult,
                           http: nat -> HttpOutcome, k: nat)
    requires k < |results| <= |ports|
  {
    results[k] == Outcome(Prior(results, r, k).(port := ports[k]), http(attempt + k))
  }

  /** Report `k` is the Timeout of a request the token cancelled, at port
      `k`, applied to the snapshot before it. */
  predicate CancelledAt(results: seq<ScanResult>, ports: seq<Int32>, r: ScanResult, k: nat)
    requires k < |results| <= |ports|
  {
    results[k] == Outcome(Prior(results, r, k).(port := ports[k]), RequestCanceled)
  }

  /** Every report is what its attempt gave. */
  predicate FollowsOutcomes(results: seq<ScanResult>, ports: seq<Int32>, attempt: nat, r: ScanResult,
                            http: nat -> HttpOutcome)
    requires |results| <= |ports|
  {
    forall k :: 0 <= k < |results| ==> FollowsAttempt(results, ports, attempt, r, http, k)
  }

  /** Every report but the last is what its attempt gave; the last is that
      or a cancelled request. */
  predicate FollowsOutcomesUntilCancelled(results: seq<ScanResult>, ports: seq<Int32>, attempt: nat,
                                          r: ScanResult, http: nat -> HttpOutcome)
    requires |results| <= |ports|
  {
    && (forall k :: 0 <= k < |results| - 1 ==> FollowsAttempt(results, ports, attempt, r, http, k))
    && (|results| > 0 ==>
          FollowsAttempt(results, ports, attempt, r, http, |results| - 1) || CancelledAt(results, ports, r, |results| - 1))
  }

  /** A first report that follows its attempt, put before reports that
      follow theirs from the next port on, gives reports that all follow
      their attempts. */
  lemma FollowsOutcomesCons(s: ScanResult, rest: seq<ScanResult>, ports: seq<Int32>, attempt: nat,
                            r: ScanResult, http: nat -> HttpOutcome)
    requires |rest| < |ports|
    requires s == Outcome(r.(port := ports[0]), http(attempt))
    requires FollowsOutcomes(rest, ports[1..], attempt + 1, s, http)
    ensures FollowsOutcomes([s] + rest, ports, attempt, r, http)
  {
    var results := [s] + rest;
    forall k | 0 < k < |results|
      ensures FollowsAttempt(results, ports, attempt, r, http, k)
    {
      assert FollowsAttempt(rest, ports[1..], attempt + 1, s, http, k - 1);
      assert results[k] == rest[k - 1] && ports[k] == ports[1..][k - 1];
      assert Prior(results, r, k) == Prior(rest, s, k - 1);
    }
    assert FollowsAttempt(results, ports, attempt, r, http, 0);
  }

  /** The same, when the reports from the next port on may end with a
      cancelled request. */
  lemma FollowsUntilCancelledCons(s: ScanResult, rest: seq<ScanResult>, ports: seq<Int32>, attempt: nat,
                                  r: ScanResult, http: nat -> HttpOutcome)
    requires |rest| < |ports|
    requires s == Outcome(r.(port := ports[0]), http(attempt))
    requires FollowsOutcomesUntilCancelled(rest, ports[1..], attempt + 1, s, http)
    ensures FollowsOutcomesUntilCancelled([s] + rest, ports, attempt, r, http)
  {
    var results := [s] + rest;
    forall k | 0 < k < |results|
      ensures results[k] == rest[k - 1] && ports[k] == ports[1..][k - 1]
      ensures Prior(results, r, k) == Prior(rest, s, k - 1)
    {
    }
    forall k | 0 < k < |results| - 1
      ensures FollowsAttempt(results, ports, attempt, r, http, k)
    {
      assert FollowsAttempt(rest, ports[1..], attempt + 1, s, http, k - 1);
    }
    assert FollowsAttempt(results, ports, attempt, r, http, 0);
    if |rest| > 0 {
      var k := |results| - 1;
      assert FollowsAttempt(rest, ports[1..], attempt + 1, s, http, k - 1) || CancelledAt(rest, ports[1..], s, k - 1);
    }
  }

  /** Without cancellation, report `k` is exactly what attempt `attempt + k`
      gave: Success with its latency for a response, Failed with the
      message for a transport error, Timeout "Request timeout" for a
      cancelled request. */
  lemma {:induction false} PortLoopFollowsOutcomes(ip: string, path: string, ports: seq<Int32>, attempt: nat,
                                                   r: ScanResult, http: nat -> HttpOutcome)
    ensures FollowsOutcomes(PortLoop(ip, path, ports, attempt, r, Never, http).results, ports, attempt, r, http)
    decreases |ports|
  {
    if |ports| > 0 {
      var s := Outcome(r.(port := ports[0]), http(attempt));
      var results := PortLoop(ip, path, ports, attempt, r, Never, http).results;
      if s.status == Success {
        assert results == [s] + [];
        FollowsOutcomesCons(s, [], ports, attempt, r, http);
      } else {
        var rest := PortLoop(ip, path, ports[1..], attempt + 1, s, Never, http).results;
        PortLoopFollowsOutcomes(ip, path, ports[1..], attempt + 1, s, http);
        assert results == [s] + rest;
        FollowsOutcomesCons(s, rest, ports, attempt, r, http);
      }
    }
  }

  /** `n` reports out of `total` ports end at the first attempt that got a
      response: no attempt before the last report's got one, and the last
      report's did unless every port was tried. */
  predicate StopsAtFirstResponse(n: nat, total: nat, attempt: nat, http: nat -> HttpOutcome) {
    && (forall j :: attempt <= j < attempt + n - 1 ==> !http(j).Responded?)
    && (n == total || (n > 0 && http(attempt + n - 1).Responded?))
  }

  /** An attempt without a response, before reports that end at the first
      response from the next attempt on, keeps them ending there. */
  lemma StopsAtFirstResponseCons(n: nat, total: nat, attempt: nat, http: nat -> HttpOutcome)
    requires !http(attempt).Responded? && StopsAtFirstResponse(n, total, attempt + 1, http)
    ensures StopsAtFirstResponse(n + 1, total + 1, attempt, http)
  {
    forall j | attempt <= j < attempt + n
      ensures !http(j).Responded?
    {
      if j > attempt {
        assert attempt + 1 <= j < attempt + 1 + n - 1;
      }
    }
  }

  /** Without cancellation the loop ends at the first attempt that got a
      response, or after the last port when none did. */
  lemma {:induction false} PortLoopEndsAtFirstResponse(ip: string, path: string, ports: seq<Int32>, attempt: nat,
                                                       r: ScanResult, http: nat -> HttpOutcome)
    ensures StopsAtFirstResponse(|PortLoop(ip, path, ports, attempt, r, Never, http).results|, |ports|, attempt, http)
    decreases |ports|
  {
    if |ports| > 0 {
      var s := Outcome(r.(port := ports[0]), http(attempt));
      var results := PortLoop(ip, path, ports, attempt, r, Never, http).results;
      if s.status != Success {
        var rest := PortLoop(ip, path, ports[1..], attempt + 1, s, Never, http).results;
        PortLoopEndsAtFirstResponse(ip, path, ports[1..], attempt + 1, s, http);
        assert |results| == |rest| + 1;
        StopsAtFirstResponseCons(|rest|, |ports| - 1, attempt, http);
      }
    }
  }

  /** A signalled token stops the loop before any further port. Each port
      passes two check points, so a token that fires after `n` of them
      lets at most `(n + 1) / 2` ports be reported. */
  lemma {:induction false} PortLoopStopsWhenCancelled(ip: string, path: string, ports: seq<Int32>, attempt: nat,
                                                      r: ScanResult, t: Token, http: nat -> HttpOutcome)
    ensures var trace := PortLoop(ip, path, ports, attempt, r, t, http);
            && (IsCancellationRequested(t) ==> trace.results == [] && trace.requested == [])
            && (t.After? ==> |trace.results| <= (t.checks + 1) / 2)
    decreases |ports|
  {
    if |ports| > 0 && !IsCancellationRequested(t) {
      var t1 := Pass(t);
      var outcome := if IsCancellationRequested(t1) then RequestCanceled else http(attempt);
      var s := Outcome(r.(port := ports[0]), outcome);
      PortLoopStopsWhenCancelled(ip, path, ports[1..], attempt + 1, s, Pass(t1), http);
    }
  }

  /** One round of the port loop under a token not yet signalled: the
      request is cancelled when the token fires at it, and the loop goes on
      after anything but a Success. */
  lemma PortLoopStep(ip: string, path: string, ports: seq<Int32>, attempt: nat, r: ScanResult,
                     t: Token, http: nat -> HttpOutcome)
    requires |ports| > 0 && !IsCancellationRequested(t)
    ensures var s := Outcome(r.(port := ports[0]),
                             if IsCancellationRequested(Pass(t)) then RequestCanceled else http(attempt));
            PortLoop(ip, path, ports, attempt, r, t, http).results
              == if s.status == Success then [s]
                 else [s] + PortLoop(ip, path, ports[1..], attempt + 1, s, Pass(Pass(t)), http).results
  {
  }

  /** Whatever the token does, every report but the last is what its
      attempt gave, and the last is that or the Timeout of a request the
      token cancelled. */
  lemma {:induction false} PortLoopFollowsUntilCancelled(ip: string, path: string, ports: seq<Int32>, attempt: nat,
                                                         r: ScanResult, t: Token, http: nat -> HttpOutcome)
    ensures FollowsOutcomesUntilCancelled(PortLoop(ip, path, ports, attempt, r, t, http).results, ports, attempt, r, http)
    decreases |ports|
  {
    if |ports| > 0 && !IsCancellationRequested(t) {
      var t1 := Pass(t);
      var results := PortLoop(ip, path, ports, attempt, r, t, http).results;
      PortLoopStep(ip, path, ports, attempt, r, t, http);
      if IsCancellationRequested(t1) {
        var s := Outcome(r.(port := ports[0]), RequestCanceled);
        PortLoopStopsWhenCancelled(ip, path, ports[1..], attempt + 1, s, Pass(t1), http);
        assert results == [s];
        assert CancelledAt(results, ports, r, 0);
      } else {
        var s := Outcome(r.(port := ports[0]), http(attempt));
        if s.status == Success {
          assert FollowsAttempt(results, ports, attempt, r, http, 0);
        } else {
          var rest := PortLoop(ip, path, ports[1..], attempt + 1, s, Pass(t1), http).results;
          PortLoopFollowsUntilCancelled(ip, path, ports[1..], attempt + 1, s, Pass(t1), http);
          FollowsUntilCancelledCons(s, rest, ports, attempt, r, http);
        }
      }
    }
  }

  /** The result as the probe starts it: for `ip`, at the clock reading
      `now`, in the Scanning state, with the first configured port and, when
      ping is enabled, the ping time. */
  function StartResult(ip: string, config: ScanConfiguration, ping: PingOutcome, now: int): (r: ScanResult)
    ensures r.ipAddress == ip && r.scanTime == now && r.status == Scanning
    ensures r.port == InitialPort(config.ports) && r.downloadSpeed == "" && r.errorMessage == ""
    ensures r.pingTimeMs == (if config.ping then PingTime(config.maxPing, ping) else 0)
  {
    var start := NewResult().(ipAddress := ip, port := InitialPort(config.ports), scanTime := now, status := Scanning);
    if config.ping then start.(pingTimeMs := PingTime(config.maxPing, ping)) else start
  }

  /** `ScanSingleIPAsync`: a slow or missing ping reply reports one Timeout
      "Ping timeout" and requests nothing; otherwise the port loop runs over
      the ports to try. */
  function Probe(ip: string, config: ScanConfiguration, ping: PingOutcome, http: nat -> HttpOutcome,
                 t: Token, now: int): (trace: ProbeTrace)
    ensures PingGated(config, ping) ==>
              && |trace.results| == 1 && trace.requested == [] && trace.token == t
              && trace.results[0].status == Timeout && trace.results[0].errorMessage == PingTimeoutMessage
              && trace.results[0].port == InitialPort(config.ports)
              && trace.results[0].ipAddress == ip
    ensures !PingGated(config, ping) ==>
              && |trace.results| == |trace.requested| <= |EffectivePorts(config.ports)|
              && trace.requested == EffectivePorts(config.ports)[..|trace.requested|]
              && ReportsPorts(trace, ip, config.path, EffectivePorts(config.ports), StartResult(ip, config, ping, now))
    ensures t.Never? ==> trace.token.Never?
  {
    var start := StartResult(ip, config, ping, now);
    if PingGated(config, ping) then
      ProbeTrace([start.(status := Timeout, errorMessage := PingTimeoutMessage)], [], t)
    else PortLoop(ip, config.path, EffectivePorts(config.ports), 0, start, t, http)
  }

  /** Without cancellation and without any response, the port loop tries
      and reports every port. */
  lemma {:induction false} PortLoopWithoutResponse(ip: string, path: string, ports: seq<Int32>, attempt: nat,
                                                   r: ScanResult, http: nat -> HttpOutcome)
    requires forall k :: !http(k).Responded?
    ensures |PortLoop(ip, path, ports, attempt, r, Never, http).results| == |ports|
    decreases |ports|
  {
    if |ports| > 0 {
      PortLoopWithoutResponse(ip, path, ports[1..], attempt + 1, Outcome(r.(port := ports[0]), http(attempt)), http);
    }
  }

  /** Without cancellation and without any response, every port to try is
      requested, in order, and reported. */
  lemma NoResponseTriesEveryPort(ip: string, config: ScanConfiguration, ping: PingOutcome,
                                 http: nat -> HttpOutcome, now: int)
    requires !PingGated(config, ping)
    requires forall k :: !http(k).Responded?
    ensures var trace := Probe(ip, config, ping, http, Never, now);
            && |trace.results| == |EffectivePorts(config.ports)|
            && trace.requested == EffectivePorts(config.ports)
  {
    PortLoopWithoutResponse(ip, config.path, EffectivePorts(config.ports), 0, StartResult(ip, config, ping, now), http);
  }

  /** Every report is a finished attempt, and only the last can be a
      Success, so a probe reports at most one Success. */
  lemma ProbeSuccessIsLast(ip: string, config: ScanConfiguration, ping: PingOutcome, http: nat -> HttpOutcome,
                           t: Token, now: int)
    ensures AllOutcomes(Probe(ip, config, ping, http, t, now).results)
    ensures NoEarlySuccess(Probe(ip, config, ping, http, t, now).results)
  {
    if !PingGated(config, ping) {
      var start := StartResult(ip, config, ping, now);
      PortLoopStatuses(ip, config.path, EffectivePorts(config.ports), 0, start, t, http);
      PortLoopSuccessIsLast(ip, config.path, EffectivePorts(config.ports), 0, start, t, http);
    }
  }

  /** Every report is about the probed address and carries no download
      speed. */
  lemma ProbeReportsAboutAddress(ip: string, config: ScanConfiguration, ping: PingOutcome, http: nat -> HttpOutcome,
                                 t: Token, now: int)
    ensures var results := Probe(ip, config, ping, http, t, now).results;
            forall k :: 0 <= k < |results| ==> results[k].ipAddress == ip && results[k].downloadSpeed == ""
  {
  }

  /** Past the ping gate and without cancellation, report `k` is what the
      request to the `k`-th port to try gave, starting from the probe's
      initial result. */
  lemma ProbeFollowsOutcomes(ip: string, config: ScanConfiguration, ping: PingOutcome, http: nat -> HttpOutcome,
                             now: int)
    requires !PingGated(config, ping)
    ensures var results := Probe(ip, config, ping, http, Never, now).results;
            && |results| <= |EffectivePorts(config.ports)|
            && FollowsOutcomes(results, EffectivePorts(config.ports), 0, StartResult(ip, config, ping, now), http)
  {
    var start := StartResult(ip, config, ping, now);
    assert Probe(ip, config, ping, http, Never, now)
        == PortLoop(ip, config.path, EffectivePorts(config.ports), 0, start, Never, http);
    PortLoopFollowsOutcomes(ip, config.path, EffectivePorts(config.ports), 0, start, http);
  }

  /** Past the ping gate and without cancellation, the probe stops at the
      first request that got a response, or after the last port to try
      when none did. */
  lemma ProbeEndsAtFirstResponse(ip: string, config: ScanConfiguration, ping: PingOutcome, http: nat -> HttpOutcome,
                                 now: int)
    requires !PingGated(config, ping)
    ensures StopsAtFirstResponse(|Probe(ip, config, ping, http, Never, now).results|,
                                 |EffectivePorts(config.ports)|, 0, http)
  {
    var start := StartResult(ip, config, ping, now);
    assert Probe(ip, config, ping, http, Never, now)
        == PortLoop(ip, config.path, EffectivePorts(config.ports), 0, start, Never, http);
    PortLoopEndsAtFirstResponse(ip, config.path, EffectivePorts(config.ports), 0, start, http);
  }

  /** Past the ping gate, a token already signalled when the probe starts
      stops it before any request, and whatever the token does, every
      report but the last is what its request gave and the last is that or
      a cancelled request. */
  lemma ProbeStopsWhenCancelled(ip: string, config: ScanConfiguration, ping: PingOutcome, http: nat -> HttpOutcome,
                                t: Token, now: int)
    requires !PingGated(config, ping)
    ensures var trace := Probe(ip, config, ping, http, t, now);
            && (IsCancellationRequested(t) ==> trace.results == [] && trace.requested == [])
            && |trace.results| <= |EffectivePorts(config.ports)|
            && FollowsOutcomesUntilCancelled(trace.results, EffectivePorts(config.ports), 0,
                                             StartResult(ip, config, ping, now), http)
  {
    var start := StartResult(ip, config, ping, now);
    PortLoopStopsWhenCancelled(ip, config.path, EffectivePorts(config.ports), 0, start, t, http);
    PortLoopFollowsUntilCancelled(ip, config.path, EffectivePorts(config.ports), 0, start, t, http);
  }
}
