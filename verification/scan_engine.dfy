/** The scan engine (`NetworkScannerService.StartScanAsync`, `StopScanAsync`,
    `ReportProgress`): one scan at a time, candidates probed one after the
    other, counters kept and events raised in order. Events are returned as
    a sequence instead of being raised on subscribers. The per-candidate
    probe is a parameter of the loop, so what the loop promises holds for
    any probe; `StartScan` plugs in `Prober.Probe` over a network oracle. */
module ScanEngine {
  import opened Decimal
  import opened Cancellation
  import opened ScanResults
  import opened ScanConfigurations
  import opened Host
  import opened CandidateSource
  import opened Prober

  /** `ScanProgressEventArgs` without the `double` percentage. */
  datatype ScanProgress = ScanProgress(currentTarget: string, completedScans: int, totalScans: int, successfulScans: int)

  /** The three events the engine raises. */
  datatype ScanEvent =
    | ResultReceived(result: ScanResult)
    | ProgressChanged(progress: ScanProgress)
    | StatusChanged(isScanning: bool)

  /** The engine's fields (the percentage is left out). */
  datatype EngineState = EngineState(isScanning: bool, progressCounter: int, totalScans: int,
                                     completedScans: int, successfulScans: int)

  /** A newly constructed engine. */
  function NewEngine(): (e: EngineState)
    ensures !e.isScanning && e.completedScans == 0 && e.successfulScans == 0 && e.totalScans == 0
  {
    EngineState(false, 0, 0, 0, 0)
  }

  /** The outcome of the network for a scan: the ping outcome of the
      candidate at each position, the outcome of each request attempt of
      that candidate, and the clock reading when its probe starts. */
  datatype Network = Network(ping: nat -> PingOutcome, http: (nat, nat) -> HttpOutcome, clock: nat -> int)

  /** The probe of one candidate, given its address, its position and the
      token. */
  type ProbeFn = (string, nat, Token) -> ProbeTrace

  /** `ScanSingleIPAsync` for a scan with configuration `config` over
      `net`. */
  function ProbeWith(config: ScanConfiguration, net: Network): ProbeFn {
    (ip: string, i: nat, t: Token) => Probe(ip, config, net.ping(i), (k: nat) => net.http(i, k), t, net.clock(i))
  }

  /** The results a probe reports, as events. */
  function Received(results: seq<ScanResult>): (events: seq<ScanEvent>)
    ensures |events| == |results|
  {
    if |results| == 0 then [] else [ResultReceived(results[0])] + Received(results[1..])
  }

  /** Event `k` carries result `k`. */
  lemma {:induction false} ReceivedCarriesResults(results: seq<ScanResult>)
    ensures forall k :: 0 <= k < |results| ==> Received(results)[k] == ResultReceived(results[k])
  {
    if |results| > 0 {
      ReceivedCarriesResults(results[1..]);
      assert Received(results) == [ResultReceived(results[0])] + Received(results[1..]);
    }
  }

  /** A state change and the events it raised. */
  datatype Step = Step(state: EngineState, events: seq<ScanEvent>)

  /** `ReportProgress`: count the report and raise a progress event with the
      current counters on every fifth one. */
  function ReportProgress(s: EngineState, target: string): (step: Step)
    ensures step.state == EngineState(s.isScanning, s.progressCounter + 1, s.totalScans, s.completedScans, s.successfulScans)
    ensures |step.events| <= 1
    ensures |step.events| == 1 <==> (s.progressCounter + 1) % 5 == 0
  {
    var counter := s.progressCounter + 1;
    var progress := ScanProgress(target, s.completedScans, s.totalScans, s.successfulScans);
    Step(EngineState(s.isScanning, counter, s.totalScans, s.completedScans, s.successfulScans), if counter % 5 == 0 then [ProgressChanged(progress)] else [])
  }

  /** How the candidate loop ended: `finished` is false when the delay after
      a candidate was cancelled, which leaves the loop by an exception. */
  datatype LoopRun = LoopRun(state: EngineState, events: seq<ScanEvent>, finished: bool, token: Token)


  /** What one pass of the loop body leaves: the engine, the events raised
      and the token after the probe. */
  datatype Visit = Visit(state: EngineState, events: seq<ScanEvent>, token: Token)

  /** The loop body for one candidate: probe it, count it as completed and
      as successful (every probe that returns counts as successful), and
      report progress. */
  function VisitCandidate(ip: string, i: nat, probe: ProbeFn, s: EngineState, t: Token): (v: Visit)
    ensures v.state == EngineState(s.isScanning, s.progressCounter + 1, s.totalScans,
                                   s.completedScans + 1, s.successfulScans + 1)
    ensures v.token == probe(ip, i, t).token
  {
    var trace := probe(ip, i, t);
    var done := EngineState(s.isScanning, s.progressCounter, s.totalScans, s.completedScans + 1, s.successfulScans + 1);
    var report := ReportProgress(done, ip);
    Visit(report.state, Received(trace.results) + report.events, trace.token)
  }

  /** The candidate loop from position `i` on. The token is checked before
      each candidate and the loop stops if it is signalled; the candidate is
      visited; the delay that follows is a second check, where a signalled
      token ends the loop unfinished. */
  function ScanLoop(ips: seq<string>, i: nat, probe: ProbeFn, s: EngineState, t: Token): (run: LoopRun)
    requires i <= |ips|
    ensures run.state.isScanning == s.isScanning && run.state.totalScans == s.totalScans
    ensures 0 <= run.state.completedScans - s.completedScans <= |ips| - i
    ensures run.state.successfulScans - s.successfulScans == run.state.completedScans - s.completedScans
    ensures run.state.progressCounter - s.progressCounter == run.state.completedScans - s.completedScans
    decreases |ips| - i, 1
  {
    if i == |ips| || IsCancellationRequested(t) then LoopRun(s, [], true, t)
    else AfterVisit(ips, i, probe, VisitCandidate(ips[i], i, probe, s, Pass(t)))
  }

  /** The rest of the loop once candidate `i` has been visited: the delay,
      then the candidates after it. */
  function AfterVisit(ips: seq<string>, i: nat, probe: ProbeFn, v: Visit): (run: LoopRun)
    requires i < |ips|
    ensures run.state.isScanning == v.state.isScanning && run.state.totalScans == v.state.totalScans
    ensures 0 <= run.state.completedScans - v.state.completedScans <= |ips| - i - 1
    ensures run.state.successfulScans - v.state.successfulScans == run.state.completedScans - v.state.completedScans
    ensures run.state.progressCounter - v.state.progressCounter == run.state.completedScans - v.state.completedScans
    decreases |ips| - i, 0
  {
    if IsCancellationRequested(v.token) then LoopRun(v.state, v.events, false, v.token)
    else
      var rest := ScanLoop(ips, i + 1, probe, v.state, Pass(v.token));
      LoopRun(rest.state, v.events + rest.events, rest.finished, rest.token)
  }

  /** Whether a probe leaves a token that is never signalled as it is. */
  ghost predicate KeepsNever(probe: ProbeFn) {
    forall ip, i :: probe(ip, i, Never).token.Never?
  }

  /** The scanner's own probe never signals a token. */
  lemma ProbeWithKeepsNever(config: ScanConfiguration, net: Network)
    ensures KeepsNever(ProbeWith(config, net))
  {
    forall ip, i: nat
      ensures ProbeWith(config, net)(ip, i, Never).token.Never?
    {
      assert ProbeWith(config, net)(ip, i, Never) == Probe(ip, config, net.ping(i), (k: nat) => net.http(i, k), Never, net.clock(i));
    }
  }

  /** The loop leaves candidates unprobed, or ends unfinished, only when
      the token it leaves is signalled. */
  lemma {:induction false} ScanLoopStopsOnlyWhenCancelled(ips: seq<string>, i: nat, probe: ProbeFn,
                                                         s: EngineState, t: Token)
    requires i <= |ips|
    ensures var run := ScanLoop(ips, i, probe, s, t);
            (!run.finished || run.state.completedScans - s.completedScans < |ips| - i) ==>
              IsCancellationRequested(run.token)
    decreases |ips| - i, 1
  {
    if i < |ips| && !IsCancellationRequested(t) {
      AfterVisitStopsOnlyWhenCancelled(ips, i, probe, VisitCandidate(ips[i], i, probe, s, Pass(t)));
    }
  }

  lemma {:induction false} AfterVisitStopsOnlyWhenCancelled(ips: seq<string>, i: nat, probe: ProbeFn, v: Visit)
    requires i < |ips|
    ensures var run := AfterVisit(ips, i, probe, v);
            (!run.finished || run.state.completedScans - v.state.completedScans < |ips| - i - 1) ==>
              IsCancellationRequested(run.token)
    decreases |ips| - i, 0
  {
    if !IsCancellationRequested(v.token) {
      ScanLoopStopsOnlyWhenCancelled(ips, i + 1, probe, v.state, Pass(v.token));
    }
  }

  /** Without cancellation the loop probes every remaining candidate and
      finishes. */
  lemma {:induction false} ScanLoopWithoutCancellation(ips: seq<string>, i: nat, probe: ProbeFn, s: EngineState)
    requires i <= |ips|
    requires KeepsNever(probe)
    ensures var run := ScanLoop(ips, i, probe, s, Never);
            run.finished && run.state.completedScans - s.completedScans == |ips| - i
    decreases |ips| - i, 1
  {
    if i < |ips| {
      var v := VisitCandidate(ips[i], i, probe, s, Never);
      assert v.token.Never?;
      AfterVisitWithoutCancellation(ips, i, probe, v);
    }
  }

  lemma {:induction false} AfterVisitWithoutCancellation(ips: seq<string>, i: nat, probe: ProbeFn, v: Visit)
    requires i < |ips| && v.token.Never?
    requires KeepsNever(probe)
    ensures var run := AfterVisit(ips, i, probe, v);
            run.finished && run.state.completedScans - v.state.completedScans == |ips| - i - 1
    decreases |ips| - i, 0
  {
    ScanLoopWithoutCancellation(ips, i + 1, probe, v.state);
  }

  /** Whether a stream of events holds no status change. */
  predicate NoStatusEvents(events: seq<ScanEvent>) {
    forall k :: 0 <= k < |events| ==> !events[k].StatusChanged?
  }

  /** The status changes among a stream of events, in order. */
  function Statuses(events: seq<ScanEvent>): (bs: seq<bool>)
    ensures |bs| <= |events|
  {
    if |events| == 0 then []
    else (if events[0].StatusChanged? then [events[0].isScanning] else []) + Statuses(events[1..])
  }

  lemma {:induction false} StatusesAppend(a: seq<ScanEvent>, b: seq<ScanEvent>)
    ensures Statuses(a + b) == Statuses(a) + Statuses(b)
  {
    if |a| == 0 {
      assert a + b == b;
    } else {
      assert (a + b)[0] == a[0];
      assert (a + b)[1..] == a[1..] + b;
      StatusesAppend(a[1..], b);
    }
  }

  /** A stream holds no status change exactly when it has no status to
      list. */
  lemma {:induction false} NoStatusEventsIff(events: seq<ScanEvent>)
    ensures NoStatusEvents(events) <==> Statuses(events) == []
  {
    if |events| > 0 {
      var rest := events[1..];
      NoStatusEventsIff(rest);
      if NoStatusEvents(events) {
        forall k | 0 <= k < |rest|
          ensures !rest[k].StatusChanged?
        {
          assert rest[k] == events[k + 1];
        }
      }
      if Statuses(events) == [] {
        assert !events[0].StatusChanged?;
        forall k | 0 < k < |events|
          ensures !events[k].StatusChanged?
        {
          assert events[k] == rest[k - 1];
        }
      }
    }
  }

  lemma {:induction false} StatusesOfReceived(results: seq<ScanResult>)
    ensures Statuses(Received(results)) == []
  {
    if |results| > 0 {
      assert Received(results)[1..] == Received(results[1..]);
      StatusesOfReceived(results[1..]);
    }
  }

  /** Status changes are raised by the scan itself, never by a candidate:
      one pass of the loop body raises results and progress only. */
  lemma VisitRaisesNoStatus(ip: string, i: nat, probe: ProbeFn, s: EngineState, t: Token)
    ensures Statuses(VisitCandidate(ip, i, probe, s, t).events) == []
  {
    var trace := probe(ip, i, t);
    var done := EngineState(s.isScanning, s.progressCounter, s.totalScans, s.completedScans + 1, s.successfulScans + 1);
    var report := ReportProgress(done, ip);
    assert VisitCandidate(ip, i, probe, s, t).events == Received(trace.results) + report.events;
    StatusesAppend(Received(trace.results), report.events);
    StatusesOfReceived(trace.results);
    if |report.events| == 1 {
      assert report.events[1..] == [];
    }
  }

  /** The loop raises no status change. */
  lemma {:induction false} ScanLoopRaisesNoStatus(ips: seq<string>, i: nat, probe: ProbeFn, s: EngineState, t: Token)
    requires i <= |ips|
    ensures Statuses(ScanLoop(ips, i, probe, s, t).events) == []
    decreases |ips| - i, 1
  {
    if i < |ips| && !IsCancellationRequested(t) {
      VisitRaisesNoStatus(ips[i], i, probe, s, Pass(t));
      AfterVisitRaisesNoStatus(ips, i, probe, VisitCandidate(ips[i], i, probe, s, Pass(t)));
    }
  }

  lemma {:induction false} AfterVisitRaisesNoStatus(ips: seq<string>, i: nat, probe: ProbeFn, v: Visit)
    requires i < |ips| && Statuses(v.events) == []
    ensures Statuses(AfterVisit(ips, i, probe, v).events) == []
    decreases |ips| - i, 0
  {
    if !IsCancellationRequested(v.token) {
      var rest := ScanLoop(ips, i + 1, probe, v.state, Pass(v.token));
      ScanLoopRaisesNoStatus(ips, i + 1, probe, v.state, Pass(v.token));
      StatusesAppend(v.events, rest.events);
    }
  }

  /** The progress reports among a stream of events, in order. */
  function Progresses(events: seq<ScanEvent>): (ps: seq<ScanProgress>)
    ensures |ps| <= |events|
  {
    if |events| == 0 then []
    else (if events[0].ProgressChanged? then [events[0].progress] else []) + Progresses(events[1..])
  }

  lemma {:induction false} ProgressesAppend(a: seq<ScanEvent>, b: seq<ScanEvent>)
    ensures Progresses(a + b) == Progresses(a) + Progresses(b)
  {
    if |a| == 0 {
      assert a + b == b;
    } else {
      assert (a + b)[0] == a[0];
      assert (a + b)[1..] == a[1..] + b;
      ProgressesAppend(a[1..], b);
    }
  }

  lemma {:induction false} ProgressesOfReceived(results: seq<ScanResult>)
    ensures Progresses(Received(results)) == []
  {
    if |results| > 0 {
      assert Received(results)[1..] == Received(results[1..]);
      ProgressesOfReceived(results[1..]);
    }
  }

  /** The status changes that open and close a scan carry no progress. */
  lemma ProgressesBetweenStatuses(events: seq<ScanEvent>)
    ensures Progresses([StatusChanged(true)] + events + [StatusChanged(false)]) == Progresses(events)
  {
    ProgressesAppend([StatusChanged(true)], events);
    ProgressesAppend([StatusChanged(true)] + events, [StatusChanged(false)]);
    assert [StatusChanged(true)][1..] == [];
    assert [StatusChanged(false)][1..] == [];
  }

  /** The progress reports due for the first `n` candidates of `ips`: one
      for every fifth, naming it and counting it as completed and
      successful out of `total`. */
  function FifthReports(ips: seq<string>, n: nat, total: int): (ps: seq<ScanProgress>)
    requires n <= |ips|
  {
    if n == 0 then []
    else FifthReports(ips, n - 1, total) + (if n % 5 == 0 then [ScanProgress(ips[n - 1], n, total, n)] else [])
  }

  /** Whether `ps` is the run of progress reports for candidates 5, 10, ...
      of `ips`: report `j` is for candidate number `n = 5 * (j + 1)`, names
      that candidate, and counts `n` completed and `n` successful out of
      `total`. */
  predicate EveryFifth(ps: seq<ScanProgress>, ips: seq<string>, total: int) {
    forall j :: 0 <= j < |ps| ==>
      var n := 5 * (j + 1);
      && ps[j].completedScans == n && ps[j].successfulScans == n && ps[j].totalScans == total
      && n <= |ips| && ps[j].currentTarget == ips[n - 1]
  }

  /** The reports due for `n` candidates are one per multiple of five, in
      order. */
  lemma {:induction false} FifthReportsEveryFifth(ips: seq<string>, n: nat, total: int)
    requires n <= |ips|
    ensures |FifthReports(ips, n, total)| == n / 5
    ensures EveryFifth(FifthReports(ips, n, total), ips, total)
  {
    if n > 0 {
      FifthReportsEveryFifth(ips, n - 1, total);
      var front := FifthReports(ips, n - 1, total);
      if n % 5 == 0 {
        assert n / 5 == (n - 1) / 5 + 1;
        assert 5 * (|front| + 1) == n;
        var ps := FifthReports(ips, n, total);
        forall j | 0 <= j < |ps|
          ensures var m := 5 * (j + 1);
                  && ps[j].completedScans == m && ps[j].successfulScans == m && ps[j].totalScans == total
                  && m <= |ips| && ps[j].currentTarget == ips[m - 1]
        {
          if j < |front| {
            assert ps[j] == front[j];
          }
        }
      } else {
        assert n / 5 == (n - 1) / 5;
        assert FifthReports(ips, n, total) == front;
      }
    }
  }

  /** The progress reports raised for candidate `i`: the one due for it,
      if any. */
  lemma VisitProgress(ips: seq<string>, i: nat, probe: ProbeFn, s: EngineState, t: Token)
    requires i < |ips|
    requires s.progressCounter == s.completedScans == s.successfulScans == i
    ensures FifthReports(ips, i, s.totalScans) + Progresses(VisitCandidate(ips[i], i, probe, s, t).events)
            == FifthReports(ips, i + 1, s.totalScans)
  {
    var trace := probe(ips[i], i, t);
    var done := EngineState(s.isScanning, s.progressCounter, s.totalScans, i + 1, i + 1);
    var report := ReportProgress(done, ips[i]);
    assert VisitCandidate(ips[i], i, probe, s, t).events == Received(trace.results) + report.events;
    ProgressesAppend(Received(trace.results), report.events);
    ProgressesOfReceived(trace.results);
    if (i + 1) % 5 == 0 {
      assert report.events[1..] == [];
    } else {
      assert report.events == [];
    }
  }

  /** Progress is reported at every fifth completed candidate: once the
      counters agree with the position `i`, the loop's reports are the ones
      due for the candidates it completes. */
  lemma {:induction false} ScanLoopProgress(ips: seq<string>, i: nat, probe: ProbeFn, s: EngineState, t: Token)
    requires i <= |ips|
    requires s.progressCounter == s.completedScans == s.successfulScans == i
    ensures var run := ScanLoop(ips, i, probe, s, t);
            FifthReports(ips, i, s.totalScans) + Progresses(run.events)
            == FifthReports(ips, run.state.completedScans, s.totalScans)
    decreases |ips| - i, 1
  {
    if i < |ips| && !IsCancellationRequested(t) {
      VisitProgress(ips, i, probe, s, Pass(t));
      AfterVisitProgress(ips, i, probe, VisitCandidate(ips[i], i, probe, s, Pass(t)), FifthReports(ips, i, s.totalScans));
    }
  }

  /** The same, for the rest of the loop after candidate `i`, whose own
      reports follow the earlier ones `before`. */
  lemma {:induction false} AfterVisitProgress(ips: seq<string>, i: nat, probe: ProbeFn, v: Visit,
                                              before: seq<ScanProgress>)
    requires i < |ips|
    requires v.state.progressCounter == v.state.completedScans == v.state.successfulScans == i + 1
    requires before + Progresses(v.events) == FifthReports(ips, i + 1, v.state.totalScans)
    ensures var run := AfterVisit(ips, i, probe, v);
            before + Progresses(run.events) == FifthReports(ips, run.state.completedScans, v.state.totalScans)
    decreases |ips| - i, 0
  {
    if !IsCancellationRequested(v.token) {
      var rest := ScanLoop(ips, i + 1, probe, v.state, Pass(v.token));
      ScanLoopProgress(ips, i + 1, probe, v.state, Pass(v.token));
      ProgressesAppend(v.events, rest.events);
      assert before + (Progresses(v.events) + Progresses(rest.events))
          == (before + Progresses(v.events)) + Progresses(rest.events);
    }
  }

  /** Whether a probe reports only about the address it probes. */
  ghost predicate ReportsOwnAddress(probe: ProbeFn) {
    forall ip, i, t, k :: 0 <= k < |probe(ip, i, t).results| ==> probe(ip, i, t).results[k].ipAddress == ip
  }

  /** The scanner's own probe reports only about the probed address. */
  lemma ProbeWithReportsOwnAddress(config: ScanConfiguration, net: Network)
    ensures ReportsOwnAddress(ProbeWith(config, net))
  {
    forall ip, i, t
      ensures var results := ProbeWith(config, net)(ip, i, t).results;
              forall k :: 0 <= k < |results| ==> results[k].ipAddress == ip
    {
      ProbeReportsAboutAddress(ip, config, net.ping(i), (k: nat) => net.http(i, k), t, net.clock(i));
    }
  }

  /** The results among a stream of events, in order. */
  function Results(events: seq<ScanEvent>): (rs: seq<ScanResult>)
    ensures |rs| <= |events|
  {
    if |events| == 0 then []
    else (if events[0].ResultReceived? then [events[0].result] else []) + Results(events[1..])
  }

  lemma {:induction false} ResultsAppend(a: seq<ScanEvent>, b: seq<ScanEvent>)
    ensures Results(a + b) == Results(a) + Results(b)
  {
    if |a| == 0 {
      assert a + b == b;
    } else {
      assert (a + b)[0] == a[0];
      assert (a + b)[1..] == a[1..] + b;
      ResultsAppend(a[1..], b);
    }
  }

  /** Raising results and listing them again are inverse. */
  lemma {:induction false} ResultsOfReceived(results: seq<ScanResult>)
    ensures Results(Received(results)) == results
  {
    if |results| > 0 {
      assert Received(results)[1..] == Received(results[1..]);
      ResultsOfReceived(results[1..]);
    }
  }

  /** Whether every result of `results` is about one of `ips`. */
  predicate AllAbout(results: seq<ScanResult>, ips: seq<string>) {
    |results| == 0 || (results[0].ipAddress in ips && AllAbout(results[1..], ips))
  }

  lemma {:induction false} AllAboutAppend(a: seq<ScanResult>, b: seq<ScanResult>, ips: seq<string>)
    ensures AllAbout(a + b, ips) <==> AllAbout(a, ips) && AllAbout(b, ips)
  {
    if |a| == 0 {
      assert a + b == b;
    } else {
      assert (a + b)[0] == a[0];
      assert (a + b)[1..] == a[1..] + b;
      AllAboutAppend(a[1..], b, ips);
    }
  }

  /** `AllAbout` read position by position. */
  lemma {:induction false} AllAboutIff(results: seq<ScanResult>, ips: seq<string>)
    ensures AllAbout(results, ips) <==> forall k :: 0 <= k < |results| ==> results[k].ipAddress in ips
  {
    if |results| > 0 {
      var rest := results[1..];
      AllAboutIff(rest, ips);
      if forall k :: 0 <= k < |results| ==> results[k].ipAddress in ips {
        forall k | 0 <= k < |rest|
          ensures rest[k].ipAddress in ips
        {
          assert rest[k] == results[k + 1];
        }
      }
      if AllAbout(results, ips) {
        forall k | 0 < k < |results|
          ensures results[k].ipAddress in ips
        {
          assert results[k] == rest[k - 1];
        }
      }
    }
  }

  /** The results raised for a candidate are the ones its probe reports, in
      order. */
  lemma VisitResults(ip: string, i: nat, probe: ProbeFn, s: EngineState, t: Token)
    ensures Results(VisitCandidate(ip, i, probe, s, t).events) == probe(ip, i, t).results
  {
    var trace := probe(ip, i, t);
    var done := EngineState(s.isScanning, s.progressCounter, s.totalScans, s.completedScans + 1, s.successfulScans + 1);
    var report := ReportProgress(done, ip);
    assert VisitCandidate(ip, i, probe, s, t).events == Received(trace.results) + report.events;
    ResultsAppend(Received(trace.results), report.events);
    ResultsOfReceived(trace.results);
    if |report.events| == 1 {
      assert report.events[1..] == [];
    }
  }

  /** The results raised for candidate `i` are about that candidate. */
  lemma VisitResultsAbout(ips: seq<string>, i: nat, probe: ProbeFn, s: EngineState, t: Token)
    requires i < |ips|
    requires ReportsOwnAddress(probe)
    ensures AllAbout(Results(VisitCandidate(ips[i], i, probe, s, t).events), ips)
  {
    VisitResults(ips[i], i, probe, s, t);
    AllAboutIff(probe(ips[i], i, t).results, ips);
  }

  /** Every result the loop raises is about a candidate of the list. */
  lemma {:induction false} ScanLoopResultsAboutCandidates(ips: seq<string>, i: nat, probe: ProbeFn,
                                                         s: EngineState, t: Token)
    requires i <= |ips|
    requires ReportsOwnAddress(probe)
    ensures AllAbout(Results(ScanLoop(ips, i, probe, s, t).events), ips)
    decreases |ips| - i, 1
  {
    if i < |ips| && !IsCancellationRequested(t) {
      VisitResultsAbout(ips, i, probe, s, Pass(t));
      AfterVisitResultsAboutCandidates(ips, i, probe, VisitCandidate(ips[i], i, probe, s, Pass(t)));
    }
  }

  lemma {:induction false} AfterVisitResultsAboutCandidates(ips: seq<string>, i: nat, probe: ProbeFn, v: Visit)
    requires i < |ips| && AllAbout(Results(v.events), ips)
    requires ReportsOwnAddress(probe)
    ensures AllAbout(Results(AfterVisit(ips, i, probe, v).events), ips)
    decreases |ips| - i, 0
  {
    if !IsCancellationRequested(v.token) {
      var rest := ScanLoop(ips, i + 1, probe, v.state, Pass(v.token));
      ScanLoopResultsAboutCandidates(ips, i + 1, probe, v.state, Pass(v.token));
      ResultsAppend(v.events, rest.events);
      AllAboutAppend(Results(v.events), Results(rest.events), ips);
    }
  }

  /** The reports of candidates `i`, `i + 1`, ... of `ips`, each probed
      with a token that is never signalled, in list order. */
  function ProbeResultsFrom(ips: seq<string>, i: nat, probe: ProbeFn): (rs: seq<ScanResult>)
    requires i <= |ips|
    decreases |ips| - i
  {
    if i == |ips| then [] else probe(ips[i], i, Never).results + ProbeResultsFrom(ips, i + 1, probe)
  }

  /** Without cancellation the loop raises the reports of every remaining
      candidate, candidate by candidate in list order, each exactly as its
      probe made them. */
  lemma {:induction false} ScanLoopResultsInOrder(ips: seq<string>, i: nat, probe: ProbeFn, s: EngineState)
    requires i <= |ips| && KeepsNever(probe)
    ensures Results(ScanLoop(ips, i, probe, s, Never).events) == ProbeResultsFrom(ips, i, probe)
    decreases |ips| - i, 1
  {
    if i < |ips| {
      var v := VisitCandidate(ips[i], i, probe, s, Never);
      VisitResults(ips[i], i, probe, s, Never);
      AfterVisitResultsInOrder(ips, i, probe, v);
    }
  }

  lemma {:induction false} AfterVisitResultsInOrder(ips: seq<string>, i: nat, probe: ProbeFn, v: Visit)
    requires i < |ips| && v.token.Never? && KeepsNever(probe)
    ensures Results(AfterVisit(ips, i, probe, v).events) == Results(v.events) + ProbeResultsFrom(ips, i + 1, probe)
    decreases |ips| - i, 0
  {
    var rest := ScanLoop(ips, i + 1, probe, v.state, Pass(v.token));
    ScanLoopResultsInOrder(ips, i + 1, probe, v.state);
    ResultsAppend(v.events, rest.events);
  }

  /** What `StartScanAsync` returned, the engine afterwards and the events
      raised. */
  datatype ScanOutcome = ScanOutcome(started: bool, state: EngineState, events: seq<ScanEvent>)

  /** `StartScanAsync` with the scan loop's probe as a parameter. A scan
      already in progress is refused with no effect. Otherwise the counters
      are reset, the scan is announced, the list is loaded, and an empty
      list ends the scan with false. The candidate count is the length of
      the list (the configured `Scans` is not applied here). The result is
      true when the loop finishes, false when the delay was cancelled;
      either way the scan is over and announced as such. */
  function RunScan(e: EngineState, ips: seq<string>, probe: ProbeFn, t: Token): (outcome: ScanOutcome)
    ensures e.isScanning ==> outcome == ScanOutcome(false, e, [])
    ensures !e.isScanning ==>
              && !outcome.state.isScanning
              && |outcome.events| >= 2
              && outcome.events[0] == StatusChanged(true)
              && outcome.events[|outcome.events| - 1] == StatusChanged(false)
              && NoStatusEvents(outcome.events[1..|outcome.events| - 1])
              && outcome.state.totalScans == |ips|
              && outcome.state.successfulScans == outcome.state.completedScans == outcome.state.progressCounter
              && 0 <= outcome.state.completedScans <= |ips|
    ensures |ips| == 0 ==> !outcome.started
  {
    if e.isScanning then ScanOutcome(false, e, [])
    else
      var reset := EngineState(true, 0, 0, 0, 0);
      if |ips| == 0 then
        ScanOutcome(false, reset.(isScanning := false), [StatusChanged(true), StatusChanged(false)])
      else
        var run := ScanLoop(ips, 0, probe, reset.(totalScans := |ips|), t);
        var events := [StatusChanged(true)] + run.events + [StatusChanged(false)];
        assert events[1..|events| - 1] == run.events;
        ScanLoopRaisesNoStatus(ips, 0, probe, reset.(totalScans := |ips|), t);
        NoStatusEventsIff(run.events);
        ScanOutcome(run.finished, run.state.(isScanning := false), events)
  }

  /** `StartScanAsync(configuration, token)`: the list comes from
      `LoadIPListAsync(configuration.IplistPath)` and each candidate is
      probed with `ScanSingleIPAsync` over the network `net`. */
  function StartScan(e: EngineState, config: ScanConfiguration, env: HostEnv, net: Network, t: Token): (outcome: ScanOutcome)
    ensures e.isScanning ==> outcome == ScanOutcome(false, e, [])
    ensures !e.isScanning ==> outcome.state.totalScans == |LoadIPList(config.iplistPath, env)|
  {
    RunScan(e, LoadIPList(config.iplistPath, env), ProbeWith(config, net), t)
  }

  /** Without cancellation a scan of a non-empty list probes every
      candidate and returns true, for any probe that leaves such a token
      as it is. */
  lemma RunScanWithoutCancellation(e: EngineState, ips: seq<string>, probe: ProbeFn)
    requires !e.isScanning && KeepsNever(probe)
    ensures var outcome := RunScan(e, ips, probe, Never);
            && outcome.started == (|ips| > 0)
            && outcome.state.completedScans == |ips|
  {
    if |ips| > 0 {
      ScanLoopWithoutCancellation(ips, 0, probe, EngineState(true, 0, |ips|, 0, 0));
    }
  }

  /** Without cancellation a scan that starts probes every candidate of a
      non-empty list and returns true. */
  lemma ScanWithoutCancellation(e: EngineState, config: ScanConfiguration, env: HostEnv, net: Network)
    requires !e.isScanning
    ensures var ips := LoadIPList(config.iplistPath, env);
            var outcome := StartScan(e, config, env, net, Never);
            && outcome.started == (|ips| > 0)
            && outcome.state.completedScans == |ips|
  {
    ProbeWithKeepsNever(config, net);
    RunScanWithoutCancellation(e, LoadIPList(config.iplistPath, env), ProbeWith(config, net));
  }

  /** A scan that returns false after probing, or that probed fewer
      candidates than it loaded, was cancelled. */
  lemma ScanStopsOnlyWhenCancelled(e: EngineState, ips: seq<string>, probe: ProbeFn, t: Token)
    requires !e.isScanning && |ips| > 0
    ensures var outcome := RunScan(e, ips, probe, t);
            (!outcome.started || outcome.state.completedScans < |ips|) ==>
              IsCancellationRequested(ScanLoop(ips, 0, probe, EngineState(true, 0, |ips|, 0, 0), t).token)
  {
    ScanLoopStopsOnlyWhenCancelled(ips, 0, probe, EngineState(true, 0, |ips|, 0, 0), t);
  }

  /** The progress reports of a loop over the whole list. */
  lemma ScanLoopEveryFifth(ips: seq<string>, probe: ProbeFn, t: Token)
    ensures var run := ScanLoop(ips, 0, probe, EngineState(true, 0, |ips|, 0, 0), t);
            var ps := Progresses(run.events);
            && |ps| == run.state.completedScans / 5
            && EveryFifth(ps, ips, |ips|)
  {
    var start := EngineState(true, 0, |ips|, 0, 0);
    var run := ScanLoop(ips, 0, probe, start, t);
    ScanLoopProgress(ips, 0, probe, start, t);
    assert FifthReports(ips, 0, |ips|) + Progresses(run.events) == Progresses(run.events);
    FifthReportsEveryFifth(ips, run.state.completedScans, |ips|);
  }

  /** The progress events of a scan: one per five completed candidates,
      the `j`-th for candidate `5 * (j + 1)` of the list with the counters
      at that point. */
  lemma ScanProgressEveryFifth(e: EngineState, ips: seq<string>, probe: ProbeFn, t: Token)
    requires !e.isScanning
    ensures var outcome := RunScan(e, ips, probe, t);
            var ps := Progresses(outcome.events);
            && |ps| == outcome.state.completedScans / 5
            && EveryFifth(ps, ips, |ips|)
  {
    if |ips| == 0 {
      ProgressesBetweenStatuses([]);
      assert [StatusChanged(true)] + [] + [StatusChanged(false)] == [StatusChanged(true), StatusChanged(false)];
    } else {
      ScanLoopEveryFifth(ips, probe, t);
      ProgressesBetweenStatuses(ScanLoop(ips, 0, probe, EngineState(true, 0, |ips|, 0, 0), t).events);
    }
  }

  /** Every result a scan raises is about a candidate of its list, for any
      probe that reports only about the address it probes. */
  lemma RunScanResultsAboutCandidates(e: EngineState, ips: seq<string>, probe: ProbeFn, t: Token)
    requires ReportsOwnAddress(probe)
    ensures var rs := Results(RunScan(e, ips, probe, t).events);
            forall k :: 0 <= k < |rs| ==> rs[k].ipAddress in ips
  {
    var rs := Results(RunScan(e, ips, probe, t).events);
    if !e.isScanning && |ips| > 0 {
      var run := ScanLoop(ips, 0, probe, EngineState(true, 0, |ips|, 0, 0), t);
      ScanLoopResultsAboutCandidates(ips, 0, probe, EngineState(true, 0, |ips|, 0, 0), t);
      ResultsAppend([StatusChanged(true)], run.events);
      ResultsAppend([StatusChanged(true)] + run.events, [StatusChanged(false)]);
      assert [StatusChanged(true)][1..] == [];
      assert [StatusChanged(false)][1..] == [];
      assert rs == Results(run.events);
      AllAboutIff(rs, ips);
    } else if !e.isScanning {
      assert RunScan(e, ips, probe, t).events[1..] == [StatusChanged(false)];
      assert rs == [];
    }
  }

  /** Every result a scan raises is about a loaded candidate. */
  lemma ScanResultsAboutCandidates(e: EngineState, config: ScanConfiguration, env: HostEnv, net: Network, t: Token)
    ensures var rs := Results(StartScan(e, config, env, net, t).events);
            forall k :: 0 <= k < |rs| ==> rs[k].ipAddress in LoadIPList(config.iplistPath, env)
  {
    ProbeWithReportsOwnAddress(config, net);
    RunScanResultsAboutCandidates(e, LoadIPList(config.iplistPath, env), ProbeWith(config, net), t);
  }

  /** Without cancellation a scan that starts raises the reports of every
      loaded candidate, in list order, each exactly as its probe made them,
      for any probe that leaves such a token as it is. */
  lemma RunScanResultsInOrder(e: EngineState, ips: seq<string>, probe: ProbeFn)
    requires !e.isScanning && KeepsNever(probe)
    ensures Results(RunScan(e, ips, probe, Never).events) == ProbeResultsFrom(ips, 0, probe)
  {
    var rs := Results(RunScan(e, ips, probe, Never).events);
    if |ips| > 0 {
      var run := ScanLoop(ips, 0, probe, EngineState(true, 0, |ips|, 0, 0), Never);
      ScanLoopResultsInOrder(ips, 0, probe, EngineState(true, 0, |ips|, 0, 0));
      ResultsAppend([StatusChanged(true)], run.events);
      ResultsAppend([StatusChanged(true)] + run.events, [StatusChanged(false)]);
      assert [StatusChanged(true)][1..] == [];
      assert [StatusChanged(false)][1..] == [];
    } else {
      assert RunScan(e, ips, probe, Never).events[1..] == [StatusChanged(false)];
      assert rs == [];
    }
  }

  /** Without cancellation a scan that starts raises the reports of every
      loaded candidate, in list order, each exactly as
      `ScanSingleIPAsync` made them. */
  lemma ScanResultsInOrder(e: EngineState, config: ScanConfiguration, env: HostEnv, net: Network)
    requires !e.isScanning
    ensures Results(StartScan(e, config, env, net, Never).events)
              == ProbeResultsFrom(LoadIPList(config.iplistPath, env), 0, ProbeWith(config, net))
  {
    ProbeWithKeepsNever(config, net);
    RunScanResultsInOrder(e, LoadIPList(config.iplistPath, env), ProbeWith(config, net));
  }

  /** `StopScanAsync`: signal the scan's token, clear the flag and announce
      the end of the scan. The token is the one a running scan checks. */
  function StopScan(e: EngineState): (r: (EngineState, Token, seq<ScanEvent>))
    ensures !r.0.isScanning && IsCancellationRequested(r.1) && r.2 == [StatusChanged(false)]
    ensures r.0.totalScans == e.totalScans && r.0.completedScans == e.completedScans
    ensures r.0.successfulScans == e.successfulScans
  {
    (e.(isScanning := false), After(0), [StatusChanged(false)])
  }

  /** After a stop the engine accepts a new scan, and that scan runs as on
      a newly constructed engine: nothing of the stopped scan carries
      over. */
  lemma StopThenStart(e: EngineState, ips: seq<string>, probe: ProbeFn, t: Token)
    ensures RunScan(StopScan(e).0, ips, probe, t).events[0] == StatusChanged(true)
    ensures RunScan(StopScan(e).0, ips, probe, t) == RunScan(NewEngine(), ips, probe, t)
  {
  }
}
