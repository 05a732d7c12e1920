/** The scan view model (`MainViewModel`): the display buffer of the most
    recent results, the success/failure counters, the list of successful
    addresses and the white-list saves, driven by the scanner's events.
    A save is recorded as the list of lines written; the file itself is
    not modelled. */
module ViewModels {
  import opened Decimal
  import opened Cancellation
  import opened ScanResults
  import opened ScanConfigurations
  import opened Host
  import opened CandidateSource
  import opened ScanEngine

  /** At most this many results are displayed. */
  const BufferLimit: nat := 100
  /** `ClearOldResults` keeps this many results. */
  const ClearKeep: nat := 50
  /** The white list is saved whenever the success count reaches a
      multiple of this. */
  const SaveInterval: nat := 10

  /** The view model's fields. `whiteListWrites` holds the contents of each
      save, oldest first. */
  datatype ViewModel = ViewModel(
    isScanning: bool,
    scanResults: seq<ScanResult>,
    successfulIPs: seq<string>,
    totalScans: int,
    successfulScans: int,
    failedScans: int,
    loadedIPCount: int,
    whiteListWrites: seq<seq<string>>)

  /** A newly constructed view model. */
  function NewViewModel(): (vm: ViewModel)
    ensures !vm.isScanning && vm.scanResults == [] && vm.whiteListWrites == []
  {
    ViewModel(false, [], [], 0, 0, 0, 0, [])
  }

  /** `CanStartScan`. */
  predicate CanStartScan(vm: ViewModel) {
    !vm.isScanning
  }

  /** `CanStopScan`. */
  predicate CanStopScan(vm: ViewModel) {
    vm.isScanning
  }

  /** Exactly one of the two commands is enabled at any time. */
  lemma ExactlyOneCommandEnabled(vm: ViewModel)
    ensures CanStartScan(vm) <==> !CanStopScan(vm)
  {
  }

  // ---------------------------------------------------------------------
  // The display buffer
  // ---------------------------------------------------------------------

  /** Whether the results are numbered 1, 2, ... in display order. */
  predicate Numbered(buffer: seq<ScanResult>) {
    forall k :: 0 <= k < |buffer| ==> buffer[k].number == k + 1
  }

  /** The display invariant: at most `BufferLimit` results, numbered from 1. */
  predicate BufferOk(buffer: seq<ScanResult>) {
    |buffer| <= BufferLimit && Numbered(buffer)
  }

  /** The loop that sets `Number = i + 1` on every displayed result (an
      `int` assignment, so it wraps past 2^31 - 1 entries). */
  function Renumber(buffer: seq<ScanResult>): (r: seq<ScanResult>)
    ensures |r| == |buffer|
    ensures forall k :: 0 <= k < |buffer| ==> r[k] == buffer[k].(number := Wrap32(k + 1))
  {
    seq(|buffer|, k requires 0 <= k < |buffer| => buffer[k].(number := Wrap32(k + 1)))
  }

  /** Renumbering a buffer small enough to display numbers it from 1 and
      keeps everything else of every result. */
  lemma RenumberNumbers(buffer: seq<ScanResult>)
    requires |buffer| <= BufferLimit
    ensures Numbered(Renumber(buffer))
    ensures forall k :: 0 <= k < |buffer| ==> Renumber(buffer)[k].(number := 0) == buffer[k].(number := 0)
  {
  }

  /** The buffer once `result` is added: numbered one past the current
      count and appended; past `BufferLimit` entries the oldest is dropped
      and the rest renumbered. */
  function AddToBuffer(buffer: seq<ScanResult>, result: ScanResult): (r: seq<ScanResult>) {
    var appended := buffer + [result.(number := Wrap32(|buffer| + 1))];
    if |appended| > BufferLimit then Renumber(appended[1..]) else appended
  }

  /** Adding keeps the display invariant, and the buffer holds the most
      recent results, oldest first, each unchanged but for its number: the
      new result is last and numbered with the buffer's length. */
  lemma AddToBufferKeepsInvariant(buffer: seq<ScanResult>, result: ScanResult)
    requires BufferOk(buffer)
    ensures var r := AddToBuffer(buffer, result);
            var drop := if |buffer| == BufferLimit then 1 else 0;
            && BufferOk(r)
            && |r| == |buffer| + 1 - drop
            && r[|r| - 1] == result.(number := |r|)
            && forall k :: 0 <= k < |r| - 1 ==> r[k] == buffer[k + drop].(number := k + 1)
  {
    var appended := buffer + [result.(number := Wrap32(|buffer| + 1))];
    if |appended| > BufferLimit {
      RenumberNumbers(appended[1..]);
    }
  }

  /** `ClearOldResults`: with more than `ClearKeep` results, keep the last
      `ClearKeep` and renumber them; otherwise change nothing. */
  function ClearOldResults(buffer: seq<ScanResult>): (r: seq<ScanResult>) {
    if |buffer| > ClearKeep then Renumber(buffer[|buffer| - ClearKeep..]) else buffer
  }

  /** Clearing keeps the display invariant and leaves the last `ClearKeep`
      results in order, each unchanged but for its number; a second clear
      changes nothing. */
  lemma ClearOldResultsKeepsLast(buffer: seq<ScanResult>)
    requires BufferOk(buffer)
    ensures var r := ClearOldResults(buffer);
            var drop := |buffer| - |r|;
            && BufferOk(r)
            && |r| == (if |buffer| > ClearKeep then ClearKeep else |buffer|)
            && (forall k :: 0 <= k < |r| ==> r[k] == buffer[drop + k].(number := k + 1))
            && ClearOldResults(r) == r
  {
    if |buffer| > ClearKeep {
      RenumberNumbers(buffer[|buffer| - ClearKeep..]);
    }
  }

  // ---------------------------------------------------------------------
  // The white list
  // ---------------------------------------------------------------------

  predicate NoDuplicates(xs: seq<string>) {
    forall i, j :: 0 <= i < j < |xs| ==> xs[i] != xs[j]
  }

  /** `Distinct()`: each address once, in order of first occurrence. */
  function Distinct(xs: seq<string>): (ys: seq<string>)
    ensures forall y :: y in ys <==> y in xs
    ensures NoDuplicates(ys)
    ensures |ys| <= |xs|
  {
    if |xs| == 0 then []
    else
      var front := Distinct(xs[..|xs| - 1]);
      var last := xs[|xs| - 1];
      assert forall y :: y in xs <==> y in xs[..|xs| - 1] || y == last by {
        assert xs == xs[..|xs| - 1] + [last];
      }
      if last in front then front else front + [last]
  }

  /** An address seen before leaves the saved content as it was. */
  lemma DistinctRepeat(xs: seq<string>, x: string)
    requires x in xs
    ensures Distinct(xs + [x]) == Distinct(xs)
  {
    assert (xs + [x])[..|xs|] == xs;
  }

  /** A new address is appended to the saved content. */
  lemma DistinctNew(xs: seq<string>, x: string)
    requires x !in xs
    ensures Distinct(xs + [x]) == Distinct(xs) + [x]
  {
    assert (xs + [x])[..|xs|] == xs;
  }

  /** A list without duplicates is its own `Distinct`. */
  lemma {:induction false} DistinctOfDistinctFree(xs: seq<string>)
    requires NoDuplicates(xs)
    ensures Distinct(xs) == xs
  {
    if |xs| > 0 {
      var front := xs[..|xs| - 1];
      assert NoDuplicates(front);
      DistinctOfDistinctFree(front);
      assert xs[|xs| - 1] !in front;
      assert front + [xs[|xs| - 1]] == xs;
    }
  }

  /** Deduplicating twice is deduplicating once. */
  lemma DistinctIdempotent(xs: seq<string>)
    ensures Distinct(Distinct(xs)) == Distinct(xs)
  {
    DistinctOfDistinctFree(Distinct(xs));
  }

  /** `SaveWhiteList`: write the distinct successful addresses. */
  function SaveWhiteList(vm: ViewModel): (r: ViewModel)
    ensures r.(whiteListWrites := vm.whiteListWrites) == vm
    ensures |r.whiteListWrites| == |vm.whiteListWrites| + 1
    ensures r.whiteListWrites[..|vm.whiteListWrites|] == vm.whiteListWrites
    ensures var saved := r.whiteListWrites[|vm.whiteListWrites|];
            NoDuplicates(saved) && forall ip :: ip in saved <==> ip in vm.successfulIPs
  {
    vm.(whiteListWrites := vm.whiteListWrites + [Distinct(vm.successfulIPs)])
  }

  /** Saving again with no new success writes the same lines, and a save
      writes exactly the list's distinct addresses in first-success order. */
  lemma SaveAgainWritesSame(vm: ViewModel)
    ensures var once := SaveWhiteList(vm);
            var twice := SaveWhiteList(once);
            && twice.whiteListWrites[|once.whiteListWrites|] == once.whiteListWrites[|vm.whiteListWrites|]
            && Distinct(once.whiteListWrites[|vm.whiteListWrites|]) == once.whiteListWrites[|vm.whiteListWrites|]
  {
    DistinctIdempotent(vm.successfulIPs);
  }

  // ---------------------------------------------------------------------
  // Event handlers
  // ---------------------------------------------------------------------

  /** `OnScanResultReceived`: display the result, then count it as a
      success (remembering its address and saving at every tenth success)
      or as a failure, and count it in the total. */
  function OnScanResultReceived(vm: ViewModel, result: ScanResult): (r: ViewModel) {
    var shown := vm.(scanResults := AddToBuffer(vm.scanResults, result), totalScans := vm.totalScans + 1);
    if result.status == Success then
      var counted := shown.(successfulScans := vm.successfulScans + 1,
                            successfulIPs := vm.successfulIPs + [result.ipAddress]);
      if counted.successfulScans % SaveInterval == 0 then SaveWhiteList(counted) else counted
    else shown.(failedScans := vm.failedScans + 1)
  }

  /** The counters agree with each other and with the success list. */
  predicate CountersAgree(vm: ViewModel) {
    && vm.totalScans == vm.successfulScans + vm.failedScans
    && vm.successfulScans == |vm.successfulIPs|
  }

  /** A received result is counted once, as a success exactly when its
      status is Success, and the white list is saved exactly when the
      success count reaches a multiple of ten, with the distinct successful
      addresses. */
  lemma ResultReceivedCounts(vm: ViewModel, result: ScanResult)
    requires CountersAgree(vm)
    ensures var r := OnScanResultReceived(vm, result);
            var saved := |r.whiteListWrites| > |vm.whiteListWrites|;
            && CountersAgree(r)
            && r.totalScans == vm.totalScans + 1
            && (result.status == Success <==> r.successfulScans == vm.successfulScans + 1)
            && (result.status == Success <==> r.failedScans == vm.failedScans)
            && (result.status == Success ==> r.successfulIPs == vm.successfulIPs + [result.ipAddress])
            && (result.status != Success ==> r.successfulIPs == vm.successfulIPs)
            && (saved <==> result.status == Success && (vm.successfulScans + 1) % SaveInterval == 0)
            && |r.whiteListWrites| <= |vm.whiteListWrites| + 1
            && r.whiteListWrites[..|vm.whiteListWrites|] == vm.whiteListWrites
            && (saved ==> r.whiteListWrites[|vm.whiteListWrites|] == Distinct(r.successfulIPs))
            && r.isScanning == vm.isScanning
  {
  }

  /** A received result keeps the display invariant; it is shown last. */
  lemma ResultReceivedShowsResult(vm: ViewModel, result: ScanResult)
    requires BufferOk(vm.scanResults)
    ensures var buffer := OnScanResultReceived(vm, result).scanResults;
            BufferOk(buffer) && buffer[|buffer| - 1] == result.(number := |buffer|)
  {
    AddToBufferKeepsInvariant(vm.scanResults, result);
  }

  /** `OnScanStatusChanged`: the end of a scan clears the flag and saves
      the white list if anything succeeded; the start changes nothing. */
  function OnScanStatusChanged(vm: ViewModel, isScanning: bool): (r: ViewModel) {
    if isScanning then vm
    else
      var stopped := vm.(isScanning := false);
      if |vm.successfulIPs| > 0 then SaveWhiteList(stopped) else stopped
  }

  /** The end of a scan always clears the flag, saves once exactly when
      something succeeded, and touches nothing else. */
  lemma StatusChangedSaves(vm: ViewModel)
    ensures var r := OnScanStatusChanged(vm, false);
            && !r.isScanning
            && (|r.whiteListWrites| == |vm.whiteListWrites| + 1 <==> |vm.successfulIPs| > 0)
            && (|r.whiteListWrites| == |vm.whiteListWrites| <==> |vm.successfulIPs| == 0)
            && r.(isScanning := vm.isScanning, whiteListWrites := vm.whiteListWrites) == vm
  {
  }

  /** One scanner event, as the subscribed handlers treat it; progress only
      updates the percentage and the status message, neither modelled. */
  function Handle(vm: ViewModel, event: ScanEvent): ViewModel {
    match event
    case ResultReceived(result) => OnScanResultReceived(vm, result)
    case ProgressChanged(_) => vm
    case StatusChanged(isScanning) => OnScanStatusChanged(vm, isScanning)
  }

  /** A stream of scanner events, handled in order. */
  function Deliver(vm: ViewModel, events: seq<ScanEvent>): ViewModel
    decreases |events|
  {
    if |events| == 0 then vm else Deliver(Handle(vm, events[0]), events[1..])
  }

  lemma {:induction false} DeliverAppend(vm: ViewModel, a: seq<ScanEvent>, b: seq<ScanEvent>)
    ensures Deliver(vm, a + b) == Deliver(Deliver(vm, a), b)
    decreases |a|
  {
    if |a| == 0 {
      assert a + b == b;
    } else {
      assert (a + b)[0] == a[0];
      assert (a + b)[1..] == a[1..] + b;
      DeliverAppend(Handle(vm, a[0]), a[1..], b);
    }
  }

  /** The number of result events in a stream. */
  function ResultCount(events: seq<ScanEvent>): (n: nat)
    ensures n <= |events|
  {
    if |events| == 0 then 0 else (if events[0].ResultReceived? then 1 else 0) + ResultCount(events[1..])
  }

  /** Handling events keeps the display invariant and the counters in
      agreement, and counts every result event once. */
  lemma {:induction false} DeliverKeepsInvariants(vm: ViewModel, events: seq<ScanEvent>)
    requires BufferOk(vm.scanResults) && CountersAgree(vm)
    ensures var r := Deliver(vm, events);
            && BufferOk(r.scanResults) && CountersAgree(r)
            && r.totalScans == vm.totalScans + ResultCount(events)
    decreases |events|
  {
    if |events| > 0 {
      var next := Handle(vm, events[0]);
      if events[0].ResultReceived? {
        ResultReceivedCounts(vm, events[0].result);
        ResultReceivedShowsResult(vm, events[0].result);
      }
      DeliverKeepsInvariants(next, events[1..]);
    }
  }

  /** Between the start and the end of a scan the white list is saved once
      per multiple of ten successes passed, and the scanning flag stays. */
  lemma {:induction false} DeliverSavesEveryTenth(vm: ViewModel, events: seq<ScanEvent>)
    requires CountersAgree(vm) && vm.successfulScans >= 0
    requires NoStatusEvents(events)
    ensures var r := Deliver(vm, events);
            && r.successfulScans >= vm.successfulScans
            && |r.whiteListWrites| == |vm.whiteListWrites| + r.successfulScans / SaveInterval - vm.successfulScans / SaveInterval
            && r.isScanning == vm.isScanning
    decreases |events|
  {
    if |events| > 0 {
      var next := Handle(vm, events[0]);
      if events[0].ResultReceived? {
        ResultReceivedCounts(vm, events[0].result);
        if events[0].result.status == Success {
          assert next.successfulScans == vm.successfulScans + 1;
          if next.successfulScans % SaveInterval == 0 {
            assert next.successfulScans / SaveInterval == vm.successfulScans / SaveInterval + 1;
          } else {
            assert next.successfulScans / SaveInterval == vm.successfulScans / SaveInterval;
          }
        }
      }
      assert NoStatusEvents(events[1..]);
      DeliverSavesEveryTenth(next, events[1..]);
    }
  }

  // ---------------------------------------------------------------------
  // Commands
  // ---------------------------------------------------------------------

  /** The view model and the scanner after a command. */
  datatype Session = Session(vm: ViewModel, engine: EngineState)

  /** `Math.Min(loaded, Configuration.Scans)`: the count the view shows. */
  function ScanCount(loaded: nat, scans: Int32): (n: int)
    ensures n <= loaded && n <= scans
    ensures n == loaded || n == scans
  {
    if loaded <= scans then loaded else scans
  }

  /** The view model once `StartScanAsync` has cleared the results and
      counters, marked itself scanning and counted the loaded addresses. */
  function Cleared(vm: ViewModel, loadedIPCount: int): (r: ViewModel)
    ensures r.isScanning && r.scanResults == [] && r.successfulIPs == []
    ensures r.totalScans == 0 && r.successfulScans == 0 && r.failedScans == 0
    ensures r.loadedIPCount == loadedIPCount && r.whiteListWrites == vm.whiteListWrites
  {
    ViewModel(true, [], [], 0, 0, 0, loadedIPCount, vm.whiteListWrites)
  }

  /** `StartScanAsync` of the view model once the list `ips` is loaded:
      clear everything, count the addresses to show, and with a non-zero
      count run the scanner with the handlers subscribed. With a zero count
      the scanner is never called and the view stops scanning. */
  function StartScanWith(vm: ViewModel, engine: EngineState, ips: seq<string>, scans: Int32,
                         probe: ProbeFn, t: Token): (session: Session)
    ensures ScanCount(|ips|, scans) == 0 ==>
              && session.engine == engine
              && session.vm == Cleared(vm, 0).(isScanning := false)
  {
    var count := ScanCount(|ips|, scans);
    var cleared := Cleared(vm, count);
    if count == 0 then Session(cleared.(isScanning := false), engine)
    else
      var outcome := RunScan(engine, ips, probe, t);
      Session(Deliver(cleared, outcome.events), outcome.state)
  }

  /** `StartScanAsync` of the view model. The view and the scanner each
      load the list from the same file system, so they see the same list. */
  function StartScan(vm: ViewModel, engine: EngineState, config: ScanConfiguration, env: HostEnv,
                     net: Network, t: Token): (session: Session)
    ensures ScanCount(|LoadIPList(config.iplistPath, env)|, config.scans) == 0 ==>
              && session.engine == engine
              && session.vm == Cleared(vm, 0).(isScanning := false)
  {
    StartScanWith(vm, engine, LoadIPList(config.iplistPath, env), config.scans, ProbeWith(config, net), t)
  }

  /** A scan the scanner runs leaves the view model idle with a valid
      display, counters that agree with each other and with the number of
      results received, and one white-list save per ten successes plus a
      final one when anything succeeded. */
  lemma StartScanWithSession(vm: ViewModel, engine: EngineState, ips: seq<string>, scans: Int32,
                             probe: ProbeFn, t: Token)
    requires !engine.isScanning && ScanCount(|ips|, scans) != 0
    ensures var session := StartScanWith(vm, engine, ips, scans, probe, t);
            var r := session.vm;
            var outcome := RunScan(engine, ips, probe, t);
            && session.engine == outcome.state
            && !r.isScanning && !session.engine.isScanning
            && BufferOk(r.scanResults) && CountersAgree(r)
            && r.totalScans == ResultCount(outcome.events)
            && |r.whiteListWrites| == |vm.whiteListWrites| + r.successfulScans / SaveInterval
                                      + (if r.successfulScans > 0 then 1 else 0)
  {
    DeliverWholeScan(Cleared(vm, ScanCount(|ips|, scans)), RunScan(engine, ips, probe, t).events);
  }

  /** `StartScanWithSession` for the scanner's own list and probe. */
  lemma StartScanSession(vm: ViewModel, engine: EngineState, config: ScanConfiguration, env: HostEnv,
                         net: Network, t: Token)
    requires !engine.isScanning
    requires ScanCount(|LoadIPList(config.iplistPath, env)|, config.scans) != 0
    ensures var session := StartScan(vm, engine, config, env, net, t);
            var r := session.vm;
            var outcome := ScanEngine.StartScan(engine, config, env, net, t);
            && session.engine == outcome.state
            && !r.isScanning && !session.engine.isScanning
            && BufferOk(r.scanResults) && CountersAgree(r)
            && r.totalScans == ResultCount(outcome.events)
            && |r.whiteListWrites| == |vm.whiteListWrites| + r.successfulScans / SaveInterval
                                      + (if r.successfulScans > 0 then 1 else 0)
  {
    StartScanWithSession(vm, engine, LoadIPList(config.iplistPath, env), config.scans, ProbeWith(config, net), t);
  }

  /** Handling the events of a scan, from its start to its end, as they
      reach a freshly cleared view model. */
  lemma DeliverWholeScan(vm: ViewModel, events: seq<ScanEvent>)
    requires |events| >= 2 && events[0] == StatusChanged(true) && events[|events| - 1] == StatusChanged(false)
    requires NoStatusEvents(events[1..|events| - 1])
    requires BufferOk(vm.scanResults) && CountersAgree(vm) && vm.successfulScans == 0
    ensures var r := Deliver(vm, events);
            && !r.isScanning && BufferOk(r.scanResults) && CountersAgree(r)
            && r.totalScans == vm.totalScans + ResultCount(events)
            && |r.whiteListWrites| == |vm.whiteListWrites| + r.successfulScans / SaveInterval
                                      + (if r.successfulScans > 0 then 1 else 0)
  {
    var middle := events[1..|events| - 1];
    assert events == [events[0]] + middle + [events[|events| - 1]];
    DeliverAppend(vm, [events[0]] + middle, [events[|events| - 1]]);
    DeliverAppend(vm, [events[0]], middle);
    assert Deliver(vm, [events[0]]) == vm;
    DeliverKeepsInvariants(vm, events);
    DeliverKeepsInvariants(vm, [events[0]] + middle);
    DeliverSavesEveryTenth(vm, middle);
  }

  /** The view stays in the scanning state when the scanner was already
      scanning: the scanner refuses without raising the event that would
      clear the flag. */
  lemma StartScanWhileScannerBusy(vm: ViewModel, engine: EngineState, config: ScanConfiguration, env: HostEnv,
                                  net: Network, t: Token)
    requires engine.isScanning
    requires ScanCount(|LoadIPList(config.iplistPath, env)|, config.scans) != 0
    ensures var session := StartScan(vm, engine, config, env, net, t);
            session.vm.isScanning && session.engine == engine && !CanStartScan(session.vm)
  {
  }

  /** The `Scans` setting only limits the count the view shows: without
      cancellation the scanner probes every address of the list. */
  lemma ScansCapNotAppliedWith(vm: ViewModel, engine: EngineState, ips: seq<string>, scans: Int32, probe: ProbeFn)
    requires !engine.isScanning && KeepsNever(probe)
    requires 0 < scans < |ips|
    ensures var session := StartScanWith(vm, engine, ips, scans, probe, Never);
            && session.vm.loadedIPCount == scans
            && session.engine.completedScans == |ips| > scans
  {
    RunScanWithoutCancellation(engine, ips, probe);
    DeliverKeepsLoadedCount(Cleared(vm, scans), RunScan(engine, ips, probe, Never).events);
  }

  /** `ScansCapNotAppliedWith` for the scanner's own list and probe. */
  lemma ScansCapNotApplied(vm: ViewModel, engine: EngineState, config: ScanConfiguration, env: HostEnv, net: Network)
    requires !engine.isScanning
    requires 0 < config.scans < |LoadIPList(config.iplistPath, env)|
    ensures var session := StartScan(vm, engine, config, env, net, Never);
            && session.vm.loadedIPCount == config.scans
            && session.engine.completedScans == |LoadIPList(config.iplistPath, env)| > config.scans
  {
    ProbeWithKeepsNever(config, net);
    ScansCapNotAppliedWith(vm, engine, LoadIPList(config.iplistPath, env), config.scans, ProbeWith(config, net));
  }

  /** No handler touches the loaded count. */
  lemma {:induction false} DeliverKeepsLoadedCount(vm: ViewModel, events: seq<ScanEvent>)
    ensures Deliver(vm, events).loadedIPCount == vm.loadedIPCount
    decreases |events|
  {
    if |events| > 0 {
      DeliverKeepsLoadedCount(Handle(vm, events[0]), events[1..]);
    }
  }

  /** `StopScanAsync` of the view model: cancel, stop the scanner and leave
      the scanning state. The handlers stay subscribed while a start is
      awaiting the scanner (`subscribed`); then the scanner's
      `StatusChanged(false)` reaches `OnScanStatusChanged`, which saves the
      white list when anything succeeded, before the flag is cleared. */
  function StopScan(vm: ViewModel, engine: EngineState, subscribed: bool): (session: Session)
    ensures !session.engine.isScanning && !session.vm.isScanning
    ensures |session.vm.whiteListWrites|
              == |vm.whiteListWrites| + (if subscribed && |vm.successfulIPs| > 0 then 1 else 0)
    ensures session.vm.whiteListWrites[..|vm.whiteListWrites|] == vm.whiteListWrites
    ensures subscribed && |vm.successfulIPs| > 0 ==>
              session.vm.whiteListWrites[|vm.whiteListWrites|] == Distinct(vm.successfulIPs)
  {
    var stop := ScanEngine.StopScan(engine);
    var notified := if subscribed then Deliver(vm, stop.2) else vm;
    Session(notified.(isScanning := false), stop.0)
  }

  /** After a stop a new scan can be started, and nothing displayed or
      counted is lost: the stop changes only the flag and, through the
      delivered event, the saves. */
  lemma StopEnablesStart(vm: ViewModel, engine: EngineState, subscribed: bool)
    ensures var session := StopScan(vm, engine, subscribed);
            && CanStartScan(session.vm) && !CanStopScan(session.vm)
            && session.vm.(isScanning := vm.isScanning, whiteListWrites := vm.whiteListWrites) == vm
  {
  }

  /** A stop during a running start saves the white list twice when
      anything succeeded: once for the stop's own `StatusChanged(false)`
      and once more for the one the scan raises as it finishes, both with
      the same distinct addresses. */
  lemma StopDuringScanSavesTwice(vm: ViewModel, engine: EngineState)
    requires |vm.successfulIPs| > 0
    ensures var stopped := StopScan(vm, engine, true).vm;
            var finished := Deliver(stopped, [StatusChanged(false)]);
            && |finished.whiteListWrites| == |vm.whiteListWrites| + 2
            && finished.whiteListWrites[|vm.whiteListWrites|] == Distinct(vm.successfulIPs)
            && finished.whiteListWrites[|vm.whiteListWrites| + 1] == Distinct(vm.successfulIPs)
  {
    var stopped := StopScan(vm, engine, true).vm;
    assert Deliver(stopped, [StatusChanged(false)]) == OnScanStatusChanged(stopped, false);
  }
}
