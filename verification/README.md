# WhiteScan scanning core in Dafny

WhiteScan is a desktop scanner. It reads a list of candidate addresses from `ipv4.txt` and probes each one over the network. Optionally it pings the address first, then it sends an HTTP GET to each configured port until one answers. Every outcome is reported to a view model. The view model shows the most recent results, counts successes and failures, and keeps a "white list" file of the addresses that answered.

This project models that core as pure functions over immutable values:

- **Candidate ingestion** (`CandidateSource`): the seven candidate paths, the choice of the first one that exists, and the line filter of `LoadIPListAsync`/`IsValidIP`. The file system is a map from path to lines.
- **Per-candidate probe** (`Prober`): the ping gate of `ScanSingleIPAsync`/`PingHostAsync`, the port loop, and the sequence of result snapshots it reports. The ping reply and the HTTP outcome of each request are parameters.
- **Scan loop** (`ScanEngine`): `StartScanAsync`'s running flag, counters, status events, the progress report every fifth candidate, and the cancellation points. `StopScanAsync` is modelled too. Cancellation is a `Token` that fires after a given number of check points.
- **View model** (`ViewModels`): the 100-entry display buffer with dense renumbering, `ClearOldResults`, the counters, the white-list saves (each save recorded as the lines it writes), and the start and stop commands.
- **Configuration** (`ScanConfigurations`, `ConfigurationService`): the settings record, its alias properties and the `MaxlatencyInt` narrowing, the validator, the defaults, and the repair step of `FixConfigurationAsync`. `File.Exists` and `Environment.ProcessorCount` are parameters.
- **Converters and result helpers** (`IntListConverter`, `BoolToTextConverter`, `ScanResults`): the list-to-text converter and its round trip, the `|`-separated caption converter, and `StatusText`, `EndpointAddress`, `SetField` and the defaults of a new result.
- **Supporting modules**:
  - `Text`: `string.Trim`, `Split` with `RemoveEmptyEntries`, `string.Join` and `LastIndexOf`.
  - `Decimal`: 32-bit wrap-around, `int.ToString` and `int.TryParse` with the invariant culture.
  - `Host`: the file-system map and `Path.Combine`.
  - `Cancellation`, `Values` (boxed converter arguments) and `Wrappers` (`Option`).

Points worth noting about the code:

- `_successfulScans` goes up after every probe that returns normally, not only after a Success. So the engine's successful count always equals its completed count.
- `HttpClient.GetAsync` receives the scan's cancellation token. A cancellation that lands during a request therefore surfaces as a `TaskCanceledException`, and the port is reported as Timeout "Request timeout" before the loop stops.
- A cancellation seen at the loop's top check ends the loop normally, and `StartScanAsync` returns true. A cancellation that interrupts the 50 ms delay escapes the loop, and the method returns false. Either way `_isScanning` is cleared and `StatusChanged(false)` is raised.
- The configured `Scans` limit is applied only to the count the view model shows. The scanner probes every loaded address.
- `MaxPing + 1` is unchecked `int` arithmetic. With `MaxPing == int.MaxValue`, a failed ping reports `int.MinValue` ms and is not gated.

## Model

| member | source | states |
|---|---|---|
| CandidateSource.CandidatePaths | Services/NetworkScannerService.cs:140-149 | exactly seven candidates; the configured path comes first and the bare file name sixth |
| CandidateSource.InDirectory | Services/NetworkScannerService.cs:143 | a list-file candidate built with `Path.Combine` always ends with `ipv4.txt` |
| CandidateSource.FirstExisting | Services/NetworkScannerService.cs:151-160 | the chosen candidate exists and no earlier candidate does; the result is the list's length when none exists |
| CandidateSource.KeepIffDotOrColon | Services/NetworkScannerService.cs:173-176 | dropping blank lines, trimming and `IsValidIP` together keep a line exactly when it contains '.' or ':' |
| CandidateSource.ValidLinesSingle | Services/NetworkScannerService.cs:173-176 | one line yields its trimmed text if it contains '.' or ':', and nothing otherwise |
| CandidateSource.ValidLinesAppend | Services/NetworkScannerService.cs:173-176 | the filter works line by line, so the file's order is kept |
| CandidateSource.ValidLinesAreAddresses | Services/NetworkScannerService.cs:173-176 | every loaded address passes `IsValidIP` and is already trimmed |
| CandidateSource.ValidLinesMembership | Services/NetworkScannerService.cs:173-176 | an address is loaded if and only if some line that survives the filter trims to it |
| CandidateSource.LoadReadsFirstExisting | Services/NetworkScannerService.cs:151-172 | the file read is the first existing candidate, whatever later candidates hold; an unreadable file gives an empty list |
| CandidateSource.LoadIPList | Services/NetworkScannerService.cs:134-189 | no existing candidate gives an empty list; every address is valid and trimmed; a readable configured path is the one used |
| Prober.PingTime | Services/NetworkScannerService.cs:276-297 | a reply reports its round trip; a missing reply reports `MaxPing + 1` modulo 2^32 |
| Prober.PingGateRule | Services/NetworkScannerService.cs:211-222 | a reply is gated exactly when slower than `MaxPing` (equal passes); a missing reply is gated unless `MaxPing` is `int.MaxValue` |
| Prober.InitialPort | Services/NetworkScannerService.cs:203 | the first result's port is 80 for a null list, 0 for an empty one, otherwise the first configured port |
| Prober.EffectivePorts | Services/NetworkScannerService.cs:226 | the ports tried are the configured ones when there are any, otherwise 80 and 443 |
| Prober.UrlLeavesIPv6Unbracketed | Services/NetworkScannerService.cs:235 | the request URL never brackets an address: no '[' appears unless the address or path supplies one, against section 3.2.2 of RFC 3986 |
| Prober.UrlHostIsAddressIff | Services/NetworkScannerService.cs:235 | a reader of the URL takes as host the text up to the first ':', and that is the probed address exactly when the address has no ':'; so every IPv6 address gives a URL naming some other host (`http://::1:80/` names an empty one) |
| Prober.RequestUrls | Services/NetworkScannerService.cs:227-238 | one URL per port, in port order |
| Prober.Outcome | Services/NetworkScannerService.cs:238-264 | a response gives Success with its latency and keeps the earlier error text; a transport error gives Failed with its message; a cancelled request gives Timeout "Request timeout"; nothing else changes |
| Prober.PortLoop | Services/NetworkScannerService.cs:227-265 | reports at most one result per port; the ports requested are a prefix of the list, in order; report `k` names port `k` and keeps the address, ping time and download speed; a token that never fires stays so. What each report holds is stated by the lemmas below |
| Prober.PortLoopSuccessIsLast | Services/NetworkScannerService.cs:241-245 | the first success ends the loop: only the last report can be a Success |
| Prober.PortLoopStatuses | Services/NetworkScannerService.cs:241-264 | every report of the port loop is a Success, a Failed or a Timeout |
| Prober.PortLoopSuccessKeepsMessage | Services/NetworkScannerService.cs:241-242 | a Success report carries the error message of the report before it (or of the initial result), since the code never clears it |
| Prober.PortLoopRunsToEnd | Services/NetworkScannerService.cs:227-265 | without cancellation, a loop with no success reports once for every port |
| Prober.PortLoopFollowsOutcomes | Services/NetworkScannerService.cs:227-265 | without cancellation, report `k` is what request `k` gave, applied at port `k` to the report before it: Success with its latency for a response, Failed with the message for a transport error, Timeout "Request timeout" for a cancelled request |
| Prober.PortLoopEndsAtFirstResponse | Services/NetworkScannerService.cs:227-265 | without cancellation the loop ends at the first request that got a response, or after the last port when none did |
| Prober.PortLoopStopsWhenCancelled | Services/NetworkScannerService.cs:227-238 | a token already signalled gives no report and no request; each port passes two check points (the loop's top and the request), so a token firing after `n` of them allows at most `(n + 1) / 2` reports |
| Prober.PortLoopFollowsUntilCancelled | Services/NetworkScannerService.cs:227-265 | under any token every report but the last is what its request gave, and the last is that or the Timeout "Request timeout" of a request the token cancelled |
| Prober.StartResult | Services/NetworkScannerService.cs:199-214 | the initial snapshot: the address, the start time, status Scanning, the initial port, and the ping time only when pinging |
| Prober.Probe | Services/NetworkScannerService.cs:197-274 | a gated ping gives exactly one Timeout "Ping timeout" report and no request; otherwise the port loop over the effective ports reports as above |
| Prober.NoResponseTriesEveryPort | Services/NetworkScannerService.cs:226-265 | when nothing answers and nothing cancels, every effective port is requested and reported |
| Prober.ProbeSuccessIsLast | Services/NetworkScannerService.cs:216-265 | every report of a probe is Success, Failed or Timeout, and only the last can be a Success |
| Prober.ProbeReportsAboutAddress | Services/NetworkScannerService.cs:200-206 | every report of a probe names the probed address and has no download speed |
| Prober.ProbeFollowsOutcomes | Services/NetworkScannerService.cs:197-265 | past the ping gate and without cancellation, report `k` is what the request to the `k`-th port to try gave, starting from the initial snapshot |
| Prober.ProbeEndsAtFirstResponse | Services/NetworkScannerService.cs:197-265 | past the ping gate and without cancellation, the probe stops at the first request that got a response, or after the last port to try |
| Prober.ProbeStopsWhenCancelled | Services/NetworkScannerService.cs:197-265 | past the ping gate, a token signalled at the start stops the probe before any request; under any token every report but the last is what its request gave, and the last is that or a cancelled request |
| ScanEngine.NewEngine | Services/NetworkScannerService.cs:42-55 | a new scanner is idle with all counters at zero |
| ScanEngine.ReceivedCarriesResults | Services/NetworkScannerService.cs:299-302 | each reported snapshot becomes one result event, in order |
| ScanEngine.ReportProgress | Services/NetworkScannerService.cs:309-327 | the progress counter goes up by one, and an event is raised exactly when it reaches a multiple of five |
| ScanEngine.VisitCandidate | Services/NetworkScannerService.cs:81-99 | one candidate adds one to completed, successful and the progress counter, and passes the probe's token on |
| ScanEngine.ScanLoop | Services/NetworkScannerService.cs:76-104 | the loop never changes the flag or the total; completed grows by at most the candidates left; successful and the progress counter move in lockstep with completed |
| ScanEngine.ScanLoopStopsOnlyWhenCancelled | Services/NetworkScannerService.cs:76-104 | a loop that ends early or through the delay's exception has seen its token cancelled |
| ScanEngine.ScanLoopWithoutCancellation | Services/NetworkScannerService.cs:76-104 | with a token that never fires, the loop probes every remaining candidate and finishes normally |
| ScanEngine.ScanLoopRaisesNoStatus | Services/NetworkScannerService.cs:76-104 | the loop raises no status event |
| ScanEngine.FifthReportsEveryFifth | Services/NetworkScannerService.cs:313-324 | the reports due after `n` candidates number `n / 5`, the j-th naming candidate `5(j+1)` with that many completed and successful |
| ScanEngine.VisitProgress | Services/NetworkScannerService.cs:97-99 | a candidate adds exactly the report due for its position, if any |
| ScanEngine.ScanLoopProgress | Services/NetworkScannerService.cs:76-104 | the loop's progress events are exactly the reports due between its first and last completed count |
| ScanEngine.ScanLoopEveryFifth | Services/NetworkScannerService.cs:76-104 | over a whole list, one progress event per five completed candidates, each for the right candidate and counts |
| ScanEngine.ResultsOfReceived | Services/NetworkScannerService.cs:299-302 | the result filter recovers the reported snapshots exactly |
| ScanEngine.AllAboutIff | Services/NetworkScannerService.cs:76-83 | the recursive "all about the list" predicate is its quantified form |
| ScanEngine.VisitResults | Services/NetworkScannerService.cs:81-99 | the results a candidate raises are exactly its probe's reports |
| ScanEngine.ScanLoopResultsAboutCandidates | Services/NetworkScannerService.cs:76-104 | every result the loop raises is about a candidate of the list |
| ScanEngine.RunScan | Services/NetworkScannerService.cs:42-124 | a busy scanner refuses with no effect; otherwise the scan is framed by `StatusChanged(true)` and `StatusChanged(false)` with none between, ends idle, has the list's length as total, counts successful equal to completed, and completes at most the whole list; an empty list returns false |
| ScanEngine.StartScan | Services/NetworkScannerService.cs:42-72 | a busy scanner refuses with no effect; otherwise the total is the number of loaded addresses, not the configured `Scans` |
| ScanEngine.RunScanWithoutCancellation | Services/NetworkScannerService.cs:66-107 | with a token that never fires, a scan returns true exactly for a non-empty list and completes every candidate |
| ScanEngine.ScanWithoutCancellation | Services/NetworkScannerService.cs:65-107 | the same, for the loaded list and the real probe |
| ScanEngine.ScanStopsOnlyWhenCancelled | Services/NetworkScannerService.cs:76-113 | a scan of a non-empty list that returns false or skips candidates was cancelled |
| ScanEngine.ScanProgressEveryFifth | Services/NetworkScannerService.cs:309-327 | a scan's progress events number completed / 5, the j-th for candidate `5(j+1)` of the list |
| ScanEngine.RunScanResultsAboutCandidates | Services/NetworkScannerService.cs:76-104 | every result a scan raises names an address of its list, for any probe that reports only about its own address |
| ScanEngine.ScanResultsAboutCandidates | Services/NetworkScannerService.cs:65-104 | every result a scan raises names a loaded address |
| ScanEngine.ScanLoopResultsInOrder | Services/NetworkScannerService.cs:76-104 | without cancellation the loop raises the reports of every remaining candidate, candidate by candidate in list order, each exactly as its probe made them |
| ScanEngine.AfterVisitResultsInOrder | Services/NetworkScannerService.cs:76-104 | the same, from just after a candidate's visit: its results, then those of every later candidate in order |
| ScanEngine.RunScanResultsInOrder | Services/NetworkScannerService.cs:65-107 | without cancellation a scan raises exactly the reports of every candidate of its list, in list order, for any probe that leaves such a token as it is |
| ScanEngine.ScanResultsInOrder | Services/NetworkScannerService.cs:65-107 | the same, for the loaded list and the real probe |
| ScanEngine.StopScan | Services/NetworkScannerService.cs:126-132 | a stop cancels the token, clears the flag, raises `StatusChanged(false)` and keeps the counters |
| ScanEngine.StopThenStart | Services/NetworkScannerService.cs:126-132 | after a stop a new scan is accepted and announced, and runs exactly as on a newly constructed scanner |
| ScanResults.NewResult | Models/ScanResult.cs:9-18 | a new result has empty address, speed and message, zero numbers and status Queued |
| ScanResults.StatusText | Models/ScanResult.cs:76-84 | the caption is never empty, and it is "Scanning..." exactly for Scanning |
| ScanResults.StatusTextInjective | Models/ScanResult.cs:76-84 | distinct statuses have distinct captions |
| ScanResults.EndpointAddressSplits | Models/ScanResult.cs:74 | the endpoint text splits at its last ':' into the address and a port that parses back, even for an IPv6 address |
| ScanResults.SetField | Models/ScanResult.cs:99-105 | the field ends holding the value; it changes, and one notification names the property, exactly when the old value differed |
| ScanResults.SetFieldTwice | Models/ScanResult.cs:99-105 | setting the same value twice notifies at most once; the second set changes nothing |
| ScanConfigurations.MaxlatencyInt | Models/ScanConfiguration.cs:44-45 | the narrowing is exact for values that fit in 32 bits and otherwise agrees modulo 2^32 |
| ScanConfigurations.NameCase | Models/ScanConfiguration.cs:10-69 | primary property names start with a capital letter and alias names do not |
| ScanConfigurations.SecondaryMirrorsPrimary | Models/ScanConfiguration.cs:41-69 | every alias property serialises the same value as its primary property, `maxlatency` when the latency fits in 32 bits |
| ScanConfigurations.SecondaryMaxlatencyWraps | Models/ScanConfiguration.cs:44-45 | the `maxlatency` alias writes the same number as `MaxLatency` exactly when the latency fits in 32 bits, and otherwise a different number congruent to it modulo 2^32 |
| ConfigurationService.CheckError | Services/ConfigurationService.cs:106-142 | each check reports the error of its own position; a missing port list is never also reported as out of range |
| ConfigurationService.ErrorsFrom | Services/ConfigurationService.cs:103-144 | the errors of the remaining checks come in check order, one for each failing check and nothing else |
| ConfigurationService.ValidateConfiguration | Services/ConfigurationService.cs:101-145 | no errors exactly when every check passes; errors come in fixed check order, one per failing check |
| ConfigurationService.ValidateReportsEachFailure | Services/ConfigurationService.cs:105-142 | each message is reported if and only if its condition fails, with an empty port list giving only "At least one port must be specified" |
| ConfigurationService.DefaultGoroutinesFor | Services/ConfigurationService.cs:93 | the default worker count is at least one |
| ConfigurationService.DefaultIplistPath | Services/ConfigurationService.cs:96 | the default list path is never blank |
| ConfigurationService.GetDefaultConfiguration | Services/ConfigurationService.cs:84-99 | the defaults have a positive worker count equal to the processor count when that is positive, and a non-blank list path |
| ConfigurationService.DefaultConfigurationPassesChecks | Services/ConfigurationService.cs:84-99 | the defaults pass every check except possibly the list file's existence, and pass all exactly when the file exists |
| ConfigurationService.Repair | Services/ConfigurationService.cs:157-190 | each invalid repairable field is replaced by its default; every other field is kept |
| ConfigurationService.RepairFixesRepairableChecks | Services/ConfigurationService.cs:157-190 | after repair, the hostname, the port list's presence, the numeric fields and the list path's blankness all pass |
| ConfigurationService.FixConfiguration | Services/ConfigurationService.cs:147-196 | a valid configuration is returned unchanged; an invalid one is repaired |
| ConfigurationService.FixLeavesOnlyUnrepairableErrors | Services/ConfigurationService.cs:157-190 | after a fix only "Ports must be between 1 and 65535" and a missing list file can remain |
| ConfigurationService.FixIdempotent | Services/ConfigurationService.cs:147-196 | fixing a fixed configuration changes nothing |
| ConfigurationService.FixKeepsOutOfRangePorts | Services/ConfigurationService.cs:162-165 | out-of-range ports survive a fix and are still reported |
| ConfigurationService.NewConfigurationPassesChecks | Models/ScanConfiguration.cs:10-38 | a record built with its initialisers fails at most the list-file check |
| IntListConverter.Convert | Infrastructure/IntListConverter.cs:8-15 | a non-list value converts to ""; a list converts to "" exactly when it is empty |
| IntListConverter.Tokens | Infrastructure/IntListConverter.cs:22 | the tokens are non-empty and contain no ',', ';' or ' ' |
| IntListConverter.ParseTokens | Infrastructure/IntListConverter.cs:24-30 | no more numbers than tokens, and one per token when every token parses |
| IntListConverter.ParseSingleToken | Infrastructure/IntListConverter.cs:26-29 | a token contributes its parsed value, or nothing when it does not parse |
| IntListConverter.ConvertBack | Infrastructure/IntListConverter.cs:17-36 | a non-string or blank value gives the empty list; a string gives at most one number per token |
| IntListConverter.ParseRenderings | Infrastructure/IntListConverter.cs:24-30 | the decimal renderings of a list parse back to the list |
| IntListConverter.ConvertRoundTrip | Infrastructure/IntListConverter.cs:8-36 | converting a list to text and back gives the list, including the empty list and negative numbers |
| BoolToTextConverter.Convert | Converters/BoolToTextConverter.cs:9-24 | a non-bool gives "Disable"; a bool without a two-part parameter gives "Enable" or "Disable"; with one, the caption is a part |
| BoolToTextConverter.ConvertPicksLabel | Converters/BoolToTextConverter.cs:15-18 | with parameter `off|on`, true gives `on` and false gives `off` (so "|" gives "" for both) |
| BoolToTextConverter.ConvertIgnoresMalformedParameter | Converters/BoolToTextConverter.cs:13-21 | a parameter that does not split into exactly two parts is treated like no parameter |
| ViewModels.NewViewModel | ViewModels/MainViewModel.cs:25-47 | a new view is idle, with nothing shown and nothing saved |
| ViewModels.ExactlyOneCommandEnabled | ViewModels/MainViewModel.cs:141-142 | exactly one of start and stop is enabled |
| ViewModels.Renumber | ViewModels/MainViewModel.cs:278-281 | renumbering keeps every entry and sets the k-th number to k + 1 as a 32-bit int |
| ViewModels.RenumberNumbers | ViewModels/MainViewModel.cs:278-281 | a renumbered buffer is numbered 1..N and otherwise unchanged |
| ViewModels.AddToBufferKeepsInvariant | ViewModels/MainViewModel.cs:270-282 | at most 100 entries numbered 1..N stay so; the oldest is dropped only from a full buffer; the new result is last with the buffer's length as its number |
| ViewModels.ClearOldResultsKeepsLast | ViewModels/MainViewModel.cs:363-379 | with more than 50 entries the last 50 stay in order, renumbered 1..50; otherwise nothing changes; clearing twice is clearing once |
| ViewModels.Distinct | ViewModels/MainViewModel.cs:386 | the distinct list has the same members as the input, none twice |
| ViewModels.DistinctRepeat | ViewModels/MainViewModel.cs:386 | a repeated address adds nothing |
| ViewModels.DistinctNew | ViewModels/MainViewModel.cs:386 | a new address is added at the end, so first-occurrence order is kept |
| ViewModels.DistinctOfDistinctFree | ViewModels/MainViewModel.cs:386 | a list without duplicates is kept as it is |
| ViewModels.DistinctIdempotent | ViewModels/MainViewModel.cs:386 | removing duplicates twice is removing them once |
| ViewModels.SaveWhiteList | ViewModels/MainViewModel.cs:381-398 | a save appends one write holding every successful address exactly once and nothing else; nothing else changes |
| ViewModels.SaveAgainWritesSame | ViewModels/MainViewModel.cs:381-388 | a second save with no new success writes the same lines |
| ViewModels.ResultReceivedCounts | ViewModels/MainViewModel.cs:284-297 | total goes up by one; success or failure goes up exactly as the status is Success or not; total stays success plus failed; a save happens exactly at a multiple of ten successes |
| ViewModels.ResultReceivedShowsResult | ViewModels/MainViewModel.cs:265-282 | the received result is shown last, numbered with the buffer's length, and the buffer stays bounded and numbered |
| ViewModels.StatusChangedSaves | ViewModels/MainViewModel.cs:310-326 | the end of a scan clears the flag and saves once exactly when something succeeded; nothing else changes |
| ViewModels.DeliverAppend | ViewModels/MainViewModel.cs:265-326 | handling two event streams in turn is handling their concatenation |
| ViewModels.DeliverKeepsInvariants | ViewModels/MainViewModel.cs:265-326 | any event stream keeps the buffer bounded and numbered and the counters consistent, and total grows by the number of results |
| ViewModels.DeliverSavesEveryTenth | ViewModels/MainViewModel.cs:284-293 | within a scan, the number of saves is the number of multiples of ten the success count passes |
| ViewModels.DeliverKeepsLoadedCount | ViewModels/MainViewModel.cs:265-299 | the handlers never change the shown scan count |
| ViewModels.ScanCount | ViewModels/MainViewModel.cs:167 | the shown count is the smaller of the loaded count and `Scans` |
| ViewModels.Cleared | ViewModels/MainViewModel.cs:148-158 | a start clears the buffer, the success list and the counters and marks the view scanning; earlier saves are kept |
| ViewModels.StartScanWith | ViewModels/MainViewModel.cs:166-175 | a zero count leaves the scanner untouched and the view cleared and idle |
| ViewModels.StartScan | ViewModels/MainViewModel.cs:144-197 | the same, for the list loaded from the configured path |
| ViewModels.StartScanWithSession | ViewModels/MainViewModel.cs:144-197 | a started scan ends with both sides idle, the view consistent, total equal to the results raised, and saves at every tenth success plus one final save when something succeeded |
| ViewModels.StartScanSession | ViewModels/MainViewModel.cs:144-197 | the same, for the configured list and the real probe |
| ViewModels.DeliverWholeScan | ViewModels/MainViewModel.cs:265-326 | a scan framed by two status events is handled consistently, with saves at every tenth success and once at the end |
| ViewModels.StartScanWhileScannerBusy | ViewModels/MainViewModel.cs:144-197 | when the scanner is already busy, the view stays marked scanning and cannot start again |
| ViewModels.ScansCapNotApplied | ViewModels/MainViewModel.cs:167-179 | with `Scans` below the list length, the view shows `Scans` while the scanner completes the whole list |
| ViewModels.StopScan | ViewModels/MainViewModel.cs:199-217 | after a stop both the scanner and the view are idle; when a start still has the handlers subscribed, the scanner's `StatusChanged(false)` saves the white list once more exactly when something succeeded, with the distinct successful addresses; earlier saves are kept |
| ViewModels.StopEnablesStart | ViewModels/MainViewModel.cs:199-209 | after a stop, start is enabled and stop is not, and nothing shown or counted is lost: only the flag and the saves change |
| ViewModels.StopDuringScanSavesTwice | ViewModels/MainViewModel.cs:310-326 | a stop during a running start with successes saves the white list twice, once for the stop's `StatusChanged(false)` and once for the one the finishing scan raises, both with the same addresses |
| Text.TrimIdempotent | Services/NetworkScannerService.cs:174 | trimming a trimmed line changes nothing |
| Text.TrimEmptyIffBlank | Services/NetworkScannerService.cs:173-174 | a line trims to empty exactly when it is blank |
| Text.SplitJoinRoundTrip | Infrastructure/IntListConverter.cs:12-22 | joining non-empty separator-free parts with ", " and splitting with empty entries removed gives the parts back |
| Decimal.Wrap32 | Services/NetworkScannerService.cs:289-295 | the 32-bit wrap-around agrees with the exact value modulo 2^32 and is exact in range |
| Decimal.ParseRendering | Infrastructure/IntListConverter.cs:12-26 | the decimal rendering of every 32-bit int parses back to it |

## Left out

- File I/O, JSON (de)serialisation, the ping and HTTP clients, stopwatch timing, `DateTime.Now` and the 30 s client timeout are not modelled. The file system, the ping reply, the HTTP outcome of each request, the clock and the processor count are parameters.
- `async`/`await`, the dispatcher, `_progressLock`, and the interleaving of a `StopScanAsync` with a running scan's events are not modelled. Each operation is one sequential step, and cancellation is a token sampled at the check points.
- Floating point is not modelled: the progress percentage, the view's `ScanProgress`, jitter and latency `TimeSpan`s.
- A single mutable `ScanResult` is reused for every report about one address, and renumbering mutates shared objects. The model emits value snapshots instead.
- Null strings are modelled as "", since every use treats null like an empty or blank string.
- Counters are unbounded integers, except where the source's 32-bit arithmetic visibly matters (`MaxPing + 1`, `(int)Maxlatency`, result numbers).
- Exceptions thrown by event handlers, and the outer `catch` blocks that only they can reach, are not modelled.
- Status messages and logging are not modelled.
- The UI shell, `ViewWhiteList`, `InitializeAsync`, the save/load/reset configuration commands, `LoadConfigurationAsync` and `SaveConfigurationAsync` are not modelled; they are I/O or UI. `FixConfigurationAsync`'s save is not modelled either.
- The `OnScanProgressChanged` handler is not modelled; it sets only a percentage and a message. The progress events themselves are modelled.
- `BoolToTextConverter.ConvertBack` is not modelled; it always throws `NotImplementedException`.
- BoolToVisibilityConverter, BoolToColorConverter and ViewModelBase are not modelled; they are WPF binding plumbing.
- Culture-specific parsing is not modelled: `int.TryParse` uses the invariant culture.
- CandidateSource.CandidatePaths: the multi-argument `Path.Combine` is modelled as nested two-argument calls. Only the first and sixth candidates are pinned in the contract.
- Prober.Url: no contract of its own; its behaviour is stated by `Prober.UrlLeavesIPv6Unbracketed` and `Prober.UrlHostIsAddressIff`.
- ViewModels.StopScan: whether a start is still awaiting the scanner, and so has the handlers subscribed, is a parameter. Results the interrupted scan raises between the stop and its end are not modelled; its final `StatusChanged(false)` is, in `ViewModels.StopDuringScanSavesTwice`.

