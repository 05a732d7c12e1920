/** The configuration collaborator's pure logic: the default record, the
    validator and the field-wise repair. Loading and saving the JSON file is
    I/O and is not modelled; `File.Exists` is the file-system map, and
    `Environment.ProcessorCount` and the application base directory are
    parameters. */
module ConfigurationService {
  import opened Wrappers
  import opened Decimal
  import opened Text
  import opened Host
  import opened ScanConfigurations

  /** One validation failure, in the order the validator checks them. */
  datatype ConfigError =
    | EmptyHostname
    | NoPorts
    | PortOutOfRange
    | NonPositiveGoroutines
    | NonPositiveScans
    | NonPositiveMaxPing
    | NonPositiveMaxlatency
    | IplistNotFound(path: string)

  /** The text the validator reports for an error. */
  function Message(e: ConfigError): string {
    match e
    case EmptyHostname => "Hostname cannot be empty"
    case NoPorts => "At least one port must be specified"
    case PortOutOfRange => "Ports must be between 1 and 65535"
    case NonPositiveGoroutines => "Goroutines must be greater than 0"
    case NonPositiveScans => "Scans must be greater than 0"
    case NonPositiveMaxPing => "MaxPing must be greater than 0"
    case NonPositiveMaxlatency => "Maxlatency must be greater than 0"
    case IplistNotFound(p) => "IP list file not found: " + p
  }

  /** The position of an error's check in the validator. */
  function Rank(e: ConfigError): nat {
    match e
    case EmptyHostname => 0
    case NoPorts => 1
    case PortOutOfRange => 1
    case NonPositiveGoroutines => 2
    case NonPositiveScans => 3
    case NonPositiveMaxPing => 4
    case NonPositiveMaxlatency => 5
    case IplistNotFound(_) => 6
  }

  predicate HostnameOk(c: ScanConfiguration) {
    !IsBlank(c.hostname)
  }

  predicate HasPorts(c: ScanConfiguration) {
    c.ports.Some? && |c.ports.value| > 0
  }

  predicate PortsInRange(c: ScanConfiguration) {
    c.ports.Some? ==> forall k :: 0 <= k < |c.ports.value| ==> 1 <= c.ports.value[k] <= 65535
  }

  predicate IplistOk(c: ScanConfiguration, fs: FileSystem) {
    IsBlank(c.iplistPath) || FileExists(fs, c.iplistPath)
  }

  /** Every check the validator makes passes. */
  predicate IsValid(c: ScanConfiguration, fs: FileSystem) {
    && HostnameOk(c)
    && HasPorts(c) && PortsInRange(c)
    && c.goroutines > 0 && c.scans > 0 && c.maxPing > 0 && c.maxlatency > 0
    && IplistOk(c, fs)
  }

  /** Errors listed in strictly increasing check order. */
  predicate Ranked(errors: seq<ConfigError>) {
    forall i, j :: 0 <= i < j < |errors| ==> Rank(errors[i]) < Rank(errors[j])
  }

  /** The number of checks the validator makes. */
  const CheckCount: nat := 7

  /** Whether the check at position `k` fails. */
  predicate CheckFails(c: ScanConfiguration, fs: FileSystem, k: nat) {
    match k
    case 0 => !HostnameOk(c)
    case 1 => !(HasPorts(c) && PortsInRange(c))
    case 2 => c.goroutines <= 0
    case 3 => c.scans <= 0
    case 4 => c.maxPing <= 0
    case 5 => c.maxlatency <= 0
    case _ => !IplistOk(c, fs)
  }

  /** The error the check at position `k` reports; an empty or null port list
      is reported as missing, never also as out of range. */
  function CheckError(c: ScanConfiguration, k: nat): (e: ConfigError)
    requires k < CheckCount
    ensures Rank(e) == k
  {
    match k
    case 0 => EmptyHostname
    case 1 => if !HasPorts(c) then NoPorts else PortOutOfRange
    case 2 => NonPositiveGoroutines
    case 3 => NonPositiveScans
    case 4 => NonPositiveMaxPing
    case 5 => NonPositiveMaxlatency
    case _ => IplistNotFound(c.iplistPath)
  }

  /** The errors of the checks from position `k` on, in order. */
  function ErrorsFrom(c: ScanConfiguration, fs: FileSystem, k: nat): (errors: seq<ConfigError>)
    requires k <= CheckCount
    ensures Ranked(errors)
    ensures forall i :: 0 <= i < |errors| ==> k <= Rank(errors[i]) < CheckCount
    ensures forall x {:trigger x in errors} :: x in errors <==>
              k <= Rank(x) < CheckCount && CheckFails(c, fs, Rank(x)) && x == CheckError(c, Rank(x))
    decreases CheckCount - k
  {
    if k == CheckCount then []
    else
      var rest := ErrorsFrom(c, fs, k + 1);
      if CheckFails(c, fs, k) then [CheckError(c, k)] + rest else rest
  }

  /** `ValidateConfiguration`: exactly the failed checks' errors, each once,
      in check order; no error at all exactly when the record is valid. */
  function ValidateConfiguration(c: ScanConfiguration, fs: FileSystem): (errors: seq<ConfigError>)
    ensures |errors| == 0 <==> IsValid(c, fs)
    ensures Ranked(errors)
    ensures forall x {:trigger x in errors} :: x in errors <==>
              Rank(x) < CheckCount && CheckFails(c, fs, Rank(x)) && x == CheckError(c, Rank(x))
  {
    var errors := ErrorsFrom(c, fs, 0);
    assert |errors| > 0 ==> errors[0] in errors;
    errors
  }

  /** Each error is reported exactly when its own check fails; an empty or
      null port list is reported as missing and never also as out of range. */
  lemma ValidateReportsEachFailure(c: ScanConfiguration, fs: FileSystem)
    ensures EmptyHostname in ValidateConfiguration(c, fs) <==> !HostnameOk(c)
    ensures NoPorts in ValidateConfiguration(c, fs) <==> !HasPorts(c)
    ensures PortOutOfRange in ValidateConfiguration(c, fs) <==> HasPorts(c) && !PortsInRange(c)
    ensures NonPositiveGoroutines in ValidateConfiguration(c, fs) <==> c.goroutines <= 0
    ensures NonPositiveScans in ValidateConfiguration(c, fs) <==> c.scans <= 0
    ensures NonPositiveMaxPing in ValidateConfiguration(c, fs) <==> c.maxPing <= 0
    ensures NonPositiveMaxlatency in ValidateConfiguration(c, fs) <==> c.maxlatency <= 0
    ensures IplistNotFound(c.iplistPath) in ValidateConfiguration(c, fs) <==> !IplistOk(c, fs)
  {
    var errors := ValidateConfiguration(c, fs);
    assert EmptyHostname in errors <==> !HostnameOk(c) by {
      assert CheckError(c, 0) == EmptyHostname;
    }
    assert NoPorts in errors <==> !HasPorts(c) by {
      assert Rank(NoPorts) == 1;
    }
    assert PortOutOfRange in errors <==> HasPorts(c) && !PortsInRange(c) by {
      assert Rank(PortOutOfRange) == 1;
    }
    assert NonPositiveGoroutines in errors <==> c.goroutines <= 0 by {
      assert CheckError(c, 2) == NonPositiveGoroutines;
    }
    assert NonPositiveScans in errors <==> c.scans <= 0 by {
      assert CheckError(c, 3) == NonPositiveScans;
    }
    assert NonPositiveMaxPing in errors <==> c.maxPing <= 0 by {
      assert CheckError(c, 4) == NonPositiveMaxPing;
    }
    assert NonPositiveMaxlatency in errors <==> c.maxlatency <= 0 by {
      assert CheckError(c, 5) == NonPositiveMaxlatency;
    }
    assert IplistNotFound(c.iplistPath) in errors <==> !IplistOk(c, fs) by {
      assert CheckError(c, 6) == IplistNotFound(c.iplistPath);
    }
  }

  /** `Math.Max(1, Environment.ProcessorCount)`. */
  function DefaultGoroutinesFor(processorCount: Int32): (g: Int32)
    ensures g >= 1
  {
    if processorCount > 1 then processorCount else 1
  }

  /** The list file next to the executable. */
  function DefaultIplistPath(baseDirectory: string): (p: string)
    ensures !IsBlank(p)
  {
    var p := Combine(baseDirectory, DefaultIplistFile);
    assert p[|p| - |DefaultIplistFile|..] == DefaultIplistFile;
    assert p[|p| - 1] == 't';
    p
  }

  /** `GetDefaultConfiguration`: the stock settings, with the worker count
      taken from the processor count and the list path from the base
      directory. */
  function GetDefaultConfiguration(processorCount: Int32, baseDirectory: string): (c: ScanConfiguration)
    ensures c.goroutines >= 1 && !IsBlank(c.iplistPath)
    ensures c.goroutines == processorCount || (processorCount <= 1 && c.goroutines == 1)
  {
    ScanConfiguration(DefaultHostname, Some(DefaultPorts), DefaultPath, true, DefaultMaxPing,
                      DefaultGoroutinesFor(processorCount), DefaultScans, DefaultMaxlatency,
                      DefaultIplistPath(baseDirectory), true)
  }

  /** The stock host name is not blank. */
  lemma DefaultHostnameOk()
    ensures !IsBlank(DefaultHostname)
  {
    assert !IsWhiteSpace(DefaultHostname[0]);
  }

  /** The defaults pass every check but the list file's existence: the only
      error they can draw is that the file is missing. */
  lemma DefaultConfigurationPassesChecks(processorCount: Int32, baseDirectory: string, fs: FileSystem)
    ensures var c := GetDefaultConfiguration(processorCount, baseDirectory);
            && (forall e :: e in ValidateConfiguration(c, fs) ==> e == IplistNotFound(c.iplistPath))
            && (ValidateConfiguration(c, fs) == [] <==> FileExists(fs, c.iplistPath))
  {
    var c := GetDefaultConfiguration(processorCount, baseDirectory);
    DefaultHostnameOk();
    assert PortsInRange(c) by {
      assert c.ports.value == [80, 443];
    }
    forall e | e in ValidateConfiguration(c, fs)
      ensures e == IplistNotFound(c.iplistPath)
    {
      assert !CheckFails(c, fs, 0) && !CheckFails(c, fs, 1) && !CheckFails(c, fs, 2);
      assert !CheckFails(c, fs, 3) && !CheckFails(c, fs, 4) && !CheckFails(c, fs, 5);
    }
  }

  /** The field-wise repair of an invalid record: each field whose own check
      fails is replaced by its default and every other field is kept. A blank
      list path is replaced too, although the validator accepts it.
      Out-of-range ports and a non-blank path to a missing file have no
      repair. */
  function Repair(c: ScanConfiguration, processorCount: Int32, baseDirectory: string): (r: ScanConfiguration)
    ensures r.path == c.path && r.ping == c.ping && r.csv == c.csv
    ensures HostnameOk(c) ==> r.hostname == c.hostname
    ensures !HostnameOk(c) ==> r.hostname == DefaultHostname
    ensures HasPorts(c) ==> r.ports == c.ports
    ensures !HasPorts(c) ==> r.ports == Some(DefaultPorts)
    ensures c.goroutines > 0 ==> r.goroutines == c.goroutines
    ensures c.goroutines <= 0 ==> r.goroutines == DefaultGoroutinesFor(processorCount)
    ensures c.scans > 0 ==> r.scans == c.scans
    ensures c.scans <= 0 ==> r.scans == DefaultScans
    ensures c.maxPing > 0 ==> r.maxPing == c.maxPing
    ensures c.maxPing <= 0 ==> r.maxPing == DefaultMaxPing
    ensures c.maxlatency > 0 ==> r.maxlatency == c.maxlatency
    ensures c.maxlatency <= 0 ==> r.maxlatency == DefaultMaxlatency
    ensures !IsBlank(c.iplistPath) ==> r.iplistPath == c.iplistPath
    ensures IsBlank(c.iplistPath) ==> r.iplistPath == DefaultIplistPath(baseDirectory)
  {
    ScanConfiguration(
      if HostnameOk(c) then c.hostname else DefaultHostname,
      if HasPorts(c) then c.ports else Some(DefaultPorts),
      c.path,
      c.ping,
      if c.maxPing > 0 then c.maxPing else DefaultMaxPing,
      if c.goroutines > 0 then c.goroutines else DefaultGoroutinesFor(processorCount),
      if c.scans > 0 then c.scans else DefaultScans,
      if c.maxlatency > 0 then c.maxlatency else DefaultMaxlatency,
      if IsBlank(c.iplistPath) then DefaultIplistPath(baseDirectory) else c.iplistPath,
      c.csv)
  }

  /** Every check the repair can fix passes after it. */
  lemma RepairFixesRepairableChecks(c: ScanConfiguration, processorCount: Int32, baseDirectory: string)
    ensures var r := Repair(c, processorCount, baseDirectory);
            && HostnameOk(r) && HasPorts(r)
            && r.goroutines > 0 && r.scans > 0 && r.maxPing > 0 && r.maxlatency > 0
            && !IsBlank(r.iplistPath)
  {
    DefaultHostnameOk();
  }

  /** `FixConfigurationAsync` without the save: a record the validator
      accepts comes back as it is, any other is repaired field by field. */
  function FixConfiguration(c: ScanConfiguration, fs: FileSystem, processorCount: Int32, baseDirectory: string)
    : (r: ScanConfiguration)
    ensures IsValid(c, fs) ==> r == c
    ensures !IsValid(c, fs) ==> r == Repair(c, processorCount, baseDirectory)
  {
    var errors := ValidateConfiguration(c, fs);
    if |errors| == 0 then c else Repair(c, processorCount, baseDirectory)
  }

  /** After the repair only two kinds of error can remain: ports out of
      range and a list file that does not exist. */
  lemma FixLeavesOnlyUnrepairableErrors(c: ScanConfiguration, fs: FileSystem, processorCount: Int32, baseDirectory: string)
    ensures var r := FixConfiguration(c, fs, processorCount, baseDirectory);
            forall e :: e in ValidateConfiguration(r, fs) ==> e == PortOutOfRange || e == IplistNotFound(r.iplistPath)
  {
    var r := FixConfiguration(c, fs, processorCount, baseDirectory);
    if !IsValid(c, fs) {
      RepairFixesRepairableChecks(c, processorCount, baseDirectory);
      forall e | e in ValidateConfiguration(r, fs)
        ensures e == PortOutOfRange || e == IplistNotFound(r.iplistPath)
      {
        assert !CheckFails(r, fs, 0) && !CheckFails(r, fs, 2) && !CheckFails(r, fs, 3);
        assert !CheckFails(r, fs, 4) && !CheckFails(r, fs, 5);
      }
    }
  }

  /** The repair is idempotent. */
  lemma FixIdempotent(c: ScanConfiguration, fs: FileSystem, processorCount: Int32, baseDirectory: string)
    ensures var r := FixConfiguration(c, fs, processorCount, baseDirectory);
            FixConfiguration(r, fs, processorCount, baseDirectory) == r
  {
    var r := FixConfiguration(c, fs, processorCount, baseDirectory);
    if !IsValid(c, fs) {
      RepairFixesRepairableChecks(c, processorCount, baseDirectory);
      if !IsValid(r, fs) {
        var again := Repair(r, processorCount, baseDirectory);
        assert again.hostname == r.hostname && again.ports == r.ports;
        assert again.iplistPath == r.iplistPath;
      }
    }
  }

  /** Ports out of range have no repair: the repaired record still draws
      that error. */
  lemma FixKeepsOutOfRangePorts(c: ScanConfiguration, fs: FileSystem, processorCount: Int32, baseDirectory: string)
    requires HasPorts(c) && !PortsInRange(c)
    ensures PortOutOfRange in ValidateConfiguration(FixConfiguration(c, fs, processorCount, baseDirectory), fs)
  {
    var r := FixConfiguration(c, fs, processorCount, baseDirectory);
    assert r.ports == c.ports;
    ValidateReportsEachFailure(r, fs);
  }

  /** The property initialisers of `ScanConfiguration` pass every check but
      the list file's existence, like `GetDefaultConfiguration`. */
  lemma NewConfigurationPassesChecks(fs: FileSystem)
    ensures forall e :: e in ValidateConfiguration(NewConfiguration(), fs) ==> e == IplistNotFound(DefaultIplistFile)
  {
    var c := NewConfiguration();
    DefaultHostnameOk();
    assert PortsInRange(c) by {
      assert c.ports.value == [80, 443];
    }
    forall e | e in ValidateConfiguration(c, fs)
      ensures e == IplistNotFound(DefaultIplistFile)
    {
      assert !CheckFails(c, fs, 0) && !CheckFails(c, fs, 1) && !CheckFails(c, fs, 2);
      assert !CheckFails(c, fs, 3) && !CheckFails(c, fs, 4) && !CheckFails(c, fs, 5);
    }
  }
}
