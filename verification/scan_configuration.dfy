/** `ScanConfiguration`: the settings record, its property initialisers and
    the read-only alias properties it exposes under extra JSON names. */
module ScanConfigurations {
  import opened Wrappers
  import opened Decimal

  /** The settings record. `ports` is `None` for a null list (as JSON
      deserialisation can produce); the scanner tells null and empty apart.
      Null strings are modelled as empty strings. `maxlatency` is a `long`. */
  datatype ScanConfiguration = ScanConfiguration(
    hostname: string,
    ports: Option<seq<Int32>>,
    path: string,
    ping: bool,
    maxPing: Int32,
    goroutines: Int32,
    scans: Int32,
    maxlatency: Int64,
    iplistPath: string,
    csv: bool)

  const DefaultHostname: string := "cp.cloudflare.com"
  const DefaultPorts: seq<Int32> := [80, 443]
  const DefaultPath: string := "/"
  const DefaultMaxPing: Int32 := 300
  const DefaultGoroutines: Int32 := 4
  const DefaultScans: Int32 := 10000
  const DefaultMaxlatency: Int64 := 1000
  const DefaultIplistFile: string := "ipv4.txt"

  /** `new ScanConfiguration()`: every property at its initialiser. */
  function NewConfiguration(): ScanConfiguration {
    ScanConfiguration(DefaultHostname, Some(DefaultPorts), DefaultPath, true, DefaultMaxPing,
                      DefaultGoroutines, DefaultScans, DefaultMaxlatency, DefaultIplistFile, true)
  }

  /** `MaxlatencyInt => (int)Maxlatency`: an unchecked narrowing of the
      `long`, exact whenever the value fits in 32 bits. */
  function MaxlatencyInt(c: ScanConfiguration): (r: Int32)
    ensures Int32Min <= c.maxlatency <= Int32Max ==> r == c.maxlatency
    ensures (r - c.maxlatency) % 0x1_0000_0000 == 0
  {
    Wrap32(c.maxlatency)
  }

  /** A property value as serialised. */
  datatype JsonValue =
    | JsonString(s: string)
    | JsonPorts(ports: Option<seq<Int32>>)
    | JsonBool(b: bool)
    | JsonNumber(n: int)

  /** The settings the record stores. */
  datatype Field = Hostname | Ports | Path | Ping | MaxPing | Goroutines | Scans | Maxlatency | IplistPath | Csv

  /** A serialised property: the stored setting under its own name, or the
      read-only secondary property that exposes it again under a second
      name. */
  datatype JsonName = Primary(field: Field) | Secondary(field: Field)

  /** The `JsonPropertyName` of each property. */
  function Name(n: JsonName): (name: string)
    ensures |name| > 0
  {
    match n
    case Primary(Hostname) => "Hostname"
    case Primary(Ports) => "Ports"
    case Primary(Path) => "Path"
    case Primary(Ping) => "Ping"
    case Primary(MaxPing) => "MaxPing"
    case Primary(Goroutines) => "Goroutines"
    case Primary(Scans) => "Scans"
    case Primary(Maxlatency) => "Maxlatency"
    case Primary(IplistPath) => "IplistPath"
    case Primary(Csv) => "CSV"
    case Secondary(Hostname) => "hostname"
    case Secondary(Ports) => "ports"
    case Secondary(Path) => "path"
    case Secondary(Ping) => "ping"
    case Secondary(MaxPing) => "maxPing"
    case Secondary(Goroutines) => "goroutines"
    case Secondary(Scans) => "scans"
    case Secondary(Maxlatency) => "maxlatency"
    case Secondary(IplistPath) => "iplistPath"
    case Secondary(Csv) => "csv"
  }

  /** Primary names start with a capital letter, secondary ones do not. */
  lemma NameCase(n: JsonName)
    ensures n.Primary? <==> 'A' <= Name(n)[0] <= 'Z'
  {
  }

  /** The value each property serialises to. Every secondary property reads
      its primary one, except `maxlatency`, which is the narrowed
      `MaxlatencyInt`. */
  function Property(c: ScanConfiguration, n: JsonName): JsonValue {
    match n.field
    case Hostname => JsonString(c.hostname)
    case Ports => JsonPorts(c.ports)
    case Path => JsonString(c.path)
    case Ping => JsonBool(c.ping)
    case MaxPing => JsonNumber(c.maxPing)
    case Goroutines => JsonNumber(c.goroutines)
    case Scans => JsonNumber(c.scans)
    case Maxlatency => if n.Primary? then JsonNumber(c.maxlatency) else JsonNumber(MaxlatencyInt(c))
    case IplistPath => JsonString(c.iplistPath)
    case Csv => JsonBool(c.csv)
  }

  /** A secondary property serialises the same value as its primary one,
      and so does `maxlatency` whenever the latency fits in 32 bits. */
  lemma SecondaryMirrorsPrimary(c: ScanConfiguration, f: Field)
    requires f != Maxlatency || Int32Min <= c.maxlatency <= Int32Max
    ensures Property(c, Secondary(f)) == Property(c, Primary(f))
  {
  }

  /** The `maxlatency` alias writes the same number as `MaxLatency` exactly
      when the latency fits in 32 bits; otherwise it writes a different
      number congruent to it modulo 2^32 (a latency of 2^32 ms is written
      as 0). */
  lemma SecondaryMaxlatencyWraps(c: ScanConfiguration)
    ensures (Property(c, Secondary(Maxlatency)) == Property(c, Primary(Maxlatency)))
              <==> (Int32Min <= c.maxlatency <= Int32Max)
    ensures Property(c, Secondary(Maxlatency)).JsonNumber?
    ensures (Property(c, Secondary(Maxlatency)).n - c.maxlatency) % 0x1_0000_0000 == 0
  {
  }
}
