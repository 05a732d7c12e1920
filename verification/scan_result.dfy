/** `ScanResult` and `ScanStatus`: one probe outcome as the scanner reports
    it and the view lists it. The source's `ScanResult` is a mutable object
    that raises a property-changed notification per assignment; here a
    result is an immutable snapshot and `SetField` models the assignment
    rule on its own. */
module ScanResults {
  import opened Wrappers
  import opened Decimal
  import opened Text

  /** `ScanStatus` in declaration order; `Queued` (value 0) is the default. */
  datatype ScanStatus = Queued | Scanning | Success | Failed | Timeout

  /** A snapshot of a `ScanResult`. Durations are whole milliseconds and the
      scan time is a clock reading. `Jitter` (a `double` nothing assigns) is
      not modelled. */
  datatype ScanResult = ScanResult(
    number: Int32,
    ipAddress: string,
    port: Int32,
    pingTimeMs: int,
    latencyMs: int,
    downloadSpeed: string,
    status: ScanStatus,
    errorMessage: string,
    scanTime: int)

  /** A newly constructed result: the field initialisers give empty strings,
      every other field takes its type's default, so the status is `Queued`. */
  function NewResult(): (r: ScanResult)
    ensures r.ipAddress == "" && r.downloadSpeed == "" && r.errorMessage == ""
    ensures r.status == Queued && StatusText(r.status) == "Queued"
    ensures r.number == 0 && r.port == 0 && r.pingTimeMs == 0 && r.latencyMs == 0
  {
    ScanResult(0, "", 0, 0, 0, "", Queued, "", 0)
  }

  /** The label shown for a status. */
  function StatusText(s: ScanStatus): (t: string)
    ensures |t| > 0
    ensures t == "Scanning..." <==> s == Scanning
  {
    match s
    case Success => "Success"
    case Failed => "Failed"
    case Timeout => "Timeout"
    case Scanning => "Scanning..."
    case Queued => "Queued"
  }

  /** Different statuses never share a label. */
  lemma StatusTextInjective(s: ScanStatus, t: ScanStatus)
    requires s != t
    ensures StatusText(s) != StatusText(t)
  {
  }

  /** `"{IpAddress}:{Port}"`. */
  function EndpointAddress(r: ScanResult): string {
    r.ipAddress + ":" + IntToString(r.port)
  }

  /** The endpoint text can be taken apart again: the port follows the last
      ':' (so even an IPv6 address, itself full of colons, comes back whole)
      and parses back to the port. */
  lemma EndpointAddressSplits(r: ScanResult)
    ensures var e := EndpointAddress(r);
            var i := LastIndexOf(e, ':');
            && i == |r.ipAddress|
            && e[..i] == r.ipAddress
            && TryParseInt32(e[i + 1..]) == Some(r.port)
  {
    var e := EndpointAddress(r);
    var p := IntToString(r.port);
    LastIndexOfBefore(r.ipAddress, ':', p);
    assert e[..|r.ipAddress|] == r.ipAddress;
    assert e[|r.ipAddress| + 1..] == p;
    ParseRendering(r.port);
  }

  /** What one property assignment did: whether it changed the field, the
      field's new value and the property-changed notifications raised. */
  datatype Assignment<T> = Assignment(changed: bool, field: T, notifications: seq<string>)

  /** `SetField(ref field, value, propertyName)`: assign and notify once
      when the value differs, otherwise do nothing and report false. */
  function SetField<T(==)>(field: T, value: T, propertyName: string): (r: Assignment<T>)
    ensures r.field == value
    ensures r.changed <==> field != value
    ensures r.changed ==> r.notifications == [propertyName]
    ensures !r.changed ==> r.notifications == []
  {
    if field == value then Assignment(false, field, [])
    else Assignment(true, value, [propertyName])
  }

  /** Assigning the same value twice notifies at most once: the second
      assignment changes nothing and raises nothing. */
  lemma SetFieldTwice<T>(field: T, value: T, propertyName: string)
    ensures var first := SetField(field, value, propertyName);
            var second := SetField(first.field, value, propertyName);
            && !second.changed && second.field == first.field && second.notifications == []
            && |first.notifications| + |second.notifications| <= 1
  {
  }
}
