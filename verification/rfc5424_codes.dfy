/** `enum class Severity` (identical in both syslog packages). */
module Rfc5424Severity {
  /** `enum class Severity`, in declaration order (its ordinal is the code). */
  datatype Severity = EMERG | ALERT | CRIT | ERR | WARNING | NOTICE | INFO | DEBUG | NOPRI

  /** `Severity.values()`. */
  const Severities: seq<Severity> := [EMERG, ALERT, CRIT, ERR, WARNING, NOTICE, INFO, DEBUG, NOPRI]

  function SeverityOrdinal(s: Severity): (i: nat)
    ensures i < |Severities| && Severities[i] == s
  {
    match s
    case EMERG => 0 case ALERT => 1 case CRIT => 2 case ERR => 3 case WARNING => 4
    case NOTICE => 5 case INFO => 6 case DEBUG => 7 case NOPRI => 8
  }

  function SeverityDescription(s: Severity): string
  {
    match s
    case EMERG => "Emergency: system is unusable"
    case ALERT => "Alert: action must be taken immediately"
    case CRIT => "Critical: critical conditions"
    case ERR => "Error: error conditions"
    case WARNING => "Warning: warning conditions"
    case NOTICE => ": normal but significant condition"
    case INFO => "Informational: informational messages"
    case DEBUG => "Debug: debug-level messages"
    case NOPRI => "Unspecified"
  }
}

/** `enum class Facility`. */
module Rfc5424Facility {
  /** `enum class Facility`, in declaration order. */
  datatype Facility =
    | KERN | USER | MAIL | DAEMON | AUTH | SYSLOG | LPR | NEWS | UUCP | CRON | AUTHPRIV | FTP
    | NTP | AUDIT | ALERT | CRON2 | LOCAL0 | LOCAL1 | LOCAL2 | LOCAL3 | LOCAL4 | LOCAL5 | LOCAL6 | LOCAL7

  /** `Facility.values()`. */
  const Facilities: seq<Facility> :=
    [KERN, USER, MAIL, DAEMON, AUTH, SYSLOG, LPR, NEWS, UUCP, CRON, AUTHPRIV, FTP,
     NTP, AUDIT, ALERT, CRON2, LOCAL0, LOCAL1, LOCAL2, LOCAL3, LOCAL4, LOCAL5, LOCAL6, LOCAL7]

  function FacilityOrdinal(f: Facility): (i: nat)
    ensures i < |Facilities| && Facilities[i] == f
  {
    match f
    case KERN => 0 case USER => 1 case MAIL => 2 case DAEMON => 3 case AUTH => 4 case SYSLOG => 5
    case LPR => 6 case NEWS => 7 case UUCP => 8 case CRON => 9 case AUTHPRIV => 10 case FTP => 11
    case NTP => 12 case AUDIT => 13 case ALERT => 14 case CRON2 => 15 case LOCAL0 => 16
    case LOCAL1 => 17 case LOCAL2 => 18 case LOCAL3 => 19 case LOCAL4 => 20 case LOCAL5 => 21
    case LOCAL6 => 22 case LOCAL7 => 23
  }

  function FacilityDescription(f: Facility): string
  {
    match f
    case KERN => "kernel messages"
    case USER => "user-level messages"
    case MAIL => "mail system"
    case DAEMON => "system daemons"
    case AUTH => "security/authorization messages"
    case SYSLOG => "messages generated internally by syslogd"
    case LPR => "line printer subsystem"
    case NEWS => "network news subsystem"
    case UUCP => "UUCP subsystem"
    case CRON => "clock daemon"
    case AUTHPRIV => "security/authorization messages"
    case FTP => "FTP daemon"
    case NTP => "NTP subsystem"
    case AUDIT => "log audit"
    case ALERT => "log alert"
    case CRON2 => "clock daemon"
    case LOCAL0 => "locally used facilities"
    case LOCAL1 => "locally used facilities"
    case LOCAL2 => "locally used facilities"
    case LOCAL3 => "locally used facilities"
    case LOCAL4 => "locally used facilities"
    case LOCAL5 => "locally used facilities"
    case LOCAL6 => "locally used facilities"
    case LOCAL7 => "locally used facilities"
  }
}

/**
 * The syslog facility and severity codes (the PRI value of section 6.2.1 of
 * RFC 5424 is facility * 8 + severity), the lookups the parsers and
 * `LogRecord` make with `values().getOrNull(...)`, and `LogRecord` itself.
 */
module Rfc5424Codes {
  import opened Bytes
  import opened Rfc5424Time
  import opened Rfc5424Severity
  import opened Rfc5424Facility

  /** `values().getOrNull(i)`. */
  function GetOrNull<T>(values: seq<T>, i: int): (r: Option<T>)
    ensures r.Some? <==> 0 <= i < |values|
    ensures r.Some? ==> r.value == values[i]
  {
    if 0 <= i < |values| then Some(values[i]) else None
  }

  /** `Facility.values().getOrNull(pri shr 3)`: the arithmetic shift is a floor division by 8. */
  function FacilityOf(pri: int): (r: Option<Facility>)
    ensures r.Some? <==> 0 <= pri < 8 * |Facilities|
    ensures r.Some? ==> FacilityOrdinal(r.value) == pri / 8
  {
    GetOrNull(Facilities, pri / 8)
  }

  /**
   * `Severity.values().getOrNull(pri and 0x7)`: masking a two's-complement
   * integer with 7 is its remainder modulo 8, never negative, so every
   * integer has a severity and it is never NOPRI.
   */
  function SeverityOf(pri: int): (r: Option<Severity>)
    ensures r.Some? && r.value != NOPRI
    ensures SeverityOrdinal(r.value) == pri % 8
  {
    GetOrNull(Severities, pri % 8)
  }

  /** The PRI value of a facility and a severity (section 6.2.1 of RFC 5424). */
  function Pri(f: Facility, s: Severity): (pri: nat)
    requires s != NOPRI
    ensures pri < 192
  {
    FacilityOrdinal(f) * 8 + SeverityOrdinal(s)
  }

  /** Splitting a PRI value gives back the facility and severity it was made of. */
  lemma PriRoundTrip(f: Facility, s: Severity)
    requires s != NOPRI
    ensures FacilityOf(Pri(f, s)) == Some(f)
    ensures SeverityOf(Pri(f, s)) == Some(s)
  {
    var fi, si := FacilityOrdinal(f), SeverityOrdinal(s);
    assert si < 8;
    SplitBy8(fi, si);
    var fr, sr := FacilityOf(Pri(f, s)), SeverityOf(Pri(f, s));
    assert FacilityOrdinal(fr.value) == fi;
    assert fr.value == Facilities[fi] == f;
    assert SeverityOrdinal(sr.value) == si;
    assert sr.value == Severities[si] == s;
  }

  lemma SplitBy8(q: nat, r: nat)
    requires r < 8
    ensures (q * 8 + r) / 8 == q && (q * 8 + r) % 8 == r
  {
  }

  /** Every PRI in 0..191 is made of a facility and a severity. */
  lemma PriSplit(pri: int)
    requires 0 <= pri < 192
    ensures FacilityOf(pri).Some? && SeverityOf(pri).Some?
    ensures Pri(FacilityOf(pri).value, SeverityOf(pri).value) == pri
  {
  }

  /** `data class LogRecord`. */
  datatype LogRecord = LogRecord(pri: Option<int>, ts: DateTime, host: Option<string>,
                                 app: Option<string>, proc: Option<int>, msgid: Option<string>,
                                 msg: Option<string>)
  {
    /** `LogRecord.facility`. */
    function Facility(): (r: Option<Facility>)
      ensures r.Some? <==> pri.Some? && 0 <= pri.value < 192
    {
      if pri.None? then None else FacilityOf(pri.value)
    }

    /** `LogRecord.severity`: present whenever `pri` is, even for a negative `pri`. */
    function Severity(): (r: Option<Severity>)
      ensures r.Some? <==> pri.Some?
      ensures r.Some? ==> r.value != NOPRI
    {
      if pri.None? then None else SeverityOf(pri.value)
    }
  }

  /**
   * A negative `pri` has no facility but still a severity in a `LogRecord`,
   * whereas the parsers answer null for both when `priValue` is negative.
   */
  lemma NegativePriInLogRecord(r: LogRecord)
    requires r.pri == Some(-1)
    ensures r.Facility() == None
    ensures r.Severity() == Some(DEBUG)
  {
  }
}
