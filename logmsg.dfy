/**
 * The record every decoder fills: one syslog message with its header
 * fields, its structured data and its free-text body.
 * Optional byte fields are `None` while the decoder has not assigned them.
 */
module LogMessage {
  import opened SyslogTypes

  datatype LogMsgType = RFC3164 | RFC5424

  /** The calendar fields of a decoded timestamp. */
  datatype Time = Time(year: int, month: int, day: int, hour: int, minute: int, second: int)

  /** One PARAM-NAME="PARAM-VALUE" pair of a structured-data element. */
  datatype SDParam = SDParam(key: Bytes, val: Bytes)
  {
    /** The parameter name as a string. */
    function Name(): (s: string)
      ensures |s| == |key| && forall i :: 0 <= i < |s| ==> s[i] as int == key[i] as int
    {
      GoString(key)
    }

    /** The parameter value as a string. */
    function Value(): (s: string)
      ensures |s| == |val| && forall i :: 0 <= i < |s| ==> s[i] as int == val[i] as int
    {
      GoString(val)
    }
  }

  /** One `[SD-ID PARAM...]` element. */
  datatype SDElement = SDElement(id: Bytes, params: seq<SDParam>)
  {
    /** The SD-ID as a string. */
    function IDString(): (s: string)
      ensures |s| == |id| && forall i :: 0 <= i < |s| ==> s[i] as int == id[i] as int
    {
      GoString(id)
    }
  }

  datatype LogMsg = LogMsg(
    msgType: LogMsgType,
    app: Option<Bytes>,
    facility: int,
    hasBOM: bool,
    host: Option<Bytes>,
    message: Bytes,
    msgLength: int,
    msgID: Option<Bytes>,
    priority: int,
    pid: Option<Bytes>,
    protoVersion: int,
    severity: int,
    structuredData: seq<SDElement>,
    timestamp: Option<Time>)
  {
    /** The hostname as a string; the empty string while it is unset. */
    function Hostname(): (s: string)
      ensures |s| == |OrEmpty(host)| && forall i :: 0 <= i < |s| ==> s[i] as int == OrEmpty(host)[i] as int
    {
      GoString(OrEmpty(host))
    }

    /** The application name as a string; the empty string while it is unset. */
    function AppName(): (s: string)
      ensures |s| == |OrEmpty(app)| && forall i :: 0 <= i < |s| ==> s[i] as int == OrEmpty(app)[i] as int
    {
      GoString(OrEmpty(app))
    }

    /** The process id as a string; the empty string while it is unset. */
    function ProcID(): (s: string)
      ensures |s| == |OrEmpty(pid)| && forall i :: 0 <= i < |s| ==> s[i] as int == OrEmpty(pid)[i] as int
    {
      GoString(OrEmpty(pid))
    }
  }

  /** A record with only its format tag set, as every decoder starts. */
  function EmptyLogMsg(t: LogMsgType): LogMsg
  {
    LogMsg(t, None, 0, false, None, [], 0, None, 0, None, 0, 0, [], None)
  }

  /** The bytes of an optional field; an unset field reads as no bytes. */
  function OrEmpty(f: Option<Bytes>): Bytes
  {
    if f.Some? then f.value else []
  }

  /**
   * A byte sequence converted to a string the way the source language
   * does it: one character per byte, no decoding.
   */
  function GoString(b: Bytes): (s: string)
    ensures |s| == |b|
    ensures forall i :: 0 <= i < |b| ==> s[i] as int == b[i] as int
  {
    seq(|b|, i requires 0 <= i < |b| => b[i] as int as char)
  }

  /** The bytes of a string whose characters are all single bytes. */
  function BytesOf(s: string): Bytes
  {
    seq(|s|, i requires 0 <= i < |s| => (s[i] as int % 256) as byte)
  }

  /** The string conversion loses nothing: converting back gives the bytes. */
  lemma GoStringRoundTrip(b: Bytes)
    ensures BytesOf(GoString(b)) == b
  {
  }

  /** Integer division rounding toward zero, as the source language divides. */
  function TruncDiv(a: int, d: int): int
    requires d > 0
  {
    if a >= 0 then a / d else -((-a) / d)
  }

  /** The facility packed into a priority: PRI = Facility * 8 + Severity. */
  function FacilityFromPrio(p: int): int
  {
    TruncDiv(p, 8)
  }

  /** The severity packed into a priority: PRI = Facility * 8 + Severity. */
  function SeverityFromPrio(p: int): int
  {
    p - 8 * TruncDiv(p, 8)
  }

  /**
   * Facility and severity recompose the priority, and for a non-negative
   * priority the severity is one of the 8 codes.
   */
  lemma PriorityDecomposes(p: int)
    ensures FacilityFromPrio(p) * 8 + SeverityFromPrio(p) == p
    ensures 0 <= p ==> 0 <= SeverityFromPrio(p) < 8 && 0 <= FacilityFromPrio(p)
    ensures 0 <= p < 192 ==> FacilityFromPrio(p) < 24
    ensures p < 0 ==> -8 < SeverityFromPrio(p) <= 0
  {
  }

  /** Packing a facility and a severity and unpacking them gives both back. */
  lemma PriorityRoundTrip(f: nat, s: nat)
    requires s < 8
    ensures FacilityFromPrio(f * 8 + s) == f
    ensures SeverityFromPrio(f * 8 + s) == s
  {
  }
}
