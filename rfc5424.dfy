/**
 * The RFC 5424 decoder over an octet-counted frame (section 4.3 of
 * RFC 5425): `MSG-LEN SP`, then, read through a reader limited to MSG-LEN
 * bytes, the header of section 6.2 of RFC 5424 (`<PRI>VERSION SP`
 * and five space-terminated fields, each possibly the NILVALUE '-'), the
 * structured data of section 6.3, a peek for the byte order mark of
 * section 6.4, and the rest of the frame as the message.
 *
 * The parser object keeps one scratch buffer between calls. The
 * functions of this module say, for the frame's bytes, the position a
 * step starts at and the scratch buffer before it, what the step records,
 * what it leaves in the scratch buffer and where it stops reading; the
 * methods of class `Parser` are proved to do exactly that.
 */
module Rfc5424 {
  import opened SyslogTypes
  import opened LogMessage
  import opened Cursor
  import opened Common
  import opened StructuredData

  /**
   * The RFC 3339 timestamp decoder the parser calls: the time, or nothing
   * when the bytes are not an RFC 3339 timestamp.
   */
  type TimeParser = Bytes -> Option<Time>

  /** One decoding step: the record, the scratch buffer, the error and where reading stopped. */
  datatype Step = Step(lm: LogMsg, buf: Bytes, err: Option<Error>, end: nat)

  /** A whole decode: the record, the error and the scratch buffer left behind. */
  datatype Decoded = Decoded(lm: LogMsg, err: Option<Error>, buf: Bytes)

  /** The four header fields that are taken as they are unless they are NILVALUE. */
  datatype HeaderField = HostnameField | AppNameField | ProcIDField | MsgIDField

  /** The UTF-8 byte order mark. */
  const BOM: Bytes := [0xEF, 0xBB, 0xBF]

  // ---------------------------------------------------------------------
  // The steps
  // ---------------------------------------------------------------------

  /** `<PRI>`, read into the scratch buffer. */
  function PriorityStep(s: Bytes, i: nat, lm: LogMsg): (r: Step)
    requires i <= |s|
    ensures i <= r.end <= |s|
    ensures r.err.Some? ==> r.lm == lm
    ensures r.err.None? ==> r.lm == WithPriority(lm, r.lm.priority) && i + 2 <= r.end && s[i] == LANGLE && s[r.end - 1] == RANGLE
  {
    var p := PriorityOf(s, i);
    if p.prio.Ok? then Step(WithPriority(lm, p.prio.value), p.buf, None, p.end)
    else Step(lm, p.buf, Some(p.prio.error), p.end)
  }

  /** `VERSION SP`: Atoi of the bytes before the space; the scratch buffer is left alone. */
  function VersionStep(s: Bytes, i: nat, lm: LogMsg, buf: Bytes): (r: Step)
    requires i <= |s|
    ensures i <= r.end <= |s|
    ensures r.buf == buf
    ensures r.err.Some? ==> r.lm == lm
  {
    var f := UntilSpace(s, i);
    if f.err.Some? then Step(lm, buf, f.err, f.end)
    else
      var v := AtoiResult(f.bytes);
      if v.Err? then Step(lm, buf, Some(InvalidProtoVersion), f.end)
      else Step(lm.(protoVersion := v.value), buf, None, f.end)
  }

  /** A field that is empty or starts with '-' counts as NILVALUE. */
  predicate IsNil(f: Bytes)
  {
    |f| == 0 || f[0] == DASH
  }

  /** The record with one of the four byte fields set. */
  function SetField(lm: LogMsg, k: HeaderField, v: Bytes): LogMsg
  {
    match k
    case HostnameField => lm.(host := Some(v))
    case AppNameField => lm.(app := Some(v))
    case ProcIDField => lm.(pid := Some(v))
    case MsgIDField => lm.(msgID := Some(v))
  }

  /** The value of one of the four byte fields. */
  function GetField(lm: LogMsg, k: HeaderField): Option<Bytes>
  {
    match k
    case HostnameField => lm.host
    case AppNameField => lm.app
    case ProcIDField => lm.pid
    case MsgIDField => lm.msgID
  }

  /**
   * HOSTNAME, APP-NAME, PROCID or MSGID: the bytes before the next space,
   * into the scratch buffer; assigned unless they are NILVALUE.
   */
  function FieldStep(s: Bytes, i: nat, lm: LogMsg, k: HeaderField): (r: Step)
    requires i <= |s|
    ensures i <= r.end <= |s|
    ensures r.err.Some? || IsNil(r.buf) ==> r.lm == lm
    ensures SameBody(r.lm, lm)
  {
    var f := UntilSpace(s, i);
    if f.err.Some? then Step(lm, f.bytes, f.err, f.end)
    else if IsNil(f.bytes) then Step(lm, f.bytes, None, f.end)
    else Step(SetField(lm, k, f.bytes), f.bytes, None, f.end)
  }

  /**
   * TIMESTAMP: the bytes before the next space, into the scratch buffer;
   * unless they are NILVALUE, decoded as RFC 3339, and a failure to decode
   * is an invalid timestamp.
   */
  function TimestampStep(s: Bytes, i: nat, lm: LogMsg, parse: TimeParser): (r: Step)
    requires i <= |s|
    ensures i <= r.end <= |s|
    ensures r.err.Some? || IsNil(r.buf) ==> r.lm == lm
  {
    var f := UntilSpace(s, i);
    if f.err.Some? then Step(lm, f.bytes, f.err, f.end)
    else if IsNil(f.bytes) then Step(lm, f.bytes, None, f.end)
    else
      var t := parse(f.bytes);
      if t.None? then Step(lm, f.bytes, Some(InvalidTimestamp), f.end)
      else Step(lm.(timestamp := t), f.bytes, None, f.end)
  }

  /** The priority, the version and the timestamp, stopping at the first error. */
  function FrontOf(s: Bytes, i: nat, lm: LogMsg, buf: Bytes, parse: TimeParser): (r: Step)
    requires i <= |s|
    ensures i <= r.end <= |s|
    ensures SameBody(r.lm, lm)
  {
    var a := PriorityStep(s, i, lm);
    if a.err.Some? then a else
    var b := VersionStep(s, a.end, a.lm, a.buf);
    if b.err.Some? then b else
    TimestampStep(s, b.end, b.lm, parse)
  }

  /** HOSTNAME, APP-NAME, PROCID and MSGID, stopping at the first error. */
  function FieldsOf(s: Bytes, j: nat, lm: LogMsg): (r: Step)
    requires j <= |s|
    ensures j <= r.end <= |s|
    ensures SameBody(r.lm, lm)
  {
    var d := FieldStep(s, j, lm, HostnameField);
    if d.err.Some? then d else
    var e := FieldStep(s, d.end, d.lm, AppNameField);
    if e.err.Some? then e else
    var f := FieldStep(s, e.end, e.lm, ProcIDField);
    if f.err.Some? then f else
    FieldStep(s, f.end, f.lm, MsgIDField)
  }

  /** The header: priority, version, timestamp and the four fields, stopping at the first error. */
  function HeaderOf(s: Bytes, i: nat, lm: LogMsg, buf: Bytes, parse: TimeParser): (r: Step)
    requires i <= |s|
    ensures i <= r.end <= |s|
    ensures SameBody(r.lm, lm)
  {
    var c := FrontOf(s, i, lm, buf, parse);
    if c.err.Some? then c else FieldsOf(s, c.end, c.lm)
  }

  /**
   * The structured data: the record gets the elements when the loop
   * assigns them, and the scratch buffer is what the loop left in it.
   */
  function SDStep(s: Bytes, i: nat, lm: LogMsg): (r: Step)
    requires i <= |s|
    ensures i <= r.end <= |s|
    ensures r.err.Some? ==> r.lm == lm
    ensures r.lm == lm.(structuredData := r.lm.structuredData)
  {
    var o := StructuredDataOf(s, i);
    Step(if o.elems.Some? then lm.(structuredData := o.elems.value) else lm, o.buf, o.err, o.end)
  }

  /** The bytes of the frame: the `ml` bytes after the prefix, or fewer when the input ends first. */
  function Frame(input: Bytes, start: nat, ml: int): (w: Bytes)
    requires start <= |input|
    ensures start <= |w| <= |input| && w == input[..|w|]
  {
    input[..start + Clamp(ml, |input| - start)]
  }

  /**
   * The decode of a frame `w` from position `i` on: the header and the
   * structured data, with end of input reported as a premature end; then,
   * when at least 3 bytes are left, the byte order mark is looked for
   * without consuming it and the rest of the frame is appended to the
   * message. With fewer than 3 bytes left the decode succeeds as it is.
   */
  function DecodeFrame(w: Bytes, i: nat, lm: LogMsg, buf: Bytes, parse: TimeParser): (d: Decoded)
    requires i <= |w|
    ensures d.err != Some(EOF)
  {
    var h := HeaderOf(w, i, lm, buf, parse);
    if h.err.Some? then Decoded(h.lm, Some(MapEOF(h.err.value)), h.buf)
    else AfterHeader(w, h.end, h.lm)
  }

  /** What follows the header, from position `j`: the structured data, the byte order mark and the message. */
  function AfterHeader(w: Bytes, j: nat, lm: LogMsg): (d: Decoded)
    requires j <= |w|
    ensures d.err != Some(EOF)
    ensures d.err.Some? ==> d.lm == lm
    ensures d.lm.msgType == lm.msgType
  {
    var d := SDStep(w, j, lm);
    if d.err.Some? then Decoded(d.lm, Some(MapEOF(d.err.value)), d.buf)
    else if |w| - d.end < 3 then Decoded(d.lm, None, d.buf)
    else
      var body := w[d.end..];
      var msg := d.lm.message + body;
      Decoded(d.lm.(hasBOM := d.lm.hasBOM || body[..3] == BOM, message := msg, msgLength := |msg|),
              None, d.buf)
  }

  /**
   * A whole decode of `input`: the length prefix, whose error is returned
   * as it is, then the frame it announces, read from a fresh record.
   */
  function Decode(input: Bytes, buf: Bytes, parse: TimeParser): (d: Decoded)
    ensures d.err == Some(EOF) ==> MsgLengthOf(input, 0).0 == Err(EOF)
  {
    var m := MsgLengthOf(input, 0);
    if m.0.Err? then Decoded(EmptyLogMsg(RFC5424), Some(m.0.error), buf)
    else DecodeFrame(Frame(input, m.1, m.0.value), m.1, EmptyLogMsg(RFC5424), buf, parse)
  }

  // ---------------------------------------------------------------------
  // What the steps promise
  // ---------------------------------------------------------------------

  /** The parts of the record no header step touches are the same in `a` and `b`. */
  predicate SameBody(a: LogMsg, b: LogMsg)
  {
    a.msgType == b.msgType && a.message == b.message && a.msgLength == b.msgLength &&
    a.hasBOM == b.hasBOM && a.structuredData == b.structuredData
  }

  /**
   * A byte field is the bytes before the next space, into the scratch
   * buffer, with the space consumed; an empty field or one starting with
   * '-' leaves the record as it was, and any other is assigned verbatim to
   * its own field and to no other. With no space left the step reads to
   * end of input and fails with end of input.
   */
  lemma {:induction false} FieldStepSpec(s: Bytes, i: nat, lm: LogMsg, k: HeaderField)
    requires i <= |s|
    ensures var r := FieldStep(s, i, lm, k);
      (SP !in s[i..] ==> r == Step(lm, s[i..], Some(EOF), |s|)) &&
      (SP in s[i..] ==> r.err == None && s[i..r.end] == r.buf + [SP] && SP !in r.buf) &&
      (SP in s[i..] && IsNil(r.buf) ==> r.lm == lm) &&
      (SP in s[i..] && !IsNil(r.buf) ==>
         GetField(r.lm, k) == Some(r.buf) &&
         (forall k' :: k' != k ==> GetField(r.lm, k') == GetField(lm, k')) &&
         r.lm.(host := lm.host, app := lm.app, pid := lm.pid, msgID := lm.msgID) == lm)
  {
    UntilSpaceSpec(s, i);
  }

  /**
   * The timestamp field is read like a byte field; unless it is NILVALUE,
   * the record gets the decoded time, or the step fails with an invalid
   * timestamp and leaves the record as it was.
   */
  lemma {:induction false} TimestampStepSpec(s: Bytes, i: nat, lm: LogMsg, parse: TimeParser)
    requires i <= |s|
    ensures var r := TimestampStep(s, i, lm, parse);
      (SP !in s[i..] ==> r == Step(lm, s[i..], Some(EOF), |s|)) &&
      (SP in s[i..] ==> s[i..r.end] == r.buf + [SP] && SP !in r.buf) &&
      (SP in s[i..] && IsNil(r.buf) ==> r.err == None && r.lm == lm) &&
      (SP in s[i..] && !IsNil(r.buf) && parse(r.buf).None? ==>
         r.err == Some(InvalidTimestamp) && r.lm == lm) &&
      (SP in s[i..] && !IsNil(r.buf) && parse(r.buf).Some? ==>
         r.err == None && r.lm.timestamp == parse(r.buf) && r.lm.(timestamp := lm.timestamp) == lm)
  {
    UntilSpaceSpec(s, i);
  }

  /**
   * The version is Atoi of the bytes before the next space, whatever
   * integer that is; only a failing Atoi is an invalid version. The
   * scratch buffer is not touched.
   */
  lemma {:induction false} VersionStepSpec(s: Bytes, i: nat, lm: LogMsg, buf: Bytes)
    requires i <= |s|
    ensures var r := VersionStep(s, i, lm, buf);
      r.buf == buf &&
      (SP !in s[i..] ==> r == Step(lm, buf, Some(EOF), |s|)) &&
      (SP in s[i..] ==>
         var v := AtoiResult(s[i..r.end - 1]);
         i < r.end && s[r.end - 1] == SP && SP !in s[i..r.end - 1] &&
         (v.Err? ==> r.err == Some(InvalidProtoVersion) && r.lm == lm) &&
         (v.Ok? ==> r.err == None && r.lm == lm.(protoVersion := v.value)))
  {
    UntilSpaceSpec(s, i);
    var f := UntilSpace(s, i);
    if f.err == None {
      assert s[i..f.end - 1] == s[i..f.end][..|f.bytes|];
      assert s[i..f.end][|f.bytes|] == s[f.end - 1];
    }
  }

  /** Version 7 is read as 7: nothing asks for version 1. */
  lemma AnyVersion(lm: LogMsg, buf: Bytes)
    ensures VersionStep([0x37, 0x20], 0, lm, buf) == Step(lm.(protoVersion := 7), buf, None, 2)
  {
    var s: Bytes := [0x37, 0x20];
    IndexFromAt(s, 0, SP, 1);
    assert s[0..1] == [0x37];
    assert LastRejected([0x37]) == -1;
    assert PositionalValue([0x37]) == 7 by {
      assert [0x37 as byte][..0] == [];
    }
  }

  /** The errors a header step may end with. */
  predicate HeaderError(e: Option<Error>)
  {
    e.Some? ==> e.value in {EOF, WrongFormat, InvalidPrio, InvalidProtoVersion, InvalidTimestamp}
  }

  /** Each header step ends with a header error and leaves the body of the record alone. */
  lemma {:induction false} PriorityKeepsBody(s: Bytes, i: nat, lm: LogMsg)
    requires i <= |s|
    ensures var r := PriorityStep(s, i, lm); HeaderError(r.err) && SameBody(lm, r.lm)
  {
    PriorityOfSpec(s, i);
  }

  lemma {:induction false} VersionKeepsBody(s: Bytes, i: nat, lm: LogMsg, buf: Bytes)
    requires i <= |s|
    ensures var r := VersionStep(s, i, lm, buf); HeaderError(r.err) && SameBody(lm, r.lm)
  {
    UntilSpaceSpec(s, i);
  }

  lemma {:induction false} TimestampKeepsBody(s: Bytes, i: nat, lm: LogMsg, parse: TimeParser)
    requires i <= |s|
    ensures var r := TimestampStep(s, i, lm, parse); HeaderError(r.err) && SameBody(lm, r.lm)
  {
    UntilSpaceSpec(s, i);
  }

  lemma {:induction false} FieldKeepsBody(s: Bytes, i: nat, lm: LogMsg, k: HeaderField)
    requires i <= |s|
    ensures var r := FieldStep(s, i, lm, k); HeaderError(r.err) && SameBody(lm, r.lm)
  {
    UntilSpaceSpec(s, i);
  }

  /**
   * The header fails only with the errors of its steps: end of input, a
   * missing '<', an invalid priority, version or timestamp; and it leaves
   * the type, the structured data, the byte order mark and the message
   * of the record alone.
   */
  lemma {:induction false} HeaderSpec(s: Bytes, i: nat, lm: LogMsg, buf: Bytes, parse: TimeParser)
    requires i <= |s|
    ensures var r := HeaderOf(s, i, lm, buf, parse);
      HeaderError(r.err) && SameBody(lm, r.lm)
  {
    var a := PriorityStep(s, i, lm);
    PriorityKeepsBody(s, i, lm);
    if a.err.None? {
      var b := VersionStep(s, a.end, a.lm, a.buf);
      VersionKeepsBody(s, a.end, a.lm, a.buf);
      if b.err.None? {
        var c := TimestampStep(s, b.end, b.lm, parse);
        TimestampKeepsBody(s, b.end, b.lm, parse);
        if c.err.None? {
          var d := FieldStep(s, c.end, c.lm, HostnameField);
          FieldKeepsBody(s, c.end, c.lm, HostnameField);
          if d.err.None? {
            var e := FieldStep(s, d.end, d.lm, AppNameField);
            FieldKeepsBody(s, d.end, d.lm, AppNameField);
            if e.err.None? {
              var f := FieldStep(s, e.end, e.lm, ProcIDField);
              FieldKeepsBody(s, e.end, e.lm, ProcIDField);
              if f.err.None? {
                FieldKeepsBody(s, f.end, f.lm, MsgIDField);
              }
            }
          }
        }
      }
    }
  }

  /** The errors a frame may end with: the header's and the structured data's, end of input made premature. */
  predicate FrameError(e: Option<Error>)
  {
    e.Some? ==> e.value in {PrematureEOF, WrongFormat, InvalidPrio, InvalidProtoVersion, InvalidTimestamp, WrongSDFormat}
  }

  /** Appending a body of at least 3 bytes to an empty message marks the byte order mark by the message's own start. */
  lemma {:induction false} BodyAppended(lm: LogMsg, body: Bytes)
    requires lm.message == [] && !lm.hasBOM && 3 <= |body|
    ensures var msg := lm.message + body;
      var r := lm.(hasBOM := lm.hasBOM || body[..3] == BOM, message := msg, msgLength := |msg|);
      3 <= |r.message| == r.msgLength && r.hasBOM == (r.message[..3] == BOM)
  {
    assert lm.message + body == body;
  }

  /** Which step's error a frame decode reports, and the message it takes from the rest of the frame. */
  lemma {:induction false} DecodeFrameSteps(w: Bytes, i: nat, lm: LogMsg, buf: Bytes, parse: TimeParser)
    requires i <= |w|
    requires lm.message == [] && lm.msgLength == 0 && !lm.hasBOM
    ensures var h := HeaderOf(w, i, lm, buf, parse); var d := DecodeFrame(w, i, lm, buf, parse);
      h.err.Some? ==> d.err == Some(MapEOF(h.err.value))
    ensures var h := HeaderOf(w, i, lm, buf, parse); var d := DecodeFrame(w, i, lm, buf, parse);
      h.err.None? ==>
        var sd := SDStep(w, h.end, h.lm);
        (sd.err.Some? ==> d.err == Some(MapEOF(sd.err.value))) &&
        (sd.err.None? ==>
           d.err.None? && d.lm.(message := [], msgLength := 0, hasBOM := false) == sd.lm &&
           d.lm.message == (if |w| - sd.end >= 3 then w[sd.end..] else []))
    ensures var d := DecodeFrame(w, i, lm, buf, parse);
      d.err.None? ==> |d.lm.message| <= |w| && d.lm.message == w[|w| - |d.lm.message|..]
  {
    HeaderSpec(w, i, lm, buf, parse);
    if HeaderOf(w, i, lm, buf, parse).err.None? {
      AfterHeaderSteps(w, HeaderOf(w, i, lm, buf, parse).end, HeaderOf(w, i, lm, buf, parse).lm);
    }
  }

  /** What follows the header: the structured data's error, or its record with the rest of the frame as message. */
  lemma {:induction false} AfterHeaderSteps(w: Bytes, j: nat, lm: LogMsg)
    requires j <= |w|
    requires lm.message == [] && lm.msgLength == 0 && !lm.hasBOM
    ensures var sd := SDStep(w, j, lm); var d := AfterHeader(w, j, lm);
      (sd.err.Some? ==> d.err == Some(MapEOF(sd.err.value))) &&
      (sd.err.None? ==>
         d.err.None? && d.lm.(message := [], msgLength := 0, hasBOM := false) == sd.lm &&
         d.lm.message == (if |w| - sd.end >= 3 then w[sd.end..] else []))
    ensures var d := AfterHeader(w, j, lm);
      d.err.None? ==> |d.lm.message| <= |w| && d.lm.message == w[|w| - |d.lm.message|..]
  {
    var sd := SDStep(w, j, lm);
    assert w[sd.end..] == w[|w| - |w[sd.end..]|..];
    assert [] == w[|w| - 0..];
  }

  /**
   * A frame decoded into a record with no message either fails with a
   * frame error, or leaves the message empty, when fewer than 3 bytes
   * followed the structured data, or sets a message of at least 3 bytes
   * whose length is its message length and which starts with the byte
   * order mark exactly when the record says so. The type is kept.
   * A header error is the decode's error, end of input made premature;
   * otherwise so is a structured-data error; and a decode without error
   * has the record and the elements the structured data left, and as
   * message all the rest of the frame when at least 3 bytes are left.
   */
  lemma {:induction false} DecodeFrameSpec(w: Bytes, i: nat, lm: LogMsg, buf: Bytes, parse: TimeParser)
    requires i <= |w|
    requires lm.message == [] && lm.msgLength == 0 && !lm.hasBOM
    ensures var d := DecodeFrame(w, i, lm, buf, parse);
      FrameError(d.err) && d.lm.msgType == lm.msgType &&
      (d.err.None? ==>
         (d.lm.message == [] && d.lm.msgLength == 0 && !d.lm.hasBOM) ||
         (3 <= |d.lm.message| == d.lm.msgLength && d.lm.hasBOM == (d.lm.message[..3] == BOM)))
    ensures var h := HeaderOf(w, i, lm, buf, parse); var d := DecodeFrame(w, i, lm, buf, parse);
      h.err.Some? ==> d.err == Some(MapEOF(h.err.value))
    ensures var h := HeaderOf(w, i, lm, buf, parse); var d := DecodeFrame(w, i, lm, buf, parse);
      h.err.None? ==>
        var sd := SDStep(w, h.end, h.lm);
        (sd.err.Some? ==> d.err == Some(MapEOF(sd.err.value))) &&
        (sd.err.None? ==>
           d.err.None? && d.lm.(message := [], msgLength := 0, hasBOM := false) == sd.lm &&
           d.lm.message == (if |w| - sd.end >= 3 then w[sd.end..] else []))
    ensures var d := DecodeFrame(w, i, lm, buf, parse);
      d.err.None? ==> |d.lm.message| <= |w| && d.lm.message == w[|w| - |d.lm.message|..]
  {
    DecodeFrameSteps(w, i, lm, buf, parse);
    var h := HeaderOf(w, i, lm, buf, parse);
    HeaderSpec(w, i, lm, buf, parse);
    if h.err.None? {
      var d := SDStep(w, h.end, h.lm);
      StructuredDataSpec(w, h.end);
      assert d.err.Some? ==> d.err.value in {EOF, WrongSDFormat};
      assert d.lm.message == [] && !d.lm.hasBOM && d.lm.msgType == lm.msgType;
      if d.err.None? && |w| - d.end >= 3 {
        BodyAppended(d.lm, w[d.end..]);
      }
    }
  }

  /**
   * A decode fails only with the length prefix's own errors, end of input
   * or an inconvertible byte, or with a frame error; a raw end of input
   * means the input holds no space at all. A decoded record has the
   * RFC 5424 type, and either no message at all or a message of at least
   * 3 bytes whose length is its message length and which starts with the
   * byte order mark exactly when the record says so. A length prefix that
   * fails leaves a fresh record with its error.
   */
  lemma {:induction false} DecodeSpec(input: Bytes, buf: Bytes, parse: TimeParser)
    ensures var d := Decode(input, buf, parse);
      d.err.Some? ==> d.err.value.NotANumber? || d.err.value == EOF || FrameError(d.err)
    ensures var d := Decode(input, buf, parse);
      d.err == Some(EOF) ==> SP !in input
    ensures var d := Decode(input, buf, parse);
      d.lm.msgType == RFC5424 &&
      (d.err.None? ==>
         (d.lm.message == [] && d.lm.msgLength == 0 && !d.lm.hasBOM) ||
         (3 <= |d.lm.message| == d.lm.msgLength && d.lm.hasBOM == (d.lm.message[..3] == BOM)))
    ensures var m := MsgLengthOf(input, 0); var d := Decode(input, buf, parse);
      m.0.Err? ==> d.err == Some(m.0.error) && d.lm == EmptyLogMsg(RFC5424)
  {
    var m := MsgLengthOf(input, 0);
    MsgLengthSpec(input, 0);
    if m.0.Ok? {
      DecodeFrameSpec(Frame(input, m.1, m.0.value), m.1, EmptyLogMsg(RFC5424), buf, parse);
    } else {
      assert input[0..] == input;
    }
  }

  /** A decode without error took its message from the end of the frame the length prefix announced. */
  lemma {:induction false} DecodeMessageEndsFrame(input: Bytes, buf: Bytes, parse: TimeParser)
    ensures var m := MsgLengthOf(input, 0); var d := Decode(input, buf, parse);
      d.err.None? ==>
        m.0.Ok? && var f := Frame(input, m.1, m.0.value);
        |d.lm.message| <= |f| && d.lm.message == f[|f| - |d.lm.message|..]
  {
    var m := MsgLengthOf(input, 0);
    if m.0.Ok? {
      DecodeFrameSteps(Frame(input, m.1, m.0.value), m.1, EmptyLogMsg(RFC5424), buf, parse);
    }
  }

  /**
   * Bytes after the announced frame are never read: once the input holds
   * the length prefix and the whole frame, appending to it changes nothing.
   */
  lemma {:induction false} FrameLimited(input: Bytes, extra: Bytes, buf: Bytes, parse: TimeParser)
    requires MsgLengthOf(input, 0).0.Ok?
    requires MsgLengthOf(input, 0).1 + MsgLengthOf(input, 0).0.value <= |input|
    ensures Decode(input + extra, buf, parse) == Decode(input, buf, parse)
  {
    var s := input + extra;
    var k := IndexFrom(input, 0, SP);
    IndexFromFirst(input, 0, SP);
    IndexFromAt(s, 0, SP, k);
    assert s[0..k] == input[0..k];
    assert MsgLengthOf(s, 0) == MsgLengthOf(input, 0);
    var m := MsgLengthOf(input, 0);
    assert Frame(s, m.1, m.0.value) == Frame(input, m.1, m.0.value);
  }

  // ---------------------------------------------------------------------
  // Reading back a laid-out header
  // ---------------------------------------------------------------------

  /** The text of a header: the bytes between the brackets and the six space-terminated fields. */
  datatype HeaderText = HeaderText(pri: Bytes, version: Bytes, timestamp: Bytes, hostname: Bytes,
                                   appName: Bytes, procID: Bytes, msgID: Bytes)

  /** `<PRI>VERSION SP TIMESTAMP SP HOSTNAME SP APP-NAME SP PROCID SP MSGID SP`. */
  function HeaderBytes(h: HeaderText): Bytes
  {
    [LANGLE] + h.pri + [RANGLE] +
    (h.version + [SP] + (h.timestamp + [SP] + (h.hostname + [SP] +
    (h.appName + [SP] + (h.procID + [SP] + (h.msgID + [SP]))))))
  }

  /**
   * A header whose parts read back: no '>' in the priority and no space in
   * a field, a priority and a version Atoi converts, and a timestamp that
   * is NILVALUE or decodes.
   */
  predicate WellFormed(h: HeaderText, parse: TimeParser)
  {
    RANGLE !in h.pri && AtoiResult(h.pri).Ok? &&
    SP !in h.version && AtoiResult(h.version).Ok? &&
    SP !in h.timestamp && (IsNil(h.timestamp) || parse(h.timestamp).Some?) &&
    SP !in h.hostname && SP !in h.appName && SP !in h.procID && SP !in h.msgID
  }

  /** A byte field as the record keeps it: unchanged for NILVALUE, otherwise the bytes. */
  function NilOr(f: Option<Bytes>, v: Bytes): Option<Bytes>
  {
    if IsNil(v) then f else Some(v)
  }

  /** The position after a field that starts at `j` and its space. */
  function After(j: nat, x: Bytes): nat
  {
    j + |x| + 1
  }

  /** The parts of a header laid out one after another from position `i`. */
  predicate HeaderAt(s: Bytes, i: nat, h: HeaderText)
  {
    var j1 := i + |h.pri| + 2;
    var j2 := After(j1, h.version);
    var j3 := After(j2, h.timestamp);
    var j4 := After(j3, h.hostname);
    var j5 := After(j4, h.appName);
    var j6 := After(j5, h.procID);
    BracketedAt(s, i, h.pri) && SpacedAt(s, j1, h.version) && SpacedAt(s, j2, h.timestamp) &&
    SpacedAt(s, j3, h.hostname) && SpacedAt(s, j4, h.appName) && SpacedAt(s, j5, h.procID) &&
    SpacedAt(s, j6, h.msgID)
  }

  /** Three spaced fields laid out one after another, then `r`. */
  lemma {:induction false} SpacedThree(s: Bytes, j: nat, k: nat, x: Bytes, y: Bytes, z: Bytes, r: Bytes)
    requires j <= k <= |s| && s[j..k] == x + [SP] + (y + [SP] + (z + [SP] + r))
    ensures SpacedAt(s, j, x) && SpacedAt(s, After(j, x), y) && SpacedAt(s, After(After(j, x), y), z)
    ensures s[After(After(After(j, x), y), z)..k] == r
  {
    SpacedSplit(s, j, k, x, y + [SP] + (z + [SP] + r));
    SpacedSplit(s, After(j, x), k, y, z + [SP] + r);
    SpacedSplit(s, After(After(j, x), y), k, z, r);
  }

  /** The last three fields of a header, laid out up to `k`. */
  lemma {:induction false} SpacedThreeEnd(s: Bytes, j: nat, k: nat, x: Bytes, y: Bytes, z: Bytes)
    requires j <= k <= |s| && s[j..k] == x + [SP] + (y + [SP] + (z + [SP]))
    ensures SpacedAt(s, j, x) && SpacedAt(s, After(j, x), y) && SpacedAt(s, After(After(j, x), y), z)
  {
    assert z + [SP] == z + [SP] + [];
    SpacedThree(s, j, k, x, y, z, []);
  }

  /** `<PRI>` and three spaced fields laid out one after another, then `r`. */
  lemma {:induction false} HeaderFront(s: Bytes, i: nat, k: nat, d: Bytes, x: Bytes, y: Bytes, z: Bytes, r: Bytes)
    requires i <= k <= |s| && s[i..k] == [LANGLE] + d + [RANGLE] + (x + [SP] + (y + [SP] + (z + [SP] + r)))
    ensures BracketedAt(s, i, d)
    ensures var j1 := i + |d| + 2;
      SpacedAt(s, j1, x) && SpacedAt(s, After(j1, x), y) && SpacedAt(s, After(After(j1, x), y), z) &&
      s[After(After(After(j1, x), y), z)..k] == r
  {
    BracketedSplit(s, i, k, d, x + [SP] + (y + [SP] + (z + [SP] + r)));
    SpacedThree(s, i + |d| + 2, k, x, y, z, r);
  }

  /** The header's bytes at position `i` lay its parts out one after another. */
  lemma {:induction false} HeaderLayout(s: Bytes, i: nat, h: HeaderText)
    requires i + |HeaderBytes(h)| <= |s| && s[i..i + |HeaderBytes(h)|] == HeaderBytes(h)
    ensures HeaderAt(s, i, h)
  {
    var k := i + |HeaderBytes(h)|;
    HeaderFront(s, i, k, h.pri, h.version, h.timestamp, h.hostname,
                h.appName + [SP] + (h.procID + [SP] + (h.msgID + [SP])));
    SpacedThreeEnd(s, After(After(After(i + |h.pri| + 2, h.version), h.timestamp), h.hostname), k,
                   h.appName, h.procID, h.msgID);
  }

  lemma {:induction false} PriorityStepAt(s: Bytes, i: nat, lm: LogMsg, d: Bytes)
    requires BracketedAt(s, i, d) && RANGLE !in d && AtoiResult(d).Ok?
    ensures PriorityStep(s, i, lm) == Step(WithPriority(lm, AtoiResult(d).value), d, None, i + |d| + 2)
  {
    PriorityAt(s, i, d);
  }

  lemma {:induction false} VersionStepAt(s: Bytes, j: nat, lm: LogMsg, buf: Bytes, v: Bytes)
    requires SpacedAt(s, j, v) && SP !in v && AtoiResult(v).Ok?
    ensures VersionStep(s, j, lm, buf) == Step(lm.(protoVersion := AtoiResult(v).value), buf, None, After(j, v))
  {
    UntilSpaceAt(s, j, v);
  }

  lemma {:induction false} TimestampStepAt(s: Bytes, j: nat, lm: LogMsg, parse: TimeParser, t: Bytes)
    requires SpacedAt(s, j, t) && SP !in t && (IsNil(t) || parse(t).Some?)
    ensures TimestampStep(s, j, lm, parse) ==
            Step(lm.(timestamp := if IsNil(t) then lm.timestamp else parse(t)), t, None, After(j, t))
  {
    UntilSpaceAt(s, j, t);
  }

  /** A byte field as a step records it: left alone for NILVALUE, otherwise set. */
  function WithField(lm: LogMsg, k: HeaderField, v: Bytes): LogMsg
  {
    if IsNil(v) then lm else SetField(lm, k, v)
  }

  lemma {:induction false} FieldStepAt(s: Bytes, j: nat, lm: LogMsg, k: HeaderField, x: Bytes)
    requires SpacedAt(s, j, x) && SP !in x
    ensures FieldStep(s, j, lm, k) == Step(WithField(lm, k, x), x, None, After(j, x))
  {
    UntilSpaceAt(s, j, x);
  }

  /** The record after the priority and the version of a header. */
  function Versioned(lm: LogMsg, h: HeaderText): LogMsg
    requires AtoiResult(h.pri).Ok? && AtoiResult(h.version).Ok?
  {
    WithPriority(lm, AtoiResult(h.pri).value).(protoVersion := AtoiResult(h.version).value)
  }

  function FrontRecord(lm: LogMsg, h: HeaderText, parse: TimeParser): LogMsg
    requires AtoiResult(h.pri).Ok? && AtoiResult(h.version).Ok?
  {
    var lm2 := Versioned(lm, h);
    lm2.(timestamp := if IsNil(h.timestamp) then lm2.timestamp else parse(h.timestamp))
  }

  /** The record after the four byte fields of a well-formed header, in the order they are read. */
  function FieldsRecord(lm: LogMsg, h: HeaderText): LogMsg
  {
    WithField(WithField(WithField(WithField(lm, HostnameField, h.hostname), AppNameField, h.appName),
                        ProcIDField, h.procID), MsgIDField, h.msgID)
  }

  /** The record after a well-formed header. */
  function HeaderRecord(lm: LogMsg, h: HeaderText, parse: TimeParser): LogMsg
    requires AtoiResult(h.pri).Ok? && AtoiResult(h.version).Ok?
  {
    FieldsRecord(FrontRecord(lm, h, parse), h)
  }

  /** Where the byte fields of a header laid out from `i` start. */
  function FieldsStart(i: nat, h: HeaderText): nat
  {
    After(After(i + |h.pri| + 2, h.version), h.timestamp)
  }

  /** The position right after a header laid out from `i`. */
  function HeaderEnd(i: nat, h: HeaderText): nat
  {
    After(After(After(After(FieldsStart(i, h), h.hostname), h.appName), h.procID), h.msgID)
  }

  /** The priority, the version and the timestamp of a well-formed header, read from `i`. */
  lemma {:induction false} FrontReads(s: Bytes, i: nat, lm: LogMsg, buf: Bytes, parse: TimeParser, h: HeaderText)
    requires BracketedAt(s, i, h.pri) && RANGLE !in h.pri && AtoiResult(h.pri).Ok?
    requires SpacedAt(s, i + |h.pri| + 2, h.version) && SP !in h.version && AtoiResult(h.version).Ok?
    requires SpacedAt(s, After(i + |h.pri| + 2, h.version), h.timestamp) && SP !in h.timestamp
    requires IsNil(h.timestamp) || parse(h.timestamp).Some?
    ensures FrontOf(s, i, lm, buf, parse) == Step(FrontRecord(lm, h, parse), h.timestamp, None, FieldsStart(i, h))
  {
    PriVersionReads(s, i, lm, h);
    TimestampStepAt(s, After(i + |h.pri| + 2, h.version), Versioned(lm, h), parse, h.timestamp);
  }

  /** The priority and the version of a well-formed header, read from `i`. */
  lemma PriVersionReads(s: Bytes, i: nat, lm: LogMsg, h: HeaderText)
    requires BracketedAt(s, i, h.pri) && RANGLE !in h.pri && AtoiResult(h.pri).Ok?
    requires SpacedAt(s, i + |h.pri| + 2, h.version) && SP !in h.version && AtoiResult(h.version).Ok?
    ensures PriorityStep(s, i, lm).err.None?
    ensures VersionStep(s, PriorityStep(s, i, lm).end, PriorityStep(s, i, lm).lm, PriorityStep(s, i, lm).buf) ==
            Step(Versioned(lm, h), h.pri, None, After(i + |h.pri| + 2, h.version))
  {
    PriorityStepAt(s, i, lm, h.pri);
    VersionedAt(s, i + |h.pri| + 2, lm, h);
  }

  /** The version of a header after its priority. */
  lemma VersionedAt(s: Bytes, j: nat, lm: LogMsg, h: HeaderText)
    requires SpacedAt(s, j, h.version) && SP !in h.version && AtoiResult(h.pri).Ok? && AtoiResult(h.version).Ok?
    ensures VersionStep(s, j, WithPriority(lm, AtoiResult(h.pri).value), h.pri) ==
            Step(Versioned(lm, h), h.pri, None, After(j, h.version))
  {
    VersionStepAt(s, j, WithPriority(lm, AtoiResult(h.pri).value), h.pri, h.version);
  }

  /** The four byte fields of a well-formed header laid out from `j`, read into `lm`. */
  lemma {:induction false} FieldsReads(s: Bytes, j: nat, lm: LogMsg, h: HeaderText)
    requires SpacedAt(s, j, h.hostname) && SpacedAt(s, After(j, h.hostname), h.appName)
    requires SpacedAt(s, After(After(j, h.hostname), h.appName), h.procID)
    requires SpacedAt(s, After(After(After(j, h.hostname), h.appName), h.procID), h.msgID)
    requires SP !in h.hostname && SP !in h.appName && SP !in h.procID && SP !in h.msgID
    ensures FieldsOf(s, j, lm) ==
            Step(FieldsRecord(lm, h), h.msgID, None, After(After(After(After(j, h.hostname), h.appName), h.procID), h.msgID))
  {
    FieldStepAt(s, j, lm, HostnameField, h.hostname);
    FieldStepAt(s, After(j, h.hostname), WithField(lm, HostnameField, h.hostname), AppNameField, h.appName);
    FieldStepAt(s, After(After(j, h.hostname), h.appName),
                WithField(WithField(lm, HostnameField, h.hostname), AppNameField, h.appName), ProcIDField, h.procID);
    FieldStepAt(s, After(After(After(j, h.hostname), h.appName), h.procID),
                WithField(WithField(WithField(lm, HostnameField, h.hostname), AppNameField, h.appName),
                          ProcIDField, h.procID), MsgIDField, h.msgID);
  }

  /** A well-formed header laid out from position `i` is read step by step into the record. */
  lemma {:induction false} HeaderReads(s: Bytes, i: nat, lm: LogMsg, buf: Bytes, parse: TimeParser, h: HeaderText)
    requires HeaderAt(s, i, h) && WellFormed(h, parse)
    ensures HeaderOf(s, i, lm, buf, parse) == Step(HeaderRecord(lm, h, parse), h.msgID, None, HeaderEnd(i, h))
  {
    FrontReads(s, i, lm, buf, parse, h);
    FieldsReads(s, FieldsStart(i, h), FrontRecord(lm, h, parse), h);
  }

  /**
   * The record a well-formed header gives holds the priority with its
   * facility and severity, the version, the timestamp unless it is
   * NILVALUE, and each byte field unless it is NILVALUE; every other part
   * of the record is as it was.
   */
  lemma {:induction false} HeaderRecordFields(lm: LogMsg, h: HeaderText, parse: TimeParser)
    requires AtoiResult(h.pri).Ok? && AtoiResult(h.version).Ok?
    ensures HeaderRecord(lm, h, parse) ==
            WithPriority(lm, AtoiResult(h.pri).value).(
              protoVersion := AtoiResult(h.version).value,
              timestamp := if IsNil(h.timestamp) then lm.timestamp else parse(h.timestamp),
              host := NilOr(lm.host, h.hostname), app := NilOr(lm.app, h.appName),
              pid := NilOr(lm.pid, h.procID), msgID := NilOr(lm.msgID, h.msgID))
  {
  }

  /**
   * A well-formed header, laid out at position `i`, reads back as its
   * parts: the priority with its facility and severity, the version, the
   * timestamp unless it is NILVALUE, and each byte field unless it is
   * NILVALUE; reading stops right after it and leaves the MSGID in the
   * scratch buffer. Nothing else in the record changes.
   */
  lemma {:induction false} HeaderRoundTrip(s: Bytes, i: nat, lm: LogMsg, buf: Bytes, parse: TimeParser, h: HeaderText)
    requires i + |HeaderBytes(h)| <= |s| && s[i..i + |HeaderBytes(h)|] == HeaderBytes(h)
    requires WellFormed(h, parse)
    ensures var r := HeaderOf(s, i, lm, buf, parse);
      r.err == None && r.buf == h.msgID && r.end == i + |HeaderBytes(h)| &&
      r.lm == WithPriority(lm, AtoiResult(h.pri).value).(
                protoVersion := AtoiResult(h.version).value,
                timestamp := if IsNil(h.timestamp) then lm.timestamp else parse(h.timestamp),
                host := NilOr(lm.host, h.hostname), app := NilOr(lm.app, h.appName),
                pid := NilOr(lm.pid, h.procID), msgID := NilOr(lm.msgID, h.msgID))
  {
    HeaderLayout(s, i, h);
    HeaderReads(s, i, lm, buf, parse, h);
    HeaderRecordFields(lm, h, parse);
  }

  // ---------------------------------------------------------------------
  // Reading back a laid-out frame
  // ---------------------------------------------------------------------

  /**
   * The record once the structured data `es` and the rest of the frame,
   * `body`, are read into `lm`: the body becomes the message only when it
   * has at least 3 bytes, and the byte order mark is seen at its start.
   */
  function BodyRecord(lm: LogMsg, es: seq<SDElement>, body: Bytes): LogMsg
  {
    var msg := if |body| >= 3 then body else [];
    lm.(structuredData := es, message := msg, msgLength := |msg|, hasBOM := |body| >= 3 && body[..3] == BOM)
  }

  /** A run `x + y + [SP] + z` at the end of `w`, from `i`, is `x` up to `e`, `y` and a space up to `e2`, then `z`. */
  lemma {:induction false} FrameLayout(w: Bytes, i: nat, x: Bytes, y: Bytes, z: Bytes, e: nat, e2: nat)
    requires i <= |w| && w[i..] == x + y + [SP] + z
    requires e == i + |x| && e2 == e + |y| + 1
    ensures e2 <= |w| && w[i..e] == x && w[e..e + |y|] == y && w[e + |y|] == SP && w[e2..] == z
  {
    SplitRun(w, i, x, y);
    assert w[e + |y|] == w[i..][|x| + |y|];
    assert w[e2..] == w[i..][|x| + |y| + 1..];
  }

  /** A header read up to `e` and elements read from `e` up to `e2`, into a record with no message, leave the body for the message. */
  lemma {:induction false} HeaderThenData(w: Bytes, i: nat, lm: LogMsg, buf: Bytes, parse: TimeParser,
                                          r: LogMsg, b: Bytes, e: nat, es: seq<SDElement>, e2: nat)
    requires i <= e <= e2 <= |w|
    requires HeaderOf(w, i, lm, buf, parse) == Step(r, b, None, e)
    requires StructuredDataOf(w, e) == SDOutcome(Some(es), [], None, e2)
    requires r.message == [] && r.msgLength == 0 && !r.hasBOM
    ensures DecodeFrame(w, i, lm, buf, parse) == Decoded(BodyRecord(r, es, w[e2..]), None, [])
  {
    DataThenBody(w, e, r, es, e2);
  }

  /** Elements read from `e` up to `e2`, into a record with no message, leave the rest of the frame for the message. */
  lemma {:induction false} DataThenBody(w: Bytes, e: nat, r: LogMsg, es: seq<SDElement>, e2: nat)
    requires e <= e2 <= |w|
    requires StructuredDataOf(w, e) == SDOutcome(Some(es), [], None, e2)
    requires r.message == [] && r.msgLength == 0 && !r.hasBOM
    ensures AfterHeader(w, e, r) == Decoded(BodyRecord(r, es, w[e2..]), None, [])
  {
    assert SDStep(w, e, r) == Step(r.(structuredData := es), [], None, e2);
  }

  /** After a header read up to `e`, plain elements and a space from `e` to `e2` leave the rest for the body. */
  lemma {:induction false} DataReads(w: Bytes, i: nat, lm: LogMsg, buf: Bytes, parse: TimeParser,
                                     r: LogMsg, b: Bytes, e: nat, es: seq<SDElement>, e2: nat)
    requires e + |Encode(es)| < |w| && w[e..e + |Encode(es)|] == Encode(es) && w[e + |Encode(es)|] == SP
    requires e2 == e + |Encode(es)| + 1
    requires i <= e && HeaderOf(w, i, lm, buf, parse) == Step(r, b, None, e)
    requires r.message == [] && r.msgLength == 0 && !r.hasBOM
    requires |es| > 0 && forall x :: x in es ==> Plain(x)
    ensures DecodeFrame(w, i, lm, buf, parse) == Decoded(BodyRecord(r, es, w[e2..]), None, [])
  {
    EncodeAt(w, e, es);
    HeaderThenData(w, i, lm, buf, parse, r, b, e, es, e2);
  }

  /** A well-formed header laid out from `i` is read up to its last byte, into the header's record. */
  lemma {:induction false} HeaderReadsTo(s: Bytes, i: nat, lm: LogMsg, buf: Bytes, parse: TimeParser, h: HeaderText)
    requires i + |HeaderBytes(h)| <= |s| && s[i..i + |HeaderBytes(h)|] == HeaderBytes(h)
    requires WellFormed(h, parse)
    ensures HeaderOf(s, i, lm, buf, parse) == Step(HeaderRecord(lm, h, parse), h.msgID, None, i + |HeaderBytes(h)|)
    ensures SameBody(HeaderRecord(lm, h, parse), lm)
  {
    HeaderLayout(s, i, h);
    HeaderReads(s, i, lm, buf, parse, h);
    assert HeaderEnd(i, h) == i + |HeaderBytes(h)|;
    HeaderRecordFields(lm, h, parse);
  }

  /** A well-formed header from `i` to `e`, then plain elements and a space up to `e2`, read back up to the body. */
  lemma {:induction false} FrameReads(w: Bytes, i: nat, lm: LogMsg, buf: Bytes, parse: TimeParser,
                                      h: HeaderText, es: seq<SDElement>, body: Bytes, e: nat, e2: nat)
    requires WellFormed(h, parse) && |es| > 0 && forall x :: x in es ==> Plain(x)
    requires lm.message == [] && lm.msgLength == 0 && !lm.hasBOM
    requires e == i + |HeaderBytes(h)| && e2 == e + |Encode(es)| + 1 && e2 <= |w|
    requires w[i..e] == HeaderBytes(h) && w[e..e + |Encode(es)|] == Encode(es) && w[e + |Encode(es)|] == SP
    requires w[e2..] == body
    ensures DecodeFrame(w, i, lm, buf, parse) == Decoded(BodyRecord(HeaderRecord(lm, h, parse), es, body), None, [])
  {
    HeaderReadsTo(w, i, lm, buf, parse, h);
    DataReads(w, i, lm, buf, parse, HeaderRecord(lm, h, parse), h.msgID, e, es, e2);
  }

  /**
   * A frame laid out as a well-formed header, plain structured data, a
   * space and a body decodes without error into the header's record with
   * those elements; the body is the message exactly when it has at least
   * 3 bytes, and the scratch buffer ends empty.
   */
  lemma {:induction false} FrameRoundTrip(w: Bytes, i: nat, lm: LogMsg, buf: Bytes, parse: TimeParser,
                                          h: HeaderText, es: seq<SDElement>, body: Bytes)
    requires WellFormed(h, parse) && |es| > 0 && forall e :: e in es ==> Plain(e)
    requires lm.message == [] && lm.msgLength == 0 && !lm.hasBOM
    requires i <= |w| && w[i..] == HeaderBytes(h) + Encode(es) + [SP] + body
    ensures DecodeFrame(w, i, lm, buf, parse) == Decoded(BodyRecord(HeaderRecord(lm, h, parse), es, body), None, [])
  {
    FrameLayout(w, i, HeaderBytes(h), Encode(es), body, i + |HeaderBytes(h)|, i + |HeaderBytes(h)| + |Encode(es)| + 1);
    FrameReads(w, i, lm, buf, parse, h, es, body, i + |HeaderBytes(h)|, i + |HeaderBytes(h)| + |Encode(es)| + 1);
  }

  /** A length prefix that announces exactly the rest of the input decodes all of it as the frame. */
  lemma {:induction false} DecodeWhole(input: Bytes, buf: Bytes, parse: TimeParser, digits: Bytes, frame: Bytes)
    requires input == digits + [SP] + frame
    requires MsgLengthOf(input, 0) == (Ok(|frame|), |digits| + 1)
    ensures input[|digits| + 1..] == frame
    ensures Decode(input, buf, parse) == DecodeFrame(input, |digits| + 1, EmptyLogMsg(RFC5424), buf, parse)
  {
    assert Frame(input, |digits| + 1, |frame|) == input;
  }

  /** A prefixed frame decodes into the record its header, elements and body give a fresh record. */
  lemma {:induction false} DecodesToRecord(h: HeaderText, es: seq<SDElement>, body: Bytes, buf: Bytes,
                                           parse: TimeParser, frame: Bytes)
    requires WellFormed(h, parse) && |es| > 0 && forall e :: e in es ==> Plain(e)
    requires frame == HeaderBytes(h) + Encode(es) + [SP] + body
    ensures Decode(DecimalDigits(|frame|) + [SP] + frame, buf, parse) ==
            Decoded(BodyRecord(HeaderRecord(EmptyLogMsg(RFC5424), h, parse), es, body), None, [])
  {
    MsgLengthRoundTrip(|frame|, frame);
    DecodeWhole(DecimalDigits(|frame|) + [SP] + frame, buf, parse, DecimalDigits(|frame|), frame);
    FrameRoundTrip(DecimalDigits(|frame|) + [SP] + frame, |DecimalDigits(|frame|)| + 1,
                   EmptyLogMsg(RFC5424), buf, parse, h, es, body);
  }

  /**
   * Encoding a message and decoding it gives it back: a well-formed
   * header, plain structured data, a space and a body, prefixed with
   * their length in decimal and a space, decode without error into a
   * fresh RFC 5424 record holding the priority with its facility and
   * severity, the version, the timestamp and the byte fields unless they
   * are NILVALUE, the elements, and the body as message when it has at
   * least 3 bytes, with its length and whether it starts with the byte
   * order mark.
   */
  lemma {:induction false} DecodeRoundTrip(h: HeaderText, es: seq<SDElement>, body: Bytes, buf: Bytes, parse: TimeParser)
    requires WellFormed(h, parse) && |es| > 0 && forall e :: e in es ==> Plain(e)
    ensures var frame := HeaderBytes(h) + Encode(es) + [SP] + body;
      var d := Decode(DecimalDigits(|frame|) + [SP] + frame, buf, parse);
      var p := AtoiResult(h.pri).value;
      var msg := if |body| >= 3 then body else [];
      d.err == None && d.buf == [] &&
      d.lm == LogMsg(RFC5424, NilOr(None, h.appName), FacilityFromPrio(p), |body| >= 3 && body[..3] == BOM,
                     NilOr(None, h.hostname), msg, |msg|, NilOr(None, h.msgID), p, NilOr(None, h.procID),
                     AtoiResult(h.version).value, SeverityFromPrio(p), es,
                     if IsNil(h.timestamp) then None else parse(h.timestamp))
  {
    DecodesToRecord(h, es, body, buf, parse, HeaderBytes(h) + Encode(es) + [SP] + body);
    HeaderRecordFields(EmptyLogMsg(RFC5424), h, parse);
  }

  // ---------------------------------------------------------------------
  // The message of the decoder's own test
  // ---------------------------------------------------------------------

  const HelloHeader: HeaderText :=
    HeaderText(Ascii("7"), Ascii("1"), Ascii("2016-02-28T09:57:10.804642398-05:00"), Ascii("myhostname"),
               Ascii("someapp"), Ascii("-"), Ascii("-"))
  const HelloData: seq<SDElement> := [SDElement(Ascii("foo@1234"), [SDParam(Ascii("Revision"), Ascii("1.2.3.4"))])]
  const HelloText: Bytes := Ascii("Hello, World!")
  const HelloFrame: Bytes := HeaderBytes(HelloHeader) + Encode(HelloData) + [SP] + HelloText

  /**
   * `107 <7>1 2016-02-28T09:57:10.804642398-05:00 myhostname someapp - - [foo@1234 Revision="1.2.3.4"] Hello, World!`
   * is the length prefix and the frame above.
   */
  lemma HelloLayout()
    ensures |HelloFrame| == 107 && DecimalDigits(107) == Ascii("107")
    ensures |HelloText| == 13 && HelloText[..3] != BOM
  {
    assert HelloText[..3][0] == HelloText[0] == 'H' as int as byte;
    assert HelloData[1..] == [];
    assert HelloData[0].params[1..] == [];
    assert |Encode(HelloData)| == 29;
    assert DecimalDigits(107) == DecimalDigits(10) + [ZERO + 7];
    assert DecimalDigits(10) == [ZERO + 1, ZERO + 0];
  }

  /** The header of the test message is well formed once its timestamp decodes, and its priority is 7 and its version 1. */
  lemma HelloWellFormed(parse: TimeParser)
    requires parse(HelloHeader.timestamp).Some?
    ensures WellFormed(HelloHeader, parse)
    ensures AtoiResult(HelloHeader.pri) == Ok(7) && AtoiResult(HelloHeader.version) == Ok(1)
    ensures !IsNil(HelloHeader.hostname) && !IsNil(HelloHeader.appName)
    ensures IsNil(HelloHeader.procID) && IsNil(HelloHeader.msgID) && !IsNil(HelloHeader.timestamp)
  {
    AsciiAbsent("7", '>');
    AtoiOfDigits(Ascii("7"));
    assert PositionalValue(Ascii("7")) == 7 by {
      assert Ascii("7")[..0] == [];
    }
    AtoiOfDigits(Ascii("1"));
    assert PositionalValue(Ascii("1")) == 1 by {
      assert Ascii("1")[..0] == [];
    }
    AsciiAbsent("1", ' ');
    AsciiAbsent("2016-02-28T09:57:10.804642398-05:00", ' ');
    AsciiAbsent("myhostname", ' ');
    AsciiAbsent("someapp", ' ');
    AsciiAbsent("-", ' ');
  }

  /** The bytes of a text without ' ', '=', '"', '[' and ']' may name an element or a parameter. */
  lemma AsciiNames(s: string)
    requires forall i :: 0 <= i < |s| ==> s[i] as int < 256
    requires ' ' !in s && '=' !in s && '"' !in s && '[' !in s && ']' !in s
    ensures forall k :: 0 <= k < |Ascii(s)| ==> NameByte(Ascii(s)[k])
  {
    AsciiAbsent(s, ' ');
    AsciiAbsent(s, '=');
    AsciiAbsent(s, '"');
    AsciiAbsent(s, '[');
    AsciiAbsent(s, ']');
    assert forall k :: 0 <= k < |Ascii(s)| ==> Ascii(s)[k] in Ascii(s);
  }

  /** The bytes of a text without '"', '[' and ']' may be a parameter value. */
  lemma AsciiValues(s: string)
    requires forall i :: 0 <= i < |s| ==> s[i] as int < 256
    requires '"' !in s && '[' !in s && ']' !in s
    ensures forall k :: 0 <= k < |Ascii(s)| ==> ValueByte(Ascii(s)[k])
  {
    AsciiAbsent(s, '"');
    AsciiAbsent(s, '[');
    AsciiAbsent(s, ']');
    assert forall k :: 0 <= k < |Ascii(s)| ==> Ascii(s)[k] in Ascii(s);
  }

  /** The structured data of the test message is one plain element. */
  lemma HelloPlain()
    ensures |HelloData| > 0 && forall e :: e in HelloData ==> Plain(e)
  {
    AsciiNames("foo@1234");
    AsciiNames("Revision");
    AsciiValues("1.2.3.4");
    assert PlainParam(HelloData[0].params[0]);
  }

  /**
   * The message of the decoder's test (rfc5424/rfc5424_test.go) decodes
   * without error into priority 7, facility 0, severity 7, version 1, the
   * decoded timestamp, hostname "myhostname", application "someapp", no
   * process id and no message id, the one element `foo@1234` with
   * Revision="1.2.3.4", and the 13-byte message "Hello, World!" with no
   * byte order mark.
   */
  lemma HelloWorld(buf: Bytes, parse: TimeParser)
    requires parse(HelloHeader.timestamp).Some?
    ensures var d := Decode(Ascii("107") + [SP] + HelloFrame, buf, parse);
      d.err == None && d.lm.msgType == RFC5424 && d.lm.priority == 7 && d.lm.facility == 0 &&
      d.lm.severity == 7 && d.lm.protoVersion == 1 && d.lm.timestamp == parse(HelloHeader.timestamp) &&
      d.lm.host == Some(HelloHeader.hostname) && d.lm.app == Some(HelloHeader.appName) &&
      d.lm.pid == None && d.lm.msgID == None && d.lm.structuredData == HelloData &&
      d.lm.message == HelloText && d.lm.msgLength == 13 && !d.lm.hasBOM
  {
    HelloLayout();
    HelloWellFormed(parse);
    HelloPlain();
    DecodeRoundTrip(HelloHeader, HelloData, HelloText, buf, parse);
  }

  // ---------------------------------------------------------------------
  // The parser object
  // ---------------------------------------------------------------------

  class Parser {
    var buf: Bytes

    constructor ()
      ensures buf == []
    {
      buf := [];
    }

    /** Decodes one octet-counted message from `input`. */
    method ParseReader(input: Bytes, parse: TimeParser) returns (lm: LogMsg, err: Option<Error>)
      modifies this
      ensures Decoded(lm, err, buf) == Decode(input, old(buf), parse)
    {
      lm := EmptyLogMsg(RFC5424);
      var br := new Reader(input);
      var ml, e := ReadMsgLength(br);
      if e.Some? {
        return lm, e;
      }
      ghost var m := MsgLengthOf(input, 0);
      assert m.0 == Ok(ml) && br.pos == m.1;
      var lr := new Reader.Limit(br, ml);
      assert lr.data == Frame(input, m.1, ml) && lr.pos == m.1;
      lm, err := ParseFrame(lr, lm, parse);
      assert Decoded(lm, err, buf) ==
             DecodeFrame(Frame(input, m.1, ml), m.1, EmptyLogMsg(RFC5424), old(buf), parse);
    }

    /** The part of the decode that reads through the length-limited reader. */
    method ParseFrame(lr: Reader, lm0: LogMsg, parse: TimeParser) returns (lm: LogMsg, err: Option<Error>)
      requires lr.Valid()
      modifies this, lr
      ensures Decoded(lm, err, buf) == DecodeFrame(lr.data, old(lr.pos), lm0, old(buf), parse)
    {
      lm, err := ParseHeader(lr, lm0, parse);
      if err.Some? {
        return lm, Some(MapEOF(err.value));
      }
      lm, err := ParseAfterHeader(lr, lm);
    }

    /** The structured data, the byte order mark and the message, after the header. */
    method ParseAfterHeader(lr: Reader, lm0: LogMsg) returns (lm: LogMsg, err: Option<Error>)
      requires lr.Valid()
      modifies this, lr
      ensures Decoded(lm, err, buf) == AfterHeader(lr.data, old(lr.pos), lm0)
    {
      ghost var w := lr.data;
      lm, err := ParseStructuredData(lr, lm0);
      ghost var d := SDStep(w, old(lr.pos), lm0);
      assert Step(lm, buf, err, lr.pos) == d;
      if err.Some? {
        return lm, Some(MapEOF(err.value));
      }
      var lm', bomErr := ParseBOM(lr, lm);
      if bomErr.Some? {
        return lm', None;
      }
      var md := lr.ReadAll();
      assert md == w[d.end..] && md[..3] == w[d.end..d.end + 3];
      lm := lm'.(message := lm'.message + md);
      lm := lm.(msgLength := |lm.message|);
      return lm, None;
    }

    /** Priority, version, timestamp, hostname, app name, process id and message id; the first error stops it. */
    method ParseHeader(r: Reader, lm: LogMsg, parse: TimeParser) returns (lm': LogMsg, err: Option<Error>)
      requires r.Valid()
      modifies this, r
      ensures r.Valid()
      ensures Step(lm', buf, err, r.pos) == HeaderOf(r.data, old(r.pos), lm, old(buf), parse)
    {
      var b;
      b, lm', err := ParsePriority(r, lm);
      buf := b;
      if err.Some? {
        return;
      }
      lm', err := ParseProtoVersion(r, lm');
      if err.Some? {
        return;
      }
      lm', err := ParseTimestamp(r, lm', parse);
      if err.Some? {
        return;
      }
      lm', err := ParseField(r, lm', HostnameField);
      if err.Some? {
        return;
      }
      lm', err := ParseField(r, lm', AppNameField);
      if err.Some? {
        return;
      }
      lm', err := ParseField(r, lm', ProcIDField);
      if err.Some? {
        return;
      }
      lm', err := ParseField(r, lm', MsgIDField);
    }

    /** Reads `VERSION SP`; any integer Atoi accepts is a version. */
    method ParseProtoVersion(r: Reader, lm: LogMsg) returns (lm': LogMsg, err: Option<Error>)
      requires r.Valid()
      modifies r
      ensures r.Valid()
      ensures Step(lm', buf, err, r.pos) == VersionStep(r.data, old(r.pos), lm, buf)
    {
      var b, _, e := ReadBytesUntilSpace(r);
      if e.Some? {
        return lm, e;
      }
      var pv := Atoi(b);
      if pv.Err? {
        return lm, Some(InvalidProtoVersion);
      }
      return lm.(protoVersion := pv.value), None;
    }

    /** Reads the timestamp field and, unless it is NILVALUE, decodes it. */
    method ParseTimestamp(r: Reader, lm: LogMsg, parse: TimeParser) returns (lm': LogMsg, err: Option<Error>)
      requires r.Valid()
      modifies this, r
      ensures r.Valid()
      ensures Step(lm', buf, err, r.pos) == TimestampStep(r.data, old(r.pos), lm, parse)
    {
      var e, n;
      buf, n, e := ReadBytesUntilSpaceOrNilValue(r);
      if e.Some? {
        return lm, e;
      }
      if |buf| == 0 || buf[0] == DASH {
        return lm, None;
      }
      var ts := parse(buf);
      if ts.None? {
        return lm, Some(InvalidTimestamp);
      }
      return lm.(timestamp := ts), None;
    }

    /**
     * Reads the hostname, app name, process id or message id field and,
     * unless it is NILVALUE, assigns its bytes.
     */
    method ParseField(r: Reader, lm: LogMsg, k: HeaderField) returns (lm': LogMsg, err: Option<Error>)
      requires r.Valid()
      modifies this, r
      ensures r.Valid()
      ensures Step(lm', buf, err, r.pos) == FieldStep(r.data, old(r.pos), lm, k)
    {
      var e, n;
      buf, n, e := ReadBytesUntilSpaceOrNilValue(r);
      if e.Some? {
        return lm, e;
      }
      if |buf| == 0 || buf[0] == DASH {
        return lm, None;
      }
      return SetField(lm, k, buf), None;
    }

    /**
     * Reads the structured data: '-' and one more byte, or '[' and the
     * element loop over the flags `insideElem`, `insideParam` and
     * `readName`, which builds the element `sd` and the parameter `sdp` in
     * the scratch buffer and collects finished elements in `sds`.
     */
    method ParseStructuredData(r: Reader, lm: LogMsg) returns (lm': LogMsg, err: Option<Error>)
      requires r.Valid()
      modifies this, r
      ensures r.Valid()
      ensures Step(lm', buf, err, r.pos) == SDStep(r.data, old(r.pos), lm)
    {
      ghost var w := r.data;
      ghost var start := r.pos;
      buf := [];
      lm' := lm;
      var nb := r.ReadByte();
      if nb.Err? {
        return lm', Some(nb.error);
      }
      if nb.value == DASH {
        nb := r.ReadByte();
        if nb.Err? {
          return lm', Some(nb.error);
        }
        return lm', None;
      }
      if nb.value != LBRACKET {
        return lm', Some(WrongSDFormat);
      }
      var sds: seq<SDElement> := [];
      var sd := NoElement;
      var sdp := NoParam;
      var insideElem, insideParam, readName := true, false, false;
      while true
        invariant r.Valid() && start < r.pos && w == r.data
        invariant Loop(w, r.pos, SDState(buf, sds, sd, sdp, insideElem, insideParam, readName)) ==
                  Loop(w, start + 1, LoopStart())
        decreases |r.data| - r.pos
      {
        ghost var st := SDState(buf, sds, sd, sdp, insideElem, insideParam, readName);
        var b := r.ReadByte();
        if b.Err? {
          return lm', Some(b.error);
        }
        var c := b.value;
        if c == RBRACKET {
          insideElem := false;
          sds := sds + [sd];
          sd := NoElement;
          buf := [];
        } else if c == LBRACKET {
          insideElem := true;
          readName := false;
        } else {
          if c == SP && !readName {
            readName := true;
            sd := sd.(id := buf);
            buf := [];
          }
          if c == EQUALS && !insideParam {
            sdp := sdp.(key := buf);
            buf := [];
          } else if c == QUOTE && !insideParam {
            insideParam := true;
          } else if c == QUOTE {
            insideParam := false;
            sd := sd.(params := sd.params + [sdp.(val := buf)]);
            buf := [];
            sdp := NoParam;
          } else if c == SP && !insideElem {
            assert Stops(st, c);
            assert SDState(buf, sds, sd, sdp, insideElem, insideParam, readName) == Feed(st, c);
            return lm.(structuredData := sds), None;
          } else if c == SP && !insideParam {
          } else {
            buf := buf + [c];
          }
        }
        assert SDState(buf, sds, sd, sdp, insideElem, insideParam, readName) == Feed(st, c);
      }
    }

    /**
     * Looks at the next 3 bytes without consuming them and notes whether
     * they are the byte order mark; fewer than 3 bytes left is end of input.
     */
    method ParseBOM(r: Reader, lm: LogMsg) returns (lm': LogMsg, err: Option<Error>)
      requires r.Valid()
      ensures |r.data| - r.pos < 3 ==> lm' == lm && err == Some(EOF)
      ensures |r.data| - r.pos >= 3 ==>
                err == None && lm' == lm.(hasBOM := lm.hasBOM || r.data[r.pos..r.pos + 3] == BOM)
    {
      var bom := r.Peek(3);
      if bom.Err? {
        return lm, Some(bom.error);
      }
      if bom.value == BOM {
        return lm.(hasBOM := true), None;
      }
      return lm, None;
    }
  }
}
