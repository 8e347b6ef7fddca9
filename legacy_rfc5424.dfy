/**
 * The RFC 5424 decoder of the older revision of the package (rfc5424.go).
 *
 * It reads from a plain reader: the length prefix with the strict decimal
 * conversion, then the header and the structured data through a reader
 * limited to the announced length, then a 3-byte window for the byte
 * order mark from the limited reader, and then the body from the
 * unlimited reader, to the end of the input whatever the length said.
 * The decoder object holds no state, so its operations are methods of
 * this module.
 *
 * The header fields after the version, and the structured data, are read
 * as the newer decoder reads them, and their steps are taken from the
 * `Rfc5424` and `StructuredData` modules without the scratch buffer.
 */
module LegacyRfc5424 {
  import opened SyslogTypes
  import opened LogMessage
  import opened Cursor
  import opened Common
  import opened StructuredData
  import LegacyData
  import Rfc5424

  /** One decoding step: the record, the error and where reading stopped. */
  datatype Step = Step(lm: LogMsg, err: Option<Error>, end: nat)

  /** A whole decode: the record and the error. */
  datatype Decoded = Decoded(lm: LogMsg, err: Option<Error>)

  /** The number of bytes of the byte order mark window. */
  const WindowSize: nat := 3

  // ---------------------------------------------------------------------
  // The steps
  // ---------------------------------------------------------------------

  /**
   * `<PRI>`: a first byte other than '<' is a format error; the bytes up
   * to the next '>' are converted strictly, and a failed conversion is an
   * invalid priority. No '>' before the end is end of input.
   */
  function PriorityStep(s: Bytes, i: nat, lm: LogMsg): (r: Step)
    requires i <= |s|
    ensures i <= r.end <= |s|
    ensures r.err.Some? ==> r.lm == lm
  {
    if i == |s| then Step(lm, Some(EOF), i)
    else if s[i] != LANGLE then Step(lm, Some(WrongFormat), i + 1)
    else
      var k := IndexFrom(s, i + 1, RANGLE);
      if k == |s| then Step(lm, Some(EOF), |s|)
      else
        var p := LegacyData.StrconvAtoi(s[i + 1..k]);
        if p.Err? then Step(lm, Some(InvalidPrio), k + 1)
        else Step(WithPriority(lm, p.value), None, k + 1)
  }

  /** `VERSION SP`: the strict conversion of the bytes before the space. */
  function VersionStep(s: Bytes, i: nat, lm: LogMsg): (r: Step)
    requires i <= |s|
    ensures i <= r.end <= |s|
    ensures r.err.Some? ==> r.lm == lm
    ensures var f := UntilSpace(s, i); var v := LegacyData.StrconvAtoi(f.bytes);
      f.err.None? ==> (v.Err? <==> r.err == Some(InvalidProtoVersion)) &&
                      (v.Ok? ==> r.err.None? && r.lm == lm.(protoVersion := v.value))
  {
    var f := UntilSpace(s, i);
    if f.err.Some? then Step(lm, f.err, f.end)
    else
      var v := LegacyData.StrconvAtoi(f.bytes);
      if v.Err? then Step(lm, Some(InvalidProtoVersion), f.end)
      else Step(lm.(protoVersion := v.value), None, f.end)
  }

  /** A step of the newer decoder without its scratch buffer. */
  function Unbuffered(r: Rfc5424.Step): Step
  {
    Step(r.lm, r.err, r.end)
  }

  /**
   * The header: priority, version, timestamp, hostname, app name, process
   * id and message id, stopping at the first error.
   */
  function HeaderOf(s: Bytes, i: nat, lm: LogMsg, parse: Rfc5424.TimeParser): (r: Step)
    requires i <= |s|
    ensures i <= r.end <= |s|
    ensures Rfc5424.SameBody(r.lm, lm)
  {
    var a := PriorityStep(s, i, lm);
    if a.err.Some? then a else
    var b := VersionStep(s, a.end, a.lm);
    if b.err.Some? then b else
    var c := Unbuffered(Rfc5424.TimestampStep(s, b.end, b.lm, parse));
    if c.err.Some? then c else
    var d := Unbuffered(Rfc5424.FieldStep(s, c.end, c.lm, Rfc5424.HostnameField));
    if d.err.Some? then d else
    var e := Unbuffered(Rfc5424.FieldStep(s, d.end, d.lm, Rfc5424.AppNameField));
    if e.err.Some? then e else
    var f := Unbuffered(Rfc5424.FieldStep(s, e.end, e.lm, Rfc5424.ProcIDField));
    if f.err.Some? then f else
    Unbuffered(Rfc5424.FieldStep(s, f.end, f.lm, Rfc5424.MsgIDField))
  }

  /** The structured data: the record gets the elements when the loop assigns them. */
  function SDStep(s: Bytes, i: nat, lm: LogMsg): (r: Step)
    requires i <= |s|
    ensures i <= r.end <= |s|
    ensures r.err.Some? ==> r.lm == lm
    ensures r.lm == lm.(structuredData := r.lm.structuredData)
  {
    var o := StructuredDataOf(s, i);
    Step(if o.elems.Some? then lm.(structuredData := o.elems.value) else lm, o.err, o.end)
  }

  /** `n` zero bytes. */
  function Zeros(n: nat): (z: Bytes)
    ensures |z| == n && forall k :: 0 <= k < n ==> z[k] == 0
  {
    seq(n, _ => 0)
  }

  /** The 3-byte window after a read of `got`: the bytes read, then zeros. */
  function Window(got: Bytes): (b: Bytes)
    requires |got| <= WindowSize
    ensures |b| == WindowSize && b[..|got|] == got
  {
    got + Zeros(WindowSize - |got|)
  }

  /**
   * The end of the decode once the structured data ends at `e` in the
   * frame `w`, a prefix of `input`: a read of up to 3 bytes from the frame,
   * end of input when there are none; the zero-padded window goes to the
   * message, then everything after it to the end of the input. The count
   * is 3 for a byte order mark, otherwise the number of bytes read.
   */
  function BodyStep(input: Bytes, w: Bytes, e: nat, lm: LogMsg): (d: Decoded)
    requires e <= |w| <= |input| && w == input[..|w|]
    ensures d.err.Some? <==> e == |w|
    ensures d.err.Some? ==> d.err == Some(EOF) && d.lm == lm
    ensures d.err.None? ==> |d.lm.message| == |lm.message| + WindowSize + |input| - e - Clamp(WindowSize, |w| - e)
  {
    var n := Clamp(WindowSize, |w| - e);
    if n == 0 then Decoded(lm, Some(EOF))
    else
      var bb := Window(w[e..e + n]);
      var bbc := if bb == Rfc5424.BOM then WindowSize else n;
      var md := input[e + n..];
      Decoded(lm.(hasBOM := lm.hasBOM || bb == Rfc5424.BOM, message := lm.message + bb + md,
                  msgLength := |md| + bbc), None)
  }

  /**
   * The decode after the length prefix, from position `i` of the frame
   * `w`, a prefix of `input`: the header and the structured data, with end
   * of input made premature, then the window and the body.
   */
  function DecodeFrame(input: Bytes, w: Bytes, i: nat, lm: LogMsg, parse: Rfc5424.TimeParser): (d: Decoded)
    requires i <= |w| <= |input| && w == input[..|w|]
    ensures d.err.None? ==> |d.lm.message| >= WindowSize
  {
    var h := HeaderOf(w, i, lm, parse);
    if h.err.Some? then Decoded(h.lm, Some(MapEOF(h.err.value)))
    else
      var d := SDStep(w, h.end, h.lm);
      if d.err.Some? then Decoded(d.lm, Some(MapEOF(d.err.value)))
      else BodyStep(input, w, d.end, d.lm)
  }

  /**
   * A whole decode of `input`: any error of the length prefix is an
   * invalid length; the rest is read from the frame the prefix announces,
   * into a fresh record.
   */
  function Decode(input: Bytes, parse: Rfc5424.TimeParser): (d: Decoded)
    ensures d.err.None? ==> |d.lm.message| >= WindowSize
  {
    var m := LegacyData.MsgLengthOf(input, 0);
    if m.0.Err? then Decoded(EmptyLogMsg(RFC5424), Some(InvalidLength))
    else DecodeFrame(input, Rfc5424.Frame(input, m.1, m.0.value), m.1, EmptyLogMsg(RFC5424), parse)
  }

  // ---------------------------------------------------------------------
  // What the decode promises
  // ---------------------------------------------------------------------

  /**
   * The priority needs '<' and a strictly decimal number before '>', of
   * any size and sign; only a failed conversion is an invalid priority.
   */
  lemma {:induction false} PriorityStepSpec(s: Bytes, i: nat, lm: LogMsg)
    requires i <= |s|
    ensures var r := PriorityStep(s, i, lm);
      (i < |s| && s[i] != LANGLE ==> r == Step(lm, Some(WrongFormat), i + 1)) &&
      (i < |s| && s[i] == LANGLE && RANGLE in s[i + 1..] ==>
         var v := LegacyData.StrconvAtoi(s[i + 1..r.end - 1]);
         i + 1 < r.end && s[r.end - 1] == RANGLE && RANGLE !in s[i + 1..r.end - 1] &&
         (v.Err? ==> r == Step(lm, Some(InvalidPrio), r.end)) &&
         (v.Ok? ==> r == Step(WithPriority(lm, v.value), None, r.end))) &&
      ((i == |s| || (s[i] == LANGLE && RANGLE !in s[i + 1..])) ==> r == Step(lm, Some(EOF), |s|))
  {
    if i < |s| && s[i] == LANGLE {
      IndexFromFirst(s, i + 1, RANGLE);
      var k := IndexFrom(s, i + 1, RANGLE);
      if k < |s| {
        assert s[i + 1..][k - i - 1] == RANGLE;
      } else {
        assert s[i + 1..] == s[i + 1..k];
      }
    }
  }

  /** A priority above the range of RFC 5424, or a negative one, is taken as it is. */
  lemma NoPriorityRange(lm: LogMsg)
    ensures PriorityStep([LANGLE, DASH, 0x37, RANGLE], 0, lm) == Step(WithPriority(lm, -7), None, 4)
  {
    var s: Bytes := [LANGLE, DASH, 0x37, RANGLE];
    IndexFromAt(s, 1, RANGLE, 3);
    assert s[1..3] == [DASH, 0x37];
    assert [DASH, 0x37][1..] == [0x37 as byte];
    assert PositionalValue([0x37]) == 7 by {
      assert [0x37 as byte][..0] == [];
    }
  }

  /**
   * The window holds the bytes read and zeros after them; it is the byte
   * order mark exactly when the three bytes read are.
   */
  lemma {:induction false} WindowSpec(got: Bytes)
    requires |got| <= WindowSize
    ensures Window(got)[..|got|] == got
    ensures (Window(got) == Rfc5424.BOM) <==> got == Rfc5424.BOM
  {
    var b := Window(got);
    if |got| < WindowSize {
      assert b[WindowSize - 1] == 0;
    }
  }

  /**
   * After the structured data a decode fails only with end of input, when
   * the frame has nothing left; otherwise the message is the window
   * followed by the whole rest of the input, the byte order mark is noted
   * exactly when the window is one, and the message length equals the
   * message's length exactly when the window read 3 bytes.
   */
  lemma {:induction false} BodyStepSpec(input: Bytes, w: Bytes, e: nat, lm: LogMsg)
    requires e <= |w| <= |input| && w == input[..|w|]
    requires lm.message == [] && !lm.hasBOM
    ensures var d := BodyStep(input, w, e, lm);
      (e == |w| <==> d.err == Some(EOF)) &&
      (e == |w| ==> d.lm == lm) &&
      (e < |w| ==>
         var n := Clamp(WindowSize, |w| - e);
         d.err == None && |d.lm.message| == WindowSize + |input| - (e + n) &&
         d.lm.message[..n] == input[e..e + n] &&
         d.lm.message[WindowSize..] == input[e + n..] &&
         d.lm.hasBOM == (input[e..e + n] == Rfc5424.BOM) &&
         (d.lm.msgLength == |d.lm.message| <==> n == WindowSize))
  {
    if e < |w| {
      var n := Clamp(WindowSize, |w| - e);
      var got := w[e..e + n];
      assert got == input[e..e + n];
      WindowSpec(got);
      var bb := Window(got);
      var md := input[e + n..];
      var msg := lm.message + bb + md;
      assert msg == bb + md;
      assert msg[..n] == bb[..n];
      assert msg[WindowSize..] == md;
      if bb == Rfc5424.BOM {
        assert n == WindowSize;
      }
    }
  }

  /**
   * A decode fails with an invalid length for any prefix error, with a
   * premature end or a format error from the header or the structured
   * data, or with a raw end of input when nothing follows the structured
   * data in the frame; it always gives the RFC 5424 type.
   */
  lemma {:induction false} DecodeErrors(input: Bytes, parse: Rfc5424.TimeParser)
    ensures var d := Decode(input, parse);
      d.lm.msgType == RFC5424 &&
      (d.err.Some? ==> d.err.value in {InvalidLength, PrematureEOF, WrongFormat, InvalidPrio,
                                       InvalidProtoVersion, InvalidTimestamp, WrongSDFormat, EOF})
    ensures LegacyData.MsgLengthOf(input, 0).0.Err? <==> Decode(input, parse).err == Some(InvalidLength)
  {
    var m := LegacyData.MsgLengthOf(input, 0);
    if m.0.Ok? {
      var w := Rfc5424.Frame(input, m.1, m.0.value);
      DecodeFrameErrors(input, w, m.1, EmptyLogMsg(RFC5424), parse);
    }
  }

  /** The errors after the length prefix; the record's type is kept. */
  lemma {:induction false} DecodeFrameErrors(input: Bytes, w: Bytes, i: nat, lm: LogMsg, parse: Rfc5424.TimeParser)
    requires i <= |w| <= |input| && w == input[..|w|]
    requires lm.message == [] && !lm.hasBOM
    ensures var d := DecodeFrame(input, w, i, lm, parse);
      d.lm.msgType == lm.msgType &&
      (d.err.Some? ==> d.err.value in {PrematureEOF, WrongFormat, InvalidPrio,
                                       InvalidProtoVersion, InvalidTimestamp, WrongSDFormat, EOF})
  {
    var h := HeaderOf(w, i, lm, parse);
    HeaderSpec(w, i, lm, parse);
    if h.err.None? {
      StructuredDataSpec(w, h.end);
      var d := SDStep(w, h.end, h.lm);
      if d.err.None? {
        BodyStepSpec(input, w, d.end, d.lm);
      }
    }
  }

  /** The errors of the header, and the fields it leaves alone. */
  lemma {:induction false} HeaderSpec(s: Bytes, i: nat, lm: LogMsg, parse: Rfc5424.TimeParser)
    requires i <= |s|
    ensures var r := HeaderOf(s, i, lm, parse);
      Rfc5424.HeaderError(r.err) && Rfc5424.SameBody(lm, r.lm)
  {
    var a := PriorityStep(s, i, lm);
    PriorityStepSpec(s, i, lm);
    if a.err.None? {
      var b := VersionStep(s, a.end, a.lm);
      UntilSpaceSpec(s, a.end);
      if b.err.None? {
        var c := Rfc5424.TimestampStep(s, b.end, b.lm, parse);
        Rfc5424.TimestampKeepsBody(s, b.end, b.lm, parse);
        if c.err.None? {
          var d := Rfc5424.FieldStep(s, c.end, c.lm, Rfc5424.HostnameField);
          Rfc5424.FieldKeepsBody(s, c.end, c.lm, Rfc5424.HostnameField);
          if d.err.None? {
            var e := Rfc5424.FieldStep(s, d.end, d.lm, Rfc5424.AppNameField);
            Rfc5424.FieldKeepsBody(s, d.end, d.lm, Rfc5424.AppNameField);
            if e.err.None? {
              var f := Rfc5424.FieldStep(s, e.end, e.lm, Rfc5424.ProcIDField);
              Rfc5424.FieldKeepsBody(s, e.end, e.lm, Rfc5424.ProcIDField);
              if f.err.None? {
                Rfc5424.FieldKeepsBody(s, f.end, f.lm, Rfc5424.MsgIDField);
              }
            }
          }
        }
      }
    }
  }

  /** A body read to the end of a longer input gets the added bytes, and counts them. */
  lemma {:induction false} BodyStepExtends(input: Bytes, extra: Bytes, w: Bytes, e: nat, lm: LogMsg)
    requires e <= |w| <= |input| && w == input[..|w|]
    ensures var d := BodyStep(input, w, e, lm);
      var d' := BodyStep(input + extra, w, e, lm);
      d'.err == d.err &&
      (d.err.Some? ==> d'.lm == d.lm) &&
      (d.err.None? ==> d'.lm == d.lm.(message := d.lm.message + extra, msgLength := d.lm.msgLength + |extra|))
  {
    var n := Clamp(WindowSize, |w| - e);
    assert (input + extra)[..|w|] == w;
    if n > 0 {
      assert (input + extra)[e + n..] == input[e + n..] + extra;
    }
  }

  /**
   * The body is not limited by the announced length: once the frame lies
   * inside the input and the decode succeeds, bytes appended to the input
   * are appended to the message, and counted in its length.
   */
  lemma {:induction false} BodyRunsToEnd(input: Bytes, extra: Bytes, parse: Rfc5424.TimeParser)
    requires LegacyData.MsgLengthOf(input, 0).0.Ok?
    requires LegacyData.MsgLengthOf(input, 0).1 + LegacyData.MsgLengthOf(input, 0).0.value <= |input|
    requires Decode(input, parse).err.None?
    ensures var d := Decode(input, parse);
      var d' := Decode(input + extra, parse);
      d'.err.None? && d'.lm == d.lm.(message := d.lm.message + extra, msgLength := d.lm.msgLength + |extra|)
  {
    var s := input + extra;
    var k := IndexFrom(input, 0, SP);
    IndexFromFirst(input, 0, SP);
    IndexFromAt(s, 0, SP, k);
    assert s[0..k] == input[0..k];
    assert LegacyData.MsgLengthOf(s, 0) == LegacyData.MsgLengthOf(input, 0);
    var m := LegacyData.MsgLengthOf(input, 0);
    var w := Rfc5424.Frame(input, m.1, m.0.value);
    assert Rfc5424.Frame(s, m.1, m.0.value) == w;
    var lm := EmptyLogMsg(RFC5424);
    var h := HeaderOf(w, m.1, lm, parse);
    var d := SDStep(w, h.end, h.lm);
    BodyStepExtends(input, extra, w, d.end, d.lm);
  }

  // ---------------------------------------------------------------------
  // The decoder's operations
  // ---------------------------------------------------------------------

  /** Decodes one octet-counted message from `input`. */
  method ParseReader(input: Bytes, parse: Rfc5424.TimeParser) returns (lm: LogMsg, err: Option<Error>)
    ensures Decoded(lm, err) == Decode(input, parse)
  {
    lm := EmptyLogMsg(RFC5424);
    var r := new Reader(input);
    var ml, e := LegacyData.ReadMsgLength(r);
    if e.Some? {
      return lm, Some(InvalidLength);
    }
    ghost var m := LegacyData.MsgLengthOf(input, 0);
    assert m.0 == Ok(ml) && r.pos == m.1;
    var lr := new Reader.Limit(r, ml);
    assert lr.data == Rfc5424.Frame(input, m.1, ml) && lr.pos == m.1;
    lm, err := ParseFrame(r, lr, lm, parse);
  }

  /**
   * The part of the decode after the length prefix: the header and the
   * structured data through the limited reader `lr`, the window, and the
   * body from `r`, the reader `lr` is wrapped around.
   */
  method ParseFrame(r: Reader, lr: Reader, lm0: LogMsg, parse: Rfc5424.TimeParser) returns (lm: LogMsg, err: Option<Error>)
    requires r.Valid() && lr.Valid() && r != lr
    requires r.pos == lr.pos && |lr.data| <= |r.data| && lr.data == r.data[..|lr.data|]
    modifies r, lr
    ensures Decoded(lm, err) == DecodeFrame(r.data, lr.data, old(lr.pos), lm0, parse)
  {
    ghost var w := lr.data;
    lm, err := ParseHeader(lr, lm0, parse);
    ghost var h := HeaderOf(w, old(lr.pos), lm0, parse);
    assert Step(lm, err, lr.pos) == h;
    if err.Some? {
      return lm, Some(MapEOF(err.value));
    }
    lm, err := ParseStructuredData(lr, lm);
    ghost var d := SDStep(w, h.end, h.lm);
    assert Step(lm, err, lr.pos) == d;
    if err.Some? {
      return lm, Some(MapEOF(err.value));
    }
    lm, err := ParseBody(r, lr, lm);
  }

  /**
   * The end of the decode: the window read from the limited reader `lr`,
   * then the body read from `r`, which `lr` is wrapped around, to its end.
   */
  method ParseBody(r: Reader, lr: Reader, lm0: LogMsg) returns (lm: LogMsg, err: Option<Error>)
    requires r.Valid() && lr.Valid() && r != lr
    requires r.pos <= lr.pos && |lr.data| <= |r.data| && lr.data == r.data[..|lr.data|]
    modifies r, lr
    ensures Decoded(lm, err) == BodyStep(r.data, lr.data, old(lr.pos), lm0)
  {
    ghost var e := lr.pos;
    ghost var n := Clamp(WindowSize, |lr.data| - e);
    var bb, bbc;
    bb, bbc, lm, err := ParseBOM(lr, lm0);
    if err.Some? {
      return lm, err;
    }
    lm := lm.(message := lm.message + bb);
    r.CatchUp(lr.pos);
    var md := r.ReadAll();
    assert md == r.data[e + n..];
    lm := lm.(message := lm.message + md, msgLength := |md| + bbc);
  }

  /** Priority, version, timestamp, hostname, app name, process id and message id; the first error stops it. */
  method ParseHeader(r: Reader, lm: LogMsg, parse: Rfc5424.TimeParser) returns (lm': LogMsg, err: Option<Error>)
    requires r.Valid()
    modifies r
    ensures r.Valid()
    ensures Step(lm', err, r.pos) == HeaderOf(r.data, old(r.pos), lm, parse)
  {
    lm', err := ParsePriority(r, lm);
    if err.Some? {
      return;
    }
    lm', err := ParseProtoVersion(r, lm');
    if err.Some? {
      return;
    }
    lm', err := ParseTimestamp(r, lm', parse);
    if err.Some? {
      return;
    }
    lm', err := ParseField(r, lm', Rfc5424.HostnameField);
    if err.Some? {
      return;
    }
    lm', err := ParseField(r, lm', Rfc5424.AppNameField);
    if err.Some? {
      return;
    }
    lm', err := ParseField(r, lm', Rfc5424.ProcIDField);
    if err.Some? {
      return;
    }
    lm', err := ParseField(r, lm', Rfc5424.MsgIDField);
  }

  /** Reads '<', then the bytes up to '>', and converts them strictly. */
  method ParsePriority(r: Reader, lm: LogMsg) returns (lm': LogMsg, err: Option<Error>)
    requires r.Valid()
    modifies r
    ensures r.Valid()
    ensures Step(lm', err, r.pos) == PriorityStep(r.data, old(r.pos), lm)
  {
    ghost var w := r.data;
    ghost var start := r.pos;
    var b := r.ReadByte();
    if b.Err? {
      return lm, Some(b.error);
    }
    if b.value != LANGLE {
      return lm, Some(WrongFormat);
    }
    var ps: Bytes := [];
    while true
      invariant r.Valid() && start < r.pos && w == r.data
      invariant ps == w[start + 1..r.pos]
      invariant IndexFrom(w, start + 1, RANGLE) == IndexFrom(w, r.pos, RANGLE)
      decreases |r.data| - r.pos
    {
      b := r.ReadByte();
      if b.Err? {
        return lm, Some(b.error);
      }
      if b.value == RANGLE {
        break;
      }
      ps := ps + [b.value];
    }
    var p := LegacyData.StrconvAtoi(ps);
    if p.Err? {
      return lm, Some(InvalidPrio);
    }
    return WithPriority(lm, p.value), None;
  }

  /** Reads `VERSION SP` and converts it strictly; any integer is a version. */
  method ParseProtoVersion(r: Reader, lm: LogMsg) returns (lm': LogMsg, err: Option<Error>)
    requires r.Valid()
    modifies r
    ensures r.Valid()
    ensures Step(lm', err, r.pos) == VersionStep(r.data, old(r.pos), lm)
  {
    var b, _, e := LegacyData.ReadBytesUntilSpace(r);
    if e.Some? {
      return lm, e;
    }
    var pv := LegacyData.StrconvAtoi(b);
    if pv.Err? {
      return lm, Some(InvalidProtoVersion);
    }
    return lm.(protoVersion := pv.value), None;
  }

  /** Reads the timestamp field and, unless it is NILVALUE, decodes it. */
  method ParseTimestamp(r: Reader, lm: LogMsg, parse: Rfc5424.TimeParser) returns (lm': LogMsg, err: Option<Error>)
    requires r.Valid()
    modifies r
    ensures r.Valid()
    ensures Step(lm', err, r.pos) == Unbuffered(Rfc5424.TimestampStep(r.data, old(r.pos), lm, parse))
  {
    var b, _, e := ReadBytesUntilSpaceOrNilValue(r);
    if e.Some? {
      return lm, e;
    }
    if |b| == 0 || b[0] == DASH {
      return lm, None;
    }
    var ts := parse(b);
    if ts.None? {
      return lm, Some(InvalidTimestamp);
    }
    return lm.(timestamp := ts), None;
  }

  /**
   * Reads the hostname, app name, process id or message id field and,
   * unless it is NILVALUE, assigns its bytes.
   */
  method ParseField(r: Reader, lm: LogMsg, k: Rfc5424.HeaderField) returns (lm': LogMsg, err: Option<Error>)
    requires r.Valid()
    modifies r
    ensures r.Valid()
    ensures Step(lm', err, r.pos) == Unbuffered(Rfc5424.FieldStep(r.data, old(r.pos), lm, k))
  {
    var b, _, e := ReadBytesUntilSpaceOrNilValue(r);
    if e.Some? {
      return lm, e;
    }
    if |b| == 0 || b[0] == DASH {
      return lm, None;
    }
    return Rfc5424.SetField(lm, k, b), None;
  }

  /**
   * Reads the structured data: '-' and one more byte, or '[' and the
   * element loop over the flags `insideElem`, `insideParam` and
   * `readName`, which builds the element `sd` and the parameter `sdp` in
   * the bytes `rd` and collects finished elements in `sds`.
   */
  method ParseStructuredData(r: Reader, lm: LogMsg) returns (lm': LogMsg, err: Option<Error>)
    requires r.Valid()
    modifies r
    ensures r.Valid()
    ensures Step(lm', err, r.pos) == SDStep(r.data, old(r.pos), lm)
  {
    ghost var w := r.data;
    ghost var start := r.pos;
    lm' := lm;
    var b := r.ReadByte();
    if b.Err? {
      return lm', Some(b.error);
    }
    if b.value == DASH {
      b := r.ReadByte();
      if b.Err? {
        return lm', Some(b.error);
      }
      return lm', None;
    }
    if b.value != LBRACKET {
      return lm', Some(WrongSDFormat);
    }
    var rd: Bytes := [];
    var sds: seq<SDElement> := [];
    var sd := NoElement;
    var sdp := NoParam;
    var insideElem, insideParam, readName := true, false, false;
    while true
      invariant r.Valid() && start < r.pos && w == r.data
      invariant Loop(w, r.pos, SDState(rd, sds, sd, sdp, insideElem, insideParam, readName)) ==
                Loop(w, start + 1, LoopStart())
      decreases |r.data| - r.pos
    {
      ghost var st := SDState(rd, sds, sd, sdp, insideElem, insideParam, readName);
      b := r.ReadByte();
      if b.Err? {
        return lm', Some(b.error);
      }
      var c := b.value;
      if c == RBRACKET {
        insideElem := false;
        sds := sds + [sd];
        sd := NoElement;
        rd := [];
      } else if c == LBRACKET {
        insideElem := true;
        readName := false;
      } else {
        if c == SP && !readName {
          readName := true;
          sd := sd.(id := rd);
          rd := [];
        }
        if c == EQUALS && !insideParam {
          sdp := sdp.(key := rd);
          rd := [];
        } else if c == QUOTE && !insideParam {
          insideParam := true;
        } else if c == QUOTE {
          insideParam := false;
          sd := sd.(params := sd.params + [sdp.(val := rd)]);
          rd := [];
          sdp := NoParam;
        } else if c == SP && !insideElem {
          assert Stops(st, c);
          assert SDState(rd, sds, sd, sdp, insideElem, insideParam, readName) == Feed(st, c);
          return lm.(structuredData := sds), None;
        } else if c == SP && !insideParam {
        } else {
          rd := rd + [c];
        }
      }
      assert SDState(rd, sds, sd, sdp, insideElem, insideParam, readName) == Feed(st, c);
    }
  }

  /**
   * Reads up to 3 bytes into a zeroed 3-byte window: the window, and a
   * count of 3 when it holds the byte order mark, which the record then
   * notes, otherwise the number of bytes read. With nothing left it is
   * end of input, with a count of 0.
   */
  method ParseBOM(r: Reader, lm: LogMsg) returns (bb: Bytes, bbc: nat, lm': LogMsg, err: Option<Error>)
    requires r.Valid()
    modifies r
    ensures r.Valid()
    ensures var n := Clamp(WindowSize, |r.data| - old(r.pos));
      r.pos == old(r.pos) + n &&
      (n == 0 ==> bbc == 0 && lm' == lm && err == Some(EOF)) &&
      (n > 0 ==> err == None && bb == Window(r.data[old(r.pos)..r.pos]) &&
                 lm' == lm.(hasBOM := lm.hasBOM || bb == Rfc5424.BOM) &&
                 bbc == (if bb == Rfc5424.BOM then WindowSize else n))
  {
    var got, e := r.Read(WindowSize);
    bb := Window(got);
    if e.Some? {
      return bb, 0, lm, e;
    }
    if bb == Rfc5424.BOM {
      return bb, WindowSize, lm.(hasBOM := true), None;
    }
    return bb, |got|, lm, None;
  }
}
