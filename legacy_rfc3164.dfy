/**
 * The RFC 3164 decoder of the older revision of the package (rfc3164.go).
 *
 * It reads `<PRI>`, a 16-byte timestamp decoded with the layout
 * `Jan _2 15:04:05 ` (the trailing space included), the hostname, and the
 * tag with its 32-byte budget, then the rest of the line. The decoder
 * object keeps the scratch buffer, the app and pid buffers and the
 * end-of-line flag between calls.
 *
 * The priority, hostname and tag steps read what the newer decoder's
 * steps read and leave the same scratch state, so they are the `Rfc3164`
 * functions; only the timestamp step is this revision's own. The
 * package-level priority reader this revision calls is not part of this
 * model; it is taken to be `Common.ParsePriority`, its successor with the
 * same parameters.
 */
module LegacyRfc3164 {
  import opened SyslogTypes
  import opened LogMessage
  import opened Cursor
  import opened Common
  import LegacyData
  import Rfc3164

  /**
   * The layout decoder the parser calls: the time, or nothing when the
   * bytes do not match the layout. A layout without a year gives year 0.
   */
  type LayoutParser = Bytes -> Option<Time>

  /** The number of bytes of the timestamp, its trailing space included. */
  const StampLength: nat := 16

  /** Leap years of the Gregorian calendar. */
  predicate LeapYear(y: int)
  {
    y % 4 == 0 && (y % 100 != 0 || y % 400 == 0)
  }

  /**
   * The time moved into year `y` as a calendar date: 29 February, valid in
   * year 0, becomes 1 March of a year that is not a leap year.
   */
  function InYear(t: Time, y: int): (r: Time)
    ensures r.year == y && r.hour == t.hour && r.minute == t.minute && r.second == t.second
  {
    if t.month == 2 && t.day == 29 && !LeapYear(y) then t.(year := y, month := 3, day := 1)
    else t.(year := y)
  }

  /**
   * The timestamp: exactly 16 bytes into the scratch buffer, decoded with
   * the layout; a failure to decode is an invalid timestamp, and a decoded
   * time in year 0 is moved into the current year.
   */
  function TimestampStep(s: Bytes, i: nat, lm: LogMsg, sc: Rfc3164.Scratch, nowYear: int, parse: LayoutParser)
    : (r: Rfc3164.Step)
    requires i <= |s|
    ensures i <= r.end <= |s|
    ensures r.err.None? ==> r.end == i + StampLength && r.lm == lm.(timestamp := r.lm.timestamp) && r.lm.timestamp.Some?
    ensures r.err.Some? ==> r.lm == lm
  {
    if |s| - i < StampLength then Rfc3164.Step(lm, sc.(buf := s[i..]), Some(EOF), |s|)
    else
      var b := s[i..i + StampLength];
      var t := parse(b);
      if t.None? then Rfc3164.Step(lm, sc.(buf := b), Some(InvalidTimestamp), i + StampLength)
      else
        var ts := if t.value.year == 0 then InYear(t.value, nowYear) else t.value;
        Rfc3164.Step(lm.(timestamp := Some(ts)), sc.(buf := b), None, i + StampLength)
  }

  /** The header: priority, timestamp, hostname and tag, stopping at the first error. */
  function HeaderOf(s: Bytes, i: nat, lm: LogMsg, sc: Rfc3164.Scratch, nowYear: int, parse: LayoutParser)
    : (r: Rfc3164.Step)
    requires i <= |s|
    ensures i <= r.end <= |s|
    ensures r.err.None? ==> r.lm.host.Some? && r.lm.timestamp.Some?
  {
    var a := Rfc3164.PriorityStep(s, i, lm, sc);
    if a.err.Some? then a else
    var b := TimestampStep(s, a.end, a.lm, a.sc, nowYear, parse);
    if b.err.Some? then b else
    var c := Rfc3164.HostnameStep(s, b.end, b.lm, b.sc);
    if c.err.Some? then c else
    Rfc3164.TagStep(s, c.end, c.lm, c.sc)
  }

  /**
   * A whole decode of `input`: the header with end of input reported as a
   * premature end; then, unless a newline already ended the line, the rest
   * of the line; the message length is the length of the message.
   */
  function Decode(input: Bytes, sc: Rfc3164.Scratch, nowYear: int, parse: LayoutParser): (d: Rfc3164.Decoded)
    ensures d.err != Some(EOF)
    ensures d.err.None? ==> d.lm.msgLength == |d.lm.message| && d.lm.host.Some? && d.lm.timestamp.Some?
  {
    var h := HeaderOf(input, 0, EmptyLogMsg(RFC3164), sc.(reol := false), nowYear, parse);
    if h.err.Some? then Rfc3164.Decoded(h.lm, Some(MapEOF(h.err.value)), h.sc)
    else
      var e := if h.sc.reol then h.end else Rfc3164.LineEnd(input, h.end);
      var m := h.lm.message + input[h.end..e];
      Rfc3164.Decoded(h.lm.(message := m, msgLength := |m|), None, h.sc)
  }

  // ---------------------------------------------------------------------
  // What the steps promise
  // ---------------------------------------------------------------------

  /** Moving a time into a year keeps its time of day and gives it that year. */
  lemma {:induction false} InYearSpec(t: Time, y: int)
    ensures var r := InYear(t, y);
      r.year == y && r.hour == t.hour && r.minute == t.minute && r.second == t.second
    ensures var r := InYear(t, y);
      (r.month, r.day) == (if t.month == 2 && t.day == 29 && !LeapYear(y) then (3, 1) else (t.month, t.day))
  {
  }

  /** 29 February moves to 1 March of 2023, and stays in 2024. */
  lemma LeapDayExamples(t: Time)
    requires t.month == 2 && t.day == 29
    ensures InYear(t, 2023).month == 3 && InYear(t, 2023).day == 1
    ensures InYear(t, 2024) == t.(year := 2024)
  {
  }

  /**
   * The timestamp step reads exactly 16 bytes, or all that is left with
   * end of input; it fails with an invalid timestamp exactly when the
   * layout does not match, and otherwise sets the decoded time, in the
   * current year when the layout gave none. Nothing else changes.
   */
  lemma {:induction false} TimestampStepSpec(s: Bytes, i: nat, lm: LogMsg, sc: Rfc3164.Scratch, nowYear: int, parse: LayoutParser)
    requires i <= |s|
    ensures var r := TimestampStep(s, i, lm, sc, nowYear, parse);
      r.sc == sc.(buf := s[i..r.end]) && (r.err == Some(EOF) <==> |s| - i < StampLength)
    ensures var r := TimestampStep(s, i, lm, sc, nowYear, parse);
      r.err == Some(EOF) ==> r.end == |s| && r.lm == lm
    ensures var r := TimestampStep(s, i, lm, sc, nowYear, parse);
      r.err != Some(EOF) ==>
        r.end == i + StampLength && (r.err == Some(InvalidTimestamp) <==> parse(s[i..r.end]).None?)
    ensures var r := TimestampStep(s, i, lm, sc, nowYear, parse);
      r.err == Some(InvalidTimestamp) ==> r.lm == lm
    ensures var r := TimestampStep(s, i, lm, sc, nowYear, parse);
      r.err == None ==>
        var t := parse(s[i..r.end]).value;
        r.lm == lm.(timestamp := Some(if t.year == 0 then InYear(t, nowYear) else t))
  {
  }

  /** The header keeps the record's type and reports only the errors of its steps. */
  lemma {:induction false} HeaderSpec(s: Bytes, i: nat, lm: LogMsg, sc: Rfc3164.Scratch, nowYear: int, parse: LayoutParser)
    requires i <= |s|
    ensures var h := HeaderOf(s, i, lm, sc, nowYear, parse);
      h.lm.msgType == lm.msgType && (h.err.Some? ==> h.err.value in {EOF, WrongFormat, InvalidPrio, InvalidTimestamp})
  {
    var a := Rfc3164.PriorityStep(s, i, lm, sc);
    assert a.lm.msgType == lm.msgType && (a.err.Some? ==> a.err.value in {EOF, WrongFormat, InvalidPrio}) by {
      PriorityOfSpec(s, i);
    }
    if a.err.Some? {
      return;
    }
    var b := TimestampStep(s, a.end, a.lm, a.sc, nowYear, parse);
    if b.err.Some? {
      return;
    }
    var c := Rfc3164.HostnameStep(s, b.end, b.lm, b.sc);
    assert c.err.Some? ==> c.err == Some(EOF) by {
      UntilSpaceSpec(s, b.end);
    }
    if c.err.Some? {
      return;
    }
    var d := Rfc3164.TagStep(s, c.end, c.lm, c.sc);
    assert d.lm.msgType == c.lm.msgType && (d.err.Some? ==> d.err == Some(EOF)) by {
      Rfc3164.TagStepBounded(s, c.end, c.lm, c.sc);
    }
  }

  /**
   * A decode never reports a raw end of input, its errors are those of its
   * steps, and a decoded record has the RFC 3164 type and its message
   * length set to the length of its message.
   */
  lemma {:induction false} DecodeSpec(input: Bytes, sc: Rfc3164.Scratch, nowYear: int, parse: LayoutParser)
    ensures var d := Decode(input, sc, nowYear, parse);
      d.err.Some? ==> d.err.value in {PrematureEOF, WrongFormat, InvalidPrio, InvalidTimestamp}
    ensures var d := Decode(input, sc, nowYear, parse);
      d.lm.msgType == RFC3164 && (d.err.None? ==> d.lm.msgLength == |d.lm.message|)
    // A failed header is the decode's error; after a header, the rest of the
    // line goes to the message unless a newline has already ended the line.
    ensures var h := HeaderOf(input, 0, EmptyLogMsg(RFC3164), sc.(reol := false), nowYear, parse);
      var d := Decode(input, sc, nowYear, parse);
      h.err.Some? ==> d.err == Some(MapEOF(h.err.value)) && d.lm == h.lm
    ensures var h := HeaderOf(input, 0, EmptyLogMsg(RFC3164), sc.(reol := false), nowYear, parse);
      var d := Decode(input, sc, nowYear, parse);
      h.err.None? ==>
        d.err.None? && d.sc == h.sc && d.lm.(message := h.lm.message, msgLength := h.lm.msgLength) == h.lm &&
        d.lm.message == h.lm.message + input[h.end..if h.sc.reol then h.end else Rfc3164.LineEnd(input, h.end)]
  {
    HeaderSpec(input, 0, EmptyLogMsg(RFC3164), sc.(reol := false), nowYear, parse);
  }

  // ---------------------------------------------------------------------
  // The parser object
  // ---------------------------------------------------------------------

  class Parser {
    var buf: Bytes
    var app: Bytes
    var pid: Bytes
    var reol: bool

    function State(): Rfc3164.Scratch
      reads this
    {
      Rfc3164.Scratch(buf, app, pid, reol)
    }

    constructor ()
      ensures State() == Rfc3164.Scratch([], [], [], false)
    {
      buf, app, pid, reol := [], [], [], false;
    }

    /** Decodes one message from `input`, in the year `nowYear`. */
    method ParseReader(input: Bytes, nowYear: int, parse: LayoutParser) returns (lm: LogMsg, err: Option<Error>)
      modifies this
      ensures Rfc3164.Decoded(lm, err, State()) == Decode(input, old(State()), nowYear, parse)
    {
      lm := EmptyLogMsg(RFC3164);
      reol := false;
      var r := new Reader(input);
      lm, err := ParseHeader(r, lm, nowYear, parse);
      ghost var h := HeaderOf(input, 0, EmptyLogMsg(RFC3164), old(State()).(reol := false), nowYear, parse);
      assert Rfc3164.Step(lm, State(), err, r.pos) == h;
      if err.Some? {
        return lm, Some(MapEOF(err.value));
      }
      if !reol {
        // end of input before a newline is tolerated
        var rd, _ := r.ReadSlice(LF);
        assert r.pos == Rfc3164.LineEnd(input, h.end);
        lm := lm.(message := lm.message + rd);
      }
      lm := lm.(msgLength := |lm.message|);
    }

    /** Priority, timestamp, hostname and tag, in that order; the first error stops it. */
    method ParseHeader(r: Reader, lm: LogMsg, nowYear: int, parse: LayoutParser) returns (lm': LogMsg, err: Option<Error>)
      requires r.Valid()
      modifies this, r
      ensures r.Valid()
      ensures Rfc3164.Step(lm', State(), err, r.pos) == HeaderOf(r.data, old(r.pos), lm, old(State()), nowYear, parse)
    {
      var b;
      b, lm', err := ParsePriority(r, lm);
      buf := b;
      if err.Some? {
        return;
      }
      lm', err := ParseTimestamp(r, lm', nowYear, parse);
      if err.Some? {
        return;
      }
      lm', err := ParseHostname(r, lm');
      if err.Some? {
        return;
      }
      lm', err := ParseTag(r, lm');
    }

    /** Reads exactly 16 bytes and decodes them with the layout. */
    method ParseTimestamp(r: Reader, lm: LogMsg, nowYear: int, parse: LayoutParser) returns (lm': LogMsg, err: Option<Error>)
      requires r.Valid()
      modifies this, r
      ensures r.Valid()
      ensures Rfc3164.Step(lm', State(), err, r.pos) == TimestampStep(r.data, old(r.pos), lm, old(State()), nowYear, parse)
    {
      ghost var w := r.data;
      ghost var start := r.pos;
      buf := [];
      while |buf| < StampLength
        modifies this, r
        invariant r.Valid() && start <= r.pos && r.data == w
        invariant buf == w[start..r.pos] && |buf| <= StampLength
        invariant app == old(app) && pid == old(pid) && reol == old(reol)
        decreases StampLength - |buf|
      {
        var b := r.ReadByte();
        if b.Err? {
          return lm, Some(b.error);
        }
        buf := buf + [b.value];
      }
      var ts := parse(buf);
      if ts.None? {
        return lm, Some(InvalidTimestamp);
      }
      var t := ts.value;
      if t.year == 0 {
        t := InYear(t, nowYear);
        return lm.(timestamp := Some(t)), None;
      }
      return lm.(timestamp := Some(t)), None;
    }

    /** Reads the hostname up to the next space, one byte per read. */
    method ParseHostname(r: Reader, lm: LogMsg) returns (lm': LogMsg, err: Option<Error>)
      requires r.Valid()
      modifies this, r
      ensures r.Valid()
      ensures Rfc3164.Step(lm', State(), err, r.pos) == Rfc3164.HostnameStep(r.data, old(r.pos), lm, old(State()))
    {
      buf := [];
      var h, _, e := LegacyData.ReadBytesUntilSpace(r);
      if e.Some? {
        return lm, e;
      }
      return lm.(host := Some(h)), None;
    }

    /**
     * Sorts one tag byte: ':' marks a tag, the first '[' opens the pid and
     * the next ']' closes it, and each of these is counted in `sb`; other
     * bytes go to the pid inside the brackets and to the app name outside.
     */
    static method SortTagByte(b: byte, hasColon: bool, inPid: bool, app: Bytes, pid: Bytes, sb: nat,
                              ghost scanned: Bytes, ghost eol: bool)
      returns (hasColon': bool, inPid': bool, app': Bytes, pid': Bytes, sb': nat)
      ensures Rfc3164.TagScan(scanned, app', pid', hasColon', inPid', eol, false)
           == Rfc3164.Classify(Rfc3164.TagScan(scanned, app, pid, hasColon, inPid, eol, false), b)
      ensures sb' + |app'| + |pid'| == sb + |app| + |pid| + 1
    {
      hasColon', inPid', app', pid', sb' := hasColon, inPid, app, pid, sb;
      if b == COLON {
        hasColon' := true;
        sb' := sb + 1;
      } else if b == LBRACKET && !inPid {
        inPid' := true;
        sb' := sb + 1;
      } else if b == RBRACKET && inPid {
        inPid' := false;
        sb' := sb + 1;
      } else if !inPid {
        app' := app + [b];
      } else {
        pid' := pid + [b];
      }
    }

    /**
     * The scan loop of the tag parse: up to 32 bytes into the scratch
     * buffer, sorted into the app and pid buffers; `sb` counts the bytes
     * that went to neither, so that it and the two buffers' lengths add up
     * to the bytes read.
     */
    method ScanTagBytes(r: Reader) returns (hasColon: bool, inPid: bool, sb: nat, err: Option<Error>)
      requires r.Valid()
      modifies this, r
      ensures r.Valid()
      ensures Rfc3164.ScanTag(r.data, old(r.pos), Rfc3164.ScanStart(old(reol))) ==
                Rfc3164.TagScan(buf, app, pid, hasColon, inPid, reol, err.Some?)
      ensures err.Some? ==> err == Some(EOF)
      ensures r.pos == old(r.pos) + |buf|
      ensures sb + |app| + |pid| == |buf|
    {
      ghost var w := r.data;
      ghost var goal := Rfc3164.ScanTag(w, r.pos, Rfc3164.ScanStart(reol));
      var scanned, tagApp, tagPid, eol := [], [], [], reol;
      hasColon, inPid := false, false;
      sb := 0;
      err := None;
      var stop := false;
      while |scanned| < Rfc3164.MaxTagLength && !stop
        modifies r
        invariant r.Valid() && r.data == w
        invariant |scanned| <= Rfc3164.MaxTagLength && r.pos == old(r.pos) + |scanned|
        invariant sb + |tagApp| + |tagPid| == |scanned|
        invariant !stop ==> err == None
        invariant !stop ==> goal == Rfc3164.ScanTag(w, r.pos, Rfc3164.TagScan(scanned, tagApp, tagPid, hasColon, inPid, eol, false))
        invariant stop ==> goal == Rfc3164.TagScan(scanned, tagApp, tagPid, hasColon, inPid, eol, err.Some?)
        invariant err.Some? ==> err == Some(EOF)
        decreases Rfc3164.MaxTagLength - |scanned|, if stop then 0 else 1
      {
        var b := r.ReadByte();
        if b.Err? {
          err, stop := Some(b.error), true;
        } else {
          scanned := scanned + [b.value];
          if b.value == LF {
            sb := sb + 1;
            eol, stop := true, true;
          } else if b.value == SP {
            sb := sb + 1;
            stop := true;
          } else {
            hasColon, inPid, tagApp, tagPid, sb := SortTagByte(b.value, hasColon, inPid, tagApp, tagPid, sb, scanned, eol);
          }
        }
      }
      buf, app, pid, reol := scanned, tagApp, tagPid, eol;
    }

    /**
     * The tag scan, then what it records, then the message continuation
     * from the byte count reached, up to 32 bytes in all; it stops after a
     * newline, which sets the end-of-line flag, and end of input ends it
     * without an error.
     */
    method ParseTag(r: Reader, lm: LogMsg) returns (lm': LogMsg, err: Option<Error>)
      requires r.Valid()
      modifies this, r
      ensures r.Valid()
      ensures Rfc3164.Step(lm', State(), err, r.pos) == Rfc3164.TagStep(r.data, old(r.pos), lm, old(State()))
    {
      var hasColon, inPid, sb;
      hasColon, inPid, sb, err := ScanTagBytes(r);
      if err.Some? {
        return lm, err;
      }
      var x;
      lm', x := RecordTag(lm, hasColon, inPid, sb);
      ghost var mid, lm1, sc1 := r.pos, lm', State();
      assert Rfc3164.TagStep(r.data, old(r.pos), lm, old(State())) == Rfc3164.ContentStep(r.data, mid, lm1, sc1, x);
      var content, newline := Rfc3164.ReadContent(r, x);
      if newline {
        reol := true;
      }
      lm' := lm'.(message := lm'.message + content);
      err := None;
      assert Rfc3164.Step(lm', State(), err, r.pos) == Rfc3164.ContentStep(r.data, mid, lm1, sc1, x);
    }

    /**
     * What the scan records: for an accepted tag, the app name and the pid,
     * with their lengths added to `sb`; without one, the scanned bytes go
     * to the message. Either way the count reached is the number of bytes
     * the scan read, which is where the continuation's budget starts.
     */
    method RecordTag(lm: LogMsg, hasColon: bool, inPid: bool, sb: nat) returns (lm': LogMsg, x: nat)
      requires sb + |app| + |pid| == |buf|
      ensures lm' == Rfc3164.TagFields(lm, Rfc3164.TagScan(buf, app, pid, hasColon, inPid, reol, false))
      ensures x == |buf|
    {
      var count := sb;
      if hasColon && |app| > 0 {
        lm' := lm;
        if |app| > 0 {
          lm' := lm'.(app := Some(app));
          count := count + |app|;
        }
        if |pid| > 0 {
          lm' := lm'.(pid := Some(pid));
          count := count + |pid|;
        }
        return lm', count;
      }
      lm' := lm;
      if |buf| > 0 {
        lm' := lm'.(message := lm'.message + buf);
      }
      return lm', |buf|;
    }
  }
}
