/**
 * The RFC 3164 decoder: `<PRI>`, the fixed 15-byte timestamp, the
 * hostname, then the 32-byte tag heuristic (section 4.1.3 of RFC 3164
 * limits a TAG to 32 characters), then the rest of the line.
 *
 * The parser object keeps scratch buffers and the end-of-line flag
 * between calls. The functions of this module say, for the window of
 * input bytes, the position a step starts at and the parser's scratch
 * state before it, what the step records, which scratch state it leaves
 * and where it stops reading; the methods of class `Parser` are proved to
 * do exactly that.
 */
module Rfc3164 {
  import opened SyslogTypes
  import opened LogMessage
  import opened Cursor
  import opened Common
  import Rfc3164Date

  /** The byte budget of the tag scan and its continuation. */
  const MaxTagLength: nat := 32

  /** The parser object's scratch state. */
  datatype Scratch = Scratch(buf: Bytes, app: Bytes, pid: Bytes, reol: bool)

  /**
   * One decoding step: the record, the scratch state, the error, and the
   * position in the window where the step stopped reading.
   */
  datatype Step = Step(lm: LogMsg, sc: Scratch, err: Option<Error>, end: nat)

  /** A whole decode: the record, the error and the scratch state left behind. */
  datatype Decoded = Decoded(lm: LogMsg, err: Option<Error>, sc: Scratch)

  // ---------------------------------------------------------------------
  // The tag scan
  // ---------------------------------------------------------------------

  /** The state of the tag scan: every byte read, the two accumulators and the flags. */
  datatype TagScan = TagScan(buf: Bytes, app: Bytes, pid: Bytes, hasColon: bool, inPid: bool,
                             reol: bool, eof: bool)

  /**
   * One byte that does not end the scan: ':' marks a tag, the first '['
   * opens the pid and the next ']' closes it; any other byte goes to the
   * pid inside the brackets and to the app outside them.
   */
  function Classify(st: TagScan, b: byte): (c: TagScan)
    ensures c.buf == st.buf && c.reol == st.reol && c.eof == st.eof
  {
    if b == COLON then st.(hasColon := true)
    else if b == LBRACKET && !st.inPid then st.(inPid := true)
    else if b == RBRACKET && st.inPid then st.(inPid := false)
    else if !st.inPid then st.(app := st.app + [b])
    else st.(pid := st.pid + [b])
  }

  /** The bytes neither accumulator may hold outside the pid. */
  predicate AppByte(b: byte) { b != COLON && b != LBRACKET && b != SP && b != LF }

  /** The bytes neither accumulator may hold inside the pid. */
  predicate PidByte(b: byte) { b != COLON && b != RBRACKET && b != SP && b != LF }

  /** What the accumulators of a scan state may hold. */
  predicate ScanInvariant(st: TagScan)
  {
    |st.buf| <= MaxTagLength &&
    |st.app| + |st.pid| <= |st.buf| &&
    (forall i :: 0 <= i < |st.app| ==> AppByte(st.app[i])) &&
    (forall i :: 0 <= i < |st.pid| ==> PidByte(st.pid[i]))
  }

  /**
   * The tag scan from state `st` over the bytes of `s` from index `i` on:
   * it reads until the buffer holds 32 bytes, and stops early after a
   * newline (which sets the end-of-line flag), after a space, or at end of
   * input.
   */
  function ScanTag(s: Bytes, i: nat, st: TagScan): (r: TagScan)
    requires i <= |s| && |st.buf| <= MaxTagLength && !st.eof
    ensures |st.buf| <= |r.buf| <= MaxTagLength && |r.buf| - |st.buf| <= |s| - i
    decreases MaxTagLength - |st.buf|
  {
    if |st.buf| == MaxTagLength then st
    else if i == |s| then st.(eof := true)
    else if EndsScan(s[i]) then Advance(st, s[i])
    else ScanTag(s, i + 1, Advance(st, s[i]))
  }

  /** The bytes after which the scan stops. */
  predicate EndsScan(b: byte)
  {
    b == LF || b == SP
  }

  /**
   * One byte of the scan: it goes to the buffer; a newline sets the
   * end-of-line flag, and any other byte but a space is classified.
   */
  function Advance(st: TagScan, b: byte): (r: TagScan)
    ensures r.buf == st.buf + [b] && r.eof == st.eof
  {
    var st1 := st.(buf := st.buf + [b]);
    if b == LF then st1.(reol := true)
    else if b == SP then st1
    else Classify(st1, b)
  }

  /**
   * The scan reads the bytes from `i` on, and all of them when it hits end
   * of input, which can only happen before the budget is full.
   */
  lemma {:induction false} ScanTagPrefix(s: Bytes, i: nat, st: TagScan)
    requires i <= |s| && |st.buf| <= MaxTagLength && !st.eof
    ensures var r := ScanTag(s, i, st);
      r.buf == st.buf + s[i..i + |r.buf| - |st.buf|]
    ensures var r := ScanTag(s, i, st);
      r.eof ==> r.buf == st.buf + s[i..] && |r.buf| < MaxTagLength
    decreases MaxTagLength - |st.buf|
  {
    var r := ScanTag(s, i, st);
    if |st.buf| == MaxTagLength {
      assert r == st;
    } else if i == |s| {
      assert r.buf == st.buf;
    } else if EndsScan(s[i]) {
      assert s[i..i + 1] == [s[i]];
    } else {
      var st2 := Advance(st, s[i]);
      ScanTagPrefix(s, i + 1, st2);
      assert r == ScanTag(s, i + 1, st2);
      assert s[i..i + |r.buf| - |st.buf|] == [s[i]] + s[i + 1..i + 1 + |r.buf| - |st2.buf|];
      assert s[i..] == [s[i]] + s[i + 1..];
    }
  }

  /**
   * A scan that neither hits end of input nor fills its budget stopped at
   * a space or a newline, the last byte it read; the end-of-line flag is
   * only ever set, and only by a newline.
   */
  lemma {:induction false} ScanTagStop(s: Bytes, i: nat, st: TagScan)
    requires i <= |s| && |st.buf| <= MaxTagLength && !st.eof
    ensures var r := ScanTag(s, i, st);
      !r.eof && |r.buf| < MaxTagLength ==> |r.buf| > |st.buf| && EndsScan(r.buf[|r.buf| - 1])
    ensures st.reol ==> ScanTag(s, i, st).reol
    ensures var r := ScanTag(s, i, st);
      r.reol && !st.reol ==> !r.eof && |r.buf| > |st.buf| && r.buf[|r.buf| - 1] == LF
    decreases MaxTagLength - |st.buf|
  {
    if |st.buf| < MaxTagLength && i < |s| && !EndsScan(s[i]) {
      var st2 := Advance(st, s[i]);
      ScanTagStop(s, i + 1, st2);
      assert ScanTag(s, i, st) == ScanTag(s, i + 1, st2);
    }
  }

  /**
   * The scan keeps its accumulators apart from its delimiters: the app
   * name never holds ':', '[', a space or a newline, the pid never holds
   * ':', ']', a space or a newline, and together they are no longer than
   * the bytes read.
   */
  lemma {:induction false} ScanTagKeepsInvariant(s: Bytes, i: nat, st: TagScan)
    requires i <= |s| && ScanInvariant(st) && !st.eof
    ensures ScanInvariant(ScanTag(s, i, st))
    decreases MaxTagLength - |st.buf|
  {
    if |st.buf| < MaxTagLength && i < |s| && !EndsScan(s[i]) {
      var b := s[i];
      var st1 := st.(buf := st.buf + [b]);
      var st2 := Classify(st1, b);
      assert ScanInvariant(st2) by {
        if !st1.inPid && b != COLON && b != LBRACKET {
          assert st2.app == st.app + [b];
          assert forall k :: 0 <= k < |st2.app| ==> AppByte(st2.app[k]) by {
            forall k | 0 <= k < |st2.app| ensures AppByte(st2.app[k]) {
              if k < |st.app| { assert st2.app[k] == st.app[k]; }
            }
          }
        }
        if st1.inPid && b != COLON && b != RBRACKET {
          assert st2.pid == st.pid + [b];
          assert forall k :: 0 <= k < |st2.pid| ==> PidByte(st2.pid[k]) by {
            forall k | 0 <= k < |st2.pid| ensures PidByte(st2.pid[k]) {
              if k < |st.pid| { assert st2.pid[k] == st.pid[k]; }
            }
          }
        }
      }
      ScanTagKeepsInvariant(s, i + 1, st2);
    }
  }

  /** The scan's state before the first byte. */
  function ScanStart(reol: bool): TagScan
  {
    TagScan([], [], [], false, false, reol, false)
  }

  /** A scan accepts a tag when a colon was seen and the app name is not empty. */
  predicate Accepted(t: TagScan)
  {
    t.hasColon && |t.app| > 0
  }

  /**
   * Where the message continuation stops when it starts at `i` with `x`
   * bytes of the 32-byte budget already used: at the budget, at end of
   * input, or right after the first newline.
   */
  function ContentEnd(s: Bytes, i: nat, x: nat): (k: nat)
    requires i <= |s|
    ensures i <= k <= |s|
    ensures x <= MaxTagLength ==> k - i <= MaxTagLength - x
    decreases MaxTagLength - x
  {
    if x >= MaxTagLength || i == |s| then i
    else if s[i] == LF then i + 1
    else ContentEnd(s, i + 1, x + 1)
  }

  /** The continuation read a newline: it is the last byte it read. */
  predicate EndsLine(s: Bytes, i: nat, k: nat)
    requires i <= k <= |s|
  {
    i < k && s[k - 1] == LF
  }

  /**
   * The continuation holds no newline but possibly its last byte, and it
   * stops only at end of input, at the budget or after that newline.
   */
  lemma {:induction false} ContentEndSpec(s: Bytes, i: nat, x: nat)
    requires i <= |s| && x <= MaxTagLength
    ensures var k := ContentEnd(s, i, x);
      LF !in s[i..if EndsLine(s, i, k) then k - 1 else k] &&
      (k == |s| || k - i == MaxTagLength - x || EndsLine(s, i, k))
    decreases MaxTagLength - x
  {
    var k := ContentEnd(s, i, x);
    if x < MaxTagLength && i < |s| && s[i] != LF {
      ContentEndSpec(s, i + 1, x + 1);
      var j := if EndsLine(s, i, k) then k - 1 else k;
      assert s[i..j] == [s[i]] + s[i + 1..j];
    }
  }

  /**
   * What an accepted tag records: the app name and, when not empty, the
   * pid. Without a tag, every scanned byte goes to the front of the message.
   */
  function TagFields(lm: LogMsg, t: TagScan): LogMsg
  {
    if Accepted(t) then lm.(app := Some(t.app), pid := if |t.pid| > 0 then Some(t.pid) else lm.pid)
    else lm.(message := lm.message + t.buf)
  }

  /**
   * The message continuation from position `i`, with `x` bytes of the
   * 32-byte budget already used: the bytes it reads go to the message,
   * and a newline among them sets the end-of-line flag.
   */
  function ContentStep(s: Bytes, i: nat, lm: LogMsg, sc: Scratch, x: nat): (r: Step)
    requires i <= |s|
    ensures i <= r.end <= |s|
    ensures x <= MaxTagLength ==> r.end - i <= MaxTagLength - x
    ensures r.err.None? && r.lm == lm.(message := lm.message + s[i..r.end])
  {
    var k := ContentEnd(s, i, x);
    Step(lm.(message := lm.message + s[i..k]), sc.(reol := sc.reol || EndsLine(s, i, k)), None, k)
  }

  /**
   * The parse of the tag from position `i`: the scan, then what it
   * records and the continuation. End of input during the scan is an
   * error, during the continuation it is not.
   */
  function TagStep(s: Bytes, i: nat, lm: LogMsg, sc: Scratch): (r: Step)
    requires i <= |s|
    ensures i <= r.end <= |s|
    ensures r.err.Some? ==> r.err == Some(EOF) && r.lm == lm
    ensures r.lm.host == lm.host && r.lm.timestamp == lm.timestamp && r.lm.priority == lm.priority
  {
    var t := ScanTag(s, i, ScanStart(sc.reol));
    var sc' := Scratch(t.buf, t.app, t.pid, t.reol);
    if t.eof then Step(lm, sc', Some(EOF), i + |t.buf|)
    else ContentStep(s, i + |t.buf|, TagFields(lm, t), sc', |t.buf|)
  }

  // ---------------------------------------------------------------------
  // The header steps
  // ---------------------------------------------------------------------

  /** `<PRI>`, read into the scratch buffer. */
  function PriorityStep(s: Bytes, i: nat, lm: LogMsg, sc: Scratch): (r: Step)
    requires i <= |s|
    ensures i <= r.end <= |s|
    ensures r.sc == sc.(buf := r.sc.buf)
    ensures r.err.Some? ==> r.lm == lm
    ensures r.err.None? ==> r.lm == WithPriority(lm, r.lm.priority) && i + 2 <= r.end && s[i] == LANGLE && s[r.end - 1] == RANGLE
  {
    var p := PriorityOf(s, i);
    if p.prio.Ok? then Step(WithPriority(lm, p.prio.value), sc.(buf := p.buf), None, p.end)
    else Step(lm, sc.(buf := p.buf), Some(p.prio.error), p.end)
  }

  /**
   * The timestamp: exactly 15 bytes into the scratch buffer, then one more
   * byte discarded unchecked, then the 15 bytes decoded. The record's
   * timestamp is the decoded time, or unset when decoding fails.
   */
  function TimestampStep(s: Bytes, i: nat, lm: LogMsg, sc: Scratch, now: Rfc3164Date.Clock): (r: Step)
    requires i <= |s|
    ensures i <= r.end <= |s|
    ensures r.err.None? ==> r.end == i + Rfc3164Date.TimestampLength + 1 && r.lm.timestamp.Some?
    ensures |s| - i < Rfc3164Date.TimestampLength ==> r.err == Some(EOF)
    ensures |s| - i == Rfc3164Date.TimestampLength ==> r.err == Some(DiscardFailed)
    ensures |s| - i > Rfc3164Date.TimestampLength ==>
              var t := Rfc3164Date.ParseTimestamp(s[i..i + Rfc3164Date.TimestampLength], now);
              (t.Err? ==> r.err == Some(t.error)) &&
              (t.Ok? ==> r.err.None? && r.lm == lm.(timestamp := Some(t.value)))
  {
    var n := Rfc3164Date.TimestampLength;
    if |s| - i < n then Step(lm, sc.(buf := s[i..]), Some(EOF), |s|)
    else if |s| - i == n then Step(lm, sc.(buf := s[i..]), Some(DiscardFailed), |s|)
    else
      var t := Rfc3164Date.ParseTimestamp(s[i..i + n], now);
      Step(lm.(timestamp := if t.Ok? then Some(t.value) else None), sc.(buf := s[i..i + n]),
           if t.Ok? then None else Some(t.error), i + n + 1)
  }

  /** The hostname: the bytes before the next space, assigned verbatim. */
  function HostnameStep(s: Bytes, i: nat, lm: LogMsg, sc: Scratch): (r: Step)
    requires i <= |s|
    ensures i <= r.end <= |s|
    ensures r.err.None? ==> i < r.end && s[r.end - 1] == SP && r.lm == lm.(host := Some(s[i..r.end - 1]))
  {
    var f := UntilSpace(s, i);
    if f.err.Some? then Step(lm, sc.(buf := []), f.err, f.end)
    else Step(lm.(host := Some(f.bytes)), sc.(buf := []), None, f.end)
  }

  /** The header: priority, timestamp, hostname and tag, stopping at the first error. */
  function HeaderOf(s: Bytes, i: nat, lm: LogMsg, sc: Scratch, now: Rfc3164Date.Clock): (r: Step)
    requires i <= |s|
    ensures i <= r.end <= |s|
    ensures r.err.None? ==> r.lm.host.Some? && r.lm.timestamp.Some?
  {
    var a := PriorityStep(s, i, lm, sc);
    if a.err.Some? then a else
    var b := TimestampStep(s, a.end, a.lm, a.sc, now);
    if b.err.Some? then b else
    var c := HostnameStep(s, b.end, b.lm, b.sc);
    if c.err.Some? then c else
    TagStep(s, c.end, c.lm, c.sc)
  }

  /** Where the rest of the line ends: after the next newline, or at end of input. */
  function LineEnd(s: Bytes, i: nat): (k: nat)
    requires i <= |s|
    ensures i <= k <= |s|
    ensures (k == |s| && LF !in s[i..]) || (i < k && s[k - 1] == LF && LF !in s[i..k - 1])
  {
    IndexFromFirst(s, i, LF);
    var j := IndexFrom(s, i, LF);
    if j < |s| then j + 1 else |s|
  }

  /**
   * A whole decode of `input`: the header with end of input reported as a
   * premature end; then, unless a newline already ended the line, the rest
   * of the line; the message length is the length of the message.
   */
  function Decode(input: Bytes, sc: Scratch, now: Rfc3164Date.Clock): (d: Decoded)
    ensures d.err != Some(EOF)
    ensures d.err.None? ==> d.lm.msgLength == |d.lm.message| && d.lm.host.Some? && d.lm.timestamp.Some?
  {
    var h := HeaderOf(input, 0, EmptyLogMsg(RFC3164), sc.(reol := false), now);
    if h.err.Some? then Decoded(h.lm, Some(MapEOF(h.err.value)), h.sc)
    else
      var e := if h.sc.reol then h.end else LineEnd(input, h.end);
      var m := h.lm.message + input[h.end..e];
      Decoded(h.lm.(message := m, msgLength := |m|), None, h.sc)
  }

  // ---------------------------------------------------------------------
  // What the steps promise
  // ---------------------------------------------------------------------

  /**
   * The tag and its continuation read at most 32 bytes, and the scratch
   * buffer holds the bytes the scan read. End of input during the scan is
   * the step's only error; it leaves the input exhausted and the record
   * untouched.
   */
  lemma {:induction false} TagStepBounded(s: Bytes, i: nat, lm: LogMsg, sc: Scratch)
    requires i <= |s|
    ensures var r := TagStep(s, i, lm, sc);
      r.end - i <= MaxTagLength && i + |r.sc.buf| <= r.end && r.sc.buf == s[i..i + |r.sc.buf|]
    ensures var r := TagStep(s, i, lm, sc);
      r.err.Some? ==> r.err == Some(EOF) && r.end == |s| && r.lm == lm
  {
    var t := ScanTag(s, i, ScanStart(sc.reol));
    ScanTagPrefix(s, i, ScanStart(sc.reol));
    assert t.buf == s[i..i + |t.buf|];
  }

  /**
   * A tag that is accepted records its app name, which is not empty and
   * holds no ':', '[', space or newline, and its pid only when that is not
   * empty, free of ':', ']', spaces and newlines; the message gets the
   * bytes after the tag verbatim.
   */
  lemma {:induction false} TagStepAcceptedSpec(s: Bytes, i: nat, lm: LogMsg, sc: Scratch)
    requires i <= |s|
    ensures var t := ScanTag(s, i, ScanStart(sc.reol));
      var r := TagStep(s, i, lm, sc);
      !t.eof && Accepted(t) ==>
        r.err.None? && r.lm.app == Some(t.app) && |t.app| > 0 &&
        (forall k :: 0 <= k < |t.app| ==> AppByte(t.app[k])) &&
        (if |t.pid| > 0 then r.lm.pid == Some(t.pid) && forall k :: 0 <= k < |t.pid| ==> PidByte(t.pid[k])
         else r.lm.pid == lm.pid) &&
        r.lm.message == lm.message + s[i + |t.buf|..r.end] &&
        r.lm.host == lm.host && r.lm.timestamp == lm.timestamp && r.lm.priority == lm.priority
  {
    ScanTagKeepsInvariant(s, i, ScanStart(sc.reol));
  }

  /**
   * Without an accepted tag nothing but the message changes, and it gets
   * every byte the step read, the scanned ones included.
   */
  lemma {:induction false} TagStepNoTagSpec(s: Bytes, i: nat, lm: LogMsg, sc: Scratch)
    requires i <= |s|
    ensures var t := ScanTag(s, i, ScanStart(sc.reol));
      var r := TagStep(s, i, lm, sc);
      !t.eof && !Accepted(t) ==> r.err.None? && r.lm == lm.(message := lm.message + s[i..r.end])
  {
    if !ScanTag(s, i, ScanStart(sc.reol)).eof && !Accepted(ScanTag(s, i, ScanStart(sc.reol))) {
      NoTagStep(s, i, lm, sc, ScanTag(s, i, ScanStart(sc.reol)));
    }
  }

  /** A scan `t` that found no tag: the step's message gets every byte it read. */
  lemma NoTagStep(s: Bytes, i: nat, lm: LogMsg, sc: Scratch, t: TagScan)
    requires i <= |s| && t == ScanTag(s, i, ScanStart(sc.reol)) && !t.eof && !Accepted(t)
    ensures TagStep(s, i, lm, sc).err.None?
    ensures TagStep(s, i, lm, sc).lm == lm.(message := lm.message + s[i..TagStep(s, i, lm, sc).end])
  {
    assert t.buf == s[i..i + |t.buf|] by {
      ScanTagPrefix(s, i, ScanStart(sc.reol));
    }
    assert TagStep(s, i, lm, sc) == ContentStep(s, i + |t.buf|, TagFields(lm, t), Scratch(t.buf, t.app, t.pid, t.reol), |t.buf|);
    UnacceptedTagMessage(s, i, lm, Scratch(t.buf, t.app, t.pid, t.reol), t);
  }

  /** The continuation after a scan that found no tag extends the scanned bytes in the message. */
  lemma UnacceptedTagMessage(s: Bytes, i: nat, lm: LogMsg, sc: Scratch, t: TagScan)
    requires i + |t.buf| <= |s| && t.buf == s[i..i + |t.buf|] && !Accepted(t)
    ensures var r := ContentStep(s, i + |t.buf|, TagFields(lm, t), sc, |t.buf|);
      r.lm == lm.(message := lm.message + s[i..r.end])
  {
    AppendSlices(lm.message, s, i, i + |t.buf|, ContentEnd(s, i + |t.buf|, |t.buf|));
  }

  /** Appending two adjacent slices appends the slice that spans both. */
  lemma AppendSlices(m: Bytes, s: Bytes, i: nat, j: nat, k: nat)
    requires i <= j <= k <= |s|
    ensures m + s[i..j] + s[j..k] == m + s[i..k]
  {
    JoinSlices(s, i, j, k);
    assert m + s[i..j] + s[j..k] == m + (s[i..j] + s[j..k]);
  }

  /** A byte that does not end the scan is read and the scan goes on. */
  lemma ScanStep(s: Bytes, i: nat, st: TagScan)
    requires i < |s| && |st.buf| < MaxTagLength && !st.eof && !EndsScan(s[i])
    ensures ScanTag(s, i, st) == ScanTag(s, i + 1, Advance(st, s[i]))
  {
  }

  /**
   * A run of app bytes outside the pid goes, byte for byte, to the buffer
   * and to the app name.
   */
  lemma {:induction false} ScanAppRun(s: Bytes, i: nat, j: nat, st: TagScan)
    requires i <= j <= |s| && |st.buf| + (j - i) <= MaxTagLength && !st.eof && !st.inPid
    requires forall m :: i <= m < j ==> AppByte(s[m])
    ensures ScanTag(s, i, st) == ScanTag(s, j, st.(buf := st.buf + s[i..j], app := st.app + s[i..j]))
    decreases j - i
  {
    if i == j {
      assert st.buf + s[i..j] == st.buf && st.app + s[i..j] == st.app;
    } else {
      AppByteStep(s, i, st);
      ScanAppRun(s, i + 1, j, st.(buf := st.buf + [s[i]], app := st.app + [s[i]]));
      ConsSlice(st.buf, s, i, j);
      ConsSlice(st.app, s, i, j);
    }
  }

  lemma AppByteStep(s: Bytes, i: nat, st: TagScan)
    requires i < |s| && AppByte(s[i]) && |st.buf| < MaxTagLength && !st.eof && !st.inPid
    ensures ScanTag(s, i, st) == ScanTag(s, i + 1, st.(buf := st.buf + [s[i]], app := st.app + [s[i]]))
  {
    assert Advance(st, s[i]) == st.(buf := st.buf + [s[i]], app := st.app + [s[i]]);
    ScanStep(s, i, st);
  }

  /** A byte and the slice after it make up the slice from that byte on. */
  lemma ConsSlice(b: Bytes, s: Bytes, i: nat, j: nat)
    requires i < j <= |s|
    ensures b + [s[i]] + s[i + 1..j] == b + s[i..j]
  {
    assert s[i..j] == [s[i]] + s[i + 1..j];
  }

  /** A run of pid bytes inside the pid goes to the buffer and to the pid. */
  lemma {:induction false} ScanPidRun(s: Bytes, i: nat, j: nat, st: TagScan)
    requires i <= j <= |s| && |st.buf| + (j - i) <= MaxTagLength && !st.eof && st.inPid
    requires forall m :: i <= m < j ==> PidByte(s[m])
    ensures ScanTag(s, i, st) == ScanTag(s, j, st.(buf := st.buf + s[i..j], pid := st.pid + s[i..j]))
    decreases j - i
  {
    if i == j {
      assert st.buf + s[i..j] == st.buf && st.pid + s[i..j] == st.pid;
    } else {
      PidByteStep(s, i, st);
      ScanPidRun(s, i + 1, j, st.(buf := st.buf + [s[i]], pid := st.pid + [s[i]]));
      ConsSlice(st.buf, s, i, j);
      ConsSlice(st.pid, s, i, j);
    }
  }

  lemma PidByteStep(s: Bytes, i: nat, st: TagScan)
    requires i < |s| && PidByte(s[i]) && |st.buf| < MaxTagLength && !st.eof && st.inPid
    ensures ScanTag(s, i, st) == ScanTag(s, i + 1, st.(buf := st.buf + [s[i]], pid := st.pid + [s[i]]))
  {
    assert Advance(st, s[i]) == st.(buf := st.buf + [s[i]], pid := st.pid + [s[i]]);
    ScanStep(s, i, st);
  }

  /** The closing `]: ` of a pid ends the scan with a tag. */
  lemma ScanPidClose(s: Bytes, m: nat, st: TagScan)
    requires m + 3 <= |s| && s[m] == RBRACKET && s[m + 1] == COLON && s[m + 2] == SP
    requires |st.buf| + 3 <= MaxTagLength && !st.eof && st.inPid
    ensures ScanTag(s, m, st) ==
            st.(buf := st.buf + [RBRACKET, COLON, SP], inPid := false, hasColon := true)
  {
    var st4 := st.(buf := st.buf + [RBRACKET], inPid := false);
    assert Advance(st, s[m]) == st4;
    ScanStep(s, m, st);
    var st5 := st4.(buf := st4.buf + [COLON], hasColon := true);
    assert Advance(st4, s[m + 1]) == st5;
    ScanStep(s, m + 1, st4);
    assert st5.buf + [SP] == st.buf + [RBRACKET, COLON, SP];
  }

  /** From the opening '[', a pid and the closing `]: ` end the scan with a tag. */
  lemma {:induction false} ScanPidTail(s: Bytes, j: nat, m: nat, st: TagScan)
    requires j < m && m + 3 <= |s| && |st.buf| + (m + 3 - j) <= MaxTagLength && !st.eof && !st.inPid
    requires s[j] == LBRACKET
    requires forall k :: j + 1 <= k < m ==> PidByte(s[k])
    requires s[m] == RBRACKET && s[m + 1] == COLON && s[m + 2] == SP
    ensures ScanTag(s, j, st) == st.(buf := st.buf + s[j..m + 3], pid := st.pid + s[j + 1..m], hasColon := true)
  {
    ScanPidOpen(s, j, st);
    ScanPidRun(s, j + 1, m, st.(buf := st.buf + [LBRACKET], inPid := true));
    assert st.(buf := st.buf + [LBRACKET], inPid := true).(
             buf := st.buf + [LBRACKET] + s[j + 1..m], pid := st.pid + s[j + 1..m]) ==
           st.(buf := st.buf + [LBRACKET] + s[j + 1..m], pid := st.pid + s[j + 1..m], inPid := true);
    ScanPidClose(s, m, st.(buf := st.buf + [LBRACKET] + s[j + 1..m], pid := st.pid + s[j + 1..m], inPid := true));
    PidTailBytes(st.buf, s, j, m);
  }

  /** The '[' that opens the pid goes to the buffer and starts the pid. */
  lemma ScanPidOpen(s: Bytes, j: nat, st: TagScan)
    requires j < |s| && s[j] == LBRACKET && |st.buf| < MaxTagLength && !st.eof && !st.inPid
    ensures ScanTag(s, j, st) == ScanTag(s, j + 1, st.(buf := st.buf + [LBRACKET], inPid := true))
  {
    ScanStep(s, j, st);
  }

  /** The bytes of `[PID]: ` after a buffer, as one slice. */
  lemma PidTailBytes(b: Bytes, s: Bytes, j: nat, m: nat)
    requires j < m && m + 3 <= |s| && s[j] == LBRACKET
    requires s[m] == RBRACKET && s[m + 1] == COLON && s[m + 2] == SP
    ensures b + [LBRACKET] + s[j + 1..m] + [RBRACKET, COLON, SP] == b + s[j..m + 3]
  {
    assert s[j..m + 3] == [s[j]] + s[j + 1..m] + [s[m], s[m + 1], s[m + 2]];
  }

  /**
   * The tag `app[pid]: `, with the app name at `i..j` and the pid at
   * `j+1..m`, is scanned into its app name and its pid.
   */
  lemma {:induction false} ScanTagWithPid(s: Bytes, i: nat, j: nat, m: nat, reol: bool)
    requires i <= j < m && m + 3 <= |s| && m + 3 - i <= MaxTagLength
    requires forall k :: i <= k < j ==> AppByte(s[k])
    requires s[j] == LBRACKET
    requires forall k :: j + 1 <= k < m ==> PidByte(s[k])
    requires s[m] == RBRACKET && s[m + 1] == COLON && s[m + 2] == SP
    ensures ScanTag(s, i, ScanStart(reol)) == TagScan(s[i..m + 3], s[i..j], s[j + 1..m], true, false, reol, false)
  {
    ScanAppRun(s, i, j, ScanStart(reol));
    var st1 := ScanStart(reol).(buf := [] + s[i..j], app := [] + s[i..j]);
    ScanPidTail(s, j, m, st1);
    assert [] + s[i..j] + s[j..m + 3] == s[i..m + 3];
  }

  /** The tag `app: `, with the app name at `i..j`, is scanned into its app name, with no pid. */
  lemma {:induction false} ScanTagNoPid(s: Bytes, i: nat, j: nat, reol: bool)
    requires i <= j && j + 2 <= |s| && j + 2 - i <= MaxTagLength
    requires forall k :: i <= k < j ==> AppByte(s[k])
    requires s[j] == COLON && s[j + 1] == SP
    ensures ScanTag(s, i, ScanStart(reol)) == TagScan(s[i..j + 2], s[i..j], [], true, false, reol, false)
  {
    ScanAppRun(s, i, j, ScanStart(reol));
    var st1 := TagScan(s[i..j], s[i..j], [], false, false, reol, false);
    assert ScanStart(reol).(buf := [] + s[i..j], app := [] + s[i..j]) == st1;
    var st2 := TagScan(s[i..j] + [COLON], s[i..j], [], true, false, reol, false);
    assert Advance(st1, s[j]) == st2;
    ScanStep(s, j, st1);
    assert s[i..j + 2] == s[i..j] + [COLON, SP];
  }

  /** A step whose scan ends before end of input is the scan's record and its continuation. */
  lemma TagStepOfScan(s: Bytes, i: nat, lm: LogMsg, sc: Scratch, t: TagScan)
    requires i <= |s| && ScanTag(s, i, ScanStart(sc.reol)) == t && !t.eof
    ensures i + |t.buf| <= |s|
    ensures TagStep(s, i, lm, sc) ==
            ContentStep(s, i + |t.buf|, TagFields(lm, t), Scratch(t.buf, t.app, t.pid, t.reol), |t.buf|)
  {
  }

  /**
   * A step whose scan reads the `n` bytes of a tag with app name `a` and
   * pid `p` records them, and the message gets what the continuation
   * reads of the bytes `rest` after the tag.
   */
  lemma AcceptedTagRecord(s: Bytes, i: nat, lm: LogMsg, sc: Scratch, n: nat, a: Bytes, p: Bytes, rest: Bytes)
    requires i + n <= |s| && s[i + n..] == rest && |a| > 0
    requires ScanTag(s, i, ScanStart(sc.reol)) == TagScan(s[i..i + n], a, p, true, false, sc.reol, false)
    ensures var r := TagStep(s, i, lm, sc);
      r.err.None? && i + n <= r.end == ContentEnd(s, i + n, n) &&
      r.lm == lm.(app := Some(a), pid := if |p| > 0 then Some(p) else lm.pid,
                  message := lm.message + rest[..r.end - i - n]) &&
      r.sc.app == a && r.sc.pid == p
  {
    var r := TagStep(s, i, lm, sc);
    SuffixFront(s, i + n, r.end, rest);
  }

  /** Where the parts of `app[pid]: rest` lie in `s`. */
  lemma PidTagLayout(s: Bytes, i: nat, a: Bytes, p: Bytes, rest: Bytes)
    requires i <= |s| && s[i..] == a + [LBRACKET] + p + [RBRACKET, COLON, SP] + rest
    requires forall k :: 0 <= k < |a| ==> AppByte(a[k])
    requires forall k :: 0 <= k < |p| ==> PidByte(p[k])
    ensures var j := i + |a|; var m := j + 1 + |p|;
      m + 3 <= |s| && s[i..j] == a && s[j] == LBRACKET && s[j + 1..m] == p &&
      s[m] == RBRACKET && s[m + 1] == COLON && s[m + 2] == SP && s[m + 3..] == rest &&
      (forall k :: i <= k < j ==> AppByte(s[k])) && (forall k :: j + 1 <= k < m ==> PidByte(s[k]))
  {
    var j := i + |a|;
    var m := j + 1 + |p|;
    var w := s[i..];
    assert s[i..j] == w[..|a|] && s[j] == w[|a|] && s[j + 1..m] == w[|a| + 1..|a| + 1 + |p|];
    assert s[m] == w[|a| + 1 + |p|] && s[m + 1] == w[|a| + 2 + |p|] && s[m + 2] == w[|a| + 3 + |p|];
    assert s[m + 3..] == w[|a| + |p| + 4..];
    forall k | i <= k < j ensures AppByte(s[k]) { assert s[k] == a[k - i]; }
    forall k | j + 1 <= k < m ensures PidByte(s[k]) { assert s[k] == p[k - j - 1]; }
  }

  /** The front of a suffix of `s`. */
  lemma SuffixFront(s: Bytes, j: nat, k: nat, rest: Bytes)
    requires j <= k <= |s| && s[j..] == rest
    ensures s[j..k] == rest[..k - j]
  {
    assert s[j..k] == s[j..][..k - j];
  }

  /** The tag at the front of `app[pid]: rest` is scanned into its app name and its pid. */
  lemma PidTagScan(s: Bytes, i: nat, reol: bool, a: Bytes, p: Bytes, rest: Bytes)
    requires i <= |s| && s[i..] == a + [LBRACKET] + p + [RBRACKET, COLON, SP] + rest
    requires |a| + |p| + 4 <= MaxTagLength
    requires forall k :: 0 <= k < |a| ==> AppByte(a[k])
    requires forall k :: 0 <= k < |p| ==> PidByte(p[k])
    ensures var n := |a| + |p| + 4;
      i + n <= |s| && s[i + n..] == rest &&
      ScanTag(s, i, ScanStart(reol)) == TagScan(s[i..i + n], a, p, true, false, reol, false)
  {
    PidTagLayout(s, i, a, p, rest);
    ScanTagWithPid(s, i, i + |a|, i + |a| + 1 + |p|, reol);
  }

  /**
   * The tag `app[pid]: ` followed by `rest`: the step records the app
   * name and the pid, and the message gets the front of `rest` that the
   * continuation reads.
   */
  lemma {:induction false} TagWithPid(s: Bytes, i: nat, lm: LogMsg, sc: Scratch, a: Bytes, p: Bytes, rest: Bytes)
    requires i <= |s| && s[i..] == a + [LBRACKET] + p + [RBRACKET, COLON, SP] + rest
    requires |a| > 0 && |a| + |p| + 4 <= MaxTagLength
    requires forall k :: 0 <= k < |a| ==> AppByte(a[k])
    requires forall k :: 0 <= k < |p| ==> PidByte(p[k])
    ensures var r := TagStep(s, i, lm, sc);
      var n := |a| + |p| + 4;
      r.err.None? && i + n <= r.end == ContentEnd(s, i + n, n) &&
      r.lm == lm.(app := Some(a), pid := if |p| > 0 then Some(p) else lm.pid,
                  message := lm.message + rest[..r.end - i - n]) &&
      r.sc.app == a && r.sc.pid == p
  {
    PidTagScan(s, i, sc.reol, a, p, rest);
    PidTagStep(s, i, lm, sc, a, p, rest);
  }

  /** TagWithPid once the scan of the tag is known. */
  lemma PidTagStep(s: Bytes, i: nat, lm: LogMsg, sc: Scratch, a: Bytes, p: Bytes, rest: Bytes)
    requires i + |a| + |p| + 4 <= |s| && s[i + |a| + |p| + 4..] == rest && |a| > 0
    requires ScanTag(s, i, ScanStart(sc.reol)) == TagScan(s[i..i + |a| + |p| + 4], a, p, true, false, sc.reol, false)
    ensures var r := TagStep(s, i, lm, sc);
      var n := |a| + |p| + 4;
      r.err.None? && i + n <= r.end == ContentEnd(s, i + n, n) &&
      r.lm == lm.(app := Some(a), pid := if |p| > 0 then Some(p) else lm.pid,
                  message := lm.message + rest[..r.end - i - n]) &&
      r.sc.app == a && r.sc.pid == p
  {
    AcceptedTagRecord(s, i, lm, sc, |a| + |p| + 4, a, p, rest);
  }

  /** Where the parts of `app: rest` lie in `s`. */
  lemma NoPidTagLayout(s: Bytes, i: nat, a: Bytes, rest: Bytes)
    requires i <= |s| && s[i..] == a + [COLON, SP] + rest
    requires forall k :: 0 <= k < |a| ==> AppByte(a[k])
    ensures var j := i + |a|;
      j + 2 <= |s| && s[i..j] == a && s[j] == COLON && s[j + 1] == SP && s[j + 2..] == rest &&
      (forall k :: i <= k < j ==> AppByte(s[k]))
  {
    var j := i + |a|;
    var w := s[i..];
    assert s[i..j] == w[..|a|] && s[j] == w[|a|] && s[j + 1] == w[|a| + 1] && s[j + 2..] == w[|a| + 2..];
    forall k | i <= k < j ensures AppByte(s[k]) { assert s[k] == a[k - i]; }
  }

  /** The tag at the front of `app: rest` is scanned into its app name, with no pid. */
  lemma NoPidTagScan(s: Bytes, i: nat, reol: bool, a: Bytes, rest: Bytes)
    requires i <= |s| && s[i..] == a + [COLON, SP] + rest
    requires |a| + 2 <= MaxTagLength
    requires forall k :: 0 <= k < |a| ==> AppByte(a[k])
    ensures i + |a| + 2 <= |s| && s[i + |a| + 2..] == rest &&
      ScanTag(s, i, ScanStart(reol)) == TagScan(s[i..i + |a| + 2], a, [], true, false, reol, false)
  {
    NoPidTagLayout(s, i, a, rest);
    ScanTagNoPid(s, i, i + |a|, reol);
  }

  /**
   * The tag `app: ` followed by `rest`: the step records the app name,
   * keeps the pid, and the message gets the front of `rest` that the
   * continuation reads.
   */
  lemma {:induction false} TagNoPid(s: Bytes, i: nat, lm: LogMsg, sc: Scratch, a: Bytes, rest: Bytes)
    requires i <= |s| && s[i..] == a + [COLON, SP] + rest
    requires |a| > 0 && |a| + 2 <= MaxTagLength
    requires forall k :: 0 <= k < |a| ==> AppByte(a[k])
    ensures var r := TagStep(s, i, lm, sc);
      var n := |a| + 2;
      r.err.None? && i + n <= r.end == ContentEnd(s, i + n, n) &&
      r.lm == lm.(app := Some(a), message := lm.message + rest[..r.end - i - n]) &&
      r.sc.app == a && r.sc.pid == []
  {
    NoPidTagScan(s, i, sc.reol, a, rest);
    AcceptedTagRecord(s, i, lm, sc, |a| + 2, a, [], rest);
  }

  /**
   * The continuation passes over bytes that are not newlines, each using
   * one byte of the budget.
   */
  lemma {:induction false} ContentEndRun(s: Bytes, i: nat, x: nat, k: nat)
    requires i <= k <= |s| && x + (k - i) <= MaxTagLength
    requires forall m :: i <= m < k ==> s[m] != LF
    ensures ContentEnd(s, i, x) == ContentEnd(s, k, x + (k - i))
    decreases k - i
  {
    if i < k {
      ContentEndRun(s, i + 1, x + 1, k);
    }
  }

  /** The continuation reads to end of input when no newline comes first and the budget allows. */
  lemma ContentRunsOut(s: Bytes, i: nat, x: nat)
    requires i <= |s| && x + (|s| - i) <= MaxTagLength && LF !in s[i..]
    ensures ContentEnd(s, i, x) == |s|
  {
    forall m | i <= m < |s| ensures s[m] != LF { assert s[m] == s[i..][m - i]; }
    ContentEndRun(s, i, x, |s|);
  }

  /** The continuation stops right after the first newline when the budget allows. */
  lemma ContentStopsAtNewline(s: Bytes, i: nat, x: nat, k: nat)
    requires i <= k < |s| && x + (k - i) < MaxTagLength && s[k] == LF && LF !in s[i..k]
    ensures ContentEnd(s, i, x) == k + 1
  {
    forall m | i <= m < k ensures s[m] != LF { assert s[m] == s[i..k][m - i]; }
    ContentEndRun(s, i, x, k);
  }

  /** A word of app bytes ended by a space is scanned with no colon: no tag. */
  lemma {:induction false} ScanWord(s: Bytes, i: nat, j: nat, reol: bool)
    requires i <= j < |s| && j + 1 - i <= MaxTagLength
    requires forall k :: i <= k < j ==> AppByte(s[k])
    requires s[j] == SP
    ensures ScanTag(s, i, ScanStart(reol)) == TagScan(s[i..j + 1], s[i..j], [], false, false, reol, false)
  {
    ScanAppRun(s, i, j, ScanStart(reol));
    var st1 := TagScan(s[i..j], s[i..j], [], false, false, reol, false);
    assert ScanStart(reol).(buf := [] + s[i..j], app := [] + s[i..j]) == st1;
    assert s[i..j + 1] == s[i..j] + [SP];
  }

  /**
   * A whole short line `app[pid]: rest` without a newline: the tag's
   * fields are recorded and all of `rest` goes to the message.
   */
  lemma ShortLineWithPid(s: Bytes, lm: LogMsg, sc: Scratch, a: Bytes, p: Bytes, rest: Bytes)
    requires s == a + [LBRACKET] + p + [RBRACKET, COLON, SP] + rest
    requires |a| > 0 && |s| <= MaxTagLength && LF !in rest
    requires forall k :: 0 <= k < |a| ==> AppByte(a[k])
    requires forall k :: 0 <= k < |p| ==> PidByte(p[k])
    ensures var r := TagStep(s, 0, lm, sc);
      r.err.None? && r.end == |s| &&
      r.lm == lm.(app := Some(a), pid := if |p| > 0 then Some(p) else lm.pid, message := lm.message + rest)
  {
    var n := |a| + |p| + 4;
    assert s[0..] == s;
    TagWithPid(s, 0, lm, sc, a, p, rest);
    assert s[n..] == rest;
    ContentRunsOut(s, n, n);
    assert rest[..|s| - n] == rest;
  }

  /**
   * A whole short line `app: rest` without a newline: the app name is
   * recorded and all of `rest` goes to the message.
   */
  lemma ShortLineNoPid(s: Bytes, lm: LogMsg, sc: Scratch, a: Bytes, rest: Bytes)
    requires s == a + [COLON, SP] + rest
    requires |a| > 0 && |s| <= MaxTagLength && LF !in rest
    requires forall k :: 0 <= k < |a| ==> AppByte(a[k])
    ensures var r := TagStep(s, 0, lm, sc);
      r.err.None? && r.end == |s| && r.lm == lm.(app := Some(a), message := lm.message + rest)
  {
    var n := |a| + 2;
    assert s[0..] == s;
    TagNoPid(s, 0, lm, sc, a, rest);
    assert s[n..] == rest;
    ContentRunsOut(s, n, n);
    assert rest[..|s| - n] == rest;
  }

  /**
   * A whole short line whose first word has no colon: no tag, and the
   * whole line goes to the message; a newline can only end it.
   */
  lemma ShortLineNoTag(s: Bytes, lm: LogMsg, sc: Scratch, w: Bytes, rest: Bytes)
    requires s == w + [SP] + rest && |s| <= MaxTagLength
    requires forall k :: 0 <= k < |w| ==> AppByte(w[k])
    requires forall k :: 0 <= k < |rest| - 1 ==> rest[k] != LF
    ensures var r := TagStep(s, 0, lm, sc);
      r.err.None? && r.end == |s| && r.lm == lm.(message := lm.message + s) &&
      r.sc.reol == (sc.reol || (|rest| > 0 && rest[|rest| - 1] == LF))
  {
    forall k | 0 <= k < |w| ensures AppByte(s[k]) { assert s[k] == w[k]; }
    NoTagWordStep(s, lm, sc, |w|);
    assert s[|w| + 1..] == rest;
    RestToEnd(s, |w| + 1, rest);
    AppendSlices(lm.message, s, 0, |w| + 1, |s|);
    assert s[0..|s|] == s;
  }

  /** A first word of app bytes ended by a space is no tag: the word and the space go to the message. */
  lemma NoTagWordStep(s: Bytes, lm: LogMsg, sc: Scratch, j: nat)
    requires j < |s| && j + 1 <= MaxTagLength && s[j] == SP
    requires forall k :: 0 <= k < j ==> AppByte(s[k])
    ensures TagStep(s, 0, lm, sc) ==
            ContentStep(s, j + 1, lm.(message := lm.message + s[0..j + 1]), Scratch(s[0..j + 1], s[0..j], [], sc.reol), j + 1)
  {
    ScanWord(s, 0, j, sc.reol);
    TagStepOfScan(s, 0, lm, sc, TagScan(s[0..j + 1], s[0..j], [], false, false, sc.reol, false));
  }

  /** The continuation from `i` reads the rest of a short line, which only its last byte may end. */
  lemma RestToEnd(s: Bytes, i: nat, rest: Bytes)
    requires i <= |s| <= MaxTagLength && s[i..] == rest
    requires forall k :: 0 <= k < |rest| - 1 ==> rest[k] != LF
    ensures ContentEnd(s, i, i) == |s| && EndsLine(s, i, |s|) == (|rest| > 0 && rest[|rest| - 1] == LF)
  {
    if |rest| > 0 && rest[|rest| - 1] == LF {
      assert LF !in s[i..|s| - 1] by {
        forall m | i <= m < |s| - 1 ensures s[m] != LF { assert s[m] == rest[m - i]; }
      }
      ContentStopsAtNewline(s, i, i, |s| - 1);
    } else {
      assert LF !in s[i..] by {
        forall m | i <= m < |s| ensures s[m] != LF { assert s[m] == rest[m - i]; }
      }
      ContentRunsOut(s, i, i);
    }
  }

  /** The bytes of a text, one piece at a time. */
  lemma AsciiAppend(x: string, y: string)
    requires forall k :: 0 <= k < |x| ==> x[k] as int < 256
    requires forall k :: 0 <= k < |y| ==> y[k] as int < 256
    ensures Ascii(x + y) == Ascii(x) + Ascii(y)
  {
  }

  /** The bytes of a text without ':', '[', spaces and newlines may form an app name. */
  lemma AsciiAppBytes(str: string)
    requires forall k :: 0 <= k < |str| ==> str[k] as int < 256
    requires ':' !in str && '[' !in str && ' ' !in str && '\n' !in str
    ensures forall k :: 0 <= k < |Ascii(str)| ==> AppByte(Ascii(str)[k])
  {
    forall k | 0 <= k < |str| ensures AppByte(Ascii(str)[k]) { assert str[k] in str; }
  }

  /** The bytes of a text without ':', ']', spaces and newlines may form a pid. */
  lemma AsciiPidBytes(str: string)
    requires forall k :: 0 <= k < |str| ==> str[k] as int < 256
    requires ':' !in str && ']' !in str && ' ' !in str && '\n' !in str
    ensures forall k :: 0 <= k < |Ascii(str)| ==> PidByte(Ascii(str)[k])
  {
    forall k | 0 <= k < |str| ensures PidByte(Ascii(str)[k]) { assert str[k] in str; }
  }

  /** Tag lines of the test cases, and their parts. */
  const SyslogNgLine: Bytes := Ascii("syslog-ng[1122680]: Test123")
  const SyslogNg: Bytes := Ascii("syslog-ng")
  const SyslogNgPid: Bytes := Ascii("1122680")
  const SuLine: Bytes := Ascii("su: Test123")
  const Su: Bytes := Ascii("su")
  const Test123: Bytes := Ascii("Test123")
  const NoTagLine: Bytes := Ascii("This is a test ")
  const MarkLine: Bytes := Ascii("-- MARK --\n")

  /** `syslog-ng[1122680]: Test123`: the app name, the pid, and the text after the tag. */
  lemma TagExampleWithPid(lm: LogMsg, sc: Scratch)
    ensures var r := TagStep(SyslogNgLine, 0, lm, sc);
      r.err.None? && r.end == |SyslogNgLine| &&
      r.lm == lm.(app := Some(SyslogNg), pid := Some(SyslogNgPid), message := lm.message + Test123)
  {
    SyslogNgLayout();
    SyslogNgBytes();
    ShortLineWithPid(SyslogNgLine, lm, sc, SyslogNg, SyslogNgPid, Test123);
  }

  /** The parts of `syslog-ng[1122680]: Test123`. */
  lemma SyslogNgLayout()
    ensures SyslogNgLine == SyslogNg + [LBRACKET] + SyslogNgPid + [RBRACKET, COLON, SP] + Test123
  {
    assert SyslogNgLine == Ascii("syslog-ng" + "[" + "1122680") + Ascii("]: " + "Test123") by {
      assert "syslog-ng[1122680]: Test123" == ("syslog-ng" + "[" + "1122680") + ("]: " + "Test123");
      AsciiAppend("syslog-ng" + "[" + "1122680", "]: " + "Test123");
    }
    assert Ascii("syslog-ng" + "[" + "1122680") == SyslogNg + [LBRACKET] + SyslogNgPid by {
      AsciiAppend("syslog-ng" + "[", "1122680");
      AsciiAppend("syslog-ng", "[");
    }
    assert Ascii("]: " + "Test123") == [RBRACKET, COLON, SP] + Test123 by {
      AsciiAppend("]: ", "Test123");
    }
  }

  /** The parts of `syslog-ng[1122680]: Test123` may form a tag and its continuation. */
  lemma SyslogNgBytes()
    ensures |SyslogNgLine| <= MaxTagLength && |SyslogNg| > 0 && LF !in Test123
    ensures forall k :: 0 <= k < |SyslogNg| ==> AppByte(SyslogNg[k])
    ensures forall k :: 0 <= k < |SyslogNgPid| ==> PidByte(SyslogNgPid[k])
  {
    AsciiAppBytes("syslog-ng");
    AsciiPidBytes("1122680");
    AsciiAppBytes("Test123");
  }

  /** `su: Test123`: the app name, no pid, and the text after the tag. */
  lemma TagExampleNoPid(lm: LogMsg, sc: Scratch)
    ensures var r := TagStep(SuLine, 0, lm, sc);
      r.err.None? && r.end == |SuLine| && r.lm == lm.(app := Some(Su), message := lm.message + Test123)
  {
    assert SuLine == Su + [COLON, SP] + Test123 by {
      assert "su: Test123" == "su" + ": " + "Test123";
      AsciiAppend("su" + ": ", "Test123");
      AsciiAppend("su", ": ");
    }
    AsciiAppBytes("su");
    assert LF !in Test123 by { AsciiAppBytes("Test123"); }
    ShortLineNoPid(SuLine, lm, sc, Su, Test123);
  }

  /** `This is a test `: no tag, and the whole text goes to the message. */
  lemma TagExampleNoTag(lm: LogMsg, sc: Scratch)
    ensures var r := TagStep(NoTagLine, 0, lm, sc);
      r.err.None? && r.end == |NoTagLine| && r.lm == lm.(message := lm.message + NoTagLine)
  {
    var w, rest := Ascii("This"), Ascii("is a test ");
    assert NoTagLine == w + [SP] + rest by {
      assert "This is a test " == "This" + " " + "is a test ";
      AsciiAppend("This" + " ", "is a test ");
      AsciiAppend("This", " ");
    }
    AsciiAppBytes("This");
    assert forall k :: 0 <= k < |rest| ==> rest[k] != LF by {
      forall k | 0 <= k < |rest| ensures rest[k] != LF { assert "is a test "[k] in "is a test "; }
    }
    ShortLineNoTag(NoTagLine, lm, sc, w, rest);
  }

  /** `-- MARK --` and a newline: no tag; the whole line goes to the message and ends it. */
  lemma TagExampleMark(lm: LogMsg, sc: Scratch)
    ensures var r := TagStep(MarkLine, 0, lm, sc);
      r.err.None? && r.end == |MarkLine| && r.lm == lm.(message := lm.message + MarkLine) && r.sc.reol
  {
    var w, rest := Ascii("--"), Ascii("MARK --\n");
    assert MarkLine == w + [SP] + rest by {
      assert "-- MARK --\n" == "--" + " " + "MARK --\n";
      AsciiAppend("--" + " ", "MARK --\n");
      AsciiAppend("--", " ");
    }
    AsciiAppBytes("--");
    assert forall k :: 0 <= k < |rest| - 1 ==> rest[k] != LF by {
      forall k | 0 <= k < |rest| - 1 ensures rest[k] != LF { assert "MARK --"[k] in "MARK --"; }
    }
    ShortLineNoTag(MarkLine, lm, sc, w, rest);
  }

  /**
   * A newline that ends the tag scan does not end the step: the
   * continuation goes on reading the next line, up to the 32-byte budget.
   */
  lemma TagContinuesPastNewline(lm: LogMsg)
    ensures var s: Bytes := [0x61, 0x62, 0x63, 0x0A, 0x78, 0x79, 0x7A]; // "abc\nxyz"
      var r := TagStep(s, 0, lm, Scratch([], [], [], false));
      r.err.None? && r.lm.message == lm.message + s && r.sc.reol && r.end == 7
  {
    var s: Bytes := [0x61, 0x62, 0x63, 0x0A, 0x78, 0x79, 0x7A];
    var st1 := TagScan([0x61], [0x61], [], false, false, false, false);
    var st2 := TagScan([0x61, 0x62], [0x61, 0x62], [], false, false, false, false);
    var st3 := TagScan([0x61, 0x62, 0x63], [0x61, 0x62, 0x63], [], false, false, false, false);
    var t := TagScan([0x61, 0x62, 0x63, 0x0A], [0x61, 0x62, 0x63], [], false, false, true, false);
    assert Advance(ScanStart(false), s[0]) == st1;
    assert Advance(st1, s[1]) == st2;
    assert Advance(st2, s[2]) == st3;
    assert Advance(st3, s[3]) == t;
    assert ContentEnd(s, 4, 4) == 7;
    assert t.buf + s[4..7] == s;
  }

  /** The errors the header steps report, end of input included. */
  predicate HeaderError(e: Error)
  {
    e in {EOF, WrongFormat, InvalidPrio, DiscardFailed, BadLength, BadFormat, BadMonth, BadNumber, OutOfRange}
  }

  /** The header keeps the record's type and reports only the errors of its steps. */
  lemma {:induction false} HeaderSpec(s: Bytes, i: nat, lm: LogMsg, sc: Scratch, now: Rfc3164Date.Clock)
    requires i <= |s|
    ensures var h := HeaderOf(s, i, lm, sc, now);
      h.lm.msgType == lm.msgType && (h.err.Some? ==> HeaderError(h.err.value))
  {
    var a := PriorityStep(s, i, lm, sc);
    PriorityOfSpec(s, i);
    if a.err.None? {
      var b := TimestampStep(s, a.end, a.lm, a.sc, now);
      if a.end + Rfc3164Date.TimestampLength < |s| {
        Rfc3164Date.ParseTimestampSpec(s[a.end..a.end + Rfc3164Date.TimestampLength], now);
      }
      if b.err.None? {
        var c := HostnameStep(s, b.end, b.lm, b.sc);
        if c.err.None? {
          TagStepBounded(s, c.end, c.lm, c.sc);
        }
      }
    }
  }

  /**
   * A decode never reports a raw end of input, its errors are those of its
   * steps, and a decoded record has the RFC 3164 type and its message
   * length set to the length of its message.
   */
  lemma {:induction false} DecodeSpec(input: Bytes, sc: Scratch, now: Rfc3164Date.Clock)
    ensures var d := Decode(input, sc, now);
      d.err.Some? ==> d.err.value in {PrematureEOF, WrongFormat, InvalidPrio, DiscardFailed,
                                      BadLength, BadFormat, BadMonth, BadNumber, OutOfRange}
    ensures var d := Decode(input, sc, now);
      d.lm.msgType == RFC3164 && (d.err.None? ==> d.lm.msgLength == |d.lm.message|)
    // A failed header is the decode's error; after a header, the rest of the
    // line goes to the message unless a newline has already ended the line.
    ensures var h := HeaderOf(input, 0, EmptyLogMsg(RFC3164), sc.(reol := false), now);
      var d := Decode(input, sc, now);
      h.err.Some? ==> d.err == Some(MapEOF(h.err.value)) && d.lm == h.lm
    ensures var h := HeaderOf(input, 0, EmptyLogMsg(RFC3164), sc.(reol := false), now);
      var d := Decode(input, sc, now);
      h.err.None? ==>
        d.err.None? && d.sc == h.sc && d.lm.(message := h.lm.message, msgLength := h.lm.msgLength) == h.lm &&
        d.lm.message == h.lm.message + input[h.end..if h.sc.reol then h.end else LineEnd(input, h.end)]
  {
    HeaderSpec(input, 0, EmptyLogMsg(RFC3164), sc.(reol := false), now);
  }

  // ---------------------------------------------------------------------
  // A whole line
  // ---------------------------------------------------------------------

  /** The parts of the test line of the package. */
  const ArchPri: Bytes := Ascii("13")
  const ArchStamp: Bytes := Ascii("Nov 27 16:00:35")
  const ArchHost: Bytes := Ascii("arch-vm")
  const ArchApp: Bytes := Ascii("wneessen")
  const ArchPid: Bytes := Ascii("1130275")
  const ArchText: Bytes := Ascii("test\n")

  /** `<13>Nov 27 16:00:35 arch-vm wneessen[1130275]: test` and a newline. */
  const ArchLine: Bytes := [LANGLE] + ArchPri + [RANGLE] + ArchStamp + [SP] + ArchHost + [SP] +
                           ArchApp + [LBRACKET] + ArchPid + [RBRACKET, COLON, SP] + ArchText

  /** `<13>` is priority 13. */
  lemma ArchPriority(lm: LogMsg, sc: Scratch)
    ensures PriorityStep(ArchLine, 0, lm, sc) == Step(WithPriority(lm, 13), sc.(buf := ArchPri), None, 4)
  {
    assert BracketedAt(ArchLine, 0, ArchPri) && RANGLE !in ArchPri;
    PriorityAt(ArchLine, 0, ArchPri);
    AtoiOfDigits(ArchPri);
  }

  /** `Nov 27 16:00:35` is 27 November, 16:00:35, in the year the clock infers. */
  lemma ArchStampParses(now: Rfc3164Date.Clock)
    ensures Rfc3164Date.ParseTimestamp(ArchStamp, now) == Ok(Rfc3164Date.InferYear(now, 11, 27, 16, 0, 35))
  {
    var t := Time(0, 11, 27, 16, 0, 35);
    assert Rfc3164Date.Stamp(t) == ArchStamp;
    Rfc3164Date.StampRoundTrip(t, now);
  }

  /** The timestamp of the test line and the space after it. */
  lemma ArchTimestamp(lm: LogMsg, sc: Scratch, now: Rfc3164Date.Clock)
    ensures var r := TimestampStep(ArchLine, 4, lm, sc, now);
      r.err.None? && r.end == 20 && r.lm == lm.(timestamp := Some(Rfc3164Date.InferYear(now, 11, 27, 16, 0, 35)))
  {
    assert ArchLine[4..19] == ArchStamp;
    ArchStampParses(now);
  }

  /** The hostname of the test line. */
  lemma ArchHostname(lm: LogMsg, sc: Scratch)
    ensures var r := HostnameStep(ArchLine, 20, lm, sc);
      r.err.None? && r.end == 28 && r.lm == lm.(host := Some(ArchHost))
  {
    AsciiAppBytes("arch-vm");
    assert ArchLine[20..27] == ArchHost;
    assert SpacedAt(ArchLine, 20, ArchHost) && SP !in ArchHost;
    UntilSpaceAt(ArchLine, 20, ArchHost);
  }

  /** Where the tag of the test line starts, and where its text starts. */
  lemma ArchTail()
    ensures |ArchLine| == 52 && ArchLine[47..] == ArchText
    ensures ArchLine[28..] == ArchApp + [LBRACKET] + ArchPid + [RBRACKET, COLON, SP] + ArchText
  {
  }

  /** The text of the test line is one line: `test` and its newline. */
  lemma ArchTextLine()
    ensures |ArchText| == 5 && ArchText[4] == LF && LF !in ArchText[..4]
  {
    assert ArchText[..4] == Ascii("test");
  }

  /** The tag of the test line, with its pid, and the text with its newline. */
  lemma ArchTag(lm: LogMsg, sc: Scratch)
    ensures var r := TagStep(ArchLine, 28, lm, sc);
      r.err.None? && r.end == |ArchLine| &&
      r.lm == lm.(app := Some(ArchApp), pid := Some(ArchPid), message := lm.message + ArchText)
  {
    var s := ArchLine;
    ArchTail();
    AsciiAppBytes("wneessen");
    AsciiPidBytes("1130275");
    TagWithPid(s, 28, lm, sc, ArchApp, ArchPid, ArchText);
    ArchTextLine();
    assert s[51] == LF && s[47..51] == ArchText[..4] by { assert s[47..51] == s[47..][..4]; }
    ContentStopsAtNewline(s, 47, 19, 51);
    assert ArchText[..52 - 47] == ArchText;
  }

  /** The header of the test line: priority 13, the timestamp, the host, and the tag with its pid. */
  lemma ArchHeader(sc: Scratch, now: Rfc3164Date.Clock)
    ensures var h := HeaderOf(ArchLine, 0, EmptyLogMsg(RFC3164), sc, now);
      h.err.None? && h.end == |ArchLine| &&
      h.lm == WithPriority(EmptyLogMsg(RFC3164), 13).(
                timestamp := Some(Rfc3164Date.InferYear(now, 11, 27, 16, 0, 35)), host := Some(ArchHost),
                app := Some(ArchApp), pid := Some(ArchPid), message := ArchText)
  {
    var lm0 := EmptyLogMsg(RFC3164);
    ArchPriority(lm0, sc);
    var a := PriorityStep(ArchLine, 0, lm0, sc);
    ArchTimestamp(a.lm, a.sc, now);
    var b := TimestampStep(ArchLine, 4, a.lm, a.sc, now);
    ArchHostname(b.lm, b.sc);
    var c := HostnameStep(ArchLine, 20, b.lm, b.sc);
    ArchTag(c.lm, c.sc);
  }

  /**
   * The test line decodes to priority 13 (facility 1, severity 5), the
   * timestamp, host `arch-vm`, app `wneessen`, pid `1130275`, and the
   * message `test` with its newline, 5 bytes long.
   */
  lemma ParseStringExample(sc: Scratch, now: Rfc3164Date.Clock)
    ensures var d := Decode(ArchLine, sc, now);
      d.err == None && d.lm.msgType == RFC3164 &&
      d.lm.priority == 13 && d.lm.facility == 1 && d.lm.severity == 5 &&
      d.lm.timestamp == Some(Rfc3164Date.InferYear(now, 11, 27, 16, 0, 35)) &&
      d.lm.host == Some(ArchHost) && d.lm.app == Some(ArchApp) && d.lm.pid == Some(ArchPid) &&
      d.lm.msgID == None && d.lm.message == ArchText && d.lm.msgLength == 5
  {
    ArchHeader(sc.(reol := false), now);
    DecodeSpec(ArchLine, sc, now);
    assert ArchLine[|ArchLine|..|ArchLine|] == [];
    assert FacilityFromPrio(13) == 1 && SeverityFromPrio(13) == 5;
  }

  // ---------------------------------------------------------------------
  // The parser object
  // ---------------------------------------------------------------------

  class Parser {
    var buf: Bytes
    var appBuffer: Bytes
    var pidBuffer: Bytes
    var reol: bool

    function State(): Scratch
      reads this
    {
      Scratch(buf, appBuffer, pidBuffer, reol)
    }

    constructor ()
      ensures State() == Scratch([], [], [], false)
    {
      buf, appBuffer, pidBuffer, reol := [], [], [], false;
    }

    /** Decodes one message from `input`. */
    method ParseReader(input: Bytes, now: Rfc3164Date.Clock) returns (lm: LogMsg, err: Option<Error>)
      modifies this
      ensures Decoded(lm, err, State()) == Decode(input, old(State()), now)
    {
      lm := EmptyLogMsg(RFC3164);
      reol := false;
      var r := new Reader(input);
      lm, err := ParseHeader(r, lm, now);
      ghost var h := HeaderOf(input, 0, EmptyLogMsg(RFC3164), old(State()).(reol := false), now);
      assert Step(lm, State(), err, r.pos) == h;
      if err.Some? {
        return lm, Some(MapEOF(err.value));
      }
      if !reol {
        // end of input before a newline is tolerated
        var rd, _ := r.ReadSlice(LF);
        assert r.pos == LineEnd(input, h.end);
        lm := lm.(message := lm.message + rd);
      }
      lm := lm.(msgLength := |lm.message|);
    }

    /** Priority, timestamp, hostname and tag, in that order; the first error stops it. */
    method ParseHeader(r: Reader, lm: LogMsg, now: Rfc3164Date.Clock) returns (lm': LogMsg, err: Option<Error>)
      requires r.Valid()
      modifies this, r
      ensures r.Valid()
      ensures Step(lm', State(), err, r.pos) == HeaderOf(r.data, old(r.pos), lm, old(State()), now)
    {
      var b;
      b, lm', err := ParsePriority(r, lm);
      buf := b;
      if err.Some? {
        return;
      }
      lm', err := ParseTimestamp(r, lm', now);
      if err.Some? {
        return;
      }
      lm', err := ParseHostname(r, lm');
      if err.Some? {
        return;
      }
      lm', err := ParseTag(r, lm');
    }

    /** Reads exactly 15 bytes, discards one more, and decodes the 15. */
    method ParseTimestamp(r: Reader, lm: LogMsg, now: Rfc3164Date.Clock) returns (lm': LogMsg, err: Option<Error>)
      requires r.Valid()
      modifies this, r
      ensures r.Valid()
      ensures Step(lm', State(), err, r.pos) == TimestampStep(r.data, old(r.pos), lm, old(State()), now)
    {
      ghost var w := r.data;
      ghost var start := r.pos;
      lm' := lm;
      var stamp: Bytes := [];
      var eof := false;
      while |stamp| < Rfc3164Date.TimestampLength && !eof
        modifies r
        invariant r.Valid() && start <= r.pos
        invariant stamp == w[start..r.pos] && |stamp| <= Rfc3164Date.TimestampLength
        invariant eof ==> r.pos == |r.data| && |stamp| < Rfc3164Date.TimestampLength
        decreases Rfc3164Date.TimestampLength - |stamp|, if eof then 0 else 1
      {
        var b := r.ReadByte();
        if b.Err? {
          eof := true;
        } else {
          stamp := stamp + [b.value];
        }
      }
      buf := stamp;
      if eof {
        return lm', Some(EOF);
      }
      var ok := r.Discard1();
      if !ok {
        assert stamp == w[start..];
        return lm', Some(DiscardFailed);
      }
      var t := Rfc3164Date.ParseTimestamp(buf, now);
      lm' := lm.(timestamp := if t.Ok? then Some(t.value) else None);
      err := if t.Ok? then None else Some(t.error);
    }

    /** Reads the hostname up to the next space. */
    method ParseHostname(r: Reader, lm: LogMsg) returns (lm': LogMsg, err: Option<Error>)
      requires r.Valid()
      modifies this, r
      ensures r.Valid()
      ensures Step(lm', State(), err, r.pos) == HostnameStep(r.data, old(r.pos), lm, old(State()))
    {
      buf := [];
      var hostname, _, e := ReadBytesUntilSpace(r);
      if e.Some? {
        return lm, e;
      }
      return lm.(host := Some(hostname)), None;
    }

    /**
     * The scan loop of the tag parse: reads up to 32 bytes into the
     * scratch buffer, sorting them into the app and pid buffers.
     */
    method ScanTagBytes(r: Reader) returns (hasColon: bool, inPid: bool, bytesRead: nat, err: Option<Error>)
      requires r.Valid()
      modifies this, r
      ensures r.Valid()
      ensures ScanTag(r.data, old(r.pos), ScanStart(old(reol))) ==
                TagScan(buf, appBuffer, pidBuffer, hasColon, inPid, reol, err.Some?)
      ensures err.Some? ==> err == Some(EOF)
      ensures bytesRead == |buf| && r.pos == old(r.pos) + |buf|
    {
      ghost var w := r.data;
      ghost var goal := ScanTag(w, r.pos, ScanStart(reol));
      var scanned, app, pid, eol := [], [], [], reol;
      hasColon, inPid := false, false;
      bytesRead := 0;
      err := None;
      var stop := false;
      while bytesRead < MaxTagLength && !stop
        modifies r
        invariant r.Valid()
        invariant bytesRead == |scanned| <= MaxTagLength && r.pos == old(r.pos) + bytesRead
        invariant !stop ==> err == None
        invariant !stop ==> goal == ScanTag(w, r.pos, TagScan(scanned, app, pid, hasColon, inPid, eol, false))
        invariant stop ==> goal == TagScan(scanned, app, pid, hasColon, inPid, eol, err.Some?)
        invariant err.Some? ==> err == Some(EOF)
        decreases MaxTagLength - bytesRead, if stop then 0 else 1
      {
        var b := r.ReadByte();
        if b.Err? {
          err, stop := Some(b.error), true;
        } else {
          scanned := scanned + [b.value];
          bytesRead := bytesRead + 1;
          if b.value == LF {
            eol, stop := true, true;
          } else if b.value == SP {
            stop := true;
          } else {
            hasColon, inPid, app, pid := SortTagByte(b.value, hasColon, inPid, app, pid, scanned, eol);
          }
        }
      }
      buf, appBuffer, pidBuffer, reol := scanned, app, pid, eol;
    }

    /**
     * Sorts one tag byte: ':' marks a tag, the first '[' opens the pid and
     * the next ']' closes it; other bytes go to the pid inside the brackets
     * and to the app name outside them.
     */
    static method SortTagByte(b: byte, hasColon: bool, inPid: bool, app: Bytes, pid: Bytes, ghost scanned: Bytes, ghost eol: bool)
      returns (hasColon': bool, inPid': bool, app': Bytes, pid': Bytes)
      ensures TagScan(scanned, app', pid', hasColon', inPid', eol, false)
           == Classify(TagScan(scanned, app, pid, hasColon, inPid, eol, false), b)
    {
      hasColon', inPid', app', pid' := hasColon, inPid, app, pid;
      if b == COLON {
        hasColon' := true;
      } else if b == LBRACKET && !inPid {
        inPid' := true;
      } else if b == RBRACKET && inPid {
        inPid' := false;
      } else if !inPid {
        app' := app + [b];
      } else {
        pid' := pid + [b];
      }
    }

    /** The tag scan over at most 32 bytes, then the message continuation. */
    method ParseTag(r: Reader, lm: LogMsg) returns (lm': LogMsg, err: Option<Error>)
      requires r.Valid()
      modifies this, r
      ensures r.Valid()
      ensures Step(lm', State(), err, r.pos) == TagStep(r.data, old(r.pos), lm, old(State()))
    {
      var hasColon, inPid, bytesRead;
      hasColon, inPid, bytesRead, err := ScanTagBytes(r);
      if err.Some? {
        return lm, err;
      }
      // the continuation starts where the scan stopped, in either case
      var startPosition;
      if hasColon && |appBuffer| > 0 {
        lm' := lm.(app := Some(appBuffer));
        if |pidBuffer| > 0 {
          lm' := lm'.(pid := Some(pidBuffer));
        }
        startPosition := bytesRead;
      } else {
        lm' := lm;
        if |buf| > 0 {
          lm' := lm'.(message := lm'.message + buf);
        }
        startPosition := |buf|;
      }
      lm', err := ReadMessageContent(r, lm', startPosition);
    }

    /**
     * Reads the message on, up to the 32-byte budget counted from
     * `startPosition`; stops right after a newline, which sets the
     * end-of-line flag. End of input ends it without an error.
     */
    method ReadMessageContent(r: Reader, lm: LogMsg, startPosition: nat) returns (lm': LogMsg, err: Option<Error>)
      requires r.Valid()
      modifies this, r
      ensures r.Valid()
      ensures Step(lm', State(), err, r.pos) == ContentStep(r.data, old(r.pos), lm, old(State()), startPosition)
    {
      var content, newline := ReadContent(r, startPosition);
      if newline {
        reol := true;
      }
      lm' := lm.(message := lm.message + content);
      err := None;
    }
  }

  /**
   * The loop of the message continuation: one byte per read while fewer
   * than 32 bytes of the budget are used, counting from `x`, stopping
   * right after a newline or at end of input.
   */
  method ReadContent(r: Reader, x: nat) returns (content: Bytes, newline: bool)
    requires r.Valid()
    modifies r
    ensures r.Valid()
    ensures var k := ContentEnd(r.data, old(r.pos), x);
      r.pos == k && content == r.data[old(r.pos)..k] && newline == EndsLine(r.data, old(r.pos), k)
  {
    ghost var w := r.data;
    ghost var start := r.pos;
    content := [];
    newline := false;
    var c := x;
    while c < MaxTagLength && !newline
      invariant r.Valid() && start <= r.pos
      invariant content == w[start..r.pos]
      invariant !newline ==> ContentEnd(w, start, x) == ContentEnd(w, r.pos, c)
      invariant !newline && start < r.pos ==> w[r.pos - 1] != LF
      invariant newline ==> ContentEnd(w, start, x) == r.pos && EndsLine(w, start, r.pos)
    {
      var b := r.ReadByte();
      if b.Err? {
        break;
      }
      content := content + [b.value];
      newline := b.value == LF;
      c := c + 1;
    }
  }
}
