/**
 * The scanning primitives both decoders share: allocation-free ASCII to
 * integer conversion, reading up to the next space, the `<PRI>` field
 * (section 6.2.1 of RFC 5424, section 4.1.1 of RFC 3164) and the
 * `MSG-LEN SP` octet-counting prefix (section 4.3 of RFC 5425).
 *
 * Each primitive is a method on the reader; the function next to it says
 * what the method returns and how many bytes it consumes, as a function of
 * the bytes that were left to read.
 */
module Common {
  import opened SyslogTypes
  import opened LogMessage
  import opened Cursor

  // ---------------------------------------------------------------------
  // Atoi
  // ---------------------------------------------------------------------

  function Pow10(n: nat): (r: nat)
    ensures r >= 1
  {
    if n == 0 then 1 else 10 * Pow10(n - 1)
  }

  /** The value Atoi gives one byte: its distance from '0'. */
  function DigitValue(b: byte): int
  {
    b as int - ZERO as int
  }

  /**
   * Atoi rejects a byte only when it lies more than 10 above '0', that is
   * above ':'. Bytes below '0' and ':' itself are accepted.
   */
  predicate AtoiAccepts(b: byte)
  {
    DigitValue(b) <= 10
  }

  /** The positional value of the bytes, most significant first, base 10. */
  function PositionalValue(b: Bytes): int
  {
    if |b| == 0 then 0 else PositionalValue(b[..|b| - 1]) * 10 + DigitValue(b[|b| - 1])
  }

  /** The rightmost rejected byte, -1 when there is none. */
  function LastRejected(b: Bytes): (k: int)
    ensures -1 <= k < |b|
    ensures k >= 0 ==> !AtoiAccepts(b[k])
    ensures forall j :: k < j < |b| ==> AtoiAccepts(b[j])
  {
    if |b| == 0 then -1
    else if !AtoiAccepts(b[|b| - 1]) then |b| - 1
    else LastRejected(b[..|b| - 1])
  }

  /**
   * What Atoi returns: the positional value when every byte is accepted,
   * otherwise the error naming the rightmost byte above ':'.
   */
  function AtoiResult(b: Bytes): (r: Result<int>)
    ensures r.Err? <==> exists k :: 0 <= k < |b| && b[k] > COLON
    ensures r.Err? ==> exists k :: 0 <= k < |b| && b[k] > COLON && r.error == NotANumber(b[k])
  {
    var k := LastRejected(b);
    if k < 0 then Ok(PositionalValue(b)) else Err(NotANumber(b[k]))
  }

  /** Prepending a byte adds its value at the next power of ten. */
  lemma {:induction false} PositionalPrepend(d: byte, t: Bytes)
    ensures PositionalValue([d] + t) == DigitValue(d) * Pow10(|t|) + PositionalValue(t)
  {
    if |t| == 0 {
      assert [d] + t == [d];
      assert [d][..0] == [];
    } else {
      var s := [d] + t;
      assert s[..|s| - 1] == [d] + t[..|t| - 1];
      PositionalPrepend(d, t[..|t| - 1]);
      calc {
        PositionalValue(s);
        PositionalValue([d] + t[..|t| - 1]) * 10 + DigitValue(t[|t| - 1]);
        (DigitValue(d) * Pow10(|t| - 1) + PositionalValue(t[..|t| - 1])) * 10 + DigitValue(t[|t| - 1]);
        DigitValue(d) * (Pow10(|t| - 1) * 10) + (PositionalValue(t[..|t| - 1]) * 10 + DigitValue(t[|t| - 1]));
        DigitValue(d) * Pow10(|t|) + PositionalValue(t);
      }
    }
  }

  /**
   * Allocation-free ASCII to integer conversion: scans from the last byte
   * to the first, adding each byte's value times the next power of ten.
   */
  method Atoi(b: Bytes) returns (r: Result<int>)
    ensures r == AtoiResult(b)
  {
    var z := 0;
    var c := 0;
    var x := |b|;
    while x > 0
      invariant 0 <= x <= |b|
      invariant c == |b| - x
      invariant z == PositionalValue(b[x..])
      invariant forall j :: x <= j < |b| ==> AtoiAccepts(b[j])
    {
      var y := b[x - 1] as int - 0x30;
      if y > 10 {
        return Err(NotANumber(b[x - 1]));
      }
      assert b[x - 1..] == [b[x - 1]] + b[x..];
      PositionalPrepend(b[x - 1], b[x..]);
      z := z + y * Pow10(c);
      c := c + 1;
      x := x - 1;
    }
    assert b[0..] == b;
    return Ok(z);
  }

  predicate AllDigits(b: Bytes)
  {
    forall i :: 0 <= i < |b| ==> IsDigit(b[i])
  }

  /** The decimal digits of a natural number, most significant first. */
  function DecimalDigits(n: nat): (r: Bytes)
    ensures |r| >= 1 && AllDigits(r)
  {
    if n < 10 then [(ZERO as int + n) as byte]
    else DecimalDigits(n / 10) + [(ZERO as int + n % 10) as byte]
  }

  /** On decimal digits Atoi is the ordinary decimal value, below 10^length. */
  lemma {:induction false} AtoiOfDigits(b: Bytes)
    requires AllDigits(b)
    ensures AtoiResult(b) == Ok(PositionalValue(b))
    ensures 0 <= PositionalValue(b) < Pow10(|b|)
  {
    if |b| > 0 {
      AtoiOfDigits(b[..|b| - 1]);
    }
  }

  /** Atoi inverts decimal printing. */
  lemma {:induction false} AtoiDecimalRoundTrip(n: nat)
    ensures AtoiResult(DecimalDigits(n)) == Ok(n)
  {
    var d := DecimalDigits(n);
    AtoiOfDigits(d);
    if n >= 10 {
      AtoiDecimalRoundTrip(n / 10);
      AtoiOfDigits(DecimalDigits(n / 10));
      assert d[..|d| - 1] == DecimalDigits(n / 10);
    }
  }

  /**
   * What the loose byte check lets through: the empty input is 0, ':'
   * counts as ten, and "-1" is read as -3 * 10 + 1.
   */
  lemma AtoiLooseInputs()
    ensures AtoiResult([]) == Ok(0)
    ensures AtoiResult([COLON]) == Ok(10)
    ensures AtoiResult([DASH, ZERO + 1]) == Ok(-29)
    ensures AtoiResult([ZERO + 1, ';' as byte]) == Err(NotANumber(';' as byte))
  {
    assert [DASH, ZERO + 1][..1] == [DASH];
    assert [DASH][..0] == [];
    assert PositionalValue([DASH]) == -3;
    assert LastRejected([DASH, ZERO + 1]) == -1;
    assert [ZERO + 1, ';' as byte][..1] == [ZERO + 1];
  }

  // ---------------------------------------------------------------------
  // Reading up to the next space
  // ---------------------------------------------------------------------

  /** A scanned field: its bytes, the position after it and the error. */
  datatype Field = Field(bytes: Bytes, end: nat, err: Option<Error>)

  /**
   * Reading up to the next space from position `i` of the window `s`: the
   * bytes before the first space, ending after the space; or, when there
   * is no space, all bytes that are left, with end of input.
   */
  function UntilSpace(s: Bytes, i: nat): (f: Field)
    requires i <= |s|
    ensures i <= f.end <= |s|
    ensures f.err.None? ==> i < f.end && s[f.end - 1] == SP && f.bytes == s[i..f.end - 1]
    ensures f.err.Some? ==> f.err == Some(EOF) && f.bytes == s[i..] && f.end == |s|
  {
    var k := IndexFrom(s, i, SP);
    if k < |s| then Field(s[i..k], k + 1, None) else Field(s[i..], |s|, Some(EOF))
  }

  /**
   * With the first space at `k`, the field is the bytes from `i` to `k`
   * and its count, `end - i`, includes the space; with no space left it is
   * every remaining byte with end of input. Either way it holds no space.
   */
  lemma UntilSpaceSpec(s: Bytes, i: nat)
    requires i <= |s|
    ensures var f := UntilSpace(s, i);
      (f.err == None <==> SP in s[i..]) &&
      (f.err == None ==> s[i..f.end] == f.bytes + [SP] && f.end - i == |f.bytes| + 1) &&
      (f.err != None ==> f == Field(s[i..], |s|, Some(EOF))) &&
      SP !in f.bytes
  {
    var k := IndexFrom(s, i, SP);
    IndexFromFirst(s, i, SP);
    if k < |s| {
      assert s[i..k + 1] == s[i..k] + [SP];
      assert s[i..][k - i] == SP;
    } else {
      assert s[i..] == s[i..k];
    }
  }

  /** The bytes `x` at position `j` of `s`, followed by a space. */
  predicate SpacedAt(s: Bytes, j: nat, x: Bytes)
  {
    j + |x| < |s| && s[j..j + |x|] == x && s[j + |x|] == SP
  }

  /** A run of `s` laid out as `x`, a space and `r` has `x` spaced at its start and `r` after it. */
  lemma SpacedSplit(s: Bytes, j: nat, k: nat, x: Bytes, r: Bytes)
    requires j <= k <= |s| && s[j..k] == x + [SP] + r
    ensures SpacedAt(s, j, x) && s[j + |x| + 1..k] == r
  {
    SliceOfSlice(s, j, k, 0, |x|);
    assert (x + [SP] + r)[..|x|] == x;
    assert s[j + |x|] == s[j..k][|x|];
    SliceOfSlice(s, j, k, |x| + 1, k - j);
    assert (x + [SP] + r)[|x| + 1..] == r;
  }

  /** A field without a space, followed by one, is read as exactly that field. */
  lemma {:induction false} UntilSpaceAt(s: Bytes, j: nat, x: Bytes)
    requires SpacedAt(s, j, x) && SP !in x
    ensures UntilSpace(s, j) == Field(x, j + |x| + 1, None)
  {
    forall m | j <= m < j + |x| ensures s[m] != SP {
      assert s[m] == x[m - j];
    }
    IndexFromAt(s, j, SP, j + |x|);
  }

  /** Reads the bytes before the next space; the count includes the space. */
  method ReadBytesUntilSpace(r: Reader) returns (buf: Bytes, n: nat, err: Option<Error>)
    requires r.Valid()
    modifies r
    ensures r.Valid()
    ensures var f := UntilSpace(r.data, old(r.pos));
              buf == f.bytes && err == f.err && r.pos == f.end && n == f.end - old(r.pos)
  {
    ghost var w := r.data;
    var line, e := r.ReadSlice(SP);
    if e.Some? {
      return line, |line|, e;
    }
    // a slice read without error ends with the space, so it is never empty
    return line[..|line| - 1], |line|, None;
  }

  /**
   * Reads the bytes before the next space, meant to stop early at the
   * NILVALUE. Its early exit asks whether the last buffered byte is a
   * space, which it never is, so the method reads exactly what
   * ReadBytesUntilSpace reads.
   */
  method ReadBytesUntilSpaceOrNilValue(r: Reader) returns (buf: Bytes, tb: nat, err: Option<Error>)
    requires r.Valid()
    modifies r
    ensures r.Valid()
    ensures var f := UntilSpace(r.data, old(r.pos));
              buf == f.bytes && err == f.err && r.pos == f.end && tb == f.end - old(r.pos)
  {
    ghost var w := r.data;
    ghost var start := r.pos;
    buf := [];
    tb := 0;
    while true
      invariant r.Valid() && start <= r.pos
      invariant tb == r.pos - start && buf == w[start..r.pos]
      invariant IndexFrom(w, start, SP) == IndexFrom(w, r.pos, SP)
      invariant SP !in buf
      decreases |r.data| - r.pos
    {
      var b := r.ReadByte();
      if b.Err? {
        return buf, tb, Some(EOF);
      }
      tb := tb + 1;
      if b.value == SP {
        return buf, tb, None;
      }
      if b.value == DASH && |buf| > 0 && buf[tb - 2] == SP {
        return buf, tb, None;
      }
      buf := buf + [b.value];
    }
  }

  // ---------------------------------------------------------------------
  // Priority
  // ---------------------------------------------------------------------

  /**
   * The `<PRI>` field read from position `i` of the window `s`: the bytes
   * buffered between the brackets, the priority or the error, and the
   * position after the bytes consumed.
   */
  datatype PriorityField = PriorityField(buf: Bytes, prio: Result<int>, end: nat)

  function PriorityOf(s: Bytes, i: nat): (p: PriorityField)
    requires i <= |s|
    ensures i <= p.end <= |s|
    ensures p.prio.Ok? ==> i + 2 <= p.end && s[i] == LANGLE && s[p.end - 1] == RANGLE
  {
    if i == |s| then PriorityField([], Err(EOF), i)
    else if s[i] != LANGLE then PriorityField([], Err(WrongFormat), i + 1)
    else
      var k := IndexFrom(s, i + 1, RANGLE);
      if k == |s| then PriorityField(s[i + 1..], Err(EOF), |s|)
      else
        var v := AtoiResult(s[i + 1..k]);
        PriorityField(s[i + 1..k], if v.Ok? then v else Err(InvalidPrio), k + 1)
  }

  /**
   * A first byte other than '<' is a format error; without a '>' after it
   * the read runs into end of input; otherwise the field is exactly
   * '<' digits '>', and the priority is Atoi of the digits, whatever its
   * value, or an invalid priority when Atoi fails.
   */
  lemma PriorityOfSpec(s: Bytes, i: nat)
    requires i <= |s|
    ensures var p := PriorityOf(s, i);
      (i == |s| ==> p == PriorityField([], Err(EOF), i)) &&
      (i < |s| && s[i] != LANGLE ==> p == PriorityField([], Err(WrongFormat), i + 1)) &&
      (i < |s| && s[i] == LANGLE && RANGLE !in s[i + 1..] ==>
         p == PriorityField(s[i + 1..], Err(EOF), |s|)) &&
      (i < |s| && s[i] == LANGLE && RANGLE in s[i + 1..] ==>
         s[i..p.end] == [LANGLE] + p.buf + [RANGLE] && RANGLE !in p.buf &&
         p.prio == (if AtoiResult(p.buf).Ok? then AtoiResult(p.buf) else Err(InvalidPrio)))
  {
    if i < |s| && s[i] == LANGLE {
      var k := IndexFrom(s, i + 1, RANGLE);
      IndexFromFirst(s, i + 1, RANGLE);
      if k < |s| {
        assert s[i..k + 1] == [LANGLE] + s[i + 1..k] + [RANGLE];
        assert s[i + 1..][k - i - 1] == RANGLE;
      } else {
        assert s[i + 1..] == s[i + 1..k];
      }
    }
  }

  /** `<d>` at position `i` of `s`. */
  predicate BracketedAt(s: Bytes, i: nat, d: Bytes)
  {
    i + |d| + 1 < |s| && s[i] == LANGLE && s[i + 1..i + 1 + |d|] == d && s[i + 1 + |d|] == RANGLE
  }

  /** A run of `s` laid out as `<d>` and `r` has `<d>` at its start and `r` after it. */
  lemma BracketedSplit(s: Bytes, i: nat, k: nat, d: Bytes, r: Bytes)
    requires i <= k <= |s| && s[i..k] == [LANGLE] + d + [RANGLE] + r
    ensures BracketedAt(s, i, d) && s[i + |d| + 2..k] == r
  {
    var t := [LANGLE] + d + [RANGLE] + r;
    assert s[i] == s[i..k][0] == LANGLE;
    SliceOfSlice(s, i, k, 1, |d| + 1);
    assert t[1..|d| + 1] == d;
    assert s[i + 1 + |d|] == s[i..k][|d| + 1] == t[|d| + 1];
    SliceOfSlice(s, i, k, |d| + 2, k - i);
    assert t[|d| + 2..] == r;
  }

  /** `<d>` with no '>' inside is read as the priority field `d`. */
  lemma {:induction false} PriorityAt(s: Bytes, i: nat, d: Bytes)
    requires BracketedAt(s, i, d) && RANGLE !in d
    ensures PriorityOf(s, i) ==
            PriorityField(d, if AtoiResult(d).Ok? then AtoiResult(d) else Err(InvalidPrio), i + |d| + 2)
  {
    forall m | i + 1 <= m < i + 1 + |d| ensures s[m] != RANGLE {
      assert s[m] == d[m - i - 1];
    }
    IndexFromAt(s, i + 1, RANGLE, i + 1 + |d|);
  }

  /** The record with the priority and the facility and severity it packs. */
  function WithPriority(lm: LogMsg, p: int): (r: LogMsg)
    ensures r.priority == p && r.facility * 8 + r.severity == p
    ensures r.facility == FacilityFromPrio(p) && r.severity == SeverityFromPrio(p)
    ensures r == lm.(priority := p, facility := r.facility, severity := r.severity)
  {
    PriorityDecomposes(p);
    lm.(priority := p, facility := FacilityFromPrio(p), severity := SeverityFromPrio(p))
  }

  /**
   * Reads `<PRI>` into the scratch buffer `buf` and, when it converts, sets
   * the priority, facility and severity of the record.
   */
  method ParsePriority(r: Reader, lm: LogMsg) returns (buf: Bytes, lm': LogMsg, err: Option<Error>)
    requires r.Valid()
    modifies r
    ensures r.Valid()
    ensures var p := PriorityOf(r.data, old(r.pos));
              buf == p.buf && r.pos == p.end &&
              (p.prio.Ok? ==> err == None && lm' == WithPriority(lm, p.prio.value)) &&
              (p.prio.Err? ==> err == Some(p.prio.error) && lm' == lm)
  {
    ghost var w := r.data;
    ghost var start := r.pos;
    buf := [];
    lm' := lm;
    var b := r.ReadByte();
    if b.Err? {
      return buf, lm', Some(b.error);
    }
    if b.value != LANGLE {
      return buf, lm', Some(WrongFormat);
    }
    var closed;
    buf, closed := ReadUntilClose(r);
    if !closed {
      return buf, lm', Some(EOF);
    }
    var p := Atoi(buf);
    if p.Err? {
      return buf, lm', Some(InvalidPrio);
    }
    lm' := WithPriority(lm, p.value);
    return buf, lm', None;
  }

  /** The bytes up to the next '>', which is consumed; without one, every byte left. */
  method ReadUntilClose(r: Reader) returns (buf: Bytes, closed: bool)
    requires r.Valid()
    modifies r
    ensures r.Valid()
    ensures var k := IndexFrom(r.data, old(r.pos), RANGLE);
      buf == r.data[old(r.pos)..k] && closed == (k < |r.data|) && r.pos == (if closed then k + 1 else k)
  {
    ghost var start := r.pos;
    buf := [];
    while true
      invariant r.Valid() && start <= r.pos
      invariant buf == r.data[start..r.pos]
      invariant IndexFrom(r.data, start, RANGLE) == IndexFrom(r.data, r.pos, RANGLE)
      decreases |r.data| - r.pos
    {
      var b := r.ReadByte();
      if b.Err? {
        return buf, false;
      }
      if b.value == RANGLE {
        return buf, true;
      }
      buf := buf + [b.value];
    }
  }

  /**
   * No range check: every convertible priority is accepted, "<999>" as
   * 999 and "<>" as 0; a missing '<' is a format error and an inconvertible
   * priority an invalid one.
   */
  lemma PriorityExamples()
    ensures PriorityOf([LANGLE, NINE, NINE, NINE, RANGLE], 0).prio == Ok(999)
    ensures PriorityOf([LANGLE, RANGLE], 0).prio == Ok(0)
    ensures PriorityOf([ZERO], 0).prio == Err(WrongFormat)
    ensures PriorityOf([LANGLE, 'x' as byte, RANGLE], 0).prio == Err(InvalidPrio)
  {
    var s := [LANGLE, NINE, NINE, NINE, RANGLE];
    IndexFromAt(s, 1, RANGLE, 4);
    assert s[1..4] == [NINE, NINE, NINE];
    assert [NINE, NINE, NINE][..2] == [NINE, NINE];
    assert [NINE, NINE][..1] == [NINE];
    assert [NINE][..0] == [];
    assert PositionalValue([NINE]) == 9;
    assert PositionalValue([NINE, NINE]) == 99;
    assert PositionalValue([NINE, NINE, NINE]) == 999;
    assert LastRejected([NINE, NINE, NINE]) == -1;
    var u := [LANGLE, 'x' as byte, RANGLE];
    IndexFromAt(u, 1, RANGLE, 2);
    assert u[1..2] == ['x' as byte];
  }

  // ---------------------------------------------------------------------
  // Octet-counting length prefix
  // ---------------------------------------------------------------------

  /**
   * The length prefix read from position `i` of `s`: Atoi of the bytes
   * before the next space, or the reader's error, and the position after.
   */
  function MsgLengthOf(s: Bytes, i: nat): (r: (Result<int>, nat))
    requires i <= |s|
    ensures i <= r.1 <= |s|
    ensures r.0.Ok? ==> i < r.1 && s[r.1 - 1] == SP
  {
    var f := UntilSpace(s, i);
    if f.err.Some? then (Err(f.err.value), f.end) else (AtoiResult(f.bytes), f.end)
  }

  /**
   * The prefix runs through the first space and its value is Atoi of the
   * bytes before it; with no space left the read ends in end of input.
   */
  lemma MsgLengthSpec(s: Bytes, i: nat)
    requires i <= |s|
    ensures var m := MsgLengthOf(s, i);
      (SP !in s[i..] ==> m == (Err(EOF), |s|)) &&
      (SP in s[i..] ==> i < m.1 && s[m.1 - 1] == SP && SP !in s[i..m.1 - 1] &&
                        m.0 == AtoiResult(s[i..m.1 - 1]))
  {
    UntilSpaceSpec(s, i);
    var f := UntilSpace(s, i);
    if f.err == None {
      assert s[i..f.end][|f.bytes|] == s[f.end - 1];
      assert s[i..f.end - 1] == s[i..f.end][..|f.bytes|];
    }
  }

  /** Reads the `MSG-LEN SP` prefix; the reader's and Atoi's errors are returned as they are. */
  method ReadMsgLength(r: Reader) returns (ml: int, err: Option<Error>)
    requires r.Valid()
    modifies r
    ensures r.Valid()
    ensures var m := MsgLengthOf(r.data, old(r.pos));
              r.pos == m.1 &&
              (m.0.Ok? ==> err == None && ml == m.0.value) &&
              (m.0.Err? ==> err == Some(m.0.error) && ml == 0)
  {
    var ls, _, e := ReadBytesUntilSpace(r);
    if e.Some? {
      return 0, e;
    }
    var v := Atoi(ls);
    if v.Err? {
      return 0, Some(v.error);
    }
    return v.value, None;
  }

  /** A printed length followed by a space reads back as that length. */
  lemma MsgLengthRoundTrip(n: nat, rest: Bytes)
    ensures MsgLengthOf(DecimalDigits(n) + [SP] + rest, 0) == (Ok(n), |DecimalDigits(n)| + 1)
  {
    var d := DecimalDigits(n);
    var s := d + [SP] + rest;
    forall j | 0 <= j < |d| ensures s[j] != SP {
      assert IsDigit(d[j]);
    }
    IndexFromAt(s, 0, SP, |d|);
    assert s[0..|d|] == d;
    AtoiDecimalRoundTrip(n);
  }
}
