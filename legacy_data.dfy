/**
 * The byte readers of the older revision of the package (data.go). They
 * read from a plain reader one byte per read, and convert the length
 * prefix with the standard library's strict decimal conversion rather
 * than the package's own loose Atoi.
 *
 * The older NILVALUE-aware reader is the same loop as the newer one, with
 * the same unreachable early exit, and is modelled by
 * `Common.ReadBytesUntilSpaceOrNilValue`.
 */
module LegacyData {
  import opened SyslogTypes
  import opened Cursor
  import opened Common

  // ---------------------------------------------------------------------
  // strconv.Atoi
  // ---------------------------------------------------------------------

  /** A leading '+' or '-'. */
  predicate IsSign(b: byte)
  {
    b == PLUS || b == DASH
  }

  /**
   * The standard library's decimal conversion: an optional sign followed
   * by one or more decimal digits; anything else, the empty input and a
   * lone sign included, is a syntax error.
   */
  function StrconvAtoi(b: Bytes): (r: Result<int>)
    ensures r.Err? ==> r.error == SyntaxError
  {
    var digits := if |b| > 0 && IsSign(b[0]) then b[1..] else b;
    if |digits| == 0 || !AllDigits(digits) then Err(SyntaxError)
    else if b[0] == DASH then Ok(-PositionalValue(digits))
    else Ok(PositionalValue(digits))
  }

  /** The decimal text of an integer: a '-' before the digits of a negative one. */
  function SignedDecimal(n: int): (r: Bytes)
    ensures |r| >= 1
  {
    if n < 0 then [DASH] + DecimalDigits(-n) else DecimalDigits(n)
  }

  /**
   * The conversion accepts exactly an optional sign and at least one
   * digit, and its value is the digits' decimal value, negated after '-'.
   */
  lemma {:induction false} StrconvAtoiSpec(b: Bytes)
    ensures StrconvAtoi(b).Ok? <==>
              (|b| > 0 && AllDigits(b)) || (|b| > 1 && IsSign(b[0]) && AllDigits(b[1..]))
    ensures |b| > 0 && AllDigits(b) ==> StrconvAtoi(b) == Ok(PositionalValue(b))
    ensures |b| > 1 && IsSign(b[0]) && AllDigits(b[1..]) ==>
              StrconvAtoi(b) == Ok(if b[0] == DASH then -PositionalValue(b[1..]) else PositionalValue(b[1..]))
  {
    if |b| > 0 && AllDigits(b) {
      assert IsDigit(b[0]);
    }
  }

  /** The conversion reads back every integer's decimal text, and a '+' before it changes nothing. */
  lemma {:induction false} StrconvAtoiRoundTrip(n: int)
    ensures StrconvAtoi(SignedDecimal(n)) == Ok(n)
    ensures n >= 0 ==> StrconvAtoi([PLUS] + DecimalDigits(n)) == Ok(n)
  {
    var m := if n < 0 then -n else n;
    var d := DecimalDigits(m);
    assert PositionalValue(d) == m by {
      AtoiDecimalRoundTrip(m);
      AtoiOfDigits(d);
    }
    if n < 0 {
      assert ([DASH] + d)[1..] == d;
      StrconvAtoiSpec([DASH] + d);
    } else {
      StrconvAtoiSpec(d);
      assert ([PLUS] + d)[1..] == d;
      StrconvAtoiSpec([PLUS] + d);
    }
  }

  /**
   * Where the package's Atoi reads a value, the conversion may refuse:
   * the empty input is 0 to the one and a syntax error to the other, and
   * so is "1:" (':' counts as ten to Atoi).
   */
  lemma StricterThanAtoi()
    ensures AtoiResult([]) == Ok(0) && StrconvAtoi([]) == Err(SyntaxError)
    ensures AtoiResult([0x31, 0x3A]).Ok? && StrconvAtoi([0x31, 0x3A]) == Err(SyntaxError)
  {
    var b: Bytes := [0x31, 0x3A];
    assert !IsDigit(b[1]);
    assert LastRejected(b) == -1 by {
      assert b[..1] == [0x31];
      assert [0x31 as byte][..0] == [];
    }
  }

  // ---------------------------------------------------------------------
  // The readers
  // ---------------------------------------------------------------------

  /**
   * Reads one byte at a time up to the first space: the bytes before it
   * and a count that includes it; at end of input, the bytes read so far,
   * their count and the error.
   */
  method ReadBytesUntilSpace(r: Reader) returns (buf: Bytes, tb: nat, err: Option<Error>)
    requires r.Valid()
    modifies r
    ensures r.Valid()
    ensures var f := UntilSpace(r.data, old(r.pos));
              buf == f.bytes && err == f.err && r.pos == f.end && tb == f.end - old(r.pos)
  {
    ghost var w := r.data;
    ghost var start := r.pos;
    buf := [];
    tb := 0;
    while true
      invariant r.Valid() && start <= r.pos
      invariant tb == r.pos - start && buf == w[start..r.pos]
      invariant IndexFrom(w, start, SP) == IndexFrom(w, r.pos, SP)
      decreases |r.data| - r.pos
    {
      var b := r.ReadByte();
      if b.Err? {
        return buf, tb, Some(b.error);
      }
      tb := tb + 1;
      if b.value == SP {
        return buf, tb, None;
      }
      buf := buf + [b.value];
    }
  }

  /**
   * The length prefix: the conversion of the bytes before the first space,
   * and where the reading stopped. End of input before a space is the
   * reader's error.
   */
  function MsgLengthOf(s: Bytes, i: nat): (m: (Result<int>, nat))
    requires i <= |s|
    ensures i <= m.1 <= |s|
    ensures m.0.Ok? ==> i < m.1 && s[m.1 - 1] == SP
  {
    var f := UntilSpace(s, i);
    if f.err.Some? then (Err(f.err.value), f.end) else (StrconvAtoi(f.bytes), f.end)
  }

  /**
   * The prefix is read back from the decimal text of any integer followed
   * by a space, whatever comes after; with no space at all it is end of
   * input after the whole input.
   */
  lemma {:induction false} MsgLengthRoundTrip(n: int, rest: Bytes)
    ensures MsgLengthOf(SignedDecimal(n) + [SP] + rest, 0) == (Ok(n), |SignedDecimal(n)| + 1)
    ensures SP !in rest ==> MsgLengthOf(rest, 0) == (Err(EOF), |rest|)
  {
    var d := SignedDecimal(n);
    var s := d + [SP] + rest;
    forall j | 0 <= j < |d| ensures s[j] != SP {
      if n < 0 && j > 0 {
        assert d[j] == DecimalDigits(-n)[j - 1];
        assert IsDigit(DecimalDigits(-n)[j - 1]);
      } else if n >= 0 {
        assert IsDigit(d[j]);
      }
    }
    IndexFromAt(s, 0, SP, |d|);
    assert s[0..|d|] == d;
    StrconvAtoiRoundTrip(n);
    if SP !in rest {
      IndexFromFirst(rest, 0, SP);
      assert rest[0..] == rest;
    }
  }

  /** Reads the `MSG-LEN SP` prefix; 0 and the error when reading or converting fails. */
  method ReadMsgLength(r: Reader) returns (ml: int, err: Option<Error>)
    requires r.Valid()
    modifies r
    ensures r.Valid()
    ensures var m := MsgLengthOf(r.data, old(r.pos));
              r.pos == m.1 &&
              (m.0.Ok? ==> ml == m.0.value && err == None) &&
              (m.0.Err? ==> ml == 0 && err == Some(m.0.error))
  {
    var ls, _, e := ReadBytesUntilSpace(r);
    if e.Some? {
      return 0, e;
    }
    var v := StrconvAtoi(ls);
    if v.Err? {
      return 0, Some(v.error);
    }
    return v.value, None;
  }
}
