/**
 * Shared vocabulary of the syslog decoders: bytes, optional values,
 * results, and the one error type that stands for every sentinel error
 * value and every ad-hoc error the decoders can return.
 */
module SyslogTypes {

  /** One octet of the wire format. */
  newtype byte = x: int | 0 <= x < 256

  type Bytes = seq<byte>

  datatype Option<+T> = None | Some(value: T)

  datatype Result<+T> = Ok(value: T) | Err(error: Error)

  /**
   * Every error value the decoders produce.
   * The first group are the package-level sentinels, the second the errors
   * of the RFC 3164 timestamp decoder, the third the errors that come from
   * the reader or from library calls.
   */
  datatype Error =
    | InvalidPrio
    | InvalidProtoVersion
    | InvalidTimestamp
    | ParserTypeUnknown
    | PrematureEOF
    | WrongFormat
    | WrongSDFormat
    | InvalidLength
    | InvalidNumber
      // timestamp decoder of the newer RFC 3164 parser
    | BadLength
    | BadFormat
    | BadMonth
    | BadNumber
    | OutOfRange
      // end of input, as reported by every read
    | EOF
      // the error Atoi builds for the first offending byte it meets
    | NotANumber(offending: byte)
      // the error of a failed one-byte discard after the RFC 3164 timestamp
    | DiscardFailed
      // the syntax error of the standard library's decimal conversion
    | SyntaxError

  /** The error a decoder reports once it maps end of input to a premature end. */
  function MapEOF(e: Error): (r: Error)
    ensures e == EOF ==> r == PrematureEOF
    ensures e != EOF ==> r == e
  {
    if e == EOF then PrematureEOF else e
  }

  /** The bytes of an ASCII text literal. */
  function Ascii(s: string): (r: Bytes)
    requires forall i :: 0 <= i < |s| ==> s[i] as int < 256
    ensures |r| == |s|
    ensures forall i :: 0 <= i < |s| ==> r[i] as int == s[i] as int
  {
    seq(|s|, i requires 0 <= i < |s| => s[i] as int as byte)
  }

  /** A character missing from a text is a byte missing from its bytes. */
  lemma AsciiAbsent(s: string, c: char)
    requires forall i :: 0 <= i < |s| ==> s[i] as int < 256
    requires c !in s && c as int < 256
    ensures c as int as byte !in Ascii(s)
  {
  }

  const SP: byte := ' ' as byte
  const LF: byte := '\n' as byte
  const COLON: byte := ':' as byte
  const LBRACKET: byte := '[' as byte
  const RBRACKET: byte := ']' as byte
  const LANGLE: byte := '<' as byte
  const RANGLE: byte := '>' as byte
  const DASH: byte := '-' as byte
  const PLUS: byte := '+' as byte
  const EQUALS: byte := '=' as byte
  const QUOTE: byte := '"' as byte
  const ZERO: byte := '0' as byte
  const NINE: byte := '9' as byte

  predicate IsDigit(b: byte) {
    ZERO <= b <= NINE
  }

  /**
   * The position of the first `c` in `s` at or after `i`, or `|s|` when
   * there is none.
   */
  function IndexFrom(s: Bytes, i: nat, c: byte): (k: nat)
    requires i <= |s|
    ensures i <= k <= |s|
    ensures k < |s| ==> s[k] == c
    decreases |s| - i
  {
    if i == |s| || s[i] == c then i else IndexFrom(s, i + 1, c)
  }

  /** Two adjacent slices make up the slice that spans both. */
  lemma JoinSlices<T>(s: seq<T>, i: nat, j: nat, k: nat)
    requires i <= j <= k <= |s|
    ensures s[i..j] + s[j..k] == s[i..k]
  {
  }

  /** Appending the head of a sequence and then its tail appends the sequence. */
  lemma AppendHeadTail<T>(a: seq<T>, s: seq<T>)
    requires |s| > 0
    ensures a + [s[0]] + s[1..] == a + s
  {
    assert [s[0]] + s[1..] == s;
  }

  /** A slice of a slice is a slice of the whole. */
  lemma SliceOfSlice<T>(s: seq<T>, i: nat, j: nat, a: nat, b: nat)
    requires i <= j <= |s| && a <= b <= j - i
    ensures s[i..j][a..b] == s[i + a..i + b]
  {
    var x, y := s[i..j][a..b], s[i + a..i + b];
    assert |x| == |y|;
    forall k | 0 <= k < |x|
      ensures x[k] == y[k]
    {
      assert x[k] == s[i..j][a + k] == s[i + a + k];
    }
  }

  /** A slice of a run of `s` that equals `x` is the same slice of `x`. */
  lemma SubSlice<T>(s: seq<T>, i: nat, x: seq<T>, a: nat, b: nat)
    requires i + |x| <= |s| && s[i..i + |x|] == x && a <= b <= |x|
    ensures s[i + a..i + b] == x[a..b]
  {
    SliceOfSlice(s, i, i + |x|, a, b);
  }

  /** A run of `s` equal to `x + y` is a run equal to `x` followed by one equal to `y`. */
  lemma SplitRun<T>(s: seq<T>, i: nat, x: seq<T>, y: seq<T>)
    requires i + |x| + |y| <= |s| && s[i..i + |x| + |y|] == x + y
    ensures s[i..i + |x|] == x && s[i + |x|..i + |x| + |y|] == y
  {
    SubSlice(s, i, x + y, 0, |x|);
    assert (x + y)[..|x|] == x;
    SubSlice(s, i, x + y, |x|, |x| + |y|);
    assert (x + y)[|x|..] == y;
  }

  /** No `c` lies between `i` and the position IndexFrom finds. */
  lemma {:induction false} IndexFromFirst(s: Bytes, i: nat, c: byte)
    requires i <= |s|
    ensures forall j :: i <= j < IndexFrom(s, i, c) ==> s[j] != c
    ensures c !in s[i..IndexFrom(s, i, c)]
    decreases |s| - i
  {
    if i < |s| && s[i] != c {
      IndexFromFirst(s, i + 1, c);
      assert s[i..IndexFrom(s, i, c)] == [s[i]] + s[i + 1..IndexFrom(s, i + 1, c)];
    }
  }

  /** A `c` at `k` with none before it, from `i` on, is the one IndexFrom finds. */
  lemma {:induction false} IndexFromAt(s: Bytes, i: nat, c: byte, k: nat)
    requires i <= k <= |s|
    requires k < |s| ==> s[k] == c
    requires forall j :: i <= j < k ==> s[j] != c
    ensures IndexFrom(s, i, c) == k
    decreases k - i
  {
    if i < k {
      IndexFromAt(s, i + 1, c, k);
    }
  }
}
