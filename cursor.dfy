/**
 * The byte source the decoders read from: a buffered reader over the
 * input bytes with a read position. Reads hand out bytes in order; a read
 * at the end of the bytes reports end of input. A length-limited reader
 * wrapped around another one is a reader of its own over the next `n`
 * bytes of the other, starting where the other stands.
 *
 * The decoders are specified over the reader's bytes and positions in
 * them: a method that reads says where the position ends up, as a
 * function of the bytes and of where it started.
 */
module Cursor {
  import opened SyslogTypes

  class Reader {
    const data: Bytes
    var pos: nat

    ghost predicate Valid()
      reads this
    {
      pos <= |data|
    }

    constructor (input: Bytes)
      ensures Valid() && data == input && pos == 0
    {
      data := input;
      pos := 0;
    }

    /**
     * A reader limited to the next `n` bytes of `under` (none at all when
     * `n` is not positive), positioned where `under` stands.
     */
    constructor Limit(under: Reader, n: int)
      requires under.Valid()
      ensures Valid() && pos == under.pos
      ensures data == under.data[..under.pos + Clamp(n, |under.data| - under.pos)]
    {
      data := under.data[..under.pos + Clamp(n, |under.data| - under.pos)];
      pos := under.pos;
    }

    /** Reads one byte, or reports end of input. */
    method ReadByte() returns (r: Result<byte>)
      requires Valid()
      modifies this
      ensures Valid()
      ensures old(pos) < |data| ==> r == Ok(data[old(pos)]) && pos == old(pos) + 1
      ensures old(pos) == |data| ==> r == Err(EOF) && pos == old(pos)
    {
      if pos < |data| {
        r := Ok(data[pos]);
        pos := pos + 1;
      } else {
        r := Err(EOF);
      }
    }

    /**
     * Reads through the first `delim`: the bytes up to and including it,
     * or everything that is left together with end of input.
     */
    method ReadSlice(delim: byte) returns (line: Bytes, err: Option<Error>)
      requires Valid()
      modifies this
      ensures Valid()
      ensures var k := IndexFrom(data, old(pos), delim);
                if k < |data| then err == None && pos == k + 1 else err == Some(EOF) && pos == |data|
      ensures line == data[old(pos)..pos]
    {
      line := [];
      while true
        invariant Valid() && old(pos) <= pos
        invariant line == data[old(pos)..pos]
        invariant IndexFrom(data, old(pos), delim) == IndexFrom(data, pos, delim)
        decreases |data| - pos
      {
        var b := ReadByte();
        if b.Err? {
          return line, Some(EOF);
        }
        line := line + [b.value];
        if b.value == delim {
          return line, None;
        }
      }
    }

    /** Looks at the next `n` bytes without consuming them. */
    method Peek(n: nat) returns (r: Result<Bytes>)
      requires Valid()
      ensures pos + n <= |data| ==> r == Ok(data[pos..pos + n])
      ensures |data| < pos + n ==> r == Err(EOF)
    {
      if n <= |data| - pos {
        r := Ok(data[pos..pos + n]);
      } else {
        r := Err(EOF);
      }
    }

    /**
     * Reads up to `n` bytes in one call: as many as are left, at most `n`;
     * end of input only when none is left.
     */
    method Read(n: nat) returns (got: Bytes, err: Option<Error>)
      requires Valid() && n > 0
      modifies this
      ensures Valid()
      ensures pos == old(pos) + Clamp(n, |data| - old(pos))
      ensures got == data[old(pos)..pos]
      ensures err == None <==> old(pos) < |data|
      ensures err != None ==> err == Some(EOF)
    {
      var k := Clamp(n, |data| - pos);
      if k == 0 {
        return [], Some(EOF);
      }
      got := data[pos..pos + k];
      pos := pos + k;
      err := None;
    }

    /** Skips one byte; false when there was none to skip. */
    method Discard1() returns (ok: bool)
      requires Valid()
      modifies this
      ensures Valid()
      ensures ok == (old(pos) < |data|)
      ensures pos == if ok then old(pos) + 1 else old(pos)
    {
      ok := pos < |data|;
      if ok {
        pos := pos + 1;
      }
    }

    /** Reads everything that is left. */
    method ReadAll() returns (rest: Bytes)
      requires Valid()
      modifies this
      ensures Valid() && pos == |data|
      ensures rest == data[old(pos)..]
    {
      rest := data[pos..];
      pos := |data|;
    }

    /**
     * Moves on to position `p`: the bytes a limited reader wrapped around
     * this one has read are gone from this one too.
     */
    method CatchUp(p: nat)
      requires Valid() && pos <= p <= |data|
      modifies this
      ensures Valid() && pos == p
    {
      pos := p;
    }
  }

  /** How many of `available` bytes a reader limited to `n` bytes hands out. */
  function Clamp(n: int, available: nat): (k: nat)
    ensures k <= available
    ensures k <= n || k == 0
    ensures n >= 0 && n <= available ==> k == n
    ensures n > 0 && available > 0 ==> k > 0
  {
    if n <= 0 then 0 else if n < available then n else available
  }
}
