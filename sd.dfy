/**
 * The structured-data part of an RFC 5424 message (section 6.3 of RFC
 * 5424), as both revisions of the decoder read it: '-' for none, or a run
 * of `[SD-ID PARAM-NAME="PARAM-VALUE" ...]` elements ended by a space.
 *
 * The decoders read it with a byte loop over three flags. The functions
 * here are that loop as a state machine over the input from a position
 * on; the lemmas say what it produces, and that it reads back what
 * `Encode` writes for elements that use no delimiter inside their parts.
 * The machine has no escape handling: the next '"' always closes a value
 * and a ']' always closes an element.
 */
module StructuredData {
  import opened SyslogTypes
  import opened LogMessage

  /**
   * The loop's variables: the scratch bytes, the finished elements, the
   * element and the parameter being built, and the three flags.
   */
  datatype SDState = SDState(buf: Bytes, sds: seq<SDElement>, sd: SDElement, sdp: SDParam,
                             insideElem: bool, insideParam: bool, readName: bool)

  /** What reading structured data gives: the elements, when they are assigned, the scratch bytes left, the error and the position reached. */
  datatype SDOutcome = SDOutcome(elems: Option<seq<SDElement>>, buf: Bytes, err: Option<Error>, end: nat)

  const NoElement := SDElement([], [])
  const NoParam := SDParam([], [])

  /** The loop's variables right after the opening '['. */
  function LoopStart(): SDState
  {
    SDState([], [], NoElement, NoParam, true, false, false)
  }

  /** The loop ends on a space read outside an element. */
  predicate Stops(st: SDState, b: byte)
  {
    b == SP && !st.insideElem
  }

  /**
   * One byte of the loop. ']' finishes the element and '[' opens the next
   * one; the first space of an element ends its ID and falls through to
   * the remaining cases; '=' outside a value ends a parameter name, '"'
   * opens a value and the next '"' closes it and finishes the parameter;
   * a space outside a value is skipped, and any other byte goes to the
   * scratch bytes.
   */
  function Feed(st: SDState, b: byte): (r: SDState)
    ensures b == RBRACKET ==> r.sds == st.sds + [st.sd] && !r.insideElem
    ensures b != RBRACKET ==> r.sds == st.sds
    ensures b == LBRACKET ==> r.insideElem
  {
    if b == RBRACKET then
      st.(insideElem := false, sds := st.sds + [st.sd], sd := NoElement, buf := [])
    else if b == LBRACKET then
      st.(insideElem := true, readName := false)
    else
      var st1 := if b == SP && !st.readName then st.(readName := true, sd := st.sd.(id := st.buf), buf := [])
                 else st;
      if b == EQUALS && !st1.insideParam then st1.(sdp := st1.sdp.(key := st1.buf), buf := [])
      else if b == QUOTE && !st1.insideParam then st1.(insideParam := true)
      else if b == QUOTE then
        st1.(insideParam := false, sd := st1.sd.(params := st1.sd.params + [st1.sdp.(val := st1.buf)]),
             sdp := NoParam, buf := [])
      else if b == SP && (!st1.insideElem || !st1.insideParam) then st1
      else st1.(buf := st1.buf + [b])
  }

  /**
   * The loop from position `i` with variables `st`: it reads until it
   * stops, and then assigns the finished elements, or until end of input,
   * which is an error.
   */
  function Loop(s: Bytes, i: nat, st: SDState): (o: SDOutcome)
    requires i <= |s|
    ensures i <= o.end <= |s|
    ensures o.err.Some? <==> o.elems.None?
    decreases |s| - i
  {
    if i == |s| then SDOutcome(None, st.buf, Some(EOF), |s|)
    else if Stops(st, s[i]) then
      var st' := Feed(st, s[i]);
      SDOutcome(Some(st'.sds), st'.buf, None, i + 1)
    else Loop(s, i + 1, Feed(st, s[i]))
  }

  /**
   * Structured data from position `i`: '-' and one more byte, unchecked,
   * for none; a first byte other than '-' or '[' is a format error;
   * otherwise the loop.
   */
  function StructuredDataOf(s: Bytes, i: nat): (o: SDOutcome)
    requires i <= |s|
    ensures i <= o.end <= |s|
    ensures o.err.Some? ==> o.elems.None?
    ensures i < |s| && s[i] != DASH && s[i] != LBRACKET ==> o.err == Some(WrongSDFormat)
    ensures i < |s| && s[i] == DASH ==> o.elems.None?
  {
    if i == |s| then SDOutcome(None, [], Some(EOF), i)
    else if s[i] == DASH then
      if i + 1 == |s| then SDOutcome(None, [], Some(EOF), |s|) else SDOutcome(None, [], None, i + 2)
    else if s[i] != LBRACKET then SDOutcome(None, [], Some(WrongSDFormat), i + 1)
    else Loop(s, i + 1, LoopStart())
  }

  // ---------------------------------------------------------------------
  // What the machine produces
  // ---------------------------------------------------------------------

  /** The number of times `b` occurs in `s`. */
  function Occurrences(s: Bytes, b: byte): (n: nat)
    ensures n <= |s|
  {
    if s == [] then 0 else (if s[0] == b then 1 else 0) + Occurrences(s[1..], b)
  }

  /**
   * The loop fails only at end of input and assigns nothing then. When it
   * stops, it stopped on a space, and the elements are the ones it had,
   * followed by one more for every ']' it read.
   */
  lemma {:induction false} LoopSpec(s: Bytes, i: nat, st: SDState)
    requires i <= |s|
    ensures var o := Loop(s, i, st);
      o.err.Some? ==> o.err == Some(EOF) && o.end == |s| && o.elems == None
    ensures var o := Loop(s, i, st);
      o.err.None? ==>
        i < o.end && s[o.end - 1] == SP && o.elems.Some? &&
        |o.elems.value| == |st.sds| + Occurrences(s[i..o.end], RBRACKET) &&
        o.elems.value[..|st.sds|] == st.sds
    decreases |s| - i
  {
    var o := Loop(s, i, st);
    if i < |s| && o.err.None? {
      var st1 := Feed(st, s[i]);
      assert s[i..o.end][0] == s[i];
      if Stops(st, s[i]) {
        assert s[i..o.end] == [s[i]];
        assert st1.sds == st.sds;
      } else {
        LoopSpec(s, i + 1, st1);
        assert s[i..o.end][1..] == s[i + 1..o.end];
        assert |st1.sds| == |st.sds| + (if s[i] == RBRACKET then 1 else 0);
        assert st1.sds[..|st.sds|] == st.sds;
      }
    } else if i < |s| && !Stops(st, s[i]) {
      LoopSpec(s, i + 1, Feed(st, s[i]));
    }
  }

  /**
   * A format error comes only from the first byte, when it is neither '-'
   * nor '['; '-' consumes one more byte, unchecked, and assigns nothing;
   * every other error is end of input.
   */
  lemma {:induction false} StructuredDataSpec(s: Bytes, i: nat)
    requires i <= |s|
    ensures var o := StructuredDataOf(s, i);
      o.err == Some(WrongSDFormat) <==> i < |s| && s[i] != DASH && s[i] != LBRACKET
    ensures var o := StructuredDataOf(s, i);
      o.err.Some? && o.err != Some(WrongSDFormat) ==> o.err == Some(EOF) && o.end == |s| && o.elems == None
    ensures var o := StructuredDataOf(s, i);
      i + 1 < |s| && s[i] == DASH ==> o == SDOutcome(None, [], None, i + 2)
    ensures var o := StructuredDataOf(s, i);
      i < |s| && s[i] == LBRACKET && o.err.None? ==>
        o.elems.Some? && |o.elems.value| == Occurrences(s[i + 1..o.end], RBRACKET)
  {
    if i < |s| && s[i] == LBRACKET {
      LoopSpec(s, i + 1, LoopStart());
    }
  }

  // ---------------------------------------------------------------------
  // Reading back what is written
  // ---------------------------------------------------------------------

  /** The bytes an SD-ID or a PARAM-NAME may hold to read back unchanged. */
  predicate NameByte(b: byte)
  {
    b != SP && b != EQUALS && b != QUOTE && b != LBRACKET && b != RBRACKET
  }

  /** The bytes a PARAM-VALUE may hold to read back unchanged: spaces and '=' included. */
  predicate ValueByte(b: byte)
  {
    b != QUOTE && b != LBRACKET && b != RBRACKET
  }

  /** An element whose parts use only those bytes, with at least one parameter. */
  predicate Plain(e: SDElement)
  {
    |e.params| > 0 &&
    (forall k :: 0 <= k < |e.id| ==> NameByte(e.id[k])) &&
    (forall p :: p in e.params ==> PlainParam(p))
  }

  /** A parameter whose name and value use only those bytes. */
  predicate PlainParam(p: SDParam)
  {
    (forall k :: 0 <= k < |p.key| ==> NameByte(p.key[k])) &&
    (forall k :: 0 <= k < |p.val| ==> ValueByte(p.val[k]))
  }

  /** ` PARAM-NAME="PARAM-VALUE"`. */
  function EncodeParam(p: SDParam): Bytes
  {
    [SP] + p.key + [EQUALS, QUOTE] + p.val + [QUOTE]
  }

  function EncodeParams(ps: seq<SDParam>): Bytes
  {
    if ps == [] then [] else EncodeParam(ps[0]) + EncodeParams(ps[1..])
  }

  /** `[SD-ID PARAM-NAME="PARAM-VALUE" ...]`. */
  function EncodeElement(e: SDElement): Bytes
  {
    [LBRACKET] + e.id + EncodeParams(e.params) + [RBRACKET]
  }

  /** The elements one after another, with nothing between them. */
  function Encode(es: seq<SDElement>): Bytes
  {
    if es == [] then [] else EncodeElement(es[0]) + Encode(es[1..])
  }

  /** A byte that goes to the scratch bytes and changes nothing else. */
  predicate Absorbed(st: SDState, b: byte)
  {
    b != QUOTE && b != LBRACKET && b != RBRACKET &&
    (b == SP ==> st.readName && st.insideElem && st.insideParam) &&
    (b == EQUALS ==> st.insideParam)
  }

  /** A run of absorbed bytes lands in the scratch bytes as it is. */
  lemma {:induction false} AbsorbRun(s: Bytes, i: nat, j: nat, st: SDState)
    requires i <= j <= |s|
    requires forall k :: i <= k < j ==> Absorbed(st, s[k])
    ensures Loop(s, i, st) == Loop(s, j, st.(buf := st.buf + s[i..j]))
    decreases j - i
  {
    if i < j {
      var st1 := Feed(st, s[i]);
      assert st1 == st.(buf := st.buf + [s[i]]);
      assert !Stops(st, s[i]);
      assert Loop(s, i, st) == Loop(s, i + 1, st1);
      AbsorbRun(s, i + 1, j, st1);
      assert st1.buf + s[i + 1..j] == st.buf + s[i..j] by {
        assert [s[i]] + s[i + 1..j] == s[i..j];
      }
      assert st1.(buf := st1.buf + s[i + 1..j]) == st.(buf := st.buf + s[i..j]);
    } else {
      assert st.buf + s[i..j] == st.buf;
    }
  }

  /** A run of bytes that are all absorbed lands in the scratch bytes as it is. */
  lemma {:induction false} AbsorbSlice(s: Bytes, i: nat, j: nat, st: SDState, x: Bytes)
    requires i <= j <= |s| && s[i..j] == x
    requires forall k :: 0 <= k < |x| ==> Absorbed(st, x[k])
    ensures Loop(s, i, st) == Loop(s, j, st.(buf := st.buf + x))
  {
    forall k | i <= k < j ensures Absorbed(st, s[k]) {
      assert s[k] == x[k - i];
    }
    AbsorbRun(s, i, j, st);
  }

  /** The variables inside an element with its ID read, between parameters. */
  predicate BetweenParams(st: SDState)
  {
    st.insideElem && st.readName && !st.insideParam && st.buf == []
  }

  /** One byte of the loop that does not stop it. */
  lemma {:induction false} Advance(s: Bytes, i: nat, st: SDState)
    requires i < |s| && !Stops(st, s[i])
    ensures Loop(s, i, st) == Loop(s, i + 1, Feed(st, s[i]))
  {
  }

  /** A parameter laid out byte by byte is appended to the element being built. */
  lemma {:induction false} ParamBytes(s: Bytes, i: nat, st: SDState, p: SDParam)
    requires BetweenParams(st)
    requires i + |EncodeParam(p)| <= |s|
    requires var b := i + 1 + |p.key|;
      s[i] == SP && s[i + 1..b] == p.key && s[b] == EQUALS && s[b + 1] == QUOTE &&
      s[b + 2..b + 2 + |p.val|] == p.val && s[b + 2 + |p.val|] == QUOTE
    requires PlainParam(p)
    ensures Loop(s, i, st) ==
            Loop(s, i + |EncodeParam(p)|, st.(sd := st.sd.(params := st.sd.params + [p]), sdp := NoParam))
  {
    ParamKey(s, i, st, p);
    ParamValue(s, i + 2 + |p.key|, st, p);
  }

  /** The loop's variables once a parameter name is read and its '=' passed. */
  function Keyed(st: SDState, key: Bytes): SDState
  {
    st.(sdp := st.sdp.(key := key), buf := [])
  }

  /** The space, the name and the '=' of a parameter. */
  lemma {:induction false} ParamKey(s: Bytes, i: nat, st: SDState, p: SDParam)
    requires BetweenParams(st)
    requires i + 2 + |p.key| <= |s|
    requires s[i] == SP && s[i + 1..i + 1 + |p.key|] == p.key && s[i + 1 + |p.key|] == EQUALS
    requires forall k :: 0 <= k < |p.key| ==> NameByte(p.key[k])
    ensures Loop(s, i, st) == Loop(s, i + 2 + |p.key|, Keyed(st, p.key))
  {
    calc {
      Loop(s, i, st);
    == { Advance(s, i, st); assert Feed(st, SP) == st; }
      Loop(s, i + 1, st);
    == { AbsorbSlice(s, i + 1, i + 1 + |p.key|, st, p.key); }
      Loop(s, i + 1 + |p.key|, st.(buf := st.buf + p.key));
    == { Advance(s, i + 1 + |p.key|, st.(buf := st.buf + p.key)); assert st.buf + p.key == p.key; }
      Loop(s, i + 2 + |p.key|, Keyed(st, p.key));
    }
  }

  /** The quoted value of a parameter after its '=', which finishes the parameter. */
  lemma {:induction false} ParamValue(s: Bytes, c: nat, st: SDState, p: SDParam)
    requires BetweenParams(st)
    requires c + 2 + |p.val| <= |s|
    requires s[c] == QUOTE && s[c + 1..c + 1 + |p.val|] == p.val && s[c + 1 + |p.val|] == QUOTE
    requires forall k :: 0 <= k < |p.val| ==> ValueByte(p.val[k])
    ensures Loop(s, c, Keyed(st, p.key)) == Loop(s, c + 2 + |p.val|, WithParams(st, [p]))
  {
    calc {
      Loop(s, c, Keyed(st, p.key));
    == { Advance(s, c, Keyed(st, p.key)); }
      Loop(s, c + 1, Keyed(st, p.key).(insideParam := true));
    == { forall k | 0 <= k < |p.val| ensures Absorbed(Keyed(st, p.key).(insideParam := true), p.val[k]) {
           assert ValueByte(p.val[k]);
         }
         AbsorbSlice(s, c + 1, c + 1 + |p.val|, Keyed(st, p.key).(insideParam := true), p.val);
         assert [] + p.val == p.val; }
      Loop(s, c + 1 + |p.val|, Keyed(st, p.key).(insideParam := true, buf := p.val));
    == { Advance(s, c + 1 + |p.val|, Keyed(st, p.key).(insideParam := true, buf := p.val));
         assert st.sdp.(key := p.key).(val := p.val) == p; }
      Loop(s, c + 2 + |p.val|, WithParams(st, [p]));
    }
  }

  /** Where the parts of an encoded parameter lie. */
  lemma {:induction false} ParamLayout(s: Bytes, i: nat, p: SDParam)
    requires i + |EncodeParam(p)| <= |s| && s[i..i + |EncodeParam(p)|] == EncodeParam(p)
    ensures var b := i + 1 + |p.key|;
      s[i] == SP && s[i + 1..b] == p.key && s[b] == EQUALS && s[b + 1] == QUOTE &&
      s[b + 2..b + 2 + |p.val|] == p.val && s[b + 2 + |p.val|] == QUOTE
  {
    var e := EncodeParam(p);
    var b := i + 1 + |p.key|;
    assert s[i] == SP && s[b] == EQUALS && s[b + 1] == QUOTE && s[b + 2 + |p.val|] == QUOTE by {
      assert e[0] == SP;
      assert e[1 + |p.key|] == EQUALS;
      assert e[2 + |p.key|] == QUOTE;
      assert e[3 + |p.key| + |p.val|] == QUOTE;
    }
    assert s[i + 1..b] == p.key by {
      SubSlice(s, i, e, 1, 1 + |p.key|);
      assert e[1..1 + |p.key|] == p.key;
    }
    assert s[b + 2..b + 2 + |p.val|] == p.val by {
      SubSlice(s, i, e, 3 + |p.key|, 3 + |p.key| + |p.val|);
      assert e[3 + |p.key|..3 + |p.key| + |p.val|] == p.val;
    }
  }

  /** An encoded parameter is appended to the element being built. */
  lemma {:induction false} ParamRoundTrip(s: Bytes, i: nat, st: SDState, p: SDParam)
    requires BetweenParams(st)
    requires i + |EncodeParam(p)| <= |s| && s[i..i + |EncodeParam(p)|] == EncodeParam(p)
    requires PlainParam(p)
    ensures Loop(s, i, st) ==
            Loop(s, i + |EncodeParam(p)|, st.(sd := st.sd.(params := st.sd.params + [p]), sdp := NoParam))
  {
    ParamLayout(s, i, p);
    ParamBytes(s, i, st, p);
  }

  /** Parameters laid out one after another from position i. */
  predicate ParamsAt(s: Bytes, i: nat, ps: seq<SDParam>)
    decreases |ps|
  {
    if ps == [] then i <= |s|
    else
      var n := |EncodeParam(ps[0])|;
      i + n <= |s| && s[i..i + n] == EncodeParam(ps[0]) && ParamsAt(s, i + n, ps[1..])
  }

  /** Encoded parameters are laid out one after another. */
  lemma {:induction false} ParamsAtEncode(s: Bytes, i: nat, ps: seq<SDParam>)
    requires i + |EncodeParams(ps)| <= |s| && s[i..i + |EncodeParams(ps)|] == EncodeParams(ps)
    ensures ParamsAt(s, i, ps)
    decreases |ps|
  {
    if ps != [] {
      var e, rest := EncodeParam(ps[0]), EncodeParams(ps[1..]);
      var n := |e|;
      assert EncodeParams(ps) == e + rest;
      SplitRun(s, i, e, rest);
      ParamsAtEncode(s, i + n, ps[1..]);
    }
  }

  /** Parameters laid out one after another are appended to the element in order. */
  lemma {:induction false} ParamsRoundTrip(s: Bytes, i: nat, st: SDState, ps: seq<SDParam>)
    requires BetweenParams(st) && forall p :: p in ps ==> PlainParam(p)
    requires ParamsAt(s, i, ps) && i + |EncodeParams(ps)| <= |s|
    ensures |ps| > 0 ==> Loop(s, i, st) == Loop(s, i + |EncodeParams(ps)|, WithParams(st, ps))
    decreases |ps|, 1
  {
    if |ps| > 0 {
      FirstParam(s, i, st, ps);
      if |ps| > 1 {
        RestParams(s, i + |EncodeParam(ps[0])|, st, ps);
      } else {
        assert ps == [ps[0]] && EncodeParams(ps[1..]) == [];
      }
    }
  }

  /** The parameters after the first, read on from where the first one ends at `j`. */
  lemma {:induction false} RestParams(s: Bytes, j: nat, st: SDState, ps: seq<SDParam>)
    requires RestLaidOut(s, j, st, ps)
    ensures Loop(s, j, WithParams(st, [ps[0]])) == Loop(s, j + |EncodeParams(ps[1..])|, WithParams(st, ps))
    decreases |ps|, 0
  {
    ParamsRoundTrip(s, j, WithParams(st, [ps[0]]), ps[1..]);
    WithParamsTwice(st, ps);
  }

  /** The loop's variables once parameters `ps` are appended to the element being built. */
  function WithParams(st: SDState, ps: seq<SDParam>): SDState
  {
    st.(sd := st.sd.(params := st.sd.params + ps), sdp := NoParam)
  }

  /** Parameters after the first, laid out from `j` and plain, to be read after the first one. */
  predicate RestLaidOut(s: Bytes, j: nat, st: SDState, ps: seq<SDParam>)
  {
    |ps| > 1 && BetweenParams(WithParams(st, [ps[0]])) && (forall p :: p in ps[1..] ==> PlainParam(p)) &&
    ParamsAt(s, j, ps[1..]) && j + |EncodeParams(ps[1..])| <= |s|
  }

  /** The first of several laid-out parameters is read, leaving the rest laid out and plain. */
  lemma {:induction false} FirstParam(s: Bytes, i: nat, st: SDState, ps: seq<SDParam>)
    requires BetweenParams(st) && forall p :: p in ps ==> PlainParam(p)
    requires ParamsAt(s, i, ps) && i + |EncodeParams(ps)| <= |s| && |ps| > 0
    ensures Loop(s, i, st) == Loop(s, i + |EncodeParam(ps[0])|, WithParams(st, [ps[0]]))
    ensures |EncodeParams(ps)| == |EncodeParam(ps[0])| + |EncodeParams(ps[1..])|
    ensures BetweenParams(WithParams(st, [ps[0]])) && forall p :: p in ps[1..] ==> PlainParam(p)
    ensures ParamsAt(s, i + |EncodeParam(ps[0])|, ps[1..])
    ensures |ps| > 1 ==> RestLaidOut(s, i + |EncodeParam(ps[0])|, st, ps)
  {
    assert PlainParam(ps[0]);
    ParamRoundTrip(s, i, st, ps[0]);
    forall p | p in ps[1..] ensures PlainParam(p) {
      assert p in ps;
    }
  }

  /** Appending the first parameter and then the rest appends them all. */
  lemma WithParamsTwice(st: SDState, ps: seq<SDParam>)
    requires |ps| > 0
    ensures WithParams(WithParams(st, [ps[0]]), ps[1..]) == WithParams(st, ps)
  {
    AppendHeadTail(st.sd.params, ps);
  }


  /** The variables right after a '[' that opens an element. */
  predicate AtElement(st: SDState)
  {
    st.insideElem && !st.readName && !st.insideParam && st.buf == [] && st.sd == NoElement
  }

  /** The variables right after the ']' that closed an element. */
  predicate AfterElement(st: SDState)
  {
    !st.insideElem && st.readName && !st.insideParam && st.buf == [] && st.sd == NoElement &&
    st.sdp == NoParam
  }

  /** An SD-ID laid out after the '[' and ended by a space becomes the ID of the element. */
  lemma {:induction false} IdBytes(s: Bytes, i: nat, st: SDState, id: Bytes)
    requires AtElement(st) && forall k :: 0 <= k < |id| ==> NameByte(id[k])
    requires i + |id| < |s| && s[i..i + |id|] == id && s[i + |id|] == SP
    ensures Loop(s, i, st) == Loop(s, i + |id|, st.(readName := true, sd := NoElement.(id := id)))
  {
    var a := i + |id|;
    var named := st.(buf := id);
    var between := st.(readName := true, sd := NoElement.(id := id));
    calc {
      Loop(s, i, st);
    == { AbsorbSlice(s, i, a, st, id); assert st.(buf := st.buf + id) == named; }
      Loop(s, a, named);
    == { Advance(s, a, named); assert Feed(named, SP) == between; }
      Loop(s, a + 1, between);
    == { Advance(s, a, between); assert Feed(between, SP) == between; }
      Loop(s, a, between);
    }
  }

  /** A plain element laid out byte by byte after its '[' is appended to the elements. */
  lemma {:induction false} ElementBytes(s: Bytes, i: nat, st: SDState, e: SDElement)
    requires AtElement(st) && Plain(e)
    requires i + |e.id| + |EncodeParams(e.params)| < |s| && s[i..i + |e.id|] == e.id && s[i + |e.id|] == SP
    requires ParamsAt(s, i + |e.id|, e.params) && s[i + |e.id| + |EncodeParams(e.params)|] == RBRACKET
    ensures Loop(s, i, st) ==
            Loop(s, i + |e.id| + |EncodeParams(e.params)| + 1,
                 st.(sds := st.sds + [e], readName := true, insideElem := false, sdp := NoParam))
  {
    IdThenParams(s, i, st, e);
    CloseElement(s, i + |e.id| + |EncodeParams(e.params)|, st, e);
  }

  /** The SD-ID and the parameters after it make up the element. */
  lemma {:induction false} IdThenParams(s: Bytes, i: nat, st: SDState, e: SDElement)
    requires AtElement(st) && Plain(e)
    requires i + |e.id| + |EncodeParams(e.params)| < |s| && s[i..i + |e.id|] == e.id && s[i + |e.id|] == SP
    requires ParamsAt(s, i + |e.id|, e.params)
    ensures Loop(s, i, st) ==
            Loop(s, i + |e.id| + |EncodeParams(e.params)|, st.(readName := true, sd := e, sdp := NoParam))
  {
    IdBytes(s, i, st, e.id);
    ParamsOfElement(s, i + |e.id|, st, e);
  }

  /** The parameters after the SD-ID complete the element. */
  lemma {:induction false} ParamsOfElement(s: Bytes, a: nat, st: SDState, e: SDElement)
    requires AtElement(st) && Plain(e)
    requires ParamsAt(s, a, e.params) && a + |EncodeParams(e.params)| <= |s|
    ensures Loop(s, a, st.(readName := true, sd := NoElement.(id := e.id))) ==
            Loop(s, a + |EncodeParams(e.params)|, st.(readName := true, sd := e, sdp := NoParam))
  {
    ParamsRoundTrip(s, a, st.(readName := true, sd := NoElement.(id := e.id)), e.params);
    assert NoElement.(id := e.id).(params := NoElement.(id := e.id).params + e.params) == e;
  }

  /** The ']' after the parameters appends the element and leaves it. */
  lemma {:induction false} CloseElement(s: Bytes, b: nat, st: SDState, e: SDElement)
    requires AtElement(st) && b < |s| && s[b] == RBRACKET
    ensures Loop(s, b, st.(readName := true, sd := e, sdp := NoParam)) ==
            Loop(s, b + 1, st.(sds := st.sds + [e], readName := true, insideElem := false, sdp := NoParam))
  {
    Advance(s, b, st.(readName := true, sd := e, sdp := NoParam));
  }

  /** Where the parts of an encoded element lie after its '['. */
  lemma {:induction false} ElementLayout(s: Bytes, i: nat, e: SDElement)
    requires |e.params| > 0
    requires i + |EncodeElement(e)| - 1 <= |s| && s[i..i + |EncodeElement(e)| - 1] == EncodeElement(e)[1..]
    ensures i + |e.id| + |EncodeParams(e.params)| < |s| && s[i..i + |e.id|] == e.id && s[i + |e.id|] == SP
    ensures ParamsAt(s, i + |e.id|, e.params) && s[i + |e.id| + |EncodeParams(e.params)|] == RBRACKET
  {
    assert EncodeElement(e)[1..] == e.id + EncodeParams(e.params) + [RBRACKET];
    ThreeRuns(s, i, e.id, EncodeParams(e.params), RBRACKET);
    ParamsAtEncode(s, i + |e.id|, e.params);
    ParamsStartWithSpace(e.params);
    assert s[i + |e.id|] == s[i + |e.id|..i + |e.id| + |EncodeParams(e.params)|][0];
  }

  /** Encoded parameters start with the space before the first one. */
  lemma ParamsStartWithSpace(ps: seq<SDParam>)
    requires |ps| > 0
    ensures |EncodeParams(ps)| > 0 && EncodeParams(ps)[0] == SP
  {
    assert EncodeParams(ps) == EncodeParam(ps[0]) + EncodeParams(ps[1..]);
  }

  /** A run `x + y + [c]` is a run `x`, then a run `y`, then `c`. */
  lemma {:induction false} ThreeRuns(s: Bytes, i: nat, x: Bytes, y: Bytes, c: byte)
    requires i + |x| + |y| + 1 <= |s| && s[i..i + |x| + |y| + 1] == x + y + [c]
    ensures s[i..i + |x|] == x && s[i + |x|..i + |x| + |y|] == y && s[i + |x| + |y|] == c
  {
    SplitRun(s, i, x + y, [c]);
    SplitRun(s, i, x, y);
    assert s[i + |x| + |y|] == s[i + |x| + |y|..i + |x| + |y| + 1][0];
  }


  /** The bytes of a plain element after its '[' read back as that element. */
  lemma {:induction false} ElementRoundTrip(s: Bytes, i: nat, st: SDState, e: SDElement)
    requires AtElement(st) && Plain(e)
    requires var n := |EncodeElement(e)| - 1;
      i + n <= |s| && s[i..i + n] == EncodeElement(e)[1..]
    ensures Loop(s, i, st) ==
            Loop(s, i + |EncodeElement(e)| - 1,
                 st.(sds := st.sds + [e], readName := true, insideElem := false, sdp := NoParam))
  {
    ElementLayout(s, i, e);
    ElementBytes(s, i, st, e);
  }

  /** Plain elements laid out one after another from position i. */
  predicate ElementsAt(s: Bytes, i: nat, es: seq<SDElement>)
    decreases |es|
  {
    if es == [] then i <= |s|
    else
      var n := |EncodeElement(es[0])|;
      i + n <= |s| && s[i] == LBRACKET && s[i + 1..i + n] == EncodeElement(es[0])[1..] &&
      ElementsAt(s, i + n, es[1..])
  }

  /** Encoded elements are laid out one after another. */
  lemma {:induction false} ElementsAtEncode(s: Bytes, i: nat, es: seq<SDElement>)
    requires i + |Encode(es)| <= |s| && s[i..i + |Encode(es)|] == Encode(es)
    ensures ElementsAt(s, i, es)
    decreases |es|
  {
    if es != [] {
      var first, rest := EncodeElement(es[0]), Encode(es[1..]);
      var n := |first|;
      assert Encode(es) == first + rest;
      SplitRun(s, i, first, rest);
      assert s[i] == LBRACKET by {
        assert s[i] == s[i..i + n][0] == first[0];
      }
      assert s[i + 1..i + n] == first[1..] by {
        SubSlice(s, i, first, 1, n);
      }
      ElementsAtEncode(s, i + n, es[1..]);
    }
  }

  /** A plain element laid out after the previous one is appended to the elements. */
  lemma {:induction false} ElementStep(s: Bytes, i: nat, st: SDState, e: SDElement)
    requires AfterElement(st) && Plain(e)
    requires var n := |EncodeElement(e)|;
      i + n <= |s| && s[i] == LBRACKET && s[i + 1..i + n] == EncodeElement(e)[1..]
    ensures Loop(s, i, st) == Loop(s, i + |EncodeElement(e)|, st.(sds := st.sds + [e]))
  {
    var st1 := st.(insideElem := true, readName := false);
    calc {
      Loop(s, i, st);
    == { Advance(s, i, st); assert Feed(st, LBRACKET) == st1; }
      Loop(s, i + 1, st1);
    == { ElementRoundTrip(s, i + 1, st1, e);
         assert st1.(sds := st1.sds + [e], readName := true, insideElem := false, sdp := NoParam) ==
                st.(sds := st.sds + [e]); }
      Loop(s, i + |EncodeElement(e)|, st.(sds := st.sds + [e]));
    }
  }

  /**
   * Plain elements, laid out and followed by a space, read back as
   * themselves after the elements the loop already had.
   */
  lemma {:induction false} ElementsRoundTrip(s: Bytes, i: nat, st: SDState, es: seq<SDElement>)
    requires AfterElement(st) && forall e :: e in es ==> Plain(e)
    requires ElementsAt(s, i, es) && i + |Encode(es)| < |s| && s[i + |Encode(es)|] == SP
    ensures Loop(s, i, st) == SDOutcome(Some(st.sds + es), [], None, i + |Encode(es)| + 1)
    decreases |es|
  {
    if es == [] {
      assert Feed(st, SP) == st;
      assert st.sds + es == st.sds;
    } else {
      FirstElement(s, i, st, es);
      ElementsRoundTrip(s, i + |EncodeElement(es[0])|, st.(sds := st.sds + [es[0]]), es[1..]);
      AppendHeadTail(st.sds, es);
    }
  }

  /** The first of several laid-out elements is read, leaving the rest laid out and plain. */
  lemma {:induction false} FirstElement(s: Bytes, i: nat, st: SDState, es: seq<SDElement>)
    requires AfterElement(st) && forall e :: e in es ==> Plain(e)
    requires ElementsAt(s, i, es) && i + |Encode(es)| < |s| && s[i + |Encode(es)|] == SP && es != []
    ensures Loop(s, i, st) == Loop(s, i + |EncodeElement(es[0])|, st.(sds := st.sds + [es[0]]))
    ensures |Encode(es)| == |EncodeElement(es[0])| + |Encode(es[1..])|
    ensures AfterElement(st.(sds := st.sds + [es[0]])) && forall e :: e in es[1..] ==> Plain(e)
    ensures ElementsAt(s, i + |EncodeElement(es[0])|, es[1..])
  {
    ElementStep(s, i, st, es[0]);
    forall e | e in es[1..] ensures Plain(e) {
      assert e in es;
    }
  }

  /**
   * At least one plain element, encoded and followed by a space at any
   * position, reads back as exactly those elements, and reading stops
   * after the space.
   */
  lemma {:induction false} EncodeAt(s: Bytes, i: nat, es: seq<SDElement>)
    requires |es| > 0 && forall e :: e in es ==> Plain(e)
    requires i + |Encode(es)| < |s| && s[i..i + |Encode(es)|] == Encode(es) && s[i + |Encode(es)|] == SP
    ensures StructuredDataOf(s, i) == SDOutcome(Some(es), [], None, i + |Encode(es)| + 1)
  {
    ElementsAtEncode(s, i, es);
    var st0 := LoopStart().(insideElem := false, readName := true);
    assert s[i] == LBRACKET;
    Advance(s, i, st0);
    assert Feed(st0, LBRACKET) == LoopStart();
    ElementsRoundTrip(s, i, st0, es);
    assert st0.sds + es == es;
  }

  /**
   * At the start of the input: the elements, a space and anything after
   * it read back as the elements, and reading stops after the space.
   */
  lemma {:induction false} EncodeRoundTrip(es: seq<SDElement>, rest: Bytes)
    requires |es| > 0 && forall e :: e in es ==> Plain(e)
    ensures StructuredDataOf(Encode(es) + [SP] + rest, 0) ==
            SDOutcome(Some(es), [], None, |Encode(es)| + 1)
  {
    var s := Encode(es) + [SP] + rest;
    assert s[0..|Encode(es)|] == Encode(es);
    EncodeAt(s, 0, es);
  }

  // ---------------------------------------------------------------------
  // What the machine does with other inputs
  // ---------------------------------------------------------------------

  /** An element without parameters has no space, so its ID is never assigned. */
  lemma IdNeedsASpace()
    ensures var s: Bytes := [0x5B, 0x61, 0x5D, 0x20];   // "[a] "
      StructuredDataOf(s, 0) == SDOutcome(Some([SDElement([], [])]), [], None, 4)
  {
    var s: Bytes := [0x5B, 0x61, 0x5D, 0x20];
    var st1 := SDState([0x61], [], NoElement, NoParam, true, false, false);
    var st2 := SDState([], [NoElement], NoElement, NoParam, false, false, false);
    assert Feed(LoopStart(), 0x61) == st1;
    assert Loop(s, 1, LoopStart()) == Loop(s, 2, st1);
    assert Feed(st1, 0x5D) == st2;
    assert Loop(s, 2, st1) == Loop(s, 3, st2);
    assert Feed(st2, 0x20).sds == [NoElement] && Feed(st2, 0x20).buf == [];
  }

  /** A ']' inside a quoted value still closes the element. */
  lemma BracketClosesValue()
    ensures var s: Bytes := [0x5B, 0x61, 0x20, 0x6B, 0x3D, 0x22, 0x5D, 0x20];   // "[a k=\"] "
      StructuredDataOf(s, 0) == SDOutcome(Some([SDElement([0x61], [])]), [], None, 8)
  {
    var s: Bytes := [0x5B, 0x61, 0x20, 0x6B, 0x3D, 0x22, 0x5D, 0x20];
    var e := SDElement([0x61], []);
    var st1 := SDState([0x61], [], NoElement, NoParam, true, false, false);
    var st2 := SDState([], [], e, NoParam, true, false, true);
    var st3 := SDState([0x6B], [], e, NoParam, true, false, true);
    var st4 := SDState([], [], e, SDParam([0x6B], []), true, false, true);
    var st5 := SDState([], [], e, SDParam([0x6B], []), true, true, true);
    var st6 := SDState([], [e], NoElement, SDParam([0x6B], []), false, true, true);
    assert Feed(LoopStart(), 0x61) == st1;
    assert Loop(s, 1, LoopStart()) == Loop(s, 2, st1);
    assert Feed(st1, 0x20) == st2;
    assert Loop(s, 2, st1) == Loop(s, 3, st2);
    assert Feed(st2, 0x6B) == st3;
    assert Loop(s, 3, st2) == Loop(s, 4, st3);
    assert Feed(st3, 0x3D) == st4;
    assert Loop(s, 4, st3) == Loop(s, 5, st4);
    assert Feed(st4, 0x22) == st5;
    assert Loop(s, 5, st4) == Loop(s, 6, st5);
    assert Feed(st5, 0x5D) == st6;
    assert Loop(s, 6, st5) == Loop(s, 7, st6);
    assert Feed(st6, 0x20).sds == [e] && Feed(st6, 0x20).buf == [];
  }
}
