/** Bodies as a client frames them, and what the decoder makes of them. */
module ChunkedFrames {
  import opened Base
  import opened Bytes
  import opened Chunked
  import opened ChunkedMeaning

  // --------------------------------------------------------- framed in place

  /** A chunk's header line, without its line break. */
  function HeaderText(mode: Mode, n: nat, sig: seq<byte>): seq<byte> {
    HexText(n) + if mode.Unsigned? then [] else [SEMICOLON] + SIGNATURE + sig
  }

  lemma {:induction false} IndexIs(s: seq<byte>, from: nat, i: nat, b: byte)
    requires from <= i < |s| && s[i] == b && forall j | from <= j < i :: s[j] != b
    ensures IndexOf(s, from, b) == i
    decreases i - from
  {
    if from < i {
      IndexIs(s, from + 1, i, b);
    }
  }

  /** A line of no more than 4096 bytes, with its line break. */
  predicate LineAt(s: seq<byte>, pos: nat, end: nat) {
    && pos <= end && end + 2 <= |s| && end + 2 - pos <= MAX_LINE
    && (forall j | pos <= j <= end :: s[j] != LF) && s[end] == CR && s[end + 1] == LF
  }

  lemma {:induction false} LineIsRead(s: seq<byte>, pos: nat, end: nat)
    requires LineAt(s, pos, end)
    ensures ReadLine(s, pos) == Line(end, end + 2)
  {
    IndexIs(s, pos, end + 1, LF);
  }

  /** The header line is there; an unsigned chunk has no signature. */
  predicate HeaderThere(mode: Mode, s: seq<byte>, pos: nat, end: nat, n: nat, sig: seq<byte>) {
    LineAt(s, pos, end) && s[pos..end] == HeaderText(mode, n, sig) && (mode.Unsigned? ==> sig == [])
  }

  predicate ChunkThere(mode: Mode, s: seq<byte>, pos: nat, data: seq<byte>, sig: seq<byte>) {
    var end := pos + |HeaderText(mode, |data|, sig)|;
    0 < |data| <= MAX_CHUNK && HeaderThere(mode, s, pos, end, |data|, sig) && DataThere(s, end + 2, data)
  }

  /** From pos on: the chunks, then the final empty one, whose line ends at `tail`. */
  predicate FramedAt(mode: Mode, s: seq<byte>, pos: nat, c: Chunks, final: seq<byte>, tail: nat)
    decreases c
  {
    match c
    case NoChunks => tail >= 2 && HeaderThere(mode, s, pos, tail - 2, 0, final)
    case Chunk(data, sig, rest) =>
      && ChunkThere(mode, s, pos, data, sig)
      && FramedAt(mode, s, pos + |HeaderText(mode, |data|, sig)| + 2 + |data| + 2, rest, final, tail)
  }

  lemma {:induction false} SignatureThere(s: seq<byte>, i: nat, sig: seq<byte>, end: nat)
    requires i + 1 + SIGNATURE_SIZE <= end <= |s| && s[i..end] == [SEMICOLON] + SIGNATURE + sig
    ensures s[i] == SEMICOLON && s[i + 1..i + 1 + SIGNATURE_SIZE] == SIGNATURE && s[i + 1 + SIGNATURE_SIZE..end] == sig
  {
    assert |SIGNATURE| == SIGNATURE_SIZE;
    assert [SEMICOLON] + SIGNATURE + sig == [SEMICOLON] + (SIGNATURE + sig);
    SplitAt(s, i, end, [SEMICOLON], SIGNATURE + sig);
    assert s[i] == s[i..i + 1][0];
    SplitAt(s, i + 1, end, SIGNATURE, sig);
  }

  lemma {:induction false} SplitAt(s: seq<byte>, pos: nat, end: nat, a: seq<byte>, b: seq<byte>)
    requires pos <= end <= |s| && s[pos..end] == a + b
    ensures pos + |a| <= end && s[pos..pos + |a|] == a && s[pos + |a|..end] == b
  {
    assert s[pos..pos + |a|] == s[pos..end][..|a|];
    assert s[pos + |a|..end] == s[pos..end][|a|..];
  }

  /** A header line is read as the client wrote it. */
  lemma {:induction false} HeaderIsRead(mode: Mode, s: seq<byte>, pos: nat, end: nat, n: nat, sig: seq<byte>)
    requires n <= MAX_CHUNK && HeaderThere(mode, s, pos, end, n, sig)
    ensures LineOf(mode, s, pos) == Some(HeaderLine(Header(n, sig), end + 2))
  {
    LineIsRead(s, pos, end);
    var i := pos + |HexText(n)|;
    if mode.Unsigned? {
      SplitAt(s, pos, end, HexText(n), []);
      HeaderReadBack(mode, s, pos, n, None, end);
    } else {
      SplitAt(s, pos, end, HexText(n), [SEMICOLON] + SIGNATURE + sig);
      SignatureThere(s, i, sig, end);
      HeaderReadBack(mode, s, pos, n, Some(sig), end);
    }
  }

  predicate LineRight(mode: Mode, s: seq<byte>, l: Lines, pos: nat, end: nat, n: nat, sig: seq<byte>) {
    n <= MAX_CHUNK && HeaderThere(mode, s, pos, end, n, sig) ==> l(pos) == Some(HeaderLine(Header(n, sig), end + 2))
  }

  lemma LinesRight(mode: Mode, s: seq<byte>)
    ensures forall pos: nat, end: nat, n: nat, sig: seq<byte> :: LineRight(mode, s, LinesOf(mode, s), pos, end, n, sig)
  {
    forall pos: nat, end: nat, n: nat, sig: seq<byte>
      ensures LineRight(mode, s, LinesOf(mode, s), pos, end, n, sig)
    {
      if n <= MAX_CHUNK && HeaderThere(mode, s, pos, end, n, sig) {
        HeaderIsRead(mode, s, pos, end, n, sig);
      }
    }
  }

  lemma {:induction false} ChunkBefore(l: Lines, s: seq<byte>, pos: nat, next: nat, c: Chunks, final: seq<byte>, tail: nat)
    requires c.Chunk? && |c.data| > 0 && l(pos) == Some(HeaderLine(Header(|c.data|, c.sig), next))
    requires DataThere(s, next, c.data) && Framing(l, s, next + |c.data| + 2, c.rest, final, tail)
    ensures Framing(l, s, pos, c, final, tail)
  {
  }

  lemma {:induction false} ChunkRight(mode: Mode, s: seq<byte>, l: Lines, pos: nat, data: seq<byte>, sig: seq<byte>)
    requires forall pos: nat, end: nat, n: nat, sig: seq<byte> :: LineRight(mode, s, l, pos, end, n, sig)
    requires ChunkThere(mode, s, pos, data, sig)
    ensures var next := pos + |HeaderText(mode, |data|, sig)| + 2;
            |data| > 0 && l(pos) == Some(HeaderLine(Header(|data|, sig), next)) && DataThere(s, next, data)
  {
    assert LineRight(mode, s, l, pos, pos + |HeaderText(mode, |data|, sig)|, |data|, sig);
  }

  /** A client's framing is one the decoder sees. */
  lemma {:induction false} FramedIsFraming(mode: Mode, s: seq<byte>, l: Lines, pos: nat, c: Chunks, final: seq<byte>, tail: nat)
    requires forall pos: nat, end: nat, n: nat, sig: seq<byte> :: LineRight(mode, s, l, pos, end, n, sig)
    requires FramedAt(mode, s, pos, c, final, tail)
    ensures Framing(l, s, pos, c, final, tail)
    decreases c
  {
    match c
    case NoChunks => assert LineRight(mode, s, l, pos, tail - 2, 0, final);
    case Chunk(data, sig, rest) =>
      var next := pos + |HeaderText(mode, |data|, sig)| + 2;
      ChunkRight(mode, s, l, pos, data, sig);
      FramedIsFraming(mode, s, l, next + |data| + 2, rest, final, tail);
      ChunkBefore(l, s, pos, next, c, final, tail);
  }

  // ------------------------------------------------------- a client's framing

  const CRLF: seq<byte> := [CR, LF]

  /** The bytes of the chunks, the final empty one, and what follows it. */
  function Framed(mode: Mode, c: Chunks, final: seq<byte>, tail: seq<byte>): seq<byte> {
    match c
    case NoChunks => HeaderText(mode, 0, final) + (CRLF + tail)
    case Chunk(data, sig, rest) =>
      HeaderText(mode, |data|, sig) + (CRLF + (data + (CRLF + Framed(mode, rest, final, tail))))
  }

  /** A signature that fits a line: no newline in it. */
  predicate OnLine(mode: Mode, n: nat, sig: seq<byte>) {
    && |HeaderText(mode, n, sig)| + 2 <= MAX_LINE && (mode.Unsigned? ==> sig == [])
    && forall i | 0 <= i < |sig| :: sig[i] != LF
  }

  predicate Framable(mode: Mode, c: Chunks) {
    c.Chunk? ==> 0 < |c.data| <= MAX_CHUNK && OnLine(mode, |c.data|, c.sig) && Framable(mode, c.rest)
  }

  lemma {:induction false} HeaderWritten(mode: Mode, pre: seq<byte>, n: nat, sig: seq<byte>, rest: seq<byte>)
    requires OnLine(mode, n, sig)
    ensures HeaderThere(mode, pre + (HeaderText(mode, n, sig) + (CRLF + rest)), |pre|, |pre| + |HeaderText(mode, n, sig)|, n, sig)
  {
    var text := HeaderText(mode, n, sig);
    var s := pre + (text + (CRLF + rest));
    assert s[|pre|..|pre| + |text|] == text;
    forall j | |pre| <= j < |pre| + |text|
      ensures s[j] != LF
    {
      assert s[j] == text[j - |pre|];
    }
  }

  lemma {:induction false} DataWritten(pre: seq<byte>, data: seq<byte>, rest: seq<byte>)
    ensures DataThere(pre + (data + (CRLF + rest)), |pre|, data)
  {
    var s := pre + (data + (CRLF + rest));
    assert s[|pre|..|pre| + |data|] == data;
  }

  /** One chunk, and where the next begins. */
  lemma {:induction false} FrameWritten(mode: Mode, pre: seq<byte>, data: seq<byte>, sig: seq<byte>, more: seq<byte>, s: seq<byte>)
    returns (next: seq<byte>)
    requires 0 < |data| <= MAX_CHUNK && OnLine(mode, |data|, sig)
    requires s == pre + (HeaderText(mode, |data|, sig) + (CRLF + (data + (CRLF + more))))
    ensures s == next + more && |next| == |pre| + |HeaderText(mode, |data|, sig)| + 2 + |data| + 2
    ensures ChunkThere(mode, s, |pre|, data, sig)
  {
    var text := HeaderText(mode, |data|, sig);
    HeaderWritten(mode, pre, |data|, sig, data + (CRLF + more));
    Assoc(pre, text, CRLF + (data + (CRLF + more)));
    Assoc(pre + text, CRLF, data + (CRLF + more));
    DataWritten(pre + text + CRLF, data, more);
    next := pre + text + CRLF + data + CRLF;
    Assoc(pre + text + CRLF, data, CRLF + more);
    Assoc(pre + text + CRLF + data, CRLF, more);
  }

  /** What a client writes is a framed body. */
  lemma {:induction false} FramedWritten(mode: Mode, pre: seq<byte>, c: Chunks, final: seq<byte>, tail: seq<byte>,
                                         s: seq<byte>, at: nat)
    requires Framable(mode, c) && OnLine(mode, 0, final) && s == pre + Framed(mode, c, final, tail)
    requires |s| == at + |tail|
    ensures FramedAt(mode, s, |pre|, c, final, at)
    decreases c
  {
    match c
    case NoChunks =>
      HeaderWritten(mode, pre, 0, final, tail);
    case Chunk(data, sig, rest) =>
      var next := FrameWritten(mode, pre, data, sig, Framed(mode, rest, final, tail), s);
      FramedWritten(mode, next, rest, final, tail, s, at);
  }

  /** The round trip: what a client frames decodes to its payload if and only if it signed it
      along the chain from the seed and the end is good. */
  lemma {:induction false} FramedDecodes(env: Env, c: Chunks, final: seq<byte>, tail: seq<byte>, seed: seq<byte>,
                                         s: seq<byte>, at: nat)
    requires Framable(env.mode, c) && OnLine(env.mode, 0, final)
    requires s == Framed(env.mode, c, final, tail) && |s| == at + |tail|
    ensures Decode(env, s, 0, seed, []) == if IsBody(env, s, seed, c, final, at) then Good(Concat(c)) else Bad
  {
    assert [] + s == s;
    FramedWritten(env.mode, [], c, final, tail, s, at);
    LinesRight(env.mode, s);
    FramedIsFraming(env.mode, s, LinesOf(env.mode, s), 0, c, final, at);
    FramingDecodes(env, s, c, final, at, seed);
  }

  // ------------------------------------------------------------- the trailer

  /** A trailer line as a client writes it is read as its name and value; the line with the
      trailer's signature as that; a later line of a name replaces an earlier one. */
  lemma {:induction false} TrailerLineIsRead(env: Env, s: seq<byte>, pos: nat, colon: nat, end: nat, left: nat, t: Trailer)
    requires LineAt(s, pos, end) && pos <= colon < end && s[colon] == COLON && forall j | pos <= j < colon :: s[j] != COLON
    requires left > 0
    ensures var name, value := env.fold(s[pos..colon]), env.trim(s[colon + 1..end]);
            ReadTrailer(env, s, pos, left, t) ==
            ReadTrailer(env, s, end + 2, left - 1,
                        if name == env.signatureName then Trailer(t.fields, t.canonical, value)
                        else Trailer(t.fields[name := value], Field(t.canonical, name, value), t.sig))
  {
    LineIsRead(s, pos, end);
    IndexIs(s, pos, colon, COLON);
  }

  /** What a trailer's signature covers: each line in its order, as name, colon, value and
      newline. */
  lemma RenderedMeans(c: Canonical, name: seq<byte>, value: seq<byte>)
    ensures Rendered(Empty) == [] && Rendered(Field(c, name, value)) == Rendered(c) + (name + ([58] + (value + [10])))
  {
  }

  /** A size with a sign: a plus is ignored, a minus allowed of zero alone. */
  lemma {:induction false} SignIsRead(s: seq<byte>, pos: nat, end: nat, n: nat)
    requires pos < |s| && end == pos + 1 + |HexText(n)| <= |s| && s[pos + 1..end] == HexText(n)
    ensures s[pos] == 43 ==> ParseSize(s, pos, end) == if n > 0x4000_0000 then None else Some(n)
    ensures s[pos] == 45 ==> ParseSize(s, pos, end) == if n > 0 then None else Some(0)
  {
    HexValueOfText(s, pos + 1, n);
    assert HexValue(s, pos + 1, end) == Some(n);
  }

  /** Digits there must be. */
  lemma {:induction false} NoSizeIsRefused(s: seq<byte>, pos: nat)
    requires pos < |s|
    ensures ParseSize(s, pos, pos) == None && (s[pos] == 43 || s[pos] == 45 ==> ParseSize(s, pos, pos + 1) == None)
  {
  }

  /** An empty line ends it, and so does the end of the body; a line without a colon spoils
      it. */
  lemma {:induction false} TrailerEnds(env: Env, s: seq<byte>, pos: nat, end: nat, left: nat, t: Trailer)
    requires left > 0
    ensures LineAt(s, pos, pos) ==> ReadTrailer(env, s, pos, left, t) == Some(t)
    ensures pos == |s| ==> ReadTrailer(env, s, pos, left, t) == Some(t)
    ensures LineAt(s, pos, end) && pos < end && (forall j | pos <= j < end :: s[j] != COLON) ==>
              ReadTrailer(env, s, pos, left, t) == None
  {
    if LineAt(s, pos, pos) {
      LineIsRead(s, pos, pos);
    }
    if LineAt(s, pos, end) && pos < end && (forall j | pos <= j < end :: s[j] != COLON) {
      LineIsRead(s, pos, end);
      assert IndexOf(s, pos, COLON) >= end;
    }
  }

  /** A line longer than the limit is refused, as a header and in the trailer. */
  lemma {:induction false} LongLineIsRefused(env: Env, s: seq<byte>, pos: nat, seed: seq<byte>, payload: seq<byte>, left: nat, t: Trailer)
    requires pos + MAX_LINE < |s| && (forall j | pos <= j < pos + MAX_LINE :: s[j] != LF) && left > 0
    ensures Decode(env, s, pos, seed, payload) == Bad && ReadTrailer(env, s, pos, left, t) == None
  {
    assert IndexOf(s, pos, LF) >= pos + MAX_LINE;
  }
}
