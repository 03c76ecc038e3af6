/**
What a body that decodes is, read off its bytes: where its header lines, its data and its
trailer stand, that its signatures chain, and that its end settles.
*/
module ChunkedMeaning {
  import opened Base
  import opened Bytes
  import opened Chunked

  /** The chunks of a body, in order. */
  datatype Chunks = NoChunks | Chunk(data: seq<byte>, sig: seq<byte>, rest: Chunks)

  function Concat(c: Chunks): seq<byte> {
    match c
    case NoChunks => []
    case Chunk(data, _, rest) => data + Concat(rest)
  }

  /** Every signature covers its chunk and the signature before it, from the seed on. */
  predicate SignatureChain(env: Env, seed: seq<byte>, c: Chunks)
    decreases c
  {
    c.Chunk? ==> SigOk(env, seed, c.sig, c.data) && SignatureChain(env, NextSig(env, seed, c.sig), c.rest)
  }

  function LastSig(env: Env, seed: seq<byte>, c: Chunks): seq<byte>
    decreases c
  {
    match c
    case NoChunks => seed
    case Chunk(_, sig, rest) => LastSig(env, NextSig(env, seed, sig), rest)
  }

  // ----------------------------------------------------- where things stand

  /** A header line that parses, and where the next byte is. */
  datatype HeaderLine = HeaderLine(header: Header, next: nat)

  /** The header line at each place of a body, if there is one. */
  type Lines = nat -> Option<HeaderLine>

  function LineOf(mode: Mode, s: seq<byte>, pos: nat): Option<HeaderLine> {
    if pos > |s| || !ReadLine(s, pos).Line? then None else
    var h := ParseHeader(mode, s, pos, ReadLine(s, pos).end);
    if h.None? then None else Some(HeaderLine(h.value, ReadLine(s, pos).next))
  }

  function LinesOf(mode: Mode, s: seq<byte>): Lines { (pos: nat) => LineOf(mode, s, pos) }

  /** n bytes of data, and the line break after them. */
  predicate DataAt(s: seq<byte>, from: nat, n: nat) {
    from + n + 2 <= |s| && s[from + n] == CR && s[from + n + 1] == LF
  }

  predicate DataThere(s: seq<byte>, from: nat, data: seq<byte>) {
    DataAt(s, from, |data|) && s[from..from + |data|] == data
  }

  /** From pos on the bytes are these chunks, then the final empty one; `tail` is where the
      trailer begins. */
  predicate Framing(l: Lines, s: seq<byte>, pos: nat, c: Chunks, final: seq<byte>, tail: nat)
    decreases c
  {
    match c
    case NoChunks => l(pos) == Some(HeaderLine(Header(0, final), tail))
    case Chunk(data, sig, rest) =>
      && |data| > 0 && l(pos).Some? && l(pos).value.header == Header(|data|, sig)
      && DataThere(s, l(pos).value.next, data)
      && Framing(l, s, l(pos).value.next + |data| + 2, rest, final, tail)
  }

  /** The final signature, the trailer the bytes hold, its signature, and everything that
      must hold at the end. */
  predicate EndsWell(env: Env, s: seq<byte>, tail: nat, last: seq<byte>, final: seq<byte>, payload: seq<byte>) {
    && tail <= |s|
    && var t := ReadTrailer(env, s, tail, MAX_TRAILER_LINES, NO_TRAILER);
    && SigOk(env, last, final, []) && t.Some?
    && (env.mode.SignedTrailer? ==>
          env.trailerSig(NextSig(env, last, final), Rendered(t.value.canonical)) == t.value.sig)
    && Settles(env, payload, t.value.fields)
  }

  /** The bytes are these chunks, signed along the chain from the seed, and end well. */
  predicate IsBody(env: Env, s: seq<byte>, seed: seq<byte>, c: Chunks, final: seq<byte>, tail: nat) {
    && Framing(LinesOf(env.mode, s), s, 0, c, final, tail)
    && SignatureChain(env, seed, c) && EndsWell(env, s, tail, LastSig(env, seed, c), final, Concat(c))
  }

  // ------------------------------------------------ the decoder as equations

  /** How one body ends: from a chunk boundary, from the first byte of a chunk, and after
      its final chunk. */
  datatype Endings = Endings(from: (nat, seq<byte>, seq<byte>) -> End,
                             inside: (nat, seq<byte>, seq<byte>, nat, seq<byte>) -> End,
                             finish: (nat, seq<byte>, seq<byte>, seq<byte>) -> bool)

  function EndingsOf(env: Env, s: seq<byte>): Endings {
    Endings((pos: nat, seed: seq<byte>, payload: seq<byte>) =>
              if pos <= |s| then Decode(env, s, pos, seed, payload) else Bad,
            (pos: nat, seed: seq<byte>, sig: seq<byte>, size: nat, payload: seq<byte>) =>
              if pos <= |s| then Data(env, s, pos, seed, sig, size, payload, []) else Bad,
            (pos: nat, seed: seq<byte>, sig: seq<byte>, payload: seq<byte>) =>
              EndsWell(env, s, pos, seed, sig, payload))
  }

  /** A header line opens a chunk or, at size zero, ends the body; anything else is bad. */
  predicate FromLine(l: Lines, d: Endings, pos: nat, seed: seq<byte>, payload: seq<byte>) {
    d.from(pos, seed, payload) ==
    match l(pos)
    case None => Bad
    case Some(HeaderLine(h, next)) =>
      if h.size > 0 then d.inside(next, seed, h.sig, h.size, payload)
      else if d.finish(next, seed, h.sig, payload) then Good(payload) else Bad
  }

  /** A chunk's signature decides: with it the decoder goes on past the chunk, without it
      the body is bad. */
  predicate FromData(env: Env, s: seq<byte>, d: Endings, from: nat, n: nat, seed: seq<byte>, sig: seq<byte>, payload: seq<byte>) {
    d.inside(from, seed, sig, n, payload) ==
    if DataAt(s, from, n) && SigOk(env, seed, sig, s[from..from + n])
    then d.from(from + n + 2, NextSig(env, seed, sig), payload + s[from..from + n]) else Bad
  }

  predicate Onward(s: seq<byte>, l: Lines, pos: nat) { l(pos).Some? ==> pos < l(pos).value.next <= |s| }

  lemma {:induction false} FinishMeans(env: Env, s: seq<byte>, pos: nat, prev: seq<byte>, sig: seq<byte>, payload: seq<byte>)
    requires pos <= |s|
    ensures Finish(env, s, pos, prev, sig, payload).Some? <==> EndsWell(env, s, pos, prev, sig, payload)
  {
  }

  lemma {:induction false} DecoderLine(env: Env, s: seq<byte>, pos: nat, seed: seq<byte>, payload: seq<byte>)
    ensures FromLine(LinesOf(env.mode, s), EndingsOf(env, s), pos, seed, payload)
  {
    var line := LineOf(env.mode, s, pos);
    if line.Some? && line.value.header.size == 0 {
      FinishMeans(env, s, line.value.next, seed, line.value.header.sig, payload);
    }
  }

  lemma {:induction false} DecoderData(env: Env, s: seq<byte>, from: nat, n: nat, seed: seq<byte>, sig: seq<byte>, payload: seq<byte>)
    ensures FromData(env, s, EndingsOf(env, s), from, n, seed, sig, payload)
  {
    if from + n <= |s| {
      var data := s[from..from + n];
      assert [] + data == data;
      assert Data(env, s, from, seed, sig, n, payload, []) == Close(env, s, from + n, seed, sig, payload + data, data);
    }
  }

  ghost predicate Decoder(env: Env, s: seq<byte>, l: Lines, d: Endings) {
    && (forall pos: nat, seed: seq<byte>, payload: seq<byte> :: FromLine(l, d, pos, seed, payload))
    && (forall from: nat, n: nat, seed: seq<byte>, sig: seq<byte>, payload: seq<byte> ::
          FromData(env, s, d, from, n, seed, sig, payload))
    && (forall pos: nat :: Onward(s, l, pos))
  }

  lemma IsDecoder(env: Env, s: seq<byte>)
    ensures Decoder(env, s, LinesOf(env.mode, s), EndingsOf(env, s))
  {
    forall pos: nat, seed: seq<byte>, payload: seq<byte>
      ensures FromLine(LinesOf(env.mode, s), EndingsOf(env, s), pos, seed, payload)
    {
      DecoderLine(env, s, pos, seed, payload);
    }
    forall from: nat, n: nat, seed: seq<byte>, sig: seq<byte>, payload: seq<byte>
      ensures FromData(env, s, EndingsOf(env, s), from, n, seed, sig, payload)
    {
      DecoderData(env, s, from, n, seed, sig, payload);
    }
    assert forall pos: nat :: Onward(s, LinesOf(env.mode, s), pos);
  }

  // --------------------------------------------------------- both directions

  /** Bytes that end well from a chunk boundary have a framing there, chained signatures and
      a good end. */
  lemma {:induction false} GoodFramed(env: Env, s: seq<byte>, l: Lines, d: Endings, pos: nat, seed: seq<byte>,
                                      payload: seq<byte>, all: seq<byte>)
    returns (c: Chunks, final: seq<byte>, tail: nat)
    requires Decoder(env, s, l, d) && pos <= |s| && d.from(pos, seed, payload) == Good(all)
    ensures all == payload + Concat(c) && Framing(l, s, pos, c, final, tail)
    ensures SignatureChain(env, seed, c) && d.finish(tail, LastSig(env, seed, c), final, all)
    decreases |s| - pos
  {
    assert FromLine(l, d, pos, seed, payload) && Onward(s, l, pos);
    var HeaderLine(h, next) := l(pos).value;
    if h.size == 0 {
      c, final, tail := NoChunks, h.sig, next;
      assert payload + [] == payload;
    } else {
      assert FromData(env, s, d, next, h.size, seed, h.sig, payload);
      var data := s[next..next + h.size];
      var rest;
      rest, final, tail := GoodFramed(env, s, l, d, next + h.size + 2, NextSig(env, seed, h.sig), payload + data, all);
      c := Chunk(data, h.sig, rest);
      Assoc(payload, data, Concat(rest));
    }
  }

  /** From a chunk boundary on, framed bytes end well if and only if their signatures chain
      and their end is good. */
  lemma {:induction false} FramingEnds(env: Env, s: seq<byte>, l: Lines, d: Endings, pos: nat, c: Chunks,
                                       final: seq<byte>, tail: nat, seed: seq<byte>, payload: seq<byte>)
    requires Decoder(env, s, l, d) && Framing(l, s, pos, c, final, tail)
    ensures d.from(pos, seed, payload) ==
            if SignatureChain(env, seed, c) && d.finish(tail, LastSig(env, seed, c), final, payload + Concat(c))
            then Good(payload + Concat(c)) else Bad
    decreases c
  {
    assert FromLine(l, d, pos, seed, payload);
    match c
    case NoChunks =>
      assert payload + [] == payload;
    case Chunk(data, sig, rest) =>
      var next := l(pos).value.next;
      assert FromData(env, s, d, next, |data|, seed, sig, payload);
      if SigOk(env, seed, sig, data) {
        Assoc(payload, data, Concat(rest));
        FramingEnds(env, s, l, d, next + |data| + 2, rest, final, tail, NextSig(env, seed, sig), payload + data);
      }
  }

  /** A body that decodes is what its bytes say: chunks in order, signed along the chain,
      and a good end. */
  lemma {:induction false} GoodMeans(env: Env, s: seq<byte>, seed: seq<byte>, all: seq<byte>)
    returns (c: Chunks, final: seq<byte>, tail: nat)
    requires Decode(env, s, 0, seed, []) == Good(all)
    ensures all == Concat(c) && IsBody(env, s, seed, c, final, tail)
  {
    IsDecoder(env, s);
    c, final, tail := GoodFramed(env, s, LinesOf(env.mode, s), EndingsOf(env, s), 0, seed, [], all);
    assert [] + Concat(c) == Concat(c);
  }

  /** Bytes with a framing decode to its payload if and only if the signatures chain from
      the seed and the end is good; otherwise they are bad. */
  lemma {:induction false} FramingDecodes(env: Env, s: seq<byte>, c: Chunks, final: seq<byte>, tail: nat, seed: seq<byte>)
    requires Framing(LinesOf(env.mode, s), s, 0, c, final, tail)
    ensures Decode(env, s, 0, seed, []) == if IsBody(env, s, seed, c, final, tail) then Good(Concat(c)) else Bad
  {
    IsDecoder(env, s);
    FramingEnds(env, s, LinesOf(env.mode, s), EndingsOf(env, s), 0, c, final, tail, seed, []);
    assert [] + Concat(c) == Concat(c);
  }

  /** A good end keeps what came before it. */
  lemma {:induction false} GoodExtends(env: Env, s: seq<byte>, pos: nat, seed: seq<byte>, payload: seq<byte>, all: seq<byte>)
    requires pos <= |s| && Decode(env, s, pos, seed, payload) == Good(all)
    ensures payload <= all
  {
    IsDecoder(env, s);
    var c, final, tail := GoodFramed(env, s, LinesOf(env.mode, s), EndingsOf(env, s), pos, seed, payload, all);
  }

  lemma {:induction false} GoodDataExtends(env: Env, s: seq<byte>, pos: nat, prev: seq<byte>, sig: seq<byte>, n: nat,
                                           payload: seq<byte>, chunk: seq<byte>, all: seq<byte>)
    requires pos <= |s| && Data(env, s, pos, prev, sig, n, payload, chunk) == Good(all)
    ensures payload <= all
  {
    var data := s[pos..pos + n];
    assert Close(env, s, pos + n, prev, sig, payload + data, chunk + data) == Good(all);
    GoodExtends(env, s, pos + n + 2, NextSig(env, prev, sig), payload + data, all);
  }

  ghost predicate SomeBody(env: Env, s: seq<byte>, seed: seq<byte>, all: seq<byte>) {
    exists c, final, tail :: IsBody(env, s, seed, c, final, tail) && all == Concat(c)
  }

  /** On every input: it decodes to a payload if and only if its bytes are chunks with that
      payload, signed along the chain, with a trailer under which everything settles. */
  lemma {:induction false} DecodesExactly(env: Env, s: seq<byte>, seed: seq<byte>, all: seq<byte>)
    ensures Decode(env, s, 0, seed, []) == Good(all) <==> SomeBody(env, s, seed, all)
  {
    if Decode(env, s, 0, seed, []) == Good(all) {
      var c, final, tail := GoodMeans(env, s, seed, all);
    } else if SomeBody(env, s, seed, all) {
      var c, final, tail :| IsBody(env, s, seed, c, final, tail) && all == Concat(c);
      FramingDecodes(env, s, c, final, tail, seed);
    }
  }
}
