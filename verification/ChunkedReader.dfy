/** The streaming decoder, and the body reader in front of it. */
module ChunkedReader {
  import opened Base
  import opened Bytes
  import opened Chunked
  import opened ChunkedMeaning

  // -------------------------------------------------------- what it amounts to

  /** Reading k of a chunk's bytes first makes no difference to how the body ends. */
  lemma {:induction false} DataInPieces(env: Env, s: seq<byte>, pos: nat, prev: seq<byte>, sig: seq<byte>,
                                        remaining: nat, payload: seq<byte>, chunk: seq<byte>, piece: seq<byte>)
    requires pos + |piece| <= |s| && |piece| <= remaining && piece == s[pos..pos + |piece|]
    ensures Data(env, s, pos, prev, sig, remaining, payload, chunk) ==
            Data(env, s, pos + |piece|, prev, sig, remaining - |piece|, payload + piece, chunk + piece)
  {
    var end := pos + remaining;
    if end <= |s| {
      assert s[pos..end] == piece + s[pos + |piece|..end];
      Assoc(chunk, piece, s[pos + |piece|..end]);
      Assoc(payload, piece, s[pos + |piece|..end]);
    }
  }

  lemma {:induction false} DataRead(env: Env, s: seq<byte>, pos: nat, prev: seq<byte>, sig: seq<byte>,
                                    payload: seq<byte>, chunk: seq<byte>)
    requires pos <= |s|
    ensures Data(env, s, pos, prev, sig, 0, payload, chunk) == Close(env, s, pos, prev, sig, payload, chunk)
  {
    assert s[pos..pos] == [] && chunk + [] == chunk && payload + [] == payload;
  }

  // ------------------------------------------------------------ end of body

  /** find: the first running checksum of a name. */
  method Find(checksums: seq<Expect>, name: seq<byte>) returns (r: Option<nat>)
    ensures r.Some? ==> FirstOf(checksums, r.value, name)
    ensures r.None? ==> forall i | 0 <= i < |checksums| :: checksums[i].name != name
  {
    for i := 0 to |checksums|
      invariant forall j | 0 <= j < i :: checksums[j].name != name
    {
      if checksums[i].name == name {
        return Some(i);
      }
    }
    return None;
  }

  /** The values that arrived in the trailer, in whatever order they come. */
  method SettleTrailer(env: Env, payload: seq<byte>, fields: map<seq<byte>, seq<byte>>)
    returns (ok: bool, settled: set<nat>)
    ensures ok <==> forall name | name in fields :: ArrivedRight(env, payload, name, fields[name])
    ensures ok ==> forall i | 0 <= i < |env.checksums| ::
                     i in settled <==> Arrives(env, fields, env.checksums[i].name) && FirstOf(env.checksums, i, env.checksums[i].name)
  {
    settled := {};
    var left := fields.Keys;
    while left != {}
      invariant left <= fields.Keys
      invariant forall name | name in fields && name !in left :: ArrivedRight(env, payload, name, fields[name])
      invariant forall i | 0 <= i < |env.checksums| :: i in settled <==>
                  && env.checksums[i].name !in left && Arrives(env, fields, env.checksums[i].name)
                  && FirstOf(env.checksums, i, env.checksums[i].name)
    {
      var name :| name in left;
      left := left - {name};
      match env.arrived(name, fields[name]) {
        case NoChecksum =>
        case BadChecksum =>
          assert !ArrivedRight(env, payload, name, fields[name]);
          return false, {};
        case Sum(v) =>
          var running := Find(env.checksums, name);
          if running.None? || env.sum(name, payload) != v {
            assert !ArrivedRight(env, payload, name, fields[name]);
            return false, {};
          }
          assert env.checksums[running.value] in env.checksums;
          settled := settled + {running.value};
      }
    }
    return true, settled;
  }

  /** settle */
  method Settle(env: Env, payload: seq<byte>, fields: map<seq<byte>, seq<byte>>) returns (ok: bool)
    ensures ok <==> Settles(env, payload, fields)
  {
    if |payload| != env.declared {
      return false;
    }
    var right, settled := SettleTrailer(env, payload, fields);
    if !right {
      return false;
    }
    for i := 0 to |env.checksums|
      invariant forall j | 0 <= j < i :: Settled(env, payload, fields, j)
    {
      var e := env.checksums[i];
      if i !in settled {
        if e.declared.None? || e.declared.value != env.sum(e.name, payload) {
          assert !Settled(env, payload, fields, i);
          return false;
        }
      }
      assert Settled(env, payload, fields, i);
    }
    return true;
  }

  /** readTrailer's loop over the lines. */
  method TrailerFrom(env: Env, s: seq<byte>, start: nat, lines: nat, empty: Trailer) returns (r: Option<Trailer>)
    requires start <= |s|
    ensures r == ReadTrailer(env, s, start, lines, empty)
  {
    ghost var whole := ReadTrailer(env, s, start, lines, empty);
    var t, pos: nat, left: nat := empty, start, lines;
    while left > 0
      invariant 0 <= left && pos <= |s|
      invariant whole == ReadTrailer(env, s, pos, left, t)
    {
      var line := ReadLine(s, pos);
      match line {
        case AtEnd =>
          return Some(t);
        case TooLong =>
          return None;
        case Line(end, next) =>
          if pos == end {
            return Some(t);
          }
          var more := TrailerLine(env, t, s, pos, end);
          if more.None? {
            return None;
          }
          t, pos := more.value, next;
      }
      left := left - 1;
    }
    return Some(t);
  }

  /** The final chunk: its signature, the trailer, the trailer's signature, everything else. */
  method FinishBody(env: Env, s: seq<byte>, pos: nat, prev: seq<byte>, sig: seq<byte>, payload: seq<byte>) returns (ok: bool)
    requires pos <= |s|
    ensures ok <==> Finish(env, s, pos, prev, sig, payload).Some?
  {
    if !SigOk(env, prev, sig, []) {
      return false;
    }
    var t := TrailerFrom(env, s, pos, MAX_TRAILER_LINES, NO_TRAILER);
    if t.None? {
      return false;
    }
    if env.mode.SignedTrailer? && env.trailerSig(NextSig(env, prev, sig), Rendered(t.value.canonical)) != t.value.sig {
      return false;
    }
    ok := Settle(env, payload, t.value.fields);
  }

  // -------------------------------------------------------------- the reader

  datatype Status = More | Eof | Failed

  /** Where a reader is: between chunks, inside one, at the end, or failed. */
  function Ends(env: Env, s: seq<byte>, pos: nat, prev: seq<byte>, sig: seq<byte>, remaining: nat,
                payload: seq<byte>, chunk: seq<byte>): End
    requires pos <= |s|
  {
    if remaining > 0 then Data(env, s, pos, prev, sig, remaining, payload, chunk)
    else Decode(env, s, pos, prev, payload)
  }

  class Reader {
    const env: Env
    const input: seq<byte>
    const seed: seq<byte>
    // How the whole body ends.
    ghost const whole: End
    var pos: nat
    var prev: seq<byte>
    var remaining: nat
    var sig: seq<byte>
    // The chunk's bytes so far, for its hash, and the body's, for its checksums.
    var chunk: seq<byte>
    var decoded: seq<byte>
    var done: bool
    var failed: bool

    /** Whatever has been read so far, the rest ends as the whole does. */
    ghost predicate Valid()
      reads this
    {
      && pos <= |input| && (remaining > 0 ==> !done && !failed)
      && whole == if failed then Bad else if done then Good(decoded)
                    else Ends(env, input, pos, prev, sig, remaining, decoded, chunk)
    }

    constructor (env: Env, input: seq<byte>, seed: seq<byte>)
      ensures Valid() && decoded == [] && !done && !failed
      ensures this.env == env && this.input == input && this.seed == seed && whole == Decode(env, input, 0, seed, [])
    {
      this.env, this.input, this.seed, whole := env, input, seed, Decode(env, input, 0, seed, []);
      pos, prev, remaining, sig, chunk, decoded, done, failed := 0, seed, 0, [], [], [], false, false;
    }

    /** nextChunk: the header line; the final chunk settles the body. */
    method NextChunk()
      requires Valid() && !done && !failed && remaining == 0
      modifies this
      ensures Valid() && decoded == old(decoded) && (remaining > 0 || done || failed)
      ensures pos >= old(pos) && (remaining > 0 ==> pos > old(pos))
    {
      var line := ReadLine(input, pos);
      if !line.Line? {
        failed := true;
        return;
      }
      var h := ParseHeader(env.mode, input, pos, line.end);
      if h.None? {
        failed := true;
        return;
      }
      if h.value.size == 0 {
        var ok := FinishBody(env, input, line.next, prev, h.value.sig, decoded);
        done, failed := ok, !ok;
        return;
      }
      pos, sig, remaining, chunk := line.next, h.value.sig, h.value.size, [];
    }

    /** finishChunk: the CRLF after the data, and the signature. */
    method FinishChunk()
      requires pos <= |input| && remaining == 0 && !done && !failed
      requires whole == Close(env, input, pos, prev, sig, decoded, chunk)
      modifies this
      ensures Valid() && decoded == old(decoded) && !done && pos >= old(pos)
    {
      if |input| - pos < 2 || input[pos] != CR || input[pos + 1] != LF || !SigOk(env, prev, sig, chunk) {
        failed := true;
        return;
      }
      pos, prev := pos + 2, NextSig(env, prev, sig);
    }

    /** Up to n of the chunk's bytes; with the last of them, the end of the chunk. */
    method ReadChunk(n: nat) returns (data: seq<byte>)
      requires Valid() && remaining > 0
      modifies this
      ensures Valid() && decoded == old(decoded) + data && |data| <= n && !done
      ensures pos >= old(pos) && (n > 0 && !failed ==> |data| > 0 && pos > old(pos))
    {
      var k := if n > remaining then remaining else n;
      if |input| - pos < k {
        Truncated();
        return [];
      }
      data := input[pos..pos + k];
      Advance(data);
      if remaining == 0 {
        DataRead(env, input, pos, prev, sig, decoded, chunk);
        FinishChunk();
      }
    }

    method Truncated()
      requires Valid() && remaining > |input| - pos
      modifies this`failed, this`remaining
      ensures Valid() && failed
    {
      failed, remaining := true, 0;
    }

    /** Some bytes on, the body still ends as it would have. */
    method Advance(data: seq<byte>)
      requires pos + |data| <= |input| && |data| <= remaining && data == input[pos..pos + |data|]
      requires whole == Data(env, input, pos, prev, sig, remaining, decoded, chunk)
      modifies this`chunk, this`decoded, this`remaining, this`pos
      ensures decoded == old(decoded) + data && remaining == old(remaining) - |data| && pos == old(pos) + |data|
      ensures whole == Data(env, input, pos, prev, sig, remaining, decoded, chunk)
    {
      DataInPieces(env, input, pos, prev, sig, remaining, decoded, chunk, data);
      chunk := chunk + data;
      decoded := decoded + data;
      remaining := remaining - |data|;
      pos := pos + |data|;
    }

    /** Read: at most n bytes of the chunk at hand, in order; the end of the body is
        reported only when the whole of it is good, a failure for good. */
    method Read(n: nat) returns (data: seq<byte>, status: Status)
      requires Valid()
      modifies this
      ensures Valid() && decoded == old(decoded) + data && |data| <= n
      ensures status == if failed then Failed else if done then Eof else More
      ensures old(failed) || old(done) ==> data == [] && pos == old(pos) && failed == old(failed) && done == old(done)
      ensures pos >= old(pos) && (n > 0 && status.More? ==> |data| > 0 && pos > old(pos))
    {
      data := [];
      if failed {
        return data, Failed;
      }
      if done {
        return data, Eof;
      }
      if remaining == 0 {
        NextChunk();
        if failed {
          return data, Failed;
        }
        if done {
          return data, Eof;
        }
      }
      data := ReadChunk(n);
      status := if failed then Failed else More;
    }
  }

  function Positive(sizes: seq<nat>): nat {
    if sizes == [] then 0 else Positive(sizes[..|sizes| - 1]) + if sizes[|sizes| - 1] > 0 then 1 else 0
  }

  lemma {:induction false} SoFar(r: Reader)
    requires r.Valid() && r.whole.Good?
    ensures r.decoded <= r.whole.payload
  {
    if !r.done {
      if r.remaining > 0 {
        GoodDataExtends(r.env, r.input, r.pos, r.prev, r.sig, r.remaining, r.decoded, r.chunk, r.whole.payload);
      } else {
        GoodExtends(r.env, r.input, r.pos, r.prev, r.decoded, r.whole.payload);
      }
    }
  }

  /** However the caller sizes its reads, empty ones included: what it has is a beginning of
      the payload of a good body, it sees the end exactly with the whole of it, and a
      failure only of a bad one; and it sees one of them before it has asked for something
      more often than there are bytes. */
  method ReadAll(r: Reader, sizes: seq<nat>) returns (data: seq<byte>, status: Status)
    requires r.Valid() && r.decoded == [] && !r.done && !r.failed
    modifies r
    ensures r.Valid()
    ensures status.Eof? ==> r.whole == Good(data)
    ensures status.Failed? ==> r.whole == Bad
    ensures r.whole.Good? ==> data <= r.whole.payload
    ensures Positive(sizes) > |r.input| ==> !status.More?
  {
    data, status := [], More;
    if r.whole.Good? {
      SoFar(r);
    }
    for i := 0 to |sizes|
      invariant r.Valid() && r.decoded == data && !r.done && !r.failed && status.More?
      invariant Positive(sizes[..i]) <= r.pos
      invariant r.whole.Good? ==> data <= r.whole.payload
    {
      assert sizes[..i + 1][..i] == sizes[..i];
      var more;
      more, status := r.Read(sizes[i]);
      data := data + more;
      if r.whole.Good? {
        SoFar(r);
      }
      if !status.More? {
        return;
      }
    }
    assert sizes[..|sizes|] == sizes;
  }

  // --------------------------------------------------------- the body reader

  /** The body of a request: the decoder of a chunked one, which settles its checksums
      itself, or the bytes as they come and the checksums they must meet. */
  class BodyReader {
    const chunked: Reader?
    const input: seq<byte>
    const sum: (seq<byte>, seq<byte>) -> seq<byte>
    const checksums: seq<Expect>
    var pos: nat
    // What the running hashes have seen.
    var hashed: seq<byte>
    var verified: bool
    var failed: bool

    /** Every checksum equals the value declared for it. */
    predicate Met(payload: seq<byte>) {
      forall i | 0 <= i < |checksums| ::
        checksums[i].declared.Some? && checksums[i].declared.value == sum(checksums[i].name, payload)
    }

    ghost predicate Valid()
      reads this, chunked
    {
      if chunked != null then chunked.Valid() && (chunked.failed ==> failed)
      else && pos <= |input| && hashed == input[..pos]
           && (verified ==> pos == |input| && (failed || Met(input)))
    }

    /** What has been handed over. */
    ghost function Delivered(): seq<byte>
      reads this, chunked
    {
      if chunked != null then chunked.decoded else hashed
    }

    /** What has been handed over is a whole body, and good. */
    ghost predicate Whole()
      reads this, chunked
    {
      if chunked != null then chunked.whole == Good(chunked.decoded) else hashed == input && Met(input)
    }

    constructor (input: seq<byte>, sum: (seq<byte>, seq<byte>) -> seq<byte>, checksums: seq<Expect>)
      ensures Valid() && chunked == null && Delivered() == [] && !verified && !failed
      ensures this.input == input && this.checksums == checksums && this.sum == sum
    {
      chunked, this.input, this.sum, this.checksums := null, input, sum, checksums;
      pos, hashed, verified, failed := 0, [], false, false;
    }

    constructor Chunked(r: Reader)
      requires r.Valid() && r.decoded == [] && !r.failed
      ensures Valid() && chunked == r && Delivered() == [] && !verified && !failed
    {
      chunked, input, sum, checksums := r, [], (_, _) => [], [];
      pos, hashed, verified, failed := 0, [], false, false;
    }

    /** verify: the loop over the expectations; a decoder has settled its own. */
    method Verify() returns (ok: bool)
      ensures ok <==> chunked != null || Met(hashed)
    {
      if chunked != null {
        return true;
      }
      for i := 0 to |checksums|
        invariant forall j | 0 <= j < i ::
                    checksums[j].declared.Some? && checksums[j].declared.value == sum(checksums[j].name, hashed)
      {
        var e := checksums[i];
        if e.declared.None? || e.declared.value != sum(e.name, hashed) {
          return false;
        }
      }
      return true;
    }

    /** What the source hands over: of a plain body any bytes, and its end with the last of
        them or after; or an error. */
    method Take(n: nat) returns (data: seq<byte>, source: Status)
      requires Valid() && !failed
      modifies this`pos, this`hashed, chunked
      ensures if chunked != null then chunked.Valid() && (source.Failed? <==> chunked.failed) && (source.Eof? ==> Whole())
              else pos <= |input| && hashed == input[..pos] && (source.Eof? || verified ==> pos == |input|)
      ensures Delivered() == old(Delivered()) + data && |data| <= n
    {
      if chunked != null {
        data, source := chunked.Read(n);
        return;
      }
      var k: nat :| k <= n && pos + k <= |input|;
      source := *;
      if source.Eof? && pos + k < |input| {
        source := More;
      }
      data := input[pos..pos + k];
      assert input[..pos] + data == input[..pos + k];
      pos, hashed := pos + k, hashed + data;
    }

    /** Read: a clean end is reported only once the whole body has been handed over and is
        good, its checksums met; a failure stays. */
    method Read(n: nat) returns (data: seq<byte>, status: Status)
      requires Valid()
      modifies this`pos, this`hashed, this`verified, this`failed, chunked
      ensures Valid() && Delivered() == old(Delivered()) + data && |data| <= n
      ensures status.Eof? ==> Whole() && verified
      ensures status.Failed? <==> failed
      ensures old(failed) ==> data == [] && failed
    {
      if failed {
        return [], Failed;
      }
      var source;
      data, source := Take(n);
      assert input[..|input|] == input;
      if source.Eof? && !verified {
        verified := true;
        var ok := Verify();
        if !ok {
          failed := true;
          return data, Failed;
        }
      }
      if source.Failed? {
        failed := true;
      }
      return data, source;
    }
  }
}
