/**
What an accepted body is, said of its bytes, the signing key and the checksums alone:
which signature covers what, and what every declared or arrived value must equal.
*/
module ChunkedLaw {
  import opened Base
  import opened Bytes
  import opened Chunked
  import opened ChunkedMeaning

  /** The signatures of the chunks, and their data, in order. */
  function Sigs(c: Chunks): seq<seq<byte>> {
    match c
    case NoChunks => []
    case Chunk(_, sig, rest) => [sig] + Sigs(rest)
  }

  function Datas(c: Chunks): (ds: seq<seq<byte>>)
    ensures |ds| == |Sigs(c)|
  {
    match c
    case NoChunks => []
    case Chunk(data, _, rest) => [data] + Datas(rest)
  }

  /** The signature before the i-th, counting the seed as the first. */
  function Previous(seed: seq<byte>, sigs: seq<seq<byte>>, i: nat): seq<byte>
    requires i <= |sigs|
  {
    if i == 0 then seed else sigs[i - 1]
  }

  /** Each signature is the key's on its chunk's data and the signature before it. */
  predicate Chained(env: Env, seed: seq<byte>, sigs: seq<seq<byte>>, datas: seq<seq<byte>>) {
    |sigs| == |datas| && forall i | 0 <= i < |sigs| :: sigs[i] == env.chunkSig(Previous(seed, sigs, i), datas[i])
  }

  lemma {:induction false} ChainedNext(env: Env, seed: seq<byte>, sig: seq<byte>, data: seq<byte>,
                                       sigs: seq<seq<byte>>, datas: seq<seq<byte>>)
    ensures Chained(env, seed, [sig] + sigs, [data] + datas) <==>
              sig == env.chunkSig(seed, data) && Chained(env, sig, sigs, datas)
  {
    var all, ds := [sig] + sigs, [data] + datas;
    if Chained(env, seed, all, ds) {
      assert all[0] == env.chunkSig(Previous(seed, all, 0), ds[0]);
      forall i | 0 <= i < |sigs|
        ensures sigs[i] == env.chunkSig(Previous(sig, sigs, i), datas[i])
      {
        assert all[i + 1] == env.chunkSig(Previous(seed, all, i + 1), ds[i + 1]);
        assert Previous(seed, all, i + 1) == Previous(sig, sigs, i);
      }
    }
    if sig == env.chunkSig(seed, data) && Chained(env, sig, sigs, datas) {
      forall i | 0 <= i < |all|
        ensures all[i] == env.chunkSig(Previous(seed, all, i), ds[i])
      {
        if i > 0 {
          assert Previous(seed, all, i) == Previous(sig, sigs, i - 1);
        }
      }
    }
  }

  lemma {:induction false} ChainMeans(env: Env, seed: seq<byte>, c: Chunks)
    requires !env.mode.Unsigned?
    ensures SignatureChain(env, seed, c) <==> Chained(env, seed, Sigs(c), Datas(c))
    ensures LastSig(env, seed, c) == Previous(seed, Sigs(c), |Sigs(c)|)
    decreases c
  {
    if c.Chunk? {
      ChainMeans(env, c.sig, c.rest);
      ChainedNext(env, seed, c.sig, c.data, Sigs(c.rest), Datas(c.rest));
    }
  }

  lemma {:induction false} UnsignedChain(env: Env, seed: seq<byte>, c: Chunks)
    requires env.mode.Unsigned?
    ensures SignatureChain(env, seed, c) && LastSig(env, seed, c) == seed
    decreases c
  {
    if c.Chunk? {
      UnsignedChain(env, seed, c.rest);
    }
  }

  /** In a signed mode: every chunk is signed along the chain from the seed, the final empty
      chunk after the last of them, and a signed trailer after that. */
  predicate SignedRight(env: Env, seed: seq<byte>, c: Chunks, final: seq<byte>, t: Trailer) {
    && Chained(env, seed, Sigs(c), Datas(c))
    && final == env.chunkSig(Previous(seed, Sigs(c), |Sigs(c)|), [])
    && (env.mode.SignedTrailer? ==> t.sig == env.trailerSig(final, Rendered(t.canonical)))
  }

  /** A checksum that arrived in the trailer under this name. */
  predicate InTrailer(env: Env, t: Trailer, name: seq<byte>, v: seq<byte>) {
    name in t.fields && env.arrived(name, t.fields[name]) == Sum(v)
  }

  /** The payload has the declared length.  A checksum in the trailer parses, is one that
      runs, and is the payload's.  One that did not arrive there is the payload's as its
      header declared it; so is a second one of the same name, which the trailer does not
      settle. */
  ghost predicate Adds(env: Env, all: seq<byte>, t: Trailer) {
    && |all| == env.declared
    && (forall name | name in t.fields :: env.arrived(name, t.fields[name]) != BadChecksum)
    && (forall name, v | InTrailer(env, t, name, v) ::
          v == env.sum(name, all) && exists i | 0 <= i < |env.checksums| :: env.checksums[i].name == name)
    && (forall i | 0 <= i < |env.checksums| ::
          || env.checksums[i].declared == Some(env.sum(env.checksums[i].name, all))
          || ((exists v :: InTrailer(env, t, env.checksums[i].name, v)) &&
              forall j | 0 <= j < i :: env.checksums[j].name != env.checksums[i].name))
  }

  lemma {:induction false} SettlesMeans(env: Env, all: seq<byte>, t: Trailer)
    ensures Settles(env, all, t.fields) <==> Adds(env, all, t)
  {
    if Settles(env, all, t.fields) {
      forall name, v | InTrailer(env, t, name, v)
        ensures v == env.sum(name, all) && exists i | 0 <= i < |env.checksums| :: env.checksums[i].name == name
      {
        assert ArrivedRight(env, all, name, t.fields[name]);
        var e :| e in env.checksums && e.name == name;
      }
      forall name | name in t.fields
        ensures env.arrived(name, t.fields[name]) != BadChecksum
      {
        assert ArrivedRight(env, all, name, t.fields[name]);
      }
      forall i | 0 <= i < |env.checksums|
        ensures || env.checksums[i].declared == Some(env.sum(env.checksums[i].name, all))
                || ((exists v :: InTrailer(env, t, env.checksums[i].name, v)) &&
                    forall j | 0 <= j < i :: env.checksums[j].name != env.checksums[i].name)
      {
        SettledMeans(env, all, t, i);
      }
    } else if Adds(env, all, t) {
      forall name | name in t.fields
        ensures ArrivedRight(env, all, name, t.fields[name])
      {
        AddsArrived(env, all, t, name);
      }
      forall i | 0 <= i < |env.checksums|
        ensures Settled(env, all, t.fields, i)
      {
        SettledMeans(env, all, t, i);
      }
    }
  }

  lemma {:induction false} AddsArrived(env: Env, all: seq<byte>, t: Trailer, name: seq<byte>)
    requires Adds(env, all, t) && name in t.fields
    ensures ArrivedRight(env, all, name, t.fields[name])
  {
    var a := env.arrived(name, t.fields[name]);
    if a.Sum? {
      assert InTrailer(env, t, name, a.value);
      var i :| 0 <= i < |env.checksums| && env.checksums[i].name == name;
      assert env.checksums[i] in env.checksums;
    }
  }

  lemma {:induction false} SettledMeans(env: Env, all: seq<byte>, t: Trailer, i: nat)
    requires i < |env.checksums|
    ensures Settled(env, all, t.fields, i) <==>
              || env.checksums[i].declared == Some(env.sum(env.checksums[i].name, all))
              || ((exists v :: InTrailer(env, t, env.checksums[i].name, v)) &&
                  forall j | 0 <= j < i :: env.checksums[j].name != env.checksums[i].name)
  {
    var name := env.checksums[i].name;
    if Arrives(env, t.fields, name) {
      assert InTrailer(env, t, name, env.arrived(name, t.fields[name]).value);
    }
  }

  /** These bytes are this framing of this payload, rightly signed where the mode signs, and
      everything declared or arrived adds up. */
  ghost predicate Upload(env: Env, s: seq<byte>, seed: seq<byte>, all: seq<byte>, c: Chunks, final: seq<byte>, tail: nat) {
    && Framing(LinesOf(env.mode, s), s, 0, c, final, tail) && all == Concat(c) && tail <= |s|
    && var t := ReadTrailer(env, s, tail, MAX_TRAILER_LINES, NO_TRAILER);
    && t.Some? && Adds(env, all, t.value) && (!env.mode.Unsigned? ==> SignedRight(env, seed, c, final, t.value))
  }

  lemma {:induction false} BodyMeans(env: Env, s: seq<byte>, seed: seq<byte>, c: Chunks, final: seq<byte>, tail: nat)
    ensures IsBody(env, s, seed, c, final, tail) <==> Upload(env, s, seed, Concat(c), c, final, tail)
  {
    if env.mode.Unsigned? {
      UnsignedChain(env, seed, c);
    } else {
      ChainMeans(env, seed, c);
    }
    if tail <= |s| {
      var t := ReadTrailer(env, s, tail, MAX_TRAILER_LINES, NO_TRAILER);
      if t.Some? {
        SettlesMeans(env, Concat(c), t.value);
      }
    }
  }

  ghost predicate SomeUpload(env: Env, s: seq<byte>, seed: seq<byte>, all: seq<byte>) {
    exists c, final, tail :: Upload(env, s, seed, all, c, final, tail)
  }

  /** On every input: the decoder accepts a payload if and only if the bytes are an upload
      of it. */
  lemma {:induction false} AcceptsExactly(env: Env, s: seq<byte>, seed: seq<byte>, all: seq<byte>)
    ensures Decode(env, s, 0, seed, []) == Good(all) <==> SomeUpload(env, s, seed, all)
  {
    DecodesExactly(env, s, seed, all);
    if SomeBody(env, s, seed, all) {
      var c, final, tail :| IsBody(env, s, seed, c, final, tail) && all == Concat(c);
      BodyMeans(env, s, seed, c, final, tail);
    } else if SomeUpload(env, s, seed, all) {
      var c, final, tail :| Upload(env, s, seed, all, c, final, tail);
      BodyMeans(env, s, seed, c, final, tail);
    }
  }
}
