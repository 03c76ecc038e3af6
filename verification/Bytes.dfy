/** Byte strings, big-endian integers and length-prefixed fields. */
module Bytes {

  type byte = x: int | 0 <= x < 256

  function Pow256(n: nat): (r: int)
    ensures r > 0
  {
    if n == 0 then 1 else 256 * Pow256(n - 1)
  }

  /** The low `width` bytes of v, most significant first: the writes of
      encoding/binary, which truncate. */
  function BigEndian(width: nat, v: nat): (r: seq<byte>)
    ensures |r| == width
  {
    if width == 0 then [] else BigEndian(width - 1, v / 256) + [v % 256]
  }

  function Value(s: seq<byte>): (r: nat)
    decreases |s|
  {
    if s == [] then 0 else Value(s[..|s| - 1]) * 256 + s[|s| - 1]
  }

  lemma {:induction false} ValueOfBigEndian(width: nat, v: nat)
    requires v < Pow256(width)
    ensures Value(BigEndian(width, v)) == v
  {
    if width > 0 {
      ValueOfBigEndian(width - 1, v / 256);
      assert BigEndian(width, v)[..width - 1] == BigEndian(width - 1, v / 256);
    }
  }

  lemma {:induction false} BigEndianOfValue(s: seq<byte>)
    ensures Value(s) < Pow256(|s|) && BigEndian(|s|, Value(s)) == s
    decreases |s|
  {
    if s != [] {
      var t := s[..|s| - 1];
      BigEndianOfValue(t);
      assert Value(s) / 256 == Value(t) && Value(s) % 256 == s[|s| - 1];
      assert s == t + [s[|s| - 1]];
    }
  }

  lemma BigEndianInjective(width: nat, v: nat, w: nat)
    requires v < Pow256(width) && w < Pow256(width) && BigEndian(width, v) == BigEndian(width, w)
    ensures v == w
  {
    ValueOfBigEndian(width, v);
    ValueOfBigEndian(width, w);
  }

  /** Most significant byte first. */
  lemma {:induction false} BytesOf(v: nat)
    ensures BigEndian(2, v) == [v / 256 % 256, v % 256]
    ensures BigEndian(4, v) == [v / 0x100_0000 % 256, v / 0x1_0000 % 256, v / 256 % 256, v % 256]
  {
    assert BigEndian(1, v / 0x100_0000) == BigEndian(0, v / 0x1_0000_0000) + [v / 0x100_0000 % 256];
    assert BigEndian(2, v / 0x1_0000) == BigEndian(1, v / 0x1_0000 / 256) + [v / 0x1_0000 % 256];
    assert BigEndian(3, v / 256) == BigEndian(2, v / 256 / 256) + [v / 256 % 256];
    assert BigEndian(1, v / 256) == BigEndian(0, v / 256 / 256) + [v / 256 % 256];
  }

  lemma Widths()
    ensures Pow256(2) == 0x1_0000 && Pow256(4) == 0x1_0000_0000 && Pow256(8) == 0x1_0000_0000_0000_0000
  {
    assert Pow256(2) == 256 * Pow256(1);
    assert Pow256(4) == 256 * (256 * Pow256(2));
    assert Pow256(6) == 256 * (256 * Pow256(4));
    assert Pow256(8) == 256 * (256 * Pow256(6));
  }

  const MAX_FIELD := 0xffff

  /** A field prefixed by its 16-bit length. */
  function Field(s: seq<byte>): seq<byte> { BigEndian(2, |s|) + s }

  lemma Assoc<T>(a: seq<T>, b: seq<T>, c: seq<T>)
    ensures a + b + c == a + (b + c)
  {
  }

  lemma TakeOne<T>(s: seq<T>, i: nat)
    requires i < |s|
    ensures s[..i + 1] == s[..i] + [s[i]]
  {
  }

  lemma SliceAfter<T>(a: seq<T>, b: seq<T>, i: nat, j: nat)
    requires i <= j <= |b|
    ensures (a + b)[|a| + i..|a| + j] == b[i..j]
  {
  }

  lemma SplitEqual<T>(a: seq<T>, b: seq<T>, x: seq<T>, y: seq<T>)
    requires |a| == |b| && a + x == b + y
    ensures a == b && x == y
  {
    assert a == (a + x)[..|a|] && b == (b + y)[..|b|];
    assert x == (a + x)[|a|..] && y == (b + y)[|b|..];
  }

  /** The length prefix makes a concatenation unambiguous. */
  lemma FieldUnambiguous(a: seq<byte>, b: seq<byte>, x: seq<byte>, y: seq<byte>)
    requires |a| <= MAX_FIELD && |b| <= MAX_FIELD && Field(a) + x == Field(b) + y
    ensures a == b && x == y
  {
    Widths();
    assert Field(a) + x == BigEndian(2, |a|) + (a + x) && Field(b) + y == BigEndian(2, |b|) + (b + y);
    SplitEqual(BigEndian(2, |a|), BigEndian(2, |b|), a + x, b + y);
    BigEndianInjective(2, |a|, |b|);
    SplitEqual(a, b, x, y);
  }
}
