/**
The size arithmetic of the segment format: how many bytes of ciphertext a
plaintext takes, and back.  The format's constants are those of its first version.
*/
module Sizes {
  import opened Base

  const HEADER_SIZE := 32
  const TAG_SIZE := 16
  const MAX_PARTS := 10000
  const MAX_PLAINTEXT := 0x4000_0000_0000     // 1 << 46
  const MAX_SEALED := 0x8000_0000_0000        // 1 << 47

  function Pow2(n: nat): (r: int)
    ensures r > 0
  {
    if n == 0 then 1 else 2 * Pow2(n - 1)
  }

  predicate ValidLog2(log2C: nat) { 12 <= log2C <= 20 }

  lemma ChunkBounds(log2C: nat)
    requires ValidLog2(log2C)
    ensures 4096 <= Pow2(log2C) <= 0x10_0000
  {
    assert Pow2(12) == 4096;
    Pow2Monotone(12, log2C);
    assert Pow2(16) == 0x1_0000;
    assert Pow2(20) == 0x10_0000;
    Pow2Monotone(log2C, 20);
  }

  lemma {:induction false} Pow2Monotone(a: nat, b: nat)
    requires a <= b
    ensures Pow2(a) <= Pow2(b)
  {
    if a < b {
      Pow2Monotone(a, b - 1);
    }
  }

  /** ceil(x / c), as the format computes it. */
  function Ceil(x: int, c: int): int
    requires c > 0
  {
    (x + c - 1) / c
  }

  lemma MulLe(a: int, b: int, c: int)
    requires a <= b && 0 <= c
    ensures a * c <= b * c
  {
  }

  lemma DivIs(x: int, c: int, q: int)
    requires c > 0 && q * c <= x < (q + 1) * c
    ensures x / c == q
  {
    var d := x / c;
    assert d * c <= x < (d + 1) * c;
    if d < q {
      MulLe(d + 1, q, c);
    } else if d > q {
      MulLe(q + 1, d, c);
    }
  }

  lemma CeilIs(x: int, c: int, q: int)
    requires c > 0
    ensures Ceil(x, c) == q <==> (q - 1) * c < x <= q * c
  {
    var d := Ceil(x, c);
    assert d * c <= x + c - 1 < (d + 1) * c;
    assert (d - 1) * c == d * c - c && (d + 1) * c == d * c + c && (q - 1) * c == q * c - c && (q + 1) * c == q * c + c;
    if (q - 1) * c < x <= q * c {
      DivIs(x + c - 1, c, q);
    }
  }

  /** Whole chunks add up. */
  lemma CeilAdd(k: int, x: int, c: int)
    requires c > 0
    ensures Ceil(k * c + x, c) == k + Ceil(x, c)
  {
    var d := Ceil(x, c);
    CeilIs(x, c, d);
    assert (k + d - 1) * c == k * c + (d - 1) * c;
    assert (k + d) * c == k * c + d * c;
    CeilIs(k * c + x, c, k + d);
  }

  lemma CeilMonotone(x: int, y: int, c: int)
    requires c > 0 && x <= y
    ensures Ceil(x, c) <= Ceil(y, c)
  {
    var a, b := Ceil(x, c), Ceil(y, c);
    CeilIs(x, c, a);
    CeilIs(y, c, b);
    if b < a {
      MulLe(b, a - 1, c);
    }
  }

  function Larger(a: int, b: int): int { if a < b then b else a }

  /** The exact ciphertext size of `segments` concatenated segments. */
  function Sealed(plain: int, log2C: nat, segments: int): Result<int> {
    if !ValidLog2(log2C) || segments < 1 || segments > MAX_PARTS || plain < 0 || plain > MAX_PLAINTEXT then Err
    else Ok(HEADER_SIZE * segments + plain + TAG_SIZE * Larger(Ceil(plain, Pow2(log2C)), segments))
  }

  /** The plaintext size behind a ciphertext size, where there is one. */
  function Opened(sealed: int, log2C: nat, segments: int): Result<int> {
    if !ValidLog2(log2C) || segments < 1 || segments > MAX_PARTS then Err
    else if sealed < HEADER_SIZE * segments + TAG_SIZE || sealed > MAX_SEALED then Err
    else
      var plain := Unpacked(sealed - HEADER_SIZE * segments, Pow2(log2C));
      if plain.Err? || plain.value < 0 then Err
      else if Sealed(plain.value, log2C, segments) != Ok(sealed) then Err
      else plain
  }

  /** The payload without its tags; remainders of 1 to 16 bytes no encoder
      produces, but for the empty segment. */
  function Unpacked(payload: int, c: int): Result<int>
    requires c > 0
  {
    var stride := c + TAG_SIZE;
    if payload != TAG_SIZE && 1 <= payload % stride <= TAG_SIZE then Err
    else Ok(payload - TAG_SIZE * Ceil(payload, stride))
  }

  lemma CeilBound(plain: int, c: int)
    requires 4096 <= c && 0 <= plain
    ensures 4096 * Ceil(plain, c) <= plain + 4095 && 0 <= Ceil(plain, c)
  {
    var n := Ceil(plain, c);
    CeilIs(plain, c, n);
    if n >= 1 {
      MulLe(4096, c, n - 1);
    } else {
      MulLe(n, 0, c);
    }
  }

  lemma SealedInBounds(plain: int, log2C: nat, segments: int)
    ensures Sealed(plain, log2C, segments).Ok? ==> Sealed(plain, log2C, segments).value <= MAX_SEALED
  {
    if Sealed(plain, log2C, segments).Ok? {
      ChunkBounds(log2C);
      CeilBound(plain, Pow2(log2C));
    }
  }

  /** The payload of n chunks, of which all but the last are full. */
  lemma PayloadChunks(plain: int, c: int, n: int)
    requires c > 0 && n >= 1 && n == Ceil(plain, c)
    ensures (n - 1) * (c + TAG_SIZE) + TAG_SIZE < plain + TAG_SIZE * n <= n * (c + TAG_SIZE)
    ensures Ceil(plain + TAG_SIZE * n, c + TAG_SIZE) == n
  {
    CeilIs(plain, c, n);
    var stride := c + TAG_SIZE;
    assert (n - 1) * stride == (n - 1) * c + TAG_SIZE * (n - 1) && n * stride == n * c + TAG_SIZE * n;
    CeilIs(plain + TAG_SIZE * n, stride, n);
  }

  lemma UnpackedInverts(plain: int, c: int)
    requires c > 0 && 0 <= plain
    ensures Unpacked(plain + TAG_SIZE * Larger(Ceil(plain, c), 1), c) == Ok(plain)
  {
    var n := Ceil(plain, c);
    if n >= 1 {
      PayloadChunks(plain, c, n);
      ModOfPayload(plain + TAG_SIZE * n, c + TAG_SIZE, n);
    } else {
      CeilIs(plain, c, n);
      MulLe(n, 0, c);
      CeilIs(TAG_SIZE, c + TAG_SIZE, 1);
    }
  }

  /** Opened inverts Sealed wherever every segment holds at least one chunk: on
      every single segment, and on every part list the part rules admit. */
  lemma OpenedInvertsSealed(plain: int, log2C: nat, segments: int)
    requires Sealed(plain, log2C, segments).Ok?
    requires segments == 1 || segments <= Ceil(plain, Pow2(log2C))
    ensures Opened(Sealed(plain, log2C, segments).value, log2C, segments) == Ok(plain)
  {
    SealedInBounds(plain, log2C, segments);
    UnpackedInverts(plain, Pow2(log2C));
  }

  /** A full last chunk leaves no remainder, a partial one more than a tag. */
  lemma ModOfPayload(payload: int, stride: int, n: int)
    requires stride > TAG_SIZE && n >= 1
    requires (n - 1) * stride + TAG_SIZE < payload <= n * stride
    ensures !(1 <= payload % stride <= TAG_SIZE)
  {
    assert n * stride == (n - 1) * stride + stride;
    if payload == n * stride {
      ModIs(payload, stride, n);
    } else {
      ModIs(payload, stride, n - 1);
    }
  }

  /** Ciphertext size, part count and chunk size determine the plaintext size. */
  lemma SealedInjective(p: int, q: int, log2C: nat, segments: int)
    requires Sealed(p, log2C, segments).Ok? && Sealed(p, log2C, segments) == Sealed(q, log2C, segments)
    ensures p == q
  {
    var c := Pow2(log2C);
    if p < q {
      CeilMonotone(p, q, c);
    } else if q < p {
      CeilMonotone(q, p, c);
    }
  }

  lemma TagOnlyRemainder(plain: int, c: int, n: int)
    requires c > 0 && 0 <= plain && 1 < n && Ceil(plain, c) < n
    requires Ceil(plain + TAG_SIZE * n, c + TAG_SIZE) == n
    ensures 1 <= (plain + TAG_SIZE * n) % (c + TAG_SIZE) <= TAG_SIZE
  {
    var payload, stride := plain + TAG_SIZE * n, c + TAG_SIZE;
    CeilIs(payload, stride, n);
    CeilIs(plain, c, Ceil(plain, c));
    MulLe(Ceil(plain, c), n - 1, c);
    assert (n - 1) * stride == (n - 1) * c + TAG_SIZE * (n - 1);
    ModIs(payload, stride, n - 1);
  }

  lemma ModIs(x: int, c: int, q: int)
    requires c > 0 && q * c <= x < q * c + c
    ensures x % c == x - q * c
  {
    assert (q + 1) * c == q * c + c;
    DivIs(x, c, q);
  }

  /** Where a segment would hold no chunk of its own, Opened refuses. */
  lemma OpenedRefusesEmptySegments(plain: int, log2C: nat, segments: int)
    requires Sealed(plain, log2C, segments).Ok? && 1 < segments && Ceil(plain, Pow2(log2C)) < segments
    ensures Opened(Sealed(plain, log2C, segments).value, log2C, segments) == Err
  {
    var got := Opened(Sealed(plain, log2C, segments).value, log2C, segments);
    if got.Ok? {
      SealedInjective(got.value, plain, log2C, segments);
      TagOnlyRemainder(plain, Pow2(log2C), segments);
    }
  }

  /** Opened inverts Sealed exactly where every segment holds at least one chunk. */
  lemma OpenedInvertsSealedExactly(plain: int, log2C: nat, segments: int)
    requires Sealed(plain, log2C, segments).Ok?
    ensures Opened(Sealed(plain, log2C, segments).value, log2C, segments) == Ok(plain) <==>
              segments == 1 || segments <= Ceil(plain, Pow2(log2C))
  {
    if segments == 1 || segments <= Ceil(plain, Pow2(log2C)) {
      OpenedInvertsSealed(plain, log2C, segments);
    } else {
      OpenedRefusesEmptySegments(plain, log2C, segments);
    }
  }
}
