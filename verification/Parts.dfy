/**
The part rules of multipart objects: which part lists are accepted, how a plaintext
is cut into parts, and why the size of the whole can be read off its ciphertext.
*/
module Parts {
  import opened Base
  import opened Manifest
  import opened Sizes

  const MAX_PART_CIPHERTEXT := 0x1_4000_0000   // 5 << 30

  /** One part as the provider lists it. */
  datatype Uploaded = Uploaded(number: nat, cipher: int, salt: Salt)

  /** A plaintext size a part may have: something in it, within the provider's limit,
      and whole chunks unless it is the last. */
  predicate Storable(plain: int, last: bool, log2C: nat) {
    && plain > 0
    && Sealed(plain, log2C, 1).Ok? && Sealed(plain, log2C, 1).value <= MAX_PART_CIPHERTEXT
    && (last || plain % Pow2(log2C) == 0)
  }

  predicate Ascending(parts: seq<Part>) {
    && (forall i | 0 <= i < |parts| :: 1 <= parts[i].number <= MAX_PARTS)
    && (forall i, j | 0 <= i < j < |parts| :: parts[i].number < parts[j].number)
  }

  /** The multipart rules. */
  predicate Sizable(parts: seq<Part>, log2C: nat) {
    && 1 <= |parts| <= MAX_PARTS
    && (forall i | 0 <= i < |parts| :: Storable(parts[i].plain, i == |parts| - 1, log2C))
  }

  predicate LawfulParts(parts: seq<Part>, log2C: nat) { Sizable(parts, log2C) && Ascending(parts) }

  /** What the provider stores for a part list. */
  predicate Stores(up: seq<Uploaded>, parts: seq<Part>, log2C: nat) {
    |up| == |parts| && forall i | 0 <= i < |up| :: StoresOne(up[i], parts[i], log2C)
  }

  predicate StoresOne(u: Uploaded, p: Part, log2C: nat) {
    u.number == p.number && u.salt == p.salt && Sealed(p.plain, log2C, 1) == Ok(u.cipher)
  }

  // ------------------------------------------------------- PartsFromUpstream

  /** The checks on one part: the only plaintext size it can have, if that is storable. */
  method CheckPart(u: Uploaded, last: bool, log2C: nat) returns (r: Option<int>)
    requires ValidLog2(log2C)
    ensures r.Some? ==> Storable(r.value, last, log2C) && Sealed(r.value, log2C, 1) == Ok(u.cipher)
    ensures r.None? ==> forall plain: int :: Sealed(plain, log2C, 1) == Ok(u.cipher) ==> !Storable(plain, last, log2C)
  {
    OnlySize(u.cipher, log2C);
    if u.cipher > MAX_PART_CIPHERTEXT {
      return None;
    }
    var plain := Opened(u.cipher, log2C, 1);
    if plain.Err? || plain.value == 0 || (!last && plain.value % Pow2(log2C) != 0) {
      return None;
    }
    return Some(plain.value);
  }

  /** Completion accepts exactly the listings some lawful part list produces, and
      answers that part list. */
  method FromUpstream(up: seq<Uploaded>, log2C: nat) returns (r: Result<seq<Part>>)
    ensures r.Ok? ==> LawfulParts(r.value, log2C) && Stores(up, r.value, log2C)
    ensures r.Err? ==> forall parts: seq<Part> :: !(LawfulParts(parts, log2C) && Stores(up, parts, log2C))
  {
    if !ValidLog2(log2C) || |up| == 0 || |up| > MAX_PARTS {
      NoneStores(up, log2C);
      return Err;
    }
    var parts: seq<Part> := [];
    for i := 0 to |up|
      invariant |parts| == i
      invariant forall j | 0 <= j < i :: Storable(parts[j].plain, j == |up| - 1, log2C)
      invariant forall j | 0 <= j < i :: StoresOne(up[j], parts[j], log2C)
    {
      var plain := CheckPart(up[i], i == |up| - 1, log2C);
      if plain.None? {
        Unstorable(up, i, log2C);
        return Err;
      }
      parts := parts + [Part(up[i].number, plain.value, up[i].salt)];
    }
    var ok := Validate(Manifest([], [], NO_ID, parts, false));
    if !ok {
      NoOther(up, parts, log2C);
      return Err;
    }
    AscendingFromSteps(parts);
    return Ok(parts);
  }

  /** The plaintext size behind a ciphertext size is the one Opened reports. */
  lemma {:induction false} OnlySize(cipher: int, log2C: nat)
    ensures forall plain: int :: Sealed(plain, log2C, 1) == Ok(cipher) ==> Opened(cipher, log2C, 1) == Ok(plain)
    ensures Opened(cipher, log2C, 1).Ok? ==>
              Opened(cipher, log2C, 1).value >= 0 && Sealed(Opened(cipher, log2C, 1).value, log2C, 1) == Ok(cipher)
  {
    forall plain: int | Sealed(plain, log2C, 1) == Ok(cipher)
      ensures Opened(cipher, log2C, 1) == Ok(plain)
    {
      OpenedInvertsSealed(plain, log2C, 1);
    }
  }

  lemma NoneStores(up: seq<Uploaded>, log2C: nat)
    requires !ValidLog2(log2C) || |up| == 0 || |up| > MAX_PARTS
    ensures forall parts: seq<Part> :: !(LawfulParts(parts, log2C) && Stores(up, parts, log2C))
  {
    forall parts: seq<Part> | Stores(up, parts, log2C)
      ensures !LawfulParts(parts, log2C)
    {
      if |parts| > 0 {
        var first := parts[0].plain;
        assert ValidLog2(log2C) || Sealed(first, log2C, 1).Err?;
      }
    }
  }

  lemma Unstorable(up: seq<Uploaded>, i: nat, log2C: nat)
    requires i < |up|
    requires forall plain: int :: Sealed(plain, log2C, 1) == Ok(up[i].cipher) ==> !Storable(plain, i == |up| - 1, log2C)
    ensures forall parts: seq<Part> :: !(LawfulParts(parts, log2C) && Stores(up, parts, log2C))
  {
    forall parts: seq<Part> | Stores(up, parts, log2C)
      ensures !LawfulParts(parts, log2C)
    {
      assert !Storable(parts[i].plain, i == |up| - 1, log2C);
    }
  }

  /** Two part lists with one listing are the same list. */
  lemma SamePlain(up: seq<Uploaded>, a: seq<Part>, b: seq<Part>, log2C: nat)
    requires Stores(up, a, log2C) && Stores(up, b, log2C)
    ensures a == b
  {
    forall i | 0 <= i < |up|
      ensures a[i] == b[i]
    {
      SealedInjective(a[i].plain, b[i].plain, log2C, 1);
    }
  }

  lemma NoOther(up: seq<Uploaded>, parts: seq<Part>, log2C: nat)
    requires Stores(up, parts, log2C) && !LawfulParts(parts, log2C)
    ensures forall other: seq<Part> :: !(LawfulParts(other, log2C) && Stores(up, other, log2C))
  {
    forall other: seq<Part> | Stores(up, other, log2C)
      ensures !LawfulParts(other, log2C)
    {
      SamePlain(up, parts, other, log2C);
    }
  }

  lemma AscendingFromSteps(parts: seq<Part>)
    requires ValidParts(parts)
    ensures Ascending(parts)
  {
    forall i, j | 0 <= i < j < |parts|
      ensures parts[i].number < parts[j].number
    {
      StepsAdd(parts, i, j);
    }
  }

  lemma {:induction false} StepsAdd(parts: seq<Part>, i: nat, j: nat)
    requires ValidParts(parts) && i < j < |parts|
    ensures parts[i].number < parts[j].number
    decreases j
  {
    assert parts[j - 1].number < parts[j].number;
    if i < j - 1 {
      StepsAdd(parts, i, j - 1);
    }
  }

  // ------------------------------------------------------------- whole sizes

  function SumPlain(parts: seq<Part>): int {
    if parts == [] then 0 else parts[0].plain + SumPlain(parts[1..])
  }

  function SumCipher(up: seq<Uploaded>): int {
    if up == [] then 0 else up[0].cipher + SumCipher(up[1..])
  }

  lemma SizableTail(parts: seq<Part>, log2C: nat)
    requires Sizable(parts, log2C) && |parts| > 1
    ensures Sizable(parts[1..], log2C)
  {
    var rest := parts[1..];
    forall i | 0 <= i < |rest|
      ensures Storable(rest[i].plain, i == |rest| - 1, log2C)
    {
      assert rest[i] == parts[i + 1];
    }
  }

  /** A part of whole chunks carries as many chunks into the whole as it has. */
  lemma WholeChunks(plain: int, rest: int, c: int)
    requires c > 0 && plain % c == 0
    ensures Ceil(plain + rest, c) == Ceil(plain, c) + Ceil(rest, c)
  {
    var k := plain / c;
    assert plain == k * c;
    CeilAdd(k, rest, c);
    CeilAdd(k, 0, c);
    assert Ceil(0, c) == 0 by { CeilIs(0, c, 0); }
  }

  lemma AtLeastOneChunk(plain: int, c: int)
    requires c > 0 && plain > 0
    ensures Ceil(plain, c) >= 1
  {
    var n := Ceil(plain, c);
    CeilIs(plain, c, n);
    if n <= 0 {
      MulLe(n, 0, c);
    }
  }

  /** Where the part boundaries fall does not matter: the parts hold ceil(P/C) chunks
      in all, at least one each, and their ciphertexts add up accordingly. */
  lemma {:induction false} ChunksAddUp(up: seq<Uploaded>, parts: seq<Part>, log2C: nat)
    requires Sizable(parts, log2C) && Stores(up, parts, log2C)
    ensures |parts| <= Ceil(SumPlain(parts), Pow2(log2C))
    ensures SumCipher(up) == HEADER_SIZE * |parts| + SumPlain(parts) + TAG_SIZE * Ceil(SumPlain(parts), Pow2(log2C))
    ensures 0 < SumPlain(parts) <= MAX_PART_CIPHERTEXT * |parts|
    decreases |parts|
  {
    var c := Pow2(log2C);
    assert Storable(parts[0].plain, 0 == |parts| - 1, log2C);
    AtLeastOneChunk(parts[0].plain, c);
    if |parts| > 1 {
      SizableTail(parts, log2C);
      ChunksAddUp(up[1..], parts[1..], log2C);
      WholeChunks(parts[0].plain, SumPlain(parts[1..]), c);
    } else {
      assert SumPlain(parts[1..]) == 0 && SumCipher(up[1..]) == 0;
    }
  }

  /** The law the rules exist for: the plaintext size of a lawful object is what the
      listing arithmetic recovers from its ciphertext size and part count, and that
      size seals to exactly the bytes stored. */
  lemma {:induction false} SizeOfTheWhole(up: seq<Uploaded>, parts: seq<Part>, log2C: nat)
    requires Sizable(parts, log2C) && Stores(up, parts, log2C)
    ensures Sealed(SumPlain(parts), log2C, |parts|) == Ok(SumCipher(up))
    ensures Opened(SumCipher(up), log2C, |parts|) == Ok(SumPlain(parts))
  {
    ChunksAddUp(up, parts, log2C);
    OpenedInvertsSealed(SumPlain(parts), log2C, |parts|);
  }

  // -------------------------------------------------------------- copyParts

  datatype Range = Range(number: nat, first: int, last: int)

  /** Ranges tile [from, to): each starts where the one before it ended. */
  predicate Tiles(ranges: seq<Range>, from: int, to: int)
    decreases |ranges|
  {
    if ranges == [] then from == to
    else ranges[0].first == from && from <= ranges[0].last && Tiles(ranges[1..], ranges[0].last + 1, to)
  }

  lemma {:induction false} TilesAppend(ranges: seq<Range>, r: Range, from: int, to: int)
    requires Tiles(ranges, from, to) && r.first == to && to <= r.last
    ensures Tiles(ranges + [r], from, r.last + 1)
    decreases |ranges|
  {
    if ranges == [] {
      assert Tiles([], r.last + 1, r.last + 1);
      assert ([r])[1..] == [];
      assert [] + [r] == [r];
    } else {
      TilesAppend(ranges[1..], r, ranges[0].last + 1, to);
      assert (ranges + [r])[1..] == ranges[1..] + [r];
    }
  }

  lemma {:induction false} SumCipherAppend(up: seq<Uploaded>, u: Uploaded)
    ensures SumCipher(up + [u]) == SumCipher(up) + u.cipher
  {
    if up == [] {
      assert [] + [u] == [u];
    } else {
      SumCipherAppend(up[1..], u);
      assert (up + [u])[1..] == up[1..] + [u];
    }
  }

  /** copyParts: the source's byte ranges, part by part.  They tile the stored object,
      and range i holds exactly the ciphertext of part i. */
  method CopyRanges(layout: seq<Part>, log2C: nat) returns (r: Result<seq<Range>>, ghost up: seq<Uploaded>)
    ensures r.Err? <==> exists i | 0 <= i < |layout| :: Sealed(layout[i].plain, log2C, 1).Err?
    ensures r.Ok? ==>
              && Stores(up, layout, log2C) && |r.value| == |layout|
              && Tiles(r.value, 0, SumCipher(up))
              && (forall i | 0 <= i < |layout| :: r.value[i].number == layout[i].number
                                                  && r.value[i].last + 1 - r.value[i].first == up[i].cipher)
  {
    var ranges: seq<Range> := [];
    up := [];
    var offset := 0;
    for i := 0 to |layout|
      invariant |ranges| == i == |up|
      invariant forall j | 0 <= j < i :: Sealed(layout[j].plain, log2C, 1).Ok?
      invariant Stores(up, layout[..i], log2C)
      invariant offset == SumCipher(up) && Tiles(ranges, 0, offset)
      invariant forall j | 0 <= j < i :: ranges[j].number == layout[j].number
                                         && ranges[j].last + 1 - ranges[j].first == up[j].cipher
    {
      var part := layout[i];
      var sealed := Sealed(part.plain, log2C, 1);
      if sealed.Err? {
        return Err, up;
      }
      SealedPositive(part.plain, log2C);
      var range := Range(part.number, offset, offset + sealed.value - 1);
      TilesAppend(ranges, range, 0, offset);
      SumCipherAppend(up, Uploaded(part.number, sealed.value, part.salt));
      ranges := ranges + [range];
      up := up + [Uploaded(part.number, sealed.value, part.salt)];
      offset := offset + sealed.value;
    }
    assert layout[..|layout|] == layout;
    return Ok(ranges), up;
  }

  lemma SealedPositive(plain: int, log2C: nat)
    ensures Sealed(plain, log2C, 1).Ok? ==> Sealed(plain, log2C, 1).value > 0
  {
  }

  /** Tiling ranges split the bytes between them: each byte is in one range, and one only. */
  lemma {:induction false} EachByteOnce(ranges: seq<Range>, from: int, to: int, at: int)
    requires Tiles(ranges, from, to) && from <= at < to
    ensures exists i | 0 <= i < |ranges| :: ranges[i].first <= at <= ranges[i].last
    ensures forall i, j | 0 <= i < j < |ranges| :: ranges[i].last < ranges[j].first
    decreases |ranges|
  {
    if ranges[0].last < at {
      EachByteOnce(ranges[1..], ranges[0].last + 1, to, at);
      var i :| 0 <= i < |ranges[1..]| && ranges[1..][i].first <= at <= ranges[1..][i].last;
      assert ranges[i + 1] == ranges[1..][i];
    }
    TilesOrdered(ranges, from, to);
  }

  lemma {:induction false} TilesOrdered(ranges: seq<Range>, from: int, to: int)
    requires Tiles(ranges, from, to)
    ensures from <= to
    ensures forall i | 0 <= i < |ranges| :: from <= ranges[i].first <= ranges[i].last
    ensures forall i, j | 0 <= i < j < |ranges| :: ranges[i].last < ranges[j].first
    decreases |ranges|
  {
    if ranges != [] {
      TilesOrdered(ranges[1..], ranges[0].last + 1, to);
      assert forall i | 1 <= i < |ranges| :: ranges[i] == ranges[1..][i - 1];
    }
  }

  // ------------------------------------------------------- MaxPartPlaintext

  /** The largest plaintext of whole chunks that fits a part. */
  ghost predicate LargestWhole(plain: int, log2C: nat) {
    && Storable(plain, false, log2C)
    && forall other: int :: Storable(other, false, log2C) ==> other <= plain
  }

  /** Sealing grows with the plaintext. */
  lemma {:induction false} SealedMonotone(a: int, b: int, log2C: nat)
    requires 0 <= a < b && Sealed(b, log2C, 1).Ok?
    ensures Sealed(a, log2C, 1).Ok? && Sealed(a, log2C, 1).value < Sealed(b, log2C, 1).value
  {
    CeilMonotone(a, b, Pow2(log2C));
  }

  lemma NextMultiple(a: int, b: int, c: int)
    requires c > 0 && a % c == 0 && b % c == 0 && a < b
    ensures a + c <= b
  {
    var i, j := a / c, b / c;
    assert a == i * c && b == j * c;
    if j <= i {
      MulLe(j, i, c);
    } else {
      MulLe(i + 1, j, c);
    }
  }

  lemma {:induction false} OneChunkFits(log2C: nat)
    requires ValidLog2(log2C)
    ensures Storable(Pow2(log2C), false, log2C)
  {
    ChunkBounds(log2C);
    var c := Pow2(log2C);
    CeilIs(c, c, 1);
    DivIs(c, c, 1);
  }

  lemma StepDown(plain: int, c: int)
    requires c > 0 && plain % c == 0
    ensures (plain - c) % c == 0
  {
    var k := plain / c;
    DivIs(plain - c, c, k - 1);
  }

  /** MaxPartPlaintext: the walk down from the cap finds the largest whole-chunk size,
      at every permitted chunk size. */
  method MaxPartPlaintext(log2C: nat) returns (r: Result<int>)
    ensures r.Ok? <==> ValidLog2(log2C)
    ensures r.Ok? ==> LargestWhole(r.value, log2C)
  {
    if !ValidLog2(log2C) {
      return Err;
    }
    var chunk := Pow2(log2C);
    OneChunkFits(log2C);
    var plain := MAX_PART_CIPHERTEXT / chunk * chunk;
    StartsAbove(log2C);
    while plain > 0
      invariant plain % chunk == 0
      invariant forall other: int :: Storable(other, false, log2C) ==> other <= plain
    {
      var sealed := Sealed(plain, log2C, 1);
      if sealed.Ok? && sealed.value <= MAX_PART_CIPHERTEXT {
        return Ok(plain);
      }
      forall other: int | Storable(other, false, log2C)
        ensures other <= plain - chunk
      {
        if other == plain {
          assert false;
        }
        NextMultiple(other, plain, chunk);
      }
      StepDown(plain, chunk);
      plain := plain - chunk;
    }
    assert false;
  }

  /** The largest multiple within a bound. */
  lemma LargestMultiple(x: int, bound: int, c: int)
    requires c > 0 && x % c == 0 && x <= bound
    ensures x <= bound / c * c
  {
    var k := bound / c;
    ModOfMultiple(k, c);
    if k * c < x {
      NextMultiple(k * c, x, c);
    }
  }

  lemma ModOfMultiple(k: int, c: int)
    requires c > 0
    ensures (k * c) % c == 0
  {
    ModIs(k * c, c, k);
  }

  lemma {:induction false} AboveAny(other: int, log2C: nat)
    requires ValidLog2(log2C) && Storable(other, false, log2C)
    ensures other <= MAX_PART_CIPHERTEXT / Pow2(log2C) * Pow2(log2C)
  {
    AtLeastOneChunk(other, Pow2(log2C));
    LargestMultiple(other, MAX_PART_CIPHERTEXT, Pow2(log2C));
  }

  lemma {:induction false} StartsAbove(log2C: nat)
    requires ValidLog2(log2C)
    ensures (MAX_PART_CIPHERTEXT / Pow2(log2C) * Pow2(log2C)) % Pow2(log2C) == 0
    ensures forall other: int :: Storable(other, false, log2C) ==> other <= MAX_PART_CIPHERTEXT / Pow2(log2C) * Pow2(log2C)
  {
    var c := Pow2(log2C);
    ModOfMultiple(MAX_PART_CIPHERTEXT / c, c);
    forall other: int | Storable(other, false, log2C)
      ensures other <= MAX_PART_CIPHERTEXT / c * c
    {
      AboveAny(other, log2C);
    }
  }

  lemma Pow2Values()
    ensures Pow2(12) == 0x1000 && Pow2(13) == 0x2000 && Pow2(14) == 0x4000 && Pow2(15) == 0x8000 && Pow2(16) == 0x1_0000
    ensures Pow2(17) == 0x2_0000 && Pow2(18) == 0x4_0000 && Pow2(19) == 0x8_0000 && Pow2(20) == 0x10_0000
  {
    assert Pow2(12) == 0x1000;
    assert Pow2(16) == 0x1_0000;
    assert Pow2(20) == 0x10_0000;
  }

  lemma MostIs(k: int, most: int, c: int)
    requires c > 0 && k * (c + TAG_SIZE) + HEADER_SIZE <= MAX_PART_CIPHERTEXT < (most + 1) * (c + TAG_SIZE) + HEADER_SIZE
    requires most * c <= k * c
    ensures k == most
  {
    assert (k + 1) * c == k * c + c;
    if k < most {
      MulLe(k + 1, most, c);
    } else if most < k {
      MulLe(most + 1, k, c + TAG_SIZE);
    }
  }

  lemma QuotientPositive(plain: int, c: int)
    requires c > 0 && plain > 0 && plain % c == 0
    ensures plain / c >= 1 && plain / c * c == plain
  {
    if plain / c <= 0 {
      MulLe(plain / c, 0, c);
    }
  }

  lemma {:induction false} LargestIs(plain: int, log2C: nat)
    requires ValidLog2(log2C) && LargestWhole(plain, log2C)
    ensures plain == MostChunks(log2C) * Pow2(log2C)
  {
    var c := Pow2(log2C);
    QuotientPositive(plain, c);
    WholeFits(plain / c, log2C);
    WholeFits(MostChunks(log2C), log2C);
    assert Storable(MostChunks(log2C) * c, false, log2C);
    MostIs(plain / c, MostChunks(log2C), c);
  }

  /** It is not the largest plaintext a part may carry: a last part may end in a
      partial chunk, and at every permitted chunk size one byte more still fits. */
  lemma {:induction false} LastPartMayBeLarger(plain: int, log2C: nat)
    requires ValidLog2(log2C) && LargestWhole(plain, log2C)
    ensures Storable(plain + 1, true, log2C)
  {
    LargestIs(plain, log2C);
    ChunkBounds(log2C);
    OneMore(MostChunks(log2C), Pow2(log2C));
  }

  lemma OneMore(k: int, c: int)
    requires c > 1 && k >= 1
    ensures Ceil(k * c + 1, c) == k + 1 && k * c >= c
    ensures k * (c + TAG_SIZE) == k * c + TAG_SIZE * k
  {
    CeilAdd(k, 1, c);
    CeilIs(1, c, 1);
    MulLe(1, k, c);
  }

  /** The whole chunks that fit. */
  function MostChunks(log2C: nat): (k: int)
    requires ValidLog2(log2C)
    ensures k >= 1
    ensures k * (Pow2(log2C) + TAG_SIZE) + HEADER_SIZE + TAG_SIZE < MAX_PART_CIPHERTEXT < (k + 1) * (Pow2(log2C) + TAG_SIZE) + HEADER_SIZE
  {
    Pow2Values();
    if log2C == 12 then 1305619 else if log2C == 13 then 654082 else if log2C == 14 then 327360
    else if log2C == 15 then 163760 else if log2C == 16 then 81900 else if log2C == 17 then 40955
    else if log2C == 18 then 20478 else if log2C == 19 then 10239 else 5119
  }

  lemma WholeIs(k: int, c: int)
    requires c > 0 && k >= 1
    ensures Ceil(k * c, c) == k && (k * c) % c == 0 && k * c >= c
    ensures k * (c + TAG_SIZE) == k * c + TAG_SIZE * k
  {
    CeilAdd(k, 0, c);
    CeilIs(0, c, 0);
    DivIs(k * c, c, k);
    MulLe(1, k, c);
  }

  lemma {:induction false} WholeFits(k: int, log2C: nat)
    requires ValidLog2(log2C) && k >= 1
    ensures Storable(k * Pow2(log2C), false, log2C) <==>
              k * (Pow2(log2C) + TAG_SIZE) + HEADER_SIZE <= MAX_PART_CIPHERTEXT
  {
    WholeIs(k, Pow2(log2C));
  }
}
