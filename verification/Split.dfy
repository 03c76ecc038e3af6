/** How encrypt-existing cuts a plaintext object into parts. */
module Split {
  import opened Base
  import opened Manifest
  import opened Parts
  import opened Sizes
  import Bytes

  const DEFAULT_PART_SIZE := 0x400_0000   // 64 << 20

  function RoundUp(x: int, c: int): int
    requires c > 0
  {
    Ceil(x, c) * c
  }

  lemma RoundUpIs(x: int, c: int)
    requires c > 0
    ensures x <= RoundUp(x, c) < x + c && RoundUp(x, c) % c == 0
  {
    CeilIs(x, c, Ceil(x, c));
    DivIs(RoundUp(x, c), c, Ceil(x, c));
  }

  /** Rounding up to a multiple stays under a multiple. */
  lemma RoundUpLe(x: int, bound: int, c: int)
    requires c > 0 && bound % c == 0
    ensures RoundUp(x, c) <= bound <==> x <= bound
  {
    RoundUpIs(x, c);
    if x <= bound < RoundUp(x, c) {
      NextMultiple(bound, RoundUp(x, c), c);
    }
  }

  /** The configured part size, as a run uses it. */
  function PartSize(configured: int, log2C: nat): int {
    RoundUp(if configured <= 0 then DEFAULT_PART_SIZE else configured, Pow2(log2C))
  }

  /** The configured size, 64 MiB where there is none, rounded up to whole chunks. */
  lemma PartSizeMeans(configured: int, log2C: nat)
    requires ValidLog2(log2C)
    ensures var wanted := if configured <= 0 then 67_108_864 else configured;
            wanted <= PartSize(configured, log2C) < wanted + Pow2(log2C) && PartSize(configured, log2C) % Pow2(log2C) == 0
  {
    RoundUpIs(if configured <= 0 then DEFAULT_PART_SIZE else configured, Pow2(log2C));
  }

  /** The largest part of whole chunks. */
  function MaxWhole(log2C: nat): int
    requires ValidLog2(log2C)
  {
    MostChunks(log2C) * Pow2(log2C)
  }

  /** Every part but the last has one size; the numbers count from 1. */
  predicate Even(layout: seq<Part>, size: int, salts: nat -> Salt) {
    forall i | 0 <= i < |layout| ::
      && layout[i].number == i + 1 && layout[i].salt == salts(i + 1)
      && 0 < layout[i].plain <= size && (i < |layout| - 1 ==> layout[i].plain == size)
  }

  /** The part size of a larger object: the configured one, or what 10,000 parts need. */
  method Choose(plainSize: int, configured: int, log2C: nat) returns (r: Result<int>)
    requires ValidLog2(log2C) && plainSize > PartSize(configured, log2C)
    ensures r.Err? <==> PartSize(configured, log2C) > MaxWhole(log2C) || plainSize > MAX_PARTS * MaxWhole(log2C)
    ensures r.Ok? ==> && 0 < r.value <= MaxWhole(log2C) && r.value % Pow2(log2C) == 0
                      && r.value < plainSize <= MAX_PARTS * r.value
  {
    var chunk := Pow2(log2C);
    ChunkBounds(log2C);
    var partSize := PartSize(configured, log2C);
    RoundUpIs(if configured <= 0 then DEFAULT_PART_SIZE else configured, chunk);
    var least := Ceil(plainSize, MAX_PARTS);
    CeilIs(plainSize, MAX_PARTS, least);
    var maxPart := MaxPartPlaintext(log2C);
    LargestIs(maxPart.value, log2C);
    if least > partSize {
      partSize := RoundUp(least, chunk);
      RoundUpIs(least, chunk);
      RoundUpLe(least, maxPart.value, chunk);
      RoundedFits(plainSize, least, chunk, PartSize(configured, log2C));
    }
    if partSize > maxPart.value {
      return Err;
    }
    return Ok(partSize);
  }

  lemma RoundedFits(plainSize: int, least: int, c: int, partSize: int)
    requires c > 0 && partSize > 0 && partSize % c == 0 && least > partSize && least == Ceil(plainSize, MAX_PARTS)
    ensures RoundUp(least, c) < plainSize
  {
    CeilIs(plainSize, MAX_PARTS, least);
    RoundUpIs(least, c);
    NextMultiple(0, partSize, c);
  }

  /** The loop that writes the parts: the sizes add up, every part is lawful. */
  method Cut(plainSize: int, partSize: int, log2C: nat, salts: nat -> Salt) returns (layout: seq<Part>)
    requires ValidLog2(log2C) && 0 < partSize <= MaxWhole(log2C) && partSize % Pow2(log2C) == 0
    requires 0 < plainSize <= MAX_PARTS * partSize
    ensures LawfulParts(layout, log2C) && SumPlain(layout) == plainSize && Even(layout, partSize, salts)
  {
    layout := [];
    var left := plainSize;
    while left > 0
      invariant 0 <= left && SumPlain(layout) + left == plainSize && |layout| <= MAX_PARTS
      invariant left > 0 ==> |layout| * partSize + left == plainSize
      invariant Even(layout, partSize, salts)
      invariant left > 0 ==> forall i | 0 <= i < |layout| :: layout[i].plain == partSize
    {
      var number := |layout| + 1;
      var size := if partSize < left then partSize else left;
      var part := Part(number, size, salts(number));
      SumPlainAppend(layout, part);
      CountStaysBelow(|layout|, partSize, left, plainSize);
      layout := layout + [part];
      left := left - size;
    }
    EvenIsLawful(layout, partSize, log2C, salts);
  }

  lemma CountStaysBelow(n: int, size: int, left: int, total: int)
    requires 0 < size && 0 < left && n * size + left == total <= MAX_PARTS * size
    ensures n < MAX_PARTS && (n + 1) * size == n * size + size
  {
    if n >= MAX_PARTS {
      MulLe(MAX_PARTS, n, size);
    }
  }

  lemma {:induction false} SumPlainAppend(parts: seq<Part>, p: Part)
    ensures SumPlain(parts + [p]) == SumPlain(parts) + p.plain
  {
    if parts == [] {
      assert [] + [p] == [p];
    } else {
      SumPlainAppend(parts[1..], p);
      assert (parts + [p])[1..] == parts[1..] + [p];
    }
  }

  lemma EvenIsLawful(layout: seq<Part>, size: int, log2C: nat, salts: nat -> Salt)
    requires ValidLog2(log2C) && size <= MaxWhole(log2C) && size % Pow2(log2C) == 0
    requires Even(layout, size, salts) && 1 <= |layout| <= MAX_PARTS
    ensures LawfulParts(layout, log2C)
  {
    WholeFits(MostChunks(log2C), log2C);
    forall i | 0 <= i < |layout|
      ensures Storable(layout[i].plain, i == |layout| - 1, log2C)
    {
      if layout[i].plain < MaxWhole(log2C) {
        SealedMonotone(layout[i].plain, MaxWhole(log2C), log2C);
      }
    }
  }

  /** write: one segment, or a multipart object whose parts the completion rules accept;
      refused only where even the largest parts would not do. */
  method Layout(plainSize: int, configured: int, log2C: nat, salts: nat -> Salt)
    returns (r: Result<Option<seq<Part>>>)
    requires ValidLog2(log2C)
    ensures r == Ok(None) <==> plainSize <= PartSize(configured, log2C)
    ensures r.Err? <==> && plainSize > PartSize(configured, log2C)
                        && (PartSize(configured, log2C) > MaxWhole(log2C) || plainSize > MAX_PARTS * MaxWhole(log2C))
    ensures r.Ok? && r.value.Some? ==> LawfulParts(r.value.value, log2C) && SumPlain(r.value.value) == plainSize
  {
    if plainSize <= PartSize(configured, log2C) {
      return Ok(None);
    }
    ChunkBounds(log2C);
    var partSize := Choose(plainSize, configured, log2C);
    if partSize.Err? {
      return Err;
    }
    var layout := Cut(plainSize, partSize.value, log2C, salts);
    return Ok(Some(layout));
  }

  /** A lawful layout makes a manifest Marshal accepts, provided the names fit. */
  lemma LawfulIsValid(layout: seq<Part>, log2C: nat, bucket: seq<Bytes.byte>, key: seq<Bytes.byte>, id: Id)
    requires LawfulParts(layout, log2C) && |bucket| <= Bytes.MAX_FIELD && |key| <= Bytes.MAX_FIELD
    ensures Valid(Manifest(bucket, key, id, layout, false))
  {
    forall i | 0 <= i < |layout|
      ensures 0 <= layout[i].plain <= MAX_PLAINTEXT
    {
      assert Storable(layout[i].plain, i == |layout| - 1, log2C);
    }
  }
}
