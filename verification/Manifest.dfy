/**
The authenticated part list of a multipart object: its bytes, and back.  The MAC
is uninterpreted: `Mac` maps a key and a message to 32 bytes.
*/
module Manifest {
  import opened Base
  import opened Bytes
  import Sizes

  const ID_SIZE := 16
  const MAC_SIZE := 32
  const SALT_SIZE := 20
  const KEY_SIZE := 32
  const MAGIC: seq<byte> := [66, 66, 77, 50]      // BBM2
  const MAGIC_V1: seq<byte> := [66, 66, 77, 49]   // BBM1, without part salts

  type Id = s: seq<byte> | |s| == ID_SIZE witness [0, 0, 0, 0, 0, 0, 0, 0, 0, 0, 0, 0, 0, 0, 0, 0]
  type Salt = s: seq<byte> | |s| == SALT_SIZE witness [0, 0, 0, 0, 0, 0, 0, 0, 0, 0, 0, 0, 0, 0, 0, 0, 0, 0, 0, 0]
  type Tag = s: seq<byte> | |s| == MAC_SIZE witness [0, 0, 0, 0, 0, 0, 0, 0, 0, 0, 0, 0, 0, 0, 0, 0, 0, 0, 0, 0, 0, 0, 0, 0, 0, 0, 0, 0, 0, 0, 0, 0]
  type Mac = (seq<byte>, seq<byte>) -> Tag

  const NO_ID: Id := [0, 0, 0, 0, 0, 0, 0, 0, 0, 0, 0, 0, 0, 0, 0, 0]
  const NO_SALT: Salt := [0, 0, 0, 0, 0, 0, 0, 0, 0, 0, 0, 0, 0, 0, 0, 0, 0, 0, 0, 0]

  datatype Part = Part(number: nat, plain: int, salt: Salt)

  datatype Manifest = Manifest(bucket: seq<byte>, key: seq<byte>, id: Id, parts: seq<Part>, legacy: bool)

  /** The structural rules, in both directions: part numbers ascend strictly, and
      nothing exceeds what its field can hold. */
  predicate Valid(m: Manifest) {
    && 1 <= |m.parts| <= Sizes.MAX_PARTS
    && |m.bucket| <= MAX_FIELD && |m.key| <= MAX_FIELD
    && ValidParts(m.parts)
  }

  predicate ValidParts(parts: seq<Part>) {
    && (forall i | 0 <= i < |parts| ::
          1 <= parts[i].number <= Sizes.MAX_PARTS && 0 <= parts[i].plain <= Sizes.MAX_PLAINTEXT)
    && (forall i | 0 < i < |parts| :: parts[i - 1].number < parts[i].number)
  }

  /** validate: the loop over the part list. */
  method Validate(m: Manifest) returns (ok: bool)
    ensures ok <==> Valid(m)
  {
    if |m.parts| == 0 || |m.parts| > Sizes.MAX_PARTS || |m.bucket| > MAX_FIELD || |m.key| > MAX_FIELD {
      return false;
    }
    var previous := 0;
    for i := 0 to |m.parts|
      invariant ValidParts(m.parts[..i])
      invariant i > 0 ==> previous == m.parts[i - 1].number
    {
      var p := m.parts[i];
      if p.number < 1 || p.number > Sizes.MAX_PARTS {
        return false;
      }
      if i > 0 && p.number <= previous {
        return false;
      }
      previous := p.number;
      if p.plain < 0 || p.plain > Sizes.MAX_PLAINTEXT {
        return false;
      }
    }
    assert m.parts[..|m.parts|] == m.parts;
    return true;
  }

  // ---------------------------------------------------------------- printing

  function Entry(p: Part, legacy: bool): seq<byte>
    requires p.plain >= 0
  {
    BigEndian(2, p.number) + BigEndian(8, p.plain) + if legacy then [] else p.salt
  }

  function Entries(parts: seq<Part>, legacy: bool): seq<byte>
    requires forall i | 0 <= i < |parts| :: parts[i].plain >= 0
  {
    if parts == [] then [] else Entry(parts[0], legacy) + Entries(parts[1..], legacy)
  }

  function Magic(legacy: bool): seq<byte> { if legacy then MAGIC_V1 else MAGIC }

  function NamesBytes(bucket: seq<byte>, key: seq<byte>): seq<byte> { Field(bucket) + Field(key) }

  function IdCount(id: Id, count: nat): seq<byte> { id + BigEndian(2, count) }

  /** The body, in the format the manifest was read from. */
  function Body(m: Manifest): seq<byte>
    requires forall i | 0 <= i < |m.parts| :: m.parts[i].plain >= 0
  {
    Magic(m.legacy) + NamesBytes(m.bucket, m.key) + IdCount(m.id, |m.parts|) + Entries(m.parts, m.legacy)
  }

  lemma EntriesAppend(a: seq<Part>, p: Part, legacy: bool)
    requires p.plain >= 0 && forall i | 0 <= i < |a| :: a[i].plain >= 0
    ensures Entries(a + [p], legacy) == Entries(a, legacy) + Entry(p, legacy)
  {
    if a == [] {
      assert a + [p] == [p];
      assert Entries([p], legacy) == Entry(p, legacy) + Entries([], legacy);
    } else {
      EntriesAppend(a[1..], p, legacy);
      assert (a + [p])[1..] == a[1..] + [p];
    }
  }

  const ENTRY_SIZE := 30

  /** Where the i-th part stands among the entries, and its bytes. */
  lemma {:induction false} EntryAt(parts: seq<Part>, i: nat)
    requires i < |parts| && forall j | 0 <= j < |parts| :: parts[j].plain >= 0
    ensures |Entries(parts, false)| == ENTRY_SIZE * |parts|
    ensures Entries(parts, false)[ENTRY_SIZE * i..ENTRY_SIZE * i + ENTRY_SIZE] ==
            BigEndian(2, parts[i].number) + BigEndian(8, parts[i].plain) + parts[i].salt
  {
    var first, rest := Entry(parts[0], false), Entries(parts[1..], false);
    EntriesSize(parts[1..]);
    if i > 0 {
      EntryAt(parts[1..], i - 1);
      assert |first| == ENTRY_SIZE;
      SliceAfter(first, rest, ENTRY_SIZE * (i - 1), ENTRY_SIZE * (i - 1) + ENTRY_SIZE);
    } else {
      assert (first + rest)[0..ENTRY_SIZE] == first;
    }
  }

  lemma {:induction false} EntriesSize(parts: seq<Part>)
    requires forall j | 0 <= j < |parts| :: parts[j].plain >= 0
    ensures |Entries(parts, false)| == ENTRY_SIZE * |parts|
  {
    if parts != [] {
      EntriesSize(parts[1..]);
    }
  }

  /** The bytes of a body: BBM2, the bucket and the key with their lengths, the id, the number
      of parts, and 30 bytes for each: its number, its size and its salt. */
  lemma {:induction false} BodyLayout(m: Manifest, i: nat)
    requires !m.legacy && i < |m.parts| && forall j | 0 <= j < |m.parts| :: m.parts[j].plain >= 0
    ensures var b, at := Body(m), 4 + 2 + |m.bucket| + 2 + |m.key| + 16 + 2;
            && |b| == at + 30 * |m.parts|
            && b[..at] == [66, 66, 77, 50] + (BigEndian(2, |m.bucket|) + m.bucket + (BigEndian(2, |m.key|) + m.key)) +
                          (m.id + BigEndian(2, |m.parts|))
            && b[at + 30 * i..at + 30 * i + 30] ==
               BigEndian(2, m.parts[i].number) + BigEndian(8, m.parts[i].plain) + m.parts[i].salt
  {
    var head := Magic(false) + NamesBytes(m.bucket, m.key) + IdCount(m.id, |m.parts|);
    var at := |head|;
    EntryAt(m.parts, i);
    assert Body(m) == head + Entries(m.parts, false);
    SliceAfter(head, Entries(m.parts, false), 30 * i, 30 * i + 30);
  }

  /** Marshal: a buffer grown field by field, then its MAC; always in the current format. */
  method Marshal(mac: Mac, dek: seq<byte>, m: Manifest) returns (r: Result<seq<byte>>)
    ensures r.Ok? <==> Valid(m) && |dek| == KEY_SIZE
    ensures r.Ok? ==> var now := m.(legacy := false); r.value == Body(now) + mac(dek, Body(now))
  {
    var ok := Validate(m);
    if !ok || |dek| != KEY_SIZE {
      return Err;
    }
    var out := MAGIC;
    out := out + BigEndian(2, |m.bucket|) + m.bucket;
    out := out + BigEndian(2, |m.key|) + m.key;
    out := out + m.id;
    out := out + BigEndian(2, |m.parts|);
    ghost var head := out;
    assert head == Magic(false) + NamesBytes(m.bucket, m.key) + IdCount(m.id, |m.parts|);
    for i := 0 to |m.parts|
      invariant out == head + Entries(m.parts[..i], false)
    {
      var p := m.parts[i];
      EntriesAppend(m.parts[..i], p, false);
      assert m.parts[..i] + [p] == m.parts[..i + 1];
      out := out + BigEndian(2, p.number);
      out := out + BigEndian(8, p.plain);
      out := out + p.salt;
    }
    assert m.parts[..|m.parts|] == m.parts;
    assert out == Body(m.(legacy := false));
    return Ok(out + mac(dek, out));
  }

  // ----------------------------------------------------------------- parsing

  function Take(s: seq<byte>, n: nat): Result<(seq<byte>, seq<byte>)> {
    if |s| < n then Err else Ok((s[..n], s[n..]))
  }

  function TakeInt(s: seq<byte>, width: nat): Result<(nat, seq<byte>)> {
    if |s| < width then Err else Ok((Value(s[..width]), s[width..]))
  }

  function TakeField(s: seq<byte>): Result<(seq<byte>, seq<byte>)> {
    var n := TakeInt(s, 2);
    if n.Err? then Err else Take(n.value.1, n.value.0)
  }

  function TakePart(s: seq<byte>, legacy: bool): Result<(Part, seq<byte>)> {
    var number := TakeInt(s, 2);
    if number.Err? then Err else
    var size := TakeInt(number.value.1, 8);
    if size.Err? || size.value.0 > Sizes.MAX_PLAINTEXT then Err else
    if legacy then Ok((Part(number.value.0, size.value.0, NO_SALT), size.value.1)) else
    var salt := Take(size.value.1, SALT_SIZE);
    if salt.Err? then Err else Ok((Part(number.value.0, size.value.0, salt.value.0), salt.value.1))
  }

  function TakeParts(s: seq<byte>, count: nat, legacy: bool): Result<(seq<Part>, seq<byte>)> {
    if count == 0 then Ok(([], s)) else
    var first := TakePart(s, legacy);
    if first.Err? then Err else
    var rest := TakeParts(first.value.1, count - 1, legacy);
    if rest.Err? then Err else Ok(([first.value.0] + rest.value.0, rest.value.1))
  }

  datatype Header = Header(legacy: bool, bucket: seq<byte>, key: seq<byte>, id: Id, count: nat)

  function TakeMagic(s: seq<byte>): Result<(bool, seq<byte>)> {
    if |s| < 4 || (s[..4] != MAGIC && s[..4] != MAGIC_V1) then Err else Ok((s[..4] == MAGIC_V1, s[4..]))
  }

  function TakeNames(s: seq<byte>): Result<(seq<byte>, seq<byte>, seq<byte>)> {
    var bucket := TakeField(s);
    if bucket.Err? then Err else
    var key := TakeField(bucket.value.1);
    if key.Err? then Err else Ok((bucket.value.0, key.value.0, key.value.1))
  }

  function TakeIdCount(s: seq<byte>): Result<(Id, nat, seq<byte>)> {
    if |s| < ID_SIZE then Err else
    var count := TakeInt(s[ID_SIZE..], 2);
    if count.Err? then Err else Ok((s[..ID_SIZE], count.value.0, count.value.1))
  }

  function TakeHeader(s: seq<byte>): Result<(Header, seq<byte>)> {
    var magic := TakeMagic(s);
    if magic.Err? then Err else
    var names := TakeNames(magic.value.1);
    if names.Err? then Err else
    var rest := TakeIdCount(names.value.2);
    if rest.Err? then Err else
    Ok((Header(magic.value.0, names.value.0, names.value.1, rest.value.0, rest.value.1), rest.value.2))
  }

  function ParseBody(body: seq<byte>): Result<Manifest> {
    var header := TakeHeader(body);
    if header.Err? then Err else
    var (h, rest) := header.value;
    Assembled(h, TakeParts(rest, h.count, h.legacy))
  }

  function Assembled(h: Header, parts: Result<(seq<Part>, seq<byte>)>): Result<Manifest> {
    if parts.Err? || parts.value.1 != [] then Err
    else Ok(Manifest(h.bucket, h.key, h.id, parts.value.0, h.legacy))
  }

  /** The bounds-checked cursor parseBody moves over the body. */
  class Reader {
    const buf: seq<byte>
    var pos: nat

    ghost predicate Inside() reads this { pos <= |buf| }

    ghost function Rest(): seq<byte>
      requires Inside()
      reads this
    {
      buf[pos..]
    }

    constructor (buf: seq<byte>)
      ensures this.buf == buf && Inside() && Rest() == buf
    {
      this.buf := buf;
      pos := 0;
    }

    method Next(n: nat) returns (out: seq<byte>, ok: bool)
      requires Inside()
      modifies this
      ensures Inside()
      ensures ok <==> Take(old(Rest()), n).Ok?
      ensures ok ==> Take(old(Rest()), n) == Ok((out, Rest()))
      ensures !ok ==> pos == old(pos)
    {
      if |buf| - pos < n {
        return [], false;
      }
      out := buf[pos..pos + n];
      assert buf[pos..][..n] == out && buf[pos..][n..] == buf[pos + n..];
      pos := pos + n;
      return out, true;
    }

    method Int(width: nat) returns (v: nat, ok: bool)
      requires Inside()
      modifies this
      ensures Inside()
      ensures ok <==> TakeInt(old(Rest()), width).Ok?
      ensures ok ==> TakeInt(old(Rest()), width) == Ok((v, Rest()))
    {
      var b, have := Next(width);
      if !have {
        return 0, false;
      }
      return Value(b), true;
    }

    method FieldOf() returns (s: seq<byte>, ok: bool)
      requires Inside()
      modifies this
      ensures Inside()
      ensures ok <==> TakeField(old(Rest())).Ok?
      ensures ok ==> TakeField(old(Rest())) == Ok((s, Rest()))
    {
      var n, have := Int(2);
      if !have {
        return [], false;
      }
      s, ok := Next(n);
    }

    method PartOf(legacy: bool) returns (p: Part, ok: bool)
      requires Inside()
      modifies this
      ensures Inside()
      ensures ok <==> TakePart(old(Rest()), legacy).Ok?
      ensures ok ==> TakePart(old(Rest()), legacy) == Ok((p, Rest()))
    {
      p := Part(0, 0, NO_SALT);
      var number, ok1 := Int(2);
      if !ok1 {
        return p, false;
      }
      var size, ok2 := Int(8);
      if !ok2 || size > Sizes.MAX_PLAINTEXT {
        return p, false;
      }
      if legacy {
        return Part(number, size, NO_SALT), true;
      }
      var salt, ok3 := Next(SALT_SIZE);
      if !ok3 {
        return p, false;
      }
      return Part(number, size, salt), true;
    }

    method NamesOf() returns (bucket: seq<byte>, key: seq<byte>, ok: bool)
      requires Inside()
      modifies this
      ensures Inside()
      ensures ok <==> TakeNames(old(Rest())).Ok?
      ensures ok ==> TakeNames(old(Rest())) == Ok((bucket, key, Rest()))
    {
      bucket, ok := FieldOf();
      if !ok {
        return [], [], false;
      }
      key, ok := FieldOf();
    }

    method HeaderOf() returns (h: Header, ok: bool)
      requires Inside()
      modifies this
      ensures Inside()
      ensures ok <==> TakeHeader(old(Rest())).Ok?
      ensures ok ==> TakeHeader(old(Rest())) == Ok((h, Rest()))
    {
      h := Header(false, [], [], NO_ID, 0);
      var magic, ok0 := Next(4);
      if !ok0 || (magic != MAGIC && magic != MAGIC_V1) {
        return h, false;
      }
      var bucket, key, ok1 := NamesOf();
      if !ok1 {
        return h, false;
      }
      var id, ok2 := Next(ID_SIZE);
      if !ok2 {
        return h, false;
      }
      var count, ok3 := Int(2);
      if !ok3 {
        return h, false;
      }
      return Header(magic == MAGIC_V1, bucket, key, id, count), true;
    }
  }

  /** The entries already read and one more. */
  lemma {:induction false} TakePartsStep(s: seq<byte>, i: nat, n: nat, legacy: bool)
    requires TakeParts(s, i, legacy).Ok? && n > 0
    ensures var (done, here) := TakeParts(s, i, legacy).value;
            var next := TakePart(here, legacy);
            if next.Err? then TakeParts(s, i + n, legacy) == Err
            else TakeParts(s, i + 1, legacy) == Ok((done + [next.value.0], next.value.1))
    decreases i
  {
    if i > 0 {
      var first := TakePart(s, legacy).value;
      TakePartsStep(first.1, i - 1, n, legacy);
      var (done, here) := TakeParts(first.1, i - 1, legacy).value;
      var next := TakePart(here, legacy);
      if next.Ok? {
        assert [first.0] + (done + [next.value.0]) == ([first.0] + done) + [next.value.0];
      }
    } else {
      var next := TakePart(s, legacy);
      if next.Ok? {
        assert TakeParts(next.value.1, 0, legacy) == Ok(([], next.value.1));
        assert [next.value.0] + [] == [] + [next.value.0];
      }
    }
  }

  /** parseBody, part by part. */
  method ParseParts(r: Reader, count: nat, legacy: bool) returns (parts: seq<Part>, ok: bool)
    requires r.Inside()
    modifies r
    ensures r.Inside()
    ensures ok <==> TakeParts(old(r.Rest()), count, legacy).Ok?
    ensures ok ==> TakeParts(old(r.Rest()), count, legacy) == Ok((parts, r.Rest()))
  {
    ghost var start := r.Rest();
    parts := [];
    for i := 0 to count
      invariant r.Inside()
      invariant TakeParts(start, i, legacy) == Ok((parts, r.Rest()))
    {
      TakePartsStep(start, i, count - i, legacy);
      var p, have := r.PartOf(legacy);
      if !have {
        return [], false;
      }
      parts := parts + [p];
    }
    return parts, true;
  }

  method ParseRest(r: Reader, h: Header) returns (m: Result<Manifest>)
    requires r.Inside()
    modifies r
    ensures m == Assembled(h, TakeParts(old(r.Rest()), h.count, h.legacy))
  {
    var parts, ok := ParseParts(r, h.count, h.legacy);
    if !ok || r.pos != |r.buf| {
      return Err;
    }
    return Ok(Manifest(h.bucket, h.key, h.id, parts, h.legacy));
  }

  method Parse(body: seq<byte>) returns (m: Result<Manifest>)
    ensures m == ParseBody(body)
  {
    var r := new Reader(body);
    var h, ok := r.HeaderOf();
    if !ok {
      return Err;
    }
    m := ParseRest(r, h);
  }

  // ------------------------------------------------------- print, then parse

  lemma TakeIntOf(width: nat, v: nat, rest: seq<byte>)
    requires v < Pow256(width)
    ensures TakeInt(BigEndian(width, v) + rest, width) == Ok((v, rest))
  {
    ValueOfBigEndian(width, v);
    var s := BigEndian(width, v) + rest;
    assert s[..width] == BigEndian(width, v) && s[width..] == rest;
  }

  lemma TakeFieldOf(f: seq<byte>, rest: seq<byte>)
    requires |f| <= MAX_FIELD
    ensures TakeField(Field(f) + rest) == Ok((f, rest))
  {
    Widths();
    Assoc(BigEndian(2, |f|), f, rest);
    TakeIntOf(2, |f|, f + rest);
    assert (f + rest)[..|f|] == f && (f + rest)[|f|..] == rest;
  }

  lemma TakePartOf(p: Part, legacy: bool, rest: seq<byte>)
    requires p.number <= MAX_FIELD && 0 <= p.plain <= Sizes.MAX_PLAINTEXT && (legacy ==> p.salt == NO_SALT)
    ensures TakePart(Entry(p, legacy) + rest, legacy) == Ok((p, rest))
  {
    Widths();
    var salt := if legacy then [] else p.salt;
    Assoc(BigEndian(2, p.number) + BigEndian(8, p.plain), salt, rest);
    Assoc(BigEndian(2, p.number), BigEndian(8, p.plain), salt + rest);
    TakeIntOf(2, p.number, BigEndian(8, p.plain) + (salt + rest));
    TakeIntOf(8, p.plain, salt + rest);
    assert (salt + rest)[..|salt|] == salt && (salt + rest)[|salt|..] == rest;
  }

  lemma {:induction false} TakePartsOf(parts: seq<Part>, legacy: bool, rest: seq<byte>)
    requires forall i | 0 <= i < |parts| ::
               parts[i].number <= MAX_FIELD && 0 <= parts[i].plain <= Sizes.MAX_PLAINTEXT
               && (legacy ==> parts[i].salt == NO_SALT)
    ensures TakeParts(Entries(parts, legacy) + rest, |parts|, legacy) == Ok((parts, rest))
  {
    if parts != [] {
      TakePartsOf(parts[1..], legacy, rest);
      TakePartOf(parts[0], legacy, Entries(parts[1..], legacy) + rest);
      Assoc(Entry(parts[0], legacy), Entries(parts[1..], legacy), rest);
      assert parts == [parts[0]] + parts[1..];
    } else {
      assert [] + rest == rest;
    }
  }

  function HeaderBytes(h: Header): seq<byte> {
    Magic(h.legacy) + NamesBytes(h.bucket, h.key) + IdCount(h.id, h.count)
  }

  lemma TakeMagicOf(legacy: bool, rest: seq<byte>)
    ensures TakeMagic(Magic(legacy) + rest) == Ok((legacy, rest))
  {
    var s := Magic(legacy) + rest;
    assert s[..4] == Magic(legacy) && s[4..] == rest;
    assert MAGIC[3] != MAGIC_V1[3];
  }

  lemma TakeNamesOf(bucket: seq<byte>, key: seq<byte>, rest: seq<byte>)
    requires |bucket| <= MAX_FIELD && |key| <= MAX_FIELD
    ensures TakeNames(NamesBytes(bucket, key) + rest) == Ok((bucket, key, rest))
  {
    TakeFieldOf(bucket, Field(key) + rest);
    TakeFieldOf(key, rest);
    Assoc(Field(bucket), Field(key), rest);
  }

  lemma TakeIdCountOf(id: Id, count: nat, rest: seq<byte>)
    requires count <= MAX_FIELD
    ensures TakeIdCount(IdCount(id, count) + rest) == Ok((id, count, rest))
  {
    Widths();
    TakeIntOf(2, count, rest);
    var s := IdCount(id, count) + rest;
    Assoc(id, BigEndian(2, count), rest);
    assert s[..ID_SIZE] == id && s[ID_SIZE..] == BigEndian(2, count) + rest;
  }

  lemma TakeHeaderOf(h: Header, rest: seq<byte>)
    requires |h.bucket| <= MAX_FIELD && |h.key| <= MAX_FIELD && h.count <= MAX_FIELD
    ensures TakeHeader(HeaderBytes(h) + rest) == Ok((h, rest))
  {
    var a, b, c := Magic(h.legacy), NamesBytes(h.bucket, h.key), IdCount(h.id, h.count);
    TakeMagicOf(h.legacy, b + (c + rest));
    TakeNamesOf(h.bucket, h.key, c + rest);
    TakeIdCountOf(h.id, h.count, rest);
    Assoc(a + b, c, rest);
    Assoc(a, b, c + rest);
  }

  /** Every valid manifest is read back as it was. */
  lemma ParseOfBody(m: Manifest)
    requires Valid(m) && (m.legacy ==> forall i | 0 <= i < |m.parts| :: m.parts[i].salt == NO_SALT)
    ensures ParseBody(Body(m)) == Ok(m)
  {
    var h := Header(m.legacy, m.bucket, m.key, m.id, |m.parts|);
    TakeHeaderOf(h, Entries(m.parts, m.legacy));
    assert Body(m) == HeaderBytes(h) + Entries(m.parts, m.legacy);
    TakePartsOf(m.parts, m.legacy, []);
    assert Entries(m.parts, m.legacy) + [] == Entries(m.parts, m.legacy);
  }

  // ------------------------------------------------------- parse, then print

  lemma TakeIntIs(s: seq<byte>, width: nat)
    requires TakeInt(s, width).Ok?
    ensures var (v, rest) := TakeInt(s, width).value;
            v < Pow256(width) && s == BigEndian(width, v) + rest
  {
    BigEndianOfValue(s[..width]);
    assert s == s[..width] + s[width..];
  }

  lemma TakeFieldIs(s: seq<byte>)
    requires TakeField(s).Ok?
    ensures var (f, rest) := TakeField(s).value;
            |f| <= MAX_FIELD && s == Field(f) + rest
  {
    Widths();
    TakeIntIs(s, 2);
    var (n, t) := TakeInt(s, 2).value;
    assert t == t[..n] + t[n..];
    Assoc(BigEndian(2, n), t[..n], t[n..]);
  }

  lemma TakePartIs(s: seq<byte>, legacy: bool)
    requires TakePart(s, legacy).Ok?
    ensures var (p, rest) := TakePart(s, legacy).value;
            p.plain >= 0 && s == Entry(p, legacy) + rest
  {
    TakeIntIs(s, 2);
    var t := TakeInt(s, 2).value.1;
    TakeIntIs(t, 8);
    var u := TakeInt(t, 8).value.1;
    var (p, rest) := TakePart(s, legacy).value;
    var salt := if legacy then [] else p.salt;
    assert u == salt + rest;
    Assoc(BigEndian(2, p.number) + BigEndian(8, p.plain), salt, rest);
    Assoc(BigEndian(2, p.number), BigEndian(8, p.plain), salt + rest);
  }

  lemma {:induction false} TakePartsIs(s: seq<byte>, count: nat, legacy: bool)
    requires TakeParts(s, count, legacy).Ok?
    ensures var (parts, rest) := TakeParts(s, count, legacy).value;
            && |parts| == count
            && (forall i | 0 <= i < |parts| :: parts[i].plain >= 0)
            && s == Entries(parts, legacy) + rest
    decreases count
  {
    if count > 0 {
      TakePartIs(s, legacy);
      var (p, t) := TakePart(s, legacy).value;
      TakePartsIs(t, count - 1, legacy);
      var (ps, rest) := TakeParts(t, count - 1, legacy).value;
      assert ([p] + ps)[1..] == ps;
      Assoc(Entry(p, legacy), Entries(ps, legacy), rest);
    } else {
      assert s == [] + s;
    }
  }

  lemma TakeNamesIs(s: seq<byte>)
    requires TakeNames(s).Ok?
    ensures var (bucket, key, rest) := TakeNames(s).value;
            s == NamesBytes(bucket, key) + rest
  {
    TakeFieldIs(s);
    var (bucket, t) := TakeField(s).value;
    TakeFieldIs(t);
    var (key, rest) := TakeField(t).value;
    Assoc(Field(bucket), Field(key), rest);
  }

  lemma TakeIdCountIs(s: seq<byte>)
    requires TakeIdCount(s).Ok?
    ensures var (id, count, rest) := TakeIdCount(s).value;
            s == IdCount(id, count) + rest
  {
    var t := s[ID_SIZE..];
    TakeIntIs(t, 2);
    var (count, rest) := TakeInt(t, 2).value;
    assert s == s[..ID_SIZE] + t;
    Assoc(s[..ID_SIZE], BigEndian(2, count), rest);
  }

  lemma TakeHeaderIs(s: seq<byte>)
    requires TakeHeader(s).Ok?
    ensures var (h, rest) := TakeHeader(s).value;
            s == HeaderBytes(h) + rest
  {
    var (legacy, t) := TakeMagic(s).value;
    assert s == Magic(legacy) + t;
    TakeNamesIs(t);
    var (bucket, key, u) := TakeNames(t).value;
    TakeIdCountIs(u);
    var (id, count, rest) := TakeIdCount(u).value;
    var a, b, c := Magic(legacy), NamesBytes(bucket, key), IdCount(id, count);
    Assoc(a + b, c, rest);
    Assoc(a, b, c + rest);
  }

  /** A body the parser accepts is the one body of what it parsed, in either
      format: no two byte strings parse to the same manifest. */
  lemma BodyOfParse(body: seq<byte>)
    requires ParseBody(body).Ok?
    ensures var m := ParseBody(body).value;
            && (forall i | 0 <= i < |m.parts| :: m.parts[i].plain >= 0)
            && Body(m) == body
  {
    TakeHeaderIs(body);
    var (h, s) := TakeHeader(body).value;
    TakePartsIs(s, h.count, h.legacy);
    var (parts, rest) := TakeParts(s, h.count, h.legacy).value;
    assert Entries(parts, h.legacy) + [] == Entries(parts, h.legacy);
  }

  // --------------------------------------------------------------- Unmarshal

  predicate Names(m: Manifest, bucket: seq<byte>, key: seq<byte>, id: Id) {
    m.bucket == bucket && m.key == key && m.id == id
  }

  /** Unmarshal: the MAC first, then the structure, the identity and the rules. */
  method Unmarshal(mac: Mac, dek: seq<byte>, bucket: seq<byte>, key: seq<byte>, id: Id, raw: seq<byte>)
    returns (r: Result<Manifest>)
    ensures r.Ok? ==> Accepts(mac, dek, bucket, key, id, raw, r.value)
    ensures r.Err? ==> forall m :: !Accepts(mac, dek, bucket, key, id, raw, m)
  {
    if |raw| < MAC_SIZE + |MAGIC| {
      return Err;
    }
    var split := |raw| - MAC_SIZE;
    var body, sent := raw[..split], raw[split..];
    if |dek| != KEY_SIZE || sent != mac(dek, body) {
      return Err;
    }
    r := Parse(body);
    if r.Err? {
      return;
    }
    var m := r.value;
    if m.id != id || m.bucket != bucket || m.key != key {
      return Err;
    }
    var ok := Validate(m);
    if !ok {
      return Err;
    }
  }

  /** What Unmarshal checks. */
  ghost predicate Accepts(mac: Mac, dek: seq<byte>, bucket: seq<byte>, key: seq<byte>, id: Id,
                          raw: seq<byte>, m: Manifest) {
    && |raw| >= MAC_SIZE && |dek| == KEY_SIZE
    && var split := |raw| - MAC_SIZE;
    && raw[split..] == mac(dek, raw[..split])
    && ParseBody(raw[..split]) == Ok(m)
    && Names(m, bucket, key, id) && Valid(m)
  }

  lemma SplitTail(raw: seq<byte>, body: seq<byte>, tag: Tag)
    ensures raw == body + tag <==>
              |raw| >= MAC_SIZE && raw[..|raw| - MAC_SIZE] == body && raw[|raw| - MAC_SIZE..] == tag
  {
    if |raw| >= MAC_SIZE {
      assert raw == raw[..|raw| - MAC_SIZE] + raw[|raw| - MAC_SIZE..];
    }
  }

  /** A body parses to a valid m if and only if it is m's body. */
  lemma ParsesExactly(body: seq<byte>, m: Manifest)
    requires Valid(m) && (m.legacy ==> forall i | 0 <= i < |m.parts| :: m.parts[i].salt == NO_SALT)
    ensures ParseBody(body) == Ok(m) <==> body == Body(m)
  {
    ParseOfBody(m);
    if ParseBody(body) == Ok(m) {
      BodyOfParse(body);
    }
  }

  /** Unmarshal accepts exactly the output of Marshal (or its predecessor) on a valid
      manifest of the identity asked for: nothing else that carries a correct MAC. */
  lemma AcceptsExactly(mac: Mac, dek: seq<byte>, bucket: seq<byte>, key: seq<byte>, id: Id,
                       raw: seq<byte>, m: Manifest)
    requires Valid(m) && |dek| == KEY_SIZE
    requires m.legacy ==> forall i | 0 <= i < |m.parts| :: m.parts[i].salt == NO_SALT
    ensures Accepts(mac, dek, bucket, key, id, raw, m) <==>
              m.bucket == bucket && m.key == key && m.id == id && raw == Body(m) + mac(dek, Body(m))
  {
    SplitTail(raw, Body(m), mac(dek, Body(m)));
    if |raw| >= MAC_SIZE {
      ParsesExactly(raw[..|raw| - MAC_SIZE], m);
    }
  }
}
