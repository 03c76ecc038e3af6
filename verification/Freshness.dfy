/**
The rollback index: an in-memory map and the append-only file it is replayed from.
The checksum is uninterpreted.
*/
module Freshness {
  import opened Base
  import opened Bytes

  const HEADER_SIZE := 16
  const RECORD_SIZE := 48
  const PRESENT: byte := 1
  const TOMBSTONE: byte := 2
  const INVALID: byte := 3
  const COMPACT_FLOOR := 4096
  const MAX_TIME: int := 0x7fff_ffff_ffff_ffff

  type Name = s: seq<byte> | |s| == 16 witness [0, 0, 0, 0, 0, 0, 0, 0, 0, 0, 0, 0, 0, 0, 0, 0]
  type Tag = s: seq<byte> | |s| == 16 witness [0, 0, 0, 0, 0, 0, 0, 0, 0, 0, 0, 0, 0, 0, 0, 0]
  type Time = t: int | 0 <= t <= MAX_TIME
  type u32 = x: int | 0 <= x < 0x1_0000_0000
  type Crc = seq<byte> -> u32
  type Window = s: seq<byte> | |s| == RECORD_SIZE witness seq(RECORD_SIZE, _ => 0)

  const NO_TAG: Tag := [0, 0, 0, 0, 0, 0, 0, 0, 0, 0, 0, 0, 0, 0, 0, 0]

  datatype Entry = Entry(tag: Tag, kind: byte, when: Time)

  /** What the file holds: an entry under its name, or the mark that there is none. */
  datatype Record = Record(name: Name, entry: Entry)

  datatype Index = Index(m: map<Name, Entry>, records: nat)

  // ------------------------------------------------------------- one record

  function Payload(r: Record): seq<byte> {
    r.name + (r.entry.tag + ([r.entry.kind, 0, 0, 0] + BigEndian(8, r.entry.when)))
  }

  function Encode(crc: Crc, r: Record): (w: seq<byte>)
    ensures |w| == RECORD_SIZE
  {
    Payload(r) + BigEndian(4, crc(Payload(r)))
  }

  /** A record, if its checksum holds; a time no run can have written reads as 0. */
  function Decode(crc: Crc, w: seq<byte>): Option<Record>
    requires |w| == RECORD_SIZE
  {
    if Value(w[44..48]) != crc(w[..44]) then None else
    var when := Value(w[36..44]);
    Some(Record(w[..16], Entry(w[16..32], w[32], if when > MAX_TIME then 0 else when)))
  }

  lemma DecodeEncode(crc: Crc, r: Record)
    ensures Decode(crc, Encode(crc, r)) == Some(r)
  {
    var p, w := Payload(r), Encode(crc, r);
    assert w[..44] == p && w[44..48] == BigEndian(4, crc(p));
    assert w[..16] == r.name && w[16..32] == r.entry.tag && w[32] == r.entry.kind;
    assert w[36..44] == BigEndian(8, r.entry.when);
    Widths();
    ValueOfBigEndian(4, crc(p));
    ValueOfBigEndian(8, r.entry.when);
  }

  // ------------------------------------------------------------- the header

  const MAGIC: seq<byte> := [66, 66, 70, 88]   // BBFX

  function Header(time: Time): (h: seq<byte>)
    ensures |h| == HEADER_SIZE
  {
    MAGIC + ([1, 0] + (BigEndian(2, RECORD_SIZE) + BigEndian(8, time)))
  }

  predicate IsHeader(h: seq<byte>)
    requires |h| == HEADER_SIZE
  {
    h[..4] == MAGIC && h[4] == 1 && Value(h[6..8]) == RECORD_SIZE
  }

  lemma HeaderIsHeader(time: Time)
    ensures IsHeader(Header(time))
  {
    var h := Header(time);
    assert h[..4] == MAGIC && h[4] == 1 && h[6..8] == BigEndian(2, RECORD_SIZE);
    Widths();
    ValueOfBigEndian(2, RECORD_SIZE);
  }

  type HeaderBytes = s: seq<byte> | |s| == HEADER_SIZE witness seq(HEADER_SIZE, _ => 0)

  /** How the header and the records are written and read back. */
  datatype Codec = Codec(header: Time -> HeaderBytes, isHeader: HeaderBytes -> bool,
                         encode: Record -> Window, decode: Window -> Option<Record>)

  /** The codec the index uses. */
  function Checksummed(crc: Crc): Codec {
    Codec((t: Time) => Header(t), (h: HeaderBytes) => IsHeader(h),
          (r: Record) => Encode(crc, r), (w: Window) => Decode(crc, w))
  }

  predicate RoundTrips(c: Codec, r: Record) { c.decode(c.encode(r)) == Some(r) }

  predicate HeaderHolds(c: Codec, time: Time) { c.isHeader(c.header(time)) }

  lemma ChecksummedRoundTrips(crc: Crc, r: Record, time: Time)
    ensures RoundTrips(Checksummed(crc), r) && HeaderHolds(Checksummed(crc), time)
  {
    DecodeEncode(crc, r);
    HeaderIsHeader(time);
  }

  // ----------------------------------------------------------------- replay

  function Apply(m: map<Name, Entry>, r: Record): map<Name, Entry> {
    if r.entry.kind == INVALID then m - {r.name} else m[r.name := r.entry]
  }

  /** The records from an offset on, as far as they are whole and check. */
  function Replay(c: Codec, s: seq<byte>, at: nat, from: Index): Index
    requires at <= |s|
    decreases |s| - at
  {
    if |s| - at < RECORD_SIZE then from else
    var r := c.decode(s[at..at + RECORD_SIZE]);
    if r.None? then from else Replay(c, s, at + RECORD_SIZE, Index(Apply(from.m, r.value), from.records + 1))
  }

  /** Whole records that check, from an offset to the last byte. */
  predicate Whole(c: Codec, s: seq<byte>, at: nat)
    requires at <= |s|
    decreases |s| - at
  {
    |s| == at ||
    (|s| - at >= RECORD_SIZE && c.decode(s[at..at + RECORD_SIZE]).Some? && Whole(c, s, at + RECORD_SIZE))
  }

  /** Past whole records, replay goes on with what follows. */
  lemma {:induction false} ReplayPast(c: Codec, s: seq<byte>, t: seq<byte>, at: nat, from: Index)
    requires at <= |s| && Whole(c, s, at)
    ensures Replay(c, s + t, at, from) == Replay(c, s + t, |s|, Replay(c, s, at, from))
    decreases |s| - at
  {
    if at < |s| {
      assert (s + t)[at..at + RECORD_SIZE] == s[at..at + RECORD_SIZE];
      var r := c.decode(s[at..at + RECORD_SIZE]).value;
      ReplayPast(c, s, t, at + RECORD_SIZE, Index(Apply(from.m, r), from.records + 1));
    }
  }

  lemma {:induction false} WholePast(c: Codec, s: seq<byte>, t: seq<byte>, at: nat)
    requires at <= |s| && Whole(c, s, at) && Whole(c, s + t, |s|)
    ensures Whole(c, s + t, at)
    decreases |s| - at
  {
    if at < |s| {
      assert (s + t)[at..at + RECORD_SIZE] == s[at..at + RECORD_SIZE];
      WholePast(c, s, t, at + RECORD_SIZE);
    }
  }

  /** One more record. */
  lemma {:induction false} ReplayOne(c: Codec, s: seq<byte>, at: nat, r: Record, from: Index)
    requires at <= |s| && Whole(c, s, at) && RoundTrips(c, r)
    ensures Whole(c, s + c.encode(r), at)
    ensures Replay(c, s + c.encode(r), at, from) ==
            var before := Replay(c, s, at, from); Index(Apply(before.m, r), before.records + 1)
  {
    var w := c.encode(r);
    var all := s + w;
    assert all[|s|..|s| + RECORD_SIZE] == w;
    assert Whole(c, all, |s| + RECORD_SIZE);
    WholePast(c, s, w, at);
    ReplayPast(c, s, w, at, from);
  }

  /** A torn tail, short or failing its checksum, leaves the replay of what is before it. */
  lemma {:induction false} TornTail(c: Codec, s: seq<byte>, tail: seq<byte>, at: nat, from: Index)
    requires at <= |s| && Whole(c, s, at)
    requires |tail| < RECORD_SIZE || c.decode(tail[..RECORD_SIZE]).None?
    ensures Replay(c, s + tail, at, from) == Replay(c, s, at, from)
  {
    ReplayPast(c, s, tail, at, from);
    if |tail| >= RECORD_SIZE {
      assert (s + tail)[|s|..|s| + RECORD_SIZE] == tail[..RECORD_SIZE];
    }
  }

  // ------------------------------------------------------------------- load

  const EMPTY := Index(map[], 0)

  function Load(c: Codec, file: seq<byte>): Result<Index> {
    if |file| < HEADER_SIZE then Ok(EMPTY)
    else if !c.isHeader(file[..HEADER_SIZE]) then Err
    else Ok(Replay(c, file, HEADER_SIZE, EMPTY))
  }

  /** load: the loop over the records. */
  method LoadFile(c: Codec, file: seq<byte>) returns (r: Result<Index>)
    ensures r == Load(c, file)
  {
    if |file| < HEADER_SIZE {
      return Ok(EMPTY);
    }
    if !c.isHeader(file[..HEADER_SIZE]) {
      return Err;
    }
    var m: map<Name, Entry> := map[];
    var records := 0;
    var at := HEADER_SIZE;
    while |file| - at >= RECORD_SIZE
      invariant HEADER_SIZE <= at <= |file|
      invariant Replay(c, file, HEADER_SIZE, EMPTY) == Replay(c, file, at, Index(m, records))
    {
      var w := file[at..at + RECORD_SIZE];
      var r := c.decode(w);
      if r.None? {
        break;
      }
      if r.value.entry.kind == INVALID {
        m := m - {r.value.name};
      } else {
        m := m[r.value.name := r.value.entry];
      }
      records := records + 1;
      at := at + RECORD_SIZE;
    }
    return Ok(Index(m, records));
  }

  /** The index a file holds, if it ends on a whole record: appends to it will be read. */
  function Contents(c: Codec, file: seq<byte>): Option<Index> {
    if |file| < HEADER_SIZE || !c.isHeader(file[..HEADER_SIZE]) || !Whole(c, file, HEADER_SIZE) then None
    else Some(Replay(c, file, HEADER_SIZE, EMPTY))
  }

  /** What load reads of such a file. */
  lemma ContentsLoad(c: Codec, file: seq<byte>)
    requires Contents(c, file).Some?
    ensures Load(c, file) == Ok(Contents(c, file).value)
  {
  }

  lemma ContentsMore(c: Codec, file: seq<byte>, r: Record)
    requires Contents(c, file).Some? && RoundTrips(c, r)
    ensures var was := Contents(c, file).value;
            Contents(c, file + c.encode(r)) == Some(Index(Apply(was.m, r), was.records + 1))
  {
    assert (file + c.encode(r))[..HEADER_SIZE] == file[..HEADER_SIZE];
    ReplayOne(c, file, HEADER_SIZE, r, EMPTY);
  }

  lemma ContentsHeader(c: Codec, time: Time)
    requires HeaderHolds(c, time)
    ensures Contents(c, c.header(time)) == Some(EMPTY)
  {
    var h := c.header(time);
    assert h[..HEADER_SIZE] == h;
  }

  // ------------------------------------------------- what a checksum decides

  /** A window of the index's own format is a record if and only if its last four bytes are
      the checksum of the others; and then the fields stand at their places. */
  lemma DecodesExactly(crc: Crc, w: Window)
    ensures Checksummed(crc).decode(w).Some? <==> Value(w[44..48]) == crc(w[..44])
    ensures Checksummed(crc).decode(w).Some? ==>
              var r := Checksummed(crc).decode(w).value;
              && r.name == w[..16] && r.entry.tag == w[16..32] && r.entry.kind == w[32]
              && (Value(w[36..44]) <= 0x7fff_ffff_ffff_ffff ==> r.entry.when == Value(w[36..44]))
  {
  }

  /** What load takes for a header, refusing any other: BBFX, format 1, records of 48 bytes. */
  lemma {:induction false} HeaderExactly(crc: Crc, file: seq<byte>)
    ensures |file| < 16 ==> Load(Checksummed(crc), file) == Ok(EMPTY)
    ensures |file| >= 16 ==>
              (Load(Checksummed(crc), file).Ok? <==>
                 file[0] == 66 && file[1] == 66 && file[2] == 70 && file[3] == 88 && file[4] == 1 && file[6] == 0 && file[7] == 48)
  {
    if |file| >= 16 {
      var h: HeaderBytes := file[..16];
      assert h[..4] == [file[0], file[1], file[2], file[3]];
      var size := h[6..8];
      assert size[..1] == [file[6]] && size[..1][..0] == [] && Value(size[..1]) == file[6];
      var high: int, low: int := file[6], file[7];
      assert Value(size) == high * 256 + low;
    }
  }

  /** Past the records, a window with a bad checksum, or too few bytes for one, ends the
      load, whatever follows it. */
  lemma {:induction false} BadTail(crc: Crc, s: seq<byte>, tail: seq<byte>)
    requires Contents(Checksummed(crc), s).Some?
    requires |tail| < 48 || Value(tail[44..48]) != crc(tail[..44])
    ensures Load(Checksummed(crc), s + tail) == Load(Checksummed(crc), s)
  {
    var c := Checksummed(crc);
    if |tail| >= 48 {
      var w: Window := tail[..48];
      assert w[44..48] == tail[44..48] && w[..44] == tail[..44];
      DecodesExactly(crc, w);
    }
    assert (s + tail)[..HEADER_SIZE] == s[..HEADER_SIZE];
    TornTail(c, s, tail, HEADER_SIZE, EMPTY);
  }

  /** And one with a good checksum is replayed: a present or deleted name as written, an
      invalidated one forgotten. */
  lemma {:induction false} GoodTail(crc: Crc, s: seq<byte>, w: Window)
    requires Contents(Checksummed(crc), s).Some? && Value(w[44..48]) == crc(w[..44])
    ensures var was := Contents(Checksummed(crc), s).value;
            var now := Load(Checksummed(crc), s + w);
            && now.Ok? && now.value.records == was.records + 1
            && (if w[32] == 3 then now.value.m == was.m - {w[..16]}
                else && now.value.m.Keys == was.m.Keys + {w[..16]}
                     && now.value.m[w[..16]].tag == w[16..32] && now.value.m[w[..16]].kind == w[32]
                     && forall n | n in was.m && n != w[..16] :: now.value.m[n] == was.m[n])
  {
    var c := Checksummed(crc);
    DecodesExactly(crc, w);
    var all := s + w;
    assert all[..HEADER_SIZE] == s[..HEADER_SIZE] && all[|s|..|s| + RECORD_SIZE] == w;
    ReplayPast(c, s, w, HEADER_SIZE, EMPTY);
    var before, r := Replay(c, s, HEADER_SIZE, EMPTY), c.decode(w).value;
    var next := Index(Apply(before.m, r), before.records + 1);
    assert Replay(c, all, |s| + RECORD_SIZE, next) == next;
  }

  /** The file format, as the running index relies on it. */
  datatype Format = Format(header: Time -> seq<byte>, encode: Record -> seq<byte>, contents: seq<byte> -> Option<Index>)

  function FormatOf(c: Codec): Format {
    Format((t: Time) => c.header(t), (r: Record) => c.encode(r), (f: seq<byte>) => Contents(c, f))
  }

  /** A fresh file is empty, and a record appended to a file is read after the others. */
  predicate Starts(f: Format, t: Time) { f.contents(f.header(t)) == Some(EMPTY) }

  predicate Appends(f: Format, file: seq<byte>, r: Record) {
    f.contents(file).Some? ==>
      f.contents(file + f.encode(r)) ==
        Some(Index(Apply(f.contents(file).value.m, r), f.contents(file).value.records + 1))
  }

  lemma FormatHolds(crc: Crc, file: seq<byte>, r: Record, time: Time)
    ensures Starts(FormatOf(Checksummed(crc)), time) && Appends(FormatOf(Checksummed(crc)), file, r)
  {
    var c := Checksummed(crc);
    ChecksummedRoundTrips(crc, r, time);
    ContentsHeader(c, time);
    if Contents(c, file).Some? {
      ContentsMore(c, file, r);
    }
  }
}
