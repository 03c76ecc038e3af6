/** When a restarted index still reads back what it appends. */
module FreshnessRestart {
  import opened Base
  import opened Bytes
  import opened Freshness

  /** Where replay stops: after as many windows as it counted, at one that is short or does
      not check. */
  lemma {:induction false} ReplayStops(c: Codec, s: seq<byte>, at: nat, from: Index)
    requires at <= |s|
    ensures var r := Replay(c, s, at, from);
            var stop := at + RECORD_SIZE * (r.records - from.records);
            && from.records <= r.records && stop <= |s|
            && (|s| - stop < RECORD_SIZE || c.decode(s[stop..stop + RECORD_SIZE]).None?)
            && (|s| == stop <==> Whole(c, s, at))
    decreases |s| - at
  {
    if |s| - at >= RECORD_SIZE {
      var w := c.decode(s[at..at + RECORD_SIZE]);
      if w.Some? {
        ReplayStops(c, s, at + RECORD_SIZE, Index(Apply(from.m, w.value), from.records + 1));
      }
    }
  }

  /** Appending keeps what was replayed and goes on from where replay stopped. */
  lemma {:induction false} ReplayGoesOn(c: Codec, s: seq<byte>, t: seq<byte>, at: nat, from: Index)
    requires at <= |s|
    ensures var r := Replay(c, s, at, from);
            var stop := at + RECORD_SIZE * (r.records - from.records);
            && from.records <= r.records && stop <= |s|
            && Replay(c, s + t, at, from) == Replay(c, s + t, stop, r)
    decreases |s| - at
  {
    if |s| - at >= RECORD_SIZE {
      assert (s + t)[at..at + RECORD_SIZE] == s[at..at + RECORD_SIZE];
      var w := c.decode(s[at..at + RECORD_SIZE]);
      if w.Some? {
        ReplayGoesOn(c, s, t, at + RECORD_SIZE, Index(Apply(from.m, w.value), from.records + 1));
      }
    }
  }

  /** A record is read where its name is written. */
  ghost predicate NamesFirst(c: Codec) { forall w: Window :: NamedBy(c, w) }

  predicate NamedBy(c: Codec, w: Window) { c.decode(w).Some? ==> c.decode(w).value.name == w[..16] }

  lemma ChecksummedNamesFirst(crc: Crc)
    ensures NamesFirst(Checksummed(crc))
  {
  }

  /** The append is read back: the record in its place, and one more of them. */
  predicate ReadBack(c: Codec, all: seq<byte>, loaded: Index, r: Record) {
    Load(c, all + c.encode(r)) == Ok(Index(Apply(loaded.m, r), loaded.records + 1))
  }

  /** A record a map does not hold, under a name that begins otherwise. */
  lemma Elsewhere(m: map<Name, Entry>, first: byte) returns (r: Record)
    ensures r.name[0] != first && r.entry.kind == PRESENT && (r.name in m ==> m[r.name] != r.entry)
  {
    var b: byte := if first == 0 then 1 else 0;
    var name: Name := [b, 0, 0, 0, 0, 0, 0, 0, 0, 0, 0, 0, 0, 0, 0, 0];
    var when: Time := if name in m && m[name].when == 0 then 1 else 0;
    r := Record(name, Entry(NO_TAG, PRESENT, when));
  }

  /** Some bytes of a record lie in front of the append: what is read in its place begins
      with them. */
  lemma {:induction false} TornWindow(c: Codec, s: seq<byte>, stop: nat, from: Index, r: Record)
    requires NamesFirst(c) && stop < |s| < stop + RECORD_SIZE
    requires r.name[0] != s[stop] && r.entry.kind == PRESENT && (r.name in from.m ==> from.m[r.name] != r.entry)
    ensures Replay(c, s + c.encode(r), stop, from) != Index(Apply(from.m, r), from.records + 1)
  {
    var t := s + c.encode(r);
    var w: Window := t[stop..stop + RECORD_SIZE];
    var read := c.decode(w);
    if read.Some? {
      var next := Index(Apply(from.m, read.value), from.records + 1);
      assert Replay(c, t, stop + RECORD_SIZE, next) == next;
      assert NamedBy(c, w) && w[..16][0] == s[stop];
      assert Apply(from.m, r)[r.name] == r.entry;
    }
  }

  /** What load reads of a file, with more after it. */
  lemma {:induction false} LoadLonger(c: Codec, all: seq<byte>, more: seq<byte>)
    requires |all| >= HEADER_SIZE && c.isHeader(all[..HEADER_SIZE])
    ensures var loaded := Replay(c, all, HEADER_SIZE, EMPTY);
            var stop := HEADER_SIZE + RECORD_SIZE * loaded.records;
            stop <= |all| && Load(c, all + more) == Ok(Replay(c, all + more, stop, loaded))
  {
    assert (all + more)[..HEADER_SIZE] == all[..HEADER_SIZE];
    ReplayGoesOn(c, all, more, HEADER_SIZE, EMPTY);
  }

  /** A window that does not check stays in the way. */
  lemma {:induction false} BadWindow(c: Codec, s: seq<byte>, more: seq<byte>, stop: nat, from: Index)
    requires stop + RECORD_SIZE <= |s| && c.decode(s[stop..stop + RECORD_SIZE]).None?
    ensures Replay(c, s + more, stop, from) == from
  {
    assert (s + more)[stop..stop + RECORD_SIZE] == s[stop..stop + RECORD_SIZE];
  }

  /** Where anything follows the last record read, some append is not read back. */
  lemma {:induction false} TailHides(c: Codec, all: seq<byte>) returns (r: Record)
    requires NamesFirst(c) && |all| >= HEADER_SIZE && c.isHeader(all[..HEADER_SIZE])
    requires |all| != HEADER_SIZE + RECORD_SIZE * Replay(c, all, HEADER_SIZE, EMPTY).records
    ensures !ReadBack(c, all, Replay(c, all, HEADER_SIZE, EMPTY), r)
  {
    var loaded := Replay(c, all, HEADER_SIZE, EMPTY);
    var stop := HEADER_SIZE + RECORD_SIZE * loaded.records;
    ReplayStops(c, all, HEADER_SIZE, EMPTY);
    r := Elsewhere(loaded.m, all[stop]);
    LoadLonger(c, all, c.encode(r));
    if |all| - stop < RECORD_SIZE {
      TornWindow(c, all, stop, loaded, r);
    } else {
      BadWindow(c, all, c.encode(r), stop, loaded);
    }
  }

  /** The file an opening leaves: a header is added wherever no record was read. */
  function Opened(c: Codec, file: seq<byte>, now: Time): seq<byte>
    requires Load(c, file).Ok?
  {
    if Load(c, file).value.records == 0 then file + c.header(now) else file
  }

  /** The bytes that many records take, with their header; a fresh file has none. */
  function Length(records: nat): nat { if records == 0 then 0 else HEADER_SIZE + RECORD_SIZE * records }

  lemma {:induction false} OpenedContents(c: Codec, file: seq<byte>, now: Time)
    requires HeaderHolds(c, now) && Load(c, file).Ok? && |file| == Length(Load(c, file).value.records)
    ensures Contents(c, Opened(c, file, now)) == Some(Load(c, file).value)
  {
    if file == [] {
      assert Opened(c, file, now) == c.header(now);
      ContentsHeader(c, now);
    } else {
      ReplayStops(c, file, HEADER_SIZE, EMPTY);
    }
  }

  /** The file an opening leaves holds what was loaded, and nothing else, exactly then. */
  lemma {:induction false} MirrorsExactly(c: Codec, file: seq<byte>, now: Time)
    requires HeaderHolds(c, now) && Load(c, file).Ok?
    ensures Contents(c, Opened(c, file, now)) == Some(Load(c, file).value) <==>
              |file| == Length(Load(c, file).value.records)
  {
    var all := Opened(c, file, now);
    if Contents(c, all) == Some(Load(c, file).value) {
      ReplayStops(c, all, HEADER_SIZE, EMPTY);
    } else if |file| == Length(Load(c, file).value.records) {
      OpenedContents(c, file, now);
    }
  }

  lemma {:induction false} OpenedClean(c: Codec, file: seq<byte>, now: Time, r: Record)
    requires HeaderHolds(c, now) && RoundTrips(c, r)
    requires Load(c, file).Ok? && |file| == Length(Load(c, file).value.records)
    ensures ReadBack(c, Opened(c, file, now), Load(c, file).value, r)
  {
    OpenedContents(c, file, now);
    ContentsMore(c, Opened(c, file, now), r);
    ContentsLoad(c, Opened(c, file, now) + c.encode(r));
  }

  /** A header added to a file that held something, but no record. */
  lemma {:induction false} SecondHeaderHides(c: Codec, file: seq<byte>, now: Time) returns (r: Record)
    requires NamesFirst(c) && file != []
    ensures !ReadBack(c, file + c.header(now), EMPTY, r)
  {
    var all := file + c.header(now);
    r := Record(NO_TAG, Entry(NO_TAG, PRESENT, 0));
    if c.isHeader(all[..HEADER_SIZE]) {
      var loaded := Replay(c, all, HEADER_SIZE, EMPTY);
      if loaded.records == 0 {
        NothingReplayed(c, all, HEADER_SIZE, EMPTY);
        r := TailHides(c, all);
      } else {
        r := Elsewhere(loaded.m, 0);
        RecordsKept(c, all, r);
      }
    } else {
      assert (all + c.encode(r))[..HEADER_SIZE] == all[..HEADER_SIZE];
    }
  }

  lemma {:induction false} NothingReplayed(c: Codec, s: seq<byte>, at: nat, from: Index)
    requires at <= |s| && Replay(c, s, at, from).records == from.records
    ensures Replay(c, s, at, from) == from
  {
    if |s| - at >= RECORD_SIZE {
      var w := c.decode(s[at..at + RECORD_SIZE]);
      if w.Some? {
        ReplayStops(c, s, at + RECORD_SIZE, Index(Apply(from.m, w.value), from.records + 1));
      }
    }
  }

  /** What happened to read as a record stays one. */
  lemma {:induction false} RecordsKept(c: Codec, all: seq<byte>, r: Record)
    requires |all| >= HEADER_SIZE && c.isHeader(all[..HEADER_SIZE])
    requires var loaded := Replay(c, all, HEADER_SIZE, EMPTY);
             && loaded.records > 0 && r.entry.kind == PRESENT && (r.name in loaded.m ==> loaded.m[r.name] != r.entry)
    ensures !ReadBack(c, all, EMPTY, r)
  {
    var t := all + c.encode(r);
    var loaded := Replay(c, all, HEADER_SIZE, EMPTY);
    var stop := HEADER_SIZE + RECORD_SIZE * loaded.records;
    LoadLonger(c, all, c.encode(r));
    ReplayStops(c, t, stop, loaded);
    var read := Replay(c, t, stop, loaded);
    assert Apply(EMPTY.m, r)[r.name] == r.entry;
    if read.records == loaded.records {
      NothingReplayed(c, t, stop, loaded);
    }
  }

  /** Something follows the last record, or a header stands alone: some append is lost. */
  lemma {:induction false} OpenedTorn(c: Codec, file: seq<byte>, now: Time) returns (r: Record)
    requires NamesFirst(c) && Load(c, file).Ok? && |file| != Length(Load(c, file).value.records)
    ensures !ReadBack(c, Opened(c, file, now), Load(c, file).value, r)
  {
    var loaded := Load(c, file).value;
    if loaded.records > 0 {
      r := TailHides(c, file);
    } else {
      if |file| >= HEADER_SIZE {
        NothingReplayed(c, file, HEADER_SIZE, EMPTY);
      }
      r := SecondHeaderHides(c, file, now);
    }
  }

  /** A restarted index reads back every append if and only if the file it opened was
      exactly as long as the records in it take: no torn tail, and no header without one. */
  lemma {:induction false} RestartExactly(crc: Crc, file: seq<byte>, now: Time)
    requires Load(Checksummed(crc), file).Ok?
    ensures var c := Checksummed(crc);
            var loaded := Load(c, file).value;
            (forall r: Record :: ReadBack(c, Opened(c, file, now), loaded, r)) <==> |file| == Length(loaded.records)
  {
    var c := Checksummed(crc);
    var loaded := Load(c, file).value;
    if |file| == Length(loaded.records) {
      forall r: Record
        ensures ReadBack(c, Opened(c, file, now), loaded, r)
      {
        ChecksummedRoundTrips(crc, r, now);
        OpenedClean(c, file, now, r);
      }
    } else {
      ChecksummedNamesFirst(crc);
      var r := OpenedTorn(c, file, now);
      assert !ReadBack(c, Opened(c, file, now), loaded, r);
    }
  }
}
