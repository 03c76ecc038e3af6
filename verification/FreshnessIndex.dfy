/**
The rollback index in use.  Beside it runs the simple form it must agree with: for
every name, a machine that knows nothing, a tag, or that the object was deleted.
*/
module FreshnessIndex {
  import opened Base
  import opened Bytes
  import opened Freshness
  import opened FreshnessRestart

  // ------------------------------------------------------ the per-key machine

  datatype Key = Unknown | Known(tag: Tag) | Gone(when: Time)

  datatype Verdict = Fresh | Stale | Deleted | NotKnown

  function Judge(k: Key, tag: Tag): Verdict {
    match k
    case Unknown => NotKnown
    case Gone(_) => Deleted
    case Known(t) => if t == tag then Fresh else Stale
  }

  /** What happened, as one name sees it. */
  datatype Step =
    | Checked(name: Name, tag: Tag, verdict: Verdict, written: bool)
    | Recorded(name: Name, tag: Tag, written: bool)
    | Forgot(name: Name, at: Time, written: bool)
    | Invalidated(name: Name)
    | Compacted(cutoff: int)

  /** A failed write moves the key to Unknown; a compaction forgets deletes past
      retention, and nothing else. */
  function KeyStep(n: Name, k: Key, step: Step): Key {
    match step
    case Checked(name, tag, _, written) => if name == n && k.Unknown? && written then Known(tag) else k
    case Recorded(name, tag, written) => if name != n then k else if written then Known(tag) else Unknown
    case Forgot(name, at, written) => if name != n then k else if written then Gone(at) else Unknown
    case Invalidated(name) => if name == n then Unknown else k
    case Compacted(cutoff) => if k.Gone? && k.when < cutoff then Unknown else k
  }

  /** What the machine comes to: a tag that was recorded is fresh and every other stale; a
      deleted name reads deleted, an invalidated one or one whose write failed unknown; an
      unknown name takes the tag it is first read with; past retention a delete is
      forgotten, and a tag never; other names are not concerned. */
  lemma MachineMeans(n: Name, k: Key, tag: Tag, other: Tag, at: Time, cutoff: int, verdict: Verdict, written: bool)
    ensures Judge(KeyStep(n, k, Recorded(n, tag, true)), tag) == Fresh
    ensures other != tag ==> Judge(KeyStep(n, k, Recorded(n, tag, true)), other) == Stale
    ensures Judge(KeyStep(n, k, Forgot(n, at, true)), tag) == Deleted
    ensures Judge(KeyStep(n, k, Recorded(n, tag, false)), other) == NotKnown
    ensures Judge(KeyStep(n, k, Forgot(n, at, false)), other) == NotKnown
    ensures Judge(KeyStep(n, k, Invalidated(n)), other) == NotKnown
    ensures Judge(k, tag) == NotKnown ==>
              Judge(KeyStep(n, k, Checked(n, tag, verdict, true)), tag) == Fresh && KeyStep(n, k, Checked(n, tag, verdict, false)) == k
    ensures Judge(k, tag) != NotKnown ==> KeyStep(n, k, Checked(n, other, verdict, written)) == k
    ensures Judge(k, tag) == Fresh || Judge(k, tag) == Stale ==> KeyStep(n, k, Compacted(cutoff)) == k
    ensures Judge(KeyStep(n, KeyStep(n, k, Forgot(n, at, true)), Compacted(cutoff)), tag) ==
            if at < cutoff then NotKnown else Deleted
    ensures forall m: Name | m != n ::
              && KeyStep(m, k, Recorded(n, tag, written)) == k && KeyStep(m, k, Forgot(n, at, written)) == k
              && KeyStep(m, k, Invalidated(n)) == k && KeyStep(m, k, Checked(n, tag, verdict, written)) == k
  {
  }

  /** The steps of a run, the latest outermost. */
  datatype Trace = Start | Then(before: Trace, step: Step)

  function KeyRun(n: Name, from: Key, trace: Trace): Key {
    match trace
    case Start => from
    case Then(before, step) => KeyStep(n, KeyRun(n, from, before), step)
  }

  /** The verdict a step reports on the name is the machine's. */
  predicate Right(n: Name, k: Key, step: Step) {
    step.Checked? && step.name == n ==> step.verdict == Judge(k, step.tag)
  }

  /** How many verdicts on the name are not its machine's. */
  function Wrong(n: Name, from: Key, trace: Trace): nat {
    match trace
    case Start => 0
    case Then(before, step) => Wrong(n, from, before) + if Right(n, KeyRun(n, from, before), step) then 0 else 1
  }

  /** A trace up to some step of it. */
  predicate Within(part: Trace, trace: Trace) {
    part == trace || (trace.Then? && Within(part, trace.before))
  }

  /** None wrong: every verdict in the trace is the machine's. */
  lemma {:induction false} NoneWrong(n: Name, from: Key, trace: Trace, part: Trace)
    requires Wrong(n, from, trace) == 0 && Within(part, trace)
    requires part.Then? && part.step.Checked? && part.step.name == n
    ensures part.step.verdict == Judge(KeyRun(n, from, part.before), part.step.tag)
  {
    if part != trace {
      NoneWrong(n, from, trace.before, part);
    }
  }

  // -------------------------------------------------------------- the map

  /** What the map says of a name. */
  function At(m: map<Name, Entry>, n: Name): Key {
    if n !in m then Unknown else if m[n].kind == TOMBSTONE then Gone(m[n].when) else Known(m[n].tag)
  }

  /** The map holds entries only, no mark of an invalidated key. */
  predicate NoMarks(m: map<Name, Entry>) { forall n | n in m :: m[n].kind != INVALID }

  lemma {:induction false} ReplayNoMarks(c: Codec, s: seq<byte>, at: nat, from: Index)
    requires at <= |s| && NoMarks(from.m)
    ensures NoMarks(Replay(c, s, at, from).m)
    decreases |s| - at
  {
    if |s| - at >= RECORD_SIZE {
      var r := c.decode(s[at..at + RECORD_SIZE]);
      if r.Some? {
        ReplayNoMarks(c, s, at + RECORD_SIZE, Index(Apply(from.m, r.value), from.records + 1));
      }
    }
  }

  /** What a compaction keeps. */
  function Kept(m: map<Name, Entry>, cutoff: int): map<Name, Entry> {
    map n | n in m && !(m[n].kind == TOMBSTONE && m[n].when < cutoff) :: m[n]
  }

  lemma KeptFacts(m: map<Name, Entry>, cutoff: int, n: Name)
    ensures At(Kept(m, cutoff), n) == KeyStep(n, At(m, n), Compacted(cutoff))
    ensures |Kept(m, cutoff)| <= |m| && (NoMarks(m) ==> NoMarks(Kept(m, cutoff)))
  {
    assert Kept(m, cutoff).Keys <= m.Keys;
    SubsetSize(Kept(m, cutoff).Keys, m.Keys);
  }

  lemma {:induction false} SubsetSize<T>(a: set<T>, b: set<T>)
    requires a <= b
    ensures |a| <= |b|
    decreases |a|
  {
    if a != {} {
      var x :| x in a;
      SubsetSize(a - {x}, b - {x});
    }
  }

  // -------------------------------------------------------- the index's state

  ghost predicate Lawful(c: Format) {
    (forall t: Time :: Starts(c, t)) && (forall file: seq<byte>, r: Record :: Appends(c, file, r))
  }

  /** The fields of an index.  `attached`: appends still reach the file under its path. */
  datatype State = State(m: map<Name, Entry>, file: seq<byte>, records: nat, sinceSync: int, attached: bool)

  /** What a run has done: the machine it started from for one name, its steps; whether
      no write has failed since a clean opening or the last compaction; records at the
      start, appends made, and records written, those of completed compactions included. */
  datatype Past = Past(from: Key, trace: Trace, clean: bool, k0: nat, appends: nat, wrote: nat)

  /** What the index says of a name, provided its map agrees with the machine, every
      verdict did, the file replays to the map, and the writes keep their bound. */
  function Says(c: Format, n: Name, s: State, p: Past): Option<Key> {
    if At(s.m, n) != KeyRun(n, p.from, p.trace) || Wrong(n, p.from, p.trace) != 0 || !NoMarks(s.m) then None
    else if p.clean && !(s.attached && c.contents(s.file) == Some(Index(s.m, s.records))) then None
    else if p.wrote + s.records > p.k0 + 2 * p.appends then None
    else Some(At(s.m, n))
  }

  function Stepped(p: Past, step: Step): Past { p.(trace := Then(p.trace, step)) }

  /** After a compaction. */
  function Installed(s: State, out: seq<byte>, kept: map<Name, Entry>): State {
    s.(m := kept, file := out, records := |kept|, sinceSync := 0, attached := true)
  }

  function Compaction(p: Past, kept: map<Name, Entry>, cutoff: int): Past {
    Stepped(p, Compacted(cutoff)).(clean := true, wrote := p.wrote + |kept|)
  }

  lemma {:induction false} InstallSays(c: Format, n: Name, s: State, p: Past, out: seq<byte>, cutoff: int)
    requires Says(c, n, s, p).Some? && s.records > 2 * |s.m| + COMPACT_FLOOR
    requires c.contents(out) == Some(Index(Kept(s.m, cutoff), |Kept(s.m, cutoff)|))
    ensures Says(c, n, Installed(s, out, Kept(s.m, cutoff)), Compaction(p, Kept(s.m, cutoff), cutoff)).Some?
  {
    KeptFacts(s.m, cutoff, n);
  }

  /** After a record was written for a name, and the map changed accordingly. */
  function Written(c: Format, s: State, r: Record): State {
    s.(m := Apply(s.m, r), file := s.file + c.encode(r), records := s.records + 1, sinceSync := s.sinceSync + 1)
  }

  function Append(p: Past, step: Step): Past {
    Stepped(p, step).(appends := p.appends + 1, wrote := p.wrote + 1)
  }

  lemma {:induction false} WrittenSays(c: Format, n: Name, s: State, p: Past, r: Record, step: Step)
    requires Lawful(c) && Says(c, n, s, p).Some?
    requires At(Apply(s.m, r), n) == KeyStep(n, At(s.m, n), step) && Right(n, At(s.m, n), step)
    ensures Says(c, n, Written(c, s, r), Append(p, step)).Some?
  {
    assert Appends(c, s.file, r);
  }

  /** After a write failed: the name is dropped from the map, part of a record may be in
      the file. */
  function Dropped(s: State, name: Name, file: seq<byte>): State { s.(m := s.m - {name}, file := file) }

  function Failure(p: Past, step: Step): Past {
    Stepped(p, step).(appends := p.appends + 1, clean := false)
  }

  lemma {:induction false} DroppedSays(c: Format, n: Name, s: State, p: Past, name: Name, file: seq<byte>, step: Step)
    requires Says(c, n, s, p).Some?
    requires At(s.m - {name}, n) == KeyStep(n, At(s.m, n), step) && Right(n, At(s.m, n), step)
    ensures Says(c, n, Dropped(s, name, file), Failure(p, step)).Some?
  {
  }

  /** A verdict that changes nothing. */
  lemma {:induction false} JudgedSays(c: Format, n: Name, s: State, p: Past, step: Step)
    requires Says(c, n, s, p).Some? && KeyStep(n, At(s.m, n), step) == At(s.m, n) && Right(n, At(s.m, n), step)
    ensures Says(c, n, s, Stepped(p, step)).Some?
  {
  }

  /** A compaction that failed past its rename. */
  lemma {:induction false} DetachedSays(c: Format, n: Name, s: State, p: Past, out: seq<byte>)
    requires Says(c, n, s, p).Some?
    ensures Says(c, n, s.(file := out, attached := false), p.(clean := false)).Some?
  {
  }

  // -------------------------------------------------------------- the index

  datatype Outcome = Done | NotWritten | NotMaintained

  class Local {
    const c: Format
    const retention: int
    const syncEvery: int
    var m: map<Name, Entry>
    var file: seq<byte>
    var records: nat
    var sinceSync: int
    var attached: bool

    // Any name, and what has happened in this run.
    ghost const watched: Name
    ghost var past: Past

    ghost function Now(): State
      reads this
    {
      State(m, file, records, sinceSync, attached)
    }

    ghost predicate Valid()
      reads this
    {
      Lawful(c) && Says(c, watched, Now(), past).Some?
    }

    /** Small enough: at most twice the live entries and a floor. */
    predicate Bounded()
      reads this
    {
      records <= 2 * |m| + COMPACT_FLOOR
    }

    constructor (c: Format, retention: int, syncEvery: int, loaded: Index, file: seq<byte>, ghost clean: bool,
                 ghost watched: Name)
      requires Lawful(c) && NoMarks(loaded.m) && (clean ==> c.contents(file) == Some(loaded))
      ensures this.c == c && this.retention == retention && this.watched == watched && Valid()
      ensures Now() == State(loaded.m, file, loaded.records, 0, true)
      ensures past == Past(At(loaded.m, watched), Start, clean, loaded.records, 0, 0)
    {
      this.c, this.retention, this.syncEvery, this.watched := c, retention, syncEvery, watched;
      this.m, this.file, this.records, sinceSync, attached := loaded.m, file, loaded.records, 0, true;
      past := Past(At(loaded.m, watched), Start, clean, loaded.records, 0, 0);
    }

    /** The new file of a compaction, one record for each entry kept, in some order. */
    method Rewritten(cutoff: int, now: Time) returns (out: seq<byte>, kept: map<Name, Entry>)
      requires NoMarks(m) && Lawful(c)
      ensures kept == Kept(m, cutoff) && c.contents(out) == Some(Index(kept, |kept|))
    {
      out, kept := c.header(now), map[];
      assert Starts(c, now);
      var left := m.Keys;
      while left != {}
        invariant left <= m.Keys
        invariant forall n :: n in kept <==> n in Kept(m, cutoff) && n !in left
        invariant forall n | n in kept :: kept[n] == m[n]
        invariant c.contents(out) == Some(Index(kept, |kept|))
      {
        var n :| n in left;
        left := left - {n};
        var e := m[n];
        if !(e.kind == TOMBSTONE && e.when < cutoff) {
          assert Appends(c, out, Record(n, e));
          out := out + c.encode(Record(n, e));
          kept := kept[n := e];
        }
      }
    }

    /** compactLocked: nothing changes if it fails before the rename; past it, a failure
        leaves the old map over the new file, and no way to append. */
    method Compact(now: Time) returns (ok: bool)
      requires Valid() && !Bounded()
      modifies this
      ensures Valid() && (ok ==> Bounded())
      ensures Aged(old(m), old(past), m, past, now, ok)
    {
      ghost var s, p := Now(), past;
      var cutoff := now - retention;
      var out, kept := Rewritten(cutoff, now);
      ok := *;
      if !ok {
        return;
      }
      ok := *;
      if !ok {
        DetachedSays(c, watched, s, p, out);
        file, attached, past := out, false, past.(clean := false);
        return;
      }
      InstallSays(c, watched, s, p, out, cutoff);
      Install(out, kept);
      past := Compaction(past, kept, cutoff);
      ok := *;
    }

    method Install(out: seq<byte>, kept: map<Name, Entry>)
      modifies this`m, this`file, this`records, this`sinceSync, this`attached
      ensures Now() == Installed(old(Now()), out, kept)
    {
      m, file, records, sinceSync, attached := kept, out, |kept|, 0, true;
    }

    /** Unchanged, past a compaction at this time, or cut off by one that failed. */
    ghost predicate Aged(m0: map<Name, Entry>, p0: Past, m1: map<Name, Entry>, p1: Past, now: Time, ok: bool) {
      || (m1 == m0 && p1 == p0)
      || (m1 == Kept(m0, now - retention) && p1 == Compaction(p0, m1, now - retention))
      || (!ok && m1 == m0 && p1 == p0.(clean := false))
    }

    /** maintainLocked: sync on the interval, compact past twice the live entries. */
    method Maintain(now: Time) returns (ok: bool)
      requires Valid()
      modifies this
      ensures Valid() && (ok ==> Bounded())
      ensures ok && past.clean ==> c.contents(file).Some? && c.contents(file).value.records <= 2 * |m| + COMPACT_FLOOR
      ensures Aged(old(m), old(past), m, past, now, ok)
    {
      if sinceSync >= syncEvery {
        ok := *;
        if !ok {
          return;
        }
        sinceSync := 0;
      }
      if !Bounded() {
        ok := Compact(now);
      } else {
        ok := true;
      }
    }

    /** writeRecordLocked, and with it the map: one record at the end of the file.  Where
        the write fails the name is dropped, and part of a record may be left behind. */
    method Write(r: Record, ghost step: Step, ghost failed: Step) returns (ok: bool)
      requires Valid()
      requires At(Apply(m, r), watched) == KeyStep(watched, At(m, watched), step)
      requires At(m - {r.name}, watched) == KeyStep(watched, At(m, watched), failed)
      requires Right(watched, At(m, watched), step) && Right(watched, At(m, watched), failed)
      modifies this
      ensures Valid()
      ensures m == if ok then Apply(old(m), r) else old(m) - {r.name}
      ensures past == if ok then Append(old(past), step) else Failure(old(past), failed)
    {
      ghost var s, p := Now(), past;
      ok := *;
      if ok && attached {
        WrittenSays(c, watched, s, p, r, step);
        Extend(r);
        past := Append(past, step);
      } else {
        var part: nat :| part <= |c.encode(r)|;
        var left := if attached then file + c.encode(r)[..part] else file;
        DroppedSays(c, watched, s, p, r.name, left, failed);
        m, file := m - {r.name}, left;
        past := Failure(past, failed);
        ok := false;
      }
    }

    method Extend(r: Record)
      modifies this`m, this`file, this`records, this`sinceSync
      ensures Now() == Written(c, old(Now()), r)
    {
      m, file, records, sinceSync := Apply(m, r), file + c.encode(r), records + 1, sinceSync + 1;
    }

    /** Check: the verdict of the name's machine.  An unknown name is recorded with the
        tag it was read with. */
    method Check(name: Name, tag: Tag, now: Time, later: Time) returns (v: Verdict, ok: bool)
      requires Valid()
      modifies this
      ensures Valid()
      ensures v == Judge(At(old(m), name), tag)
      ensures !v.NotKnown? ==> ok && Now() == old(Now()) && past == Stepped(old(past), Checked(name, tag, v, false))
      ensures v.NotKnown? && ok ==> Bounded()
      ensures v.NotKnown? ==>
                || (!ok && m == old(m) && past == Failure(old(past), Checked(name, tag, v, false)))
                || Aged(old(m)[name := Entry(tag, PRESENT, now)], Append(old(past), Checked(name, tag, v, true)),
                        m, past, later, ok)
    {
      ghost var s, p := Now(), past;
      if name in m {
        var e := m[name];
        v := if e.kind == TOMBSTONE then Deleted else if e.tag == tag then Fresh else Stale;
        ghost var step := Checked(name, tag, v, false);
        JudgedSays(c, watched, s, p, step);
        past := Stepped(past, step);
        return v, true;
      }
      v := NotKnown;
      assert m - {name} == m;
      ok := Write(Record(name, Entry(tag, PRESENT, now)), Checked(name, tag, v, true), Checked(name, tag, v, false));
      if !ok {
        return;
      }
      ok := Maintain(later);
    }

    /** Record: the name's tag is this one. */
    method RecordTag(name: Name, tag: Tag, now: Time, later: Time) returns (r: Outcome)
      requires Valid()
      modifies this
      ensures Valid() && (r.Done? ==> Bounded())
      ensures r.NotWritten? ==> m == old(m) - {name} && past == Failure(old(past), Recorded(name, tag, false))
      ensures !r.NotWritten? ==>
                Aged(old(m)[name := Entry(tag, PRESENT, now)], Append(old(past), Recorded(name, tag, true)),
                     m, past, later, r.Done?)
    {
      var ok := Write(Record(name, Entry(tag, PRESENT, now)), Recorded(name, tag, true), Recorded(name, tag, false));
      if !ok {
        return NotWritten;
      }
      ok := Maintain(later);
      return if ok then Done else NotMaintained;
    }

    /** Forget: the name was deleted. */
    method Forget(name: Name, now: Time, later: Time) returns (r: Outcome)
      requires Valid()
      modifies this
      ensures Valid() && (r.Done? ==> Bounded())
      ensures r.NotWritten? ==> m == old(m) - {name} && past == Failure(old(past), Forgot(name, now, false))
      ensures !r.NotWritten? ==>
                Aged(old(m)[name := Entry(NO_TAG, TOMBSTONE, now)], Append(old(past), Forgot(name, now, true)),
                     m, past, later, r.Done?)
    {
      var ok := Write(Record(name, Entry(NO_TAG, TOMBSTONE, now)), Forgot(name, now, true), Forgot(name, now, false));
      if !ok {
        return NotWritten;
      }
      ok := Maintain(later);
      return if ok then Done else NotMaintained;
    }

    /** Invalidate: nothing is known of the name any more, on disk as in memory. */
    method Invalidate(name: Name, now: Time, later: Time) returns (r: Outcome)
      requires Valid()
      modifies this
      ensures Valid()
      ensures name !in old(m) ==> r.Done? && Now() == old(Now()) && past == Stepped(old(past), Invalidated(name))
      ensures name in old(m) && r.Done? ==> Bounded()
      ensures name in old(m) && r.NotWritten? ==> m == old(m) - {name} && past == Failure(old(past), Invalidated(name))
      ensures name in old(m) && !r.NotWritten? ==>
                Aged(old(m) - {name}, Append(old(past), Invalidated(name)), m, past, later, r.Done?)
    {
      if name !in m {
        JudgedSays(c, watched, Now(), past, Invalidated(name));
        past := Stepped(past, Invalidated(name));
        return Done;
      }
      var ok := Write(Record(name, Entry(NO_TAG, INVALID, now)), Invalidated(name), Invalidated(name));
      if !ok {
        return NotWritten;
      }
      ok := Maintain(later);
      return if ok then Done else NotMaintained;
    }
  }

  // ----------------------------------------------------------------- opening

  lemma FormatIsLawful(crc: Crc)
    ensures Lawful(FormatOf(Checksummed(crc)))
  {
    var f := FormatOf(Checksummed(crc));
    forall file: seq<byte>, r: Record
      ensures Appends(f, file, r)
    {
      FormatHolds(crc, file, r, 0);
    }
    forall t: Time
      ensures Starts(f, t)
    {
      FormatHolds(crc, [], Record(NO_TAG, Entry(NO_TAG, PRESENT, 0)), t);
    }
  }

  /** Open: load the file, and write a header if it held no record.  The index mirrors
      its file from then on if and only if the file was as long as its records take. */
  method Open(crc: Crc, file: seq<byte>, retention: int, syncEvery: int, now: Time, ghost watched: Name)
    returns (l: Option<Local>)
    ensures l.Some? <==> Load(Checksummed(crc), file).Ok?
    ensures l.Some? ==> && fresh(l.value) && l.value.Valid() && l.value.watched == watched
                        && l.value.c == FormatOf(Checksummed(crc))
                        && Index(l.value.m, l.value.records) == Load(Checksummed(crc), file).value
                        && l.value.file == Opened(Checksummed(crc), file, now)
                        && (l.value.past.clean <==> |file| == Length(l.value.records))
  {
    var c := Checksummed(crc);
    var loaded := LoadFile(c, file);
    if loaded.Err? {
      return None;
    }
    if |file| >= HEADER_SIZE {
      ReplayNoMarks(c, file, HEADER_SIZE, EMPTY);
    }
    FormatIsLawful(crc);
    var all := if loaded.value.records == 0 then file + Header(now) else file;
    ChecksummedRoundTrips(crc, Record(NO_TAG, Entry(NO_TAG, PRESENT, 0)), now);
    MirrorsExactly(c, file, now);
    var local := new Local(FormatOf(c), retention, syncEvery, loaded.value, all,
                           Contents(c, all) == Some(loaded.value), watched);
    return Some(local);
  }

  /** What holds of an index after every run: replaying a file no write to which has
      failed yields exactly the map; every verdict on any name was its machine's; and all
      the records written, compactions included, are at most two for each append beyond
      those of the file it started from. */
  lemma {:induction false} EveryRun(l: Local, crc: Crc, part: Trace)
    requires l.Valid() && l.c == FormatOf(Checksummed(crc))
    ensures l.past.clean ==> Load(Checksummed(crc), l.file) == Ok(Index(l.m, l.records))
    ensures Within(part, l.past.trace) && part.Then? && part.step.Checked? && part.step.name == l.watched ==>
              part.step.verdict == Judge(KeyRun(l.watched, l.past.from, part.before), part.step.tag)
    ensures l.past.wrote + l.records <= l.past.k0 + 2 * l.past.appends
  {
    if l.past.clean {
      assert l.c.contents(l.file) == Contents(Checksummed(crc), l.file);
      ContentsLoad(Checksummed(crc), l.file);
    }
    if Within(part, l.past.trace) && part.Then? && part.step.Checked? && part.step.name == l.watched {
      NoneWrong(l.watched, l.past.from, l.past.trace, part);
    }
  }

  datatype Op =
    | Checks(name: Name, tag: Tag, now: Time, later: Time)
    | Records(name: Name, tag: Tag, now: Time, later: Time)
    | Forgets(name: Name, now: Time, later: Time)
    | Invalidates(name: Name, now: Time, later: Time)

  /** The step an operation is, and the verdict it answers. */
  predicate Shows(op: Op, answer: Option<Verdict>, step: Step) {
    match op
    case Checks(name, tag, _, _) =>
      step.Checked? && step.name == name && step.tag == tag && answer == Some(step.verdict)
    case Records(name, tag, _, _) => step.Recorded? && step.name == name && step.tag == tag && answer == None
    case Forgets(name, now, _) => step.Forgot? && step.name == name && step.at == now && answer == None
    case Invalidates(name, _, _) => step == Invalidated(name) && answer == None
  }

  /** A trace without the compaction that may have come with its last operation. */
  function Uncompacted(retention: int, op: Op, trace: Trace): Trace {
    if trace.Then? && trace.step == Compacted(op.later - retention) then trace.before else trace
  }

  /** One step for each operation, in order, each perhaps followed by a compaction. */
  predicate TraceOf(retention: int, start: Trace, ops: seq<Op>, answers: seq<Option<Verdict>>, trace: Trace)
    decreases |ops|
  {
    if ops == [] || answers == [] then ops == [] && answers == [] && trace == start
    else
      var op := ops[|ops| - 1];
      var t := Uncompacted(retention, op, trace);
      && t.Then? && Shows(op, answers[|answers| - 1], t.step)
      && TraceOf(retention, start, ops[..|ops| - 1], answers[..|answers| - 1], t.before)
  }

  lemma {:induction false} TraceNext(retention: int, start: Trace, ops: seq<Op>, answers: seq<Option<Verdict>>,
                                     before: Trace, op: Op, answer: Option<Verdict>, trace: Trace)
    requires TraceOf(retention, start, ops, answers, before)
    requires var t := Uncompacted(retention, op, trace); t.Then? && Shows(op, answer, t.step) && t.before == before
    ensures TraceOf(retention, start, ops + [op], answers + [answer], trace)
  {
    assert (ops + [op])[..|ops|] == ops && (answers + [answer])[..|answers|] == answers;
  }

  /** Any sequence of operations, whichever of their writes fail: the trace of the run is
      that of the operations, with the verdicts they answered; the index stays valid, so
      those are the verdicts of the names' machines; no operation appends more than one
      record; and if none failed the file still mirrors the map. */
  method Run(l: Local, ops: seq<Op>) returns (done: bool, answers: seq<Option<Verdict>>)
    requires l.Valid()
    modifies l
    ensures l.Valid() && l.past.from == old(l.past.from) && l.past.k0 == old(l.past.k0)
    ensures TraceOf(l.retention, old(l.past.trace), ops, answers, l.past.trace)
    ensures old(l.past.appends) <= l.past.appends <= old(l.past.appends) + |ops|
    ensures done && old(l.past.clean) ==> l.past.clean
    ensures done && old(l.Bounded()) ==> l.Bounded()
  {
    done, answers := true, [];
    for i := 0 to |ops|
      invariant l.Valid() && l.past.from == old(l.past.from) && l.past.k0 == old(l.past.k0)
      invariant TraceOf(l.retention, old(l.past.trace), ops[..i], answers, l.past.trace)
      invariant old(l.past.appends) <= l.past.appends <= old(l.past.appends) + i
      invariant done && old(l.past.clean) ==> l.past.clean
      invariant done && old(l.Bounded()) ==> l.Bounded()
    {
      ghost var before := l.past.trace;
      var ok, answer := Perform(l, ops[i]);
      TraceNext(l.retention, old(l.past.trace), ops[..i], answers, before, ops[i], answer, l.past.trace);
      assert ops[..i] + [ops[i]] == ops[..i + 1];
      done, answers := done && ok, answers + [answer];
    }
    assert ops[..|ops|] == ops;
  }

  /** What an operation adds to the past: its step, perhaps a compaction, at most one append. */
  predicate Performed(retention: int, op: Op, answer: Option<Verdict>, ok: bool, p: Past, q: Past) {
    && q.from == p.from && q.k0 == p.k0 && p.appends <= q.appends <= p.appends + 1 && (ok && p.clean ==> q.clean)
    && var t := Uncompacted(retention, op, q.trace);
    t.Then? && Shows(op, answer, t.step) && t.before == p.trace
  }

  lemma Ages(l: Local, op: Op, answer: Option<Verdict>, ok: bool, p: Past, step: Step,
             m0: map<Name, Entry>, m1: map<Name, Entry>, q: Past)
    requires Shows(op, answer, step) && l.Aged(m0, Append(p, step), m1, q, op.later, ok)
    ensures Performed(l.retention, op, answer, ok, p, q)
  {
  }

  lemma Misses(retention: int, op: Op, answer: Option<Verdict>, p: Past, step: Step)
    requires Shows(op, answer, step)
    ensures Performed(retention, op, answer, false, p, Failure(p, step))
    ensures Performed(retention, op, answer, true, p, Stepped(p, step))
  {
  }

  method PerformCheck(l: Local, op: Op) returns (ok: bool, v: Verdict)
    requires l.Valid() && op.Checks?
    modifies l
    ensures l.Valid() && Performed(l.retention, op, Some(v), ok, old(l.past), l.past)
    ensures ok && old(l.Bounded()) ==> l.Bounded()
  {
    ghost var m, p := l.m, l.past;
    v, ok := l.Check(op.name, op.tag, op.now, op.later);
    Misses(l.retention, op, Some(v), p, Checked(op.name, op.tag, v, false));
    if v.NotKnown? && l.past != Failure(p, Checked(op.name, op.tag, v, false)) {
      Ages(l, op, Some(v), ok, p, Checked(op.name, op.tag, v, true), m[op.name := Entry(op.tag, PRESENT, op.now)], l.m, l.past);
    }
  }

  method PerformWrite(l: Local, op: Op) returns (ok: bool)
    requires l.Valid() && (op.Records? || op.Forgets?)
    modifies l
    ensures l.Valid() && Performed(l.retention, op, None, ok, old(l.past), l.past) && (ok ==> l.Bounded())
  {
    ghost var m, p := l.m, l.past;
    var r;
    if op.Records? {
      r := l.RecordTag(op.name, op.tag, op.now, op.later);
      if r.NotWritten? {
        Misses(l.retention, op, None, p, Recorded(op.name, op.tag, false));
      } else {
        Ages(l, op, None, r.Done?, p, Recorded(op.name, op.tag, true), m[op.name := Entry(op.tag, PRESENT, op.now)], l.m, l.past);
      }
    } else {
      r := l.Forget(op.name, op.now, op.later);
      if r.NotWritten? {
        Misses(l.retention, op, None, p, Forgot(op.name, op.now, false));
      } else {
        Ages(l, op, None, r.Done?, p, Forgot(op.name, op.now, true), m[op.name := Entry(NO_TAG, TOMBSTONE, op.now)], l.m, l.past);
      }
    }
    ok := r.Done?;
  }

  method PerformInvalidate(l: Local, op: Op) returns (ok: bool)
    requires l.Valid() && op.Invalidates?
    modifies l
    ensures l.Valid() && Performed(l.retention, op, None, ok, old(l.past), l.past)
    ensures ok && old(l.Bounded()) ==> l.Bounded()
  {
    ghost var m, p := l.m, l.past;
    var r := l.Invalidate(op.name, op.now, op.later);
    ok := r.Done?;
    Misses(l.retention, op, None, p, Invalidated(op.name));
    if op.name in m && !r.NotWritten? {
      Ages(l, op, None, ok, p, Invalidated(op.name), m - {op.name}, l.m, l.past);
    }
  }

  method Perform(l: Local, op: Op) returns (ok: bool, answer: Option<Verdict>)
    requires l.Valid()
    modifies l
    ensures l.Valid() && Performed(l.retention, op, answer, ok, old(l.past), l.past)
    ensures ok && old(l.Bounded()) ==> l.Bounded()
  {
    answer := None;
    if op.Checks? {
      var v;
      ok, v := PerformCheck(l, op);
      answer := Some(v);
    } else if op.Invalidates? {
      ok := PerformInvalidate(l, op);
    } else {
      ok := PerformWrite(l, op);
    }
  }

  /** What was appended after a torn tail is not read back, unless the window the tail
      begins happens to check. */
  lemma {:induction false} AppendedAfterTear(c: Codec, file: seq<byte>, tail: seq<byte>, more: seq<byte>)
    requires Contents(c, file).Some?
    requires |tail + more| >= RECORD_SIZE ==> c.decode((tail + more)[..RECORD_SIZE]).None?
    ensures Load(c, file + tail + more) == Load(c, file)
  {
    Assoc(file, tail, more);
    assert (file + (tail + more))[..HEADER_SIZE] == file[..HEADER_SIZE];
    TornTail(c, file, tail + more, HEADER_SIZE, EMPTY);
  }

  /** An index that restarts before its first record gets a second header, and the
      records after it are not read back, unless the window it begins happens to check. */
  lemma {:induction false} SecondHeader(c: Codec, t: Time, u: Time, more: seq<byte>)
    requires HeaderHolds(c, t)
    requires |c.header(u) + more| >= RECORD_SIZE ==> c.decode((c.header(u) + more)[..RECORD_SIZE]).None?
    ensures Load(c, c.header(t) + c.header(u) + more) == Ok(EMPTY)
  {
    ContentsHeader(c, t);
    AppendedAfterTear(c, c.header(t), c.header(u), more);
  }
}
