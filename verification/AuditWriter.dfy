/**
The writer of the audit log: appends, signed checkpoints, rotation, failed writes,
crashes and reopening.  Whether a write fails is chosen anew at every write.
*/
module AuditWriter {
  import opened AuditRecord
  import opened AuditVerify
  import opened Base
  import opened Bytes

  // -------------------------------------------------------- what is on disk

  /** The rotated files, oldest first, and the file being written. */
  datatype Disk = Disk(archives: seq<File>, lines: seq<Line>, torn: nat)

  /** The log files there are: the current one counts once it has its head. */
  function Files(d: Disk): seq<File> {
    if d.lines == [] then d.archives else d.archives + [File(d.lines, d.torn)]
  }

  /** VerifyChain accepts what is there. */
  predicate Whole(env: Env, d: Disk) { ReadAll(env, Files(d)).Some? }

  /** Everything the files record, in order. */
  function Recorded(files: seq<File>): seq<Entry> {
    if files == [] then [] else Recorded(files[..|files| - 1]) + EntriesOf(files[|files| - 1].lines)
  }

  lemma {:induction false} RecordedAppend(files: seq<File>, f: File)
    ensures Recorded(files + [f]) == Recorded(files) + EntriesOf(f.lines)
  {
    assert (files + [f])[..|files|] == files;
  }

  /** The current file replaced by another reading of the same head. */
  lemma {:induction false} Replace(env: Env, d: Disk, lines: seq<Line>, torn: nat)
    requires Whole(env, d) && d.lines != [] && lines != [] && Short(env, torn)
    requires Read(env, d.lines).Some? && Read(env, lines).Some?
    requires Read(env, lines).value.head == Read(env, d.lines).value.head
    ensures Whole(env, Disk(d.archives, lines, torn))
  {
    ReadAllAppend(env, d.archives, File(d.lines, d.torn));
    ReadAllAppend(env, d.archives, File(lines, torn));
  }

  /** A head that names the file before it. */
  lemma {:induction false} StartNext(env: Env, d: Disk, log: Log, l: Line, next: Log)
    requires Whole(env, d) && d.lines != [] && d.torn == 0 && Read(env, d.lines) == Some(log)
    requires Begin(env, l) == Some(next) && next.head.chain != [] && Continues(log, next)
    ensures Whole(env, Disk(d.archives + [File(d.lines, 0)], [l], 0))
  {
    ReadAllAppend(env, d.archives, File(d.lines, 0));
    ReadAllAppend(env, d.archives + [File(d.lines, 0)], File([l], 0));
  }

  lemma {:induction false} EntriesOfAppend(lines: seq<Line>, l: Line)
    ensures EntriesOf(lines + [l]) ==
            EntriesOf(lines) + if l.record.Some? && l.record.value.OfEntry? then [l.record.value.entry] else []
  {
    assert (lines + [l])[..|lines|] == lines;
  }

  lemma {:induction false} EntriesPrefix(lines: seq<Line>, k: nat)
    requires k <= |lines|
    ensures EntriesOf(lines[..k]) <= EntriesOf(lines)
    decreases |lines|
  {
    if k < |lines| {
      var n := |lines| - 1;
      EntriesPrefix(lines[..n], k);
      assert lines[..n][..k] == lines[..k];
    } else {
      assert lines[..k] == lines;
    }
  }

  lemma {:induction false} LinesFit(env: Env, lines: seq<Line>, i: nat)
    requires Read(env, lines).Some? && i < |lines|
    ensures Short(env, lines[i].length)
  {
    ReadPrefix(env, lines, i + 1);
    TakeOne(lines, i);
    ReadAppend(env, lines[..i], lines[i]);
  }

  // ------------------------------------------------- what the verifier bounds

  function Strict(env: Env): Env { env.(bounded := true) }

  /** The verifier accepts what is there. */
  predicate Accepted(env: Env, d: Disk) { Whole(Strict(env), d) }

  predicate InBounds(l: Line) {
    l.length <= MAX_LINE && (l.record.Some? && l.record.value.OfEntry? ==> 0 <= l.record.value.entry.status <= MAX_STATUS)
  }

  predicate LinesIn(lines: seq<Line>) { forall i | 0 <= i < |lines| :: InBounds(lines[i]) }

  predicate FileIn(f: File) { LinesIn(f.lines) && f.torn <= MAX_LINE }

  predicate FilesIn(files: seq<File>) { forall i | 0 <= i < |files| :: FileIn(files[i]) }

  lemma {:induction false} StrictRead(env: Env, lines: seq<Line>)
    requires !env.bounded
    ensures Read(Strict(env), lines) == if LinesIn(lines) then Read(env, lines) else None
  {
    var n := |lines| - 1;
    if n > 0 {
      StrictRead(env, lines[..n]);
      assert LinesIn(lines) <==> LinesIn(lines[..n]) && InBounds(lines[n]);
    }
  }

  lemma FilesInLast(files: seq<File>)
    requires files != []
    ensures FilesIn(files) <==> FilesIn(files[..|files| - 1]) && FileIn(files[|files| - 1])
  {
  }

  lemma {:induction false} StrictReadAll(env: Env, files: seq<File>)
    requires !env.bounded
    ensures ReadAll(Strict(env), files) == if FilesIn(files) then ReadAll(env, files) else None
  {
    var n := |files| - 1;
    if n >= 0 {
      StrictReadAll(env, files[..n]);
      StrictRead(env, files[n].lines);
      FilesInLast(files);
    }
  }

  /** The verifier accepts the files if and only if they read as a chain and keep to its
      bounds. */
  lemma {:induction false} AcceptedExactly(env: Env, d: Disk)
    requires !env.bounded
    ensures Accepted(env, d) <==> Whole(env, d) && FilesIn(Files(d))
  {
    StrictReadAll(env, Files(d));
  }

  /** The disk, if its files keep to the verifier's bounds. */
  function Within(d: Disk): Option<Disk> { if FilesIn(Files(d)) then Some(d) else None }

  lemma {:induction false} FilesInAppend(files: seq<File>, f: File)
    ensures FilesIn(files + [f]) <==> FilesIn(files) && FileIn(f)
  {
    var all := files + [f];
    assert all[|files|] == f;
    if FilesIn(all) {
      assert forall i | 0 <= i < |files| :: files[i] == all[i];
    }
  }

  lemma {:induction false} WithinLine(d: Disk, l: Line)
    requires d.lines != []
    ensures Within(d.(lines := d.lines + [l])).Some? <==> Within(d).Some? && InBounds(l)
  {
    var all := d.lines + [l];
    assert all[|d.lines|] == l && forall i | 0 <= i < |d.lines| :: all[i] == d.lines[i];
    FilesInAppend(d.archives, File(d.lines, d.torn));
    FilesInAppend(d.archives, File(all, d.torn));
  }

  lemma {:induction false} WithinNext(d: Disk, l: Line)
    requires d.lines != [] && d.torn == 0
    ensures Within(Disk(d.archives + [File(d.lines, 0)], [l], 0)).Some? <==> Within(d).Some? && InBounds(l)
  {
    FilesInAppend(d.archives + [File(d.lines, 0)], File([l], 0));
    assert LinesIn([l]) <==> InBounds([l][0]);
  }

  /** What can be on disk of a file whose first `synced` lines are. */
  predicate CutOf(lines: seq<Line>, torn: nat, full: seq<Line>, synced: nat) {
    && synced <= |lines| <= |full| && lines == full[..|lines|]
    && if |lines| == |full| then torn == 0 else torn < full[|lines|].length
  }

  lemma {:induction false} WithinCut(was: Disk, d: Disk, synced: nat)
    requires d.archives == was.archives && synced >= 1 && CutOf(d.lines, d.torn, was.lines, synced)
    ensures Within(was).Some? ==> Within(d).Some?
  {
    FilesInAppend(d.archives, File(d.lines, d.torn));
    FilesInAppend(was.archives, File(was.lines, was.torn));
    if LinesIn(was.lines) && |d.lines| < |was.lines| {
      assert InBounds(was.lines[|d.lines|]);
    }
  }

  /** Losing the tail keeps the files whole. */
  lemma {:induction false} StaysWhole(env: Env, was: Disk, d: Disk, synced: nat)
    requires d.archives == was.archives && synced >= 1 && Read(env, was.lines).Some?
    requires CutOf(d.lines, d.torn, was.lines, synced)
    ensures Whole(env, was) ==> Whole(env, d)
  {
    if |d.lines| < |was.lines| {
      LinesFit(env, was.lines, |d.lines|);
      assert Short(env, d.torn);
    }
    if Whole(env, was) {
      ReadPrefix(env, was.lines, |d.lines|);
      Replace(env, was, d.lines, d.torn);
    }
  }

  lemma PrefixOf<T>(a: seq<T>, b: seq<T>, c: seq<T>)
    requires b <= c
    ensures a + b <= a + c
  {
  }

  /** No line that was synced is lost, and nothing is made up. */
  lemma {:induction false} KeepsSynced(was: Disk, d: Disk, synced: nat)
    requires d.archives == was.archives && synced >= 1
    requires CutOf(d.lines, d.torn, was.lines, synced)
    ensures Recorded(was.archives) + EntriesOf(was.lines[..synced]) <= Recorded(Files(d)) <= Recorded(Files(was))
  {
    EntriesPrefix(was.lines, |d.lines|);
    EntriesPrefix(d.lines, synced);
    assert d.lines[..synced] == was.lines[..synced];
    RecordedAppend(was.archives, File(was.lines, was.torn));
    RecordedAppend(was.archives, File(d.lines, d.torn));
    PrefixOf(Recorded(was.archives), EntriesOf(d.lines[..synced]), EntriesOf(d.lines));
    PrefixOf(Recorded(was.archives), EntriesOf(d.lines), EntriesOf(was.lines));
  }

  // ---------------------------------------------------------- configuration

  /** A formatted timestamp. */
  type Stamp = s: seq<byte> | |s| <= 35

  /** A fresh chain id: eight random bytes in hexadecimal. */
  type ChainId = s: seq<byte> | |s| == 16 witness seq(16, _ => 48)

  /** A length the verifier reads: heads and checkpoints have one. */
  type Length = n: int | 1 <= n <= MAX_LINE witness 1

  /** One request, its names already encrypted. */
  datatype Event = Event(time: Stamp, op: seq<byte>, bucket: seq<byte>, key: seq<byte>, client: seq<byte>,
                         principal: seq<byte>, requestId: seq<byte>, status: i64, code: seq<byte>, kid: seq<byte>,
                         size: i64)

  /** How lines render, how checkpoints are signed, and when. */
  datatype Config = Config(env: Env, publicKey: seq<byte>, sign: seq<byte> -> seq<byte>,
                           headLength: Head -> Length, entryLength: Entry -> Positive, pointLength: Checkpoint -> Length,
                           every: int, rotateBytes: int)

  predicate HeadApart(env: Env, h: Head) { env.ofHead(h) == env.ofHead(h.(hash := [])) }

  predicate EntryApart(env: Env, e: Entry, chain: seq<byte>, prev: seq<byte>) {
    env.ofEntry(e, chain, prev) == env.ofEntry(e.(hash := []), chain, prev)
  }

  predicate PointApart(env: Env, p: Checkpoint, chain: seq<byte>) {
    env.ofPoint(p, chain) == env.ofPoint(p.(signature := []), chain)
  }

  predicate Verifies(key: PublicKey, sign: seq<byte> -> seq<byte>, m: seq<byte>) { key.accepts(m, sign(m)) }

  /** The key verifies what it signs, no hash covers the field it fills, and the writer's
      reading of its own files is not bounded. */
  ghost predicate Sound(c: Config) {
    && !c.env.bounded && c.env.key.Some? && c.env.key.value.text == c.publicKey
    && (forall m: seq<byte> :: Verifies(c.env.key.value, c.sign, m))
    && (forall h: Head :: HeadApart(c.env, h))
    && (forall e: Entry, chain: seq<byte>, prev: seq<byte> :: EntryApart(c.env, e, chain, prev))
    && (forall p: Checkpoint, chain: seq<byte> :: PointApart(c.env, p, chain))
  }

  /** The canonical hashes cover no field that is filled in afterwards. */
  lemma CanonicalApart(env: Env, hash: Hash)
    requires Canonical(env, hash)
    ensures forall h: Head :: HeadApart(env, h)
    ensures forall e: Entry, chain: seq<byte>, prev: seq<byte> :: EntryApart(env, e, chain, prev)
    ensures forall p: Checkpoint, chain: seq<byte> :: PointApart(env, p, chain)
  {
    forall h: Head
      ensures HeadApart(env, h)
    {
      assert HeadCanonical(env, hash, h) && HeadCanonical(env, hash, h.(hash := []));
      assert HeadFields(h) == HeadFields(h.(hash := []));
    }
    forall e: Entry, chain: seq<byte>, prev: seq<byte>
      ensures EntryApart(env, e, chain, prev)
    {
      assert EntryCanonical(env, hash, e, chain, prev) && EntryCanonical(env, hash, e.(hash := []), chain, prev);
      assert EntryFields(e, chain) == EntryFields(e.(hash := []), chain);
    }
    forall p: Checkpoint, chain: seq<byte>
      ensures PointApart(env, p, chain)
    {
      assert PointCanonical(env, hash, p, chain) && PointCanonical(env, hash, p.(signature := []), chain);
      assert PointFields(p, chain) == PointFields(p.(signature := []), chain);
    }
  }

  function Next(number: u64): u64 { (number + 1) % U64 }

  /** What an event becomes, but for its hash. */
  function Unhashed(ev: Event, number: u64): Entry {
    Entry(number, ev.time, ev.op, ev.bucket, ev.key, ev.client, ev.principal, ev.requestId, ev.status,
          ev.code, ev.kid, if ev.size < 0 then 0 else ev.size, [])
  }

  /** The entry an event becomes after a log. */
  function Made(c: Config, log: Log, ev: Event): Option<Entry> {
    var e := Unhashed(ev, Next(|log.entries| % U64));
    var h := c.env.ofEntry(e, log.head.chain, Final(log));
    if h.None? then None else Some(e.(hash := h.value))
  }

  /** The signed checkpoint of a log. */
  function Pointed(c: Config, log: Log, time: Stamp): Option<Checkpoint> {
    var p := Checkpoint(|log.entries| % U64, time, Final(log), []);
    var m := c.env.ofPoint(p, log.head.chain);
    if m.None? then None else Some(p.(signature := c.sign(m.value)))
  }

  /** A fresh head, linked to the file before it where there is one. */
  function Headed(c: Config, chain: seq<byte>, time: Stamp, prevChain: seq<byte>, prevHash: seq<byte>): Option<Head> {
    var h := Head(VERSION, chain, time, c.publicKey, prevChain, prevHash, []);
    var hash := c.env.ofHead(h);
    if hash.None? then None else Some(h.(hash := hash.value))
  }

  /** Which part of an event becomes which part of its entry. */
  lemma MadeMeans(c: Config, log: Log, ev: Event)
    requires Made(c, log, ev).Some?
    ensures var e := Made(c, log, ev).value;
            && e.number == (|log.entries| % 0x1_0000_0000_0000_0000 + 1) % 0x1_0000_0000_0000_0000
            && e.time == ev.time && e.op == ev.op && e.bucket == ev.bucket && e.key == ev.key && e.client == ev.client
            && e.principal == ev.principal && e.requestId == ev.requestId && e.status == ev.status && e.code == ev.code
            && e.kid == ev.kid && e.size == (if ev.size < 0 then 0 else ev.size)
            && c.env.ofEntry(e.(hash := []), log.head.chain, Final(log)) == Some(e.hash)
  {
  }

  /** A checkpoint says where the log stands, and is signed on that. */
  lemma PointedMeans(c: Config, log: Log, time: Stamp)
    requires Pointed(c, log, time).Some?
    ensures var p := Pointed(c, log, time).value;
            && p.number == |log.entries| % 0x1_0000_0000_0000_0000 && p.hash == Final(log) && p.time == time
            && c.env.ofPoint(p.(signature := []), log.head.chain).Some?
            && p.signature == c.sign(c.env.ofPoint(p.(signature := []), log.head.chain).value)
  {
  }

  /** A head is of this version, of this key, and names the chain before it. */
  lemma HeadedMeans(c: Config, chain: seq<byte>, time: Stamp, prevChain: seq<byte>, prevHash: seq<byte>)
    requires Headed(c, chain, time, prevChain, prevHash).Some?
    ensures var h := Headed(c, chain, time, prevChain, prevHash).value;
            && h.version == 1 && h.chain == chain && h.created == time && h.publicKey == c.publicKey
            && h.prevChain == prevChain && h.prevHash == prevHash && c.env.ofHead(h.(hash := [])) == Some(h.hash)
  {
  }

  /** What the writer appends is what the verifier expects next. */
  lemma MadeExtends(c: Config, log: Log, ev: Event)
    requires Sound(c) && Made(c, log, ev).Some?
    ensures EntryHolds(c.env, log.head, log.entries, Made(c, log, ev).value)
  {
    var e := Made(c, log, ev).value;
    assert EntryApart(c.env, e, log.head.chain, Final(log));
    NextNumber(|log.entries|);
  }

  lemma PointedExtends(c: Config, log: Log, time: Stamp)
    requires Sound(c) && Pointed(c, log, time).Some?
    ensures PointHolds(c.env, log.head, log.entries, Pointed(c, log, time).value)
  {
    var p := Pointed(c, log, time).value;
    assert PointApart(c.env, p, log.head.chain);
    assert Verifies(c.env.key.value, c.sign, c.env.ofPoint(p.(signature := []), log.head.chain).value);
  }

  lemma HeadedBegins(c: Config, chain: seq<byte>, time: Stamp, prevChain: seq<byte>, prevHash: seq<byte>)
    requires Sound(c) && Headed(c, chain, time, prevChain, prevHash).Some?
    ensures HeadHolds(c.env, Headed(c, chain, time, prevChain, prevHash).value)
  {
    assert HeadApart(c.env, Headed(c, chain, time, prevChain, prevHash).value);
  }

  /** A status and a length the verifier bounds and the writer does not: the line made of an
      event leaves a file that verifies if and only if both are within bounds, and one that
      is not spoils every longer file too. */
  lemma {:induction false} BoundsDecide(c: Config, lines: seq<Line>, log: Log, ev: Event, length: Positive, more: seq<Line>)
    requires Sound(c) && Read(Strict(c.env), lines) == Some(log) && Made(c, log, ev).Some?
    ensures var l := Line(Some(OfEntry(Made(c, log, ev).value)), length);
            var fits := 0 <= ev.status <= MAX_STATUS && length <= MAX_LINE;
            && (Read(Strict(c.env), lines + [l]).Some? <==> fits)
            && (!fits ==> Read(Strict(c.env), lines + [l] + more).None?)
  {
    var l := Line(Some(OfEntry(Made(c, log, ev).value)), length);
    ReadAppend(Strict(c.env), lines, l);
    if 0 <= ev.status <= MAX_STATUS && length <= MAX_LINE {
      MadeExtends(c, log, ev);
    } else {
      var all := lines + [l] + more;
      assert all[..|lines| + 1] == lines + [l];
      Unreadable(Strict(c.env), all, |lines| + 1);
    }
  }

  // ------------------------------------------------------- a writer's fields

  /** A writer's fields and the files it writes.  `synced` lines are known to be on disk;
      `taken` lines were in the file when this run took it over. */
  datatype State = State(disk: Disk, synced: nat, taken: nat, chain: seq<byte>, number: u64, hash: seq<byte>,
                         size: nat, dirty: bool, sinceC: nat, signedSeq: u64, broken: bool)

  /** The log the fields stand for: theirs, if the file they describe is the one there. */
  function Standing(c: Config, s: State): Option<Log> {
    var log := Read(c.env, s.disk.lines);
    if log.None? || s.broken || s.disk.torn != 0 || !(1 <= s.synced <= |s.disk.lines|) then None
    else if s.chain == [] || s.chain != log.value.head.chain || s.size != log.value.size then None
    else if s.number != |log.value.entries| % U64 || s.hash != Final(log.value) then None
    else log
  }

  /** The last sinceC lines are entries, right after a checkpoint or what the run took over. */
  predicate Counts(s: State) {
    var mark := |s.disk.lines| - s.sinceC;
    && 1 <= s.taken <= mark && (s.sinceC > 0 ==> s.dirty)
    && (forall i | mark <= i < |s.disk.lines| :: s.disk.lines[i].record.Some? && s.disk.lines[i].record.value.OfEntry?)
    && (s.taken < mark ==> s.disk.lines[mark - 1].record.Some? && s.disk.lines[mark - 1].record.value.OfCheckpoint?)
  }

  function All(s: State): seq<Entry> { Recorded(Files(s.disk)) }

  /** What is on disk for certain. */
  function Durable(s: State): seq<Entry> {
    Recorded(s.disk.archives) + if s.synced <= |s.disk.lines| then EntriesOf(s.disk.lines[..s.synced]) else []
  }

  /** How many entries that is. */
  function Count(s: State): nat {
    |Recorded(s.disk.archives)| + if s.synced <= |s.disk.lines| then |EntriesOf(s.disk.lines[..s.synced])| else 0
  }

  /** Of a file with a head, that head at least is on disk for certain. */
  predicate Rooted(s: State) { s.disk.lines != [] ==> 1 <= s.synced <= |s.disk.lines| }

  /** A step that failed: nothing durable is lost, nothing appears but what was being
      written, and the files stay whole, and within bounds if that is. */
  predicate Failed(c: Config, s: State, t: State, most: seq<Entry>, fits: bool) {
    && t.broken && Rooted(t) && (Whole(c.env, s.disk) ==> Whole(c.env, t.disk)) && Count(s) <= Count(t)
    && All(t) <= most && (fits && Within(s.disk).Some? ==> Within(t.disk).Some?)
  }

  lemma {:induction false} DurableIsThere(s: State)
    requires Rooted(s)
    ensures Durable(s) <= All(s) && Count(s) == |Durable(s)| <= |All(s)|
  {
    if s.disk.lines != [] {
      EntriesPrefix(s.disk.lines, s.synced);
      RecordedAppend(s.disk.archives, File(s.disk.lines, s.disk.torn));
      PrefixOf(Recorded(s.disk.archives), EntriesOf(s.disk.lines[..s.synced]), EntriesOf(s.disk.lines));
    }
  }

  lemma {:induction false} CountIsThere(s: State)
    requires Rooted(s)
    ensures Count(s) <= |All(s)|
  {
    DurableIsThere(s);
  }

  /** Where no fewer entries are durable and nothing before the end has changed, what was
      durable is there. */
  lemma {:induction false} DurableKept(s: State, t: State, more: seq<Entry>)
    requires Rooted(s) && Rooted(t) && Count(s) <= Count(t) && All(t) <= All(s) + more
    ensures Durable(s) <= All(t)
  {
    DurableIsThere(s);
    CountIsThere(t);
  }

  lemma {:induction false} AllAfter(d: Disk, l: Line)
    requires d.lines != []
    ensures Recorded(Files(d.(lines := d.lines + [l]))) ==
            Recorded(Files(d)) + if l.record.Some? && l.record.value.OfEntry? then [l.record.value.entry] else []
  {
    RecordedAppend(d.archives, File(d.lines, d.torn));
    RecordedAppend(d.archives, File(d.lines + [l], d.torn));
    EntriesOfAppend(d.lines, l);
    Assoc(Recorded(d.archives), EntriesOf(d.lines),
          if l.record.Some? && l.record.value.OfEntry? then [l.record.value.entry] else []);
  }

  /** The current file with one more line. */
  lemma {:induction false} GrowsWhole(c: Config, d: Disk, log: Log, l: Line)
    requires Read(c.env, d.lines) == Some(log) && d.torn == 0 && Extend(c.env, log, l).Some?
    ensures Read(c.env, d.lines + [l]) == Extend(c.env, log, l)
    ensures Whole(c.env, d) ==> Whole(c.env, d.(lines := d.lines + [l]))
  {
    ReadAppend(c.env, d.lines, l);
    if Whole(c.env, d) {
      Replace(c.env, d, d.lines + [l], 0);
    }
  }

  /** What a write that failed leaves of a disk, and what of it was synced. */
  lemma {:induction false} CutLeaves(s: State, l: Line, t: State)
    requires 1 <= s.synced <= |s.disk.lines| && t.disk.archives == s.disk.archives && t.synced == s.synced
    requires CutOf(t.disk.lines, t.disk.torn, s.disk.lines + [l], s.synced)
    ensures Rooted(t) && Count(t) == Count(s)
    ensures InBounds(l) && Within(s.disk).Some? ==> Within(t.disk).Some?
  {
    WithinLine(s.disk, l);
    WithinCut(s.disk.(lines := s.disk.lines + [l]), t.disk, s.synced);
    assert (s.disk.lines + [l])[..s.synced] == s.disk.lines[..s.synced] == t.disk.lines[..s.synced];
  }

  /** A write that failed: some of the line, or of the lines not yet synced, is missing. */
  lemma {:induction false} WriteFailed(c: Config, s: State, log: Log, l: Line, t: State)
    requires Standing(c, s) == Some(log) && Extend(c.env, log, l).Some?
    requires t.broken && t.disk.archives == s.disk.archives && t.synced == s.synced
    requires CutOf(t.disk.lines, t.disk.torn, s.disk.lines + [l], s.synced)
    ensures Failed(c, s, t, All(s) + (if l.record.Some? && l.record.value.OfEntry? then [l.record.value.entry] else []), InBounds(l))
  {
    var full := s.disk.(lines := s.disk.lines + [l]);
    GrowsWhole(c, s.disk, log, l);
    StaysWhole(c.env, full, t.disk, s.synced);
    KeepsSynced(full, t.disk, s.synced);
    CutLeaves(s, l, t);
    AllAfter(s.disk, l);
  }

  lemma {:induction false} Stopped(c: Config, s: State, t: State)
    requires Standing(c, s).Some? && t.broken && t.disk == s.disk && t.synced == s.synced
    ensures Failed(c, s, t, All(s), true)
  {
    DurableIsThere(s);
  }

  /** After an entry. */
  function Appended(c: Config, s: State, e: Entry): State {
    s.(disk := s.disk.(lines := s.disk.lines + [EntryLine(c, e)]), number := e.number, hash := e.hash, dirty := true,
       size := s.size + c.entryLength(e), sinceC := s.sinceC + 1)
  }

  function EntryLine(c: Config, e: Entry): Line { Line(Some(OfEntry(e)), c.entryLength(e)) }

  lemma {:induction false} AppendStands(c: Config, s: State, log: Log, ev: Event, e: Entry)
    requires Sound(c) && Standing(c, s) == Some(log) && Made(c, log, ev) == Some(e)
    ensures Extend(c.env, log, EntryLine(c, e)).Some?
    ensures Standing(c, Appended(c, s, e)) == Extend(c.env, log, EntryLine(c, e))
    ensures Whole(c.env, s.disk) ==> Whole(c.env, Appended(c, s, e).disk)
  {
    MadeExtends(c, log, ev);
    GrowsWhole(c, s.disk, log, EntryLine(c, e));
  }

  lemma {:induction false} SameSynced(lines: seq<Line>, l: Line, n: nat)
    requires n <= |lines|
    ensures (lines + [l])[..n] == lines[..n]
  {
  }

  lemma {:induction false} AppendCount(c: Config, s: State, e: Entry)
    requires 1 <= s.synced <= |s.disk.lines|
    ensures Count(Appended(c, s, e)) == Count(s)
  {
    SameSynced(s.disk.lines, EntryLine(c, e), s.synced);
  }

  /** One entry more, none of them more durable; and within the verifier's bounds only if the
      line is. */
  lemma {:induction false} AppendKeeps(c: Config, s: State, e: Entry)
    requires 1 <= s.synced <= |s.disk.lines|
    ensures All(Appended(c, s, e)) == All(s) + [e] && Count(Appended(c, s, e)) == Count(s)
    ensures Within(Appended(c, s, e).disk).Some? <==> Within(s.disk).Some? && InBounds(EntryLine(c, e))
  {
    WithinLine(s.disk, EntryLine(c, e));
    AllAfter(s.disk, EntryLine(c, e));
    AppendCount(c, s, e);
  }

  lemma AppendCounts(c: Config, s: State, e: Entry)
    requires Counts(s)
    ensures Counts(Appended(c, s, e))
  {
  }

  /** After a checkpoint, flushed and synced. */
  function Pinned(c: Config, s: State, p: Checkpoint): State {
    s.(disk := s.disk.(lines := s.disk.lines + [PointLine(c, p)]), synced := |s.disk.lines| + 1,
       size := s.size + c.pointLength(p), sinceC := 0, dirty := false, signedSeq := s.number)
  }

  function PointLine(c: Config, p: Checkpoint): Line { Line(Some(OfCheckpoint(p)), c.pointLength(p)) }

  lemma {:induction false} PinStands(c: Config, s: State, log: Log, time: Stamp, p: Checkpoint)
    requires Sound(c) && Standing(c, s) == Some(log) && Pointed(c, log, time) == Some(p)
    ensures Extend(c.env, log, PointLine(c, p)).Some?
    ensures Standing(c, Pinned(c, s, p)) == Extend(c.env, log, PointLine(c, p))
    ensures Whole(c.env, s.disk) ==> Whole(c.env, Pinned(c, s, p).disk)
  {
    PointedExtends(c, log, time);
    GrowsWhole(c, s.disk, log, PointLine(c, p));
  }

  /** A checkpoint makes everything durable. */
  lemma {:induction false} PinKeeps(c: Config, s: State, p: Checkpoint)
    requires s.disk.lines != []
    ensures All(Pinned(c, s, p)) == All(s) && Count(Pinned(c, s, p)) == |All(s)|
    ensures Within(Pinned(c, s, p).disk).Some? <==> Within(s.disk).Some?
  {
    WithinLine(s.disk, PointLine(c, p));
    AllAfter(s.disk, PointLine(c, p));
    var full := s.disk.lines + [PointLine(c, p)];
    assert full[..|s.disk.lines| + 1] == full;
    RecordedAppend(s.disk.archives, File(full, s.disk.torn));
  }

  lemma PinCounts(c: Config, s: State, p: Checkpoint)
    requires Counts(s)
    ensures Counts(Pinned(c, s, p))
  {
  }

  /** After a rotation: the file moved away, and a new head that names it. */
  function Rotated(c: Config, s: State, h: Head): State {
    s.(disk := Disk(s.disk.archives + [File(s.disk.lines, 0)], [HeadLine(c, h)], 0), synced := 1, taken := 1,
       chain := h.chain, number := 0, hash := h.hash, size := c.headLength(h), sinceC := 0, dirty := false)
  }

  function HeadLine(c: Config, h: Head): Line { Line(Some(OfHead(h)), c.headLength(h)) }

  lemma {:induction false} RotateStands(c: Config, s: State, log: Log, id: ChainId, time: Stamp, h: Head)
    requires Sound(c) && Standing(c, s) == Some(log) && Headed(c, id, time, s.chain, s.hash) == Some(h)
    ensures Standing(c, Rotated(c, s, h)) == Some(Log(h, [], [], c.headLength(h)))
    ensures Whole(c.env, s.disk) ==> Whole(c.env, Rotated(c, s, h).disk)
    ensures All(Rotated(c, s, h)) == All(s) && Counts(Rotated(c, s, h)) && Count(Rotated(c, s, h)) == |All(s)|
    ensures Within(Rotated(c, s, h).disk).Some? <==> Within(s.disk).Some?
  {
    WithinNext(s.disk, HeadLine(c, h));
    HeadedBegins(c, id, time, s.chain, s.hash);
    var l := HeadLine(c, h);
    if Whole(c.env, s.disk) {
      StartNext(c.env, s.disk, log, l, Log(h, [], [], l.length));
    }
    assert EntriesOf([l]) == EntriesOf([l][..0]) + [] && [l][..1] == [l];
    RecordedAppend(s.disk.archives + [File(s.disk.lines, 0)], File([l], 0));
  }

  /** A rotation that failed after the rename: the archives are whole, the new file has
      no head. */
  lemma {:induction false} RotateFailed(c: Config, s: State, t: State)
    requires Standing(c, s).Some? && t.broken
    requires t.disk.archives == s.disk.archives + [File(s.disk.lines, 0)] && t.disk.lines == []
    ensures Failed(c, s, t, All(s), true)
  {
    DurableIsThere(s);
  }

  lemma {:induction false} FailedLater(c: Config, s: State, mid: State, t: State)
    requires Failed(c, mid, t, All(mid), true) && All(mid) == All(s) && Count(s) <= Count(mid)
    requires Within(s.disk).Some? ==> Within(mid.disk).Some?
    requires Whole(c.env, s.disk) ==> Whole(c.env, mid.disk)
    ensures Failed(c, s, t, All(s), true)
  {
  }

  // -------------------------------------------------------------- the writer

  lemma {:induction false} IsAppended(c: Config, s: State, e: Entry, t: State)
    requires t.disk.archives == s.disk.archives && t.disk.lines == s.disk.lines + [EntryLine(c, e)] && t.disk.torn == s.disk.torn
    requires t.synced == s.synced && t.taken == s.taken && t.chain == s.chain && t.number == e.number && t.hash == e.hash
    requires t.size == s.size + c.entryLength(e) && t.dirty && t.sinceC == s.sinceC + 1
    requires t.signedSeq == s.signedSeq && t.broken == s.broken
    ensures t == Appended(c, s, e)
  {
  }

  lemma {:induction false} IsPinned(c: Config, s: State, p: Checkpoint, t: State)
    requires t.disk.archives == s.disk.archives && t.disk.lines == s.disk.lines + [PointLine(c, p)] && t.disk.torn == s.disk.torn
    requires t.synced == |s.disk.lines| + 1 && t.taken == s.taken && t.chain == s.chain && t.number == s.number
    requires t.hash == s.hash && t.size == s.size + c.pointLength(p) && !t.dirty && t.sinceC == 0
    requires t.signedSeq == s.number && t.broken == s.broken
    ensures t == Pinned(c, s, p)
  {
  }

  lemma {:induction false} IsRotated(c: Config, s: State, h: Head, t: State)
    requires t.disk.archives == s.disk.archives + [File(s.disk.lines, 0)] && t.disk.lines == [HeadLine(c, h)] && t.disk.torn == 0
    requires t.synced == 1 && t.taken == 1 && t.chain == h.chain && t.number == 0 && t.hash == h.hash
    requires t.size == c.headLength(h) && !t.dirty && t.sinceC == 0 && t.signedSeq == s.signedSeq && t.broken == s.broken
    ensures t == Rotated(c, s, h)
  {
  }

  /** What a checkpoint leaves: a writer that stands, everything signed or rotated away,
      every entry kept. */
  lemma {:induction false} CheckpointedStands(c: Config, s: State, log: Log, time: Stamp, id: ChainId, t: State)
    requires Sound(c) && Standing(c, s) == Some(log) && Counts(s) && Checkpointed(c, s, log, time, id) == Some(t)
    ensures Standing(c, t).Some? && Counts(t) && t.sinceC == 0 && !t.dirty
    ensures Whole(c.env, s.disk) ==> Whole(c.env, t.disk)
    ensures All(t) == All(s) && Count(t) == |All(t)| && (Within(t.disk).Some? <==> Within(s.disk).Some?)
  {
    var p := Pointed(c, log, time).value;
    PinStands(c, s, log, time, p);
    PinKeeps(c, s, p);
    PinCounts(c, s, p);
    var pinned := Pinned(c, s, p);
    if c.rotateBytes > 0 && pinned.size >= c.rotateBytes {
      RotateStands(c, pinned, Standing(c, pinned).value, id, time, Headed(c, id, time, pinned.chain, pinned.hash).value);
    }
  }

  lemma {:induction false} FailedAfterAppend(c: Config, s: State, e: Entry, mid: State, t: State)
    requires Within(mid.disk).Some? <==> Within(s.disk).Some? && InBounds(EntryLine(c, e))
    requires Failed(c, mid, t, All(mid), true) && All(mid) == All(s) + [e] && Count(mid) == Count(s)
    requires Whole(c.env, s.disk) ==> Whole(c.env, mid.disk)
    ensures Failed(c, s, t, All(s) + [e], InBounds(EntryLine(c, e)))
  {
  }

  /** After a checkpoint: where that fills the file, after the rotation. */
  function Checkpointed(c: Config, s: State, log: Log, time: Stamp, id: ChainId): Option<State> {
    var p := Pointed(c, log, time);
    if p.None? then None else
    var pinned := Pinned(c, s, p.value);
    if c.rotateBytes <= 0 || pinned.size < c.rotateBytes then Some(pinned) else
    var h := Headed(c, id, time, pinned.chain, pinned.hash);
    if h.None? then None else Some(Rotated(c, pinned, h.value))
  }

  /** A checkpoint moves the file away if and only if it has grown to the limit, if there is
      one; and leaves all but that last file as they were. */
  lemma RotatesWhenDue(c: Config, s: State, log: Log, time: Stamp, id: ChainId)
    requires Checkpointed(c, s, log, time, id).Some?
    ensures var t := Checkpointed(c, s, log, time, id).value;
            var due := c.rotateBytes > 0 && s.size + c.pointLength(Pointed(c, log, time).value) >= c.rotateBytes;
            t.disk.archives == s.disk.archives +
              if due then [File(s.disk.lines + [PointLine(c, Pointed(c, log, time).value)], 0)] else []
  {
  }

  class Writer {
    const c: Config
    var disk: Disk
    var synced: nat
    var taken: nat
    var chain: seq<byte>
    var number: u64
    var hash: seq<byte>
    var size: nat
    var dirty: bool
    var sinceC: nat
    var signedSeq: u64
    var broken: bool

    ghost function Now(): State
      reads this
    {
      State(disk, synced, taken, chain, number, hash, size, dirty, sinceC, signedSeq, broken)
    }

    /** Unless it is broken, the writer's fields stand for its file, and fewer than
        CheckpointEvery entries of this run are unsigned. */
    ghost predicate Valid()
      reads this
    {
      && Sound(c) && Rooted(Now())
      && (!broken ==> Standing(c, Now()).Some? && Counts(Now()) && (c.every > 0 ==> sinceC < c.every))
    }

    constructor (c: Config, disk: Disk, synced: nat, chain: seq<byte>, number: u64, hash: seq<byte>, size: nat)
      ensures this.c == c
      ensures Now() == State(disk, synced, |disk.lines|, chain, number, hash, size, false, 0, 0, false)
    {
      this.c, this.disk, this.chain, this.number, this.hash, this.size := c, disk, chain, number, hash, size;
      this.synced, taken, dirty, sinceC, signedSeq, broken := synced, |disk.lines|, false, 0, 0, false;
    }

    /** A failed write or sync: of what is not yet synced, some bytes may be missing. */
    method Lose(full: seq<Line>)
      requires synced <= |full|
      modifies this`disk, this`broken
      ensures broken && disk.archives == old(disk.archives) && CutOf(disk.lines, disk.torn, full, synced)
    {
      var keep: nat :| synced <= keep <= |full|;
      var torn: nat := 0;
      if keep < |full| {
        torn :| 0 <= torn < full[keep].length;
      }
      disk := disk.(lines := full[..keep], torn := torn);
      broken := true;
    }

    /** fail, where nothing was written. */
    method Fail()
      requires Standing(c, Now()).Some?
      modifies this`broken
      ensures Failed(c, old(Now()), Now(), All(old(Now())), true)
    {
      ghost var s := Now();
      broken := true;
      Stopped(c, s, Now());
    }

    /** fail, on a line the log would have continued with. */
    method FailWriting(line: Line, ghost log: Log)
      requires Standing(c, Now()) == Some(log) && Extend(c.env, log, line).Some?
      modifies this`disk, this`broken
      ensures Failed(c, old(Now()), Now(), All(old(Now())) +
                     (if line.record.Some? && line.record.value.OfEntry? then [line.record.value.entry] else []), InBounds(line))
    {
      ghost var s := Now();
      Lose(disk.lines + [line]);
      WriteFailed(c, s, log, line, Now());
    }

    method Wrote(e: Entry, line: Line)
      requires line == EntryLine(c, e)
      modifies this
      ensures Now() == Appended(c, old(Now()), e)
    {
      ghost var s := Now();
      disk := disk.(lines := disk.lines + [line]);
      number, hash, dirty := e.number, e.hash, true;
      size := size + line.length;
      sinceC := sinceC + 1;
      IsAppended(c, s, e, Now());
    }

    method Flushed(p: Checkpoint, line: Line)
      requires line == PointLine(c, p)
      modifies this
      ensures Now() == Pinned(c, old(Now()), p)
    {
      ghost var s := Now();
      disk := disk.(lines := disk.lines + [line]);
      synced := |disk.lines|;
      size := size + line.length;
      sinceC, dirty, signedSeq := 0, false, number;
      IsPinned(c, s, p, Now());
    }

    /** appendFile, up to the checkpoint that may be due. */
    method WriteEntry(ev: Event) returns (r: Result<Entry>)
      requires Sound(c) && Standing(c, Now()).Some?
      modifies this
      ensures var made := Made(c, Standing(c, old(Now())).value, ev);
              if r.Ok? then made == Some(r.value) && Now() == Appended(c, old(Now()), r.value)
              else Failed(c, old(Now()), Now(), All(old(Now())) + (if made.None? then [] else [made.value]),
                       made.Some? ==> InBounds(EntryLine(c, made.value)))
    {
      ghost var s, log := Now(), Standing(c, Now()).value;
      var e := Unhashed(ev, Next(number));
      var h := c.env.ofEntry(e, chain, hash);
      if h.None? {
        assert All(s) + [] == All(s);
        Fail();
        return Err;
      }
      e := e.(hash := h.value);
      AppendStands(c, s, log, ev, e);
      var ok: bool := *;
      if !ok {
        FailWriting(EntryLine(c, e), log);
        return Err;
      }
      Wrote(e, EntryLine(c, e));
      return Ok(e);
    }

    /** The new head is written: the fields follow. */
    method Started(head: Head)
      modifies this
      ensures Now() == Rotated(c, old(Now()), head)
    {
      ghost var s := Now();
      disk := Disk(disk.archives + [File(disk.lines, 0)], [HeadLine(c, head)], 0);
      synced, taken := 1, 1;
      chain, number, hash := head.chain, 0, head.hash;
      size := c.headLength(head);
      sinceC, dirty := 0, false;
      IsRotated(c, s, head, Now());
    }

    /** fail, past the rename: the file there is new and without a whole head. */
    method FailRotating()
      requires Standing(c, Now()).Some?
      modifies this`disk, this`broken
      ensures Failed(c, old(Now()), Now(), All(old(Now())), true)
    {
      ghost var s := Now();
      var torn: nat := *;
      disk := Disk(disk.archives + [File(disk.lines, 0)], [], torn);
      broken := true;
      RotateFailed(c, s, Now());
    }

    /** rotateLocked: close, rename, create, write the new head. */
    method RotateLocked(id: ChainId, time: Stamp) returns (ok: bool)
      requires Sound(c) && Standing(c, Now()).Some?
      modifies this
      ensures if ok then
                && Headed(c, id, time, old(chain), old(hash)).Some?
                && Now() == Rotated(c, old(Now()), Headed(c, id, time, old(chain), old(hash)).value)
              else Failed(c, old(Now()), Now(), All(old(Now())), true)
    {
      var moved: bool := *;
      if !moved {
        Fail();
        return false;
      }
      var head := Headed(c, id, time, chain, hash);
      ok := *;
      if head.None? || !ok {
        FailRotating();
        return false;
      }
      Started(head.value);
    }

    /** checkpointLocked: sign, write, sync. */
    method Pin(time: Stamp) returns (ok: bool)
      requires Sound(c) && Standing(c, Now()).Some?
      modifies this
      ensures var p := Pointed(c, Standing(c, old(Now())).value, time);
              if ok then p.Some? && Now() == Pinned(c, old(Now()), p.value)
              else Failed(c, old(Now()), Now(), All(old(Now())), true)
    {
      ghost var s, log := Now(), Standing(c, Now()).value;
      var p := Checkpoint.Checkpoint(number, time, hash, []);
      var message := c.env.ofPoint(p, chain);
      if message.None? {
        Fail();
        return false;
      }
      p := p.(signature := c.sign(message.value));
      PinStands(c, s, log, time, p);
      ok := *;
      if ok {
        Flushed(p, PointLine(c, p));
      } else {
        assert All(s) + [] == All(s);
        FailWriting(PointLine(c, p), log);
      }
    }

    /** checkpointLocked, and the rotation it may be time for. */
    method CheckpointLocked(id: ChainId, time: Stamp) returns (ok: bool)
      requires Sound(c) && Standing(c, Now()).Some?
      modifies this
      ensures if ok then Some(Now()) == Checkpointed(c, old(Now()), Standing(c, old(Now())).value, time, id)
              else Failed(c, old(Now()), Now(), All(old(Now())), true)
    {
      ghost var s, log := Now(), Standing(c, Now()).value;
      ok := Pin(time);
      if !ok {
        return;
      }
      ghost var pinned := Now();
      PinStands(c, s, log, time, Pointed(c, log, time).value);
      PinKeeps(c, s, Pointed(c, log, time).value);
      if c.rotateBytes > 0 && size >= c.rotateBytes {
        ok := RotateLocked(id, time);
        if !ok {
          DurableIsThere(s);
          FailedLater(c, s, pinned, Now());
        }
      }
    }

    /** Append: one more entry, then a checkpoint if one is due.  Once broken it stays so. */
    method Append(ev: Event, id: ChainId, time: Stamp) returns (r: Result<Entry>)
      requires Valid()
      modifies this
      ensures Valid() && (old(Whole(c.env, disk)) ==> Whole(c.env, disk))
      ensures old(broken) ==> r.Err? && Now() == old(Now())
      ensures r.Ok? ==> && !broken && Made(c, Standing(c, old(Now())).value, ev) == Some(r.value)
                        && All(Now()) == All(old(Now())) + [r.value]
                        && (Within(disk).Some? <==> Within(old(disk)).Some? && InBounds(EntryLine(c, r.value)))
                        && Count(old(Now())) <= Count(Now()) && (dirty || Count(Now()) == |All(Now())|)
      ensures !old(broken) && r.Err? ==>
                var made := Made(c, Standing(c, old(Now())).value, ev);
                Failed(c, old(Now()), Now(), All(old(Now())) + (if made.None? then [] else [made.value]),
                       made.Some? ==> InBounds(EntryLine(c, made.value)))
    {
      if broken {
        return Err;
      }
      ghost var s, log := Now(), Standing(c, Now()).value;
      r := WriteEntry(ev);
      if r.Err? {
        return;
      }
      ghost var mid := Now();
      CountIsThere(s);
      AppendStands(c, s, log, ev, r.value);
      AppendKeeps(c, s, r.value);
      AppendCounts(c, s, r.value);
      if c.every > 0 && sinceC >= c.every {
        var ok := CheckpointLocked(id, time);
        if ok {
          CheckpointedStands(c, mid, Standing(c, mid).value, time, id, Now());
        } else {
          FailedAfterAppend(c, s, r.value, mid, Now());
          return Err;
        }
      }
    }

    /** Checkpoint: nothing to do where nothing was written since the last one. */
    method TakeCheckpoint(id: ChainId, time: Stamp) returns (ok: bool)
      requires Valid()
      modifies this
      ensures Valid() && (old(Whole(c.env, disk)) ==> Whole(c.env, disk))
      ensures ok <==> !broken
      ensures old(broken) ==> Now() == old(Now())
      ensures ok ==> All(Now()) == All(old(Now())) && sinceC == 0 && (Within(disk).Some? <==> Within(old(disk)).Some?)
      ensures ok ==> if old(dirty) then Count(Now()) == |All(Now())| else Now() == old(Now())
      ensures !old(broken) && !ok ==> Failed(c, old(Now()), Now(), All(old(Now())), true)
    {
      if broken {
        return false;
      }
      if !dirty {
        return true;
      }
      ghost var s := Now();
      ok := CheckpointLocked(id, time);
      if ok {
        CheckpointedStands(c, s, Standing(c, s).value, time, id, Now());
      }
    }
  }
}
