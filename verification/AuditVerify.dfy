/**
The verifier of the audit log.  A file is its lines, each with what it parses to and
its length in bytes, newline included, and whatever follows the last newline.
*/
module AuditVerify {
  import opened AuditRecord
  import opened Base
  import opened Bytes

  const MAX_LINE := 0x10_0000   // 1 << 20
  const MAX_STATUS := 999

  type Positive = n: int | n >= 1 witness 1

  datatype Line = Line(record: Option<Record>, length: Positive)

  datatype File = File(lines: seq<Line>, torn: nat)

  /** The key signatures are checked under: its text, and what it accepts. */
  datatype PublicKey = PublicKey(text: seq<byte>, accepts: (seq<byte>, seq<byte>) -> bool)

  /** The three hashes of a record's fields, and the key to check signatures under.  The
      verifier bounds statuses and the length of a line; a reading that does not is what the
      writer, which bounds neither, keeps to. */
  datatype Env = Env(ofHead: Head -> Option<Digest>,
                     ofEntry: (Entry, seq<byte>, seq<byte>) -> Option<Digest>,
                     ofPoint: (Checkpoint, seq<byte>) -> Option<Digest>,
                     key: Option<PublicKey>,
                     bounded: bool)

  predicate HeadCanonical(env: Env, hash: Hash, h: Head) { env.ofHead(h) == HeadHash(hash, h) }

  predicate EntryCanonical(env: Env, hash: Hash, e: Entry, chain: seq<byte>, prev: seq<byte>) {
    env.ofEntry(e, chain, prev) == EntryHash(hash, e, chain, prev)
  }

  predicate PointCanonical(env: Env, hash: Hash, p: Checkpoint, chain: seq<byte>) {
    env.ofPoint(p, chain) == Signed(hash, p, chain)
  }

  /** The hashes are those of the canonical encoding. */
  ghost predicate Canonical(env: Env, hash: Hash) {
    && (forall h :: HeadCanonical(env, hash, h))
    && (forall e, chain, prev :: EntryCanonical(env, hash, e, chain, prev))
    && (forall p, chain :: PointCanonical(env, hash, p, chain))
  }

  /** A line, or what is left of one, is short enough. */
  predicate Short(env: Env, length: int) { env.bounded ==> length <= MAX_LINE }

  // ------------------------------------------------------- what a log must be

  /** What a file that verifies says. */
  datatype Log = Log(head: Head, entries: seq<Entry>, points: seq<Checkpoint>, size: nat)

  /** The hash a chain stands at: its last entry's, or its head's. */
  function StandsAt(head: Head, entries: seq<Entry>): seq<byte> {
    if entries == [] then head.hash else entries[|entries| - 1].hash
  }

  function Final(log: Log): seq<byte> { StandsAt(log.head, log.entries) }

  predicate HeadHolds(env: Env, h: Head) {
    && h.version == VERSION
    && env.ofHead(h) == Some(h.hash)
    && (env.key.Some? ==> h.publicKey == env.key.value.text)
  }

  /** An entry continues the ones before it. */
  predicate EntryHolds(env: Env, head: Head, before: seq<Entry>, e: Entry) {
    && 0 <= e.size && (env.bounded ==> 0 <= e.status <= MAX_STATUS)
    && e.number == (|before| + 1) % U64
    && env.ofEntry(e, head.chain, StandsAt(head, before)) == Some(e.hash)
  }

  /** A checkpoint records where the chain stood, signed if there is a key to check. */
  predicate PointHolds(env: Env, head: Head, before: seq<Entry>, p: Checkpoint) {
    && p.number == |before| % U64 && p.hash == StandsAt(head, before)
    && (env.key.Some? ==> && env.ofPoint(p, head.chain).Some?
                          && env.key.value.accepts(env.ofPoint(p, head.chain).value, p.signature))
  }

  function Begin(env: Env, l: Line): Option<Log> {
    if l.record.Some? && Short(env, l.length) && l.record.value.OfHead? && HeadHolds(env, l.record.value.head)
    then Some(Log(l.record.value.head, [], [], l.length)) else None
  }

  function Extend(env: Env, log: Log, l: Line): Option<Log> {
    if l.record.None? || !Short(env, l.length) then None else
    match l.record.value
    case OfHead(_) => None
    case OfEntry(e) =>
      if EntryHolds(env, log.head, log.entries, e)
      then Some(log.(entries := log.entries + [e], size := log.size + l.length)) else None
    case OfCheckpoint(p) =>
      if PointHolds(env, log.head, log.entries, p)
      then Some(log.(points := log.points + [p], size := log.size + l.length)) else None
  }

  /** The log in a file's lines: one head, then entries that continue it and
      checkpoints that record where it stood. */
  function Read(env: Env, lines: seq<Line>): Option<Log> {
    if lines == [] then None
    else if |lines| == 1 then Begin(env, lines[0])
    else
      var before := Read(env, lines[..|lines| - 1]);
      if before.None? then None else Extend(env, before.value, lines[|lines| - 1])
  }

  lemma {:induction false} ReadAppend(env: Env, lines: seq<Line>, l: Line)
    ensures Read(env, lines + [l]) ==
            if lines == [] then Begin(env, l)
            else if Read(env, lines).None? then None
            else Extend(env, Read(env, lines).value, l)
  {
    assert (lines + [l])[..|lines|] == lines;
  }

  /** Cutting a log at a line boundary after its head leaves a log, of the same head
      and with a beginning of its entries. */
  lemma {:induction false} ReadPrefix(env: Env, lines: seq<Line>, k: nat)
    requires Read(env, lines).Some? && 1 <= k <= |lines|
    ensures Read(env, lines[..k]).Some?
    ensures var part, whole := Read(env, lines[..k]).value, Read(env, lines).value;
            part.head == whole.head && part.entries <= whole.entries && part.points <= whole.points
    decreases |lines|
  {
    if k < |lines| {
      ReadPrefix(env, lines[..|lines| - 1], k);
      assert lines[..|lines| - 1][..k] == lines[..k];
    } else {
      assert lines[..k] == lines;
    }
  }

  /** What a line must be after the lines before it. */
  predicate Follows(env: Env, lines: seq<Line>, l: Line) {
    && HeadAt(lines).Some? && l.record.Some? && Short(env, l.length)
    && match l.record.value
       case OfHead(_) => false
       case OfEntry(e) => EntryHolds(env, HeadAt(lines).value, EntriesOf(lines), e)
       case OfCheckpoint(p) => PointHolds(env, HeadAt(lines).value, EntriesOf(lines), p)
  }

  function HeadAt(lines: seq<Line>): Option<Head> {
    if lines != [] && lines[0].record.Some? && lines[0].record.value.OfHead? then Some(lines[0].record.value.head) else None
  }

  /** The entries among the lines. */
  function EntriesOf(lines: seq<Line>): seq<Entry> {
    if lines == [] then [] else
    var r := lines[|lines| - 1].record;
    EntriesOf(lines[..|lines| - 1]) + if r.Some? && r.value.OfEntry? then [r.value.entry] else []
  }

  lemma {:induction false} ReadContents(env: Env, lines: seq<Line>)
    requires Read(env, lines).Some?
    ensures HeadAt(lines) == Some(Read(env, lines).value.head) && Read(env, lines).value.entries == EntriesOf(lines)
  {
    var n := |lines| - 1;
    if n > 0 {
      ReadContents(env, lines[..n]);
    } else {
      assert EntriesOf(lines[..0]) == [];
    }
  }

  /** Line by line: a file holds a log if and only if its first line begins one and
      every other follows the lines before it. */
  lemma {:induction false} ReadExactly(env: Env, lines: seq<Line>)
    requires |lines| >= 1
    ensures Read(env, lines).Some? <==>
              Begin(env, lines[0]).Some? && forall i | 1 <= i < |lines| :: Follows(env, lines[..i], lines[i])
  {
    assert lines[..|lines|] == lines;
    if Read(env, lines).Some? {
      ReadPrefix(env, lines, 1);
      forall i | 1 <= i < |lines|
        ensures Follows(env, lines[..i], lines[i])
      {
        ReadPrefix(env, lines, i + 1);
        TakeOne(lines, i);
        ReadAppend(env, lines[..i], lines[i]);
        ReadContents(env, lines[..i]);
      }
    } else if Begin(env, lines[0]).Some? && forall i | 1 <= i < |lines| :: Follows(env, lines[..i], lines[i]) {
      ReadGrows(env, lines, |lines|);
    }
  }

  lemma {:induction false} ReadGrows(env: Env, lines: seq<Line>, k: nat)
    requires 1 <= k <= |lines| && Begin(env, lines[0]).Some?
    requires forall i | 1 <= i < |lines| :: Follows(env, lines[..i], lines[i])
    ensures Read(env, lines[..k]).Some?
  {
    if k > 1 {
      ReadGrows(env, lines, k - 1);
      assert Follows(env, lines[..k - 1], lines[k - 1]);
      TakeOne(lines, k - 1);
      ReadAppend(env, lines[..k - 1], lines[k - 1]);
      ReadContents(env, lines[..k - 1]);
    }
  }

  // ------------------------------------------------------------------ Verify

  /** A file that verifies: its lines are a log of a named chain, and what was being
      written when it stopped is short enough to be a line. */
  function ReadFile(env: Env, f: File): Option<Log> {
    var log := Read(env, f.lines);
    if log.None? || log.value.head.chain == [] || !Short(env, f.torn) then None else log
  }

  datatype Report = Report(head: Head, entries: u64, finalHash: seq<byte>, checkpoints: nat,
                           signedThrough: u64, torn: bool, intact: nat)

  function ReportOf(env: Env, log: Log, torn: bool): Report {
    Report(log.head, |log.entries| % U64, Final(log), |log.points|,
           if env.key.None? || log.points == [] then 0 else log.points[|log.points| - 1].number, torn, log.size)
  }

  /** verifyHead */
  method VerifyHead(env: Env, h: Head) returns (ok: bool)
    ensures ok <==> HeadHolds(env, h)
  {
    if h.version != VERSION {
      return false;
    }
    var want := env.ofHead(h);
    return want.Some? && h.hash == want.value && (env.key.None? || h.publicKey == env.key.value.text);
  }

  lemma NextNumber(n: nat)
    ensures (n % U64 + 1) % U64 == (n + 1) % U64
  {
    var q, r := n / U64, n % U64;
    assert n == q * U64 + r;
    if r + 1 == U64 {
      assert n + 1 == (q + 1) * U64;
    }
  }

  /** verifyEntry, given how many entries went before and where the chain stands. */
  method VerifyEntry(env: Env, ghost log: Log, st: Report, e: Entry) returns (ok: bool)
    requires st == ReportOf(env, log, false)
    ensures ok <==> EntryHolds(env, log.head, log.entries, e)
  {
    NextNumber(|log.entries|);
    if e.size < 0 || (env.bounded && (e.status < 0 || e.status > MAX_STATUS)) || e.number != (st.entries + 1) % U64 {
      return false;
    }
    var want := env.ofEntry(e, st.head.chain, st.finalHash);
    return want.Some? && e.hash == want.value;
  }

  /** verifyCheckpoint */
  method VerifyCheckpoint(env: Env, ghost log: Log, st: Report, p: Checkpoint) returns (ok: bool)
    requires st == ReportOf(env, log, false)
    ensures ok <==> PointHolds(env, log.head, log.entries, p)
  {
    if p.number != st.entries || p.hash != st.finalHash {
      return false;
    }
    if env.key.None? {
      return true;
    }
    var message := env.ofPoint(p, st.head.chain);
    return message.Some? && env.key.value.accepts(message.value, p.signature);
  }

  /** verifyRecord before any head has been seen, and after. */
  method VerifyFirst(env: Env, l: Line) returns (r: Option<Report>)
    ensures r == match Begin(env, l) { case None => None case Some(log) => Some(ReportOf(env, log, false)) }
  {
    if !Short(env, l.length) || l.record.None? || !l.record.value.OfHead? {
      return None;
    }
    var h := l.record.value.head;
    var ok := VerifyHead(env, h);
    return if ok then Some(Report(h, 0, h.hash, 0, 0, false, l.length)) else None;
  }

  method VerifyNext(env: Env, ghost log: Log, st: Report, l: Line) returns (r: Option<Report>)
    requires st == ReportOf(env, log, false)
    ensures r == match Extend(env, log, l) { case None => None case Some(next) => Some(ReportOf(env, next, false)) }
  {
    if !Short(env, l.length) || l.record.None? {
      return None;
    }
    match l.record.value {
      case OfHead(_) =>
        return None;
      case OfEntry(e) =>
        var ok := VerifyEntry(env, log, st, e);
        if !ok {
          return None;
        }
        return Some(st.(entries := e.number, finalHash := e.hash, intact := st.intact + l.length));
      case OfCheckpoint(p) =>
        var ok := VerifyCheckpoint(env, log, st, p);
        if !ok {
          return None;
        }
        var signed := if env.key.Some? then p.number else st.signedThrough;
        return Some(st.(checkpoints := st.checkpoints + 1, signedThrough := signed, intact := st.intact + l.length));
    }
  }

  /** A chain always stands at a hash: never at the empty string that means no head yet. */
  lemma {:induction false} StandsSomewhere(env: Env, lines: seq<Line>)
    requires Read(env, lines).Some?
    ensures |Final(Read(env, lines).value)| == 64
  {
    var n := |lines| - 1;
    if n > 0 {
      StandsSomewhere(env, lines[..n]);
    }
  }

  /** Verify: the loop over the lines.  It accepts exactly the files that hold a log,
      and reports what that log says. */
  method Verify(env: Env, f: File) returns (r: Option<Report>)
    ensures r == match ReadFile(env, f) { case None => None case Some(log) => Some(ReportOf(env, log, f.torn > 0)) }
  {
    var lines := f.lines;
    var st := Report(NO_HEAD, 0, [], 0, 0, false, 0);
    for i := 0 to |lines|
      invariant i == 0 ==> st.finalHash == []
      invariant i > 0 ==> Read(env, lines[..i]).Some? && st == ReportOf(env, Read(env, lines[..i]).value, false)
    {
      TakeOne(lines, i);
      ReadAppend(env, lines[..i], lines[i]);
      var next: Option<Report>;
      if st.finalHash == [] {
        if i > 0 {
          StandsSomewhere(env, lines[..i]);
        }
        next := VerifyFirst(env, lines[i]);
      } else {
        next := VerifyNext(env, Read(env, lines[..i]).value, st, lines[i]);
      }
      if next.None? {
        Unreadable(env, lines, i + 1);
        return None;
      }
      st := next.value;
    }
    assert lines[..|lines|] == lines;
    if st.finalHash == [] || st.head.chain == [] || !Short(env, f.torn) {
      if |lines| > 0 && Read(env, lines).Some? {
        StandsSomewhere(env, lines);
      }
      return None;
    }
    return Some(st.(torn := f.torn > 0));
  }

  const NO_HEAD := Head(0, [], [], [], [], [], [])

  lemma {:induction false} Unreadable(env: Env, lines: seq<Line>, k: nat)
    requires 1 <= k <= |lines| && Read(env, lines[..k]).None?
    ensures Read(env, lines).None?
  {
    if Read(env, lines).Some? {
      ReadPrefix(env, lines, k);
    }
  }

  // ------------------------------------------------------------- VerifyChain

  /** A log names the one before it and the hash that ended at. */
  predicate Continues(before: Log, log: Log) {
    log.head.prevChain == before.head.chain && log.head.prevHash == Final(before)
  }

  function Join(before: Option<seq<Log>>, log: Option<Log>): Option<seq<Log>> {
    if before.None? || log.None? then None
    else if before.value != [] && !Continues(before.value[|before.value| - 1], log.value) then None
    else Some(before.value + [log.value])
  }

  /** The logs in a sequence of files, each continuing the one before it. */
  function ReadAll(env: Env, files: seq<File>): Option<seq<Log>> {
    if files == [] then Some([])
    else Join(ReadAll(env, files[..|files| - 1]), ReadFile(env, files[|files| - 1]))
  }

  lemma {:induction false} ReadAllAppend(env: Env, files: seq<File>, f: File)
    ensures ReadAll(env, files + [f]) == Join(ReadAll(env, files), ReadFile(env, f))
  {
    assert (files + [f])[..|files|] == files;
  }

  lemma {:induction false} ReadAllPrefix(env: Env, files: seq<File>, k: nat)
    requires ReadAll(env, files).Some? && k <= |files|
    ensures ReadAll(env, files[..k]).Some? && |ReadAll(env, files).value| == |files|
    ensures ReadAll(env, files[..k]).value == ReadAll(env, files).value[..k]
    decreases |files|
  {
    if k < |files| {
      ReadAllPrefix(env, files[..|files| - 1], k);
      assert files[..|files| - 1][..k] == files[..k];
      ReadAllPrefix(env, files[..|files| - 1], |files| - 1);
    } else {
      assert files[..k] == files;
      if files != [] {
        ReadAllPrefix(env, files[..|files| - 1], |files| - 1);
      }
    }
  }

  /** One more file, after the logs already read. */
  method VerifyAfter(env: Env, ghost logs: seq<Log>, last: Option<Report>, f: File) returns (r: Option<Report>)
    requires last.Some? <==> logs != []
    requires logs != [] ==> last.value.head == logs[|logs| - 1].head && last.value.finalHash == Final(logs[|logs| - 1])
    ensures r.Some? <==> Join(Some(logs), ReadFile(env, f)).Some?
    ensures r.Some? ==> r.value == ReportOf(env, ReadFile(env, f).value, f.torn > 0)
  {
    r := Verify(env, f);
    if r.Some? && last.Some? {
      if r.value.head.prevChain != last.value.head.chain || r.value.head.prevHash != last.value.finalHash {
        return None;
      }
    }
  }

  predicate Reports(env: Env, logs: seq<Log>, files: seq<File>, reports: seq<Report>) {
    && |logs| == |files| == |reports|
    && forall i | 0 <= i < |logs| :: reports[i] == ReportOf(env, logs[i], files[i].torn > 0)
  }

  lemma ReportsAppend(env: Env, logs: seq<Log>, files: seq<File>, reports: seq<Report>, log: Log, f: File)
    requires Reports(env, logs, files, reports)
    ensures Reports(env, logs + [log], files + [f], reports + [ReportOf(env, log, f.torn > 0)])
  {
  }

  /** VerifyChain: accepts exactly the linked sequences, with one report a file. */
  method VerifyChain(env: Env, files: seq<File>) returns (r: Option<seq<Report>>)
    ensures r.Some? <==> files != [] && ReadAll(env, files).Some?
    ensures r.Some? ==> Reports(env, ReadAll(env, files).value, files, r.value)
  {
    var results: seq<Report> := [];
    ghost var logs: seq<Log> := [];
    for i := 0 to |files|
      invariant ReadAll(env, files[..i]) == Some(logs)
      invariant Reports(env, logs, files[..i], results)
    {
      TakeOne(files, i);
      ReadAllAppend(env, files[..i], files[i]);
      var last := if i == 0 then None else Some(results[i - 1]);
      var result := VerifyAfter(env, logs, last, files[i]);
      if result.None? {
        NotLinked(env, files, i + 1);
        return None;
      }
      ghost var log := ReadFile(env, files[i]).value;
      ReportsAppend(env, logs, files[..i], results, log, files[i]);
      results := results + [result.value];
      logs := logs + [log];
    }
    assert files[..|files|] == files;
    return if |results| == 0 then None else Some(results);
  }

  lemma {:induction false} NotLinked(env: Env, files: seq<File>, k: nat)
    requires k <= |files| && ReadAll(env, files[..k]).None?
    ensures ReadAll(env, files).None?
  {
    if ReadAll(env, files).Some? {
      ReadAllPrefix(env, files, k);
    }
  }
}
