/**
What a file the verifier accepts is, said line by line of the records, the hashes and the
key alone; and what the report on it says.
*/
module AuditMeaning {
  import opened AuditRecord
  import opened AuditVerify
  import opened Base
  import opened Bytes

  predicate IsEntry(l: Line) { l.record.Some? && l.record.value.OfEntry? }

  predicate IsPoint(l: Line) { l.record.Some? && l.record.value.OfCheckpoint? }

  /** The entries among the first i lines. */
  function Entries(lines: seq<Line>, i: nat): nat
    requires i <= |lines|
  {
    if i == 0 then 0 else Entries(lines, i - 1) + if IsEntry(lines[i - 1]) then 1 else 0
  }

  function Points(lines: seq<Line>, i: nat): nat
    requires i <= |lines|
  {
    if i == 0 then 0 else Points(lines, i - 1) + if IsPoint(lines[i - 1]) then 1 else 0
  }

  function Bytesize(lines: seq<Line>, i: nat): nat
    requires i <= |lines|
  {
    if i == 0 then 0 else Bytesize(lines, i - 1) + lines[i - 1].length
  }

  /** The hash of the last entry among the first i lines, or of the head. */
  function Hashed(lines: seq<Line>, i: nat): seq<byte>
    requires i <= |lines|
  {
    if i == 0 then []
    else if IsEntry(lines[i - 1]) then lines[i - 1].record.value.entry.hash
    else if lines[i - 1].record.Some? && lines[i - 1].record.value.OfHead? then lines[i - 1].record.value.head.hash
    else Hashed(lines, i - 1)
  }

  /** The number of the last checkpoint among the first i lines, 0 if there is none. */
  function Pinned(lines: seq<Line>, i: nat): int
    requires i <= |lines|
  {
    if i == 0 then 0
    else if IsPoint(lines[i - 1]) then lines[i - 1].record.value.checkpoint.number
    else Pinned(lines, i - 1)
  }

  /** The first line: a head of this version, with the hash of its fields, and of the key. */
  predicate HeadRight(env: Env, l: Line) {
    && l.length <= 0x10_0000 && l.record.Some? && l.record.value.OfHead?
    && var h := l.record.value.head;
    && h.version == 1 && env.ofHead(h) == Some(h.hash) && (env.key.Some? ==> h.publicKey == env.key.value.text)
  }

  /** An entry: the next number, and the hash of its fields, the chain and the hash before it. */
  predicate EntryRight(env: Env, chain: seq<byte>, lines: seq<Line>, i: nat)
    requires i < |lines| && IsEntry(lines[i])
  {
    var e := lines[i].record.value.entry;
    && 0 <= e.size && 0 <= e.status <= 999 && e.number == (Entries(lines, i) + 1) % 0x1_0000_0000_0000_0000
    && env.ofEntry(e, chain, Hashed(lines, i)) == Some(e.hash)
  }

  /** A checkpoint: the number and the hash the chain stands at, and a signature the key
      accepts on what the checkpoint says. */
  predicate PointRight(env: Env, chain: seq<byte>, lines: seq<Line>, i: nat)
    requires i < |lines| && IsPoint(lines[i])
  {
    var p := lines[i].record.value.checkpoint;
    && p.number == Entries(lines, i) % 0x1_0000_0000_0000_0000 && p.hash == Hashed(lines, i)
    && (env.key.Some? ==> SignedBy(env, chain, p))
  }

  predicate SignedBy(env: Env, chain: seq<byte>, p: Checkpoint) {
    env.key.Some? && env.ofPoint(p, chain).Some? && env.key.value.accepts(env.ofPoint(p, chain).value, p.signature)
  }

  predicate LineRight(env: Env, chain: seq<byte>, lines: seq<Line>, i: nat)
    requires i < |lines|
  {
    && lines[i].length <= 0x10_0000 && (IsEntry(lines[i]) || IsPoint(lines[i]))
    && (IsEntry(lines[i]) ==> EntryRight(env, chain, lines, i))
    && (IsPoint(lines[i]) ==> PointRight(env, chain, lines, i))
  }

  /** The whole file. */
  predicate FileRight(env: Env, f: File) {
    && |f.lines| >= 1 && HeadRight(env, f.lines[0]) && f.torn <= 0x10_0000
    && var chain := f.lines[0].record.value.head.chain;
    && chain != [] && forall i | 1 <= i < |f.lines| :: LineRight(env, chain, f.lines, i)
  }

  /** A log holds what the first i lines say. */
  predicate Tells(log: Log, lines: seq<Line>, i: nat)
    requires 1 <= i <= |lines|
  {
    && lines[0].record == Some(OfHead(log.head)) && |log.entries| == Entries(lines, i)
    && Final(log) == Hashed(lines, i) && |log.points| == Points(lines, i) && log.size == Bytesize(lines, i)
    && Pinned(lines, i) == if log.points == [] then 0 else log.points[|log.points| - 1].number
  }

  lemma {:induction false} TellsFirst(env: Env, lines: seq<Line>)
    requires |lines| >= 1 && Begin(env, lines[0]).Some?
    ensures Tells(Begin(env, lines[0]).value, lines, 1)
  {
    assert Entries(lines, 0) == 0 && Points(lines, 0) == 0 && Bytesize(lines, 0) == 0 && Pinned(lines, 0) == 0;
  }

  lemma {:induction false} TellsNext(env: Env, lines: seq<Line>, i: nat, log: Log)
    requires 1 <= i < |lines| && Tells(log, lines, i) && Extend(env, log, lines[i]).Some?
    ensures Tells(Extend(env, log, lines[i]).value, lines, i + 1)
  {
  }

  /** What the log read from a beginning of the lines holds, in terms of those lines. */
  lemma {:induction false} LogMeans(env: Env, lines: seq<Line>, i: nat)
    requires 1 <= i <= |lines| && Read(env, lines[..i]).Some?
    ensures Tells(Read(env, lines[..i]).value, lines, i)
    decreases i
  {
    if i == 1 {
      assert lines[..1] == [lines[0]];
      TellsFirst(env, lines);
    } else {
      TakeOne(lines, i - 1);
      ReadAppend(env, lines[..i - 1], lines[i - 1]);
      LogMeans(env, lines, i - 1);
      TellsNext(env, lines, i - 1, Read(env, lines[..i - 1]).value);
    }
  }

  /** One line more. */
  lemma {:induction false} NextMeans(env: Env, lines: seq<Line>, i: nat, log: Log)
    requires env.bounded && 1 <= i < |lines| && Read(env, lines[..i]) == Some(log)
    ensures Extend(env, log, lines[i]).Some? <==> LineRight(env, log.head.chain, lines, i)
  {
    LogMeans(env, lines, i);
  }

  lemma {:induction false} ReadMeans(env: Env, lines: seq<Line>, i: nat)
    requires env.bounded && 1 <= i <= |lines| && HeadRight(env, lines[0])
    ensures Read(env, lines[..i]).Some? <==>
              forall j | 1 <= j < i :: LineRight(env, lines[0].record.value.head.chain, lines, j)
    decreases i
  {
    if i == 1 {
      assert lines[..1] == [lines[0]];
    } else {
      ReadMeans(env, lines, i - 1);
      TakeOne(lines, i - 1);
      ReadAppend(env, lines[..i - 1], lines[i - 1]);
      if Read(env, lines[..i - 1]).Some? {
        LogMeans(env, lines, i - 1);
        NextMeans(env, lines, i - 1, Read(env, lines[..i - 1]).value);
      }
    }
  }

  /** The verifier accepts a file if and only if its head, its entries in their numbers and
      hashes, and its checkpoints in their numbers, hashes and signatures are right. */
  lemma {:induction false} AcceptsExactly(env: Env, f: File)
    requires env.bounded
    ensures ReadFile(env, f).Some? <==> FileRight(env, f)
  {
    if |f.lines| >= 1 {
      assert f.lines[..|f.lines|] == f.lines && f.lines[..1] == [f.lines[0]];
      if HeadRight(env, f.lines[0]) {
        ReadMeans(env, f.lines, |f.lines|);
        if Read(env, f.lines).Some? {
          LogMeans(env, f.lines, |f.lines|);
        }
      } else if Read(env, f.lines).Some? {
        ReadPrefix(env, f.lines, 1);
      }
    }
  }

  /** And reports its head, how many entries and checkpoints it has, the hash it ends at, its
      intact bytes, whether bytes follow them, and how far it is signed: as far as the last
      checkpoint, and not at all where there was no key to check it with. */
  lemma {:induction false} ReportMeans(env: Env, f: File)
    requires ReadFile(env, f).Some?
    ensures var r, n := ReportOf(env, ReadFile(env, f).value, f.torn > 0), |f.lines|;
            && f.lines[0].record == Some(OfHead(r.head)) && r.entries == Entries(f.lines, n) % 0x1_0000_0000_0000_0000
            && r.finalHash == Hashed(f.lines, n) && r.checkpoints == Points(f.lines, n)
            && r.intact == Bytesize(f.lines, n) && (r.torn <==> f.torn > 0)
            && r.signedThrough == if env.key.Some? then Pinned(f.lines, n) else 0
  {
    assert f.lines[..|f.lines|] == f.lines;
    LogMeans(env, f.lines, |f.lines|);
  }

  lemma {:induction false} PinnedBy(lines: seq<Line>, n: nat) returns (i: nat)
    requires n <= |lines| && Pinned(lines, n) > 0
    ensures i < n && IsPoint(lines[i]) && lines[i].record.value.checkpoint.number == Pinned(lines, n)
  {
    if IsPoint(lines[n - 1]) {
      i := n - 1;
    } else {
      i := PinnedBy(lines, n - 1);
    }
  }

  /** What a report says is signed is signed: a checkpoint of that number is in the file, and
      the key accepts its signature. */
  lemma {:induction false} SignedThroughMeans(env: Env, f: File) returns (i: nat)
    requires env.bounded && ReadFile(env, f).Some? && ReportOf(env, ReadFile(env, f).value, f.torn > 0).signedThrough > 0
    ensures i < |f.lines| && IsPoint(f.lines[i])
    ensures var p, r := f.lines[i].record.value.checkpoint, ReportOf(env, ReadFile(env, f).value, f.torn > 0);
            p.number == r.signedThrough && SignedBy(env, r.head.chain, p)
  {
    ReportMeans(env, f);
    AcceptsExactly(env, f);
    i := PinnedBy(f.lines, |f.lines|);
    assert LineRight(env, f.lines[0].record.value.head.chain, f.lines, i);
  }

  // ---------------------------------------------------------- rotated files

  /** A file's head names the chain of the file before it, and the hash that ended at. */
  predicate Linked(a: File, b: File)
    requires |a.lines| >= 1 && a.lines[0].record.Some? && a.lines[0].record.value.OfHead?
    requires |b.lines| >= 1 && b.lines[0].record.Some? && b.lines[0].record.value.OfHead?
  {
    && b.lines[0].record.value.head.prevChain == a.lines[0].record.value.head.chain
    && b.lines[0].record.value.head.prevHash == Hashed(a.lines, |a.lines|)
  }

  predicate ChainRight(env: Env, files: seq<File>) {
    && (forall i | 0 <= i < |files| :: FileRight(env, files[i]))
    && (forall i | 1 <= i < |files| :: Linked(files[i - 1], files[i]))
  }

  lemma {:induction false} LinkedMeans(env: Env, a: File, b: File)
    requires env.bounded && ReadFile(env, a).Some? && ReadFile(env, b).Some? && FileRight(env, a) && FileRight(env, b)
    ensures Continues(ReadFile(env, a).value, ReadFile(env, b).value) <==> Linked(a, b)
  {
    assert a.lines[..|a.lines|] == a.lines && b.lines[..|b.lines|] == b.lines;
    LogMeans(env, a.lines, |a.lines|);
    LogMeans(env, b.lines, |b.lines|);
  }

  lemma {:induction false} ChainRightLast(env: Env, files: seq<File>)
    requires files != []
    ensures var n := |files| - 1;
            ChainRight(env, files) <==>
              && ChainRight(env, files[..n]) && FileRight(env, files[n])
              && (n > 0 ==> FileRight(env, files[n - 1]) && Linked(files[n - 1], files[n]))
  {
    var n := |files| - 1;
    var before := files[..n];
    assert forall i | 0 <= i < n :: before[i] == files[i];
    if ChainRight(env, before) && n > 0 {
      assert FileRight(env, before[n - 1]);
    }
  }

  /** VerifyChain accepts a sequence if and only if every file is right and each after the
      first is linked to the one before it. */
  lemma {:induction false} ChainExactly(env: Env, files: seq<File>)
    requires env.bounded
    ensures ReadAll(env, files).Some? <==> ChainRight(env, files)
    ensures ReadAll(env, files).Some? ==>
              |ReadAll(env, files).value| == |files| &&
              (files != [] ==> ReadFile(env, files[|files| - 1]) == Some(ReadAll(env, files).value[|files| - 1]))
    decreases |files|
  {
    if files != [] {
      var n := |files| - 1;
      ChainExactly(env, files[..n]);
      AcceptsExactly(env, files[n]);
      ChainRightLast(env, files);
      if n > 0 {
        assert files[..n][n - 1] == files[n - 1];
        AcceptsExactly(env, files[n - 1]);
        if ReadFile(env, files[n - 1]).Some? && ReadFile(env, files[n]).Some? {
          LinkedMeans(env, files[n - 1], files[n]);
        }
      }
    }
  }
}
