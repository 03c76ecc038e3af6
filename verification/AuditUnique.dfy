/**
A chain hash stands for one history.  Every lemma here ends either in the claim or in one
record of each log, pointed at, whose canonical bytes differ and hash alike: no hash is
injective, but one that is so on the records of the logs at hand proves the claim.
*/
module AuditUnique {
  import opened AuditRecord
  import opened AuditVerify
  import opened Base
  import opened Bytes

  /** What verifies is read by the verifier: with the canonical hashes, and with bounds. */
  ghost predicate Verifier(env: Env, hash: Hash) { env.bounded && Canonical(env, hash) }

  /** The entries of a log continue its head. */
  predicate Chain(env: Env, head: Head, entries: seq<Entry>) {
    && HeadHolds(env, head)
    && (entries != [] ==> && EntryHolds(env, head, entries[..|entries| - 1], entries[|entries| - 1])
                          && Chain(env, head, entries[..|entries| - 1]))
  }

  lemma {:induction false} ReadChain(env: Env, lines: seq<Line>)
    requires Read(env, lines).Some?
    ensures Chain(env, Read(env, lines).value.head, Read(env, lines).value.entries)
  {
    var n := |lines| - 1;
    if n > 0 {
      ReadChain(env, lines[..n]);
      var before := Read(env, lines[..n]).value;
      var r := lines[n].record.value;
      if r.OfEntry? {
        assert (before.entries + [r.entry])[..|before.entries|] == before.entries;
      }
    }
  }

  /** The bytes whose hash a chain stands at. */
  function Covered(head: Head, entries: seq<Entry>): seq<byte> {
    if entries == [] then HeadBytes(head)
    else EntryBytes(entries[|entries| - 1], head.chain, StandsAt(head, entries[..|entries| - 1]))
  }

  lemma {:induction false} StandsAtCovered(hash: Hash, env: Env, head: Head, entries: seq<Entry>)
    requires Verifier(env, hash) && Chain(env, head, entries)
    ensures StandsAt(head, entries) == hash(Covered(head, entries))
  {
    if entries == [] {
      assert HeadCanonical(env, hash, head);
    } else {
      var n := |entries| - 1;
      assert EntryCanonical(env, hash, entries[n], head.chain, StandsAt(head, entries[..n]));
    }
  }

  /** Equal covered bytes: equal last records, standing on equal hashes. */
  lemma {:induction false} CoveredInjective(hash: Hash, env1: Env, g: Head, ds: seq<Entry>, env2: Env, h: Head, es: seq<Entry>)
    requires Verifier(env1, hash) && Verifier(env2, hash)
    requires Chain(env1, g, ds) && Chain(env2, h, es) && Covered(g, ds) == Covered(h, es)
    requires StandsAt(g, ds) == StandsAt(h, es)
    ensures ds == [] <==> es == []
    ensures ds == [] ==> g == h
    ensures ds != [] ==>
              && ds[|ds| - 1] == es[|es| - 1] && g.chain == h.chain
              && StandsAt(g, ds[..|ds| - 1]) == StandsAt(h, es[..|es| - 1])
  {
    if ds == [] && es == [] {
      assert HeadCanonical(env1, hash, g) && HeadCanonical(env2, hash, h);
      HeadBytesInjective(g, h);
    } else if ds == [] {
      DomainsDisjoint(g, es[|es| - 1], Checkpoint(0, [], [], []), h.chain, StandsAt(h, es[..|es| - 1]), []);
    } else if es == [] {
      DomainsDisjoint(h, ds[|ds| - 1], Checkpoint(0, [], [], []), g.chain, StandsAt(g, ds[..|ds| - 1]), []);
    } else {
      var d, e := ds[|ds| - 1], es[|es| - 1];
      var p, q := StandsAt(g, ds[..|ds| - 1]), StandsAt(h, es[..|es| - 1]);
      assert EntryCanonical(env1, hash, d, g.chain, p) && EntryCanonical(env2, hash, e, h.chain, q);
      EntryBytesInjective(d, g.chain, p, e, h.chain, q);
    }
  }

  lemma SameSeq<T>(a: seq<T>, b: seq<T>)
    requires a != [] && b != [] && a[|a| - 1] == b[|b| - 1]
    ensures a[..|a| - 1] == b[..|b| - 1] ==> a == b
  {
    assert a == a[..|a| - 1] + [a[|a| - 1]] && b == b[..|b| - 1] + [b[|b| - 1]];
  }

  /** The hash collides on the last records of two beginnings of the chains, which go on
      alike from there. */
  predicate CollideAt(hash: Hash, g: Head, ds: seq<Entry>, h: Head, es: seq<Entry>, i: nat, j: nat) {
    && i <= |ds| && j <= |es| && ds[i..] == es[j..]
    && Covered(g, ds[..i]) != Covered(h, es[..j]) && hash(Covered(g, ds[..i])) == hash(Covered(h, es[..j]))
  }

  lemma CutTwice<T>(s: seq<T>, i: nat)
    requires s != [] && i <= |s| - 1
    ensures s[..|s| - 1][..i] == s[..i] && s[i..] == s[..|s| - 1][i..] + [s[|s| - 1]]
  {
  }

  lemma {:induction false} CollideLonger(hash: Hash, g: Head, ds: seq<Entry>, h: Head, es: seq<Entry>, i: nat, j: nat)
    requires ds != [] && es != [] && ds[|ds| - 1] == es[|es| - 1]
    requires CollideAt(hash, g, ds[..|ds| - 1], h, es[..|es| - 1], i, j)
    ensures CollideAt(hash, g, ds, h, es, i, j)
  {
    CutTwice(ds, i);
    CutTwice(es, j);
  }

  /** Chains that stand at one hash are one chain, or the hash collides on two records of
      theirs. */
  lemma {:induction false} OneHistory(hash: Hash, env1: Env, g: Head, ds: seq<Entry>, env2: Env, h: Head, es: seq<Entry>)
    returns (i: nat, j: nat)
    requires Verifier(env1, hash) && Verifier(env2, hash)
    requires Chain(env1, g, ds) && Chain(env2, h, es) && StandsAt(g, ds) == StandsAt(h, es)
    ensures (g == h && ds == es) || CollideAt(hash, g, ds, h, es, i, j)
    decreases |ds|
  {
    StandsAtCovered(hash, env1, g, ds);
    StandsAtCovered(hash, env2, h, es);
    i, j := |ds|, |es|;
    assert ds[..i] == ds && es[..j] == es;
    if Covered(g, ds) == Covered(h, es) {
      CoveredInjective(hash, env1, g, ds, env2, h, es);
      if ds != [] {
        i, j := OneHistory(hash, env1, g, ds[..|ds| - 1], env2, h, es[..|es| - 1]);
        SameSeq(ds, es);
        if CollideAt(hash, g, ds[..|ds| - 1], h, es[..|es| - 1], i, j) {
          CollideLonger(hash, g, ds, h, es, i, j);
        }
      }
    }
  }

  predicate SameLog(f: Log, g: Log) { f.head == g.head && f.entries == g.entries }

  predicate LogsCollide(hash: Hash, f: Log, g: Log, i: nat, j: nat) {
    CollideAt(hash, f.head, f.entries, g.head, g.entries, i, j)
  }

  predicate Chains(env: Env, log: Log) { Chain(env, log.head, log.entries) }

  /** Two logs that verify and end at the same hash have the same head and the same
      entries, whatever keys they were verified under. */
  lemma {:induction false} SameFinalHash(hash: Hash, env1: Env, f: File, env2: Env, g: File)
    returns (i: nat, j: nat)
    requires Verifier(env1, hash) && Verifier(env2, hash)
    requires ReadFile(env1, f).Some? && ReadFile(env2, g).Some?
    requires Final(ReadFile(env1, f).value) == Final(ReadFile(env2, g).value)
    ensures var a, b := ReadFile(env1, f).value, ReadFile(env2, g).value;
            SameLog(a, b) || LogsCollide(hash, a, b, i, j)
  {
    ReadChain(env1, f.lines);
    ReadChain(env2, g.lines);
    var a, b := ReadFile(env1, f).value, ReadFile(env2, g).value;
    i, j := OneHistory(hash, env1, a.head, a.entries, env2, b.head, b.entries);
  }

  // ---------------------------------------------------------- rotated files

  /** Logs of which each continues the one before it. */
  predicate LinkedLogs(env: Env, logs: seq<Log>) {
    logs == [] || (&& Chains(env, logs[|logs| - 1])
                   && (|logs| > 1 ==> Continues(logs[|logs| - 2], logs[|logs| - 1]))
                   && LinkedLogs(env, logs[..|logs| - 1]))
  }

  lemma {:induction false} LinkedAppend(env: Env, logs: seq<Log>, log: Log)
    requires LinkedLogs(env, logs) && Chains(env, log) && (logs != [] ==> Continues(logs[|logs| - 1], log))
    ensures LinkedLogs(env, logs + [log])
  {
    assert (logs + [log])[..|logs|] == logs;
  }

  lemma {:induction false} ReadAllLinked(env: Env, files: seq<File>)
    requires ReadAll(env, files).Some?
    ensures LinkedLogs(env, ReadAll(env, files).value) && |ReadAll(env, files).value| == |files|
  {
    var n := |files| - 1;
    if n >= 0 {
      ReadAllLinked(env, files[..n]);
      ReadChain(env, files[n].lines);
      LinkedAppend(env, ReadAll(env, files[..n]).value, ReadFile(env, files[n]).value);
    }
  }

  /** The logs agree from the last one back, as far as both go. */
  predicate AgreeBack(fs: seq<Log>, gs: seq<Log>) {
    fs == [] || gs == [] || (SameLog(fs[|fs| - 1], gs[|gs| - 1]) && AgreeBack(fs[..|fs| - 1], gs[..|gs| - 1]))
  }

  /** The hash collides on a record of the k-th log from the end of each; the later logs
      agree. */
  predicate CollideBack(hash: Hash, fs: seq<Log>, gs: seq<Log>, k: nat, i: nat, j: nat)
    decreases k
  {
    && fs != [] && gs != []
    && var f, g := fs[|fs| - 1], gs[|gs| - 1];
    if k == 0 then LogsCollide(hash, f, g, i, j)
    else SameLog(f, g) && CollideBack(hash, fs[..|fs| - 1], gs[..|gs| - 1], k - 1, i, j)
  }

  /** The same extends back through the rotated files the heads link to. */
  lemma {:induction false} SameFinalHashLinked(hash: Hash, env1: Env, fs: seq<Log>, env2: Env, gs: seq<Log>)
    returns (k: nat, i: nat, j: nat)
    requires Verifier(env1, hash) && Verifier(env2, hash)
    requires LinkedLogs(env1, fs) && LinkedLogs(env2, gs) && fs != [] && gs != []
    requires Final(fs[|fs| - 1]) == Final(gs[|gs| - 1])
    ensures AgreeBack(fs, gs) || CollideBack(hash, fs, gs, k, i, j)
    decreases |fs|
  {
    var m, n := |fs| - 1, |gs| - 1;
    var f, g := fs[m], gs[n];
    k := 0;
    i, j := OneHistory(hash, env1, f.head, f.entries, env2, g.head, g.entries);
    if SameLog(f, g) && m > 0 && n > 0 {
      k, i, j := SameFinalHashLinked(hash, env1, fs[..m], env2, gs[..n]);
      if CollideBack(hash, fs[..m], gs[..n], k, i, j) {
        k := k + 1;
      }
    }
  }

  /** Sequences that both begin where a chain began have as many files. */
  lemma {:induction false} SameLength(hash: Hash, env1: Env, fs: seq<Log>, env2: Env, gs: seq<Log>)
    requires Verifier(env1, hash) && Verifier(env2, hash)
    requires LinkedLogs(env1, fs) && LinkedLogs(env2, gs) && AgreeBack(fs, gs)
    requires fs != [] && fs[0].head.prevHash == [] && gs != [] && gs[0].head.prevHash == []
    ensures |fs| == |gs|
    decreases |fs|
  {
    var m, n := |fs| - 1, |gs| - 1;
    if m > 0 && n > 0 {
      SameLength(hash, env1, fs[..m], env2, gs[..n]);
    } else if m > 0 {
      NotFirst(hash, env1, fs);
    } else if n > 0 {
      NotFirst(hash, env2, gs);
    }
  }

  /** A file that continues another records the hash it ended at. */
  lemma {:induction false} NotFirst(hash: Hash, env: Env, fs: seq<Log>)
    requires Verifier(env, hash) && LinkedLogs(env, fs) && |fs| > 1
    ensures fs[|fs| - 1].head.prevHash != []
  {
    var before := fs[..|fs| - 1];
    assert before[|fs| - 2] == fs[|fs| - 2];
    StandsAtCovered(hash, env, fs[|fs| - 2].head, fs[|fs| - 2].entries);
  }

  /** The agreement, file by file. */
  lemma {:induction false} AgreeAt(fs: seq<Log>, gs: seq<Log>, k: nat)
    requires AgreeBack(fs, gs) && k < |fs| && k < |gs|
    ensures SameLog(fs[|fs| - 1 - k], gs[|gs| - 1 - k])
    decreases k
  {
    if k > 0 {
      AgreeAt(fs[..|fs| - 1], gs[..|gs| - 1], k - 1);
    }
  }

  predicate SameLogs(fs: seq<Log>, gs: seq<Log>) {
    |fs| == |gs| && forall i | 0 <= i < |fs| :: SameLog(fs[i], gs[i])
  }

  lemma {:induction false} AgreeAll(fs: seq<Log>, gs: seq<Log>)
    requires AgreeBack(fs, gs) && |fs| == |gs|
    ensures SameLogs(fs, gs)
  {
    forall i | 0 <= i < |fs|
      ensures SameLog(fs[i], gs[i])
    {
      AgreeAt(fs, gs, |fs| - 1 - i);
    }
  }

  /** The logs of a sequence of files that starts where its chain did. */
  predicate FromStart(env: Env, files: seq<File>, logs: seq<Log>) {
    logs != [] && ReadAll(env, files) == Some(logs) && logs[0].head.prevHash == []
  }

  /** Two sequences VerifyChain accepts, both from where their chain began, that end at
      one hash: as many files, and file by file the same head and entries. */
  lemma {:induction false} SameHistory(hash: Hash, env1: Env, files1: seq<File>, fs: seq<Log>,
                                       env2: Env, files2: seq<File>, gs: seq<Log>)
    returns (k: nat, i: nat, j: nat)
    requires Verifier(env1, hash) && Verifier(env2, hash)
    requires FromStart(env1, files1, fs) && FromStart(env2, files2, gs)
    requires Final(fs[|fs| - 1]) == Final(gs[|gs| - 1])
    ensures SameLogs(fs, gs) || CollideBack(hash, fs, gs, k, i, j)
  {
    ReadAllLinked(env1, files1);
    ReadAllLinked(env2, files2);
    k, i, j := SameFinalHashLinked(hash, env1, fs, env2, gs);
    if AgreeBack(fs, gs) {
      SameLength(hash, env1, fs, env2, gs);
      AgreeAll(fs, gs);
    }
  }

  // ---------------------------------------------------------------- --expect

  /** A checkpoint as it passed: the chain it is of, and what it records. */
  datatype Seen = Seen(chain: seq<byte>, number: int, hash: seq<byte>)

  /** The first checkpoint with that number records that hash. */
  predicate Expected(seen: seq<Seen>, number: int, hash: seq<byte>) {
    exists i | 0 <= i < |seen| ::
      && seen[i].number == number && seen[i].hash == hash
      && forall j | 0 <= j < i :: seen[j].number != number
  }

  /** checkExpected: the search for a checkpoint recorded elsewhere.  It stops at the
      first with that number, whichever file it is in. */
  method CheckExpected(number: int, hash: seq<byte>, seen: seq<Seen>, signaturesChecked: bool) returns (ok: bool)
    ensures ok <==> signaturesChecked && Expected(seen, number, hash)
  {
    if !signaturesChecked {
      return false;
    }
    for i := 0 to |seen|
      invariant forall j | 0 <= j < i :: seen[j].number != number
    {
      if seen[i].number == number {
        return seen[i].hash == hash;
      }
    }
    return false;
  }

  /** What a checkpoint that passed says of the log: there was a moment it stood there. */
  lemma {:induction false} PointWasReached(env: Env, lines: seq<Line>, p: Checkpoint) returns (k: nat)
    requires Read(env, lines).Some? && p in Read(env, lines).value.points
    ensures 1 <= k <= |lines| && Read(env, lines[..k]).Some?
    ensures Final(Read(env, lines[..k]).value) == p.hash && |Read(env, lines[..k]).value.entries| % U64 == p.number
  {
    var n := |lines| - 1;
    k := n;
    if p in Read(env, lines[..n]).value.points {
      k := PointWasReached(env, lines[..n], p);
      assert lines[..n][..k] == lines[..k];
    }
  }

  /** Logs up to the i-th, the i-th as it stood when a checkpoint in it was taken. */
  lemma {:induction false} LogsUpTo(env: Env, files: seq<File>, i: nat, p: Checkpoint) returns (logs: seq<Log>, k: nat)
    requires ReadAll(env, files).Some? && i < |files| == |ReadAll(env, files).value|
    requires p in ReadAll(env, files).value[i].points
    ensures 1 <= k <= |files[i].lines| && Read(env, files[i].lines[..k]).Some?
    ensures logs == ReadAll(env, files).value[..i] + [Read(env, files[i].lines[..k]).value]
    ensures LinkedLogs(env, logs) && Final(logs[i]) == p.hash && |logs[i].entries| % U64 == p.number
  {
    ReadAllPrefix(env, files, i);
    ReadAllPrefix(env, files, i + 1);
    TakeOne(files, i);
    ReadAllAppend(env, files[..i], files[i]);
    ReadAllLinked(env, files[..i]);
    var all, before := ReadAll(env, files).value, ReadAll(env, files[..i]).value;
    assert all[..i + 1][i] == all[i];
    k := PointWasReached(env, files[i].lines, p);
    ReadPrefix(env, files[i].lines, k);
    ReadChain(env, files[i].lines[..k]);
    var cut := Read(env, files[i].lines[..k]).value;
    LinkedAppend(env, before, cut);
    logs := before + [cut];
  }

  /** The checkpoints of the logs, file after file, as the verifier reports them. */
  function SeenIn(logs: seq<Log>): seq<Seen> {
    if logs == [] then []
    else SeenIn(logs[..|logs| - 1]) + PointsOf(logs[|logs| - 1].head.chain, logs[|logs| - 1].points)
  }

  function PointsOf(chain: seq<byte>, points: seq<Checkpoint>): seq<Seen> {
    seq(|points|, i requires 0 <= i < |points| => Seen(chain, points[i].number, points[i].hash))
  }

  lemma {:induction false} SeenSomewhere(logs: seq<Log>, j: nat) returns (i: nat, p: Checkpoint)
    requires j < |SeenIn(logs)|
    ensures i < |logs| && p in logs[i].points && SeenIn(logs)[j] == Seen(logs[i].head.chain, p.number, p.hash)
  {
    var n := |logs| - 1;
    var before := SeenIn(logs[..n]);
    if j < |before| {
      i, p := SeenSomewhere(logs[..n], j);
    } else {
      i, p := n, logs[n].points[j - |before|];
    }
  }

  /** An accepted --expect forces the history: a log that stood at the recorded hash
      elsewhere, rotated files and all, is what these files hold up to some checkpoint of
      that number. */
  lemma {:induction false} ExpectForces(hash: Hash, env: Env, files: seq<File>, number: int, final: seq<byte>,
                                        env2: Env, gs: seq<Log>)
    returns (logs: seq<Log>, at: nat, line: nat, k: nat, i: nat, j: nat)
    requires Verifier(env, hash) && Verifier(env2, hash)
    requires ReadAll(env, files).Some? && Expected(SeenIn(ReadAll(env, files).value), number, final)
    requires LinkedLogs(env2, gs) && gs != [] && Final(gs[|gs| - 1]) == final
    ensures at < |files| == |ReadAll(env, files).value|
    ensures 1 <= line <= |files[at].lines| && Read(env, files[at].lines[..line]).Some?
    ensures |Read(env, files[at].lines[..line]).value.entries| % U64 == number
    ensures logs == ReadAll(env, files).value[..at] + [Read(env, files[at].lines[..line]).value]
    ensures AgreeBack(logs, gs) || CollideBack(hash, logs, gs, k, i, j)
  {
    var all := ReadAll(env, files).value;
    ReadAllPrefix(env, files, |files|);
    var seen :| 0 <= seen < |SeenIn(all)| && SeenIn(all)[seen].number == number && SeenIn(all)[seen].hash == final;
    var p;
    at, p := SeenSomewhere(all, seen);
    logs, line := LogsUpTo(env, files, at, p);
    k, i, j := SameFinalHashLinked(hash, env, logs, env2, gs);
  }
}
