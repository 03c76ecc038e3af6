/** Opening a log, and whole runs of writers: appends, checkpoints, rotations, failed
    writes, crashes and reopenings, in any order. */
module AuditRun {
  import opened AuditRecord
  import opened AuditVerify
  import opened AuditWriter
  import opened Base
  import opened Bytes

  /** Where Open stands after verifying a file: its torn tail cut off. */
  lemma {:induction false} OpenStands(c: Config, archives: seq<File>, f: File, synced: nat, log: Log)
    requires ReadFile(c.env, f) == Some(log) && 1 <= synced <= |f.lines|
    ensures var d := Disk(archives, f.lines, 0);
            var s := State(d, synced, |f.lines|, log.head.chain, |log.entries| % U64, Final(log), log.size, false, 0, 0, false);
            Standing(c, s) == Some(log) && Counts(s)
    ensures Whole(c.env, Disk(archives, f.lines, f.torn)) ==> Whole(c.env, Disk(archives, f.lines, 0))
  {
    if Whole(c.env, Disk(archives, f.lines, f.torn)) {
      Replace(c.env, Disk(archives, f.lines, f.torn), f.lines, 0);
    }
  }

  lemma {:induction false} FreshStands(c: Config, archives: seq<File>, h: Head)
    requires HeadHolds(c.env, h) && h.chain != []
    ensures var s := State(Disk(archives, [HeadLine(c, h)], 0), 1, 1, h.chain, 0, h.hash, c.headLength(h), false, 0, 0, false);
            Standing(c, s).Some? && Counts(s)
    ensures archives == [] ==> Whole(c.env, Disk(archives, [HeadLine(c, h)], 0))
  {
    if archives == [] {
      ReadAllAppend(c.env, [], File([HeadLine(c, h)], 0));
      assert [] + [File([HeadLine(c, h)], 0)] == [File([HeadLine(c, h)], 0)];
    }
  }

  /** What the verifier accepts, the writer reads, and the same. */
  lemma {:induction false} StrictFile(env: Env, f: File)
    requires !env.bounded
    ensures ReadFile(Strict(env), f) == if FileIn(f) then ReadFile(env, f) else None
  {
    StrictRead(env, f.lines);
  }

  /** The disk after an opening, if that succeeds: a file that is there is continued, without
      its torn tail, if it verifies; an empty one gets a head that continues nothing. */
  function Reopened(c: Config, archives: seq<File>, f: File, chain: seq<byte>, time: Stamp): Option<Disk> {
    if f != File([], 0) then if ReadFile(Strict(c.env), f).Some? then Some(Disk(archives, f.lines, 0)) else None
    else
      var h := Headed(c, chain, time, [], []);
      if h.None? then None else Some(Disk(archives, [HeadLine(c, h.value)], 0))
  }

  /** Open.  It syncs nothing of a file that is there: of that, `synced` lines are on disk
      for certain, the head among them. */
  method Open(c: Config, archives: seq<File>, f: File, synced: nat, configured: seq<byte>, id: ChainId, time: Stamp)
    returns (w: Option<Writer>)
    requires Sound(c) && (f.lines != [] ==> 1 <= synced <= |f.lines|)
    ensures w.Some? ==> fresh(w.value) && w.value.c == c && w.value.Valid() && !w.value.broken
    ensures var r := Reopened(c, archives, f, if configured == [] then id else configured, time);
            (w.Some? <==> r.Some?) && (w.Some? ==> w.value.disk == r.value && !w.value.dirty)
    ensures w.Some? && f != File([], 0) ==> w.value.synced == synced
    ensures w.Some? && f != File([], 0) && Whole(c.env, Disk(archives, f.lines, f.torn)) ==> Whole(c.env, w.value.disk)
  {
    if f != File([], 0) {
      var report := Verify(Strict(c.env), f);
      if report.None? {
        return None;
      }
      StrictFile(c.env, f);
      ghost var log := ReadFile(c.env, f).value;
      OpenStands(c, archives, f, synced, log);
      var writer := new Writer(c, Disk(archives, f.lines, 0), synced, report.value.head.chain, report.value.entries,
                               report.value.finalHash, report.value.intact);
      return Some(writer);
    }
    var chain := if configured == [] then id else configured;
    var h := Headed(c, chain, time, [], []);
    if h.None? {
      return None;
    }
    HeadedBegins(c, chain, time, [], []);
    FreshStands(c, archives, h.value);
    var writer := new Writer(c, Disk(archives, [HeadLine(c, h.value)], 0), 1, chain, 0, h.value.hash, c.headLength(h.value));
    return Some(writer);
  }

  /** The file that is there when a rotation stopped past its rename, with some bytes of the
      new head written. */
  function NewFile(c: Config, h: Head, bytes: nat): File {
    if bytes >= c.headLength(h) then File([HeadLine(c, h)], 0) else File([], bytes)
  }

  /** The gap a crash inside a rotation leaves.  Past the rename, and before the whole of the
      new head is there, reopening is refused, or, if nothing of it is there, begins a chain
      that does not continue the archives: the files are one chain again if and only if the
      head was complete. */
  lemma {:induction false} RotationGap(c: Config, s: State, log: Log, id: ChainId, time: Stamp, h: Head, bytes: nat,
                                       chain: seq<byte>, later: Stamp)
    requires Sound(c) && Standing(c, s) == Some(log) && Accepted(c.env, s.disk)
    requires Headed(c, id, time, s.chain, s.hash) == Some(h)
    ensures var r := Reopened(c, s.disk.archives + [File(s.disk.lines, 0)], NewFile(c, h, bytes), chain, later);
            r.Some? && Accepted(c.env, r.value) <==> bytes >= c.headLength(h)
  {
    var archives := s.disk.archives + [File(s.disk.lines, 0)];
    if bytes >= c.headLength(h) {
      HeadComplete(c, s, log, id, time, h);
    } else if bytes == 0 && Headed(c, chain, later, [], []).Some? {
      NotContinued(c, archives, chain, later);
      AcceptedExactly(c.env, Disk(archives, [HeadLine(c, Headed(c, chain, later, [], []).value)], 0));
    }
  }

  lemma {:induction false} HeadComplete(c: Config, s: State, log: Log, id: ChainId, time: Stamp, h: Head)
    requires Sound(c) && Standing(c, s) == Some(log) && Accepted(c.env, s.disk)
    requires Headed(c, id, time, s.chain, s.hash) == Some(h)
    ensures Accepted(c.env, Rotated(c, s, h).disk) && ReadFile(Strict(c.env), File([HeadLine(c, h)], 0)).Some?
  {
    AcceptedExactly(c.env, s.disk);
    RotateStands(c, s, log, id, time, h);
    AcceptedExactly(c.env, Rotated(c, s, h).disk);
    ReadAllAppend(Strict(c.env), Rotated(c, s, h).disk.archives, File([HeadLine(c, h)], 0));
  }

  lemma {:induction false} NotContinued(c: Config, archives: seq<File>, chain: seq<byte>, time: Stamp)
    requires archives != [] && Headed(c, chain, time, [], []).Some?
    ensures !Whole(c.env, Disk(archives, [HeadLine(c, Headed(c, chain, time, [], []).value)], 0))
  {
    ReadAllAppend(c.env, archives, File([HeadLine(c, Headed(c, chain, time, [], []).value)], 0));
    if ReadAll(c.env, archives).Some? {
      NamedLast(c.env, archives);
    }
  }

  lemma {:induction false} NamedLast(env: Env, files: seq<File>)
    requires files != [] && ReadAll(env, files).Some?
    ensures |ReadAll(env, files).value| >= 1
    ensures ReadAll(env, files).value[|ReadAll(env, files).value| - 1].head.chain != []
  {
  }

  // -------------------------------------------------------------- whole runs

  datatype Op =
    | Appends(ev: Event, id: ChainId, time: Stamp)
    | Checkpoints(id: ChainId, time: Stamp)
    | Crashes(configured: seq<byte>, id: ChainId, time: Stamp)

  /** A request the log can hold: a status the verifier bounds, and names that render
      within a line. */
  ghost predicate Loggable(c: Config, ev: Event) {
    && 0 <= ev.status <= MAX_STATUS
    && (forall n: u64, h: Digest :: c.entryLength(Unhashed(ev, n).(hash := h)) <= MAX_LINE)
  }

  /** A crash leaves the file cut at any byte past what was synced. */
  predicate CrashOf(f: File, d: Disk, synced: nat) {
    f == File(d.lines, d.torn) || CutOf(f.lines, f.torn, d.lines, synced)
  }

  method Crash(w: Writer) returns (f: File)
    requires w.disk.lines != [] && Rooted(w.Now())
    ensures CrashOf(f, w.disk, w.synced) && w.synced <= |f.lines|
  {
    var lines := w.disk.lines;
    var keep: nat :| w.synced <= keep <= |lines|;
    if keep == |lines| {
      return File(lines, w.disk.torn);
    }
    var torn: nat :| 0 <= torn < lines[keep].length;
    return File(lines[..keep], torn);
  }

  lemma {:induction false} WholeReads(env: Env, d: Disk)
    requires Whole(env, d) && d.lines != []
    ensures Read(env, d.lines).Some? && ReadFile(env, File(d.lines, d.torn)).Some? && Short(env, d.torn)
  {
    ReadAllAppend(env, d.archives, File(d.lines, d.torn));
  }

  /** What a crash leaves still reads as one chain, and holds a beginning of what was
      recorded, of which everything synced is there. */
  lemma {:induction false} CrashKeeps(env: Env, d: Disk, synced: nat, f: File)
    requires Whole(env, d) && d.lines != [] && 1 <= synced <= |d.lines| && CrashOf(f, d, synced)
    ensures synced <= |f.lines| && f.lines[..synced] == d.lines[..synced] && Whole(env, Disk(d.archives, f.lines, f.torn))
    ensures Recorded(d.archives) + EntriesOf(d.lines[..synced]) <= Recorded(Files(Disk(d.archives, f.lines, 0))) <= Recorded(Files(d))
  {
    WholeReads(env, d);
    RecordedAppend(d.archives, File(d.lines, d.torn));
    RecordedAppend(d.archives, File(f.lines, 0));
    EntriesPrefix(f.lines, synced);
    PrefixOf(Recorded(d.archives), EntriesOf(f.lines[..synced]), EntriesOf(f.lines));
    if CutOf(f.lines, f.torn, d.lines, synced) {
      StaysWhole(env, d, Disk(d.archives, f.lines, f.torn), synced);
      EntriesPrefix(d.lines, |f.lines|);
      PrefixOf(Recorded(d.archives), EntriesOf(f.lines), EntriesOf(d.lines));
    }
  }

  /** Within bounds before the crash, within bounds after it, and without the torn tail. */
  lemma {:induction false} CrashWithin(d: Disk, synced: nat, f: File)
    requires d.lines != [] && 1 <= synced <= |f.lines| && CrashOf(f, d, synced)
    ensures Within(d).Some? ==> FileIn(f) && Within(Disk(d.archives, f.lines, 0)).Some?
  {
    FilesInAppend(d.archives, File(d.lines, d.torn));
    FilesInAppend(d.archives, f);
    FilesInAppend(d.archives, File(f.lines, 0));
    if CutOf(f.lines, f.torn, d.lines, synced) {
      WithinCut(d, Disk(d.archives, f.lines, f.torn), synced);
    }
  }

  /** A crash, and an opening of what it left: refused if and only if that breaks the
      verifier's bounds, which it does not if nothing did before.  What was durable is
      there, and is still durable. */
  method Reopen(w: Writer, configured: seq<byte>, id: ChainId, time: Stamp) returns (v: Option<Writer>, ghost f: File)
    requires w.Valid() && Whole(w.c.env, w.disk) && w.disk.lines != []
    ensures CrashOf(f, w.disk, w.synced) && (v.Some? <==> FileIn(f)) && (Within(w.disk).Some? ==> v.Some?)
    ensures v.Some? ==> && fresh(v.value) && v.value.c == w.c && v.value.Valid() && !v.value.broken && !v.value.dirty
                        && Whole(w.c.env, v.value.disk)
                        && (Within(w.disk).Some? ==> Within(v.value.disk).Some?)
                        && Durable(w.Now()) <= All(v.value.Now()) <= All(w.Now()) && Count(v.value.Now()) == Count(w.Now())
  {
    var left := Crash(w);
    f := left;
    CrashKeeps(w.c.env, w.disk, w.synced, left);
    CrashWithin(w.disk, w.synced, left);
    WholeReads(w.c.env, Disk(w.disk.archives, left.lines, left.torn));
    StrictFile(w.c.env, left);
    v := Open(w.c, w.disk.archives, left, w.synced, configured, id, time);
  }

  /** The entry an event becomes, but for its number and hash. */
  predicate MadeOf(ev: Event, e: Entry) {
    && e.time == ev.time && e.op == ev.op && e.bucket == ev.bucket && e.key == ev.key && e.client == ev.client
    && e.principal == ev.principal && e.requestId == ev.requestId && e.status == ev.status && e.code == ev.code
    && e.kid == ev.kid && e.size == if ev.size < 0 then 0 else ev.size
  }

  /** What the files hold, how many of these are on disk for certain, and whether something was
      appended since the last checkpoint. */
  datatype Held = Held(all: seq<Entry>, durable: nat, dirty: bool)

  function HeldIn(s: State): Held { Held(All(s), Count(s), s.dirty) }

  ghost function HeldBy(w: Writer): Held
    reads w
  {
    HeldIn(w.Now())
  }

  /** What the files hold after an operation: an append that succeeds adds its entry and
      nothing else; one that fails adds it or loses entries at the end; a checkpoint that
      succeeds changes nothing; a crash loses entries at the end. */
  predicate Evolves(op: Op, ok: bool, before: seq<Entry>, after: seq<Entry>) {
    || (!(ok && op.Appends?) && after <= before && (ok && op.Checkpoints? ==> after == before))
    || (op.Appends? && |after| == |before| + 1 && before <= after && MadeOf(op.ev, after[|before|]))
  }

  /** And nothing durable is ever lost; a checkpoint makes everything durable that was
      appended since the last. */
  predicate Lasts(op: Op, ok: bool, before: Held, after: Held) {
    && before.durable <= after.durable <= |after.all|
    && (op.Checkpoints? && ok && before.dirty ==> after.durable == |after.all|)
    && (op.Appends? && ok ==> after.dirty || after.durable == |after.all|)
  }

  /** What the files hold after the operation, if that is what it may leave. */
  function Left(op: Op, ok: bool, before: Held, after: Held): Option<Held> {
    if Evolves(op, ok, before.all, after.all) && Lasts(op, ok, before, after) then Some(after) else None
  }

  lemma PrefixOfOneMore(a: seq<Entry>, b: seq<Entry>, e: Entry)
    requires a <= b + [e]
    ensures a <= b || a == b + [e]
  {
    if |a| <= |b| {
      assert a == (b + [e])[..|a|] == b[..|a|];
    }
  }

  /** Nothing done. */
  lemma LeftAlone(op: Op, ok: bool, s: State)
    requires Rooted(s) && !(ok && (op.Appends? || s.dirty))
    ensures Left(op, ok, HeldIn(s), HeldIn(s)).Some?
  {
    CountIsThere(s);
  }

  lemma LeftChecked(op: Op, s: State, t: State)
    requires op.Checkpoints? && Rooted(s) && All(t) == All(s) && Count(t) == |All(t)|
    ensures Left(op, true, HeldIn(s), HeldIn(t)).Some?
  {
    CountIsThere(s);
  }

  lemma LeftLonger(op: Op, s: State, e: Entry, t: State)
    requires op.Appends? && MadeOf(op.ev, e) && Rooted(t) && All(t) == All(s) + [e] && Count(s) <= Count(t)
    requires t.dirty || Count(t) == |All(t)|
    ensures Left(op, true, HeldIn(s), HeldIn(t)).Some?
  {
    CountIsThere(t);
  }

  lemma LeftFailed(op: Op, s: State, t: State, made: Option<Entry>)
    requires Rooted(t) && Count(s) <= Count(t) && All(t) <= All(s) + (if made.None? then [] else [made.value])
    requires made.Some? ==> op.Appends? && MadeOf(op.ev, made.value)
    ensures Left(op, false, HeldIn(s), HeldIn(t)).Some?
  {
    CountIsThere(t);
    LeftShorter(op, HeldIn(s), HeldIn(t), made);
  }

  lemma {:induction false} LeftShorter(op: Op, a: Held, b: Held, made: Option<Entry>)
    requires a.durable <= b.durable <= |b.all| && b.all <= a.all + (if made.None? then [] else [made.value])
    requires made.Some? ==> op.Appends? && MadeOf(op.ev, made.value)
    ensures Left(op, false, a, b).Some?
  {
    if made.None? {
      assert a.all + [] == a.all;
    } else {
      PrefixOfOneMore(b.all, a.all, made.value);
    }
  }

  /** An operation that leaves the files within the verifier's bounds if they were. */
  ghost predicate Fits(c: Config, op: Op) { op.Appends? ==> Loggable(c, op.ev) }

  lemma LoggableFits(c: Config, log: Log, ev: Event)
    requires Loggable(c, ev) && Made(c, log, ev).Some?
    ensures InBounds(EntryLine(c, Made(c, log, ev).value))
  {
    var e := Made(c, log, ev).value;
    var number: u64, hash: Digest := e.number, e.hash;
    assert e == Unhashed(ev, number).(hash := hash);
  }

  /** An append, as the run sees it. */
  method PerformAppend(w: Writer, op: Op) returns (ok: bool)
    requires w.Valid() && Whole(w.c.env, w.disk) && op.Appends?
    modifies w
    ensures w.Valid() && Whole(w.c.env, w.disk) && Left(op, ok, old(HeldBy(w)), HeldBy(w)).Some?
    ensures Fits(w.c, op) && old(Within(w.disk).Some?) ==> Within(w.disk).Some?
  {
    ghost var s := w.Now();
    var r := w.Append(op.ev, op.id, op.time);
    ok := r.Ok?;
    if s.broken {
      LeftAlone(op, ok, s);
    } else {
      ghost var made := Made(w.c, Standing(w.c, s).value, op.ev);
      if made.Some? && Fits(w.c, op) {
        LoggableFits(w.c, Standing(w.c, s).value, op.ev);
      }
      if ok {
        LeftLonger(op, s, made.value, w.Now());
      } else {
        LeftFailed(op, s, w.Now(), made);
      }
    }
  }

  method PerformCheckpoint(w: Writer, op: Op) returns (ok: bool)
    requires w.Valid() && Whole(w.c.env, w.disk) && op.Checkpoints?
    modifies w
    ensures w.Valid() && Whole(w.c.env, w.disk) && Left(op, ok, old(HeldBy(w)), HeldBy(w)).Some?
    ensures old(Within(w.disk).Some?) ==> Within(w.disk).Some?
  {
    ghost var s := w.Now();
    ok := w.TakeCheckpoint(op.id, op.time);
    if s.broken || (ok && !s.dirty) {
      LeftAlone(op, ok, s);
    } else if ok {
      LeftChecked(op, s, w.Now());
    } else {
      assert All(s) + [] == All(s);
      LeftFailed(op, s, w.Now(), None);
    }
  }

  /** One operation; None where a crash leaves a file that is not opened again. */
  method Perform(w: Writer, op: Op) returns (v: Option<Writer>, ok: bool)
    requires w.Valid() && Whole(w.c.env, w.disk)
    modifies w
    ensures v.None? ==> op.Crashes? && w.Now() == old(w.Now()) && (w.disk.lines == [] || Within(w.disk).None?)
    ensures v.Some? ==> && (v.value == w || fresh(v.value))
                        && v.value.c == w.c && v.value.Valid() && Whole(w.c.env, v.value.disk)
                        && Left(op, ok, old(HeldBy(w)), HeldBy(v.value)).Some?
                        && (Fits(w.c, op) && old(Within(w.disk).Some?) ==> Within(v.value.disk).Some?)
  {
    v, ok := Some(w), true;
    if op.Appends? {
      ok := PerformAppend(w, op);
    } else if op.Checkpoints? {
      ok := PerformCheckpoint(w, op);
    } else if w.disk.lines == [] {
      v := None;
    } else {
      ghost var f;
      v, f := Reopen(w, op.configured, op.id, op.time);
    }
  }

  /** What the files held along a run, operation by operation: first, and last. */
  function Evolution(ops: seq<Op>, oks: seq<bool>, held: seq<Held>): Option<(Held, Held)> {
    if && |oks| <= |ops| && |held| == |oks| + 1 && held[0].durable <= |held[0].all|
       && forall i | 0 <= i < |oks| :: Left(ops[i], oks[i], held[i], held[i + 1]).Some?
    then Some((held[0], held[|oks|])) else None
  }

  lemma EvolvesOn(ops: seq<Op>, oks: seq<bool>, held: seq<Held>, ok: bool, next: Held)
    requires Evolution(ops, oks, held).Some? && |oks| < |ops|
    requires Left(ops[|oks|], ok, held[|oks|], next).Some?
    ensures Evolution(ops, oks + [ok], held + [next]) == Some((held[0], next))
  {
  }

  /** What was on disk for certain at any moment of a run is in the files at every later
      one, crashes and failures between them or not. */
  lemma {:induction false} DurableStays(ops: seq<Op>, oks: seq<bool>, held: seq<Held>, i: nat, j: nat)
    requires Evolution(ops, oks, held).Some? && i <= j <= |oks|
    ensures held[i].durable <= |held[i].all| && held[i].durable <= held[j].durable <= |held[j].all|
    ensures held[i].all[..held[i].durable] == held[j].all[..held[i].durable]
    decreases j
  {
    if i == j {
      assert j > 0 ==> Left(ops[j - 1], oks[j - 1], held[j - 1], held[j]).Some?;
    } else {
      DurableStays(ops, oks, held, i, j - 1);
      assert Left(ops[j - 1], oks[j - 1], held[j - 1], held[j]).Some?;
      SameBeginning(held[j - 1].all, held[j].all, held[i].durable);
    }
  }

  lemma SameBeginning<T>(a: seq<T>, b: seq<T>, n: nat)
    requires (a <= b || b <= a) && n <= |a| && n <= |b|
    ensures a[..n] == b[..n]
  {
  }

  /** Every run leaves files that read as one chain, and a writer that stands where they do;
      what they hold changes operation by operation as it must; and VerifyChain accepts them,
      provided it accepted the first ones and the events stayed within its bounds.  The run
      ends early only at a crash, of a file that breaks those bounds or that has no head yet,
      a rotation having failed past its rename; RotationGap says what becomes of that. */
  method Run(w0: Writer, ops: seq<Op>) returns (w: Writer, done: nat, ghost oks: seq<bool>, ghost held: seq<Held>)
    requires w0.Valid() && Whole(w0.c.env, w0.disk)
    modifies w0
    ensures w.c == w0.c && w.Valid() && Whole(w.c.env, w.disk)
    ensures done <= |ops| && |oks| == done && Evolution(ops, oks, held) == Some((old(HeldBy(w0)), HeldBy(w)))
    ensures old(Accepted(w0.c.env, w0.disk)) && (forall i | 0 <= i < done :: Fits(w0.c, ops[i])) ==> Accepted(w.c.env, w.disk)
    ensures done < |ops| ==> ops[done].Crashes? && (w.disk.lines == [] || !Accepted(w.c.env, w.disk))
  {
    w, done, oks, held := w0, 0, [], [HeldBy(w0)];
    CountIsThere(w0.Now());
    AcceptedExactly(w0.c.env, w0.disk);
    while done < |ops|
      invariant w == w0 || fresh(w)
      invariant w.c == w0.c && w.Valid() && Whole(w.c.env, w.disk)
      invariant done <= |ops| && |oks| == done
      invariant Evolution(ops, oks, held) == Some((old(HeldBy(w0)), HeldBy(w)))
      invariant old(Within(w0.disk).Some?) && (forall i | 0 <= i < done :: Fits(w0.c, ops[i])) ==> Within(w.disk).Some?
      decreases |ops| - done
    {
      var next, ok := Perform(w, ops[done]);
      if next.None? {
        break;
      }
      w := next.value;
      EvolvesOn(ops, oks, held, ok, HeldBy(w));
      oks, held, done := oks + [ok], held + [HeldBy(w)], done + 1;
    }
    AcceptedExactly(w.c.env, w.disk);
  }
}
