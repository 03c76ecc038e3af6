/**
When a migration may delete P.  Whatever E(P) holds at the start, and whatever
clients do there: P goes only once E(P) has held P's own copy or a newer write, or
a client has deleted at E(P), unless a tool rewrote an older object at E(P), which
stamps it anew.  For a P the gateway wrote that takes an older object whose data key
is wrapped for P: what migrate-names cannot unwrap it does not judge by its date.
*/
module MigrationDeletes {
  import opened Base
  import opened Provider
  import opened Protocol
  import opened Lifecycle
  import opened Contents
  import opened Migration

  predicate AllLeave(c: Config, s: State, steps: seq<Step>, p: Key)
    requires Runs(c, s, steps)
    decreases |steps|
  {
    steps == [] || (Leaves(c, s, steps[0], p) && AllLeave(c, Next(c, s, steps[0]), steps[1..], p))
  }

  /** A migration of `v` from P, begun at `since`, when E(P) held `first`. */
  datatype Watch = Watch(p: Key, e: Key, v: Version, since: nat, first: Option<Version>)

  function Begun(s: State, p: Key, e: Key): Watch
    requires p in s.store.visible
  {
    Watch(p, e, s.store.visible[p], s.store.clock, if e in s.store.visible then Some(s.store.visible[e]) else None)
  }

  /** A version with P's data key, or P's plaintext. */
  predicate CopyOf(v: Version, x: Version) {
    (v.dek.Some? && x.dek == v.dek) || Plain(x.body) == Plain(v.body)
  }

  /** A version newer than P that no tool of this migration's time made newer. */
  predicate Newer(w: Watch, x: Version) {
    x.modified > w.v.modified && (x.writer == ByClient || x.etag < w.since)
  }

  /** Visible at E(P) when the migration began, or since. */
  predicate HeldSince(w: Watch, st: Store, x: nat) {
    x in st.log && st.log[x].key == w.e && (x >= w.since || w.first == Some(st.log[x]))
  }

  /** E(P) has held P's copy, or a write newer than P. */
  predicate Covered(w: Watch, st: Store) {
    exists x | x in st.log :: HeldSince(w, st, x) && (CopyOf(w.v, st.log[x]) || Newer(w, st.log[x]))
  }

  /** A rotation or an encryption in place begins at E(P) while that holds something that
      is not newer than P. */
  predicate Restamps(s: State, step: Step, w: Watch) {
    && step.CopyHead? && step.dst == w.e && (step.mode.Rotate? || step.mode.Encrypt?)
    && w.p in s.store.visible && w.e in s.store.visible && s.store.visible[w.e].modified <= w.v.modified
  }

  predicate NoRestamps(c: Config, s: State, steps: seq<Step>, w: Watch)
    requires Runs(c, s, steps)
    decreases |steps|
  {
    steps == [] || (!Restamps(s, steps[0], w) && NoRestamps(c, Next(c, s, steps[0]), steps[1..], w))
  }

  /** Nothing migrate-names takes for P's successor: it unwraps the data keys of P and of
      what is at E(P) for P, and gives up where one is not. */
  predicate Inert(w: Watch, x: Version) {
    w.v.dek.Some? && !(w.v.bound == w.p && x.dek.Some? && x.bound == w.p)
  }

  /** What a rotation or an encryption in place at E(P) can rewrite: plaintext, or what
      unwraps for either name E(P) can have. */
  predicate Rewritable(w: Watch, x: Version) { x.dek.None? || x.bound == w.e || x.bound == w.p }

  /** A step that leaves E(P) and its stamp alone, or cannot matter. */
  predicate Harmless(s: State, step: Step, w: Watch) {
    w.first.None? || Inert(w, w.first.value) || !Rewritable(w, w.first.value) || !Restamps(s, step, w)
  }

  // -------------------------------------------- until E(P) is covered

  /** P is as it was, and so is E(P), or holds nothing that matters. */
  predicate StoreWatch(w: Watch, st: Store) {
    && w.p in st.visible && st.visible[w.p] == w.v && w.v.modified < w.since
    && w.since <= st.clock && (forall u | u in st.uploads :: w.since <= u)
    && match w.first
       case None => w.e !in st.visible && RankAt(st, w.e) < w.since
       case Some(x) =>
         && w.e in st.visible
         && if Inert(w, x) then Inert(w, st.visible[w.e])
            else st.visible[w.e] == x && !CopyOf(w.v, x) && x.modified <= w.v.modified
  }

  /** No copy has got far enough to change that, or to delete P. */
  predicate CopyWatch(w: Watch, q: CopyProc) {
    && q.job.dst != w.p && (q.job.src == w.p ==> q.job.ver == w.v)
    && (q.job.dst == w.e && (q.job.mode.Rotate? || q.job.mode.Encrypt?) ==>
          w.first.Some? && Inert(w, w.first.value) && Inert(w, q.job.ver))
    && (q.job.src == w.p && q.job.Moves() ==>
          !q.CopyDone? && !q.MoveObsolete? && !q.MoveRemoved? && (w.first.None? || q.MoveHeaded?))
  }

  predicate Watching(w: Watch, s: State) {
    && StoreWatch(w, s.store)
    && forall o | o in s.procs && s.procs[o].Copy? :: CopyWatch(w, s.procs[o].copy)
  }

  lemma CoveredBy(w: Watch, st: Store, x: nat)
    requires HeldSince(w, st, x) && (CopyOf(w.v, st.log[x]) || Newer(w, st.log[x]))
    ensures Covered(w, st)
  {
  }

  /** A client's write at E(P) covers it, and no other write does anything. */
  lemma PublishWatched(w: Watch, st: Store, x: Version)
    requires StoreWatch(w, st) && x.key != w.p && x.etag == st.clock == x.modified
    requires x.key == w.e ==> x.writer == ByClient || CopyOf(w.v, x)
    ensures if x.key == w.e then Covered(w, Publish(st, x)) else StoreWatch(w, Publish(st, x))
  {
    if x.key == w.e {
      CoveredBy(w, Publish(st, x), st.clock);
    }
  }

  lemma QuietWatched(w: Watch, a: Store, b: Store)
    requires StoreWatch(w, a) && b.visible == a.visible && b.ranks == a.ranks && a.clock <= b.clock
    requires forall u | u in b.uploads && u !in a.uploads :: a.clock <= u
    ensures StoreWatch(w, b)
  {
  }

  /** A move's completion at E(P), which is empty and was never touched: it is kept, and
      is P's copy. */
  lemma MoveCovers(c: Config, w: Watch, st: Store, o: nat, q: CopyProc, keep: bool)
    requires VisibleOk(st) && CopyOk(c, st, o, q) && CopyCarries(st, q) && CopyEnabled(c, st, q, CopyComplete(keep))
    requires Mapped(c, w.p, w.e) && StoreWatch(w, st) && CopyWatch(w, q) && q.job.dst == w.e && q.job.Moves()
    ensures Covered(w, CopyStore(c, st, o, q, CopyComplete(keep)))
  {
    assert q.job.src == w.p && w.first.None? && keep;
    PublishWatched(w, CloseUpload(st, q.uid), Published(st, q.uid, q.job.Publisher()));
  }

  /** A rewrite of something inert is inert: it keeps the identity, or binds E(P). */
  lemma RewriteWatched(w: Watch, st: Store, x: Version)
    requires StoreWatch(w, st) && x.key == w.e != w.p && w.first.Some? && Inert(w, w.first.value) && Inert(w, x)
    ensures StoreWatch(w, Publish(st, x))
  {
  }

  lemma CompleteWatched(c: Config, w: Watch, st: Store, o: nat, q: CopyProc, keep: bool)
    requires VisibleOk(st) && CopyOk(c, st, o, q) && CopyCarries(st, q) && CopyEnabled(c, st, q, CopyComplete(keep))
    requires Mapped(c, w.p, w.e) && StoreWatch(w, st) && CopyWatch(w, q)
    ensures var b := CopyStore(c, st, o, q, CopyComplete(keep));
            Covered(w, b) || (StoreWatch(w, b) && CopyWatch(w, CopyNext(c, st, q, CopyComplete(keep))))
  {
    if q.job.dst == w.e && q.job.Moves() {
      MoveCovers(c, w, st, o, q, keep);
    } else {
      assert q.job.src == w.p ==> !q.job.Moves();
      if keep && q.job.dst == w.e && !q.job.mode.ClientCopy? {
        RewriteWatched(w, CloseUpload(st, q.uid), Published(st, q.uid, q.job.Publisher()));
      } else if keep {
        PublishWatched(w, CloseUpload(st, q.uid), Published(st, q.uid, q.job.Publisher()));
      } else {
        QuietWatched(w, st, CloseUpload(st, q.uid));
      }
    }
  }

  lemma WholeWatched(c: Config, w: Watch, st: Store, o: nat, q: CopyProc)
    requires VisibleOk(st) && CopyOk(c, st, o, q) && CopyEnabled(c, st, q, CopyWhole)
    requires Mapped(c, w.p, w.e) && StoreWatch(w, st) && CopyWatch(w, q)
    ensures var b := CopyStore(c, st, o, q, CopyWhole);
            Covered(w, b) || (StoreWatch(w, b) && CopyWatch(w, CopyNext(c, st, q, CopyWhole)))
  {
    assert st.visible[q.job.src] == q.job.ver;
    var x := Version(q.job.dst, st.clock, st.clock, st.clock, None, q.job.ver.dek, q.job.BindsTo(c),
                     st.visible[q.job.src].body, if q.job.mode.ClientCopy? then ByClient else ByTool(false));
    if q.job.dst == w.e && q.job.mode.Rotate? {
      RewriteWatched(w, st, x);
    } else {
      PublishWatched(w, st, x);
    }
  }

  /** judgeExisting leaves P alone for anything at E(P) that does not cover it. */
  lemma JudgedWatched(c: Config, w: Watch, st: Store, q: CopyProc)
    requires CopyEnabled(c, st, q, MigHeadEnc) && JobFits(c, q.job) && StoreWatch(w, st) && CopyWatch(w, q)
    requires Mapped(c, w.p, w.e)
    ensures CopyWatch(w, CopyNext(c, st, q, MigHeadEnc))
  {
  }

  lemma StillWatched(c: Config, w: Watch, st: Store, o: nat, q: CopyProc, step: CopyStep)
    requires CopyEnabled(c, st, q, step) && !Lands(step) && StoreWatch(w, st)
    ensures StoreWatch(w, CopyStore(c, st, o, q, step))
  {
    QuietWatched(w, st, CopyStore(c, st, o, q, step));
  }

  lemma RemoveWatched(c: Config, w: Watch, st: Store, o: nat, q: CopyProc)
    requires CopyOk(c, st, o, q) && CopyEnabled(c, st, q, MigDelete)
    requires Mapped(c, w.p, w.e) && StoreWatch(w, st) && CopyWatch(w, q)
    ensures StoreWatch(w, CopyStore(c, st, o, q, MigDelete)) && CopyWatch(w, CopyNext(c, st, q, MigDelete))
  {
    assert q.job.src != w.p && q.job.src != w.e;
  }

  lemma CopyDoWatched(c: Config, w: Watch, st: Store, o: nat, q: CopyProc, step: CopyStep)
    requires VisibleOk(st) && CopyOk(c, st, o, q) && CopyCarries(st, q) && CopyEnabled(c, st, q, step)
    requires Mapped(c, w.p, w.e) && StoreWatch(w, st) && CopyWatch(w, q)
    ensures var b := CopyStore(c, st, o, q, step);
            Covered(w, b) || (StoreWatch(w, b) && CopyWatch(w, CopyNext(c, st, q, step)))
  {
    if step.CopyComplete? {
      CompleteWatched(c, w, st, o, q, step.keep);
    } else if step.CopyWhole? {
      WholeWatched(c, w, st, o, q);
    } else if step.MigDelete? {
      RemoveWatched(c, w, st, o, q);
    } else {
      StillWatched(c, w, st, o, q, step);
      if step.MigHeadEnc? {
        JudgedWatched(c, w, st, q);
      } else {
        OnwardWatched(c, w, st, q, step);
      }
    }
  }

  lemma OnwardWatched(c: Config, w: Watch, st: Store, q: CopyProc, step: CopyStep)
    requires CopyEnabled(c, st, q, step) && !Lands(step) && !step.MigHeadEnc? && CopyWatch(w, q)
    ensures CopyWatch(w, CopyNext(c, st, q, step))
  {
  }

  lemma OtherWatched(c: Config, w: Watch, s: State, step: Step)
    requires UploadsOk(s.store) && Enabled(c, s, step) && !step.CopyDo? && Leaves(c, s, step, w.p)
    requires w.e != w.p && StoreWatch(w, s.store)
    ensures var b := StoreAfter(c, s, step); Covered(w, b) || Erase(w.e) in ClientOp(c, s, step) || StoreWatch(w, b)
  {
    var st := s.store;
    if step.PutObject? {
      PublishWatched(w, st, Version(step.key, st.clock, st.clock, st.clock, None, Some(st.clock),
                                    c.identity(step.key), [Piece(Some(st.clock), step.bytes)], ByClient));
    } else if step.UpDo? && step.up.UpComplete? && step.up.keep {
      var u := s.procs[step.p].up.uid;
      PublishWatched(w, CloseUpload(st, u), Published(st, u, ByClient));
    } else if step.DelDo? && step.del.DelRemove? {
      var k := s.procs[step.p].del.key;
      assert k == w.e ==> Erase(w.e) == ClientOp(c, s, step)[0];
    } else {
      QuietWatched(w, st, StoreAfter(c, s, step));
    }
  }

  lemma WatchStep(c: Config, w: Watch, s: State, step: Step)
    requires Inv(c, s) && Carries(s) && Watching(w, s) && Mapped(c, w.p, w.e)
    requires Enabled(c, s, step) && Leaves(c, s, step, w.p) && Harmless(s, step, w)
    ensures Watching(w, Next(c, s, step)) || Covered(w, StoreAfter(c, s, step)) || Erase(w.e) in ClientOp(c, s, step)
  {
    var b := StoreAfter(c, s, step);
    if step.CopyDo? {
      assert ProcOk(c, s.store, step.p, s.procs[step.p]);
      CopyDoWatched(c, w, s.store, step.p, s.procs[step.p].copy, step.copy);
    } else {
      OtherWatched(c, w, s, step);
    }
    if !Covered(w, b) && Erase(w.e) !in ClientOp(c, s, step) {
      forall o | o in ProcsAfter(c, s, step) && ProcsAfter(c, s, step)[o].Copy?
        ensures CopyWatch(w, ProcsAfter(c, s, step)[o].copy)
      {
        CopiesAfter(c, s, step, o);
      }
    }
  }

  lemma {:induction false} CoveredStays(c: Config, w: Watch, s: State, steps: seq<Step>)
    requires Inv(c, s) && Runs(c, s, steps) && Covered(w, s.store)
    ensures Covered(w, Final(c, s, steps).store)
    decreases |steps|
  {
    if steps != [] {
      StoreStep(c, s, steps[0]);
      Preserved(c, s, steps[0]);
      var x :| x in s.store.log && HeldSince(w, s.store, x) && (CopyOf(w.v, s.store.log[x]) || Newer(w, s.store.log[x]));
      CoveredBy(w, StoreAfter(c, s, steps[0]), x);
      CoveredStays(c, w, Next(c, s, steps[0]), steps[1..]);
    }
  }

  lemma {:induction false} WatchThroughout(c: Config, w: Watch, s: State, steps: seq<Step>)
    requires Inv(c, s) && Carries(s) && Watching(w, s) && Mapped(c, w.p, w.e)
    requires Runs(c, s, steps) && AllLeave(c, s, steps, w.p)
    requires w.first.None? || Inert(w, w.first.value) || !Rewritable(w, w.first.value) || NoRestamps(c, s, steps, w)
    ensures var f := Final(c, s, steps);
            Watching(w, f) || Covered(w, f.store) || Erase(w.e) in ClientOps(c, s, steps)
    decreases |steps|
  {
    if steps != [] {
      var n := Next(c, s, steps[0]);
      Preserved(c, s, steps[0]);
      CarriesStep(c, s, steps[0]);
      WatchStep(c, w, s, steps[0]);
      if Covered(w, n.store) {
        CoveredStays(c, w, n, steps[1..]);
      } else if Watching(w, n) {
        WatchThroughout(c, w, n, steps[1..]);
      }
    }
  }

  /** What a caller can see before a migration: E(P) is empty, or holds P's copy, or
      something newer than P. */
  predicate Clear(w: Watch) {
    w.first.None? || CopyOf(w.v, w.first.value) || w.first.value.modified > w.v.modified
  }

  /** What can go wrong: an older object at E(P) that is not P's copy, that a tool can
      rewrite, and that migrate-names, or for a plaintext P encrypt-existing, judges by
      its date. */
  predicate Endangered(w: Watch) {
    w.first.Some? && !Clear(w) && Rewritable(w, w.first.value) && !Inert(w, w.first.value)
  }

  /** P is there, and its stamp is not one yet to be given. */
  predicate Migrates(c: Config, s: State, p: Key, e: Key) {
    && Initial(s) && Coherent(s.store) && Mapped(c, p, e) && p in s.store.visible
    && s.store.visible[p].modified < s.store.clock
  }

  /** P is gone only once E(P) has held its copy or a newer write, or a client deleted there. */
  predicate Justified(c: Config, s: State, steps: seq<Step>, p: Key, e: Key)
    requires Runs(c, s, steps) && p in s.store.visible
  {
    var f := Final(c, s, steps).store;
    p !in f.visible ==> Covered(Begun(s, p, e), f) || Erase(e) in ClientOps(c, s, steps)
  }

  lemma DeletedOnlyOnceCovered(c: Config, s: State, steps: seq<Step>, p: Key, e: Key)
    requires Migrates(c, s, p, e) && Runs(c, s, steps) && AllLeave(c, s, steps, p)
    requires !Endangered(Begun(s, p, e)) || NoRestamps(c, s, steps, Begun(s, p, e))
    ensures Justified(c, s, steps, p, e)
  {
    var w := Begun(s, p, e);
    if w.first.Some? && Clear(w) {
      CoveredBy(w, s.store, w.first.value.etag);
      CoveredStays(c, w, s, steps);
    } else {
      assert Watching(w, s);
      WatchThroughout(c, w, s, steps);
    }
  }

  // --------------------------------------------------- an older object there

  /** A run without client writes that ends with P deleted and E(P) not covered. */
  predicate Loses(c: Config, w: Watch, s: State, steps: seq<Step>) {
    && Runs(c, s, steps) && AllLeave(c, s, steps, w.p) && ClientOps(c, s, steps) == []
    && w.p !in Final(c, s, steps).store.visible && !Covered(w, Final(c, s, steps).store)
  }

  lemma Before(c: Config, w: Watch, s: State, step: Step, rest: seq<Step>)
    requires Enabled(c, s, step) && Leaves(c, s, step, w.p) && ClientOp(c, s, step) == []
    requires Loses(c, w, Next(c, s, step), rest)
    ensures Loses(c, w, s, [step] + rest)
  {
    assert ([step] + rest)[1..] == rest;
  }

  /** What stays so while a tool rewrites E(P). */
  predicate Shadowed(w: Watch, st: Store) {
    && w.p in st.visible && st.visible[w.p] == w.v && w.e in st.visible && w.e != w.p && !Covered(w, st)
    && w.v.modified < w.since <= st.clock
  }

  /** With something stamped later at E(P), a migration deletes P. */
  lemma DeletesNext(c: Config, w: Watch, s: State) returns (steps: seq<Step>)
    requires Mapped(c, w.p, w.e) && Shadowed(w, s.store)
    requires s.store.visible[w.e].dek.Some? && s.store.visible[w.e].modified > w.v.modified
    requires !Inert(w, s.store.visible[w.e])
    ensures Loses(c, w, s, steps)
  {
    var mode := if w.v.dek.Some? then MoveName(true) else EncryptMove(true);
    var s1 := Next(c, s, CopyHead(1, w.p, w.e, mode));
    var s2 := Next(c, s1, CopyDo(1, MigHeadEnc));
    var s3 := Next(c, s2, CopyDo(1, MigDelete));
    assert s3.store.log == s.store.log && w.p !in s3.store.visible;
    SameLogCovers(w, s.store, s3.store);
    assert Loses(c, w, s3, []);
    Before(c, w, s2, CopyDo(1, MigDelete), []);
    Before(c, w, s1, CopyDo(1, MigHeadEnc), [CopyDo(1, MigDelete)] + []);
    Before(c, w, s, CopyHead(1, w.p, w.e, mode), [CopyDo(1, MigHeadEnc)] + ([CopyDo(1, MigDelete)] + []));
    steps := [CopyHead(1, w.p, w.e, mode)] + ([CopyDo(1, MigHeadEnc)] + ([CopyDo(1, MigDelete)] + []));
  }

  lemma SameLogCovers(w: Watch, a: Store, b: Store)
    requires a.log == b.log
    ensures Covered(w, a) <==> Covered(w, b)
  {
    if Covered(w, a) {
      var x :| x in a.log && HeldSince(w, a, x) && (CopyOf(w.v, a.log[x]) || Newer(w, a.log[x]));
      CoveredBy(w, b, x);
    } else if Covered(w, b) {
      var x :| x in b.log && HeldSince(w, b, x) && (CopyOf(w.v, b.log[x]) || Newer(w, b.log[x]));
      CoveredBy(w, a, x);
    }
  }

  /** A guarded rewrite of what E(P) held at the start, its upload the only one open. */
  predicate Rewriting(c: Config, w: Watch, s: State, job: Job, u: nat) {
    var st := s.store;
    && Shadowed(w, st) && job.src == w.e == job.dst && job.ver == st.visible[w.e] && w.first == Some(job.ver)
    && (if job.Reseals() then job.mode == Encrypt(true) else job.mode == Rotate(true))
    && (job.Reseals() <==> job.ver.dek.None?) && !CopyOf(w.v, job.ver)
    && st.open == {u} && u in st.uploads && u in st.parts && w.since <= u < st.clock
    && RankAt(st, w.e) < u && st.uploads[u].key == w.e
    && !Inert(w, job.ver) && st.uploads[u].bound == job.BindsTo(c)
    && (!job.Reseals() ==> Some(st.uploads[u].dek) == job.ver.dek)
    && 0 in s.procs
  }

  /** The rewrite is published: a new stamp, no new content. */
  lemma PublishesNext(c: Config, w: Watch, s: State, job: Job, u: nat) returns (steps: seq<Step>)
    requires Mapped(c, w.p, w.e) && Rewriting(c, w, s, job, u) && s.procs[0] == Copy(CopyListed(job, u))
    requires Plain(s.store.parts[u]) == Plain(job.ver.body)
    ensures Loses(c, w, s, steps)
  {
    var step := CopyDo(0, CopyComplete(true));
    var n := Next(c, s, step);
    var x := n.store.visible[w.e];
    assert n.store.log == s.store.log[x.etag := x] && !CopyOf(w.v, x) && !Newer(w, x);
    if Covered(w, n.store) {
      var y :| y in n.store.log && HeldSince(w, n.store, y) && (CopyOf(w.v, n.store.log[y]) || Newer(w, n.store.log[y]));
      CoveredBy(w, s.store, y);
    }
    var rest := DeletesNext(c, w, n);
    Before(c, w, s, step, rest);
    steps := [step] + rest;
  }

  lemma FinishesNext(c: Config, w: Watch, s: State, job: Job, u: nat, left: seq<nat>) returns (steps: seq<Step>)
    requires Mapped(c, w.p, w.e) && Rewriting(c, w, s, job, u) && s.procs[0] == Copy(CopyOpen(job, u, left))
    requires if job.Reseals() then left == [] && Plain(s.store.parts[u]) == Plain(job.ver.body)
             else s.store.parts[u] == job.ver.body
    ensures Loses(c, w, s, steps)
  {
    var s1 := Next(c, s, CopyDo(0, CopyManifest));
    SameLogCovers(w, s.store, s1.store);
    var s2 := Next(c, s1, CopyDo(0, CopyUploads));
    var rest := PublishesNext(c, w, s2, job, u);
    Before(c, w, s1, CopyDo(0, CopyUploads), rest);
    Before(c, w, s, CopyDo(0, CopyManifest), [CopyDo(0, CopyUploads)] + rest);
    steps := [CopyDo(0, CopyManifest)] + ([CopyDo(0, CopyUploads)] + rest);
  }

  /** Part by part. */
  lemma {:induction false} CopiesNext(c: Config, w: Watch, s: State, job: Job, u: nat) returns (steps: seq<Step>)
    requires Mapped(c, w.p, w.e) && Rewriting(c, w, s, job, u) && s.procs[0] == Copy(CopyOpen(job, u, []))
    requires !job.Reseals() && s.store.parts[u] <= job.ver.body
    ensures Loses(c, w, s, steps)
    decreases |job.ver.body| - |s.store.parts[u]|
  {
    if s.store.parts[u] == job.ver.body {
      steps := FinishesNext(c, w, s, job, u, []);
    } else {
      var n := Next(c, s, CopyDo(0, CopyPart));
      SameLogCovers(w, s.store, n.store);
      var rest := CopiesNext(c, w, n, job, u);
      Before(c, w, s, CopyDo(0, CopyPart), rest);
      steps := [CopyDo(0, CopyPart)] + rest;
    }
  }

  lemma SealsNext(c: Config, w: Watch, s: State, job: Job, u: nat) returns (steps: seq<Step>)
    requires Mapped(c, w.p, w.e) && Rewriting(c, w, s, job, u) && s.procs[0] == Copy(CopyOpen(job, u, Plain(job.ver.body)))
    requires job.Reseals() && s.store.parts[u] == []
    ensures Loses(c, w, s, steps)
  {
    var left := Plain(job.ver.body);
    var step := CopyDo(0, CopySegment(|left|));
    var n := Next(c, s, step);
    SameLogCovers(w, s.store, n.store);
    assert left[..|left|] == left && left[|left|..] == [];
    var piece := Piece(Some(s.store.uploads[u].dek), left);
    assert n.store.parts[u] == [piece] && Plain([piece]) == left;
    var rest := FinishesNext(c, w, n, job, u, []);
    Before(c, w, s, step, rest);
    steps := [step] + rest;
  }

  /** Where E(P) holds such an older object, a guarded rotation of it or, beside a
      plaintext P, an encryption in place restamps it; the migration takes it for newer
      and deletes P. */
  lemma RestampLoses(c: Config, s: State, p: Key, e: Key) returns (steps: seq<Step>)
    requires Migrates(c, s, p, e) && Endangered(Begun(s, p, e))
    ensures Loses(c, Begun(s, p, e), s, steps)
  {
    var w, u := Begun(s, p, e), s.store.clock;
    NotYetCovered(c, s, p, e);
    var x := s.store.visible[e];
    if x.dek.Some? {
      var job := Job(e, e, x, Rotate(true));
      var head, create := CopyHead(0, e, e, Rotate(true)), CopyDo(0, CopyCreate(x.mid.Some?));
      var s1 := Next(c, s, head);
      var s2 := Next(c, s1, create);
      SameLogCovers(w, s.store, s2.store);
      var rest := CopiesNext(c, w, s2, job, u);
      Before(c, w, s1, create, rest);
      Before(c, w, s, head, [create] + rest);
      steps := [head] + ([create] + rest);
    } else {
      steps := SealedLoses(c, s, p, e);
    }
  }

  lemma SealedLoses(c: Config, s: State, p: Key, e: Key) returns (steps: seq<Step>)
    requires Migrates(c, s, p, e) && Endangered(Begun(s, p, e)) && s.store.visible[e].dek.None?
    ensures Loses(c, Begun(s, p, e), s, steps)
  {
    var w := Begun(s, p, e);
    NotYetCovered(c, s, p, e);
    var job := Job(e, e, s.store.visible[e], Encrypt(true));
    var head, fetch := CopyHead(0, e, e, Encrypt(true)), CopyDo(0, CopyFetch);
    var s1 := Next(c, s, head);
    var s2 := Next(c, s1, fetch);
    var rest := CreatesNext(c, w, s2, job);
    Before(c, w, s1, fetch, rest);
    Before(c, w, s, head, [fetch] + rest);
    steps := [head] + ([fetch] + rest);
  }

  lemma CreatesNext(c: Config, w: Watch, s: State, job: Job) returns (steps: seq<Step>)
    requires Mapped(c, w.p, w.e) && Shadowed(w, s.store) && w.e in s.store.visible && Endangered(w) && VisibleOk(s.store)
    requires job == Job(w.e, w.e, s.store.visible[w.e], Encrypt(true)) && w.first == Some(job.ver) && job.ver.dek.None?
    requires s.store.open == {} && 0 in s.procs && s.procs[0] == Copy(CopyFetched(job, Plain(job.ver.body)))
    ensures Loses(c, w, s, steps)
  {
    var create := CopyDo(0, CopyCreate(false));
    var n := Next(c, s, create);
    SameLogCovers(w, s.store, n.store);
    var rest := SealsNext(c, w, n, job, s.store.clock);
    Before(c, w, s, create, rest);
    steps := [create] + rest;
  }

  lemma NotYetCovered(c: Config, s: State, p: Key, e: Key)
    requires Migrates(c, s, p, e) && Endangered(Begun(s, p, e))
    ensures Shadowed(Begun(s, p, e), s.store)
  {
  }

  /** The migration precondition, exactly.  `rewrites` says whether tools may rewrite E(P)
      while it holds something that is not newer than P: every run, guarded or not, with
      whatever clients do at E(P), deletes P only once E(P) is covered, if and only if they
      may not, or P was not endangered to begin with. */
  lemma DeletesExactly(c: Config, s: State, p: Key, e: Key, rewrites: bool)
    requires Migrates(c, s, p, e)
    ensures (forall steps | Runs(c, s, steps) && AllLeave(c, s, steps, p) &&
                            (rewrites || NoRestamps(c, s, steps, Begun(s, p, e))) :: Justified(c, s, steps, p, e)) <==>
            !rewrites || !Endangered(Begun(s, p, e))
  {
    if !rewrites || !Endangered(Begun(s, p, e)) {
      forall steps | Runs(c, s, steps) && AllLeave(c, s, steps, p) && (rewrites || NoRestamps(c, s, steps, Begun(s, p, e)))
        ensures Justified(c, s, steps, p, e)
      {
        DeletedOnlyOnceCovered(c, s, steps, p, e);
      }
    } else {
      var steps := RestampLoses(c, s, p, e);
      assert !Justified(c, s, steps, p, e);
    }
  }
}
