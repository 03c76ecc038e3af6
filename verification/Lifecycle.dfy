/**
Safety of the manifest lifecycle: whatever runs concurrently, and whichever of
two writes the provider keeps, a visible multipart version has its manifest.

The argument is rely-guarantee.  UpOk, DelOk, CopyOk and GcOk say what a process
may count on between two of its steps, `Rely` what the others may have done
meanwhile, and every manifest a process is about to delete is `Dead`.
*/
module Lifecycle {
  import opened Base
  import opened Provider
  import opened Protocol

  /** A manifest id read off the visible version belongs to a finished upload. */
  predicate SeenClosed(st: Store, k: Key, seen: Option<nat>) {
    seen.Some? ==> Closed(st, Ref(k, seen.value))
  }

  predicate SeenDead(st: Store, k: Key, seen: Option<nat>) {
    seen.Some? ==> Dead(st, Ref(k, seen.value))
  }

  predicate ManifestReady(st: Store, u: nat) {
    u in st.uploads && (u in st.open && st.uploads[u].multi ==> Ref(st.uploads[u].key, u) in st.manifests)
  }

  predicate UpOk(st: Store, q: UpProc) {
    match q
    case UpHeaded(u, seen) =>
      u in st.uploads && st.uploads[u].owner.None? && SeenClosed(st, st.uploads[u].key, seen)
    case UpWritten(u, seen) =>
      ManifestReady(st, u) && st.uploads[u].owner.None? && SeenClosed(st, st.uploads[u].key, seen)
    case UpCompleted(u, seen) => u in st.uploads && SeenClosed(st, st.uploads[u].key, seen)
    case UpCleared(r) => Dead(st, r)
  }

  predicate DelOk(st: Store, q: DelProc) {
    match q
    case DelHeaded(k, seen) => SeenClosed(st, k, seen)
    case DelRemoved(k, seen) => SeenDead(st, k, seen)
  }

  /** The version a copy read was visible at its source once. */
  predicate JobOk(c: Config, st: Store, job: Job) {
    && JobFits(c, job) && job.ver.key == job.src
    && job.ver.etag in st.log && st.log[job.ver.etag] == job.ver
  }

  predicate OwnUpload(c: Config, st: Store, p: nat, job: Job, u: nat) {
    && u in st.uploads && st.uploads[u].key == job.dst && st.uploads[u].owner == Some(p)
    && st.uploads[u].bound == job.BindsTo(c)
    && job.ver.rank < u
  }

  predicate CopyOk(c: Config, st: Store, p: nat, q: CopyProc) {
    && JobOk(c, st, q.job)
    && match q
       case CopyOpen(job, u, _) => OwnUpload(c, st, p, job, u)
       case CopyWritten(job, u) => OwnUpload(c, st, p, job, u) && ManifestReady(st, u)
       case CopyListed(job, u) => OwnUpload(c, st, p, job, u) && ManifestReady(st, u)
       case CopyDone(job) => SeenDead(st, job.dst, job.Replaced())
       case MoveHeaded(job) => job.Moves()
       case MoveObsolete(job) => job.Moves()
       case MoveRemoved(job) => job.Moves() && SeenDead(st, job.src, job.ver.mid)
       case _ => true
  }

  predicate GcOk(st: Store, q: GcProc) {
    && (forall r | r in q.refs :: Homed(st, r))
    && match q
       case GcListed(_) => true
       case GcClear(refs, k) => forall r | r in refs && r.key == k :: Closed(st, r)
       case GcSweep(refs, k, seen) => forall r | r in refs && r.key == k && Some(r.mid) != seen :: Dead(st, r)
  }

  predicate ProcOk(c: Config, st: Store, p: nat, q: Proc) {
    match q
    case Up(up) => UpOk(st, up)
    case Del(del) => DelOk(st, del)
    case Copy(copy) => CopyOk(c, st, p, copy)
    case Gc(gc) => GcOk(st, gc)
  }

  predicate Inv(c: Config, s: State) {
    StoreOk(s.store) && forall p | p in s.procs :: ProcOk(c, s.store, p, s.procs[p])
  }

  lemma RelyKeepsUp(a: Store, b: Store, q: UpProc)
    requires StoreOk(a) && StoreOk(b) && Rely(a, b) && UpOk(a, q)
    ensures UpOk(b, q)
  {
  }

  lemma RelyKeepsCopy(c: Config, a: Store, b: Store, p: nat, q: CopyProc)
    requires StoreOk(a) && StoreOk(b) && Rely(a, b) && CopyOk(c, a, p, q)
    ensures CopyOk(c, b, p, q)
  {
    if q.CopyDone? && q.job.Replaced().Some? {
      RelyKeepsDead(a, b, Ref(q.job.dst, q.job.Replaced().value));
    } else if q.MoveRemoved? && q.job.ver.mid.Some? {
      RelyKeepsDead(a, b, Ref(q.job.src, q.job.ver.mid.value));
    }
  }

  lemma RelyKeepsGc(a: Store, b: Store, q: GcProc)
    requires StoreOk(a) && StoreOk(b) && Rely(a, b) && GcOk(a, q)
    ensures GcOk(b, q)
  {
    forall r | r in q.refs
      ensures Homed(b, r) && (Closed(a, r) ==> Closed(b, r)) && (Dead(a, r) ==> Dead(b, r))
    {
      RelyKeepsDead(a, b, r);
    }
  }

  /** What a process counts on survives whatever the others do. */
  lemma RelyKeepsProc(c: Config, a: Store, b: Store, p: nat, q: Proc)
    requires StoreOk(a) && StoreOk(b) && Rely(a, b) && ProcOk(c, a, p, q)
    ensures ProcOk(c, b, p, q)
  {
    match q
    case Up(up) => RelyKeepsUp(a, b, up);
    case Del(del) =>
      if del.seen.Some? {
        RelyKeepsDead(a, b, Ref(del.key, del.seen.value));
      }
    case Copy(copy) => RelyKeepsCopy(c, a, b, p, copy);
    case Gc(gc) => RelyKeepsGc(a, b, gc);
  }

  // ------------------------------------- each process keeps its own promise

  lemma UpGuarantee(c: Config, st: Store, q: UpProc, step: UpStep)
    requires StoreOk(st) && UpOk(st, q) && UpEnabled(c, st, q, step)
    ensures var b := UpStore(c, st, q, step); StoreOk(b) && Rely(st, b) && UpOk(b, UpNext(c, st, q, step))
  {
    match step
    case UpManifest => PutManifestOk(st, Ref(st.uploads[q.uid].key, q.uid));
    case UpComplete(keep) => CompleteOk(st, q.uid, keep, ByClient);
    case UpVerify =>
    case UpCleanup => DeleteManifestOk(st, q.ref);
  }

  lemma DelGuarantee(st: Store, q: DelProc, step: DelStep)
    requires StoreOk(st) && DelOk(st, q) && DelEnabled(q, step)
    ensures var b := DelStore(st, q, step); StoreOk(b) && Rely(st, b) && DelOk(b, DelNext(q, step))
  {
    match step
    case DelRemove => RemoveOk(st, q.key);
    case DelManifest => DeleteManifestOk(st, Ref(q.key, q.seen.value));
  }

  /** A copy that completes leaves the version its own HEAD saw replaced: the
      copy's write began after that version was visible, so no provider order
      prefers the version. */
  lemma CompletionReplaces(c: Config, st: Store, p: nat, q: CopyProc, keep: bool)
    requires StoreOk(st) && CopyOk(c, st, p, q) && CopyEnabled(c, st, q, CopyComplete(keep))
    ensures var b := CopyStore(c, st, p, q, CopyComplete(keep));
            StoreOk(b) && Rely(st, b) && SeenDead(b, q.job.dst, q.job.Replaced())
  {
    var b := CopyStore(c, st, p, q, CopyComplete(keep));
    CompleteOk(st, q.uid, keep, q.job.Publisher());
    if q.job.Replaced().Some? {
      var r := Ref(q.job.dst, q.job.Replaced().value);
      RelyKeepsDead(st, b, r);
      if MidAt(st, r.key) == Some(r.mid) {
        assert st.visible[r.key] == q.job.ver;
        assert keep;
      }
    }
  }

  lemma CopyGuaranteeStore(c: Config, st: Store, p: nat, q: CopyProc, step: CopyStep)
    requires StoreOk(st) && CopyOk(c, st, p, q) && CopyEnabled(c, st, q, step)
    ensures var b := CopyStore(c, st, p, q, step); StoreOk(b) && Rely(st, b)
  {
    var job := q.job;
    match step
    case CopyWhole =>
      PutWholeOk(st, job.dst, job.ver.dek, job.BindsTo(c), st.visible[job.src].body,
                 if job.mode.ClientCopy? then ByClient else ByTool(false));
    case CopyFetch =>
    case CopyCreate(multi) => OpenUploadOk(st, job.dst, multi, job.ver.dek, job.BindsTo(c), Some(p));
    case CopyPart =>
      var body, n := st.visible[job.src].body, |st.parts[q.uid]|;
      AddPartsOk(st, q.uid, if job.ver.mid.Some? then [body[n]] else body[n..]);
    case CopySegment(size) => AddPartsOk(st, q.uid, [Piece(Some(st.uploads[q.uid].dek), q.left[..size])]);
    case CopyManifest =>
      if st.uploads[q.uid].multi {
        PutManifestOk(st, Ref(st.uploads[q.uid].key, q.uid));
      }
    case CopyUploads =>
    case CopyComplete(keep) => CompletionReplaces(c, st, p, q, keep);
    case CopyCleanup => DeleteManifestOk(st, Ref(job.dst, job.Replaced().value));
    case MigHeadEnc =>
    case MigDelete => RemoveOk(st, job.src);
    case MigManifestDel => DeleteManifestOk(st, Ref(job.src, job.ver.mid.value));
  }

  lemma CopyGuarantee(c: Config, st: Store, p: nat, q: CopyProc, step: CopyStep)
    requires StoreOk(st) && CopyOk(c, st, p, q) && CopyEnabled(c, st, q, step)
    ensures CopyOk(c, CopyStore(c, st, p, q, step), p, CopyNext(c, st, q, step))
  {
    CopyGuaranteeStore(c, st, p, q, step);
    RelyKeepsCopy(c, st, CopyStore(c, st, p, q, step), p, q);
    if step.CopyComplete? {
      CompletionReplaces(c, st, p, q, step.keep);
    }
  }

  /** What a finished request may still do is to take exactly the manifest of the version it
      replaced, moved away or removed. */
  lemma CopyCleansUp(c: Config, st: Store, p: nat, q: CopyProc)
    requires q.CopyDone? && q.job.src == q.job.dst && (q.job.mode.Rotate? || q.job.mode.ClientCopy?) && q.job.ver.mid.Some?
    ensures CopyEnabled(c, st, q, CopyCleanup)
    ensures CopyStore(c, st, p, q, CopyCleanup) == st.(manifests := st.manifests - {Ref(q.job.dst, q.job.ver.mid.value)})
  {
  }

  lemma MoveCleansUp(c: Config, st: Store, p: nat, q: CopyProc)
    requires q.MoveRemoved? && q.job.mode.MoveName? && q.job.ver.mid.Some?
    ensures CopyEnabled(c, st, q, MigManifestDel)
    ensures CopyStore(c, st, p, q, MigManifestDel) == st.(manifests := st.manifests - {Ref(q.job.src, q.job.ver.mid.value)})
  {
  }

  /** A client's completion takes the manifest it saw before, once a HEAD shows that version
      replaced. */
  lemma UploadCleansUp(c: Config, st: Store, q: UpProc)
    requires q.UpCompleted? && q.uid in st.uploads && q.seen.Some? && q.seen.value != q.uid
    requires MidAt(st, st.uploads[q.uid].key) != q.seen
    ensures UpEnabled(c, st, q, UpVerify) && UpStore(c, st, q, UpVerify) == st
    ensures var n := UpNext(c, st, q, UpVerify);
            && UpEnabled(c, st, n, UpCleanup)
            && UpStore(c, st, n, UpCleanup) == st.(manifests := st.manifests - {Ref(st.uploads[q.uid].key, q.seen.value)})
  {
  }

  /** The order of gc's reads: what was listed before the open uploads were, and
      belongs to none of them, can only be visible already. */
  lemma GcGuarantee(st: Store, q: GcProc, step: GcStep)
    requires StoreOk(st) && GcOk(st, q) && GcEnabled(st, q, step)
    ensures var b := GcStore(st, step); StoreOk(b) && Rely(st, b) && GcOk(b, GcNext(st, q, step))
  {
    match step
    case GcStepOne(_) =>
    case GcStepTwo(key) => assert forall u | u in st.open :: st.uploads[u].key != key;
    case GcHead =>
    case GcDelete(r) =>
      DeleteManifestOk(st, r);
      forall s | s in q.refs && Dead(st, s) ensures Dead(GcStore(st, step), s) {}
  }

  /** Requests of no process. */
  lemma RequestGuarantee(c: Config, s: State, step: Step)
    requires StoreOk(s.store) && Enabled(c, s, step)
    requires step.PutObject? || step.UpCreate? || step.UpPart? || step.Abort?
    ensures StoreOk(StoreAfter(c, s, step)) && Rely(s.store, StoreAfter(c, s, step))
  {
    var st := s.store;
    match step
    case PutObject(key, bytes) => PutWholeOk(st, key, Some(st.clock), c.identity(key), [Piece(Some(st.clock), bytes)], ByClient);
    case UpCreate(key) => OpenUploadOk(st, key, true, None, c.identity(key), None);
    case UpPart(u, bytes) => AddPartsOk(st, u, [Piece(Some(st.uploads[u].dek), bytes)]);
    case Abort(u) => CloseUploadOk(st, u);
  }

  lemma BeginGuarantee(c: Config, s: State, step: Step)
    requires StoreOk(s.store) && Enabled(c, s, step)
    requires step.UpHead? || step.DelHead? || step.CopyHead? || step.GcBegin?
    ensures ProcOk(c, s.store, step.p, ProcsAfter(c, s, step)[step.p])
  {
  }

  // --------------------------------------------------------------- every run

  lemma StoreStep(c: Config, s: State, step: Step)
    requires Inv(c, s) && Enabled(c, s, step)
    ensures StoreOk(StoreAfter(c, s, step)) && Rely(s.store, StoreAfter(c, s, step))
  {
    match step
    case UpDo(p, up) => assert ProcOk(c, s.store, p, s.procs[p]); UpGuarantee(c, s.store, s.procs[p].up, up);
    case DelDo(p, del) => assert ProcOk(c, s.store, p, s.procs[p]); DelGuarantee(s.store, s.procs[p].del, del);
    case CopyDo(p, copy) => assert ProcOk(c, s.store, p, s.procs[p]); CopyGuaranteeStore(c, s.store, p, s.procs[p].copy, copy);
    case GcDo(p, gc) => assert ProcOk(c, s.store, p, s.procs[p]); GcGuarantee(s.store, s.procs[p].gc, gc);
    case UpHead(_, _) =>
    case DelHead(_, _) =>
    case CopyHead(_, _, _, _) =>
    case GcBegin(_) =>
    case _ => RequestGuarantee(c, s, step);
  }

  /** Replacing one process's state by one it vouches for. */
  lemma OthersKeep(c: Config, s: State, b: Store, p: nat, q: Proc)
    requires Inv(c, s) && StoreOk(b) && Rely(s.store, b) && ProcOk(c, b, p, q)
    ensures Inv(c, State(b, s.procs)) && Inv(c, State(b, s.procs[p := q]))
  {
    forall o | o in s.procs
      ensures ProcOk(c, b, o, s.procs[o])
    {
      RelyKeepsProc(c, s.store, b, o, s.procs[o]);
    }
  }

  /** Requests of no process have no actor; every other step has one. */
  predicate Acts(step: Step) { !step.PutObject? && !step.UpCreate? && !step.UpPart? && !step.Abort? }

  lemma ActorKeeps(c: Config, s: State, step: Step)
    requires Inv(c, s) && Enabled(c, s, step) && Acts(step)
    ensures ProcOk(c, StoreAfter(c, s, step), step.p, ProcsAfter(c, s, step)[step.p])
  {
    match step
    case UpDo(p, up) => UpGuarantee(c, s.store, s.procs[p].up, up);
    case DelDo(p, del) => DelGuarantee(s.store, s.procs[p].del, del);
    case CopyDo(p, copy) => CopyGuarantee(c, s.store, p, s.procs[p].copy, copy);
    case GcDo(p, gc) => GcGuarantee(s.store, s.procs[p].gc, gc);
    case UpHead(_, _) => BeginGuarantee(c, s, step);
    case DelHead(_, _) => BeginGuarantee(c, s, step);
    case CopyHead(_, _, _, _) => BeginGuarantee(c, s, step);
    case GcBegin(_) => BeginGuarantee(c, s, step);
  }

  lemma OnlyActor(c: Config, s: State, step: Step)
    requires Enabled(c, s, step)
    ensures Acts(step) ==> step.p in ProcsAfter(c, s, step) &&
                           ProcsAfter(c, s, step) == s.procs[step.p := ProcsAfter(c, s, step)[step.p]]
    ensures !Acts(step) ==> ProcsAfter(c, s, step) == s.procs
  {
  }

  lemma Preserved(c: Config, s: State, step: Step)
    requires Inv(c, s) && Enabled(c, s, step)
    ensures Inv(c, Next(c, s, step))
  {
    var b, n := StoreAfter(c, s, step), ProcsAfter(c, s, step);
    StoreStep(c, s, step);
    OnlyActor(c, s, step);
    if Acts(step) {
      ActorKeeps(c, s, step);
      OthersKeep(c, s, b, step.p, n[step.p]);
    } else {
      OthersKeep(c, s, b, 0, Gc(GcListed({})));
    }
  }

  lemma {:induction false} InvThroughout(c: Config, s: State, steps: seq<Step>)
    requires Inv(c, s) && Runs(c, s, steps)
    ensures Inv(c, Final(c, s, steps))
    decreases |steps|
  {
    if steps != [] {
      Preserved(c, s, steps[0]);
      InvThroughout(c, Next(c, s, steps[0]), steps[1..]);
    }
  }

  /** Invariant I1 in every reachable state, for every order the provider may
      keep writes in. */
  lemma VisibleHasManifest(c: Config, s: State, steps: seq<Step>)
    requires Initial(s) && Runs(c, s, steps)
    ensures Readable(Final(c, s, steps).store)
  {
    InvThroughout(c, s, steps);
  }

  /** What a process may delete never becomes visible again, whatever runs next. */
  lemma {:induction false} DeadForever(c: Config, s: State, steps: seq<Step>, r: Ref)
    requires Inv(c, s) && Runs(c, s, steps) && Dead(s.store, r)
    ensures Dead(Final(c, s, steps).store, r)
    decreases |steps|
  {
    if steps != [] {
      StoreStep(c, s, steps[0]);
      Preserved(c, s, steps[0]);
      RelyKeepsDead(s.store, StoreAfter(c, s, steps[0]), r);
      DeadForever(c, Next(c, s, steps[0]), steps[1..], r);
    }
  }

  /** The only manifests a gc pass deletes are dead: listed, of a closed upload,
      and not the visible version's. */
  lemma GcDeletesOnlyDead(c: Config, s: State, steps: seq<Step>, p: nat, r: Ref)
    requires Initial(s) && Runs(c, s, steps) && Enabled(c, Final(c, s, steps), GcDo(p, GcDelete(r)))
    ensures Dead(Final(c, s, steps).store, r)
  {
    InvThroughout(c, s, steps);
    var f := Final(c, s, steps);
    assert ProcOk(c, f.store, p, f.procs[p]);
  }
}
