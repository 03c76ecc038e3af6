/**
A provider that ranks writes by when they began discards an upload a client
created before a copy and completes after it.  A copy that lists the open
uploads after its own exists, and gives way to any other, is never what a
client's upload is discarded for.
*/
module Yielding {
  import opened Base
  import opened Provider
  import opened Protocol
  import opened Lifecycle

  /** No upload of `k` created up to `r`, other than `mine`, can still complete. */
  predicate NoOlder(st: Store, k: Key, r: nat, mine: Option<nat>) {
    forall u | u in st.open && u in st.uploads && u <= r && mine != Some(u) :: st.uploads[u].key != k
  }

  predicate VisibleYielded(st: Store) {
    forall k | k in st.visible && st.visible[k].writer == ByTool(true) :: NoOlder(st, k, st.visible[k].rank, None)
  }

  predicate CopyYielded(st: Store, q: CopyProc) {
    q.CopyListed? && q.job.Yields() ==> NoOlder(st, q.job.dst, q.uid, Some(q.uid))
  }

  predicate Yielded(s: State) {
    && VisibleYielded(s.store)
    && forall p | p in s.procs && s.procs[p].Copy? :: CopyYielded(s.store, s.procs[p].copy)
  }

  lemma NoOlderKept(a: Store, b: Store, k: Key, r: nat, mine: Option<nat>)
    requires UploadsOk(a) && RelyUploads(a, b) && NoOlder(a, k, r, mine) && r < a.clock
    ensures NoOlder(b, k, r, mine)
  {
  }

  /** The visible version stays, goes, or is replaced by one of these writers. */
  predicate OnlyBy(a: Store, b: Store, writers: set<Writer>) {
    forall k | k in b.visible :: (k in a.visible && b.visible[k] == a.visible[k]) || b.visible[k].writer in writers
  }

  lemma VisibleKept(a: Store, b: Store)
    requires UploadsOk(a) && VisibleOk(a) && RelyUploads(a, b) && VisibleYielded(a)
    requires OnlyBy(a, b, {ByClient, ByTool(false)})
    ensures VisibleYielded(b)
  {
    forall k | k in b.visible && b.visible[k].writer == ByTool(true)
      ensures NoOlder(b, k, b.visible[k].rank, None)
    {
      NoOlderKept(a, b, k, a.visible[k].rank, None);
    }
  }

  /** The listing is read after the copy's own upload exists, so an upload it
      does not show was created later and outranks the copy. */
  lemma CopyStep(c: Config, st: Store, p: nat, q: CopyProc, step: CopyStep)
    requires UploadsOk(st) && VisibleOk(st) && CopyOk(c, st, p, q) && CopyEnabled(c, st, q, step)
    requires RelyUploads(st, CopyStore(c, st, p, q, step)) && VisibleYielded(st) && CopyYielded(st, q)
    ensures var b := CopyStore(c, st, p, q, step); VisibleYielded(b) && CopyYielded(b, CopyNext(c, st, q, step))
  {
    var b := CopyStore(c, st, p, q, step);
    if step.CopyComplete? && step.keep && q.job.Publisher() == ByTool(true) {
      forall k | k in b.visible && b.visible[k].writer == ByTool(true)
        ensures NoOlder(b, k, b.visible[k].rank, None)
      {
        if k == q.job.dst {
          NoOlderKept(st, b, k, q.uid, Some(q.uid));
        } else {
          NoOlderKept(st, b, k, st.visible[k].rank, None);
        }
      }
    } else {
      VisibleKept(st, b);
    }
  }

  lemma UpOnlyBy(c: Config, st: Store, q: UpProc, step: UpStep)
    requires UpEnabled(c, st, q, step)
    ensures OnlyBy(st, UpStore(c, st, q, step), {ByClient, ByTool(false)})
  {
  }

  lemma OtherStep(c: Config, s: State, step: Step)
    requires Enabled(c, s, step) && !step.CopyDo?
    ensures OnlyBy(s.store, StoreAfter(c, s, step), {ByClient, ByTool(false)})
  {
    if step.UpDo? {
      UpOnlyBy(c, s.store, s.procs[step.p].up, step.up);
    } else if step.DelDo? {
      assert forall k | k in StoreAfter(c, s, step).visible :: k in s.store.visible;
    } else if !step.PutObject? {
      assert StoreAfter(c, s, step).visible == s.store.visible;
    }
  }

  lemma CopyKept(c: Config, a: Store, b: Store, p: nat, q: CopyProc)
    requires UploadsOk(a) && RelyUploads(a, b) && CopyOk(c, a, p, q) && CopyYielded(a, q)
    ensures CopyYielded(b, q)
  {
    if q.CopyListed? && q.job.Yields() {
      NoOlderKept(a, b, q.job.dst, q.uid, Some(q.uid));
    }
  }

  lemma YieldedStep(c: Config, s: State, step: Step)
    requires Inv(c, s) && Yielded(s) && Enabled(c, s, step)
    ensures Yielded(Next(c, s, step))
  {
    var a, b := s.store, StoreAfter(c, s, step);
    StoreStep(c, s, step);
    forall p | p in s.procs && s.procs[p].Copy?
      ensures CopyOk(c, a, p, s.procs[p].copy) && CopyYielded(b, s.procs[p].copy)
    {
      assert ProcOk(c, a, p, s.procs[p]);
      CopyKept(c, a, b, p, s.procs[p].copy);
    }
    if step.CopyDo? {
      CopyStep(c, a, step.p, s.procs[step.p].copy, step.copy);
    } else {
      OtherStep(c, s, step);
      VisibleKept(a, b);
    }
    forall p | p in ProcsAfter(c, s, step) && ProcsAfter(c, s, step)[p].Copy?
      ensures CopyYielded(b, ProcsAfter(c, s, step)[p].copy)
    {
      CopiesAfter(c, s, step, p);
    }
  }

  lemma {:induction false} YieldedThroughout(c: Config, s: State, steps: seq<Step>)
    requires Inv(c, s) && Yielded(s) && Runs(c, s, steps)
    ensures Inv(c, Final(c, s, steps)) && Yielded(Final(c, s, steps))
    decreases |steps|
  {
    if steps != [] {
      Preserved(c, s, steps[0]);
      YieldedStep(c, s, steps[0]);
      YieldedThroughout(c, Next(c, s, steps[0]), steps[1..]);
    }
  }

  /** When the provider answers a client's completion with success and discards
      it, what it keeps instead is not a copy that gave way. */
  lemma ClientUploadNeverLostToYieldingCopy(c: Config, s: State, steps: seq<Step>, p: nat)
    requires Initial(s) && Runs(c, s, steps)
    requires Enabled(c, Final(c, s, steps), UpDo(p, UpComplete(false)))
    ensures var f := Final(c, s, steps);
            var k := f.store.uploads[f.procs[p].up.uid].key;
            k in f.store.visible ==> f.store.visible[k].writer != ByTool(true)
  {
    YieldedThroughout(c, s, steps);
    var f := Final(c, s, steps);
    assert VisibleYielded(f.store);
  }

  // ------------------------------------- the same of what the tools are asked

  /** Every copy was asked for by a client, or carries its condition. */
  predicate Guarded(mode: Mode) { mode.ClientCopy? || mode.guarded }

  predicate GuardedOnly(s: State) {
    forall p | p in s.procs && s.procs[p].Copy? :: Guarded(s.procs[p].copy.job.mode)
  }

  /** What is not a client's, and was published since, left no older upload open; and a
      tool's copy past its listing has none beside its own. */
  predicate ToolsYield(s: State, since: nat) {
    && since <= s.store.clock && (forall u | u in s.store.uploads :: since <= u)
    && VisibleYields(s.store, since)
    && forall p | p in s.procs && s.procs[p].Copy? :: ToolYields(s.store, s.procs[p].copy)
  }

  predicate ToolYields(st: Store, q: CopyProc) {
    q.CopyListed? && !q.job.mode.ClientCopy? ==> NoOlder(st, q.job.dst, q.uid, Some(q.uid))
  }

  predicate VisibleYields(st: Store, since: nat) {
    forall k | k in st.visible && st.visible[k].writer != ByClient && st.visible[k].rank >= since ::
      NoOlder(st, k, st.visible[k].rank, None)
  }

  /** The steps by which a client publishes: a PUT, the completion of a client's upload, and
      a copy a client asked for. */
  predicate ByAClient(s: State, step: Step) {
    || step.PutObject? || step.UpDo?
    || (step.CopyDo? && step.p in s.procs && s.procs[step.p].Copy? && s.procs[step.p].copy.job.mode.ClientCopy?)
  }

  predicate NewAt(a: Store, b: Store, k: Key) {
    k in b.visible && (k !in a.visible || a.visible[k] != b.visible[k])
  }

  /** No other step publishes anything. */
  lemma Unpublished(c: Config, s: State, step: Step, k: Key)
    requires Enabled(c, s, step) && !step.PutObject? && !step.UpDo? && !step.CopyDo?
    ensures !NewAt(s.store, StoreAfter(c, s, step), k)
  {
  }

  lemma UpWriter(c: Config, st: Store, q: UpProc, step: UpStep, k: Key)
    requires UpEnabled(c, st, q, step) && NewAt(st, UpStore(c, st, q, step), k)
    ensures UpStore(c, st, q, step).visible[k].writer == ByClient
  {
  }

  /** What a version says of its writer is so. */
  lemma WriterSays(c: Config, s: State, step: Step, k: Key)
    requires Enabled(c, s, step) && NewAt(s.store, StoreAfter(c, s, step), k)
    ensures StoreAfter(c, s, step).visible[k].writer == ByClient <==> ByAClient(s, step)
  {
    if step.CopyDo? {
      CopyWriter(c, s.store, step.p, s.procs[step.p].copy, step.copy, k);
    } else if step.UpDo? {
      UpWriter(c, s.store, s.procs[step.p].up, step.up, k);
    } else if !step.PutObject? {
      Unpublished(c, s, step, k);
    }
  }

  lemma CopyWriter(c: Config, st: Store, p: nat, q: CopyProc, step: CopyStep, k: Key)
    requires CopyEnabled(c, st, q, step) && NewAt(st, CopyStore(c, st, p, q, step), k)
    ensures CopyStore(c, st, p, q, step).visible[k].writer == ByClient <==> q.job.mode.ClientCopy?
  {
    if !Lands(step) {
      CopyQuiet(c, st, p, q, step);
    }
  }

  /** A guarded tool publishes by completing what it listed. */
  lemma ToolPublishes(c: Config, st: Store, p: nat, q: CopyProc, step: CopyStep, k: Key)
    requires CopyOk(c, st, p, q) && CopyEnabled(c, st, q, step) && NewAt(st, CopyStore(c, st, p, q, step), k)
    requires !q.job.mode.ClientCopy? && q.job.mode.guarded
    ensures step.CopyComplete? && step.keep && k == q.job.dst && CopyStore(c, st, p, q, step).visible[k].rank == q.uid
  {
    if !Lands(step) {
      CopyQuiet(c, st, p, q, step);
    }
  }

  lemma CopyToolVisible(c: Config, st: Store, p: nat, q: CopyProc, step: CopyStep, since: nat)
    requires UploadsOk(st) && VisibleOk(st) && CopyOk(c, st, p, q) && CopyEnabled(c, st, q, step)
    requires RelyUploads(st, CopyStore(c, st, p, q, step)) && VisibleYields(st, since) && ToolYields(st, q)
    requires Guarded(q.job.mode)
    ensures VisibleYields(CopyStore(c, st, p, q, step), since)
  {
    var b := CopyStore(c, st, p, q, step);
    forall k | k in b.visible && b.visible[k].writer != ByClient && b.visible[k].rank >= since
      ensures NoOlder(b, k, b.visible[k].rank, None)
    {
      if NewAt(st, b, k) {
        CopyWriter(c, st, p, q, step, k);
        ToolPublishes(c, st, p, q, step, k);
        NoOlderKept(st, b, k, q.uid, Some(q.uid));
      } else {
        NoOlderKept(st, b, k, st.visible[k].rank, None);
      }
    }
  }

  /** Whatever tool it is, past its listing no other upload of its destination is open. */
  lemma ListingYields(c: Config, st: Store, p: nat, q: CopyProc, step: CopyStep)
    requires UploadsOk(st) && CopyEnabled(c, st, q, step) && Guarded(q.job.mode) && ToolYields(st, q)
    requires RelyUploads(st, CopyStore(c, st, p, q, step)) && CopyOk(c, st, p, q)
    ensures ToolYields(CopyStore(c, st, p, q, step), CopyNext(c, st, q, step))
  {
  }

  lemma OtherToolStep(c: Config, s: State, step: Step, since: nat)
    requires UploadsOk(s.store) && VisibleOk(s.store) && Enabled(c, s, step) && !step.CopyDo?
    requires RelyUploads(s.store, StoreAfter(c, s, step)) && VisibleYields(s.store, since)
    ensures VisibleYields(StoreAfter(c, s, step), since)
  {
    var a, b := s.store, StoreAfter(c, s, step);
    forall k | k in b.visible && b.visible[k].writer != ByClient && b.visible[k].rank >= since
      ensures NoOlder(b, k, b.visible[k].rank, None)
    {
      if NewAt(a, b, k) {
        WriterSays(c, s, step, k);
        Unpublished(c, s, step, k);
      }
      NoOlderKept(a, b, k, a.visible[k].rank, None);
    }
  }

  lemma GuardedKept(c: Config, s: State, step: Step)
    requires GuardedOnly(s) && Enabled(c, s, step) && (step.CopyHead? ==> Guarded(step.mode))
    ensures GuardedOnly(Next(c, s, step))
  {
    forall p | p in ProcsAfter(c, s, step) && ProcsAfter(c, s, step)[p].Copy?
      ensures Guarded(ProcsAfter(c, s, step)[p].copy.job.mode)
    {
      CopiesAfter(c, s, step, p);
    }
  }

  lemma CopiesYield(c: Config, s: State, step: Step, p: nat)
    requires Inv(c, s) && GuardedOnly(s) && Enabled(c, s, step) && RelyUploads(s.store, StoreAfter(c, s, step))
    requires forall o | o in s.procs && s.procs[o].Copy? :: ToolYields(s.store, s.procs[o].copy)
    requires p in ProcsAfter(c, s, step) && ProcsAfter(c, s, step)[p].Copy?
    ensures ToolYields(StoreAfter(c, s, step), ProcsAfter(c, s, step)[p].copy)
  {
    CopiesAfter(c, s, step, p);
    var q := ProcsAfter(c, s, step)[p].copy;
    if p in s.procs && s.procs[p] == Copy(q) {
      assert ProcOk(c, s.store, p, s.procs[p]);
      if q.CopyListed? && !q.job.mode.ClientCopy? {
        NoOlderKept(s.store, StoreAfter(c, s, step), q.job.dst, q.uid, Some(q.uid));
      }
    } else if step.CopyDo? {
      assert ProcOk(c, s.store, p, s.procs[p]);
      ListingYields(c, s.store, p, s.procs[p].copy, step.copy);
    }
  }

  lemma ToolsStep(c: Config, s: State, step: Step, since: nat)
    requires Inv(c, s) && GuardedOnly(s) && ToolsYield(s, since) && Enabled(c, s, step)
    ensures ToolsYield(Next(c, s, step), since)
  {
    StoreStep(c, s, step);
    if step.CopyDo? {
      assert ProcOk(c, s.store, step.p, s.procs[step.p]);
      CopyToolVisible(c, s.store, step.p, s.procs[step.p].copy, step.copy, since);
    } else {
      OtherToolStep(c, s, step, since);
    }
    forall p | p in ProcsAfter(c, s, step) && ProcsAfter(c, s, step)[p].Copy?
      ensures ToolYields(StoreAfter(c, s, step), ProcsAfter(c, s, step)[p].copy)
    {
      CopiesYield(c, s, step, p);
    }
  }

  lemma {:induction false} ToolsThroughout(c: Config, s: State, steps: seq<Step>, since: nat)
    requires Inv(c, s) && GuardedOnly(s) && ToolsYield(s, since) && Runs(c, s, steps)
    requires forall i | 0 <= i < |steps| && steps[i].CopyHead? :: Guarded(steps[i].mode)
    ensures Inv(c, Final(c, s, steps)) && ToolsYield(Final(c, s, steps), since)
    decreases |steps|
  {
    if steps != [] {
      Preserved(c, s, steps[0]);
      ToolsStep(c, s, steps[0], since);
      GuardedKept(c, s, steps[0]);
      ToolsThroughout(c, Next(c, s, steps[0]), steps[1..], since);
    }
  }

  /** Beside any number of guarded rotations, encryptions and moves: when the provider
      answers a client's completion with success and discards it, what it keeps instead
      is another client's write. */
  lemma ClientUploadLostOnlyToClients(c: Config, s: State, steps: seq<Step>, p: nat)
    requires Initial(s) && Runs(c, s, steps)
    requires forall i | 0 <= i < |steps| && steps[i].CopyHead? :: Guarded(steps[i].mode)
    requires Enabled(c, Final(c, s, steps), UpDo(p, UpComplete(false)))
    ensures var f := Final(c, s, steps);
            var k := f.store.uploads[f.procs[p].up.uid].key;
            k in f.store.visible ==> f.store.visible[k].writer == ByClient
  {
    var since := s.store.clock;
    assert VisibleYields(s.store, since);
    ToolsThroughout(c, s, steps, since);
    var f := Final(c, s, steps);
    assert VisibleYields(f.store, since);
  }
}
