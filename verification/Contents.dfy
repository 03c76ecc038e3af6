/**
What the objects hold.  A copy carries the plaintext of exactly the version it
read, under the data key in its metadata, and a guarded rotation or encryption in
place changes nothing a client can read.
*/
module Contents {
  import opened Base
  import opened Provider
  import opened Protocol
  import opened Lifecycle

  /** The ciphertext is sealed under the data key the metadata carries. */
  predicate Sealed(body: seq<Piece>, dek: Option<nat>) {
    forall i | 0 <= i < |body| :: body[i].dek == dek
  }

  /** No version pairs one write's metadata with another write's bytes. */
  predicate Coherent(st: Store) {
    forall e | e in st.log :: st.log[e].dek.Some? ==> Sealed(st.log[e].body, st.log[e].dek)
  }

  predicate ClientParts(st: Store) {
    forall u | u in st.uploads && st.uploads[u].owner.None? && u in st.parts ::
      Sealed(st.parts[u], Some(st.uploads[u].dek))
  }

  /** The parts a copy has written, and the plaintext it has yet to write. */
  predicate Progress(st: Store, job: Job, u: nat, left: seq<nat>) {
    && u in st.uploads && u in st.parts
    && if job.Reseals()
       then Sealed(st.parts[u], Some(st.uploads[u].dek)) && Plain(st.parts[u]) + left == Plain(job.ver.body)
       else Some(st.uploads[u].dek) == job.ver.dek && st.parts[u] <= job.ver.body
  }

  predicate Finished(st: Store, job: Job, u: nat) {
    && u in st.uploads && u in st.parts
    && if job.Reseals()
       then Sealed(st.parts[u], Some(st.uploads[u].dek)) && Plain(st.parts[u]) == Plain(job.ver.body)
       else Some(st.uploads[u].dek) == job.ver.dek && st.parts[u] == job.ver.body
  }

  predicate CopyCarries(st: Store, q: CopyProc) {
    match q
    case CopyFetched(job, left) => job.Reseals() && left == Plain(job.ver.body)
    case CopyOpen(job, u, left) => Progress(st, job, u, left)
    case CopyWritten(job, u) => Finished(st, job, u)
    case CopyListed(job, u) => Finished(st, job, u)
    case _ => true
  }

  predicate Carries(s: State) {
    && Coherent(s.store) && ClientParts(s.store)
    && forall p | p in s.procs && s.procs[p].Copy? :: CopyCarries(s.store, s.procs[p].copy)
  }

  lemma {:induction false} PlainAppend(a: seq<Piece>, b: seq<Piece>)
    ensures Plain(a + b) == Plain(a) + Plain(b)
  {
    if a == [] {
      assert a + b == b;
    } else {
      PlainAppend(a[1..], b);
      assert (a + b)[1..] == a[1..] + b;
    }
  }

  // ------------------------------------------------ parts have one writer

  /** A process's parts are nobody else's to write. */
  predicate RelyParts(a: Store, b: Store, actor: Option<nat>) {
    forall u | u in a.uploads && u in a.parts && a.uploads[u].owner.Some? && a.uploads[u].owner != actor ::
      u in b.uploads && u in b.parts && b.uploads[u] == a.uploads[u] && b.parts[u] == a.parts[u]
  }

  lemma OnlyOwnParts(c: Config, st: Store, p: nat, q: CopyProc, step: CopyStep)
    requires UploadsOk(st) && CopyOk(c, st, p, q) && CopyEnabled(c, st, q, step)
    ensures RelyParts(st, CopyStore(c, st, p, q, step), Some(p))
  {
  }

  // ------------------------------------------- what a copy carries, by step

  lemma SegmentProgress(st: Store, job: Job, u: nat, left: seq<nat>, size: nat)
    requires Progress(st, job, u, left) && job.Reseals() && size <= |left|
    ensures Progress(AddParts(st, u, [Piece(Some(st.uploads[u].dek), left[..size])]), job, u, left[size..])
  {
    var piece := Piece(Some(st.uploads[u].dek), left[..size]);
    PlainAppend(st.parts[u], [piece]);
    assert Plain([piece]) == left[..size];
    assert Plain(st.parts[u]) + left[..size] + left[size..] == Plain(st.parts[u]) + left;
  }

  /** Each part is the next one of the version the copy read: the source
      condition admits no other version. */
  lemma CopyCarriesStep(c: Config, st: Store, p: nat, q: CopyProc, step: CopyStep)
    requires VisibleOk(st) && CopyOk(c, st, p, q) && CopyCarries(st, q) && CopyEnabled(c, st, q, step)
    ensures CopyCarries(CopyStore(c, st, p, q, step), CopyNext(c, st, q, step))
  {
    if step.CopyPart? || step.CopyFetch? {
      assert st.visible[q.job.src] == q.job.ver;
    } else if step.CopySegment? {
      SegmentProgress(st, q.job, q.uid, q.left, step.size);
    }
  }

  lemma CopyCoherent(c: Config, st: Store, p: nat, q: CopyProc, step: CopyStep)
    requires VisibleOk(st) && CopyOk(c, st, p, q) && CopyCarries(st, q) && CopyEnabled(c, st, q, step)
    requires Coherent(st)
    ensures Coherent(CopyStore(c, st, p, q, step))
  {
    if step.CopyWhole? {
      assert st.visible[q.job.src] == q.job.ver;
    } else if step.CopyComplete? {
      assert Sealed(st.parts[q.uid], Some(st.uploads[q.uid].dek));
    }
  }

  lemma UpCoherent(c: Config, st: Store, q: UpProc, step: UpStep)
    requires UpOk(st, q) && UpEnabled(c, st, q, step) && Coherent(st) && ClientParts(st)
    ensures var b := UpStore(c, st, q, step); Coherent(b) && ClientParts(b) && RelyParts(st, b, None)
  {
  }

  /** Copies leave the parts of the clients' uploads alone. */
  lemma CopyClientParts(c: Config, st: Store, p: nat, q: CopyProc, step: CopyStep)
    requires UploadsOk(st) && CopyOk(c, st, p, q) && CopyEnabled(c, st, q, step) && ClientParts(st)
    ensures ClientParts(CopyStore(c, st, p, q, step))
  {
  }

  lemma RequestCoherent(c: Config, s: State, step: Step)
    requires UploadsOk(s.store) && Enabled(c, s, step) && Coherent(s.store) && ClientParts(s.store)
    requires !step.UpDo? && !step.CopyDo?
    ensures var b := StoreAfter(c, s, step); Coherent(b) && ClientParts(b) && RelyParts(s.store, b, None)
  {
    match step
    case PutObject(key, bytes) => PutCoherent(s.store, key, c.identity(key), bytes);
    case UpCreate(key) =>
    case UpPart(u, bytes) => ClientPartsAdded(s.store, u, [Piece(Some(s.store.uploads[u].dek), bytes)]);
    case _ => Untouched(c, s, step);
  }

  lemma Untouched(c: Config, s: State, step: Step)
    requires Enabled(c, s, step) && !step.UpDo? && !step.CopyDo?
    requires !step.PutObject? && !step.UpCreate? && !step.UpPart?
    ensures var b := StoreAfter(c, s, step);
            b.log == s.store.log && b.uploads == s.store.uploads && b.parts == s.store.parts
  {
  }

  lemma PutCoherent(st: Store, k: Key, bound: Key, bytes: seq<nat>)
    requires Coherent(st)
    ensures Coherent(PutWhole(st, k, Some(st.clock), bound, [Piece(Some(st.clock), bytes)], ByClient))
  {
  }

  lemma ClientPartsAdded(st: Store, u: nat, more: seq<Piece>)
    requires ClientParts(st) && u in st.uploads && u in st.parts
    requires st.uploads[u].owner.None? && Sealed(more, Some(st.uploads[u].dek))
    ensures var b := AddParts(st, u, more); ClientParts(b) && RelyParts(st, b, None)
  {
  }

  lemma CarriesKept(c: Config, a: Store, b: Store, p: nat, q: CopyProc, actor: Option<nat>)
    requires CopyOk(c, a, p, q) && CopyCarries(a, q) && RelyParts(a, b, actor) && actor != Some(p)
    ensures CopyCarries(b, q)
  {
  }

  lemma CarriesStep(c: Config, s: State, step: Step)
    requires Inv(c, s) && Carries(s) && Enabled(c, s, step)
    ensures Carries(Next(c, s, step))
  {
    var a, b := s.store, StoreAfter(c, s, step);
    var actor := if step.CopyDo? then Some(step.p) else None;
    match step {
      case CopyDo(p, copy) =>
        assert ProcOk(c, a, p, s.procs[p]);
        OnlyOwnParts(c, a, p, s.procs[p].copy, copy);
        CopyCarriesStep(c, a, p, s.procs[p].copy, copy);
        CopyCoherent(c, a, p, s.procs[p].copy, copy);
        CopyClientParts(c, a, p, s.procs[p].copy, copy);
      case UpDo(p, up) =>
        assert ProcOk(c, a, p, s.procs[p]);
        UpCoherent(c, a, s.procs[p].up, up);
      case _ =>
        RequestCoherent(c, s, step);
    }
    forall p | p in s.procs && s.procs[p].Copy? && actor != Some(p)
      ensures CopyCarries(b, s.procs[p].copy)
    {
      assert ProcOk(c, a, p, s.procs[p]);
      CarriesKept(c, a, b, p, s.procs[p].copy, actor);
    }
    forall p | p in ProcsAfter(c, s, step) && ProcsAfter(c, s, step)[p].Copy?
      ensures CopyCarries(b, ProcsAfter(c, s, step)[p].copy)
    {
      CopiesAfter(c, s, step, p);
    }
  }

  lemma {:induction false} CarriesThroughout(c: Config, s: State, steps: seq<Step>)
    requires Inv(c, s) && Carries(s) && Runs(c, s, steps)
    ensures Inv(c, Final(c, s, steps)) && Carries(Final(c, s, steps))
    decreases |steps|
  {
    if steps != [] {
      Preserved(c, s, steps[0]);
      CarriesStep(c, s, steps[0]);
      CarriesThroughout(c, Next(c, s, steps[0]), steps[1..]);
    }
  }

  /** No interleaving pairs one write's metadata with another write's bytes. */
  lemma NeverMixed(c: Config, s: State, steps: seq<Step>)
    requires Initial(s) && Coherent(s.store) && Runs(c, s, steps)
    ensures Coherent(Final(c, s, steps).store)
  {
    CarriesThroughout(c, s, steps);
  }

  // -------------------------------------------- a register of client writes

  datatype RegOp = Write(key: Key, bytes: seq<nat>) | Erase(key: Key)

  function Apply(m: map<Key, seq<nat>>, op: RegOp): map<Key, seq<nat>> {
    match op
    case Write(k, bytes) => m[k := bytes]
    case Erase(k) => m - {k}
  }

  function Replay(m: map<Key, seq<nat>>, ops: seq<RegOp>): map<Key, seq<nat>>
    decreases |ops|
  {
    if ops == [] then m else Replay(Apply(m, ops[0]), ops[1..])
  }

  /** What a reader finds at each key. */
  function Readout(st: Store): map<Key, seq<nat>> {
    map k | k in st.visible :: Plain(st.visible[k].body)
  }

  /** The client write a step lands, if it lands one.  A client's CopyObject
      writes the plaintext of the version its HEAD read. */
  function ClientOp(c: Config, s: State, step: Step): seq<RegOp>
    requires Enabled(c, s, step)
  {
    match step
    case PutObject(k, bytes) => [Write(k, bytes)]
    case UpDo(p, up) =>
      var u := s.procs[p].up;
      if up.UpComplete? && up.keep then [Write(s.store.uploads[u.uid].key, Plain(s.store.parts[u.uid]))] else []
    case DelDo(p, del) => if del.DelRemove? then [Erase(s.procs[p].del.key)] else []
    case CopyDo(p, copy) =>
      var job := s.procs[p].copy.job;
      if job.mode.ClientCopy? && (copy.CopyWhole? || (copy.CopyComplete? && copy.keep))
      then [Write(job.dst, Plain(job.ver.body))] else []
    case _ => []
  }

  function ClientOps(c: Config, s: State, steps: seq<Step>): seq<RegOp>
    requires Runs(c, s, steps)
    decreases |steps|
  {
    if steps == [] then [] else ClientOp(c, s, steps[0]) + ClientOps(c, Next(c, s, steps[0]), steps[1..])
  }

  /** Copies by clients, and guarded rotation and encryption in place. */
  predicate InPlace(mode: Mode) {
    mode.ClientCopy? || ((mode.Rotate? || mode.Encrypt?) && mode.guarded)
  }

  predicate InPlaceOnly(s: State) {
    forall p | p in s.procs && s.procs[p].Copy? :: InPlace(s.procs[p].copy.job.mode)
  }

  lemma ReadoutPublish(st: Store, v: Version)
    ensures Readout(Publish(st, v)) == Readout(st)[v.key := Plain(v.body)]
  {
  }

  lemma ReadoutRemove(st: Store, k: Key)
    ensures Readout(Remove(st, k)) == Readout(st) - {k}
  {
  }

  lemma ReadoutComplete(st: Store, u: nat, keep: bool, writer: Writer)
    requires u in st.uploads && u in st.parts
    ensures Readout(Complete(st, u, keep, writer)) ==
            if keep then Readout(st)[st.uploads[u].key := Plain(st.parts[u])] else Readout(st)
  {
    assert Readout(CloseUpload(st, u)) == Readout(st);
    if keep {
      ReadoutPublish(CloseUpload(st, u), Published(st, u, writer));
    }
  }

  lemma CompleteRefines(c: Config, st: Store, p: nat, q: CopyProc, keep: bool)
    requires VisibleOk(st) && CopyOk(c, st, p, q) && CopyCarries(st, q) && CopyEnabled(c, st, q, CopyComplete(keep))
    requires InPlace(q.job.mode)
    ensures Readout(CopyStore(c, st, p, q, CopyComplete(keep))) ==
            if q.job.mode.ClientCopy? && keep then Readout(st)[q.job.dst := Plain(q.job.ver.body)] else Readout(st)
  {
    ReadoutComplete(st, q.uid, keep, q.job.Publisher());
    if !q.job.mode.ClientCopy? {
      assert st.visible[q.job.dst] == q.job.ver;
    }
  }

  /** A copy publishes the plaintext of exactly the version it read; and where it
      is conditional on that version, replaces exactly it. */
  lemma CopyRefines(c: Config, st: Store, p: nat, q: CopyProc, step: CopyStep)
    requires VisibleOk(st) && CopyOk(c, st, p, q) && CopyCarries(st, q) && CopyEnabled(c, st, q, step)
    requires InPlace(q.job.mode)
    ensures Readout(CopyStore(c, st, p, q, step)) ==
            if q.job.mode.ClientCopy? && (step.CopyWhole? || (step.CopyComplete? && step.keep))
            then Readout(st)[q.job.dst := Plain(q.job.ver.body)] else Readout(st)
  {
    if step.CopyWhole? {
      assert st.visible[q.job.src] == q.job.ver;
    } else if step.CopyComplete? {
      CompleteRefines(c, st, p, q, step.keep);
    } else if !Lands(step) {
      CopyQuiet(c, st, p, q, step);
    }
  }

  lemma UpRefines(c: Config, st: Store, q: UpProc, step: UpStep)
    requires UpEnabled(c, st, q, step)
    ensures Readout(UpStore(c, st, q, step)) ==
            if step.UpComplete? && step.keep
            then Readout(st)[st.uploads[q.uid].key := Plain(st.parts[q.uid])] else Readout(st)
  {
    if step.UpComplete? {
      ReadoutComplete(st, q.uid, step.keep, ByClient);
    }
  }

  lemma StepRefines(c: Config, s: State, step: Step)
    requires Inv(c, s) && Carries(s) && Enabled(c, s, step) && InPlaceOnly(s)
    ensures Readout(StoreAfter(c, s, step)) == Replay(Readout(s.store), ClientOp(c, s, step))
  {
    if step.CopyDo? {
      assert ProcOk(c, s.store, step.p, s.procs[step.p]);
      CopyRefines(c, s.store, step.p, s.procs[step.p].copy, step.copy);
    } else {
      RequestRefines(c, s, step);
    }
  }

  lemma RequestRefines(c: Config, s: State, step: Step)
    requires Enabled(c, s, step) && !step.CopyDo?
    ensures Readout(StoreAfter(c, s, step)) == Replay(Readout(s.store), ClientOp(c, s, step))
  {
    match step
    case UpDo(p, up) => UpRefines(c, s.store, s.procs[p].up, up);
    case DelDo(p, del) => ReadoutRemove(s.store, s.procs[p].del.key); assert del.DelManifest? ==> StoreAfter(c, s, step).visible == s.store.visible;
    case PutObject(k, bytes) =>
      ReadoutPublish(s.store, Version(k, s.store.clock, s.store.clock, s.store.clock, None, Some(s.store.clock),
                                      c.identity(k), [Piece(Some(s.store.clock), bytes)], ByClient));
      assert Plain([Piece(Some(s.store.clock), bytes)]) == bytes;
    case _ =>
  }

  lemma ReplayAppend(m: map<Key, seq<nat>>, a: seq<RegOp>, b: seq<RegOp>)
    ensures Replay(m, a + b) == Replay(Replay(m, a), b)
    decreases |a|
  {
    if a == [] {
      assert a + b == b;
    } else {
      assert (a + b)[1..] == a[1..] + b;
      ReplayAppend(Apply(m, a[0]), a[1..], b);
    }
  }

  lemma InPlaceKept(c: Config, s: State, step: Step)
    requires Enabled(c, s, step) && InPlaceOnly(s) && (step.CopyHead? ==> InPlace(step.mode))
    ensures InPlaceOnly(Next(c, s, step))
  {
    forall p | p in ProcsAfter(c, s, step) && ProcsAfter(c, s, step)[p].Copy?
      ensures InPlace(ProcsAfter(c, s, step)[p].copy.job.mode)
    {
      CopiesAfter(c, s, step, p);
    }
  }

  /** What readers find changes by client writes alone: rotations, encryptions in
      place and garbage collection, in any number and interleaving, are stutters
      of a register only clients write. */
  lemma {:induction false} RefinesRegister(c: Config, s: State, steps: seq<Step>)
    requires Inv(c, s) && Carries(s) && InPlaceOnly(s) && Runs(c, s, steps)
    requires forall i | 0 <= i < |steps| && steps[i].CopyHead? :: InPlace(steps[i].mode)
    ensures Readout(Final(c, s, steps).store) == Replay(Readout(s.store), ClientOps(c, s, steps))
    decreases |steps|
  {
    if steps != [] {
      var n := Next(c, s, steps[0]);
      Preserved(c, s, steps[0]);
      CarriesStep(c, s, steps[0]);
      StepRefines(c, s, steps[0]);
      InPlaceKept(c, s, steps[0]);
      RefinesRegister(c, n, steps[1..]);
      ReplayAppend(Readout(s.store), ClientOp(c, s, steps[0]), ClientOps(c, n, steps[1..]));
    }
  }
}
