/**
The processes that write, copy, move and collect objects, as a state machine
over provider requests.  There is no bound on how many processes run, and a
process may stop after any step: a stopped one simply takes no further step, and
its number may be reused by a process that starts over.  A request that answers
with an error stops its process too.

Each kind of process has its states, its steps, named after the gateway's hooks,
and three definitions: whether a step can be taken, the store after it, and what
the process knows after it.
*/
module Protocol {
  import opened Base
  import opened Provider

  // ------------------------- CompleteMultipartUpload of a client's upload

  datatype UpProc =
    | UpHeaded(uid: nat, seen: Option<nat>)
    | UpWritten(uid: nat, seen: Option<nat>)
    | UpCompleted(uid: nat, seen: Option<nat>)
    | UpCleared(ref: Ref)

  datatype UpStep = UpManifest | UpComplete(keep: bool) | UpVerify | UpCleanup

  predicate UpEnabled(c: Config, st: Store, q: UpProc, step: UpStep) {
    match step
    case UpManifest => q.UpHeaded? && q.uid in st.uploads
    case UpComplete(keep) =>
      && q.UpWritten? && q.uid in st.open && q.uid in st.uploads && q.uid in st.parts
      && MayAnswer(c.order, q.uid, RankAt(st, st.uploads[q.uid].key), keep)
    case UpVerify =>
      // a HEAD that shows the version observed before is no longer the visible one
      && q.UpCompleted? && q.uid in st.uploads && q.seen.Some? && q.seen != Some(q.uid)
      && MidAt(st, st.uploads[q.uid].key) != q.seen
    case UpCleanup => q.UpCleared?
  }

  function UpStore(c: Config, st: Store, q: UpProc, step: UpStep): Store
    requires UpEnabled(c, st, q, step)
  {
    match step
    case UpManifest => PutManifest(st, Ref(st.uploads[q.uid].key, q.uid))
    case UpComplete(keep) => Complete(st, q.uid, keep, ByClient)
    case UpVerify => st
    case UpCleanup => DeleteManifest(st, q.ref)
  }

  function UpNext(c: Config, st: Store, q: UpProc, step: UpStep): UpProc
    requires UpEnabled(c, st, q, step)
  {
    match step
    case UpManifest => UpWritten(q.uid, q.seen)
    case UpComplete(_) => UpCompleted(q.uid, q.seen)
    case UpVerify => UpCleared(Ref(st.uploads[q.uid].key, q.seen.value))
    case UpCleanup => q
  }

  // ---------------------------------------------------------- DeleteObject

  datatype DelProc =
    | DelHeaded(key: Key, seen: Option<nat>)
    | DelRemoved(key: Key, seen: Option<nat>)

  datatype DelStep = DelRemove | DelManifest

  predicate DelEnabled(q: DelProc, step: DelStep) {
    match step
    case DelRemove => q.DelHeaded?
    case DelManifest => q.DelRemoved? && q.seen.Some?
  }

  function DelStore(st: Store, q: DelProc, step: DelStep): Store
    requires DelEnabled(q, step)
  {
    match step
    case DelRemove => Remove(st, q.key)
    case DelManifest => DeleteManifest(st, Ref(q.key, q.seen.value))
  }

  function DelNext(q: DelProc, step: DelStep): DelProc {
    DelRemoved(q.key, q.seen)
  }

  // ------------------------------------------------------- copies and moves

  /** A condition on the write that publishes an object. */
  datatype Cond = Always | IfMatch(etag: nat) | IfAbsent

  /** Who asks for a copy.  `guarded` is false under --allow-unconditional. */
  datatype Mode =
    | ClientCopy(cond: Cond)          // CopyObject
    | Rotate(guarded: bool)           // the key it came from, under a new wrap
    | Encrypt(guarded: bool)          // a plaintext object, sealed where it is
    | MoveName(guarded: bool)         // migrate-names: from P to E(P)
    | EncryptMove(guarded: bool)      // a plaintext object, sealed at E(P)

  /** A copy of `ver`, as the HEAD at `src` reported it, to `dst`. */
  datatype Job = Job(src: Key, dst: Key, ver: Version, mode: Mode) {

    predicate Moves() { mode.MoveName? || mode.EncryptMove? }

    /** The data key is new, and the bytes pass through the process. */
    predicate Reseals() { mode.Encrypt? || mode.EncryptMove? }

    function Condition(): Cond {
      match mode
      case ClientCopy(cond) => cond
      case Rotate(g) => if g then IfMatch(ver.etag) else Always
      case Encrypt(g) => if g then IfMatch(ver.etag) else Always
      case MoveName(g) => if g then IfAbsent else Always
      case EncryptMove(g) => if g then IfAbsent else Always
    }

    /** Gives way to any other open upload of the destination. */
    predicate Yields() {
      match mode
      case ClientCopy(_) => false
      case Rotate(_) => true
      case Encrypt(g) => g
      case MoveName(_) => true
      case EncryptMove(g) => g
    }

    /** The manifest id to delete once the copy is published (rule R3): known
        only to a caller whose destination is its source. */
    function Replaced(): Option<nat> {
      if (mode.Rotate? || mode.ClientCopy?) && src == dst then ver.mid else None
    }

    /** The identity a copy's data key is wrapped for.  A client's is the destination's; a
        rotation keeps what it finds; an encryption in place, which runs without encrypted
        names, takes the key as the name; a move keeps the name of the key in clear. */
    function BindsTo(c: Config): Key {
      match mode
      case ClientCopy(_) => c.identity(dst)
      case Rotate(_) => ver.bound
      case Encrypt(_) => dst
      case MoveName(_) => src
      case EncryptMove(_) => src
    }

    /** A copy that keeps the data key unwraps it: for the name the source key stands for,
        with encrypted names or without; a move, for the key in clear. */
    predicate Unwraps(c: Config) {
      match mode
      case ClientCopy(_) => ver.bound == src || ver.bound == c.identity(src)
      case Rotate(_) => ver.bound == src || ver.bound == c.identity(src)
      case MoveName(_) => ver.bound == src
      case _ => true
    }

    function Publisher(): Writer {
      if mode.ClientCopy? then ByClient else ByTool(Yields())
    }
  }

  datatype CopyProc =
    | MoveHeaded(job: Job)
    | CopyHeaded(job: Job)
    | CopyFetched(job: Job, left: seq<nat>)
    | CopyOpen(job: Job, uid: nat, left: seq<nat>)
    | CopyWritten(job: Job, uid: nat)
    | CopyListed(job: Job, uid: nat)
    | CopyDone(job: Job)
    | MoveObsolete(job: Job)
    | MoveRemoved(job: Job)

  datatype CopyStep =
    | CopyWhole
    | CopyFetch
    | CopyCreate(multi: bool)
    | CopyPart
    | CopySegment(size: nat)
    | CopyManifest
    | CopyUploads
    | CopyComplete(keep: bool)
    | CopyCleanup
    | MigHeadEnc
    | MigDelete
    | MigManifestDel

  /** `enc` maps each key in clear to its encrypted form, and `identity` gives the name
      clients know a stored key by. */
  datatype Config = Config(order: Order, enc: map<Key, Key>, identity: Key -> Key)

  predicate Holds(st: Store, k: Key, c: Cond) {
    match c
    case Always => true
    case IfMatch(etag) => k in st.visible && st.visible[k].etag == etag
    case IfAbsent => k !in st.visible
  }

  /** A read conditional on the version the HEAD saw. */
  predicate SourceUnchanged(st: Store, job: Job) {
    job.src in st.visible && st.visible[job.src].etag == job.ver.etag
  }

  /** What a HEAD licenses: copies and rotations of what the gateway wrote, where the
      data key can be unwrapped, encryption of what it did not.  A process that cannot
      unwrap stops before it has written anything. */
  predicate JobFits(c: Config, job: Job) {
    && (job.Reseals() <==> job.ver.dek.None?) && job.Unwraps(c)
    && (job.mode.Rotate? || job.mode.Encrypt? ==> job.src == job.dst)
    && (job.Moves() ==> job.src in c.enc && c.enc[job.src] == job.dst && job.dst != job.src)
  }

  /** judgeExisting: what is at E(P) makes P obsolete if the gateway wrote it and
      it was modified later or, to migrate-names, is P's own copy by its data key.
      That compares data keys first, so both must be wrapped for P. */
  predicate MakesObsolete(job: Job, there: Version) {
    && there.dek.Some? && (job.mode.MoveName? ==> there.bound == job.src)
    && ((job.mode.MoveName? && there.dek == job.ver.dek) || there.modified > job.ver.modified)
  }

  predicate CopyEnabled(c: Config, st: Store, q: CopyProc, step: CopyStep) {
    var job := q.job;
    match step
    case CopyWhole =>
      // a small single-part object with no condition to carry: one CopyObject
      && q.CopyHeaded? && !job.Reseals() && job.ver.mid.None? && job.Condition().Always?
      && SourceUnchanged(st, job)
    case CopyFetch => q.CopyHeaded? && job.Reseals() && SourceUnchanged(st, job)
    case CopyCreate(multi) =>
      q.CopyFetched? || (q.CopyHeaded? && !job.Reseals() && multi == job.ver.mid.Some?)
    case CopyPart =>
      && q.CopyOpen? && !job.Reseals() && q.uid in st.parts && SourceUnchanged(st, job)
      && |st.parts[q.uid]| < |st.visible[job.src].body|
    case CopySegment(size) =>
      && q.CopyOpen? && job.Reseals() && q.uid in st.parts && q.uid in st.uploads
      && size <= |q.left|
    case CopyManifest =>
      && q.CopyOpen? && q.uid in st.parts && q.uid in st.uploads
      && if job.Reseals() then q.left == [] else |st.parts[q.uid]| == |job.ver.body|
    case CopyUploads =>
      && q.CopyWritten?
      && (job.Yields() ==>
            forall u | u in st.open && u in st.uploads :: u == q.uid || st.uploads[u].key != job.dst)
    case CopyComplete(keep) =>
      && q.CopyListed? && q.uid in st.open && q.uid in st.uploads && q.uid in st.parts
      && Holds(st, job.dst, job.Condition())
      && MayAnswer(c.order, q.uid, RankAt(st, job.dst), keep)
    case CopyCleanup => q.CopyDone? && job.Replaced().Some?
    case MigHeadEnc =>
      q.MoveHeaded? && (job.dst !in st.visible || MakesObsolete(job, st.visible[job.dst]))
    case MigDelete => q.MoveObsolete? || (q.CopyDone? && job.Moves())
    case MigManifestDel => q.MoveRemoved? && job.mode.MoveName? && job.ver.mid.Some?
  }

  function CopyStore(c: Config, st: Store, p: nat, q: CopyProc, step: CopyStep): Store
    requires CopyEnabled(c, st, q, step)
  {
    var job := q.job;
    match step
    case CopyWhole =>
      PutWhole(st, job.dst, job.ver.dek, job.BindsTo(c), st.visible[job.src].body,
               if job.mode.ClientCopy? then ByClient else ByTool(false))
    case CopyFetch => st
    case CopyCreate(multi) => OpenUpload(st, job.dst, multi, job.ver.dek, job.BindsTo(c), Some(p))
    case CopyPart =>
      var body, n := st.visible[job.src].body, |st.parts[q.uid]|;
      AddParts(st, q.uid, if job.ver.mid.Some? then [body[n]] else body[n..])
    case CopySegment(size) => AddParts(st, q.uid, [Piece(Some(st.uploads[q.uid].dek), q.left[..size])])
    case CopyManifest =>
      if st.uploads[q.uid].multi then PutManifest(st, Ref(st.uploads[q.uid].key, q.uid)) else st
    case CopyUploads => st
    case CopyComplete(keep) => Complete(st, q.uid, keep, job.Publisher())
    case CopyCleanup => DeleteManifest(st, Ref(job.dst, job.Replaced().value))
    case MigHeadEnc => st
    case MigDelete => Remove(st, job.src)
    case MigManifestDel => DeleteManifest(st, Ref(job.src, job.ver.mid.value))
  }

  /** The steps of a copy that change what is visible. */
  predicate Lands(step: CopyStep) { step.CopyWhole? || step.CopyComplete? || step.MigDelete? }

  lemma CopyQuiet(c: Config, st: Store, p: nat, q: CopyProc, step: CopyStep)
    requires CopyEnabled(c, st, q, step) && !Lands(step)
    ensures CopyStore(c, st, p, q, step).visible == st.visible && CopyStore(c, st, p, q, step).log == st.log
  {
  }

  function CopyNext(c: Config, st: Store, q: CopyProc, step: CopyStep): CopyProc
    requires CopyEnabled(c, st, q, step)
  {
    var job := q.job;
    match step
    case CopyWhole => CopyDone(job)
    case CopyFetch => CopyFetched(job, Plain(st.visible[job.src].body))
    case CopyCreate(_) => CopyOpen(job, st.clock, if q.CopyFetched? then q.left else [])
    case CopyPart => q
    case CopySegment(size) => CopyOpen(job, q.uid, q.left[size..])
    case CopyManifest => CopyWritten(job, q.uid)
    case CopyUploads => CopyListed(job, q.uid)
    case CopyComplete(_) => CopyDone(job)
    case CopyCleanup => q
    case MigHeadEnc => if job.dst in st.visible then MoveObsolete(job) else CopyHeaded(job)
    case MigDelete => MoveRemoved(job)
    case MigManifestDel => q
  }

  // ----------------------------------------------------- garbage collection

  /** One pass: the manifests listed so far; then, key by key, no upload was open
      at `key`; then what its HEAD reported. */
  datatype GcProc =
    | GcListed(refs: set<Ref>)
    | GcClear(refs: set<Ref>, key: Key)
    | GcSweep(refs: set<Ref>, key: Key, seen: Option<nat>)

  /** A listing comes in pages.  GcDelete is one manifest; one that is too young,
      or that the provider refuses to delete, is simply left. */
  datatype GcStep = GcStepOne(page: set<Ref>) | GcStepTwo(key: Key) | GcHead | GcDelete(ref: Ref)

  predicate GcEnabled(st: Store, q: GcProc, step: GcStep) {
    match step
    case GcStepOne(page) => q.GcListed? && page <= st.manifests
    case GcStepTwo(key) => (q.GcListed? || q.GcSweep?) && NoOpenUpload(st, key)
    case GcHead => q.GcClear?
    case GcDelete(r) => q.GcSweep? && r in q.refs && r.key == q.key && Some(r.mid) != q.seen
  }

  function GcStore(st: Store, step: GcStep): Store {
    if step.GcDelete? then DeleteManifest(st, step.ref) else st
  }

  function GcNext(st: Store, q: GcProc, step: GcStep): GcProc
    requires GcEnabled(st, q, step)
  {
    match step
    case GcStepOne(page) => GcListed(q.refs + page)
    case GcStepTwo(key) => GcClear(q.refs, key)
    case GcHead => GcSweep(q.refs, q.key, MidAt(st, q.key))
    case GcDelete(_) => q
  }

  // ------------------------------------------------------ the whole machine

  datatype Proc = Up(up: UpProc) | Del(del: DelProc) | Copy(copy: CopyProc) | Gc(gc: GcProc)

  datatype State = State(store: Store, procs: map<nat, Proc>)

  datatype Step =
    // requests that are one step of nobody's protocol
    | PutObject(key: Key, bytes: seq<nat>)
    | UpCreate(key: Key)
    | UpPart(uid: nat, bytes: seq<nat>)
    | Abort(uid: nat)
    // the read a process begins with
    | UpHead(p: nat, uid: nat)
    | DelHead(p: nat, key: Key)
    | CopyHead(p: nat, src: Key, dst: Key, mode: Mode)
    | GcBegin(p: nat)
    // and what it does next
    | UpDo(p: nat, up: UpStep)
    | DelDo(p: nat, del: DelStep)
    | CopyDo(p: nat, copy: CopyStep)
    | GcDo(p: nat, gc: GcStep)

  predicate Enabled(c: Config, s: State, step: Step) {
    var st := s.store;
    match step
    case PutObject(_, _) => true
    case UpCreate(_) => true
    case UpPart(u, _) => u in st.uploads && u in st.open && u in st.parts && st.uploads[u].owner.None?
    case Abort(_) => true
    case UpHead(_, u) => u in st.uploads && st.uploads[u].owner.None?
    case DelHead(_, _) => true
    case CopyHead(_, src, dst, mode) => src in st.visible && JobFits(c, Job(src, dst, st.visible[src], mode))
    case GcBegin(_) => true
    case UpDo(p, up) => p in s.procs && s.procs[p].Up? && UpEnabled(c, st, s.procs[p].up, up)
    case DelDo(p, del) => p in s.procs && s.procs[p].Del? && DelEnabled(s.procs[p].del, del)
    case CopyDo(p, copy) => p in s.procs && s.procs[p].Copy? && CopyEnabled(c, st, s.procs[p].copy, copy)
    case GcDo(p, gc) => p in s.procs && s.procs[p].Gc? && GcEnabled(st, s.procs[p].gc, gc)
  }

  function StoreAfter(c: Config, s: State, step: Step): Store
    requires Enabled(c, s, step)
  {
    var st := s.store;
    match step
    case PutObject(key, bytes) => PutWhole(st, key, Some(st.clock), c.identity(key), [Piece(Some(st.clock), bytes)], ByClient)
    case UpCreate(key) => OpenUpload(st, key, true, None, c.identity(key), None)
    case UpPart(u, bytes) => AddParts(st, u, [Piece(Some(st.uploads[u].dek), bytes)])
    case Abort(u) => CloseUpload(st, u)
    case UpDo(p, up) => UpStore(c, st, s.procs[p].up, up)
    case DelDo(p, del) => DelStore(st, s.procs[p].del, del)
    case CopyDo(p, copy) => CopyStore(c, st, p, s.procs[p].copy, copy)
    case GcDo(_, gc) => GcStore(st, gc)
    case _ => st
  }

  function CopyBegins(job: Job): CopyProc {
    if job.Moves() then MoveHeaded(job) else CopyHeaded(job)
  }

  /** The process table after the step. */
  function ProcsAfter(c: Config, s: State, step: Step): map<nat, Proc>
    requires Enabled(c, s, step)
  {
    var st := s.store;
    match step
    case UpHead(p, u) => s.procs[p := Up(UpHeaded(u, MidAt(st, st.uploads[u].key)))]
    case DelHead(p, key) => s.procs[p := Del(DelHeaded(key, MidAt(st, key)))]
    case CopyHead(p, src, dst, mode) => s.procs[p := Copy(CopyBegins(Job(src, dst, st.visible[src], mode)))]
    case GcBegin(p) => s.procs[p := Gc(GcListed({}))]
    case UpDo(p, up) => s.procs[p := Up(UpNext(c, st, s.procs[p].up, up))]
    case DelDo(p, del) => s.procs[p := Del(DelNext(s.procs[p].del, del))]
    case CopyDo(p, copy) => s.procs[p := Copy(CopyNext(c, st, s.procs[p].copy, copy))]
    case GcDo(p, gc) => s.procs[p := Gc(GcNext(st, s.procs[p].gc, gc))]
    case _ => s.procs
  }

  function Next(c: Config, s: State, step: Step): State
    requires Enabled(c, s, step)
  {
    State(StoreAfter(c, s, step), ProcsAfter(c, s, step))
  }

  /** A copy's state changes by its own step, or by a new copy taking its number. */
  lemma CopiesAfter(c: Config, s: State, step: Step, p: nat)
    requires Enabled(c, s, step)
    requires p in ProcsAfter(c, s, step) && ProcsAfter(c, s, step)[p].Copy?
    ensures var q := ProcsAfter(c, s, step)[p].copy;
            || (p in s.procs && s.procs[p] == Copy(q))
            || (step.CopyDo? && p == step.p && q == CopyNext(c, s.store, s.procs[p].copy, step.copy))
            || (step.CopyHead? && p == step.p &&
                q == CopyBegins(Job(step.src, step.dst, s.store.visible[step.src], step.mode)))
  {
  }

  /** A run: each step is enabled where it is taken. */
  predicate Runs(c: Config, s: State, steps: seq<Step>)
    decreases |steps|
  {
    steps == [] || (Enabled(c, s, steps[0]) && Runs(c, Next(c, s, steps[0]), steps[1..]))
  }

  function Final(c: Config, s: State, steps: seq<Step>): State
    requires Runs(c, s, steps)
    decreases |steps|
  {
    if steps == [] then s else Final(c, Next(c, s, steps[0]), steps[1..])
  }

  /** Any bucket no process has started on: whatever objects it holds, each
      multipart one has its manifest, and there may be orphans. */
  predicate Initial(s: State) {
    && s.procs == map[]
    && s.store.uploads == map[] && s.store.open == {}
    && StoreOk(s.store)
  }
}
