/**
Moving an object from its key in clear, P, to its encrypted key E(P): any number
of runs, stopped at any step, beside clients that write and delete at E(P)
throughout.  A client reads the object at E(P) if it is there and its last
version otherwise at P, and what it reads so changes by client writes alone.
*/
module Migration {
  import opened Base
  import opened Provider
  import opened Protocol
  import opened Lifecycle
  import opened Contents

  /** What the object named by P reads as, at whichever key holds it. */
  function Identity(st: Store, p: Key, e: Key): Option<seq<nat>> {
    if e in st.visible then Some(Plain(st.visible[e].body))
    else if p in st.visible then Some(Plain(st.visible[p].body))
    else None
  }

  /** E(P) is P's alone, stands for P, and is itself no key in clear. */
  predicate Mapped(c: Config, p: Key, e: Key) {
    && p in c.enc && c.enc[p] == e && e != p && e !in c.enc && c.identity(e) == p
    && forall k | k in c.enc :: c.enc[k] != p && (c.enc[k] == e ==> k == p)
  }

  /** Nobody writes P: the whole precondition of a migration. */
  predicate Leaves(c: Config, s: State, step: Step, p: Key)
    requires Enabled(c, s, step)
  {
    match step
    case PutObject(k, _) => k != p
    case UpDo(o, up) => up.UpComplete? ==> s.store.uploads[s.procs[o].up.uid].key != p
    case DelDo(o, del) => del.DelRemove? ==> s.procs[o].del.key != p
    case CopyHead(_, _, dst, _) => dst != p
    case _ => true
  }

  /** And the tools carry their conditions. */
  predicate Allowed(c: Config, s: State, step: Step, p: Key)
    requires Enabled(c, s, step)
  {
    Leaves(c, s, step, p) && (step.CopyHead? ==> step.mode.ClientCopy? || step.mode.guarded)
  }

  predicate AllAllowed(c: Config, s: State, steps: seq<Step>, p: Key)
    requires Runs(c, s, steps)
    decreases |steps|
  {
    steps == [] || (Allowed(c, s, steps[0], p) && AllAllowed(c, Next(c, s, steps[0]), steps[1..], p))
  }

  /** What clients last left at `k`, given what was there before their writes. */
  function LastAt(ops: seq<RegOp>, k: Key, start: Option<seq<nat>>): Option<seq<nat>>
    decreases |ops|
  {
    if ops == [] then start
    else LastAt(ops[1..], k, if ops[0].key != k then start else if ops[0].Write? then Some(ops[0].bytes) else None)
  }

  // -------------------------------------------------------------- invariant

  /** The move under way: `v` is the version at P, `since` when it began, `top` what
      clients last left at E(P), `erased` whether one has deleted there. */
  datatype Move = Move(p: Key, e: Key, v: Version, since: nat, top: Option<seq<nat>>, erased: bool)

  /** What E(P) holds is what clients left there or, where they left nothing, P's own copy. */
  predicate HeldAtE(m: Move, st: Store) {
    if m.e in st.visible
    then if m.top.Some? then Plain(st.visible[m.e].body) == m.top.value
         else Plain(st.visible[m.e].body) == Plain(m.v.body) && (m.v.dek.Some? ==> st.visible[m.e].dek == m.v.dek)
    else m.top.None? && (m.erased || (m.p in st.visible && RankAt(st, m.e) < m.since))
  }

  predicate StoreMoves(m: Move, st: Store) {
    && (m.p in st.visible ==> st.visible[m.p] == m.v)
    && m.since <= st.clock && (forall u | u in st.uploads :: m.since <= u)
    && HeldAtE(m, st)
  }

  predicate CopyMoves(m: Move, st: Store, q: CopyProc) {
    && (q.job.mode.ClientCopy? || q.job.mode.guarded)
    && q.job.dst != m.p
    && (q.job.src == m.p ==> q.job.ver == m.v)
    && (q.job.src == m.p && q.job.Moves() && (q.CopyDone? || q.MoveObsolete?) ==> m.e in st.visible || m.erased)
  }

  predicate MoveInv(m: Move, s: State) {
    && StoreMoves(m, s.store)
    && forall o | o in s.procs && s.procs[o].Copy? :: CopyMoves(m, s.store, s.procs[o].copy)
  }

  function Wrote(m: Move, ops: seq<RegOp>): Move {
    m.(top := LastAt(ops, m.e, m.top), erased := m.erased || Erase(m.e) in ops)
  }

  /** One step: E(P) changes as the step's client write says, and is emptied by no other. */
  predicate StepMoves(m: Move, a: Store, b: Store, ops: seq<RegOp>) {
    StoreMoves(Wrote(m, ops), b) && (m.e in a.visible ==> m.e in b.visible || Erase(m.e) in ops)
  }

  lemma WroteOne(m: Move, op: RegOp)
    ensures Wrote(m, [op]) == if op.key != m.e then m
                              else if op.Write? then m.(top := Some(op.bytes))
                              else m.(top := None, erased := true)
    ensures Erase(m.e) in [op] <==> op.Erase? && op.key == m.e
  {
    assert LastAt([op][1..], m.e, m.top) == m.top;
    assert op.Write? ==> LastAt([op][1..], m.e, Some(op.bytes)) == Some(op.bytes);
    assert LastAt([op][1..], m.e, None) == None;
  }

  // ------------------------------------------------------------- the copies

  /** The only copies that publish at E(P) without a client asking: a guarded move finds
      nothing there, and is kept unless a client deleted there meanwhile; a guarded
      rotation or encryption replaces exactly the version it read. */
  lemma CompletionAtE(c: Config, m: Move, st: Store, o: nat, q: CopyProc, keep: bool)
    requires VisibleOk(st) && CopyOk(c, st, o, q) && CopyCarries(st, q) && CopyEnabled(c, st, q, CopyComplete(keep))
    requires Mapped(c, m.p, m.e) && StoreMoves(m, st) && CopyMoves(m, st, q)
    requires q.job.dst == m.e && !q.job.mode.ClientCopy?
    ensures q.job.Moves() ==> m.e !in st.visible && q.job.src == m.p && (keep || m.erased)
    ensures var b := CopyStore(c, st, o, q, CopyComplete(keep));
            StoreMoves(m, b) && (m.e in st.visible || keep ==> m.e in b.visible)
  {
    if q.job.Moves() {
      assert q.job.src == m.p;
    } else {
      assert st.visible[m.e] == q.job.ver;
    }
  }

  /** Publishing anywhere else leaves both keys as they are. */
  lemma PublishElsewhere(m: Move, st: Store, v: Version)
    requires StoreMoves(m, st) && v.key != m.p && v.key != m.e
    ensures StoreMoves(m, Publish(st, v)) && (m.e in st.visible <==> m.e in Publish(st, v).visible)
  {
  }

  lemma CopyCompleteMoves(c: Config, m: Move, st: Store, o: nat, q: CopyProc, keep: bool)
    requires VisibleOk(st) && CopyOk(c, st, o, q) && CopyCarries(st, q) && CopyEnabled(c, st, q, CopyComplete(keep))
    requires Mapped(c, m.p, m.e) && StoreMoves(m, st) && CopyMoves(m, st, q)
    requires q.job.dst == m.e && q.job.mode.ClientCopy? ==> !keep
    ensures var b := CopyStore(c, st, o, q, CopyComplete(keep));
            && StoreMoves(m, b) && (m.e in st.visible ==> m.e in b.visible)
            && (q.job.src == m.p && q.job.Moves() ==> m.e in b.visible || m.erased)
  {
    if q.job.dst == m.e {
      if !q.job.mode.ClientCopy? {
        CompletionAtE(c, m, st, o, q, keep);
      }
    } else if keep {
      PublishElsewhere(m, CloseUpload(st, q.uid), Published(st, q.uid, q.job.Publisher()));
    }
  }

  lemma CopyStoreMoves(c: Config, m: Move, st: Store, o: nat, q: CopyProc, step: CopyStep)
    requires VisibleOk(st) && CopyOk(c, st, o, q) && CopyCarries(st, q) && CopyEnabled(c, st, q, step)
    requires Mapped(c, m.p, m.e) && StoreMoves(m, st) && CopyMoves(m, st, q)
    requires q.job.dst == m.e && q.job.mode.ClientCopy? ==> !step.CopyWhole? && !(step.CopyComplete? && step.keep)
    ensures var b := CopyStore(c, st, o, q, step); StoreMoves(m, b) && (m.e in st.visible ==> m.e in b.visible)
  {
    if step.CopyComplete? {
      CopyCompleteMoves(c, m, st, o, q, step.keep);
    } else if step.CopyCreate? {
      assert CopyStore(c, st, o, q, step).visible == st.visible;
    } else if step.CopyWhole? {
      PublishElsewhere(m, st, Version(q.job.dst, st.clock, st.clock, st.clock, None, q.job.ver.dek, q.job.BindsTo(c),
                                      st.visible[q.job.src].body,
                                      if q.job.mode.ClientCopy? then ByClient else ByTool(false)));
    }
  }

  lemma CopyStepMoves(c: Config, m: Move, st: Store, o: nat, q: CopyProc, step: CopyStep)
    requires VisibleOk(st) && CopyOk(c, st, o, q) && CopyCarries(st, q) && CopyEnabled(c, st, q, step)
    requires Mapped(c, m.p, m.e) && StoreMoves(m, st) && CopyMoves(m, st, q)
    requires q.job.dst == m.e && q.job.mode.ClientCopy? ==> !step.CopyWhole? && !(step.CopyComplete? && step.keep)
    ensures var b := CopyStore(c, st, o, q, step);
            && StoreMoves(m, b) && CopyMoves(m, b, CopyNext(c, st, q, step))
            && (m.e in st.visible ==> m.e in b.visible)
  {
    CopyStoreMoves(c, m, st, o, q, step);
    if step.CopyComplete? {
      CopyCompleteMoves(c, m, st, o, q, step.keep);
    }
  }

  // ---------------------------------------------------------- client writes

  lemma PublishedByClient(m: Move, st: Store, v: Version)
    requires StoreMoves(m, st) && v.key != m.p && m.e != m.p
    ensures StepMoves(m, st, Publish(st, v), [Write(v.key, Plain(v.body))])
  {
    WroteOne(m, Write(v.key, Plain(v.body)));
    if v.key != m.e {
      PublishElsewhere(m, st, v);
    }
  }

  lemma RemovedByClient(m: Move, st: Store, k: Key)
    requires StoreMoves(m, st) && k != m.p
    ensures StepMoves(m, st, Remove(st, k), [Erase(k)])
  {
    WroteOne(m, Erase(k));
  }

  lemma CopyDoMoves(c: Config, m: Move, st: Store, o: nat, q: CopyProc, step: CopyStep)
    requires VisibleOk(st) && CopyOk(c, st, o, q) && CopyCarries(st, q) && CopyEnabled(c, st, q, step)
    requires Mapped(c, m.p, m.e) && StoreMoves(m, st) && CopyMoves(m, st, q)
    ensures var b := CopyStore(c, st, o, q, step);
            && CopyMoves(m, b, CopyNext(c, st, q, step))
            && StepMoves(m, st, b,
                         if q.job.mode.ClientCopy? && (step.CopyWhole? || (step.CopyComplete? && step.keep))
                         then [Write(q.job.dst, Plain(q.job.ver.body))] else [])
  {
    if q.job.mode.ClientCopy? && step.CopyWhole? {
      assert st.visible[q.job.src] == q.job.ver;
      PublishedByClient(m, st, Version(q.job.dst, st.clock, st.clock, st.clock, None, q.job.ver.dek, q.job.BindsTo(c),
                                       st.visible[q.job.src].body, ByClient));
    } else if q.job.mode.ClientCopy? && step.CopyComplete? && step.keep {
      PublishedByClient(m, CloseUpload(st, q.uid), Published(st, q.uid, ByClient));
    } else {
      CopyStepMoves(c, m, st, o, q, step);
    }
  }

  /** A step that publishes and removes nothing. */
  lemma QuietMoves(m: Move, a: Store, b: Store)
    requires StoreMoves(m, a) && b.visible == a.visible && b.ranks == a.ranks && a.clock <= b.clock
    requires forall u | u in b.uploads && u !in a.uploads :: a.clock <= u
    ensures StepMoves(m, a, b, [])
  {
  }

  lemma UpMoves(c: Config, m: Move, st: Store, q: UpProc, step: UpStep)
    requires UpEnabled(c, st, q, step) && Mapped(c, m.p, m.e) && StoreMoves(m, st)
    requires step.UpComplete? ==> st.uploads[q.uid].key != m.p
    ensures StepMoves(m, st, UpStore(c, st, q, step),
                      if step.UpComplete? && step.keep
                      then [Write(st.uploads[q.uid].key, Plain(st.parts[q.uid]))] else [])
  {
    if step.UpComplete? && step.keep {
      PublishedByClient(m, CloseUpload(st, q.uid), Published(st, q.uid, ByClient));
    } else {
      QuietMoves(m, st, UpStore(c, st, q, step));
    }
  }

  lemma OtherStepMoves(c: Config, m: Move, s: State, step: Step)
    requires UploadsOk(s.store) && Enabled(c, s, step) && !step.CopyDo?
    requires Mapped(c, m.p, m.e) && StoreMoves(m, s.store) && Allowed(c, s, step, m.p)
    ensures StepMoves(m, s.store, StoreAfter(c, s, step), ClientOp(c, s, step))
  {
    var st := s.store;
    if step.PutObject? {
      var piece := Piece(Some(st.clock), step.bytes);
      assert Plain([piece]) == step.bytes;
      PublishedByClient(m, st, Version(step.key, st.clock, st.clock, st.clock, None, Some(st.clock), c.identity(step.key), [piece], ByClient));
    } else if step.UpDo? {
      UpMoves(c, m, st, s.procs[step.p].up, step.up);
    } else if step.DelDo? && step.del.DelRemove? {
      RemovedByClient(m, st, s.procs[step.p].del.key);
    } else {
      QuietMoves(m, st, StoreAfter(c, s, step));
    }
  }

  lemma MoveStep(c: Config, m: Move, s: State, step: Step)
    requires Inv(c, s) && Carries(s) && MoveInv(m, s) && Mapped(c, m.p, m.e)
    requires Enabled(c, s, step) && Allowed(c, s, step, m.p)
    ensures StepMoves(m, s.store, StoreAfter(c, s, step), ClientOp(c, s, step))
    ensures MoveInv(Wrote(m, ClientOp(c, s, step)), Next(c, s, step))
  {
    var b := StoreAfter(c, s, step);
    if step.CopyDo? {
      assert ProcOk(c, s.store, step.p, s.procs[step.p]);
      CopyDoMoves(c, m, s.store, step.p, s.procs[step.p].copy, step.copy);
    } else {
      OtherStepMoves(c, m, s, step);
    }
    forall o | o in ProcsAfter(c, s, step) && ProcsAfter(c, s, step)[o].Copy?
      ensures CopyMoves(Wrote(m, ClientOp(c, s, step)), b, ProcsAfter(c, s, step)[o].copy)
    {
      CopiesAfter(c, s, step, o);
    }
  }

  // --------------------------------------------------------------- every run

  lemma {:induction false} LastAtAppend(a: seq<RegOp>, b: seq<RegOp>, k: Key, start: Option<seq<nat>>)
    ensures LastAt(a + b, k, start) == LastAt(b, k, LastAt(a, k, start))
    decreases |a|
  {
    if a == [] {
      assert a + b == b;
    } else {
      assert (a + b)[1..] == a[1..] + b;
      LastAtAppend(a[1..], b, k, if a[0].key != k then start else if a[0].Write? then Some(a[0].bytes) else None);
    }
  }

  lemma {:induction false} MoveThroughout(c: Config, m: Move, s: State, steps: seq<Step>)
    requires Inv(c, s) && Carries(s) && MoveInv(m, s) && Mapped(c, m.p, m.e)
    requires Runs(c, s, steps) && AllAllowed(c, s, steps, m.p)
    ensures MoveInv(Wrote(m, ClientOps(c, s, steps)), Final(c, s, steps))
    decreases |steps|
  {
    if steps != [] {
      var n, op := Next(c, s, steps[0]), ClientOp(c, s, steps[0]);
      Preserved(c, s, steps[0]);
      CarriesStep(c, s, steps[0]);
      MoveStep(c, m, s, steps[0]);
      MoveThroughout(c, Wrote(m, op), n, steps[1..]);
      LastAtAppend(op, ClientOps(c, n, steps[1..]), m.e, m.top);
    }
  }

  /** Any number of migration runs, interleaved with client writes and deletes, rotations
      and gc and stopped anywhere, whatever E(P) held to begin with.  What clients last
      left at E(P) is what is there.  Where they left nothing there, it holds nothing but
      P's own copy, under P's own data key; and unless a client deleted at E(P), the object
      reads as P did, at one key or the other. */
  lemma NoWriteLost(c: Config, s: State, steps: seq<Step>, p: Key, e: Key)
    requires Initial(s) && Coherent(s.store) && Mapped(c, p, e) && p in s.store.visible
    requires Runs(c, s, steps) && AllAllowed(c, s, steps, p)
    ensures var f, ops, v := Final(c, s, steps).store, ClientOps(c, s, steps), s.store.visible[p];
            var first := if e in s.store.visible then Some(Plain(s.store.visible[e].body)) else None;
            var top := LastAt(ops, e, first);
            && (p in f.visible ==> f.visible[p] == v)
            && (top.Some? ==> e in f.visible && Plain(f.visible[e].body) == top.value)
            && (top.None? && e in f.visible ==>
                  Plain(f.visible[e].body) == Plain(v.body) && (v.dek.Some? ==> f.visible[e].dek == v.dek))
            && (top.None? && Erase(e) !in ops ==> Identity(f, p, e) == Some(Plain(v.body)))
  {
    var first := if e in s.store.visible then Some(Plain(s.store.visible[e].body)) else None;
    var m := Move(p, e, s.store.visible[p], s.store.clock, first, false);
    assert MoveInv(m, s);
    CarriesThroughout(c, s, steps);
    MoveThroughout(c, m, s, steps);
  }
}
