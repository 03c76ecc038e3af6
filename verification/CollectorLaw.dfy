/**
A whole garbage-collection pass, and what it did, said of the listing and of what became
of each key: which manifests went, and what every counter counts.
*/
module CollectorLaw {
  import opened Base
  import opened Provider
  import opened Collector

  /** What becomes of a manifest listed, given what became of its key. */
  datatype Fate = Unjudged | Unread | Kept | Young | Went | Refused

  /** Old enough: dated, and at least the minimum age ago by the clock it is judged with. */
  predicate OldEnough(cfg: Settings, e: Listed) {
    e.modified.Some? && e.modified.value + cfg.minAge <= cfg.clock(e.ref)
  }

  function FateOf(cfg: Settings, o: Outcome, e: Listed): Fate {
    match o
    case Unreadable => Unread
    case Collected(_, _, current) =>
      if current == Some(e.ref.mid) then Kept
      else if cfg.ageGuard && !OldEnough(cfg, e) then Young
      else if !cfg.dryRun && cfg.refuses(e.ref) then Refused
      else Went
    case _ => Unjudged
  }

  /** How many of the entries have that fate. */
  function Fated(cfg: Settings, o: Outcome, entries: seq<Listed>, f: Fate): nat {
    if entries == [] then 0
    else Fated(cfg, o, entries[..|entries| - 1], f) + if FateOf(cfg, o, entries[|entries| - 1]) == f then 1 else 0
  }

  // ----------------------------------------------------------------- one key

  /** The counters a sweep raises, each by the entries of its fate. */
  lemma {:induction false} SweptMeans(cfg: Settings, o: Outcome, entries: seq<Listed>, n: Counts)
    requires o.Collected?
    ensures var m := Swept(cfg, o.current, entries, n);
            m == Counts(n.seen, n.scanned, n.skipped, n.deleted + Fated(cfg, o, entries, Went),
                        n.current + Fated(cfg, o, entries, Kept), n.young + Fated(cfg, o, entries, Young),
                        n.unreadable, n.errors + Fated(cfg, o, entries, Refused))
  {
    if entries != [] {
      SweptMeans(cfg, o, entries[..|entries| - 1], n);
    }
  }

  lemma {:induction false} AllOneFate(cfg: Settings, o: Outcome, entries: seq<Listed>, f: Fate)
    requires !o.Collected?
    ensures Fated(cfg, o, entries, f) == if (if o.Unreadable? then Unread else Unjudged) == f then |entries| else 0
  {
    if entries != [] {
      AllOneFate(cfg, o, entries[..|entries| - 1], f);
    }
  }

  /** A key that was looked at: resolved, and within the prefix. */
  function Scanned(o: Outcome): nat { if o.Unreadable? || o.Outside? then 0 else 1 }

  function Skipped(o: Outcome): nat { if o.Busy? then 1 else 0 }

  function FailedKey(o: Outcome): nat { if o.UploadsFailed? || o.HeadFailed? then 1 else 0 }

  /** What one key adds to every counter. */
  lemma {:induction false} TalliedMeans(cfg: Settings, o: Outcome, entries: seq<Listed>, n: Counts)
    ensures Tallied(cfg, entries, o, n) ==
            Counts(n.seen, n.scanned + Scanned(o), n.skipped + Skipped(o), n.deleted + Fated(cfg, o, entries, Went),
                   n.current + Fated(cfg, o, entries, Kept), n.young + Fated(cfg, o, entries, Young),
                   n.unreadable + Fated(cfg, o, entries, Unread), n.errors + FailedKey(o) + Fated(cfg, o, entries, Refused))
  {
    if o.Collected? {
      SweptMeans(cfg, o, entries, n.(scanned := n.scanned + 1));
      NoneUnread(cfg, o, entries);
    } else {
      AllOneFate(cfg, o, entries, Went);
      AllOneFate(cfg, o, entries, Kept);
      AllOneFate(cfg, o, entries, Young);
      AllOneFate(cfg, o, entries, Unread);
      AllOneFate(cfg, o, entries, Refused);
    }
  }

  lemma {:induction false} NoneUnread(cfg: Settings, o: Outcome, entries: seq<Listed>)
    requires o.Collected?
    ensures Fated(cfg, o, entries, Unread) == 0
  {
    if entries != [] {
      NoneUnread(cfg, o, entries[..|entries| - 1]);
    }
  }

  /** A manifest goes from a key if and only if its fate is to, and the run is not dry. */
  lemma {:induction false} TakenMeans(cfg: Settings, o: Outcome, entries: seq<Listed>, r: Ref)
    ensures r in TakenBy(cfg, entries, o) <==>
              !cfg.dryRun && exists i | 0 <= i < |entries| :: entries[i].ref == r && FateOf(cfg, o, entries[i]) == Went
  {
    if o.Collected? {
      TakesExactly(cfg, o.current, entries, r);
      assert forall i | 0 <= i < |entries| ::
          Goes(cfg, o.current, entries[i]) <==> !cfg.dryRun && FateOf(cfg, o, entries[i]) == Went;
    }
  }

  // -------------------------------------------------------------- every key

  /** What became of a key. */
  function OutcomeOf(done: seq<Done>, k: Key): Option<Outcome> {
    if done == [] then None
    else if done[|done| - 1].key == k then Some(done[|done| - 1].outcome)
    else OutcomeOf(done[..|done| - 1], k)
  }

  function FateIn(cfg: Settings, done: seq<Done>, e: Listed): Fate {
    var o := OutcomeOf(done, e.ref.key);
    if o.None? then Unjudged else FateOf(cfg, o.value, e)
  }

  /** How many of the manifests listed have that fate. */
  function Total(cfg: Settings, done: seq<Done>, listed: seq<Listed>, f: Fate): nat {
    if listed == [] then 0
    else Total(cfg, done, listed[..|listed| - 1], f) + if FateIn(cfg, done, listed[|listed| - 1]) == f then 1 else 0
  }

  function Keys(done: seq<Done>, counts: Outcome -> nat): nat {
    if done == [] then 0 else Keys(done[..|done| - 1], counts) + counts(done[|done| - 1].outcome)
  }

  predicate Distinct(done: seq<Done>) { forall i, j | 0 <= i < j < |done| :: done[i].key != done[j].key }

  lemma {:induction false} NotDone(done: seq<Done>, k: Key)
    requires forall i | 0 <= i < |done| :: done[i].key != k
    ensures OutcomeOf(done, k).None?
  {
    if done != [] {
      NotDone(done[..|done| - 1], k);
    }
  }

  lemma {:induction false} OutcomeAt(done: seq<Done>, i: nat)
    requires Distinct(done) && i < |done|
    ensures OutcomeOf(done, done[i].key) == Some(done[i].outcome)
    decreases |done|
  {
    var n := |done| - 1;
    if i < n {
      assert done[..n][i] == done[i];
      OutcomeAt(done[..n], i);
    }
  }

  /** One key more: its manifests get the fate it gives them, the others keep theirs. */
  lemma {:induction false} TotalNext(cfg: Settings, done: seq<Done>, d: Done, listed: seq<Listed>, f: Fate)
    requires f != Unjudged && forall i | 0 <= i < |done| :: done[i].key != d.key
    ensures Total(cfg, done + [d], listed, f) == Total(cfg, done, listed, f) + Fated(cfg, d.outcome, OfKey(listed, d.key), f)
    decreases |listed|
  {
    if listed != [] {
      var before, e := listed[..|listed| - 1], listed[|listed| - 1];
      TotalNext(cfg, done, d, before, f);
      assert (done + [d])[..|done|] == done;
      var mine := OfKey(before, d.key);
      if e.ref.key == d.key {
        NotDone(done, d.key);
        assert (mine + [e])[..|mine|] == mine;
      } else {
        assert mine + [] == mine;
      }
    }
  }

  lemma {:induction false} TotalNone(cfg: Settings, listed: seq<Listed>, f: Fate)
    requires f != Unjudged
    ensures Total(cfg, [], listed, f) == 0
  {
    if listed != [] {
      TotalNone(cfg, listed[..|listed| - 1], f);
    }
  }

  /** Every counter, for the keys done. */
  function Counted(cfg: Settings, listed: seq<Listed>, done: seq<Done>): Counts {
    Counts(|listed|, Keys(done, Scanned), Keys(done, Skipped), Total(cfg, done, listed, Went),
           Total(cfg, done, listed, Kept), Total(cfg, done, listed, Young), Total(cfg, done, listed, Unread),
           Keys(done, FailedKey) + Total(cfg, done, listed, Refused))
  }

  lemma {:induction false} CountedNext(cfg: Settings, listed: seq<Listed>, done: seq<Done>, d: Done)
    requires forall i | 0 <= i < |done| :: done[i].key != d.key
    ensures Counted(cfg, listed, done + [d]) == Tallied(cfg, OfKey(listed, d.key), d.outcome, Counted(cfg, listed, done))
  {
    TalliedMeans(cfg, d.outcome, OfKey(listed, d.key), Counted(cfg, listed, done));
    TotalNext(cfg, done, d, listed, Went);
    TotalNext(cfg, done, d, listed, Kept);
    TotalNext(cfg, done, d, listed, Young);
    TotalNext(cfg, done, d, listed, Unread);
    TotalNext(cfg, done, d, listed, Refused);
    assert (done + [d])[..|done|] == done;
  }

  lemma {:induction false} TallyMeans(cfg: Settings, listed: seq<Listed>, done: seq<Done>)
    requires Distinct(done)
    ensures Tally(cfg, listed, done, NoCounts.(seen := |listed|)) == Counted(cfg, listed, done)
    decreases |done|
  {
    if done == [] {
      TotalNone(cfg, listed, Went);
      TotalNone(cfg, listed, Kept);
      TotalNone(cfg, listed, Young);
      TotalNone(cfg, listed, Unread);
      TotalNone(cfg, listed, Refused);
    } else {
      var n := |done| - 1;
      TallyMeans(cfg, listed, done[..n]);
      CountedNext(cfg, listed, done[..n], done[n]);
      assert done[..n] + [done[n]] == done;
    }
  }

  // ------------------------------------------------------------ what is gone

  predicate TakenAt(cfg: Settings, listed: seq<Listed>, d: Done, r: Ref) {
    r in TakenBy(cfg, OfKey(listed, d.key), d.outcome)
  }

  lemma {:induction false} AllTakenMeans(cfg: Settings, listed: seq<Listed>, done: seq<Done>, r: Ref)
    ensures r in AllTaken(cfg, listed, done) <==> exists d | d in done :: TakenAt(cfg, listed, d, r)
    decreases |done|
  {
    if done != [] {
      var before, d := done[..|done| - 1], done[|done| - 1];
      AllTakenMeans(cfg, listed, before, r);
      assert done == before + [d];
      assert r in AllTaken(cfg, listed, done) <==> r in AllTaken(cfg, listed, before) || TakenAt(cfg, listed, d, r);
    }
  }

  lemma {:induction false} InKey(listed: seq<Listed>, k: Key, e: Listed)
    ensures e in OfKey(listed, k) <==> e in listed && e.ref.key == k
  {
    if listed != [] {
      InKey(listed[..|listed| - 1], k, e);
    }
  }

  /** A manifest listed with that fate. */
  ghost predicate Fell(cfg: Settings, listed: seq<Listed>, done: seq<Done>, r: Ref, f: Fate) {
    exists e | e in listed :: e.ref == r && FateIn(cfg, done, e) == f
  }

  lemma {:induction false} GoneMeans(cfg: Settings, listed: seq<Listed>, done: seq<Done>, r: Ref)
    requires Distinct(done)
    ensures r in AllTaken(cfg, listed, done) <==> !cfg.dryRun && Fell(cfg, listed, done, r, Went)
  {
    AllTakenMeans(cfg, listed, done, r);
    if r in AllTaken(cfg, listed, done) {
      var d :| d in done && TakenAt(cfg, listed, d, r);
      var i :| 0 <= i < |done| && done[i] == d;
      var mine := OfKey(listed, done[i].key);
      TakenMeans(cfg, done[i].outcome, mine, r);
      var j :| 0 <= j < |mine| && mine[j].ref == r && FateOf(cfg, done[i].outcome, mine[j]) == Went;
      InKey(listed, done[i].key, mine[j]);
      OutcomeAt(done, i);
    }
    if !cfg.dryRun && Fell(cfg, listed, done, r, Went) {
      var e :| e in listed && e.ref == r && FateIn(cfg, done, e) == Went;
      var i := DoneAt(done, e.ref.key);
      var mine := OfKey(listed, e.ref.key);
      InKey(listed, e.ref.key, e);
      TakenMeans(cfg, done[i].outcome, mine, r);
      assert TakenAt(cfg, listed, done[i], r);
    }
  }

  lemma {:induction false} DoneAt(done: seq<Done>, k: Key) returns (i: nat)
    requires OutcomeOf(done, k).Some?
    ensures i < |done| && done[i] == Done(k, OutcomeOf(done, k).value)
  {
    if done[|done| - 1].key == k {
      i := |done| - 1;
    } else {
      i := DoneAt(done[..|done| - 1], k);
    }
  }

  /** A pass, by what it listed and what became of each key.  Every counter is the number of
      manifests of its fate, or of keys.  Exactly the manifests whose fate it is went, none in
      a dry run; and under the age guard each of them was dated and old enough. */
  lemma {:induction false} PassMeans(cfg: Settings, history: seq<Store>, listed: seq<Listed>, done: seq<Done>, n: Counts, gone: seq<Ref>)
    requires Progress(cfg, history, listed, {}, done, n, gone).Some?
    ensures n == Counted(cfg, listed, done)
    ensures forall r: Ref :: r in gone <==> !cfg.dryRun && Fell(cfg, listed, done, r, Went)
    ensures cfg.ageGuard ==> forall r | r in gone :: exists e | e in listed :: e.ref == r && OldEnough(cfg, e)
    ensures forall i | 0 <= i < |done| :: OutcomeOf(done, done[i].key) == Some(done[i].outcome)
  {
    TallyMeans(cfg, listed, done);
    forall r: Ref
      ensures r in gone <==> !cfg.dryRun && Fell(cfg, listed, done, r, Went)
    {
      GoneMeans(cfg, listed, done, r);
    }
    forall i | 0 <= i < |done|
      ensures OutcomeOf(done, done[i].key) == Some(done[i].outcome)
    {
      OutcomeAt(done, i);
    }
    if cfg.ageGuard {
      forall r | r in gone
        ensures exists e | e in listed :: e.ref == r && OldEnough(cfg, e)
      {
        assert Fell(cfg, listed, done, r, Went);
        var e :| e in listed && e.ref == r && FateIn(cfg, done, e) == Went;
      }
    }
  }

  /** A whole pass, whatever runs beside it.  The bucket stays as the invariant wants it, so
      every visible multipart version still has its manifest.  Everything that was there
      throughout the listing is listed, once; each key listed is done once, as the answers
      had it.  Every counter is the number of manifests of its fate, or of keys; exactly the
      manifests whose fate it is went, none in a dry run, under the age guard none that was
      not old enough; and they are dead for good. */
  method Pass(b: Bucket, cfg: Settings, order: Ref -> nat, cuts: seq<nat>, stamp: Ref -> Option<int>)
    returns (r: Option<Counts>, ghost listed: seq<Listed>, ghost done: seq<Done>, ghost span: nat)
    requires b.Held().Some? && |b.history| == 1 && b.gone == [] && Rising(cuts)
    modifies b
    ensures b.After(old(b.st)).Some?
    ensures r.None? <==> Fails(cfg, |cuts| + 1)
    ensures r.None? ==> b.gone == []
    ensures r.Some? ==> && span <= |b.history| && ListedBelow(b.history[..span], order, listed, None)
                        && Stamped(stamp, listed)
                        && AllDone(cfg, b.history, KeysOf(listed), done) && GoneDead(b.st, b.gone)
                        && r.value == Counted(cfg, listed, done)
    ensures r.Some? ==> forall x: Ref :: x in b.gone <==> !cfg.dryRun && Fell(cfg, listed, done, x, Went)
    ensures r.Some? && cfg.ageGuard ==> forall x | x in b.gone :: exists e | e in listed :: e.ref == x && OldEnough(cfg, e)
    ensures r.Some? ==> |b.gone| == (if cfg.dryRun then 0 else r.value.deleted) && Settled(r.value) <= r.value.seen
  {
    done, span := [], 0;
    ghost var first := b.st;
    var groups, n;
    groups, n, listed := ListManifests(b, cfg, order, cuts, stamp);
    if groups.None? {
      return None, listed, done, span;
    }
    ghost var mid, heard := b.st, b.history;
    span := |heard|;
    n, done := CollectAll(b, cfg, listed, groups.value, n);
    AfterThen(b, first, mid);
    PassMeans(cfg, b.history, listed, done, n, b.gone);
    assert KeysOf(listed) - {} == KeysOf(listed);
    assert b.history[..span] == heard;
    return Some(n), listed, done, span;
  }
}
