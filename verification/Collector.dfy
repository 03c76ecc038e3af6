/**
One garbage-collection pass as the loop it is, beside whatever else runs: between any
two of its requests the bucket may change as other processes change it.
*/
module Collector {
  import opened Base
  import opened Lifecycle
  import opened Protocol
  import opened Provider

  /** What any number of requests by others may have changed: as for one request, but a
      version may also have come from an upload opened meanwhile. */
  predicate Later(a: Store, b: Store) {
    && RelyHistory(a, b) && RelyUploads(a, b) && RelyManifests(a, b)
    && forall k | k in b.visible && b.visible[k].mid.Some? ::
         MidAt(a, k) == b.visible[k].mid || b.visible[k].mid.value in a.open || b.visible[k].mid.value >= a.clock
  }

  lemma LaterKeepsDead(a: Store, b: Store, r: Ref)
    requires StoreOk(a) && StoreOk(b) && Later(a, b)
    ensures Closed(a, r) ==> Closed(b, r)
    ensures Dead(a, r) ==> Dead(b, r)
  {
  }

  lemma LaterVisible(a: Store, b: Store, c: Store, k: Key)
    requires UploadsOk(b) && Later(a, b) && Later(b, c) && k in c.visible && c.visible[k].mid.Some?
    ensures var m := c.visible[k].mid; MidAt(a, k) == m || m.value in a.open || m.value >= a.clock
  {
  }

  lemma LaterTransitive(a: Store, b: Store, c: Store)
    requires StoreOk(a) && StoreOk(b) && StoreOk(c) && Later(a, b) && Later(b, c)
    ensures Later(a, c)
  {
    forall r | r in a.manifests && r !in c.manifests
      ensures Dead(c, r)
    {
      LaterKeepsDead(b, c, r);
    }
    forall k | k in c.visible && c.visible[k].mid.Some?
      ensures MidAt(a, k) == c.visible[k].mid || c.visible[k].mid.value in a.open || c.visible[k].mid.value >= a.clock
    {
      LaterVisible(a, b, c, k);
    }
  }

  /** Where a bucket stands some time after `first`. */
  function Since(first: Store, st: Store): Option<Store> {
    if StoreOk(first) && StoreOk(st) && Later(first, st) then Some(st) else None
  }

  /** Every run of the processes is such a change. */
  lemma {:induction false} RunsAreLater(c: Config, s: State, steps: seq<Step>)
    requires Inv(c, s) && Runs(c, s, steps)
    ensures StoreOk(Final(c, s, steps).store) && Later(s.store, Final(c, s, steps).store)
    decreases |steps|
  {
    if steps != [] {
      StoreStep(c, s, steps[0]);
      Preserved(c, s, steps[0]);
      RunsAreLater(c, Next(c, s, steps[0]), steps[1..]);
      LaterTransitive(s.store, StoreAfter(c, s, steps[0]), Final(c, s, steps).store);
    }
  }

  // -------------------------------------------------------------- the bucket

  class Bucket {
    var st: Store

    /** What the bucket has been since the pass began, and the manifests the pass deleted. */
    ghost var history: seq<Store>
    ghost var gone: seq<Ref>

    ghost predicate Sound()
      reads this
    {
      StoreOk(st) && GoneDead(st, gone) && |history| > 0 && history[|history| - 1] == st
    }

    /** Where the bucket stands: as it must, and some time after `first`. */
    ghost function Held(): Option<Store>
      reads this
    {
      if Sound() then Some(st) else None
    }

    ghost function After(first: Store): Option<Store>
      reads this
    {
      if Sound() then Since(first, st) else None
    }

    /** Others run: any number of requests, none, or the whole of a pass. */
    method Others()
      requires Held().Some?
      modifies this`st, this`history
      ensures After(old(st)).Some? && history == old(history) + [st]
    {
      assert Later(st, st);
      ghost var before := st;
      var next :| StoreOk(next) && Later(st, next);
      st := next;
      history := history + [st];
      StayGone(before, st, gone);
    }

    /** DeleteObject of a manifest that is dead. */
    method Delete(r: Ref)
      requires Held().Some? && Dead(st, r)
      modifies this
      ensures After(old(st)).Some? && r !in st.manifests
      ensures gone == old(gone) + [r] && history == old(history) + [st]
    {
      ghost var before := st;
      DeleteManifestOk(st, r);
      st := DeleteManifest(st, r);
      StayGone(before, st, gone);
      LaterKeepsDead(before, st, r);
      gone, history := gone + [r], history + [st];
    }
  }

  lemma AfterThen(b: Bucket, first: Store, mid: Store)
    requires Since(first, mid).Some? && b.After(mid).Some?
    ensures b.After(first).Some?
  {
    LaterTransitive(first, mid, b.st);
  }

  predicate GoneDead(st: Store, gone: seq<Ref>) {
    forall i | 0 <= i < |gone| :: Dead(st, gone[i])
  }

  lemma StayGone(a: Store, b: Store, gone: seq<Ref>)
    requires StoreOk(a) && StoreOk(b) && Later(a, b) && GoneDead(a, gone)
    ensures GoneDead(b, gone)
  {
    forall i | 0 <= i < |gone|
      ensures Dead(b, gone[i])
    {
      LaterKeepsDead(a, b, gone[i]);
    }
  }

  // --------------------------------------------------------------- one sweep

  /** A manifest as the listing reports it; a date that does not parse is None. */
  datatype Listed = Listed(ref: Ref, modified: Option<int>)

  /** What a pass is asked to do, and what answers it gets: the page of the listing that fails,
      which keys can be resolved and have the prefix, for which the upload listing or the
      HEAD fails, which deletes are refused, and what the clock reads when a manifest is
      judged. */
  datatype Settings = Settings(
    minAge: int, ageGuard: bool, dryRun: bool,
    badPage: Option<nat>, resolves: Key -> bool, prefixed: Key -> bool,
    uploadsFail: Key -> bool, headFails: Key -> bool, refuses: Ref -> bool, clock: Ref -> int)

  datatype Counts = Counts(
    seen: nat, scanned: nat, skipped: nat, deleted: nat, current: nat, young: nat, unreadable: nat, errors: nat)

  const NoCounts := Counts(0, 0, 0, 0, 0, 0, 0, 0)

  predicate TooYoung(cfg: Settings, e: Listed) {
    cfg.ageGuard && (e.modified.None? || e.modified.value > cfg.clock(e.ref) - cfg.minAge)
  }

  /** What a pass may take: not the visible version's, and old enough. */
  predicate Orphan(cfg: Settings, current: Option<nat>, e: Listed) {
    Some(e.ref.mid) != current && !TooYoung(cfg, e)
  }

  /** And what it takes. */
  predicate Goes(cfg: Settings, current: Option<nat>, e: Listed) {
    Orphan(cfg, current, e) && !cfg.dryRun && !cfg.refuses(e.ref)
  }

  function Judged(cfg: Settings, current: Option<nat>, e: Listed, n: Counts): Counts {
    if Some(e.ref.mid) == current then n.(current := n.current + 1)
    else if TooYoung(cfg, e) then n.(young := n.young + 1)
    else if cfg.dryRun || !cfg.refuses(e.ref) then n.(deleted := n.deleted + 1)
    else n.(errors := n.errors + 1)
  }

  function Swept(cfg: Settings, current: Option<nat>, entries: seq<Listed>, n: Counts): Counts {
    if entries == [] then n
    else Judged(cfg, current, entries[|entries| - 1], Swept(cfg, current, entries[..|entries| - 1], n))
  }

  function Taken(cfg: Settings, current: Option<nat>, entries: seq<Listed>): seq<Ref> {
    if entries == [] then []
    else
      var e := entries[|entries| - 1];
      Taken(cfg, current, entries[..|entries| - 1]) + if Goes(cfg, current, e) then [e.ref] else []
  }

  lemma SweptNext(cfg: Settings, current: Option<nat>, entries: seq<Listed>, i: nat, n: Counts, gone: seq<Ref>)
    requires i < |entries|
    ensures Swept(cfg, current, entries[..i + 1], n) == Judged(cfg, current, entries[i], Swept(cfg, current, entries[..i], n))
    ensures gone + Taken(cfg, current, entries[..i + 1]) ==
            gone + Taken(cfg, current, entries[..i]) + if Goes(cfg, current, entries[i]) then [entries[i].ref] else []
  {
    assert entries[..i + 1][..i] == entries[..i];
  }

  /** Every entry is counted once; and as many are deleted as are counted so. */
  lemma {:induction false} SweepConserves(cfg: Settings, current: Option<nat>, entries: seq<Listed>, n: Counts)
    ensures var m := Swept(cfg, current, entries, n);
            && m == n.(deleted := m.deleted, current := m.current, young := m.young, errors := m.errors)
            && m.deleted + m.current + m.young + m.errors == n.deleted + n.current + n.young + n.errors + |entries|
            && n.deleted <= m.deleted && n.current <= m.current && n.young <= m.young
            && n.errors <= m.errors && (cfg.dryRun ==> m.errors == n.errors)
            && |Taken(cfg, current, entries)| == if cfg.dryRun then 0 else m.deleted - n.deleted
  {
    if entries != [] {
      SweepConserves(cfg, current, entries[..|entries| - 1], n);
    }
  }

  /** Exactly the orphans go that the provider does not refuse; none in a dry run. */
  lemma {:induction false} TakesExactly(cfg: Settings, current: Option<nat>, entries: seq<Listed>, r: Ref)
    ensures r in Taken(cfg, current, entries) <==>
              exists i | 0 <= i < |entries| :: entries[i].ref == r && Goes(cfg, current, entries[i])
  {
    if entries != [] {
      var before, e := entries[..|entries| - 1], entries[|entries| - 1];
      TakesExactly(cfg, current, before, r);
      assert forall i | 0 <= i < |before| :: before[i] == entries[i];
    }
  }

  /** The rest of the listing that the key's HEAD did not show is dead, and stays so. */
  predicate AllDead(st: Store, entries: seq<Listed>, from: nat, current: Option<nat>) {
    forall i | from <= i < |entries| && Some(entries[i].ref.mid) != current :: Dead(st, entries[i].ref)
  }

  lemma StayDead(a: Store, b: Store, entries: seq<Listed>, from: nat, current: Option<nat>)
    requires StoreOk(a) && StoreOk(b) && Later(a, b) && AllDead(a, entries, from, current)
    ensures AllDead(b, entries, from, current)
  {
    forall i | from <= i < |entries| && Some(entries[i].ref.mid) != current
      ensures Dead(b, entries[i].ref)
    {
      LaterKeepsDead(a, b, entries[i].ref);
    }
  }

  /** One manifest of the listing, after whatever the others did. */
  method Judge(b: Bucket, cfg: Settings, entries: seq<Listed>, i: nat, current: Option<nat>, start: Counts)
    returns (n: Counts)
    requires i < |entries| && b.Held().Some? && AllDead(b.st, entries, i, current)
    modifies b
    ensures b.After(old(b.st)).Some? && AllDead(b.st, entries, i + 1, current)
    ensures n == Judged(cfg, current, entries[i], start) && old(b.history) <= b.history
    ensures b.gone == old(b.gone) + if Goes(cfg, current, entries[i]) then [entries[i].ref] else []
  {
    ghost var before := b.st;
    b.Others();
    StayDead(before, b.st, entries, i, current);
    var entry := entries[i];
    if Some(entry.ref.mid) == current {
      return start.(current := start.current + 1);
    } else if TooYoung(cfg, entry) {
      return start.(young := start.young + 1);
    } else if cfg.dryRun {
      return start.(deleted := start.deleted + 1);
    } else if cfg.refuses(entry.ref) {
      return start.(errors := start.errors + 1);
    }
    ghost var mid := b.st;
    b.Delete(entry.ref);
    AfterThen(b, before, mid);
    StayDead(mid, b.st, entries, i, current);
    return start.(deleted := start.deleted + 1);
  }

  /** collectKey, step 4. */
  method Sweep(b: Bucket, cfg: Settings, entries: seq<Listed>, current: Option<nat>, start: Counts)
    returns (n: Counts)
    requires b.Held().Some? && AllDead(b.st, entries, 0, current)
    modifies b
    ensures b.After(old(b.st)).Some? && old(b.history) <= b.history
    ensures n == Swept(cfg, current, entries, start)
    ensures b.gone == old(b.gone) + Taken(cfg, current, entries)
  {
    n := start;
    ghost var first := b.st;
    assert Later(first, first);
    for i := 0 to |entries|
      invariant b.After(first).Some? && AllDead(b.st, entries, i, current)
      invariant old(b.history) <= b.history
      invariant n == Swept(cfg, current, entries[..i], start)
      invariant b.gone == old(b.gone) + Taken(cfg, current, entries[..i])
    {
      ghost var before := b.st;
      n := Judge(b, cfg, entries, i, current, n);
      SweptNext(cfg, current, entries, i, start, old(b.gone));
      AfterThen(b, first, before);
    }
    assert entries[..|entries|] == entries;
  }

  // ----------------------------------------------------------------- one key

  predicate Homes(st: Store, entries: seq<Listed>, key: Key) {
    forall i | 0 <= i < |entries| :: entries[i].ref.key == key && Homed(st, entries[i].ref)
  }

  lemma StayHome(a: Store, b: Store, entries: seq<Listed>, key: Key)
    requires RelyHistory(a, b) && Homes(a, entries, key)
    ensures Homes(b, entries, key)
  {
    forall i | 0 <= i < |entries|
      ensures Homed(b, entries[i].ref)
    {
      assert Homed(a, entries[i].ref);
    }
  }

  predicate NoneOpen(st: Store, entries: seq<Listed>) {
    forall i | 0 <= i < |entries| :: Closed(st, entries[i].ref)
  }

  /** What was listed before the open uploads were, and belongs to none of them, can only
      be visible already. */
  lemma ListedClosed(st: Store, key: Key, entries: seq<Listed>)
    requires StoreOk(st) && Homes(st, entries, key) && NoOpenUpload(st, key)
    ensures NoneOpen(st, entries)
  {
    forall i | 0 <= i < |entries|
      ensures entries[i].ref.mid !in st.open
    {
      assert Homed(st, entries[i].ref);
    }
  }

  lemma StayClosed(a: Store, b: Store, entries: seq<Listed>)
    requires StoreOk(a) && StoreOk(b) && Later(a, b) && NoneOpen(a, entries)
    ensures NoneOpen(b, entries)
  {
    forall i | 0 <= i < |entries|
      ensures Closed(b, entries[i].ref)
    {
      LaterKeepsDead(a, b, entries[i].ref);
    }
  }

  /** What became of a key: the moment its uploads were listed, that of its HEAD and what
      that showed. */
  datatype Outcome =
    | Unreadable
    | Outside
    | UploadsFailed
    | Busy(looked: nat)
    | HeadFailed(looked: nat)
    | Collected(looked: nat, headed: nat, current: Option<nat>)

  /** The one outcome the answers allow. */
  predicate Caused(cfg: Settings, key: Key, history: seq<Store>, from: nat, o: Outcome) {
    if !cfg.resolves(key) then o.Unreadable?
    else if !cfg.prefixed(key) then o.Outside?
    else if cfg.uploadsFail(key) then o.UploadsFailed?
    else if o.Busy? then from <= o.looked < |history| && !NoOpenUpload(history[o.looked], key)
    else if cfg.headFails(key) then o.HeadFailed? && from <= o.looked < |history| && NoOpenUpload(history[o.looked], key)
    else && o.Collected? && from <= o.looked <= o.headed < |history| && NoOpenUpload(history[o.looked], key)
         && o.current == MidAt(history[o.headed], key)
  }

  function Tallied(cfg: Settings, entries: seq<Listed>, o: Outcome, n: Counts): Counts {
    match o
    case Unreadable => n.(unreadable := n.unreadable + |entries|)
    case Outside => n
    case UploadsFailed => n.(scanned := n.scanned + 1, errors := n.errors + 1)
    case Busy(_) => n.(scanned := n.scanned + 1, skipped := n.skipped + 1)
    case HeadFailed(_) => n.(scanned := n.scanned + 1, errors := n.errors + 1)
    case Collected(_, _, current) => Swept(cfg, current, entries, n.(scanned := n.scanned + 1))
  }

  function TakenBy(cfg: Settings, entries: seq<Listed>, o: Outcome): seq<Ref> {
    if o.Collected? then Taken(cfg, o.current, entries) else []
  }

  /** Step 2: an upload listing that shows none of the key licenses the rest. */
  method NoUploads(b: Bucket, key: Key, ghost entries: seq<Listed>) returns (clear: bool)
    requires StoreOk(b.st) && Homes(b.st, entries, key)
    ensures clear == NoOpenUpload(b.st, key)
    ensures clear ==> NoneOpen(b.st, entries)
  {
    clear := NoOpenUpload(b.st, key);
    if clear {
      ListedClosed(b.st, key, entries);
    }
  }

  /** Step 3: the manifest id of the visible version, some time after; whatever else was
      listed is then dead. */
  method HeadKey(b: Bucket, key: Key, ghost entries: seq<Listed>) returns (seen: Option<nat>)
    requires b.Held().Some? && Homes(b.st, entries, key) && NoneOpen(b.st, entries)
    modifies b`st, b`history
    ensures b.After(old(b.st)).Some? && b.history == old(b.history) + [b.st]
    ensures seen == MidAt(b.st, key) && AllDead(b.st, entries, 0, seen)
  {
    ghost var before := b.st;
    b.Others();
    StayClosed(before, b.st, entries);
    return MidAt(b.st, key);
  }

  /** Steps 3 and 4, with no upload of the key open. */
  method CollectClear(b: Bucket, cfg: Settings, key: Key, entries: seq<Listed>, start: Counts)
    returns (n: Counts, ghost current: Option<nat>)
    requires b.Held().Some? && Homes(b.st, entries, key) && NoneOpen(b.st, entries)
    modifies b
    ensures b.After(old(b.st)).Some? && |b.history| > |old(b.history)| && old(b.history) <= b.history
    ensures n == Swept(cfg, current, entries, start) && b.gone == old(b.gone) + Taken(cfg, current, entries)
    ensures current == MidAt(b.history[|old(b.history)|], key)
  {
    ghost var s0 := b.st;
    var seen := HeadKey(b, key, entries);
    ghost var s1, h1 := b.st, b.history;
    current := seen;
    n := Sweep(b, cfg, entries, seen, start);
    AfterThen(b, s0, s1);
  }

  /** From the upload listing on. */
  method CollectPrefixed(b: Bucket, cfg: Settings, key: Key, entries: seq<Listed>, start: Counts)
    returns (n: Counts, ghost o: Outcome)
    requires b.Held().Some? && Homes(b.st, entries, key) && cfg.resolves(key) && cfg.prefixed(key) && !cfg.uploadsFail(key)
    modifies b
    ensures b.After(old(b.st)).Some? && old(b.history) <= b.history
    ensures Caused(cfg, key, b.history, |old(b.history)| - 1, o)
    ensures n == Tallied(cfg, entries, o, start) && b.gone == old(b.gone) + TakenBy(cfg, entries, o)
  {
    n := start.(scanned := start.scanned + 1);
    ghost var looked := |b.history| - 1;
    assert Later(b.st, b.st);
    var clear := NoUploads(b, key, entries);
    if !clear {
      n, o := n.(skipped := n.skipped + 1), Busy(looked);
      return;
    }
    if cfg.headFails(key) {
      n, o := n.(errors := n.errors + 1), HeadFailed(looked);
      return;
    }
    ghost var current;
    n, current := CollectClear(b, cfg, key, entries, n);
    o := Collected(looked, looked + 1, current);
  }

  /** collectKey: uploads, then the HEAD, then the sweep, in that order, each some time
      after the one before it. */
  method CollectKey(b: Bucket, cfg: Settings, key: Key, entries: seq<Listed>, start: Counts)
    returns (n: Counts, ghost o: Outcome)
    requires b.Held().Some? && Homes(b.st, entries, key)
    modifies b
    ensures b.After(old(b.st)).Some? && old(b.history) <= b.history
    ensures Caused(cfg, key, b.history, |old(b.history)|, o)
    ensures n == Tallied(cfg, entries, o, start) && b.gone == old(b.gone) + TakenBy(cfg, entries, o)
  {
    n := start;
    ghost var s0 := b.st;
    b.Others();
    ghost var s1 := b.st;
    StayHome(s0, s1, entries, key);
    if !cfg.resolves(key) {
      n, o := n.(unreadable := n.unreadable + |entries|), Unreadable;
    } else if !cfg.prefixed(key) {
      o := Outside;
    } else if cfg.uploadsFail(key) {
      n, o := n.(scanned := n.scanned + 1, errors := n.errors + 1), UploadsFailed;
    } else {
      n, o := CollectPrefixed(b, cfg, key, entries, n);
      AfterThen(b, s0, s1);
    }
  }

  // ------------------------------------------------------------- the listing

  /** A listing's entries of one key, and how many belong to any of some keys. */
  function OfKey(listed: seq<Listed>, k: Key): seq<Listed> {
    if listed == [] then []
    else
      var e := listed[|listed| - 1];
      OfKey(listed[..|listed| - 1], k) + if e.ref.key == k then [e] else []
  }

  function Among(listed: seq<Listed>, keys: set<Key>): (n: nat)
    ensures n <= |listed|
  {
    if listed == [] then 0
    else Among(listed[..|listed| - 1], keys) + if listed[|listed| - 1].ref.key in keys then 1 else 0
  }

  lemma {:induction false} AmongSplit(listed: seq<Listed>, keys: set<Key>, k: Key)
    requires k in keys
    ensures Among(listed, keys) == Among(listed, keys - {k}) + |OfKey(listed, k)|
  {
    if listed != [] {
      AmongSplit(listed[..|listed| - 1], keys, k);
    }
  }

  function KeysOf(listed: seq<Listed>): set<Key> { set i | 0 <= i < |listed| :: listed[i].ref.key }

  lemma {:induction false} OfKeyThere(listed: seq<Listed>, k: Key)
    ensures OfKey(listed, k) != [] ==> k in KeysOf(listed)
  {
    if listed != [] {
      var before := listed[..|listed| - 1];
      OfKeyThere(before, k);
      if OfKey(before, k) != [] {
        var i :| 0 <= i < |before| && before[i].ref.key == k;
        assert listed[i].ref.key == k;
      } else if OfKey(listed, k) != [] {
        assert listed[|listed| - 1].ref.key == k;
      }
    }
  }

  /** The groups are the listing, split by key. */
  predicate Grouped(st: Store, listed: seq<Listed>, groups: map<Key, seq<Listed>>) {
    groups.Keys == KeysOf(listed) && forall k | k in groups :: groups[k] == OfKey(listed, k) && Homes(st, groups[k], k)
  }

  lemma StayGrouped(a: Store, b: Store, listed: seq<Listed>, groups: map<Key, seq<Listed>>)
    requires RelyHistory(a, b) && Grouped(a, listed, groups)
    ensures Grouped(b, listed, groups)
  {
    forall k | k in groups
      ensures Homes(b, groups[k], k)
    {
      StayHome(a, b, groups[k], k);
    }
  }

  lemma GroupedNext(st: Store, listed: seq<Listed>, groups: map<Key, seq<Listed>>, e: Listed)
    requires Grouped(st, listed, groups) && Homed(st, e.ref)
    ensures var k := e.ref.key;
            Grouped(st, listed + [e], groups[k := (if k in groups then groups[k] else []) + [e]])
  {
    var all := listed + [e];
    assert all[..|listed|] == listed;
    OfKeyThere(listed, e.ref.key);
    assert forall i | 0 <= i < |listed| :: all[i] == listed[i];
    assert all[|listed|] == e;
    assert KeysOf(all) == KeysOf(listed) + {e.ref.key};
  }

  predicate Lists(listed: seq<Listed>, r: Ref) { exists i | 0 <= i < |listed| :: listed[i].ref == r }

  predicate Unrepeated(listed: seq<Listed>) {
    forall i, j | 0 <= i < j < |listed| :: listed[i].ref != listed[j].ref
  }

  predicate PresentAt(history: seq<Store>, k: nat, r: Ref) { k < |history| && r in history[k].manifests }

  /** There all the time since the pass began, up to moment `end`. */
  predicate Throughout(history: seq<Store>, end: nat, r: Ref) { forall k | 0 <= k < end :: PresentAt(history, k, r) }

  predicate Once(history: seq<Store>, r: Ref) { exists k | 0 <= k < |history| :: PresentAt(history, k, r) }

  /** The listing up to a place in its order: nothing twice, nothing that was never there,
      everything that always was. */
  ghost predicate ListedBelow(history: seq<Store>, order: Ref -> nat, listed: seq<Listed>, bound: Option<nat>) {
    && Unrepeated(listed)
    && (forall i | 0 <= i < |listed| :: Below(order, bound, listed[i].ref) && Once(history, listed[i].ref))
    && (forall r: Ref | Throughout(history, |history|, r) && Below(order, bound, r) :: Lists(listed, r))
  }

  predicate Below(order: Ref -> nat, bound: Option<nat>, r: Ref) { bound.None? || order(r) < bound.value }

  /** Where a page begins and ends in the listing's order; the last has no end. */
  function PageStart(cuts: seq<nat>, p: nat): nat
    requires p <= |cuts|
  {
    if p == 0 then 0 else cuts[p - 1]
  }

  function Bound(cuts: seq<nat>, p: nat): Option<nat> {
    if p <= |cuts| then Some(PageStart(cuts, p)) else None
  }

  predicate OnPage(order: Ref -> nat, cuts: seq<nat>, p: nat, r: Ref)
    requires p <= |cuts|
  {
    PageStart(cuts, p) <= order(r) && Below(order, Bound(cuts, p + 1), r)
  }

  predicate Rising(cuts: seq<nat>) { forall i, j | 0 <= i < j < |cuts| :: cuts[i] <= cuts[j] }

  /** The entries of one page, in some order. */
  predicate PageListed(page: set<Ref>, stamp: Ref -> Option<int>, more: seq<Listed>) {
    && Unrepeated(more) && (forall r | r in page :: Lists(more, r))
    && forall i | 0 <= i < |more| :: more[i].ref in page && more[i].modified == stamp(more[i].ref)
  }

  /** One page of the listing joins the groups. */
  method AddPage(ghost st: Store, page: set<Ref>, stamp: Ref -> Option<int>, ghost listed: seq<Listed>,
                 groups: map<Key, seq<Listed>>)
    returns (next: map<Key, seq<Listed>>, ghost more: seq<Listed>)
    requires VisibleOk(st) && page <= st.manifests && Grouped(st, listed, groups)
    ensures Grouped(st, listed + more, next) && |more| == |page| && PageListed(page, stamp, more)
  {
    next, more := groups, [];
    assert listed + more == listed;
    var left := page;
    while left != {}
      invariant left <= page && |more| + |left| == |page| && Grouped(st, listed + more, next)
      invariant PageListed(page - left, stamp, more)
    {
      var r :| r in left;
      ghost var was := more;
      var e := Listed(r, stamp(r));
      GroupedNext(st, listed + more, next, e);
      assert listed + more + [e] == listed + (more + [e]);
      next := next[r.key := (if r.key in next then next[r.key] else []) + [e]];
      more := more + [e];
      PageNext(page - left, stamp, was, e);
      assert page - left + {r} == page - (left - {r});
      left := left - {r};
    }
    assert page - left == page;
  }

  lemma PageNext(page: set<Ref>, stamp: Ref -> Option<int>, more: seq<Listed>, e: Listed)
    requires PageListed(page, stamp, more) && e.ref !in page && e.modified == stamp(e.ref)
    ensures PageListed(page + {e.ref}, stamp, more + [e])
  {
    var next := more + [e];
    forall r | r in page + {e.ref}
      ensures Lists(next, r)
    {
      if r == e.ref {
        assert next[|more|].ref == r;
      } else {
        var i :| 0 <= i < |more| && more[i].ref == r;
        assert next[i].ref == r;
      }
    }
  }

  lemma ListedMore(history: seq<Store>, st: Store, order: Ref -> nat, cuts: seq<nat>, p: nat, listed: seq<Listed>,
                   stamp: Ref -> Option<int>, page: set<Ref>, more: seq<Listed>)
    requires Rising(cuts) && p <= |cuts| && ListedBelow(history, order, listed, Some(PageStart(cuts, p)))
    requires page == set r | r in st.manifests && OnPage(order, cuts, p, r)
    requires PageListed(page, stamp, more)
    ensures ListedBelow(history + [st], order, listed + more, Bound(cuts, p + 1))
  {
    var all, longer, end := listed + more, history + [st], Bound(cuts, p + 1);
    forall i | 0 <= i < |all|
      ensures Below(order, end, all[i].ref) && Once(longer, all[i].ref)
    {
      if i < |listed| {
        assert Once(history, listed[i].ref);
        var k :| 0 <= k < |history| && PresentAt(history, k, listed[i].ref);
        assert PresentAt(longer, k, all[i].ref);
      } else {
        assert all[i] == more[i - |listed|];
        assert PresentAt(longer, |history|, all[i].ref);
      }
    }
    forall r: Ref | Throughout(longer, |longer|, r) && Below(order, end, r)
      ensures Lists(all, r)
    {
      if order(r) < PageStart(cuts, p) {
        StillThroughout(history, st, r);
        var i :| 0 <= i < |listed| && listed[i].ref == r;
        assert all[i].ref == r;
      } else {
        assert PresentAt(longer, |history|, r);
        assert r in page && Lists(more, r);
        var i :| 0 <= i < |more| && more[i].ref == r;
        assert all[|listed| + i].ref == r;
      }
    }
    forall i, j | 0 <= i < j < |all|
      ensures all[i].ref != all[j].ref
    {
      if i < |listed| <= j {
        assert Below(order, Some(PageStart(cuts, p)), listed[i].ref) && more[j - |listed|].ref in page;
      }
    }
  }

  lemma StillThroughout(history: seq<Store>, st: Store, r: Ref)
    requires Throughout(history + [st], |history| + 1, r)
    ensures Throughout(history, |history|, r)
  {
    forall k | 0 <= k < |history|
      ensures PresentAt(history, k, r)
    {
      assert PresentAt(history + [st], k, r);
    }
  }

  predicate Stamped(stamp: Ref -> Option<int>, listed: seq<Listed>) {
    forall i | 0 <= i < |listed| :: listed[i].modified == stamp(listed[i].ref)
  }

  /** How many manifests are listed, provided the listing and its groups are right so far. */
  ghost function Listing(st: Store, history: seq<Store>, order: Ref -> nat, stamp: Ref -> Option<int>,
                         listed: seq<Listed>, groups: map<Key, seq<Listed>>, bound: Option<nat>): Option<nat> {
    if Grouped(st, listed, groups) && ListedBelow(history, order, listed, bound) && Stamped(stamp, listed)
    then Some(|listed|) else None
  }

  /** Some page before this one fails. */
  predicate Fails(cfg: Settings, p: nat) { cfg.badPage.Some? && cfg.badPage.value < p }

  lemma ListingStart(st: Store, history: seq<Store>, order: Ref -> nat, stamp: Ref -> Option<int>)
    ensures Listing(st, history, order, stamp, [], map[], Some(0)) == Some(0)
  {
  }

  /** listManifests: page after page in the listing's order, each what was there when it was
      read, grouped by key; or nothing, if a page fails. */
  method ListManifests(b: Bucket, cfg: Settings, order: Ref -> nat, cuts: seq<nat>, stamp: Ref -> Option<int>)
    returns (r: Option<map<Key, seq<Listed>>>, n: Counts, ghost listed: seq<Listed>)
    requires b.Held().Some? && |b.history| == 1 && Rising(cuts)
    modifies b`st, b`history
    ensures b.After(old(b.st)).Some?
    ensures r.None? <==> Fails(cfg, |cuts| + 1)
    ensures r.Some? ==> Listing(b.st, b.history, order, stamp, listed, r.value, None) == Some(n.seen)
    ensures n == NoCounts.(seen := n.seen)
  {
    var pages := if Fails(cfg, |cuts| + 1) then cfg.badPage.value else |cuts| + 1;
    var groups: map<Key, seq<Listed>> := map[];
    n, listed := NoCounts, [];
    ghost var first := b.st;
    assert Later(first, first);
    ListingStart(b.st, b.history, order, stamp);
    for p := 0 to pages
      invariant b.After(first).Some? && n == NoCounts.(seen := n.seen)
      invariant Listing(b.st, b.history, order, stamp, listed, groups, Bound(cuts, p)) == Some(n.seen)
    {
      ghost var before := b.st;
      groups, n, listed := ReadPage(b, order, cuts, p, stamp, listed, groups, n);
      AfterThen(b, first, before);
    }
    r := if pages <= |cuts| then None else Some(groups);
  }

  method ReadPage(b: Bucket, order: Ref -> nat, cuts: seq<nat>, p: nat, stamp: Ref -> Option<int>,
                  ghost listed: seq<Listed>, groups: map<Key, seq<Listed>>, start: Counts)
    returns (next: map<Key, seq<Listed>>, n: Counts, ghost longer: seq<Listed>)
    requires b.Held().Some? && Rising(cuts) && p <= |cuts|
    requires Listing(b.st, b.history, order, stamp, listed, groups, Some(PageStart(cuts, p))) == Some(start.seen)
    modifies b`st, b`history
    ensures b.After(old(b.st)).Some? && n == start.(seen := n.seen)
    ensures Listing(b.st, b.history, order, stamp, longer, next, Bound(cuts, p + 1)) == Some(n.seen)
  {
    ghost var before, history := b.st, b.history;
    b.Others();
    StayGrouped(before, b.st, listed, groups);
    var page := set r | r in b.st.manifests && OnPage(order, cuts, p, r);
    ghost var more;
    next, more := AddPage(b.st, page, stamp, listed, groups);
    n := start.(seen := start.seen + |page|);
    ListedMore(history, b.st, order, cuts, p, listed, stamp, page, more);
    longer := listed + more;
  }

  // ------------------------------------------------------------ a whole pass

  /** The keys done, in the order they were, with what became of each. */
  datatype Done = Done(key: Key, outcome: Outcome)

  function Tally(cfg: Settings, listed: seq<Listed>, done: seq<Done>, n: Counts): Counts {
    if done == [] then n
    else
      var d := done[|done| - 1];
      Tallied(cfg, OfKey(listed, d.key), d.outcome, Tally(cfg, listed, done[..|done| - 1], n))
  }

  function AllTaken(cfg: Settings, listed: seq<Listed>, done: seq<Done>): seq<Ref> {
    if done == [] then []
    else
      var d := done[|done| - 1];
      AllTaken(cfg, listed, done[..|done| - 1]) + TakenBy(cfg, OfKey(listed, d.key), d.outcome)
  }

  /** Each key listed is done once, as the answers had it. */
  predicate AllDone(cfg: Settings, history: seq<Store>, keys: set<Key>, done: seq<Done>) {
    && (forall k | k in keys :: DoneWith(done, k))
    && (forall i | 0 <= i < |done| :: done[i].key in keys && Caused(cfg, done[i].key, history, 1, done[i].outcome))
    && (forall i, j | 0 <= i < j < |done| :: done[i].key != done[j].key)
  }

  predicate DoneWith(done: seq<Done>, k: Key) { exists i | 0 <= i < |done| :: done[i].key == k }

  lemma DoneNext(cfg: Settings, history: seq<Store>, longer: seq<Store>, from: nat, keys: set<Key>, done: seq<Done>, d: Done)
    requires AllDone(cfg, history, keys, done) && history <= longer && d.key !in keys && 1 <= from
    requires Caused(cfg, d.key, longer, from, d.outcome)
    ensures AllDone(cfg, longer, keys + {d.key}, done + [d])
  {
    var all := done + [d];
    forall k | k in keys + {d.key}
      ensures DoneWith(all, k)
    {
      if k == d.key {
        assert all[|done|].key == k;
      } else {
        var i :| 0 <= i < |done| && done[i].key == k;
        assert all[i].key == k;
      }
    }
  }

  /** The manifests a pass accounts for. */
  function Settled(n: Counts): nat { n.deleted + n.current + n.young + n.unreadable }

  lemma TalliedSettles(cfg: Settings, entries: seq<Listed>, o: Outcome, n: Counts)
    ensures var m := Tallied(cfg, entries, o, n);
            && Settled(n) <= Settled(m) <= Settled(n) + |entries| && m.seen == n.seen
            && (o.Unreadable? ==> Settled(m) == Settled(n) + |entries|)
            && (o.Collected? ==> Settled(m) + m.errors == Settled(n) + n.errors + |entries|)
            && |TakenBy(cfg, entries, o)| == if cfg.dryRun then 0 else m.deleted - n.deleted
  {
    if o.Collected? {
      SweepConserves(cfg, o.current, entries, n.(scanned := n.scanned + 1));
    }
  }

  /** How many keys are done, provided they were done as the answers had it and the counts
      and the deletions are theirs. */
  ghost function Progress(cfg: Settings, history: seq<Store>, listed: seq<Listed>, left: set<Key>, done: seq<Done>,
                          n: Counts, gone: seq<Ref>): Option<nat> {
    if && left <= KeysOf(listed) && AllDone(cfg, history, KeysOf(listed) - left, done)
       && n == Tally(cfg, listed, done, NoCounts.(seen := |listed|)) && gone == AllTaken(cfg, listed, done)
       && Settled(n) + Among(listed, left) <= n.seen && |gone| == (if cfg.dryRun then 0 else n.deleted)
    then Some(|done|) else None
  }

  lemma {:induction false} ProgressNext(cfg: Settings, history: seq<Store>, longer: seq<Store>, listed: seq<Listed>,
                                        left: set<Key>, done: seq<Done>, n: Counts, gone: seq<Ref>, d: Done)
    requires Progress(cfg, history, listed, left, done, n, gone).Some? && d.key in left && |history| > 0
    requires history <= longer && Caused(cfg, d.key, longer, |history|, d.outcome)
    ensures var entries := OfKey(listed, d.key);
            Progress(cfg, longer, listed, left - {d.key}, done + [d], Tallied(cfg, entries, d.outcome, n),
                     gone + TakenBy(cfg, entries, d.outcome)).Some?
  {
    AmongSplit(listed, left, d.key);
    TalliedSettles(cfg, OfKey(listed, d.key), d.outcome, n);
    DoneNext(cfg, history, longer, |history|, KeysOf(listed) - left, done, d);
    assert (done + [d])[..|done|] == done;
    assert KeysOf(listed) - left + {d.key} == KeysOf(listed) - (left - {d.key});
  }

  /** Key after key. */
  method CollectAll(b: Bucket, cfg: Settings, ghost listed: seq<Listed>, groups: map<Key, seq<Listed>>, start: Counts)
    returns (n: Counts, ghost done: seq<Done>)
    requires b.Held().Some? && b.gone == [] && Grouped(b.st, listed, groups) && start == NoCounts.(seen := |listed|)
    modifies b
    ensures b.After(old(b.st)).Some? && old(b.history) <= b.history
    ensures Progress(cfg, b.history, listed, {}, done, n, b.gone).Some?
  {
    n, done := start, [];
    ghost var first := b.st;
    assert Later(first, first);
    var left := groups.Keys;
    while left != {}
      invariant left <= groups.Keys && b.After(first).Some? && Grouped(b.st, listed, groups)
      invariant old(b.history) <= b.history && Progress(cfg, b.history, listed, left, done, n, b.gone).Some?
    {
      var key :| key in left;
      ghost var before, was, history, gone := b.st, n, b.history, b.gone;
      ghost var o;
      n, o := CollectKey(b, cfg, key, groups[key], n);
      AfterThen(b, first, before);
      StayGrouped(before, b.st, listed, groups);
      ProgressNext(cfg, history, b.history, listed, left, done, was, gone, Done(key, o));
      left := left - {key};
      done := done + [Done(key, o)];
    }
  }
}
