/**
Tag sidecars of one key, in time.  A PUT opens no upload, so between the write of
its sidecar and the write of its object only gc's minimum age protects the
sidecar; an upload's is protected by the open upload once that exists.

Clocks agree, and the age guard is on.  `dPut` bounds a PUT's delay from sidecar
to object, `dCreate` an upload's from sidecar to CreateMultipartUpload, `dHead`
and `dList` gc's from its HEAD, and from its list of open uploads, to its age
check.
*/
module Sidecars {
  import opened Base

  datatype Config = Config(minAge: nat, dPut: nat, dHead: nat, dCreate: nat, dList: nat)

  /** A version, named by the binding of its wrapped data key, and the moments its
      steps were taken. */
  datatype Status =
    | PutPending(at: nat)
    | PutLanded(at: nat, landed: nat)
    | UpPending(at: nat)
    | UpOpen(at: nat, created: nat)
    | UpLanded(at: nat, created: nat)
    | Dropped(at: nat)

  /** One gc pass over the key.  `refs` is what the listing reported of each
      sidecar: when it was modified. */
  datatype Pass =
    | Listed(refs: map<nat, nat>)
    | Clear(refs: map<nat, nat>, listedAt: nat)
    | Headed(refs: map<nat, nat>, listedAt: nat, headAt: nat, current: Option<nat>, doomed: set<nat>)

  datatype State = State(
    now: nat, versions: map<nat, Status>, sidecars: map<nat, nat>, visible: Option<nat>, passes: map<nat, Pass>)

  datatype Step =
    | Tick(d: nat)
    | PutTags(b: nat)
    | PutWrite(b: nat)
    | UpTags(b: nat)
    | UpCreate(b: nat)
    | UpComplete(b: nat)
    | UpAbort(b: nat)
    | DelRemove
    | GcStepOne(g: nat, page: set<nat>)
    | GcStepTwo(g: nat)
    | GcHead(g: nat)
    | GcJudge(g: nat, b: nat)
    | GcDelete(g: nat, b: nat)

  /** tooYoung: modified after now minus the minimum age. */
  predicate TooYoung(c: Config, s: State, modified: nat) {
    modified > s.now - c.minAge
  }

  predicate Enabled(c: Config, s: State, step: Step) {
    match step
    case Tick(_) => true
    case PutTags(b) => b !in s.versions
    case PutWrite(b) => b in s.versions && s.versions[b].PutPending? && s.now <= s.versions[b].at + c.dPut
    case UpTags(b) => b !in s.versions
    case UpCreate(b) => b in s.versions && s.versions[b].UpPending? && s.now <= s.versions[b].at + c.dCreate
    case UpComplete(b) => b in s.versions && s.versions[b].UpOpen?
    case UpAbort(b) => b in s.versions && s.versions[b].UpOpen?
    case DelRemove => true
    case GcStepOne(_, page) => page <= s.sidecars.Keys
    case GcStepTwo(g) =>
      g in s.passes && s.passes[g].Listed? && forall b | b in s.versions :: !s.versions[b].UpOpen?
    case GcHead(g) => g in s.passes && s.passes[g].Clear?
    case GcJudge(g, b) =>
      && g in s.passes && s.passes[g].Headed?
      && (var p := s.passes[g];
          && b in p.refs && p.current != Some(b) && !TooYoung(c, s, p.refs[b])
          && s.now <= p.headAt + c.dHead && s.now <= p.listedAt + c.dList)
    case GcDelete(g, b) => g in s.passes && s.passes[g].Headed? && b in s.passes[g].doomed
  }

  function Next(c: Config, s: State, step: Step): State
    requires Enabled(c, s, step)
  {
    match step
    case Tick(d) => s.(now := s.now + d)
    case PutTags(b) => s.(versions := s.versions[b := PutPending(s.now)], sidecars := s.sidecars[b := s.now])
    case PutWrite(b) => s.(versions := s.versions[b := PutLanded(s.versions[b].at, s.now)], visible := Some(b))
    case UpTags(b) => s.(versions := s.versions[b := UpPending(s.now)], sidecars := s.sidecars[b := s.now])
    case UpCreate(b) => s.(versions := s.versions[b := UpOpen(s.versions[b].at, s.now)])
    case UpComplete(b) =>
      s.(versions := s.versions[b := UpLanded(s.versions[b].at, s.versions[b].created)], visible := Some(b))
    case UpAbort(b) => s.(versions := s.versions[b := Dropped(s.versions[b].at)])
    case DelRemove => s.(visible := None)
    case GcStepOne(g, page) => s.(passes := s.passes[g := Listed(map b | b in page :: s.sidecars[b])])
    case GcStepTwo(g) => s.(passes := s.passes[g := Clear(s.passes[g].refs, s.now)])
    case GcHead(g) =>
      s.(passes := s.passes[g := Headed(s.passes[g].refs, s.passes[g].listedAt, s.now, s.visible, {})])
    case GcJudge(g, b) => s.(passes := s.passes[g := s.passes[g].(doomed := s.passes[g].doomed + {b})])
    case GcDelete(g, b) => s.(sidecars := s.sidecars - {b})
  }

  predicate Runs(c: Config, s: State, steps: seq<Step>)
    decreases |steps|
  {
    steps == [] || (Enabled(c, s, steps[0]) && Runs(c, Next(c, s, steps[0]), steps[1..]))
  }

  function Final(c: Config, s: State, steps: seq<Step>): State
    requires Runs(c, s, steps)
    decreases |steps|
  {
    if steps == [] then s else Final(c, Next(c, s, steps[0]), steps[1..])
  }

  const Start := State(0, map[], map[], None, map[])

  /** A visible version written with tags has its sidecar (invariant I3). */
  predicate Tagged(s: State) {
    s.visible.Some? ==> s.visible.value in s.sidecars
  }

  // -------------------------------------------------------------- invariant

  predicate InTime(c: Config, v: Status) {
    match v
    case PutLanded(at, landed) => landed <= at + c.dPut
    case UpOpen(at, created) => created <= at + c.dCreate
    case UpLanded(at, created) => created <= at + c.dCreate
    case _ => true
  }

  /** Not visible, and never going to be. */
  predicate Dead(c: Config, s: State, b: nat) {
    && s.visible != Some(b) && b in s.versions
    && match s.versions[b]
       case PutPending(at) => at + c.dPut < s.now
       case UpPending(at) => at + c.dCreate < s.now
       case UpOpen(_, _) => false
       case _ => true
  }

  /** What a pass knows of a listed sidecar that was not current at its HEAD: if
      its version is visible now, it landed after the HEAD, or was created after
      the open uploads were listed. */
  predicate Late(s: State, p: Pass, b: nat)
    requires b in s.versions
  {
    match s.versions[b]
    case PutLanded(_, landed) => p.Headed? && p.current != Some(b) && s.visible == Some(b) ==> p.headAt <= landed
    case UpOpen(_, created) => p.Clear? || p.Headed? ==> p.listedAt <= created
    case UpLanded(_, created) => p.Headed? && p.current != Some(b) && s.visible == Some(b) ==> p.listedAt <= created
    case _ => true
  }

  predicate PassOk(c: Config, s: State, p: Pass) {
    && (p.Clear? || p.Headed? ==> p.listedAt <= s.now)
    && (p.Headed? ==> p.listedAt <= p.headAt <= s.now && forall b | b in p.doomed :: Dead(c, s, b))
    && forall b | b in p.refs :: b in s.versions && p.refs[b] == s.versions[b].at && Late(s, p, b)
  }

  predicate VersionsOk(c: Config, s: State) {
    && (forall b | b in s.versions :: s.versions[b].at <= s.now && InTime(c, s.versions[b]))
    && (forall b | b in s.sidecars :: b in s.versions && s.sidecars[b] == s.versions[b].at)
    && (s.visible.Some? ==> s.visible.value in s.versions
                            && (s.versions[s.visible.value].PutLanded? || s.versions[s.visible.value].UpLanded?))
    && (forall b | b in s.versions && b !in s.sidecars :: Dead(c, s, b))
  }

  predicate Inv(c: Config, s: State) {
    VersionsOk(c, s) && forall g | g in s.passes :: PassOk(c, s, s.passes[g])
  }

  /** The minimum age covers both windows.  A pass lists the uploads before its HEAD, so
      whichever of its two delays is the shorter limits the first. */
  predicate Safe(c: Config) {
    && c.dPut + (if c.dHead < c.dList then c.dHead else c.dList) < c.minAge
    && c.dCreate + c.dList < c.minAge
  }

  /** The heart of it: what is past the minimum age and was not current at the
      HEAD could only have become visible before the HEAD. */
  lemma JudgedIsDead(c: Config, s: State, g: nat, b: nat)
    requires Safe(c) && Inv(c, s) && Enabled(c, s, GcJudge(g, b))
    ensures Dead(c, s, b)
  {
    assert PassOk(c, s, s.passes[g]);
  }

  lemma DeadForever(c: Config, s: State, step: Step, b: nat)
    requires Enabled(c, s, step) && Dead(c, s, b)
    ensures Dead(c, Next(c, s, step), b)
  {
  }

  lemma VersionsKept(c: Config, s: State, step: Step)
    requires VersionsOk(c, s) && Enabled(c, s, step)
    requires step.GcDelete? ==> Dead(c, s, step.b)
    ensures VersionsOk(c, Next(c, s, step))
  {
    var n := Next(c, s, step);
    forall b | b in n.versions && b !in n.sidecars
      ensures Dead(c, n, b)
    {
      DeadForever(c, s, step, b);
    }
  }

  /** What one pass knows survives every step of the others. */
  lemma PassKept(c: Config, s: State, step: Step, p: Pass)
    requires VersionsOk(c, s) && Enabled(c, s, step) && PassOk(c, s, p)
    ensures PassOk(c, Next(c, s, step), p)
  {
    var n := Next(c, s, step);
    if p.Headed? {
      forall b | b in p.doomed
        ensures Dead(c, n, b)
      {
        DeadForever(c, s, step, b);
      }
    }
    forall b | b in p.refs
      ensures b in n.versions && p.refs[b] == n.versions[b].at && Late(n, p, b)
    {
      assert Late(s, p, b);
    }
  }

  lemma Preserved(c: Config, s: State, step: Step)
    requires Safe(c) && Inv(c, s) && Enabled(c, s, step)
    ensures Inv(c, Next(c, s, step))
  {
    var n := Next(c, s, step);
    if step.GcJudge? {
      JudgedIsDead(c, s, step.g, step.b);
    } else if step.GcDelete? {
      assert PassOk(c, s, s.passes[step.g]);
    }
    VersionsKept(c, s, step);
    forall g | g in n.passes
      ensures PassOk(c, n, n.passes[g])
    {
      if g in s.passes && n.passes[g] == s.passes[g] {
        PassKept(c, s, step, s.passes[g]);
      } else if !step.GcStepOne? {
        PassKept(c, s, step, s.passes[g]);
      }
    }
  }

  lemma {:induction false} InvThroughout(c: Config, s: State, steps: seq<Step>)
    requires Safe(c) && Inv(c, s) && Runs(c, s, steps)
    ensures Inv(c, Final(c, s, steps))
    decreases |steps|
  {
    if steps != [] {
      Preserved(c, s, steps[0]);
      InvThroughout(c, Next(c, s, steps[0]), steps[1..]);
    }
  }

  /** Within the bounds, gc takes no visible version's sidecar. */
  lemma VisibleKeepsTags(c: Config, steps: seq<Step>)
    requires Safe(c) && Runs(c, Start, steps)
    ensures Tagged(Final(c, Start, steps))
  {
    InvThroughout(c, Start, steps);
  }

  lemma Before(c: Config, s: State, step: Step, rest: seq<Step>, f: State)
    requires Enabled(c, s, step) && Runs(c, Next(c, s, step), rest) && Final(c, Next(c, s, step), rest) == f
    ensures Runs(c, s, [step] + rest) && Final(c, s, [step] + rest) == f
  {
    assert ([step] + rest)[1..] == rest;
  }

  /** From a HEAD just before the object lands, the age check may fall after it. */
  lemma LandsAfterHead(c: Config, wait: nat, s: State, f: State) returns (steps: seq<Step>)
    requires wait <= c.dPut && wait <= c.minAge <= wait + c.dHead && c.minAge <= wait + c.dList
    requires s == State(wait, map[0 := PutPending(0)], map[0 := 0], None,
                        map[0 := Headed(map[0 := 0], wait, wait, None, {})])
    requires f == State(c.minAge, map[0 := PutLanded(0, wait)], map[], Some(0),
                        map[0 := Headed(map[0 := 0], wait, wait, None, {0})])
    ensures Runs(c, s, steps) && Final(c, s, steps) == f
  {
    var s1 := Next(c, s, PutWrite(0));
    var s2 := Next(c, s1, Tick(c.minAge - wait));
    var s3 := Next(c, s2, GcJudge(0, 0));
    assert s3.sidecars - {0} == map[];
    assert s3.versions == f.versions;
    assert s3.passes[0] == f.passes[0] && s3.passes == f.passes;
    Before(c, s3, GcDelete(0, 0), [], f);
    Before(c, s2, GcJudge(0, 0), [GcDelete(0, 0)] + [], f);
    Before(c, s1, Tick(c.minAge - wait), [GcJudge(0, 0)] + ([GcDelete(0, 0)] + []), f);
    steps := [PutWrite(0)] + ([Tick(c.minAge - wait)] + ([GcJudge(0, 0)] + ([GcDelete(0, 0)] + [])));
    Before(c, s, PutWrite(0), [Tick(c.minAge - wait)] + ([GcJudge(0, 0)] + ([GcDelete(0, 0)] + [])), f);
  }

  /** With the delays to spare, a PUT's tags are lost. */
  lemma PutLosesTags(c: Config) returns (steps: seq<Step>)
    requires c.dPut + c.dHead >= c.minAge && c.dPut + c.dList >= c.minAge
    ensures Runs(c, Start, steps) && !Tagged(Final(c, Start, steps))
  {
    var wait := if c.dPut < c.minAge then c.dPut else c.minAge;
    var s1 := Next(c, Start, PutTags(0));
    var s2 := Next(c, s1, Tick(wait));
    var s3 := Next(c, s2, GcStepOne(0, {0}));
    var s4 := Next(c, s3, GcStepTwo(0));
    var s5 := Next(c, s4, GcHead(0));
    assert s5.passes[0].refs == map[0 := 0];
    var f := State(c.minAge, map[0 := PutLanded(0, wait)], map[], Some(0),
                   map[0 := Headed(map[0 := 0], wait, wait, None, {0})]);
    var t5 := LandsAfterHead(c, wait, s5, f);
    Before(c, s4, GcHead(0), t5, f);
    var t4 := [GcHead(0)] + t5;
    Before(c, s3, GcStepTwo(0), t4, f);
    var t3 := [GcStepTwo(0)] + t4;
    Before(c, s2, GcStepOne(0, {0}), t3, f);
    var t2 := [GcStepOne(0, {0})] + t3;
    Before(c, s1, Tick(wait), t2, f);
    var t1 := [Tick(wait)] + t2;
    Before(c, Start, PutTags(0), t1, f);
    steps := [PutTags(0)] + t1;
  }

  /** From a HEAD while the upload is open, the age check may fall after its completion. */
  lemma CompletesAfterHead(c: Config, wait: nat, s: State, f: State) returns (steps: seq<Step>)
    requires wait <= c.minAge <= wait + c.dList
    requires s == State(c.minAge, map[0 := UpOpen(0, wait)], map[0 := 0], None,
                        map[0 := Clear(map[0 := 0], wait)])
    requires f == State(c.minAge, map[0 := UpLanded(0, wait)], map[], Some(0),
                        map[0 := Headed(map[0 := 0], wait, c.minAge, None, {0})])
    ensures Runs(c, s, steps) && Final(c, s, steps) == f
  {
    var s1 := Next(c, s, GcHead(0));
    var s2 := Next(c, s1, UpComplete(0));
    var s3 := Next(c, s2, GcJudge(0, 0));
    assert s3.sidecars - {0} == map[];
    assert s3.versions == f.versions;
    assert s3.passes[0] == f.passes[0] && s3.passes == f.passes;
    Before(c, s3, GcDelete(0, 0), [], f);
    Before(c, s2, GcJudge(0, 0), [GcDelete(0, 0)] + [], f);
    Before(c, s1, UpComplete(0), [GcJudge(0, 0)] + ([GcDelete(0, 0)] + []), f);
    steps := [GcHead(0)] + ([UpComplete(0)] + ([GcJudge(0, 0)] + ([GcDelete(0, 0)] + [])));
    Before(c, s, GcHead(0), [UpComplete(0)] + ([GcJudge(0, 0)] + ([GcDelete(0, 0)] + [])), f);
  }

  /** And an upload's, created just after the uploads were listed. */
  lemma UploadLosesTags(c: Config) returns (steps: seq<Step>)
    requires c.dCreate + c.dList >= c.minAge
    ensures Runs(c, Start, steps) && !Tagged(Final(c, Start, steps))
  {
    var wait := if c.dCreate < c.minAge then c.dCreate else c.minAge;
    var s1 := Next(c, Start, UpTags(0));
    var s2 := Next(c, s1, Tick(wait));
    var s3 := Next(c, s2, GcStepOne(0, {0}));
    var s4 := Next(c, s3, GcStepTwo(0));
    var s5 := Next(c, s4, UpCreate(0));
    var s6 := Next(c, s5, Tick(c.minAge - wait));
    assert s6.passes[0].refs == map[0 := 0];
    var f := State(c.minAge, map[0 := UpLanded(0, wait)], map[], Some(0),
                   map[0 := Headed(map[0 := 0], wait, c.minAge, None, {0})]);
    var t6 := CompletesAfterHead(c, wait, s6, f);
    Before(c, s5, Tick(c.minAge - wait), t6, f);
    var t5 := [Tick(c.minAge - wait)] + t6;
    Before(c, s4, UpCreate(0), t5, f);
    var t4 := [UpCreate(0)] + t5;
    Before(c, s3, GcStepTwo(0), t4, f);
    var t3 := [GcStepTwo(0)] + t4;
    Before(c, s2, GcStepOne(0, {0}), t3, f);
    var t2 := [GcStepOne(0, {0})] + t3;
    Before(c, s1, Tick(wait), t2, f);
    var t1 := [Tick(wait)] + t2;
    Before(c, Start, UpTags(0), t1, f);
    steps := [UpTags(0)] + t1;
  }

  /** The bounds are exact: every run keeps the tags of what is visible if and only if the
      minimum age covers both windows. */
  lemma TagsKeptExactly(c: Config)
    ensures (forall steps :: Runs(c, Start, steps) ==> Tagged(Final(c, Start, steps))) <==> Safe(c)
  {
    if Safe(c) {
      forall steps | Runs(c, Start, steps)
        ensures Tagged(Final(c, Start, steps))
      {
        VisibleKeepsTags(c, steps);
      }
    } else if c.dCreate + c.dList >= c.minAge {
      var steps := UploadLosesTags(c);
    } else {
      var steps := PutLosesTags(c);
    }
  }
}
