/**
Completion requests of one multipart upload, with the part lists they name.  Any
number of them may hold the upload's token; each writes its own list as the
manifest under the one id the upload has, and asks the provider to assemble it.
*/
module Completions {
  import opened Base
  import opened Manifest

  type PartList = seq<Part>

  /** A request: its list matched against the stored parts, its manifest written. */
  datatype Request = Matched(parts: PartList) | Written(parts: PartList)

  datatype State = State(open: bool, manifest: Option<PartList>, visible: Option<PartList>, requests: map<nat, Request>)

  datatype Step = ListParts(p: nat, parts: PartList) | PutManifest(p: nat) | Complete(p: nat, keep: bool) | Abort

  const Start := State(true, None, None, map[])

  /** `named` are the part lists clients name. */
  predicate Enabled(named: set<PartList>, s: State, step: Step) {
    match step
    case ListParts(_, parts) => s.open && parts in named
    case PutManifest(p) => p in s.requests && s.requests[p].Matched?
    case Complete(p, _) => s.open && p in s.requests && s.requests[p].Written?
    case Abort => true
  }

  function Next(named: set<PartList>, s: State, step: Step): State
    requires Enabled(named, s, step)
  {
    match step
    case ListParts(p, parts) => s.(requests := s.requests[p := Matched(parts)])
    case PutManifest(p) =>
      s.(manifest := Some(s.requests[p].parts), requests := s.requests[p := Written(s.requests[p].parts)])
    case Complete(p, keep) => s.(open := false, visible := if keep then Some(s.requests[p].parts) else s.visible)
    case Abort => s.(open := false)
  }

  predicate Runs(named: set<PartList>, s: State, steps: seq<Step>)
    decreases |steps|
  {
    steps == [] || (Enabled(named, s, steps[0]) && Runs(named, Next(named, s, steps[0]), steps[1..]))
  }

  function Final(named: set<PartList>, s: State, steps: seq<Step>): State
    requires Runs(named, s, steps)
    decreases |steps|
  {
    if steps == [] then s else Final(named, Next(named, s, steps[0]), steps[1..])
  }

  /** What is visible has the manifest that lists its parts. */
  predicate Readable(s: State) { s.visible.Some? ==> s.manifest == s.visible }

  /** With one list there is one manifest to write. */
  predicate Agrees(s: State, parts: PartList) {
    && (s.manifest.Some? ==> s.manifest.value == parts) && (s.visible.Some? ==> s.manifest == s.visible)
    && (forall p | p in s.requests :: s.requests[p].parts == parts)
    && (forall p | p in s.requests && s.requests[p].Written? :: s.manifest.Some?)
  }

  lemma {:induction false} AgreesThroughout(named: set<PartList>, s: State, steps: seq<Step>, parts: PartList)
    requires Runs(named, s, steps) && Agrees(s, parts) && forall l | l in named :: l == parts
    ensures Agrees(Final(named, s, steps), parts)
    decreases |steps|
  {
    if steps != [] {
      AgreesThroughout(named, Next(named, s, steps[0]), steps[1..], parts);
    }
  }

  lemma Before(named: set<PartList>, s: State, step: Step, rest: seq<Step>)
    requires Enabled(named, s, step) && Runs(named, Next(named, s, step), rest)
    ensures Runs(named, s, [step] + rest)
    ensures Final(named, s, [step] + rest) == Final(named, Next(named, s, step), rest)
  {
    assert ([step] + rest)[1..] == rest;
  }

  /** Two requests with two lists: the second writes its manifest over the first's before
      the first completes. */
  lemma Overwritten(named: set<PartList>, a: PartList, b: PartList) returns (steps: seq<Step>)
    requires a in named && b in named && a != b
    ensures Runs(named, Start, steps) && !Readable(Final(named, Start, steps))
  {
    var s1 := Next(named, Start, ListParts(0, a));
    var s2 := Next(named, s1, ListParts(1, b));
    var s3 := Next(named, s2, PutManifest(0));
    var s4 := Next(named, s3, PutManifest(1));
    var s5 := Next(named, s4, Complete(0, true));
    assert s5.visible == Some(a) && s5.manifest == Some(b);
    assert Runs(named, s5, []);
    var t5: seq<Step> := [];
    Before(named, s4, Complete(0, true), t5);
    var t4 := [Complete(0, true)] + t5;
    Before(named, s3, PutManifest(1), t4);
    var t3 := [PutManifest(1)] + t4;
    Before(named, s2, PutManifest(0), t3);
    var t2 := [PutManifest(0)] + t3;
    Before(named, s1, ListParts(1, b), t2);
    var t1 := [ListParts(1, b)] + t2;
    Before(named, Start, ListParts(0, a), t1);
    steps := [ListParts(0, a)] + t1;
  }

  /** In every run the visible version has the manifest of its own parts, if and only if
      clients name one part list for the upload. */
  lemma ReadableExactly(named: set<PartList>)
    ensures (forall steps | Runs(named, Start, steps) :: Readable(Final(named, Start, steps))) <==>
            (forall a, b | a in named && b in named :: a == b)
  {
    if a, b :| a in named && b in named && a != b {
      var steps := Overwritten(named, a, b);
    } else {
      forall steps | Runs(named, Start, steps)
        ensures Readable(Final(named, Start, steps))
      {
        var parts :| named == {} || parts in named;
        AgreesThroughout(named, Start, steps, parts);
      }
    }
  }
}
