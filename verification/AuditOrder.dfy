/** Putting rotated log files in the order their heads say. */
module AuditOrder {
  import opened Base

  /** What a head says: the chain it opens and the chain it continues. */
  datatype Link = Link(chain: string, prev: string)

  /** A file given on the command line, and its head if it has a readable one. */
  datatype Given = Given(path: string, head: Option<Link>)

  predicate Chains(order: seq<Given>) {
    && (forall i | 0 <= i < |order| :: order[i].head.Some?)
    && (forall i | 1 <= i < |order| :: order[i].head.value.prev == order[i - 1].head.value.chain)
    && (forall i, j | 0 <= i < j < |order| :: order[i].head.value.chain != order[j].head.value.chain)
  }

  /** One chain: every file continues the one before it, and the first continues none
      of them. */
  predicate Linear(order: seq<Given>) {
    && order != [] && Chains(order)
    && (forall i | 0 <= i < |order| :: order[i].head.value.chain != "")
    && (forall i | 0 <= i < |order| :: order[i].head.value.chain != order[0].head.value.prev)
  }

  function ChainSet(order: seq<Given>): set<string>
    requires forall i | 0 <= i < |order| :: order[i].head.Some?
  {
    set i | 0 <= i < |order| :: order[i].head.value.chain
  }

  // --------------------------------------------------------------- reading

  /** The first k files by the chain they open. */
  predicate Indexes(byChain: map<string, Given>, given: seq<Given>, k: nat) {
    && k <= |given| && |byChain| == k
    && (forall i | 0 <= i < k :: Held(byChain, given[i]))
    && (forall c | c in byChain :: Among(byChain[c], given, k) && byChain[c].head.Some? && byChain[c].head.value.chain == c)
  }

  predicate Among(g: Given, given: seq<Given>, k: nat)
    requires k <= |given|
  {
    exists i | 0 <= i < k :: given[i] == g
  }

  predicate Held(byChain: map<string, Given>, g: Given) {
    g.head.Some? && g.head.value.chain in byChain && byChain[g.head.value.chain] == g
  }

  /** Files that all have heads, no two of one chain. */
  predicate Distinct(given: seq<Given>) { forall j | 0 <= j < |given| :: New(given, j) }

  predicate New(given: seq<Given>, j: nat)
    requires j < |given|
  {
    && given[j].head.Some?
    && forall i | 0 <= i < j :: given[i].head.Some? ==> given[i].head.value.chain != given[j].head.value.chain
  }

  lemma IndexesNext(byChain: map<string, Given>, given: seq<Given>, k: nat)
    requires k < |given| && Indexes(byChain, given, k)
    requires given[k].head.Some? && given[k].head.value.chain !in byChain
    ensures Indexes(byChain[given[k].head.value.chain := given[k]], given, k + 1) && New(given, k)
  {
    var g := given[k];
    var more := byChain[g.head.value.chain := g];
    forall i | 0 <= i < k
      ensures Held(more, given[i]) && given[i].head.value.chain != g.head.value.chain
    {
      assert Held(byChain, given[i]);
    }
    forall c | c in more
      ensures Among(more[c], given, k + 1) && more[c].head.Some? && more[c].head.value.chain == c
    {
      if c == g.head.value.chain {
        assert given[k] == more[c];
      } else {
        assert Among(byChain[c], given, k);
      }
    }
  }

  lemma Clash(byChain: map<string, Given>, given: seq<Given>, k: nat)
    requires k < |given| && Indexes(byChain, given, k)
    requires given[k].head.Some? && given[k].head.value.chain in byChain
    ensures !New(given, k)
  {
    var j :| 0 <= j < k && given[j] == byChain[given[k].head.value.chain];
  }

  /** The map of the files given, unless two of them claim one chain. */
  method Index(given: seq<Given>) returns (r: Option<map<string, Given>>)
    ensures r.Some? <==> Distinct(given)
    ensures r.Some? ==> Indexes(r.value, given, |given|)
  {
    var byChain: map<string, Given> := map[];
    for i := 0 to |given|
      invariant Indexes(byChain, given, i)
      invariant forall j | 0 <= j < i :: New(given, j)
    {
      var g := given[i];
      if g.head.None? {
        assert !New(given, i);
        return None;
      }
      var chain := g.head.value.chain;
      if chain in byChain {
        Clash(byChain, given, i);
        return None;
      }
      IndexesNext(byChain, given, i);
      byChain := byChain[chain := g];
    }
    return Some(byChain);
  }

  // ------------------------------------------------------------ the starts

  predicate Starts(byChain: map<string, Given>, c: string) {
    c in byChain && byChain[c].head.Some? && byChain[c].head.value.prev !in byChain
  }

  ghost predicate OneStart(byChain: map<string, Given>) {
    exists c :: Starts(byChain, c) && forall d :: Starts(byChain, d) ==> d == c
  }

  /** The one file whose predecessor is not given, if there is exactly one. */
  method OnlyStart(byChain: map<string, Given>) returns (r: Option<string>)
    requires forall c | c in byChain :: byChain[c].head.Some?
    ensures r.Some? <==> OneStart(byChain)
    ensures r.Some? ==> Starts(byChain, r.value)
  {
    var starts: set<string> := {};
    var left := byChain.Keys;
    while left != {}
      invariant left <= byChain.Keys
      invariant forall c :: c in starts <==> c !in left && Starts(byChain, c)
    {
      var c :| c in left;
      if byChain[c].head.value.prev !in byChain {
        starts := starts + {c};
      }
      left := left - {c};
    }
    if |starts| != 1 {
      if c :| Starts(byChain, c) && forall d :: Starts(byChain, d) ==> d == c {
        assert starts == {c};
      }
      return None;
    }
    var c :| c in starts;
    assert starts == {c} by {
      assert |starts - {c}| == 0;
    }
    assert Starts(byChain, c);
    return Some(c);
  }

  // -------------------------------------------------------------- the links

  /** For every chain named as a predecessor, one that continues it: where two do,
      either. */
  predicate Follows(next: map<string, string>, byChain: map<string, Given>) {
    && (forall p | p in next :: p != "" && next[p] in byChain && byChain[next[p]].head.Some? && byChain[next[p]].head.value.prev == p)
    && (forall c | c in byChain :: byChain[c].head.Some? && (byChain[c].head.value.prev != "" ==> byChain[c].head.value.prev in next))
  }

  method Links(byChain: map<string, Given>) returns (next: map<string, string>)
    requires forall c | c in byChain :: byChain[c].head.Some?
    ensures Follows(next, byChain)
  {
    next := map[];
    var left := byChain.Keys;
    while left != {}
      invariant left <= byChain.Keys
      invariant forall p | p in next :: p != "" && next[p] in byChain && byChain[next[p]].head.value.prev == p
      invariant forall c | c in byChain && c !in left :: byChain[c].head.value.prev != "" ==> byChain[c].head.value.prev in next
    {
      var c :| c in left;
      var prev := byChain[c].head.value.prev;
      if prev != "" {
        next := next[prev := c];
      }
      left := left - {c};
    }
  }

  // --------------------------------------------------------------- the walk

  /** Files of the index, linked from the start on. */
  predicate Path(byChain: map<string, Given>, start: string, order: seq<Given>) {
    && Chains(order)
    && (forall i | 0 <= i < |order| :: var c := order[i].head.value.chain; c != "" && c in byChain && byChain[c] == order[i])
    && (order != [] ==> order[0].head.value.chain == start)
  }

  /** What comes after a path is not already on it. */
  lemma Onward(byChain: map<string, Given>, start: string, order: seq<Given>, c: string)
    requires Starts(byChain, start) && Path(byChain, start, order) && order != []
    requires c in byChain && byChain[c].head.Some? && byChain[c].head.value.chain == c
    requires byChain[c].head.value.prev == order[|order| - 1].head.value.chain
    ensures forall i | 0 <= i < |order| :: order[i].head.value.chain != c
  {
    assert byChain[c].head.value.prev in byChain;
    forall i | 0 <= i < |order|
      ensures order[i].head.value.chain != c
    {
      if i > 0 {
        assert order[i].head.value.prev == order[i - 1].head.value.chain;
      }
    }
  }

  lemma PathAppend(byChain: map<string, Given>, start: string, order: seq<Given>, g: Given)
    requires Path(byChain, start, order) && g.head.Some?
    requires var c := g.head.value.chain; c != "" && c in byChain && byChain[c] == g
    requires if order == [] then g.head.value.chain == start else g.head.value.prev == order[|order| - 1].head.value.chain
    requires forall i | 0 <= i < |order| :: order[i].head.value.chain != g.head.value.chain
    ensures Path(byChain, start, order + [g])
  {
  }

  /** Each file is the one `next` names after the file before it. */
  predicate Stepped(next: map<string, string>, order: seq<Given>) {
    && (forall i | 0 <= i < |order| :: order[i].head.Some?)
    && (forall i | 0 <= i < |order| - 1 :: order[i].head.value.chain in next
                                           && next[order[i].head.value.chain] == order[i + 1].head.value.chain)
  }

  lemma SteppedAppend(next: map<string, string>, order: seq<Given>, g: Given)
    requires Stepped(next, order) && g.head.Some?
    requires order != [] ==> After(next, order) == g.head.value.chain != ""
    ensures Stepped(next, order + [g])
  {
  }

  /** Where the walk goes from here: nowhere is the empty chain. */
  function After(next: map<string, string>, order: seq<Given>): string
    requires order != [] && order[|order| - 1].head.Some?
  {
    var last := order[|order| - 1].head.value.chain;
    if last in next then next[last] else ""
  }

  method Walk(byChain: map<string, Given>, next: map<string, string>, start: string) returns (order: seq<Given>)
    requires forall c | c in byChain :: byChain[c].head.Some? && byChain[c].head.value.chain == c
    requires Starts(byChain, start) && Follows(next, byChain)
    ensures Path(byChain, start, order) && Stepped(next, order)
    ensures if order == [] then start == "" else After(next, order) == ""
  {
    order := [];
    var chain := start;
    while chain != ""
      invariant Path(byChain, start, order) && Stepped(next, order)
      invariant chain != "" ==> chain in byChain && forall i | 0 <= i < |order| :: order[i].head.value.chain != chain
      invariant chain == if order == [] then start else After(next, order)
      decreases byChain.Keys - ChainSet(order), chain != ""
    {
      var g := byChain[chain];
      PathAppend(byChain, start, order, g);
      SteppedAppend(next, order, g);
      Smaller(byChain, order, g);
      order := order + [g];
      chain := if chain in next then next[chain] else "";
      if chain != "" {
        Onward(byChain, start, order, chain);
      }
    }
  }

  lemma Smaller(byChain: map<string, Given>, order: seq<Given>, g: Given)
    requires forall i | 0 <= i < |order| :: order[i].head.Some?
    requires g.head.Some? && g.head.value.chain in byChain
    requires forall i | 0 <= i < |order| :: order[i].head.value.chain != g.head.value.chain
    ensures byChain.Keys - ChainSet(order + [g]) < byChain.Keys - ChainSet(order)
  {
    var all := order + [g];
    assert all[|order|] == g;
    assert ChainSet(all) == ChainSet(order) + {g.head.value.chain} by {
      forall i | 0 <= i < |order|
        ensures all[i].head.value.chain in ChainSet(order)
      {
        assert all[i] == order[i];
      }
      forall c | c in ChainSet(order)
        ensures c in ChainSet(all)
      {
        var i :| 0 <= i < |order| && order[i].head.value.chain == c;
        assert all[i].head.value.chain == c;
      }
    }
  }

  // ----------------------------------------------------------- permutations

  predicate NoTwins(s: seq<Given>) { forall i, j | 0 <= i < j < |s| :: s[i] != s[j] }

  lemma {:induction false} AtMostOnce(s: seq<Given>, g: Given)
    requires NoTwins(s)
    ensures multiset(s)[g] == if g in s then 1 else 0
  {
    if s != [] {
      var n := |s| - 1;
      AtMostOnce(s[..n], g);
      assert s == s[..n] + [s[n]];
      if g == s[n] {
        assert g !in s[..n];
      }
    }
  }

  lemma {:induction false} Twins(s: seq<Given>, i: nat, j: nat)
    requires i < j < |s| && s[i] == s[j]
    ensures multiset(s)[s[i]] >= 2
  {
    assert s == s[..j] + [s[j]] + s[j + 1..];
    assert s[i] in s[..j];
    assert multiset(s) == multiset(s[..j]) + multiset{s[j]} + multiset(s[j + 1..]);
  }

  /** As many files, no two the same, all of them given: a permutation. */
  lemma {:induction false} Arrangement(order: seq<Given>, given: seq<Given>)
    requires NoTwins(order) && NoTwins(given) && |order| == |given|
    requires forall i | 0 <= i < |order| :: order[i] in given
    ensures multiset(order) == multiset(given)
  {
    forall g: Given
      ensures multiset(order)[g] <= multiset(given)[g]
    {
      AtMostOnce(order, g);
      AtMostOnce(given, g);
    }
    assert multiset(order) <= multiset(given);
    var rest := multiset(given) - multiset(order);
    assert |rest| == 0;
    assert multiset(given) == multiset(order) + rest;
  }

  /** A permutation of a linear order has no two files of one chain. */
  lemma {:induction false} PermutedDistinct(order: seq<Given>, given: seq<Given>)
    requires Linear(order) && multiset(order) == multiset(given)
    ensures Distinct(given)
  {
    forall j | 0 <= j < |given|
      ensures New(given, j)
    {
      assert given[j] in multiset(given);
      assert given[j] in order;
      forall i | 0 <= i < j && given[i].head.Some?
        ensures given[i].head.value.chain != given[j].head.value.chain
      {
        assert given[i] in multiset(given);
        assert given[i] in order;
        if given[i] == given[j] {
          Twins(given, i, j);
          AtMostOnce(order, given[i]);
        }
      }
    }
  }

  // -------------------------------------------------------------- orderLogs

  /** Linear order, seen through the index: element k is the only one to continue
      element k - 1, and none continues the last. */
  lemma {:induction false} OnlyNext(byChain: map<string, Given>, given: seq<Given>, order: seq<Given>, c: string, k: nat)
    requires Indexes(byChain, given, |given|) && Linear(order) && multiset(order) == multiset(given) && k < |order|
    requires c in byChain && byChain[c].head.Some? && byChain[c].head.value.prev == order[k].head.value.chain
    ensures k + 1 < |order| && c == order[k + 1].head.value.chain
  {
    var i :| 0 <= i < |given| && given[i] == byChain[c];
    assert given[i] in multiset(given);
    assert given[i] in order;
    var j :| 0 <= j < |order| && order[j] == given[i];
    if j > 0 {
      assert order[j].head.value.prev == order[j - 1].head.value.chain;
      assert j - 1 == k;
    }
  }

  lemma {:induction false} IndexedChain(byChain: map<string, Given>, given: seq<Given>, order: seq<Given>, k: nat)
    requires Indexes(byChain, given, |given|) && multiset(order) == multiset(given) && k < |order|
    ensures Held(byChain, order[k])
  {
    assert order[k] in multiset(order);
    assert order[k] in given;
    var i :| 0 <= i < |given| && given[i] == order[k];
    assert Held(byChain, given[i]);
  }

  lemma {:induction false} NotIndexed(byChain: map<string, Given>, given: seq<Given>, order: seq<Given>)
    requires Indexes(byChain, given, |given|) && Linear(order) && multiset(order) == multiset(given)
    ensures order[0].head.value.prev !in byChain
  {
    forall c | c in byChain
      ensures c != order[0].head.value.prev
    {
      var m :| 0 <= m < |given| && given[m] == byChain[c];
      assert given[m] in multiset(given);
      assert given[m] in order;
    }
  }

  /** The start of a linear order is the only one. */
  lemma {:induction false} LinearStart(byChain: map<string, Given>, given: seq<Given>, order: seq<Given>)
    requires Indexes(byChain, given, |given|) && Linear(order) && multiset(order) == multiset(given)
    ensures OneStart(byChain) && forall c :: Starts(byChain, c) <==> c == order[0].head.value.chain
  {
    IndexedChain(byChain, given, order, 0);
    forall c | c in byChain
      ensures Starts(byChain, c) <==> c == order[0].head.value.chain
    {
      var i :| 0 <= i < |given| && given[i] == byChain[c];
      assert given[i] in multiset(given);
      assert given[i] in order;
      var j :| 0 <= j < |order| && order[j] == given[i];
      if j > 0 {
        IndexedChain(byChain, given, order, j - 1);
      } else {
        NotIndexed(byChain, given, order);
      }
    }
    assert Starts(byChain, order[0].head.value.chain);
  }

  /** The walk retraces a linear order, whichever link the map kept. */
  lemma {:induction false} WalkRetraces(byChain: map<string, Given>, given: seq<Given>, next: map<string, string>,
                                        order: seq<Given>, walked: seq<Given>)
    requires Indexes(byChain, given, |given|) && Linear(order) && multiset(order) == multiset(given)
    requires Follows(next, byChain) && Path(byChain, order[0].head.value.chain, walked) && Stepped(next, walked)
    requires walked != [] && After(next, walked) == ""
    ensures walked == order
  {
    Retraced(byChain, given, next, order, walked, |walked|);
    if |walked| < |order| {
      var k := |walked| - 1;
      IndexedChain(byChain, given, order, k + 1);
      assert order[k + 1].head.value.prev == order[k].head.value.chain;
      OnlyNext(byChain, given, order, next[order[k].head.value.chain], k);
    }
  }

  lemma OneMoreEqual(a: seq<Given>, b: seq<Given>, k: nat)
    requires 0 < k <= |a| && k <= |b| && a[..k - 1] == b[..k - 1] && a[k - 1] == b[k - 1]
    ensures a[..k] == b[..k]
  {
    assert a[..k] == a[..k - 1] + [a[k - 1]] && b[..k] == b[..k - 1] + [b[k - 1]];
  }

  lemma {:induction false} Retraced(byChain: map<string, Given>, given: seq<Given>, next: map<string, string>,
                                    order: seq<Given>, walked: seq<Given>, k: nat)
    requires Indexes(byChain, given, |given|) && Linear(order) && multiset(order) == multiset(given)
    requires Follows(next, byChain) && Path(byChain, order[0].head.value.chain, walked) && Stepped(next, walked)
    requires k <= |walked|
    ensures k <= |order| && walked[..k] == order[..k]
  {
    if k > 0 {
      Retraced(byChain, given, next, order, walked, k - 1);
      if k > 1 {
        assert walked[k - 2] == walked[..k - 1][k - 2] == order[..k - 1][k - 2] == order[k - 2];
        OnlyNext(byChain, given, order, next[walked[k - 2].head.value.chain], k - 2);
      }
      IndexedChain(byChain, given, order, k - 1);
      OneMoreEqual(walked, order, k);
    }
  }

  /** A walk over every file is a linear order of them. */
  lemma {:induction false} WalkedAll(byChain: map<string, Given>, given: seq<Given>, start: string, walked: seq<Given>)
    requires Indexes(byChain, given, |given|) && Distinct(given)
    requires Starts(byChain, start) && Path(byChain, start, walked) && |walked| == |given| && walked != []
    ensures Linear(walked) && multiset(walked) == multiset(given)
  {
    forall i | 0 <= i < |walked|
      ensures walked[i] in given && walked[i].head.value.chain != walked[0].head.value.prev
    {
      assert Among(byChain[walked[i].head.value.chain], given, |given|);
    }
    forall i, j | 0 <= i < j < |given|
      ensures given[i] != given[j]
    {
      assert New(given, j) && New(given, i);
    }
    Arrangement(walked, given);
  }

  /** A linear order of the files given. */
  predicate Orders(order: seq<Given>, given: seq<Given>) { Linear(order) && multiset(order) == multiset(given) }

  /** orderLogs.  One file is taken as it is.  Several are ordered exactly when they
      form one chain: a shuffled chain is put back in order, a fork, a gap, a repeated
      chain or an unreadable head is refused. */
  method OrderLogs(given: seq<Given>) returns (r: Option<seq<Given>>)
    ensures |given| == 1 ==> r == Some(given)
    ensures |given| != 1 && r.Some? ==> Orders(r.value, given)
    ensures |given| != 1 ==> forall order: seq<Given> | Orders(order, given) :: r == Some(order)
  {
    if |given| == 1 {
      return Some(given);
    }
    var index := Index(given);
    if index.None? {
      forall order: seq<Given> | Orders(order, given)
        ensures false
      {
        PermutedDistinct(order, given);
      }
      return None;
    }
    var byChain := index.value;
    forall order: seq<Given> | Orders(order, given)
      ensures forall c :: Starts(byChain, c) <==> c == order[0].head.value.chain
    {
      LinearStart(byChain, given, order);
    }
    var start := OnlyStart(byChain);
    if start.None? {
      forall order: seq<Given> | Orders(order, given)
        ensures false
      {
        LinearStart(byChain, given, order);
      }
      return None;
    }
    var next := Links(byChain);
    var walked := Walk(byChain, next, start.value);
    forall order: seq<Given> | Orders(order, given)
      ensures walked == order
    {
      WalkRetraces(byChain, given, next, order, walked);
    }
    if |walked| != |given| {
      forall order: seq<Given> | Orders(order, given)
        ensures false
      {
        SameCount(order, given);
      }
      return None;
    }
    WalkedAll(byChain, given, start.value, walked);
    return Some(walked);
  }

  lemma SameCount(a: seq<Given>, b: seq<Given>)
    requires multiset(a) == multiset(b)
    ensures |a| == |b|
  {
    assert |multiset(a)| == |a| && |multiset(b)| == |b|;
  }
}
