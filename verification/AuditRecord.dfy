/**
The records of the audit log and the bytes their hashes cover.  The hash is
uninterpreted: any function from byte strings to 64 characters.  Nothing assumes it
injective; where two byte strings hash alike, a lemma names them.
*/
module AuditRecord {
  import opened Base
  import opened Bytes

  const VERSION := 1

  type u64 = x: int | 0 <= x < 0x1_0000_0000_0000_0000

  /** Signed, as a decoded number is. */
  type i64 = x: int | -0x8000_0000_0000_0000 <= x < 0x8000_0000_0000_0000

  const U64: int := 0x1_0000_0000_0000_0000
  const U32: int := 0x1_0000_0000

  /** A hash as it is written: 64 hexadecimal characters. */
  type Digest = s: seq<byte> | |s| == 64 witness seq(64, _ => 48)

  type Hash = seq<byte> -> Digest

  datatype Head = Head(version: int, chain: seq<byte>, created: seq<byte>, publicKey: seq<byte>,
                       prevChain: seq<byte>, prevHash: seq<byte>, hash: seq<byte>)

  datatype Entry = Entry(number: u64, time: seq<byte>, op: seq<byte>, bucket: seq<byte>, key: seq<byte>,
                         client: seq<byte>, principal: seq<byte>, requestId: seq<byte>, status: i64,
                         code: seq<byte>, kid: seq<byte>, size: i64, hash: seq<byte>)

  datatype Checkpoint = Checkpoint(number: u64, time: seq<byte>, hash: seq<byte>, signature: seq<byte>)

  datatype Record = OfHead(head: Head) | OfEntry(entry: Entry) | OfCheckpoint(checkpoint: Checkpoint)

  // ---------------------------------------------------------------- encoding

  // "blindbucket/v1/audit-", then "head", "entry" or "checkpoint".
  const DOMAIN: seq<byte> := [98, 108, 105, 110, 100, 98, 117, 99, 107, 101, 116, 47, 118, 49, 47, 97, 117, 100, 105, 116, 45]
  const HEAD: seq<byte> := [104, 101, 97, 100]
  const ENTRY: seq<byte> := [101, 110, 116, 114, 121]
  const CHECKPOINT: seq<byte> := [99, 104, 101, 99, 107, 112, 111, 105, 110, 116]

  /** Length-prefixed fields, one after the other. */
  function Fields(fs: seq<seq<byte>>): seq<byte> {
    if fs == [] then [] else Field(fs[0]) + Fields(fs[1..])
  }

  /** No field outgrows its length prefix. */
  predicate Fit(fs: seq<seq<byte>>) { forall i | 0 <= i < |fs| :: |fs[i]| <= MAX_FIELD }

  function HeadFields(h: Head): seq<seq<byte>> { [h.chain, h.created, h.publicKey, h.prevChain, h.prevHash] }

  function HeadBytes(h: Head): seq<byte> {
    DOMAIN + (HEAD + (BigEndian(4, h.version % U32) + Fields(HeadFields(h))))
  }

  function EntryFields(e: Entry, chain: seq<byte>): seq<seq<byte>> {
    [chain, e.time, e.op, e.bucket, e.key, e.client, e.principal, e.requestId, e.code, e.kid]
  }

  function EntryTail(e: Entry, prev: seq<byte>): seq<byte> {
    BigEndian(4, e.status % U32) + (BigEndian(8, e.size % U64) + Field(prev))
  }

  function EntryBytes(e: Entry, chain: seq<byte>, prev: seq<byte>): seq<byte> {
    DOMAIN + (ENTRY + (BigEndian(8, e.number) + (Fields(EntryFields(e, chain)) + EntryTail(e, prev))))
  }

  function PointFields(p: Checkpoint, chain: seq<byte>): seq<seq<byte>> { [chain, p.time, p.hash] }

  function PointBytes(p: Checkpoint, chain: seq<byte>): seq<byte> {
    DOMAIN + (CHECKPOINT + (BigEndian(8, p.number) + Fields(PointFields(p, chain))))
  }

  /** chainHashOf of a head, and of an entry; undefined where a field does not fit. */
  function HeadHash(hash: Hash, h: Head): Option<Digest> {
    if Fit(HeadFields(h)) then Some(hash(HeadBytes(h))) else None
  }

  function EntryHash(hash: Hash, e: Entry, chain: seq<byte>, prev: seq<byte>): Option<Digest> {
    if Fit(EntryFields(e, chain)) && |prev| <= MAX_FIELD then Some(hash(EntryBytes(e, chain, prev))) else None
  }

  /** What a checkpoint's signature covers. */
  function Signed(hash: Hash, p: Checkpoint, chain: seq<byte>): Option<Digest> {
    if Fit(PointFields(p, chain)) then Some(hash(PointBytes(p, chain))) else None
  }

  /** The running hash, as it accumulates a context field by field. */
  class ChainHash {
    var covered: seq<byte>

    constructor (domain: seq<byte>)
      ensures covered == domain
    {
      covered := domain;
    }

    method Lp(s: seq<byte>) returns (ok: bool)
      modifies this
      ensures ok <==> |s| <= MAX_FIELD
      ensures covered == if ok then old(covered) + Field(s) else old(covered)
    {
      if |s| > MAX_FIELD {
        return false;
      }
      covered := covered + (BigEndian(2, |s|) + s);
      return true;
    }

    /** The loop over a record's fields. */
    method All(fs: seq<seq<byte>>) returns (ok: bool)
      modifies this
      ensures ok <==> Fit(fs)
      ensures ok ==> covered == old(covered) + Fields(fs)
    {
      ghost var before := covered;
      assert before == before + Fields([]);
      for i := 0 to |fs|
        invariant Fit(fs[..i]) && covered == before + Fields(fs[..i])
      {
        FieldsAppend(fs[..i], fs[i]);
        Assoc(before, Fields(fs[..i]), Field(fs[i]));
        assert fs[..i] + [fs[i]] == fs[..i + 1];
        var fits := Lp(fs[i]);
        if !fits {
          return false;
        }
      }
      assert fs[..|fs|] == fs;
      return true;
    }
  }

  lemma {:induction false} FieldsAppend(fs: seq<seq<byte>>, f: seq<byte>)
    ensures Fields(fs + [f]) == Fields(fs) + Field(f)
  {
    if fs == [] {
      assert [] + [f] == [f] && Fields([f]) == Field(f) + Fields([]);
    } else {
      FieldsAppend(fs[1..], f);
      assert (fs + [f])[1..] == fs[1..] + [f];
      Assoc(Field(fs[0]), Fields(fs[1..]), Field(f));
    }
  }

  method HashHead(hash: Hash, h: Head) returns (r: Option<Digest>)
    ensures r == HeadHash(hash, h)
  {
    var c := new ChainHash(DOMAIN + HEAD);
    c.covered := c.covered + BigEndian(4, h.version % U32);
    var ok := c.All(HeadFields(h));
    if !ok {
      return None;
    }
    Assoc(DOMAIN + HEAD, BigEndian(4, h.version % U32), Fields(HeadFields(h)));
    Assoc(DOMAIN, HEAD, BigEndian(4, h.version % U32) + Fields(HeadFields(h)));
    return Some(hash(c.covered));
  }

  method HashEntry(hash: Hash, e: Entry, chain: seq<byte>, prev: seq<byte>) returns (r: Option<Digest>)
    ensures r == EntryHash(hash, e, chain, prev)
  {
    var c := new ChainHash(DOMAIN + ENTRY);
    c.covered := c.covered + BigEndian(8, e.number);
    var ok := c.All(EntryFields(e, chain));
    if !ok {
      return None;
    }
    c.covered := c.covered + BigEndian(4, e.status % U32);
    c.covered := c.covered + BigEndian(8, e.size % U64);
    ok := c.Lp(prev);
    if !ok {
      return None;
    }
    Associate(DOMAIN, ENTRY, BigEndian(8, e.number), Fields(EntryFields(e, chain)), BigEndian(4, e.status % U32),
              BigEndian(8, e.size % U64), Field(prev));
    return Some(hash(c.covered));
  }

  method HashPoint(hash: Hash, p: Checkpoint, chain: seq<byte>) returns (r: Option<Digest>)
    ensures r == Signed(hash, p, chain)
  {
    var c := new ChainHash(DOMAIN + CHECKPOINT);
    c.covered := c.covered + BigEndian(8, p.number);
    var ok := c.All(PointFields(p, chain));
    if !ok {
      return None;
    }
    Assoc(DOMAIN + CHECKPOINT, BigEndian(8, p.number), Fields(PointFields(p, chain)));
    Assoc(DOMAIN, CHECKPOINT, BigEndian(8, p.number) + Fields(PointFields(p, chain)));
    return Some(hash(c.covered));
  }

  lemma Associate(a: seq<byte>, b: seq<byte>, c: seq<byte>, d: seq<byte>, e: seq<byte>, f: seq<byte>, g: seq<byte>)
    ensures a + b + c + d + e + f + g == a + (b + (c + (d + (e + (f + g)))))
  {
    Assoc(a + b + c + d + e, f, g);
    Assoc(a + b + c + d, e, f + g);
    Assoc(a + b + c, d, e + (f + g));
    Assoc(a + b, c, d + (e + (f + g)));
    Assoc(a, b, c + (d + (e + (f + g))));
  }

  // ------------------------------------------------------------------ layout

  lemma {:induction false} FieldsOne(f: seq<byte>, fs: seq<seq<byte>>)
    ensures Fields([f] + fs) == BigEndian(2, |f|) + f + Fields(fs)
  {
    assert ([f] + fs)[1..] == fs;
  }

  /** The bytes of a head, field by field. */
  lemma {:induction false} HeadLayout(h: Head)
    ensures HeadBytes(h) ==
            DOMAIN + (HEAD + (BigEndian(4, h.version % U32) +
            (Field(h.chain) + (Field(h.created) + (Field(h.publicKey) + (Field(h.prevChain) + (Field(h.prevHash) + [])))))))
  {
    var fs := HeadFields(h);
    assert fs == [h.chain] + ([h.created] + ([h.publicKey] + ([h.prevChain] + ([h.prevHash] + []))));
    FieldsOne(h.prevHash, []);
    FieldsOne(h.prevChain, [h.prevHash] + []);
    FieldsOne(h.publicKey, [h.prevChain] + ([h.prevHash] + []));
    FieldsOne(h.created, [h.publicKey] + ([h.prevChain] + ([h.prevHash] + [])));
    FieldsOne(h.chain, [h.created] + ([h.publicKey] + ([h.prevChain] + ([h.prevHash] + []))));
  }

  /** The bytes of a checkpoint's signed message, field by field. */
  lemma {:induction false} PointLayout(p: Checkpoint, chain: seq<byte>)
    ensures PointBytes(p, chain) ==
            DOMAIN + (CHECKPOINT + (BigEndian(8, p.number) + (Field(chain) + (Field(p.time) + (Field(p.hash) + [])))))
  {
    assert PointFields(p, chain) == [chain] + ([p.time] + ([p.hash] + []));
    FieldsOne(p.hash, []);
    FieldsOne(p.time, [p.hash] + []);
    FieldsOne(chain, [p.time] + ([p.hash] + []));
  }

  /** The order of an entry's fields in its bytes. */
  lemma {:induction false} EntryLayout(e: Entry, chain: seq<byte>, prev: seq<byte>)
    ensures EntryBytes(e, chain, prev) ==
            DOMAIN + (ENTRY + (BigEndian(8, e.number) +
            (Fields([chain, e.time, e.op, e.bucket, e.key, e.client, e.principal, e.requestId, e.code, e.kid]) +
            (BigEndian(4, e.status % 0x1_0000_0000) + (BigEndian(8, e.size % 0x1_0000_0000_0000_0000) + (BigEndian(2, |prev|) + prev))))))
  {
  }

  // --------------------------------------------------------------- injective

  lemma {:induction false} FieldsUnambiguous(fs: seq<seq<byte>>, gs: seq<seq<byte>>, x: seq<byte>, y: seq<byte>)
    requires |fs| == |gs| && Fit(fs) && Fit(gs) && Fields(fs) + x == Fields(gs) + y
    ensures fs == gs && x == y
    decreases |fs|
  {
    if fs != [] {
      Assoc(Field(fs[0]), Fields(fs[1..]), x);
      Assoc(Field(gs[0]), Fields(gs[1..]), y);
      FieldUnambiguous(fs[0], gs[0], Fields(fs[1..]) + x, Fields(gs[1..]) + y);
      FieldsUnambiguous(fs[1..], gs[1..], x, y);
      assert fs == [fs[0]] + fs[1..] && gs == [gs[0]] + gs[1..];
    } else {
      assert [] + x == x && [] + y == y;
    }
  }

  /** Equal bytes, equal heads: the hash field apart, which they do not cover. */
  lemma HeadBytesInjective(g: Head, h: Head)
    requires Fit(HeadFields(g)) && Fit(HeadFields(h)) && HeadBytes(g) == HeadBytes(h)
    requires g.version == VERSION && h.version == VERSION
    ensures g.(hash := h.hash) == h
  {
    var v := BigEndian(4, VERSION % U32);
    var x, y := Fields(HeadFields(g)), Fields(HeadFields(h));
    SplitEqual(DOMAIN, DOMAIN, HEAD + (v + x), HEAD + (v + y));
    SplitEqual(HEAD, HEAD, v + x, v + y);
    SplitEqual(v, v, x, y);
    assert x + [] == x && y + [] == y;
    FieldsUnambiguous(HeadFields(g), HeadFields(h), [], []);
    var s, t := HeadFields(g), HeadFields(h);
    assert s[0] == t[0] && s[1] == t[1] && s[2] == t[2] && s[3] == t[3] && s[4] == t[4];
  }

  /** What an entry's bytes bind: every field, the chain and the hash before it. */
  lemma EntryBytesInjective(d: Entry, c1: seq<byte>, p1: seq<byte>, e: Entry, c2: seq<byte>, p2: seq<byte>)
    requires Fit(EntryFields(d, c1)) && Fit(EntryFields(e, c2)) && |p1| <= MAX_FIELD && |p2| <= MAX_FIELD
    requires 0 <= d.status < U32 && 0 <= e.status < U32 && 0 <= d.size && 0 <= e.size
    requires EntryBytes(d, c1, p1) == EntryBytes(e, c2, p2)
    ensures d.(hash := e.hash) == e && c1 == c2 && p1 == p2
  {
    var x, y := Fields(EntryFields(d, c1)), Fields(EntryFields(e, c2));
    var s, t := EntryTail(d, p1), EntryTail(e, p2);
    var m, n := BigEndian(8, d.number), BigEndian(8, e.number);
    SplitEqual(DOMAIN, DOMAIN, ENTRY + (m + (x + s)), ENTRY + (n + (y + t)));
    SplitEqual(ENTRY, ENTRY, m + (x + s), n + (y + t));
    SplitEqual(m, n, x + s, y + t);
    Widths();
    BigEndianInjective(8, d.number, e.number);
    FieldsUnambiguous(EntryFields(d, c1), EntryFields(e, c2), s, t);
    EntryTailInjective(d, p1, e, p2);
    EntryFieldsInjective(d, c1, e, c2);
  }

  lemma {:induction false} EntryTailInjective(d: Entry, p1: seq<byte>, e: Entry, p2: seq<byte>)
    requires |p1| <= MAX_FIELD && |p2| <= MAX_FIELD && EntryTail(d, p1) == EntryTail(e, p2)
    requires 0 <= d.status < U32 && 0 <= e.status < U32 && 0 <= d.size && 0 <= e.size
    ensures d.status == e.status && d.size == e.size && p1 == p2
  {
    Widths();
    assert d.status % U32 == d.status && e.status % U32 == e.status && d.size % U64 == d.size && e.size % U64 == e.size;
    SplitEqual(BigEndian(4, d.status), BigEndian(4, e.status), BigEndian(8, d.size) + Field(p1), BigEndian(8, e.size) + Field(p2));
    BigEndianInjective(4, d.status, e.status);
    SplitEqual(BigEndian(8, d.size), BigEndian(8, e.size), Field(p1), Field(p2));
    BigEndianInjective(8, d.size, e.size);
    assert Field(p1) + [] == Field(p1) && Field(p2) + [] == Field(p2);
    FieldUnambiguous(p1, p2, [], []);
  }

  lemma EntryFieldsInjective(d: Entry, c1: seq<byte>, e: Entry, c2: seq<byte>)
    requires EntryFields(d, c1) == EntryFields(e, c2)
    ensures c1 == c2 && d.time == e.time && d.op == e.op && d.bucket == e.bucket && d.key == e.key
    ensures d.client == e.client && d.principal == e.principal && d.requestId == e.requestId
    ensures d.code == e.code && d.kid == e.kid
  {
    var s, t := EntryFields(d, c1), EntryFields(e, c2);
    assert s[0] == t[0] && s[1] == t[1] && s[2] == t[2] && s[3] == t[3] && s[4] == t[4];
    assert s[5] == t[5] && s[6] == t[6] && s[7] == t[7] && s[8] == t[8] && s[9] == t[9];
  }

  /** What a signature covers: the chain, the entry, the time and the hash. */
  lemma PointBytesInjective(p: Checkpoint, c1: seq<byte>, q: Checkpoint, c2: seq<byte>)
    requires Fit(PointFields(p, c1)) && Fit(PointFields(q, c2)) && PointBytes(p, c1) == PointBytes(q, c2)
    ensures p.(signature := q.signature) == q && c1 == c2
  {
    var x, y := Fields(PointFields(p, c1)), Fields(PointFields(q, c2));
    var m, n := BigEndian(8, p.number), BigEndian(8, q.number);
    SplitEqual(DOMAIN, DOMAIN, CHECKPOINT + (m + x), CHECKPOINT + (n + y));
    SplitEqual(CHECKPOINT, CHECKPOINT, m + x, n + y);
    SplitEqual(m, n, x, y);
    Widths();
    BigEndianInjective(8, p.number, q.number);
    assert x + [] == x && y + [] == y;
    FieldsUnambiguous(PointFields(p, c1), PointFields(q, c2), [], []);
    var s, t := PointFields(p, c1), PointFields(q, c2);
    assert s[0] == t[0] && s[1] == t[1] && s[2] == t[2];
  }

  /** The domains keep the three kinds of record apart. */
  lemma DomainsDisjoint(h: Head, e: Entry, p: Checkpoint, chain: seq<byte>, prev: seq<byte>, other: seq<byte>)
    ensures HeadBytes(h) != EntryBytes(e, chain, prev)
    ensures HeadBytes(h) != PointBytes(p, other) && EntryBytes(e, chain, prev) != PointBytes(p, other)
  {
    assert |DOMAIN| == 21;
    assert HeadBytes(h)[21] == HEAD[0] && EntryBytes(e, chain, prev)[21] == ENTRY[0] && PointBytes(p, other)[21] == CHECKPOINT[0];
  }
}
