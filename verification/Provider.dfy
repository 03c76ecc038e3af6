/**
The storage provider, as the processes of the gateway see it: the version
visible at each key, the manifest objects, and the multipart uploads.  Every
operation below is one provider request.

Two fields are history: `homes` remembers for which key a manifest id was
minted, and `log` every version that was ever visible, by its ETag.  No request
reads them.
*/
module Provider {
  import opened Base

  type Key = nat

  /** A stretch of stored ciphertext: the data key it is sealed under (None for
      an object written before the gateway) and the plaintext it carries. */
  datatype Piece = Piece(dek: Option<nat>, bytes: seq<nat>)

  function Plain(body: seq<Piece>): seq<nat> {
    if body == [] then [] else body[0].bytes + Plain(body[1..])
  }

  datatype Writer = ByClient | ByTool(yielded: bool)

  /** One object version.  `rank` is when its write began, which is what a
      provider that ranks writes compares; `dek`, `bound` and `mid` are the metadata.
      The data key is wrapped, and `bound` is the identity it is wrapped for: it is
      unwrapped for that one and no other. */
  datatype Version = Version(
    key: Key, etag: nat, rank: nat, modified: nat,
    mid: Option<nat>, dek: Option<nat>, bound: Key, body: seq<Piece>, writer: Writer)

  /** A multipart upload, numbered by the moment it was created, which is also
      when its write began.  A multipart object's manifest id is minted with the
      upload that will carry it and for no other (rule R1), so the upload's
      number serves as the id.  `owner` is the process that opened it, None for
      a client's, which any number of completion requests may hold the token of. */
  datatype Upload = Upload(key: Key, multi: bool, dek: nat, bound: Key, owner: Option<nat>)

  datatype Ref = Ref(key: Key, mid: nat)

  /** Which of two writes the provider keeps: the one that lands last, the one
      that began last, or, for a write that began earlier, either. */
  datatype Order = LandsLast | BeganLast | Either

  datatype Store = Store(
    clock: nat,
    visible: map<Key, Version>,
    ranks: map<Key, nat>,
    manifests: set<Ref>,
    uploads: map<nat, Upload>,
    open: set<nat>,
    parts: map<nat, seq<Piece>>,
    homes: map<nat, Key>,
    log: map<nat, Version>)

  // -------------------------------------------------------------- requests

  /** The manifest id a HEAD reports. */
  function MidAt(st: Store, k: Key): Option<nat> {
    if k in st.visible then st.visible[k].mid else None
  }

  function RankAt(st: Store, k: Key): nat {
    if k in st.ranks then st.ranks[k] else 0
  }

  predicate NoOpenUpload(st: Store, k: Key) {
    forall u | u in st.open && u in st.uploads :: st.uploads[u].key != k
  }

  /** CreateMultipartUpload. */
  function OpenUpload(st: Store, k: Key, multi: bool, dek: Option<nat>, bound: Key, owner: Option<nat>): Store {
    var u := st.clock;
    var d := if dek.Some? then dek.value else u;
    st.(clock := u + 1,
        uploads := st.uploads[u := Upload(k, multi, d, bound, owner)],
        open := st.open + {u},
        parts := st.parts[u := []],
        homes := if multi then st.homes[u := k] else st.homes)
  }

  /** UploadPart and UploadPartCopy, in part order. */
  function AddParts(st: Store, u: nat, more: seq<Piece>): Store
    requires u in st.parts
  {
    st.(parts := st.parts[u := st.parts[u] + more])
  }

  /** AbortMultipartUpload, and the bucket's rule for incomplete uploads. */
  function CloseUpload(st: Store, u: nat): Store {
    st.(open := st.open - {u})
  }

  function PutManifest(st: Store, r: Ref): Store {
    st.(manifests := st.manifests + {r})
  }

  function DeleteManifest(st: Store, r: Ref): Store {
    st.(manifests := st.manifests - {r})
  }

  function Publish(st: Store, v: Version): Store {
    st.(clock := st.clock + 1,
        visible := st.visible[v.key := v],
        ranks := st.ranks[v.key := v.rank],
        log := st.log[v.etag := v])
  }

  /** PutObject, and CopyObject as one request.  Ranked when it lands. */
  function PutWhole(st: Store, k: Key, dek: Option<nat>, bound: Key, body: seq<Piece>, writer: Writer): Store {
    Publish(st, Version(k, st.clock, st.clock, st.clock, None, dek, bound, body, writer))
  }

  /** DeleteObject.  Ranked when it lands. */
  function Remove(st: Store, k: Key): Store {
    st.(clock := st.clock + 1, visible := st.visible - {k}, ranks := st.ranks[k := st.clock])
  }

  /** What CompleteMultipartUpload may do with an upload whose write began at
      `rank`, at a key whose visible state is ranked `at`: `keep` is whether the
      upload becomes the visible version.  Either way the answer is success. */
  predicate MayAnswer(order: Order, rank: nat, at: nat, keep: bool) {
    match order
    case LandsLast => keep
    case BeganLast => keep == (rank > at)
    case Either => rank > at ==> keep
  }

  function Published(st: Store, u: nat, writer: Writer): Version
    requires u in st.uploads && u in st.parts
  {
    var up := st.uploads[u];
    Version(up.key, st.clock, u, st.clock, if up.multi then Some(u) else None,
            Some(up.dek), up.bound, st.parts[u], writer)
  }

  function Complete(st: Store, u: nat, keep: bool, writer: Writer): Store
    requires u in st.uploads && u in st.parts
  {
    if keep then Publish(CloseUpload(st, u), Published(st, u, writer)) else CloseUpload(st, u)
  }

  // ------------------------------------------------------------- invariants

  /** Every visible multipart version has its manifest (invariant I1). */
  predicate Readable(st: Store) {
    forall k | k in st.visible && st.visible[k].mid.Some? :: Ref(k, st.visible[k].mid.value) in st.manifests
  }

  predicate Homed(st: Store, r: Ref) {
    r.mid in st.homes && st.homes[r.mid] == r.key
  }

  /** No upload that carries this manifest id can complete any more. */
  predicate Closed(st: Store, r: Ref) {
    Homed(st, r) && r.mid !in st.open
  }

  /** What may be deleted: the version is neither visible nor able to become so. */
  predicate Dead(st: Store, r: Ref) {
    Closed(st, r) && MidAt(st, r.key) != Some(r.mid)
  }

  predicate UploadsOk(st: Store) {
    && st.open <= st.uploads.Keys
    && st.parts.Keys == st.uploads.Keys
    && (forall u | u in st.uploads ::
          && u < st.clock && (u in st.homes <==> st.uploads[u].multi)
          && (st.uploads[u].owner.None? ==> st.uploads[u].multi)
          && (u in st.homes ==> st.homes[u] == st.uploads[u].key))
    && (forall m | m in st.homes :: m < st.clock)
  }

  predicate LogOk(st: Store) {
    && (forall e | e in st.log ::
          && e < st.clock && st.log[e].etag == e && st.log[e].rank < st.clock
          && (st.log[e].mid.Some? ==> Closed(st, Ref(st.log[e].key, st.log[e].mid.value))))
    && (forall e, f | e in st.log && f in st.log && st.log[e].mid.Some? && st.log[e].mid == st.log[f].mid :: e == f)
  }

  predicate VisibleOk(st: Store) {
    && (forall k | k in st.visible ::
          && st.visible[k].key == k
          && st.visible[k].etag in st.log && st.log[st.visible[k].etag] == st.visible[k]
          && k in st.ranks && st.ranks[k] == st.visible[k].rank)
    && (forall k | k in st.ranks :: st.ranks[k] < st.clock)
    && (forall r | r in st.manifests :: Homed(st, r))
  }

  predicate StoreOk(st: Store) {
    UploadsOk(st) && LogOk(st) && VisibleOk(st) && Readable(st)
  }

  /** What any request may have changed between two moments, seen from a process
      that did nothing in between: history only grows, ... */
  predicate RelyHistory(a: Store, b: Store) {
    && a.clock <= b.clock
    && (forall m | m in a.homes :: m in b.homes && b.homes[m] == a.homes[m])
    && (forall e | e in a.log :: e in b.log && b.log[e] == a.log[e])
  }

  /** ... uploads keep what they were created with and never reopen, ... */
  predicate RelyUploads(a: Store, b: Store) {
    && (forall u | u in a.uploads :: u in b.uploads && b.uploads[u] == a.uploads[u])
    && (forall u | u in b.uploads :: u in a.uploads || u >= a.clock)
    && (forall u | u in b.open :: u in a.open || u >= a.clock)
  }

  /** ... a multipart version becomes visible only by completing its upload, ... */
  predicate RelyVisible(a: Store, b: Store) {
    forall k | k in b.visible && b.visible[k].mid.Some? ::
      MidAt(a, k) == b.visible[k].mid || b.visible[k].mid.value in a.open
  }

  /** ... and only dead manifests go. */
  predicate RelyManifests(a: Store, b: Store) {
    forall r | r in a.manifests && r !in b.manifests :: Dead(b, r)
  }

  predicate Rely(a: Store, b: Store) {
    RelyHistory(a, b) && RelyUploads(a, b) && RelyVisible(a, b) && RelyManifests(a, b)
  }

  lemma RelyKeepsDead(a: Store, b: Store, r: Ref)
    requires StoreOk(a) && StoreOk(b) && Rely(a, b)
    ensures Closed(a, r) ==> Closed(b, r)
    ensures Dead(a, r) ==> Dead(b, r)
  {
  }

  // ------------------------------- each request keeps the invariant and relies

  lemma OpenUploadKeeps(st: Store, k: Key, multi: bool, dek: Option<nat>, bound: Key, owner: Option<nat>)
    requires StoreOk(st) && (owner.None? ==> multi)
    ensures StoreOk(OpenUpload(st, k, multi, dek, bound, owner))
  {
  }

  lemma OpenUploadOk(st: Store, k: Key, multi: bool, dek: Option<nat>, bound: Key, owner: Option<nat>)
    requires StoreOk(st) && (owner.None? ==> multi)
    ensures var b := OpenUpload(st, k, multi, dek, bound, owner); StoreOk(b) && Rely(st, b)
  {
    OpenUploadKeeps(st, k, multi, dek, bound, owner);
  }

  lemma AddPartsOk(st: Store, u: nat, more: seq<Piece>)
    requires StoreOk(st) && u in st.parts
    ensures var b := AddParts(st, u, more); StoreOk(b) && Rely(st, b)
  {
  }

  lemma CloseUploadOk(st: Store, u: nat)
    requires StoreOk(st)
    ensures var b := CloseUpload(st, u); StoreOk(b) && Rely(st, b)
  {
  }

  lemma PutManifestOk(st: Store, r: Ref)
    requires StoreOk(st) && Homed(st, r)
    ensures var b := PutManifest(st, r); StoreOk(b) && Rely(st, b)
  {
  }

  /** Deleting a manifest is safe exactly because it is dead. */
  lemma DeleteManifestOk(st: Store, r: Ref)
    requires StoreOk(st) && Dead(st, r)
    ensures var b := DeleteManifest(st, r); StoreOk(b) && Rely(st, b)
  {
  }

  lemma RemoveOk(st: Store, k: Key)
    requires StoreOk(st)
    ensures var b := Remove(st, k); StoreOk(b) && Rely(st, b)
  {
  }

  /** A version may be published once its manifest is there and nothing can
      publish it again. */
  predicate MayPublish(st: Store, v: Version) {
    && v.etag == st.clock && v.rank <= st.clock
    && (v.mid.Some? ==>
          && Ref(v.key, v.mid.value) in st.manifests && Closed(st, Ref(v.key, v.mid.value))
          && forall e | e in st.log :: st.log[e].mid != v.mid)
  }

  lemma PublishOk(st: Store, v: Version)
    requires StoreOk(st) && MayPublish(st, v)
    ensures StoreOk(Publish(st, v))
  {
    var b := Publish(st, v);
    assert UploadsOk(b);
    assert LogOk(b);
    PublishVisible(st, v);
    assert Readable(b);
  }

  lemma PublishVisible(st: Store, v: Version)
    requires VisibleOk(st) && LogOk(st) && MayPublish(st, v)
    ensures VisibleOk(Publish(st, v))
  {
    var b := Publish(st, v);
    forall k | k in b.visible && k != v.key
      ensures b.visible[k].key == k && b.visible[k].etag in b.log && b.log[b.visible[k].etag] == b.visible[k]
      ensures k in b.ranks && b.ranks[k] == b.visible[k].rank
    {
      assert b.visible[k] == st.visible[k];
    }
  }

  lemma PutWholeOk(st: Store, k: Key, dek: Option<nat>, bound: Key, body: seq<Piece>, writer: Writer)
    requires StoreOk(st)
    ensures var b := PutWhole(st, k, dek, bound, body, writer); StoreOk(b) && Rely(st, b)
  {
    PublishOk(st, Version(k, st.clock, st.clock, st.clock, None, dek, bound, body, writer));
  }

  /** An upload publishes its manifest id for the first time. */
  lemma CompletePublishes(st: Store, u: nat, writer: Writer)
    requires StoreOk(st) && u in st.open
    requires st.uploads[u].multi ==> Ref(st.uploads[u].key, u) in st.manifests
    ensures MayPublish(CloseUpload(st, u), Published(st, u, writer))
  {
    forall e | e in st.log && st.log[e].mid.Some?
      ensures st.log[e].mid.value != u
    {
      assert Closed(st, Ref(st.log[e].key, st.log[e].mid.value));
    }
  }

  lemma CompleteOk(st: Store, u: nat, keep: bool, writer: Writer)
    requires StoreOk(st) && u in st.open
    requires st.uploads[u].multi ==> Ref(st.uploads[u].key, u) in st.manifests
    ensures var b := Complete(st, u, keep, writer); StoreOk(b) && Rely(st, b)
  {
    CloseUploadOk(st, u);
    CompletePublishes(st, u, writer);
    PublishOk(CloseUpload(st, u), Published(st, u, writer));
  }
}
