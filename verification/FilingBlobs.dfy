/** Blob accounting of `put_filing` and `release`: whatever await fails or is cancelled, the bucket ends
    as it was or with exactly the blobs of a created filing. */
module FilingBlobs {
  import opened Options
  import opened Filings
  import opened ObjectKeys

  type Bytes = seq<bv8>
  type Bucket = map<string, Bytes>

  datatype Attachment = Attachment(body: Bytes, filename: string, sequence: int)

  datatype Blob = Blob(key: string, body: Bytes)

  /** One call.  `prefix` is the key text up to the role, ending in the fresh filing id; `actorRefused` says that the
      audit is strict and no actor is set. */
  datatype Request = Request(
    actorRefused: bool,
    put: Put,
    prefix: string,
    primary: Bytes,
    primaryName: string,
    hasXbrl: bool,
    xbrl: Option<Bytes>,
    xbrlName: Option<string>,
    attachments: seq<Attachment>)

  /** The await that fails or is cancelled, counted from the start of the call, and whether the bucket
      operation it stood for had taken effect by then. */
  datatype Fault = Fault(at: nat, effective: bool)

  datatype Result = Rejected | Raised | Returned(created: bool, keys: seq<string>)

  predicate Hits(fault: Option<Fault>, step: nat) {
    fault.Some? && fault.value.at == step
  }

  // ---------------------------------------------------------------- the blobs of a request

  function AttachmentBlob(r: Request, a: Attachment): Blob {
    Blob(AttachmentKey(r.prefix, a.sequence, a.filename), a.body)
  }

  function MainBlobs(r: Request): seq<Blob> {
    var primary := [Blob(KeyOf(r.prefix, "primary", r.primaryName), r.primary)];
    if r.hasXbrl && r.xbrl.Some? && r.xbrlName.Some?
    then primary + [Blob(KeyOf(r.prefix, "xbrl", r.xbrlName.value), r.xbrl.value)] else primary
  }

  function AttachmentBlobs(r: Request): seq<Blob> {
    seq(|r.attachments|, i requires 0 <= i < |r.attachments| => AttachmentBlob(r, r.attachments[i]))
  }

  function Blobs(r: Request): seq<Blob> {
    MainBlobs(r) + AttachmentBlobs(r)
  }

  function Keys(blobs: seq<Blob>): seq<string> {
    seq(|blobs|, i requires 0 <= i < |blobs| => blobs[i].key)
  }

  function StoreAll(bucket: Bucket, blobs: seq<Blob>): Bucket {
    if blobs == [] then bucket
    else StoreAll(bucket, blobs[..|blobs| - 1])[blobs[|blobs| - 1].key := blobs[|blobs| - 1].body]
  }

  function RemoveAll(bucket: Bucket, keys: seq<string>): Bucket {
    map k | k in bucket && k !in keys :: bucket[k]
  }

  function PairOf(a: Attachment): (int, string) {
    (a.sequence, a.filename)
  }

  ghost predicate DistinctAttachments(r: Request) {
    forall i, j :: 0 <= i < j < |r.attachments| ==> PairOf(r.attachments[i]) != PairOf(r.attachments[j])
  }

  /** No object lies under the prefix of a fresh filing id. */
  ghost predicate FreshPrefix(bucket: Bucket, r: Request) {
    forall k :: k in bucket ==> !(r.prefix <= k)
  }

  ghost predicate DistinctKeys(blobs: seq<Blob>) {
    forall i, j :: 0 <= i < j < |blobs| ==> blobs[i].key != blobs[j].key
  }

  lemma MainKeysDiffer(r: Request)
    ensures DistinctKeys(MainBlobs(r))
  {
    if r.hasXbrl && r.xbrl.Some? && r.xbrlName.Some? {
      RolesDiffer(r.prefix, r.primaryName, r.xbrlName.value, 0, "");
    }
  }

  lemma MainAndAttachmentKeysDiffer(r: Request, i: nat, a: Attachment)
    requires i < |MainBlobs(r)|
    ensures MainBlobs(r)[i].key != AttachmentBlob(r, a).key
  {
    RolesDiffer(r.prefix, r.primaryName, if r.xbrlName.Some? then r.xbrlName.value
        else r.primaryName, a.sequence, a.filename);
  }

  lemma AttachmentBlobKeysDiffer(r: Request)
    requires DistinctAttachments(r)
    ensures DistinctKeys(AttachmentBlobs(r))
  {
    forall i, j | 0 <= i < j < |r.attachments|
        ensures AttachmentBlob(r, r.attachments[i]).key != AttachmentBlob(r, r.attachments[j]).key {
      var a, b := r.attachments[i], r.attachments[j];
      if AttachmentBlob(r, a).key == AttachmentBlob(r, b).key {
        AttachmentKeysDiffer(r.prefix, a.sequence, a.filename, b.sequence, b.filename);
      }
    }
  }

  /** All blobs of one filing have their own key. */
  lemma BlobKeysDistinct(r: Request)
    requires DistinctAttachments(r)
    ensures DistinctKeys(Blobs(r))
  {
    MainKeysDiffer(r);
    AttachmentBlobKeysDiffer(r);
    var main, rest := MainBlobs(r), AttachmentBlobs(r);
    forall i, j | 0 <= i < |main| && 0 <= j < |rest| ensures main[i].key != rest[j].key {
      MainAndAttachmentKeysDiffer(r, i, r.attachments[j]);
    }
  }

  lemma KeysUnderPrefix(r: Request, i: nat)
    requires i < |Blobs(r)|
    ensures r.prefix <= Blobs(r)[i].key
  {
  }

  /** Storing distinct blobs gives each key its own bytes. */
  lemma {:induction false} StoreAllOwn(bucket: Bucket, blobs: seq<Blob>, i: nat)
    requires DistinctKeys(blobs) && i < |blobs|
    ensures var b := StoreAll(bucket, blobs); blobs[i].key in b && b[blobs[i].key] == blobs[i].body
  {
    if i < |blobs| - 1 {
      StoreAllOwn(bucket, blobs[..|blobs| - 1], i);
    }
  }

  /** And leaves every other key as it was. */
  lemma {:induction false} StoreAllRest(bucket: Bucket, blobs: seq<Blob>, k: string)
    requires k !in Keys(blobs)
    ensures var b := StoreAll(bucket, blobs); (k in b <==> k in bucket) && (k in bucket ==> b[k] == bucket[k])
  {
    if blobs != [] {
      assert Keys(blobs) == Keys(blobs[..|blobs| - 1]) + [blobs[|blobs| - 1].key];
      StoreAllRest(bucket, blobs[..|blobs| - 1], k);
    }
  }

  /** Only tracked keys differ from the bucket before the call, and those are new. */
  ghost predicate OnlyTracked(before: Bucket, bucket: Bucket, keys: seq<string>) {
    && (forall k :: k !in keys ==> (k in bucket <==> k in before) && (k in before ==> bucket[k] == before[k]))
    && (forall k :: k in keys ==> k !in before)
  }

  /** Tracking a new key keeps the accounting, whether or not its blob was stored. */
  lemma TrackOne(before: Bucket, bucket: Bucket, keys: seq<string>, blob: Blob)
    requires OnlyTracked(before, bucket, keys) && blob.key !in before
    ensures OnlyTracked(before, bucket, keys + [blob.key])
    ensures OnlyTracked(before, bucket[blob.key := blob.body], keys + [blob.key])
  {
  }

  lemma StoreOneMore(bucket: Bucket, blobs: seq<Blob>, n: nat)
    requires n < |blobs|
    ensures StoreAll(bucket, blobs[..n + 1]) == StoreAll(bucket, blobs[..n])[blobs[n].key := blobs[n].body]
    ensures Keys(blobs[..n + 1]) == Keys(blobs[..n]) + [blobs[n].key]
  {
    assert blobs[..n + 1][..n] == blobs[..n];
  }

  lemma RemovingTrackedRestores(before: Bucket, bucket: Bucket, keys: seq<string>)
    requires OnlyTracked(before, bucket, keys)
    ensures RemoveAll(bucket, keys) == before
  {
  }

  /** `release` undoes a created filing. */
  lemma ReleaseRestores(bucket: Bucket, r: Request)
    requires FreshPrefix(bucket, r)
    ensures RemoveAll(StoreAll(bucket, Blobs(r)), Keys(Blobs(r))) == bucket
  {
    forall k | k !in Keys(Blobs(r))
      ensures var b := StoreAll(bucket, Blobs(r)); (k in b <==> k in bucket) && (k in bucket ==> b[k] == bucket[k])
    {
      StoreAllRest(bucket, Blobs(r), k);
    }
    forall k | k in Keys(Blobs(r)) ensures k !in bucket {
      var i :| 0 <= i < |Blobs(r)| && Keys(Blobs(r))[i] == k;
      KeysUnderPrefix(r, i);
    }
    RemovingTrackedRestores(bucket, StoreAll(bucket, Blobs(r)), Keys(Blobs(r)));
  }

  /** The first `m` blobs are stored and tracked. */
  ghost predicate StoredPrefix(before: Bucket, bucket: Bucket, blobs: seq<Blob>, m: nat, keys: seq<string>) {
    && m <= |blobs| && OnlyTracked(before, bucket, keys)
    && keys == Keys(blobs[..m]) && bucket == StoreAll(before, blobs[..m])
  }

  lemma PrefixGrows(before: Bucket, bucket: Bucket, blobs: seq<Blob>, m: nat, keys: seq<string>)
    requires StoredPrefix(before, bucket, blobs, m, keys) && m < |blobs| && blobs[m].key !in before
    ensures OnlyTracked(before, bucket, keys + [blobs[m].key])
    ensures StoredPrefix(before, bucket[blobs[m].key := blobs[m].body], blobs, m + 1, keys + [blobs[m].key])
  {
    TrackOne(before, bucket, keys, blobs[m]);
    StoreOneMore(before, blobs, m);
  }

  /** The main blobs and the first `i` attachments are stored and tracked. */
  ghost predicate StoredSoFar(before: Bucket, bucket: Bucket, r: Request, i: nat, keys: seq<string>) {
    i <= |r.attachments| && StoredPrefix(before, bucket, Blobs(r), |MainBlobs(r)| + i, keys)
  }

  /** The loop over the attachments starts with none of them and ends with all. */
  lemma NoneStored(before: Bucket, bucket: Bucket, r: Request, keys: seq<string>)
    requires OnlyTracked(before, bucket, keys) && keys == Keys(MainBlobs(r)) && bucket == StoreAll(before, MainBlobs(r))
    ensures StoredSoFar(before, bucket, r, 0, keys)
  {
    assert Blobs(r)[..|MainBlobs(r)| + 0] == MainBlobs(r);
  }

  lemma AllStored(before: Bucket, bucket: Bucket, r: Request, keys: seq<string>)
    requires StoredSoFar(before, bucket, r, |r.attachments|, keys)
    ensures OnlyTracked(before, bucket, keys) && keys == Keys(Blobs(r)) && bucket == StoreAll(before, Blobs(r))
  {
    assert Blobs(r)[..|MainBlobs(r)| + |r.attachments|] == Blobs(r);
  }

  /** Tracking and storing one more attachment, or tracking it only. */
  lemma AttachmentTurn(before: Bucket, bucket: Bucket, r: Request, i: nat, keys: seq<string>)
    requires FreshPrefix(before, r) && i < |r.attachments| && StoredSoFar(before, bucket, r, i, keys)
    ensures var blob := AttachmentBlob(r, r.attachments[i]);
            && OnlyTracked(before, bucket, keys + [blob.key])
            && OnlyTracked(before, bucket[blob.key := blob.body], keys + [blob.key])
            && StoredSoFar(before, bucket[blob.key := blob.body], r, i + 1, keys + [blob.key])
  {
    var n, blob := |MainBlobs(r)|, AttachmentBlob(r, r.attachments[i]);
    AttachmentPlace(r, i);
    FreshKey(before, r, n + i);
    PrefixGrows(before, bucket, Blobs(r), n + i, keys);
    assert Blobs(r)[n + i] == blob && n + i + 1 == n + (i + 1);
  }

  lemma AttachmentPlace(r: Request, i: nat)
    requires i < |r.attachments|
    ensures |MainBlobs(r)| + i < |Blobs(r)| && Blobs(r)[|MainBlobs(r)| + i] == AttachmentBlob(r, r.attachments[i])
  {
  }

  lemma FreshKey(before: Bucket, r: Request, i: nat)
    requires FreshPrefix(before, r) && i < |Blobs(r)|
    ensures Blobs(r)[i].key !in before
  {
    KeysUnderPrefix(r, i);
  }

  // ---------------------------------------------------------------- what the caller gets, spelled out

  function PrimaryPath(r: Request): string {
    r.prefix + "primary/" + r.primaryName
  }

  function XbrlPath(r: Request): string
    requires r.xbrlName.Some?
  {
    r.prefix + "xbrl/" + r.xbrlName.value
  }

  function AttachmentPath(r: Request, a: Attachment): string {
    r.prefix + "attachments/" + Sequence03(a.sequence) + "/" + a.filename
  }

  predicate HasXbrl(r: Request) {
    r.hasXbrl && r.xbrl.Some? && r.xbrlName.Some?
  }

  predicate Stores(bucket: Bucket, key: string, body: Bytes) {
    key in bucket && bucket[key] == body
  }

  /** The bucket holds the filing's bytes, each under its own path. */
  ghost predicate HoldsBodies(bucket: Bucket, r: Request) {
    && Stores(bucket, PrimaryPath(r), r.primary)
    && (HasXbrl(r) ==> Stores(bucket, XbrlPath(r), r.xbrl.value))
    && (forall a :: a in r.attachments ==> Stores(bucket, AttachmentPath(r, a), a.body))
  }

  /** `keys` are those paths, once each, in order of upload. */
  ghost predicate ListsPaths(r: Request, keys: seq<string>) {
    var main := [PrimaryPath(r)] + if HasXbrl(r) then [XbrlPath(r)] else [];
    && |keys| == |main| + |r.attachments| && keys[..|main|] == main
    && (forall i :: 0 <= i < |r.attachments| ==> keys[|main| + i] == AttachmentPath(r, r.attachments[i]))
    && (forall i, j :: 0 <= i < j < |keys| ==> keys[i] != keys[j])
  }

  /** Nothing changed but at `keys`. */
  ghost predicate SameElsewhere(before: Bucket, after: Bucket, keys: seq<string>) {
    forall k :: k !in keys ==> (k in after <==> k in before) && (k in before ==> after[k] == before[k])
  }

  /** The bucket holds the filing's bytes, `keys` are their paths, and it is otherwise as it was. */
  ghost predicate HoldsFiling(before: Bucket, after: Bucket, r: Request, keys: seq<string>) {
    HoldsBodies(after, r) && ListsPaths(r, keys) && SameElsewhere(before, after, keys)
  }

  lemma KeyText(prefix: string, role: string, filename: string)
    ensures KeyOf(prefix, role, filename) == prefix + (role + "/") + filename
  {
  }

  lemma AttachmentText(r: Request, a: Attachment)
    ensures AttachmentBlob(r, a).key == AttachmentPath(r, a)
  {
    var text := Sequence03(a.sequence);
    assert r.prefix + ("attachments/" + text) + "/" + a.filename == r.prefix + "attachments/" + text + "/" + a.filename;
  }

  lemma MainText(r: Request)
    ensures MainBlobs(r)[0] == Blob(PrimaryPath(r), r.primary)
    ensures if HasXbrl(r) then |MainBlobs(r)| == 2 && MainBlobs(r)[1] == Blob(XbrlPath(r), r.xbrl.value)
        else |MainBlobs(r)| == 1
  {
    KeyText(r.prefix, "primary", r.primaryName);
    assert "primary" + "/" == "primary/" && "xbrl" + "/" == "xbrl/";
    if HasXbrl(r) {
      KeyText(r.prefix, "xbrl", r.xbrlName.value);
    }
  }

  /** The blobs, place by place. */
  lemma BlobPlaces(r: Request)
    ensures Blobs(r)[0] == Blob(PrimaryPath(r), r.primary)
    ensures HasXbrl(r) ==> |MainBlobs(r)| == 2 && Blobs(r)[1] == Blob(XbrlPath(r), r.xbrl.value)
    ensures !HasXbrl(r) ==> |MainBlobs(r)| == 1
    ensures |Blobs(r)| == |MainBlobs(r)| + |r.attachments|
    ensures forall i :: 0 <= i < |r.attachments| ==>
              Blobs(r)[|MainBlobs(r)| + i] == Blob(AttachmentPath(r, r.attachments[i]), r.attachments[i].body)
  {
    MainText(r);
    forall i | 0 <= i < |r.attachments|
      ensures Blobs(r)[|MainBlobs(r)| + i] == Blob(AttachmentPath(r, r.attachments[i]), r.attachments[i].body)
    {
      AttachmentPlace(r, i);
      AttachmentText(r, r.attachments[i]);
    }
  }

  lemma BodiesAreHeld(before: Bucket, r: Request)
    requires DistinctKeys(Blobs(r))
    ensures HoldsBodies(StoreAll(before, Blobs(r)), r)
  {
    var after := StoreAll(before, Blobs(r));
    MainIsHeld(before, r);
    forall a | a in r.attachments ensures Stores(after, AttachmentPath(r, a), a.body) {
      var i :| 0 <= i < |r.attachments| && r.attachments[i] == a;
      AttachmentIsHeld(before, r, i);
    }
  }

  lemma MainIsHeld(before: Bucket, r: Request)
    requires DistinctKeys(Blobs(r))
    ensures var after := StoreAll(before, Blobs(r));
            Stores(after, PrimaryPath(r), r.primary) && (HasXbrl(r) ==> Stores(after, XbrlPath(r), r.xbrl.value))
  {
    MainText(r);
    assert Blobs(r)[0] == MainBlobs(r)[0];
    StoreAllOwn(before, Blobs(r), 0);
    if HasXbrl(r) {
      assert Blobs(r)[1] == MainBlobs(r)[1];
      StoreAllOwn(before, Blobs(r), 1);
    }
  }

  lemma AttachmentIsHeld(before: Bucket, r: Request, i: nat)
    requires DistinctKeys(Blobs(r)) && i < |r.attachments|
    ensures Stores(StoreAll(before, Blobs(r)), AttachmentPath(r, r.attachments[i]), r.attachments[i].body)
  {
    AttachmentPlace(r, i);
    AttachmentText(r, r.attachments[i]);
    StoreAllOwn(before, Blobs(r), |MainBlobs(r)| + i);
  }

  lemma PathsAreListed(r: Request)
    requires DistinctKeys(Blobs(r))
    ensures ListsPaths(r, Keys(Blobs(r)))
  {
    BlobPlaces(r);
  }

  /** The uploads of an accepted request leave exactly that. */
  lemma FilingIsHeld(before: Bucket, r: Request)
    requires DistinctAttachments(r)
    ensures HoldsFiling(before, StoreAll(before, Blobs(r)), r, Keys(Blobs(r)))
  {
    BlobKeysDistinct(r);
    BodiesAreHeld(before, r);
    PathsAreListed(r);
    var keys, after := Keys(Blobs(r)), StoreAll(before, Blobs(r));
    forall k | k !in keys ensures (k in after <==> k in before) && (k in before ==> after[k] == before[k]) {
      StoreAllRest(before, Blobs(r), k);
    }
  }

  /** A created filing's row records the hash of the call. */
  lemma CreatedRow(t: Table, p: Put)
    requires LabelOf(t, p).Inserted?
    ensures var t' := Upsert(t, p); |t'.rows| == |t.rows| + 1 && t'.rows[|t.rows|].sha == p.sha
  {
    ExplicitArgumentsAreKept(t, p);
  }

  /** The awaits of a call: primary upload, lock, prior lookup, xbrl upload if there is one, the read before the upsert
      and the upsert; then two per attachment, or one per upload that a content hit removes; then two more. */
  predicate Awaits(r: Request, created: bool, at: nat) {
    var uploads := if HasXbrl(r) then 2 else 1;
    at < 3 || (at == 3 && HasXbrl(r)) || 4 <= at < 8 + if created then 2 * |r.attachments| else uploads
  }

  // ---------------------------------------------------------------- the store

  class DocumentStore {
    const hash: Bytes -> Sha
    var table: Table
    var bucket: Bucket

    constructor (hash: Bytes -> Sha)
      ensures this.hash == hash && table == NOTHING && bucket == map[]
    {
      this.hash, table, bucket := hash, NOTHING, map[];
    }

    /** The call with the content hash filled in. */
    function PutOf(r: Request): Put {
      r.put.(sha := hash(r.primary))
    }

    /** Two attachments that the checks refuse to take together. */
    predicate Clash(a: Attachment, b: Attachment) {
      (a.sequence == b.sequence && a.filename == b.filename) || hash(a.body) == hash(b.body)
    }

    /** What `put_filing` accepts: an actor if it is asked for one, xbrl arguments all or none, and no clashing
        attachments. */
    ghost predicate WellFormed(r: Request) {
      && !r.actorRefused
      && r.hasXbrl == r.xbrl.Some? == r.xbrlName.Some?
      && forall i, j :: 0 <= i < j < |r.attachments| ==> !Clash(r.attachments[i], r.attachments[j])
    }

    /** The checks on the attachment list before any I/O. */
    method ValidateAttachments(attachments: seq<Attachment>) returns (ok: bool)
      ensures ok <==> forall i, j :: 0 <= i < j < |attachments| ==> !Clash(attachments[i], attachments[j])
    {
      var pairs: set<(int, string)>, hashes: set<Sha> := {}, {};
      var i := 0;
      while i < |attachments|
        invariant i <= |attachments|
        invariant pairs == set a | a in attachments[..i] :: PairOf(a)
        invariant hashes == set a | a in attachments[..i] :: hash(a.body)
        invariant forall k, l :: 0 <= k < l < i ==> !Clash(attachments[k], attachments[l])
      {
        var a := attachments[i];
        if PairOf(a) in pairs || hash(a.body) in hashes {
          var k :| 0 <= k < i && Clash(attachments[k], a);
          return false;
        }
        assert forall k :: 0 <= k < i ==> attachments[k] in attachments[..i];
        assert attachments[..i + 1] == attachments[..i] + [a];
        pairs, hashes := pairs + {PairOf(a)}, hashes + {hash(a.body)};
        i := i + 1;
      }
      return true;
    }

    /** The key is tracked before the upload, so that cleanup sees it however the upload ends. */
    method Upload(blob: Blob, tracked: seq<string>, fault: Option<Fault>, step: nat)
      returns (keys: seq<string>, raised: bool)
      modifies this`bucket
      ensures keys == tracked + [blob.key] && raised == Hits(fault, step)
      ensures bucket == if raised && !fault.value.effective then old(bucket) else old(bucket)[blob.key := blob.body]
    {
      keys := tracked + [blob.key];
      raised := Hits(fault, step);
      if !raised || fault.value.effective {
        bucket := bucket[blob.key := blob.body];
      }
    }

    /** Best-effort deletion of every tracked key. */
    method DeleteAll(keys: seq<string>)
      modifies this`bucket
      ensures bucket == RemoveAll(old(bucket), keys)
    {
      var i := 0;
      while i < |keys|
        invariant i <= |keys| && bucket == RemoveAll(old(bucket), keys[..i])
      {
        bucket := map k | k in bucket && k != keys[i] :: bucket[k];
        assert keys[..i + 1] == keys[..i] + [keys[i]];
        i := i + 1;
      }
      assert keys[..i] == keys;
    }

    /** Steps 2 to 3.5: primary upload, lock, prior lookup, optional xbrl upload. */
    method UploadMain(r: Request, fault: Option<Fault>) returns (keys: seq<string>, raised: bool)
      requires FreshPrefix(bucket, r)
      modifies this`bucket
      ensures OnlyTracked(old(bucket), bucket, keys)
      ensures !raised ==> keys == Keys(MainBlobs(r)) && bucket == StoreAll(old(bucket), MainBlobs(r))
      ensures raised <==> fault.Some? && (fault.value.at < 3 || (fault.value.at == 3 && HasXbrl(r)))
    {
      var main := MainBlobs(r);
      MainText(r);
      KeysUnderPrefix(r, 0);
      keys, raised := Upload(main[0], [], fault, 0);
      if raised || Hits(fault, 1) || Hits(fault, 2) {
        return keys, true;
      }
      assert StoreAll(old(bucket), main[..1]) == bucket;
      if |main| == 2 {
        KeysUnderPrefix(r, 1);
        keys, raised := Upload(main[1], keys, fault, 3);
      }
      assert main[..|main|] == main;
    }

    /** Step 5, a content hit: the new blobs go, each key leaving the manifest after its deletion. */
    method DropUploads(tracked: seq<string>, fault: Option<Fault>, step: nat, ghost before: Bucket)
      returns (keys: seq<string>, raised: bool)
      requires OnlyTracked(before, bucket, tracked)
      modifies this`bucket
      ensures OnlyTracked(before, bucket, keys)
      ensures raised <==> fault.Some? && step <= fault.value.at < step + |tracked|
      ensures !raised ==> keys == []
    {
      keys := tracked;
      var i := 0;
      while keys != []
        invariant OnlyTracked(before, bucket, keys) && i + |keys| == |tracked|
        invariant fault.Some? ==> !(step <= fault.value.at < step + i)
        decreases |keys|
      {
        if Hits(fault, step + i) {
          if fault.value.effective {
            bucket := map k | k in bucket && k != keys[0] :: bucket[k];
          }
          return keys, true;
        }
        bucket := map k | k in bucket && k != keys[0] :: bucket[k];
        assert forall k :: k in keys ==> k == keys[0] || k in keys[1..];
        keys, i := keys[1..], i + 1;
      }
      return keys, false;
    }

    /** One attachment: its upload, then its insert. */
    method PersistOne(r: Request, i: nat, tracked: seq<string>, fault: Option<Fault>, step: nat, ghost before: Bucket)
      returns (keys: seq<string>, raised: bool)
      requires FreshPrefix(before, r) && i < |r.attachments| && StoredSoFar(before, bucket, r, i, tracked)
      modifies this`bucket
      ensures OnlyTracked(before, bucket, keys) && raised == (Hits(fault, step) || Hits(fault, step + 1))
      ensures !raised ==> StoredSoFar(before, bucket, r, i + 1, keys)
    {
      AttachmentTurn(before, bucket, r, i, tracked);
      keys, raised := Upload(AttachmentBlob(r, r.attachments[i]), tracked, fault, step);
      raised := raised || Hits(fault, step + 1);
    }

    /** `_persist_attachments`: upload, then insert, one attachment at a time. */
    method PersistAttachments(r: Request, tracked: seq<string>, fault: Option<Fault>, step: nat, ghost before: Bucket)
      returns (keys: seq<string>, raised: bool)
      requires FreshPrefix(before, r) && OnlyTracked(before, bucket, tracked)
      requires tracked == Keys(MainBlobs(r)) && bucket == StoreAll(before, MainBlobs(r))
      modifies this`bucket
      ensures OnlyTracked(before, bucket, keys)
      ensures raised <==> fault.Some? && step <= fault.value.at < step + 2 * |r.attachments|
      ensures !raised ==> keys == Keys(Blobs(r)) && bucket == StoreAll(before, Blobs(r))
    {
      keys, raised := tracked, false;
      NoneStored(before, bucket, r, keys);
      var i := 0;
      while i < |r.attachments| && !raised
        invariant i <= |r.attachments| && OnlyTracked(before, bucket, keys)
        invariant raised <==> fault.Some? && step <= fault.value.at < step + 2 * i
        invariant !raised ==> StoredSoFar(before, bucket, r, i, keys)
      {
        keys, raised := PersistOne(r, i, keys, fault, step + 2 * i, before);
        i := i + 1;
      }
      if !raised {
        AllStored(before, bucket, r, keys);
      }
    }

    /** The body of the try block; what it leaves in the session's table counts only if it returns. */
    method TryPut(r: Request, fault: Option<Fault>) returns (keys: seq<string>, raised: bool)
      requires FreshPrefix(bucket, r)
      modifies this`bucket
      ensures OnlyTracked(old(bucket), bucket, keys)
      ensures raised <==> fault.Some? && Awaits(r, LabelOf(table, PutOf(r)).Inserted?, fault.value.at)
      ensures !raised && LabelOf(table, PutOf(r)).Inserted? ==>
          keys == Keys(Blobs(r)) && bucket == StoreAll(old(bucket), Blobs(r))
      ensures !raised && !LabelOf(table, PutOf(r)).Inserted? ==> keys == []
    {
      ghost var before := bucket;
      MainText(r);
      keys, raised := UploadMain(r, fault);
      if raised || Hits(fault, 4) || Hits(fault, 5) {
        return keys, true;
      }
      var step := 6;
      if LabelOf(table, PutOf(r)).Inserted? {
        keys, raised := PersistAttachments(r, keys, fault, step, before);
        step := step + 2 * |r.attachments|;
      } else {
        var uploads := |keys|;
        keys, raised := DropUploads(keys, fault, step, before);
        step := step + uploads;
      }
      raised := raised || Hits(fault, step) || Hits(fault, step + 1);
    }

    /** `put_filing`: refused before any I/O; raised, with the bucket and table untouched, iff one of its awaits fails;
        or returned.  A created filing's row records the hash of what lies under its primary path. */
    method PutFiling(r: Request, fault: Option<Fault>) returns (result: Result)
      requires FreshPrefix(bucket, r)
      modifies this
      ensures result.Rejected? || result.Raised? ==> bucket == old(bucket) && table == old(table)
      ensures result.Rejected? <==> !WellFormed(r)
      ensures result.Raised? <==>
                WellFormed(r) && fault.Some? && Awaits(r, LabelOf(old(table), PutOf(r)).Inserted?, fault.value.at)
      ensures result.Returned? ==>
          table == Upsert(old(table), PutOf(r)) && (result.created <==> LabelOf(old(table), PutOf(r)).Inserted?)
      ensures result.Returned? && result.created ==>
                && HoldsFiling(old(bucket), bucket, r, result.keys)
                && |table.rows| == |old(table).rows| + 1
                && table.rows[|old(table).rows|].sha == hash(bucket[r.prefix + "primary/" + r.primaryName])
                && RemoveAll(bucket, result.keys) == old(bucket)
      ensures result.Returned? && !result.created ==> result.keys == [] && bucket == old(bucket)
    {
      if r.actorRefused {
        return Rejected;
      }
      if (r.hasXbrl && (r.xbrl.None? || r.xbrlName.None?)) || (!r.hasXbrl && (r.xbrl.Some? || r.xbrlName.Some?)) {
        return Rejected;
      }
      var ok := ValidateAttachments(r.attachments);
      if !ok {
        return Rejected;
      }
      ghost var before := bucket;
      var keys, raised := TryPut(r, fault);
      if raised {
        RemovingTrackedRestores(before, bucket, keys);
        DeleteAll(keys);
        return Raised;
      }
      var created := LabelOf(table, PutOf(r)).Inserted?;
      if created {
        FilingIsHeld(before, r);
        RemovingTrackedRestores(before, bucket, keys);
        CreatedRow(table, PutOf(r));
        assert Stores(bucket, PrimaryPath(r), r.primary);
      } else {
        RemovingTrackedRestores(before, bucket, keys);
        assert RemoveAll(bucket, []) == bucket;
      }
      table := Upsert(table, PutOf(r));
      result := Returned(created, keys);
    }

    /** `release`. */
    method Release(keys: seq<string>)
      modifies this`bucket
      ensures bucket == RemoveAll(old(bucket), keys)
      ensures forall k :: k in bucket <==> k in old(bucket) && k !in keys
      ensures forall k :: k in bucket ==> bucket[k] == old(bucket)[k]
    {
      DeleteAll(keys);
    }
  }
}
