/**
The dedup cache: what one sink has been told about each object, with the version gate
that lets an asynchronous write settle only while it is still the latest write of its key.

Each operation is given twice: as a function on the optional entry of one key, and as a
method of `HashCache` that updates the whole table in place and is proved to do exactly that.
*/
module HashCaches {
  import opened Common

  // ---------------------------------------------------------------- baselines

  /** A stored diff baseline: absent, raw bytes, or a zstd frame. */
  datatype Baseline = NoBaseline | Raw(json: Json) | Zstd(frame: Blob)

  /** What decoding a baseline yields: nothing to decode, the text, or an error. */
  datatype Decoded = Missing | Text(json: Json) | Corrupt

  /**
  The libraries the data plane calls, as parameters. `encoderReady` is whether the shared
  zstd encoder could be built.
  */
  datatype Codec = Codec(
    hash: Json -> Digest,
    diff: (Json, Json) -> Option<Patch>,
    apply: (Patch, Json) -> Option<Json>,
    compress: Json -> Blob,
    decompress: Blob -> Option<Json>,
    encoderReady: bool)

  const ZSTD_MAGIC: Blob := [0x28 as char, 0xB5 as char, 0x2F as char, 0xFD as char]

  /**
  The laws assumed of the libraries: the digest is injective, a patch applied to the
  document it was computed from gives the document it was computed to, zstd is lossless.
  */
  ghost predicate Lawful(c: Codec) {
    && (forall a, b :: c.hash(a) == c.hash(b) ==> a == b)
    && (forall a, b :: c.diff(a, b).Some? ==> c.apply(c.diff(a, b).value, a) == Some(b))
    && (forall j :: ZSTD_MAGIC <= c.compress(j) && c.decompress(c.compress(j)) == Some(j))
  }

  function CompressBaseline(c: Codec, raw: Json): (b: Baseline)
    ensures Lawful(c) ==> DecodeBaseline(c, b) == Text(raw)
    ensures raw != "" && c.encoderReady ==> b.Zstd?
  {
    if raw == "" || !c.encoderReady then Raw(raw) else Zstd(c.compress(raw))
  }

  function DecodeBaseline(c: Codec, b: Baseline): Decoded {
    match b
    case NoBaseline => Missing
    case Raw(json) => Text(json)
    case Zstd(frame) =>
      if !(ZSTD_MAGIC <= frame) then Corrupt
      else match c.decompress(frame)
           case None => Corrupt
           case Some(json) => Text(json)
  }

  // ---------------------------------------------------------------- entries

  datatype CacheEntry = CacheEntry(
    hash: Digest,
    baseline: Baseline,
    uid: Uid,
    apiVersion: string,
    modifiedSinceCheckpoint: nat,
    version: nat,
    pendingDelete: bool)

  datatype ClaimOutcome = Claimed | Absent | InFlight | UidMismatch

  function CurrentVersion(cur: Option<CacheEntry>): nat {
    if cur.Some? then cur.value.version else 0
  }

  /** The entry `Reserve` installs: the caller's entry under the next version of the key. */
  function Reserved(cur: Option<CacheEntry>, entry: CacheEntry): CacheEntry {
    entry.(version := CurrentVersion(cur) + 1)
  }

  predicate MayCommit(cur: Option<CacheEntry>, version: nat) {
    if cur.Some? then cur.value.version == version else version == 0
  }

  function AfterCommit(cur: Option<CacheEntry>, version: nat, entry: CacheEntry): Option<CacheEntry> {
    if MayCommit(cur, version) then Some(entry.(version := version)) else cur
  }

  predicate MayDelete(cur: Option<CacheEntry>, version: nat) {
    cur.Some? && cur.value.version == version
  }

  function AfterDelete(cur: Option<CacheEntry>, version: nat): Option<CacheEntry> {
    if MayDelete(cur, version) then None else cur
  }

  function ClaimVerdict(cur: Option<CacheEntry>, expectedUid: Uid): ClaimOutcome {
    if cur.None? then Absent
    else if cur.value.pendingDelete then InFlight
    else if expectedUid != NO_UID && cur.value.uid != expectedUid then UidMismatch
    else Claimed
  }

  function AfterClaim(cur: Option<CacheEntry>, expectedUid: Uid): Option<CacheEntry> {
    if ClaimVerdict(cur, expectedUid) != Claimed then cur
    else Some(cur.value.(version := cur.value.version + 1, pendingDelete := true))
  }

  function AfterUnclaim(cur: Option<CacheEntry>, version: nat): Option<CacheEntry> {
    if MayDelete(cur, version) then Some(cur.value.(pendingDelete := false)) else cur
  }

  function AfterStoreIfAbsent(cur: Option<CacheEntry>, entry: CacheEntry): Option<CacheEntry> {
    if cur.Some? then cur else Some(entry.(version := 1))
  }

  // ---------------------------------------------------------------- the table

  function Lookup<V>(m: map<string, V>, key: string): Option<V> {
    if key in m then Some(m[key]) else None
  }

  /** `m` with what it holds for `key` replaced by `v`, or removed. */
  function Put<V>(m: map<string, V>, key: string, v: Option<V>): (r: map<string, V>)
    ensures Lookup(r, key) == v
    ensures forall k :: k != key ==> Lookup(r, k) == Lookup(m, k)
  {
    if v.Some? then m[key := v.value] else m - {key}
  }

  class HashCache {
    var data: map<string, CacheEntry>

    constructor ()
      ensures data == map[]
    {
      data := map[];
    }

    method Load(key: string) returns (entry: Option<CacheEntry>)
      ensures entry == Lookup(data, key)
    {
      if key in data {
        return Some(data[key]);
      }
      return None;
    }

    method Reserve(key: string, entry: CacheEntry) returns (version: nat)
      modifies this
      ensures data == Put(old(data), key, Some(Reserved(Lookup(old(data), key), entry)))
      ensures version == CurrentVersion(Lookup(old(data), key)) + 1
    {
      version := 1;
      if key in data {
        version := data[key].version + 1;
      }
      data := data[key := entry.(version := version)];
    }

    method CommitIfCurrent(key: string, expectedVersion: nat, entry: CacheEntry) returns (applied: bool)
      modifies this
      ensures applied == MayCommit(Lookup(old(data), key), expectedVersion)
      ensures data == Put(old(data), key, AfterCommit(Lookup(old(data), key), expectedVersion, entry))
    {
      if key in data && data[key].version != expectedVersion {
        return false;
      }
      if key !in data && expectedVersion != 0 {
        return false;
      }
      data := data[key := entry.(version := expectedVersion)];
      return true;
    }

    method DeleteIfCurrent(key: string, expectedVersion: nat) returns (applied: bool)
      modifies this
      ensures applied == MayDelete(Lookup(old(data), key), expectedVersion)
      ensures data == Put(old(data), key, AfterDelete(Lookup(old(data), key), expectedVersion))
    {
      if key !in data || data[key].version != expectedVersion {
        return false;
      }
      data := data - {key};
      return true;
    }

    method ReserveDelete(key: string, expectedUid: Uid)
      returns (entry: Option<CacheEntry>, version: nat, outcome: ClaimOutcome)
      modifies this
      ensures outcome == ClaimVerdict(Lookup(old(data), key), expectedUid)
      ensures outcome == Claimed ==> entry == Lookup(old(data), key) && version == entry.value.version + 1
      ensures outcome != Claimed ==> entry == None && version == 0
      ensures data == Put(old(data), key, AfterClaim(Lookup(old(data), key), expectedUid))
    {
      if key !in data {
        return None, 0, Absent;
      }
      var cur := data[key];
      if cur.pendingDelete {
        return None, 0, InFlight;
      }
      if expectedUid != NO_UID && cur.uid != expectedUid {
        return None, 0, UidMismatch;
      }
      data := data[key := cur.(version := cur.version + 1, pendingDelete := true)];
      return Some(cur), cur.version + 1, Claimed;
    }

    method UnclaimDelete(key: string, expectedVersion: nat)
      modifies this
      ensures data == Put(old(data), key, AfterUnclaim(Lookup(old(data), key), expectedVersion))
    {
      if key !in data || data[key].version != expectedVersion {
        return;
      }
      data := data[key := data[key].(pendingDelete := false)];
    }

    method StoreIfAbsent(key: string, entry: CacheEntry)
      modifies this
      ensures data == Put(old(data), key, AfterStoreIfAbsent(Lookup(old(data), key), entry))
      ensures data == if key in old(data) then old(data) else old(data)[key := entry.(version := 1)]
    {
      if key in data {
        return;
      }
      data := data[key := entry.(version := 1)];
    }

    /** Drops every entry under `prefix`, keeps the others, and says how many went. */
    method DeletePrefix(prefix: string) returns (removed: nat)
      modifies this
      ensures data == map k | k in old(data) && !(prefix <= k) :: old(data)[k]
      ensures removed == |old(data)| - |data|
    {
      removed := 0;
      var todo := data.Keys;
      while todo != {}
        invariant todo <= data.Keys && data.Keys <= old(data).Keys
        invariant forall k :: k in data ==> data[k] == old(data)[k]
        invariant forall k :: k in old(data) ==> (k in data <==> k in todo || !(prefix <= k))
        invariant removed == |old(data)| - |data|
        decreases todo
      {
        var key :| key in todo;
        todo := todo - {key};
        if prefix <= key {
          DropOne(data, key);
          data := data - {key};
          removed := removed + 1;
        }
      }
    }
  }

  lemma DropOne<V>(m: map<string, V>, key: string)
    requires key in m
    ensures |m - {key}| == |m| - 1
  {
    assert (m - {key}).Keys == m.Keys - {key};
  }
}
