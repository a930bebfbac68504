/** The browser's string-keyed store as the clinic uses it, the two ways the
    code reads a key (a plain `JSON.parse` in app.js, `safeJsonParseKey` in
    app.backup.js), lazy creation of the global patient list and of a role's
    partition, and the scan over the seven role partitions. */
module Storage {
  import opened Wrappers
  import opened Text
  import opened Records
  import opened Naming

  /** The decoded JSON values the clinic writes. */
  datatype Doc =
    | PartitionDoc(part: Partition)
    | PatientsDoc(patients: seq<Patient>)
    | MarkerDoc(ts: int, id: string)

  /** A stored string: text `JSON.parse` accepts, or text it rejects. The
      empty string is `Corrupt("")`, which every reader treats as missing. */
  datatype Entry = Parsed(doc: Doc) | Corrupt(raw: string)

  type Store = map<string, Entry>

  /** app.js (`Original`) or app.backup.js (`Patched`). */
  datatype Version = Original | Patched

  /** What a read returns, and the store after it. */
  datatype Read<T> = Read(value: Option<T>, store: Store)

  /** What a load returns, and the store after it. */
  datatype Loaded<T> = Loaded(value: T, store: Store)

  /** `t` agrees with `s` on every key outside `keys`. */
  ghost predicate AgreeExcept(s: Store, t: Store, keys: set<string>) {
    forall k :: k !in keys ==> (k in s <==> k in t) && (k in s ==> s[k] == t[k])
  }

  /** The side key a corrupt value is saved under: `${key}_corrupt_${Date.now()}`. */
  function ArchiveKey(key: string, now: nat): (a: string)
    ensures |a| > |key| && a[..|key|] == key && a[|key|] == '_'
  {
    var a := key + "_corrupt_" + Decimal(now);
    assert a[..|key|] == key;
    a
  }

  /** The stored text under `key` is missing or empty (`if (!raw)`). */
  predicate Missing(s: Store, key: string) {
    key !in s || s[key] == Corrupt("")
  }

  /** `safeJsonParseKey(key, null)`: a decodable value is returned and nothing
      changes; missing or empty text reads as missing and nothing changes;
      undecodable text is copied to the archive key and `key` is removed. */
  function SafeRead(s: Store, key: string, now: nat): (r: Read<Doc>)
    ensures r.value.Some? <==> key in s && s[key].Parsed?
    ensures r.value.Some? ==> r.value.value == s[key].doc
    ensures Missing(s, key) || s[key].Parsed? ==> r.store == s
    ensures key in r.store ==> r.store[key] == s[key] && (s[key].Parsed? || s[key] == Corrupt(""))
    ensures key in s && key !in r.store ==> ArchiveKey(key, now) in r.store && r.store[ArchiveKey(key, now)] == s[key]
    ensures AgreeExcept(s, r.store, {key, ArchiveKey(key, now)})
  {
    if Missing(s, key) then Read(None, s)
    else if s[key].Parsed? then Read(Some(s[key].doc), s)
    else Read(None, s[ArchiveKey(key, now) := s[key]] - {key})
  }

  /** The partition stored under `key`, if the text there decodes to one. */
  function PlainPartition(s: Store, key: string): Option<Partition> {
    if key in s && s[key].Parsed? && s[key].doc.PartitionDoc? then Some(s[key].doc.part) else None
  }

  /** The patient list stored under the global key, if the text there decodes to one. */
  function PlainPatients(s: Store): Option<seq<Patient>> {
    var k := GlobalPatientsKey;
    if k in s && s[k].Parsed? && s[k].doc.PatientsDoc? then Some(s[k].doc.patients) else None
  }

  /** Reading a partition key: app.js parses it in place, app.backup.js goes
      through `safeJsonParseKey`. Both see the same partition. */
  function ReadPartition(s: Store, key: string, version: Version, now: nat): (r: Read<Partition>)
    ensures r.value == PlainPartition(s, key)
    ensures PlainPartition(r.store, key) == PlainPartition(s, key)
    ensures version == Original ==> r.store == s
    ensures AgreeExcept(s, r.store, {key, ArchiveKey(key, now)})
    ensures key in r.store ==> key in s && r.store[key] == s[key]
    ensures r.store != s ==>
      (version == Patched && key in s && key !in r.store && ArchiveKey(key, now) in r.store
       && r.store[ArchiveKey(key, now)] == s[key])
  {
    match version
    case Original => Read(PlainPartition(s, key), s)
    case Patched =>
      var d := SafeRead(s, key, now);
      Read(if d.value.Some? && d.value.value.PartitionDoc? then Some(d.value.value.part) else None, d.store)
  }

  /** `loadDataForRole(role)`: the decodable partition under the role's key,
      or six empty collections, persisted under that key. */
  function LoadPartition(s: Store, role: string, version: Version, now: nat): (r: Loaded<Partition>)
    ensures DataKeyForRole(role) in r.store
    ensures r.store[DataKeyForRole(role)] == Parsed(PartitionDoc(r.value))
    ensures PlainPartition(s, DataKeyForRole(role)).Some? ==>
      r.value == PlainPartition(s, DataKeyForRole(role)).value && r.store == s
    ensures PlainPartition(s, DataKeyForRole(role)).None? ==> r.value == Zero
    ensures version == Original ==> AgreeExcept(s, r.store, {DataKeyForRole(role)})
    ensures AgreeExcept(s, r.store, {DataKeyForRole(role), ArchiveKey(DataKeyForRole(role), now)})
    ensures (version == Patched && DataKeyForRole(role) in s && s[DataKeyForRole(role)].Corrupt?
      && s[DataKeyForRole(role)] != Corrupt("")) ==>
      ArchiveKey(DataKeyForRole(role), now) in r.store
      && r.store[ArchiveKey(DataKeyForRole(role), now)] == s[DataKeyForRole(role)]
  {
    var key := DataKeyForRole(role);
    var d := ReadPartition(s, key, version, now);
    if d.value.Some? then Loaded(d.value.value, d.store)
    else Loaded(Zero, d.store[key := Parsed(PartitionDoc(Zero))])
  }

  /** `loadGlobalPatients()`: the decodable list under the global key, or `[]`,
      persisted under that key. */
  function LoadPatients(s: Store, version: Version, now: nat): (r: Loaded<seq<Patient>>)
    ensures GlobalPatientsKey in r.store
    ensures r.store[GlobalPatientsKey] == Parsed(PatientsDoc(r.value))
    ensures PlainPatients(s).Some? ==> r.value == PlainPatients(s).value && r.store == s
    ensures PlainPatients(s).None? ==> r.value == []
    ensures version == Original ==> AgreeExcept(s, r.store, {GlobalPatientsKey})
    ensures AgreeExcept(s, r.store, {GlobalPatientsKey, ArchiveKey(GlobalPatientsKey, now)})
  {
    var key := GlobalPatientsKey;
    var d := match version
      case Original => Read(if PlainPatients(s).Some? then Some(PatientsDoc(PlainPatients(s).value)) else None, s)
      case Patched => SafeRead(s, key, now);
    if d.value.Some? && d.value.value.PatientsDoc? then Loaded(d.value.value.patients, d.store)
    else Loaded([], d.store[key := Parsed(PatientsDoc([]))])
  }

  /** The partition keys of the seven roles, in scan order. */
  function RoleDataKeys(): (ks: seq<string>)
    ensures |ks| == |Roles|
    ensures forall i :: 0 <= i < |Roles| ==> ks[i] == DataKeyForRole(Roles[i])
  {
    seq(|Roles|, i requires 0 <= i < |Roles| => DataKeyForRole(Roles[i]))
  }

  /** The partitions stored under `keys`, as they stand in `s`. */
  function PartitionsAt(s: Store, keys: seq<string>): (ps: seq<Option<Partition>>)
    ensures |ps| == |keys|
    ensures forall i :: 0 <= i < |keys| ==> ps[i] == PlainPartition(s, keys[i])
  {
    seq(|keys|, i requires 0 <= i < |keys| => PlainPartition(s, keys[i]))
  }

  /** The seven partitions as they stand in `s`, in scan order. */
  function Partitions(s: Store): (ps: seq<Option<Partition>>)
    ensures |ps| == |Roles|
  {
    PartitionsAt(s, RoleDataKeys())
  }

  /** Reading the partitions under `keys` in order, as the cross-partition
      loops do: the partitions read, and the store after the reads. */
  function Scan(s: Store, version: Version, now: nat, keys: seq<string>): (r: Read<seq<Option<Partition>>>)
    ensures r.value.Some? && |r.value.value| == |keys|
  {
    if keys == [] then Read(Some([]), s)
    else
      var prev := Scan(s, version, now, keys[..|keys| - 1]);
      var d := ReadPartition(prev.store, keys[|keys| - 1], version, now);
      Read(Some(prev.value.value + [d.value]), d.store)
  }

  /** Keys that are pairwise different and never one another's archive key. */
  ghost predicate ScanSafe(keys: seq<string>) {
    (forall i, j :: 0 <= i < j < |keys| ==> keys[i] != keys[j]) &&
    (forall i, j, now: nat :: 0 <= i < |keys| && 0 <= j < |keys| ==> ArchiveKey(keys[i], now) != keys[j])
  }

  /** No role key holds an underscore. */
  lemma RoleKeyPlain(i: nat)
    requires i < |Roles|
    ensures '_' !in RoleKey(Roles[i])
  {
    RolesPlain();
    RoleKeyCanonical(Roles[i]);
  }

  /** No role name holds an underscore. */
  lemma RolesPlain()
    ensures forall j :: 0 <= j < |Roles| ==> '_' !in Roles[j]
  {
  }

  /** An archive key is never the partition key of a role whose key has no underscore. */
  lemma ArchiveKeyNotDataKey(key: string, now: nat, role: string)
    requires |key| >= |DataPrefix|
    requires '_' !in RoleKey(role)
    ensures ArchiveKey(key, now) != DataKeyForRole(role)
  {
    var a, d := ArchiveKey(key, now), DataKeyForRole(role);
    if |key| < |d| {
      assert d[|key|] == d[|DataPrefix|..][|key| - |DataPrefix|];
      assert d[|key|] in RoleKey(role);
    }
  }

  /** The seven role keys can be scanned without one read disturbing another. */
  lemma RoleDataKeysSafe()
    ensures ScanSafe(RoleDataKeys())
  {
    var ks := RoleDataKeys();
    RoleDataKeysDistinct();
    forall i, j, now: nat | 0 <= i < |ks| && 0 <= j < |ks| ensures ArchiveKey(ks[i], now) != ks[j] {
      RoleKeyPlain(j);
      ArchiveKeyNotDataKey(ks[i], now, Roles[j]);
    }
  }

  /** Reading a prefix of safe keys leaves the keys not yet read as they were. */
  lemma {:induction false} ScanKeepsLater(s: Store, version: Version, now: nat, keys: seq<string>, n: nat)
    requires ScanSafe(keys) && n <= |keys|
    ensures forall j :: n <= j < |keys| ==>
      PlainPartition(Scan(s, version, now, keys[..n]).store, keys[j]) == PlainPartition(s, keys[j])
  {
    if n > 0 {
      ScanKeepsLater(s, version, now, keys, n - 1);
      assert keys[..n][..n - 1] == keys[..n - 1];
      var prev := Scan(s, version, now, keys[..n - 1]).store;
      var key := keys[n - 1];
      var next := ReadPartition(prev, key, version, now).store;
      assert Scan(s, version, now, keys[..n]).store == next;
      forall j | n <= j < |keys| ensures PlainPartition(next, keys[j]) == PlainPartition(s, keys[j]) {
        assert keys[j] != key && keys[j] != ArchiveKey(key, now);
        assert keys[j] !in {key, ArchiveKey(key, now)};
      }
    }
  }

  /** Reading safe keys in order sees each partition as it stood before the scan. */
  lemma {:induction false} ScanParts(s: Store, version: Version, now: nat, keys: seq<string>, n: nat)
    requires ScanSafe(keys) && n <= |keys|
    ensures Scan(s, version, now, keys[..n]).value.value == PartitionsAt(s, keys[..n])
  {
    if n > 0 {
      ScanParts(s, version, now, keys, n - 1);
      ScanKeepsLater(s, version, now, keys, n - 1);
      var k := keys[..n];
      assert k[..n - 1] == keys[..n - 1] && k[n - 1] == keys[n - 1];
      var prev := Scan(s, version, now, keys[..n - 1]);
      var d := ReadPartition(prev.store, keys[n - 1], version, now);
      assert Scan(s, version, now, k).value.value == prev.value.value + [d.value];
      assert d.value == PlainPartition(s, keys[n - 1]);
      assert PartitionsAt(s, k) == PartitionsAt(s, keys[..n - 1]) + [PlainPartition(s, keys[n - 1])];
    }
  }

  /** A key that is no archive key of a scanned key holds the same partition after the scan. */
  lemma {:induction false} ScanKeepsPlain(s: Store, version: Version, now: nat, keys: seq<string>, key: string)
    requires forall i :: 0 <= i < |keys| ==> ArchiveKey(keys[i], now) != key
    ensures PlainPartition(Scan(s, version, now, keys).store, key) == PlainPartition(s, key)
  {
    if keys != [] {
      var n := |keys| - 1;
      ScanKeepsPlain(s, version, now, keys[..n], key);
      var prev := Scan(s, version, now, keys[..n]).store;
      var next := ReadPartition(prev, keys[n], version, now).store;
      if key != keys[n] {
        assert key !in {keys[n], ArchiveKey(keys[n], now)};
        assert PlainPartition(next, key) == PlainPartition(prev, key);
      }
    }
  }

  /** Scanning the seven roles leaves the partition of any role whose key has no
      underscore as it was. */
  lemma ScanKeepsRole(s: Store, version: Version, now: nat, role: string)
    requires '_' !in RoleKey(role)
    ensures PlainPartition(Scan(s, version, now, RoleDataKeys()).store, DataKeyForRole(role))
      == PlainPartition(s, DataKeyForRole(role))
  {
    var ks := RoleDataKeys();
    forall i | 0 <= i < |ks| ensures ArchiveKey(ks[i], now) != DataKeyForRole(role) {
      ArchiveKeyNotDataKey(ks[i], now, role);
    }
    ScanKeepsPlain(s, version, now, ks, DataKeyForRole(role));
  }

  /** app.js's scan writes nothing. */
  lemma {:induction false} ScanOriginal(s: Store, now: nat, keys: seq<string>)
    ensures Scan(s, Original, now, keys).store == s
  {
    if keys != [] { ScanOriginal(s, now, keys[..|keys| - 1]); }
  }

  /** Both versions see every role's partition as it stood before the scan:
      the archiving done by app.backup.js never hides a later role's partition.
      app.js leaves the store untouched. */
  lemma ScanSeesInitial(s: Store, version: Version, now: nat)
    ensures Scan(s, version, now, RoleDataKeys()).value.value == Partitions(s)
    ensures version == Original ==> Scan(s, version, now, RoleDataKeys()).store == s
  {
    RoleDataKeysSafe();
    ScanSeesAll(s, version, now, RoleDataKeys());
    ScanOriginal(s, now, RoleDataKeys());
  }

  /** Reading safe keys in order sees every partition as it stood before the scan. */
  lemma ScanSeesAll(s: Store, version: Version, now: nat, keys: seq<string>)
    requires ScanSafe(keys)
    ensures Scan(s, version, now, keys).value.value == PartitionsAt(s, keys)
  {
    ScanParts(s, version, now, keys, |keys|);
    assert keys[..|keys|] == keys;
  }
}
