/** The prescription propagation and sync of app.backup.js on the store:
    `propagatePrescriptionToRole` (app.backup.js:1373-1389) and the store
    effect of `syncAllPrescriptionsForRole` (app.backup.js:1391-1433). */
module SyncEngine {
  import opened Wrappers
  import opened Records
  import opened Naming
  import opened Sorting
  import opened Storage
  import opened PrescriptionSync
  import opened CrossPartition

  /** The copy written into another partition: the original plus where and when
      it was propagated from; every other field, `datetime` included, is kept. */
  function Annotate(p: Prescription, from: string, now: nat): (c: Prescription)
    ensures c.id == p.id && c.datetime == p.datetime && c.items == p.items
    ensures c.propagatedFrom == Some(from) && c.propagatedAt == Some(now)
    ensures c.(propagatedFrom := p.propagatedFrom, propagatedAt := p.propagatedAt) == p
  {
    p.(propagatedFrom := Some(from), propagatedAt := Some(now))
  }

  /** `list.find(p => p.id === id)` finds something. */
  predicate ContainsId(list: seq<Prescription>, id: string) {
    exists p :: p in list && p.id == id
  }

  /** The number of entries of `list` with id `id`. */
  function CountId(list: seq<Prescription>, id: string): nat {
    if list == [] then 0 else (if list[0].id == id then 1 else 0) + CountId(list[1..], id)
  }

  lemma {:induction false} CountIdZero(list: seq<Prescription>, id: string)
    ensures CountId(list, id) == 0 <==> !ContainsId(list, id)
  {
    if list != [] {
      CountIdZero(list[1..], id);
      assert forall p :: p in list <==> p == list[0] || p in list[1..];
    }
  }

  /** The prescriptions of the partition stored under `key`, or none. */
  function StoredPrescriptions(s: Store, key: string): seq<Prescription> {
    PartPrescriptions(PlainPartition(s, key))
  }

  /** `propagatePrescriptionToRole(target, presc)`; `from` is the signed-in
      user's role, or 'system' when no one is signed in. */
  function Propagate(s: Store, target: string, presc: Prescription, from: string, now: nat): (r: Store)
    ensures target == [] || presc.id == [] ==> r == s
  {
    if target == [] || presc.id == [] then s
    else
      var key := DataKeyForRole(target);
      var d := ReadPartition(s, key, Patched, now);
      var td := d.value.GetOr(Zero);
      var list := td.prescriptions.GetOr([]);
      if ContainsId(list, presc.id) then d.store
      else d.store[key := Parsed(PartitionDoc(td.(prescriptions := Some([Annotate(presc, from, now)] + list))))]
  }

  /** A prescription whose id the target already holds is not written at all. */
  lemma PropagateExisting(s: Store, target: string, presc: Prescription, from: string, now: nat)
    requires ContainsId(StoredPrescriptions(s, DataKeyForRole(target)), presc.id)
    ensures Propagate(s, target, presc, from, now) == s
  {
  }

  /** Otherwise the target's prescriptions grow by the annotated copy at the front,
      its other collections stay as they were, and no other partition changes. */
  lemma PropagateInserts(s: Store, target: string, presc: Prescription, from: string, now: nat)
    requires target != [] && presc.id != []
    requires !ContainsId(StoredPrescriptions(s, DataKeyForRole(target)), presc.id)
    ensures var key := DataKeyForRole(target);
      var before := PlainPartition(s, key).GetOr(Zero);
      var r := Propagate(s, target, presc, from, now);
      key in r &&
      r[key] == Parsed(PartitionDoc(before.(prescriptions := Some([Annotate(presc, from, now)] + before.prescriptions.GetOr([]))))) &&
      AgreeExcept(s, r, {key, ArchiveKey(key, now)})
  {
  }

  /** After a propagation with a target and an id, the target holds a
      prescription with that id, whether it was written now or was there before. */
  lemma PropagateHolds(s: Store, target: string, presc: Prescription, from: string, now: nat)
    requires target != [] && presc.id != []
    ensures ContainsId(StoredPrescriptions(Propagate(s, target, presc, from, now), DataKeyForRole(target)), presc.id)
  {
    var key := DataKeyForRole(target);
    var d := ReadPartition(s, key, Patched, now);
    var list := d.value.GetOr(Zero).prescriptions.GetOr([]);
    if !ContainsId(list, presc.id) {
      var r := Propagate(s, target, presc, from, now);
      assert StoredPrescriptions(r, key)[0] == Annotate(presc, from, now);
    }
  }

  /** A propagation leaves the partition of every other role whose key has no
      underscore as it was. */
  lemma PropagateKeepsOther(s: Store, target: string, other: string, presc: Prescription, from: string, now: nat)
    requires '_' !in RoleKey(other) && DataKeyForRole(other) != DataKeyForRole(target)
    ensures PlainPartition(Propagate(s, target, presc, from, now), DataKeyForRole(other))
      == PlainPartition(s, DataKeyForRole(other))
  {
    ArchiveKeyNotDataKey(DataKeyForRole(target), now, other);
  }

  /** Propagating twice leaves exactly one entry with the id in the target. */
  lemma PropagateTwice(s: Store, target: string, presc: Prescription, from1: string, from2: string, now1: nat, now2: nat)
    requires target != [] && presc.id != []
    requires !ContainsId(StoredPrescriptions(s, DataKeyForRole(target)), presc.id)
    ensures var s2 := Propagate(Propagate(s, target, presc, from1, now1), target, presc, from2, now2);
      CountId(StoredPrescriptions(s2, DataKeyForRole(target)), presc.id) == 1
  {
    var key := DataKeyForRole(target);
    var s1 := Propagate(s, target, presc, from1, now1);
    PropagateInserts(s, target, presc, from1, now1);
    var list := StoredPrescriptions(s, key);
    CountIdZero(list, presc.id);
    var l1 := StoredPrescriptions(s1, key);
    assert l1 == [Annotate(presc, from1, now1)] + list;
    assert l1[1..] == list;
    assert l1[0] in l1;
    PropagateExisting(s1, target, presc, from2, now2);
  }

  /** The partition the sync writes: the role's own partition (or six empty
      collections) with `prescriptions` replaced by the merge of what was
      collected from `parts` with the role's own list. */
  function SyncPart(parts: seq<Option<Partition>>, own: Option<Partition>): (r: Partition)
    ensures r.prescriptions.Some?
    ensures r.(prescriptions := own.GetOr(Zero).prescriptions) == own.GetOr(Zero)
  {
    own.GetOr(Zero).(prescriptions := Some(Synced(Collected(parts), PartPrescriptions(own))))
  }

  /** The sync's result for a role, on the store. */
  function SyncStore(s: Store, role: string, now: nat): (r: Store)
    ensures role == [] ==> r == s
  {
    if role == [] then s
    else
      var sc := Scan(s, Patched, now, RoleDataKeys());
      var key := DataKeyForRole(role);
      var d := ReadPartition(sc.store, key, Patched, now);
      d.store[key := Parsed(PartitionDoc(SyncPart(sc.value.value, d.value)))]
  }

  /** The partition the sync writes, given the merged list. */
  lemma SyncPartIs(parts: seq<Option<Partition>>, own: Option<Partition>, collected: seq<Prescription>, merged: seq<Prescription>)
    requires collected == Collected(parts)
    requires merged == Synced(collected, own.GetOr(Zero).prescriptions.GetOr([]))
    ensures SyncPart(parts, own) == own.GetOr(Zero).(prescriptions := Some(merged))
  {
  }

  /** The sync's write, given the scan and the read of the role's key. */
  lemma SyncStoreIs(s: Store, role: string, now: nat, sc: Read<seq<Option<Partition>>>, d: Read<Partition>)
    requires role != [] && sc == Scan(s, Patched, now, RoleDataKeys())
    requires d == ReadPartition(sc.store, DataKeyForRole(role), Patched, now)
    ensures SyncStore(s, role, now) == d.store[DataKeyForRole(role) := Parsed(PartitionDoc(SyncPart(sc.value.value, d.value)))]
  {
  }

  /** After the sync, the role's key holds a decodable partition. */
  lemma SyncStoreHolds(s: Store, role: string, now: nat)
    requires role != []
    ensures PlainPartition(SyncStore(s, role, now), DataKeyForRole(role)).Some?
  {
    var sc := Scan(s, Patched, now, RoleDataKeys());
    var key := DataKeyForRole(role);
    var d := ReadPartition(sc.store, key, Patched, now);
    SyncStoreIs(s, role, now, sc, d);
    WrittenPartition(d.store, key, SyncPart(sc.value.value, d.value));
  }

  /** A partition written under a key is read back from it. */
  lemma WrittenPartition(t: Store, key: string, p: Partition)
    ensures PlainPartition(t[key := Parsed(PartitionDoc(p))], key) == Some(p)
  {
  }

  /** The prescriptions the sync writes for `role`. */
  function SyncedList(s: Store, role: string): seq<Prescription> {
    Synced(Collected(Partitions(s)), StoredPrescriptions(s, DataKeyForRole(role)))
  }

  /** The partition the sync writes for `role`, in terms of the store before it:
      only `prescriptions` is replaced, by the merge of everything collected from
      the seven partitions with the role's own list. */
  lemma SyncStoreWrites(s: Store, role: string, now: nat)
    requires role != [] && '_' !in RoleKey(role)
    ensures DataKeyForRole(role) in SyncStore(s, role, now)
    ensures SyncStore(s, role, now)[DataKeyForRole(role)]
      == Parsed(PartitionDoc(SyncPart(Partitions(s), PlainPartition(s, DataKeyForRole(role)))))
    ensures SyncPart(Partitions(s), PlainPartition(s, DataKeyForRole(role))).prescriptions == Some(SyncedList(s, role))
  {
    ScanSeesInitial(s, Patched, now);
    ScanKeepsRole(s, Patched, now, role);
  }

  /** After the sync, the role's stored prescriptions are the synced list. */
  lemma SyncStoreList(s: Store, role: string, now: nat)
    requires role != [] && '_' !in RoleKey(role)
    ensures StoredPrescriptions(SyncStore(s, role, now), DataKeyForRole(role)) == SyncedList(s, role)
  {
    SyncStoreWrites(s, role, now);
  }

  /** The other roles' partitions are left alone. */
  lemma SyncStoreKeepsOthers(s: Store, role: string, now: nat, i: nat)
    requires role != [] && '_' !in RoleKey(role)
    requires i < |Roles| && RoleDataKeys()[i] != DataKeyForRole(role)
    ensures PlainPartition(SyncStore(s, role, now), RoleDataKeys()[i]) == PlainPartition(s, RoleDataKeys()[i])
  {
    var ki := RoleDataKeys()[i];
    RoleKeyPlain(i);
    ScanKeepsRole(s, Patched, now, Roles[i]);
    ArchiveKeyNotDataKey(DataKeyForRole(role), now, Roles[i]);
    SyncStoreKeepsKey(s, role, now, ki);
  }

  /** A key that the scan leaves alone and that is neither the role's key nor
      its archive key holds the same partition after the sync. */
  lemma SyncStoreKeepsKey(s: Store, role: string, now: nat, k: string)
    requires role != []
    requires k != DataKeyForRole(role) && k != ArchiveKey(DataKeyForRole(role), now)
    requires PlainPartition(Scan(s, Patched, now, RoleDataKeys()).store, k) == PlainPartition(s, k)
    ensures PlainPartition(SyncStore(s, role, now), k) == PlainPartition(s, k)
  {
    var sc := Scan(s, Patched, now, RoleDataKeys());
    var key := DataKeyForRole(role);
    var d := ReadPartition(sc.store, key, Patched, now);
    SyncStoreIs(s, role, now, sc, d);
    ReadWriteKeepsOther(sc.store, key, now, Parsed(PartitionDoc(SyncPart(sc.value.value, d.value))), k);
  }

  /** Reading `key` and then writing it leaves the partition under any key
      other than `key` and its archive key as it was. */
  lemma ReadWriteKeepsOther(t: Store, key: string, now: nat, v: Entry, k: string)
    requires k != key && k != ArchiveKey(key, now)
    ensures PlainPartition(ReadPartition(t, key, Patched, now).store[key := v], k) == PlainPartition(t, k)
  {
    var d := ReadPartition(t, key, Patched, now);
    assert k !in {key, ArchiveKey(key, now)};
    assert PlainPartition(d.store, k) == PlainPartition(t, k);
  }

  /** The written list is newest first with distinct ids; its ids are those of
      every partition's id-bearing prescriptions together with the role's own;
      a role's own record is kept verbatim, and any other id keeps the copy the
      dedup chose. */
  lemma SyncedListSpec(s: Store, role: string)
    ensures SortedDesc(SyncedList(s, role), Ts)
    ensures DistinctIds(SyncedList(s, role))
    ensures forall k :: k in IdSet(SyncedList(s, role)) <==>
      IdInSomePart(Partitions(s), k) || k in IdSet(StoredPrescriptions(s, DataKeyForRole(role)))
    ensures forall p :: p in SyncedList(s, role) && p.id in IdSet(StoredPrescriptions(s, DataKeyForRole(role))) ==>
      p == LastWithId(StoredPrescriptions(s, DataKeyForRole(role)), p.id)
    ensures forall p :: p in SyncedList(s, role) && p.id !in IdSet(StoredPrescriptions(s, DataKeyForRole(role))) ==>
      exists j :: IsWinner(Collected(Partitions(s)), p.id, j) && Collected(Partitions(s))[j] == p
  {
    SyncedSpec(Collected(Partitions(s)), StoredPrescriptions(s, DataKeyForRole(role)));
    CollectedIds(Partitions(s));
  }

  /** A store that holds the synced partition for `role` and every other role's
      partition unchanged collects nothing whose id the synced list lacks. */
  lemma RerunIdsFrom(s: Store, s1: Store, role: string)
    requires PlainPartition(s1, DataKeyForRole(role)) == Some(SyncPart(Partitions(s), PlainPartition(s, DataKeyForRole(role))))
    requires SyncPart(Partitions(s), PlainPartition(s, DataKeyForRole(role))).prescriptions == Some(SyncedList(s, role))
    requires forall i :: 0 <= i < |Roles| && RoleDataKeys()[i] != DataKeyForRole(role) ==>
      PlainPartition(s1, RoleDataKeys()[i]) == PlainPartition(s, RoleDataKeys()[i])
    ensures KeptIds(Collected(Partitions(s1))) <= IdSet(SyncedList(s, role))
  {
    var key := DataKeyForRole(role);
    var f := SyncedList(s, role);
    SyncedListSpec(s, role);
    CollectedIds(Partitions(s1));
    forall k | k in KeptIds(Collected(Partitions(s1))) ensures k in IdSet(f) {
      var i :| 0 <= i < |Partitions(s1)| && k in KeptIds(PartPrescriptions(Partitions(s1)[i]));
      if RoleDataKeys()[i] == key {
        assert PartPrescriptions(Partitions(s1)[i]) == f;
        var p :| p in f && HasId(p) && p.id == k;
      } else {
        assert Partitions(s1)[i] == Partitions(s)[i];
        assert IdInSomePart(Partitions(s), k);
      }
    }
  }

  /** Everything a second sync collects already has its id in the first sync's list. */
  lemma SyncRerunIds(s: Store, role: string, now: nat)
    requires role != [] && '_' !in RoleKey(role)
    ensures KeptIds(Collected(Partitions(SyncStore(s, role, now)))) <= IdSet(SyncedList(s, role))
  {
    var s1 := SyncStore(s, role, now);
    SyncStoreWrites(s, role, now);
    forall i | 0 <= i < |Roles| && RoleDataKeys()[i] != DataKeyForRole(role)
      ensures PlainPartition(s1, RoleDataKeys()[i]) == PlainPartition(s, RoleDataKeys()[i])
    {
      SyncStoreKeepsOthers(s, role, now, i);
    }
    RerunIdsFrom(s, s1, role);
  }

  /** Syncing a store whose role list is `f` again, with nothing new collected,
      keeps the records of `f`. */
  lemma StableFrom(s1: Store, s2: Store, role: string, f: seq<Prescription>)
    requires StoredPrescriptions(s1, DataKeyForRole(role)) == f && DistinctIds(f)
    requires KeptIds(Collected(Partitions(s1))) <= IdSet(f)
    requires StoredPrescriptions(s2, DataKeyForRole(role)) == SyncedList(s1, role)
    ensures DistinctIds(StoredPrescriptions(s2, DataKeyForRole(role)))
    ensures forall p :: p in StoredPrescriptions(s2, DataKeyForRole(role)) <==> p in f
  {
    SyncedStable(Collected(Partitions(s1)), f);
  }

  /** Re-running the sync with no write in between changes no record: the role's
      prescriptions hold the same records, once each. */
  lemma SyncStoreStable(s: Store, role: string, now1: nat, now2: nat)
    requires role != [] && '_' !in RoleKey(role)
    ensures DistinctIds(StoredPrescriptions(SyncStore(SyncStore(s, role, now1), role, now2), DataKeyForRole(role)))
    ensures forall p ::
      (p in StoredPrescriptions(SyncStore(SyncStore(s, role, now1), role, now2), DataKeyForRole(role))
       <==> p in StoredPrescriptions(SyncStore(s, role, now1), DataKeyForRole(role)))
  {
    var s1 := SyncStore(s, role, now1);
    SyncStoreList(s, role, now1);
    SyncStoreList(s1, role, now2);
    SyncedListSpec(s, role);
    SyncRerunIds(s, role, now1);
    StableFrom(s1, SyncStore(s1, role, now2), role, SyncedList(s, role));
  }
}
