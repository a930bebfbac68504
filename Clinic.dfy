/** The running application of either version of the clinic code: the signed-in
    user, the active role partition `appData`, and the browser store, with the
    storage helpers and the form and button handlers that change them. Identifiers
    (`uid`) and clock readings (`Date.now`) are parameters. */
module Clinic {
  import opened Wrappers
  import opened Text
  import opened Records
  import opened Naming
  import opened Accounts
  import opened Sorting
  import opened OrderedDict
  import opened Storage
  import opened ListEdits
  import opened Reports
  import opened PrescriptionSync
  import opened CrossPartition
  import opened SyncEngine

  /** 'Apoteker', the role the sync hooks name. */
  const Pharmacist: string := Roles[4]

  /** 'Petugas Administrasi', the second target of a new prescription. */
  const Registrar: string := Roles[0]

  /** 'Pasien', whose partition the self-service queue form writes. */
  const PatientRole: string := Roles[6]

  /** The store with `p` saved under the role's partition key (`saveDataForRole`). */
  function Saved(s: Store, role: string, p: Partition): Store {
    s[DataKeyForRole(role) := Parsed(PartitionDoc(p))]
  }

  /** `logs` with one entry in front and nothing else changed. */
  function Logged(p: Partition, text: string, id: string, at: int): (r: Partition)
    ensures r.logs.Some? && |r.logs.value| == |p.logs.GetOr([])| + 1
    ensures r.logs.value[0] == LogEntry(id, text, at) && r.logs.value[1..] == p.logs.GetOr([])
    ensures r.(logs := p.logs) == p
  {
    p.(logs := Some([LogEntry(id, text, at)] + p.logs.GetOr([])))
  }

  /** The role `logActivity` saves under: app.js reads `currentUser.role`
      unguarded, app.backup.js falls back to 'system'. */
  function LogRole(u: Option<User>, version: Version): (role: string)
    requires version == Original ==> u.Some?
    ensures u.Some? && u.value.role != [] ==> role == u.value.role
    ensures version == Patched && (u.None? || u.value.role == []) ==> role == "system"
  {
    if version == Patched && (u.None? || u.value.role == []) then "system" else u.value.role
  }

  /** `propagatedFrom`: the signed-in user's role, or 'system'. */
  function Origin(u: Option<User>): string {
    if u.Some? then u.value.role else "system"
  }

  /** `role.toLowerCase() === 'apoteker'`. */
  predicate IsPharmacist(role: string) {
    Lower(role) == "apoteker"
  }

  /** `currentUser && currentUser.role && currentUser.role.toLowerCase() === role.toLowerCase()`. */
  predicate IsCurrentRole(u: Option<User>, role: string) {
    u.Some? && u.value.role != [] && Lower(u.value.role) == Lower(role)
  }

  /** `currentUser.name || currentUser.username || ''`. */
  function DisplayName(u: User): string {
    if u.name != [] then u.name else u.username
  }

  /** The load that `prepareDashboardFor` and `openPrescriptions` end with, and
      the store after it. In app.backup.js the pharmacist's partition is synced
      and loaded twice, once by the wrapper installed at the end of the file and
      once by the function it wraps; otherwise the role's partition is loaded. */
  function ActiveLoad(s: Store, role: string, version: Version, now: nat): (r: Loaded<Partition>)
    ensures version == Patched && IsPharmacist(role) ==>
      DataKeyForRole(Pharmacist) in r.store && r.store[DataKeyForRole(Pharmacist)] == Parsed(PartitionDoc(r.value))
    ensures !(version == Patched && IsPharmacist(role)) ==>
      DataKeyForRole(role) in r.store && r.store[DataKeyForRole(role)] == Parsed(PartitionDoc(r.value))
  {
    if version == Patched && IsPharmacist(role) then
      var once := LoadPartition(SyncStore(s, Pharmacist, now), Pharmacist, Patched, now);
      LoadPartition(SyncStore(once.store, Pharmacist, now), Pharmacist, Patched, now)
    else LoadPartition(s, role, version, now)
  }

  /** The pharmacist's role key holds no underscore, and the sync writes a
      partition under it. */
  lemma PharmacistKey(s: Store, now: nat)
    ensures Pharmacist != [] && '_' !in RoleKey(Pharmacist)
    ensures PlainPartition(SyncStore(s, Pharmacist, now), DataKeyForRole(Pharmacist)).Some?
    ensures StoredPrescriptions(SyncStore(s, Pharmacist, now), DataKeyForRole(Pharmacist)) == SyncedList(s, Pharmacist)
  {
    RoleKeyPlain(4);
    SyncStoreWrites(s, Pharmacist, now);
    SyncStoreList(s, Pharmacist, now);
  }

  /** Syncing a role's partition keeps every id it held and adds every id held
      by an id-bearing prescription of any partition. */
  lemma SyncGathersIds(s: Store, now: nat)
    ensures forall k :: IdInSomePart(Partitions(s), k) || k in IdSet(StoredPrescriptions(s, DataKeyForRole(Pharmacist))) ==>
      k in IdSet(StoredPrescriptions(SyncStore(s, Pharmacist, now), DataKeyForRole(Pharmacist)))
  {
    PharmacistKey(s, now);
    SyncedListSpec(s, Pharmacist);
  }

  /** After the pharmacist's dashboard is prepared (or the prescription list
      opened) in app.backup.js, the active list holds the id of every id-bearing
      prescription that any partition held before. */
  lemma {:induction false} PharmacistSeesAll(s: Store, role: string, now: nat)
    requires IsPharmacist(role)
    ensures forall k :: IdInSomePart(Partitions(s), k) ==>
      k in IdSet(ActiveLoad(s, role, Patched, now).value.prescriptions.GetOr([]))
  {
    var key := DataKeyForRole(Pharmacist);
    var s1 := SyncStore(s, Pharmacist, now);
    PharmacistKey(s, now);
    SyncGathersIds(s, now);
    var once := LoadPartition(s1, Pharmacist, Patched, now);
    assert once.store == s1;
    var s2 := SyncStore(s1, Pharmacist, now);
    PharmacistKey(s1, now);
    SyncGathersIds(s1, now);
    var last := LoadPartition(s2, Pharmacist, Patched, now);
    assert last.value.prescriptions.GetOr([]) == StoredPrescriptions(s2, key);
  }

  /** A record saved in any role's partition is listed in the patient's history. */
  lemma SavedRecordListed(s: Store, i: nat, p: Partition, rec: MedicalRecord)
    requires i < |Roles| && DataKeyForRole(Roles[i]) in s && s[DataKeyForRole(Roles[i])] == Parsed(PartitionDoc(p))
    requires rec in p.medicalRecords.GetOr([])
    ensures rec in AllMedicalRecords(Partitions(s), rec.patientId)
  {
    assert Partitions(s)[i] == Some(p);
    assert InSomePart(Partitions(s), PartMedical, rec);
    GatherMembers(Partitions(s), PartMedical, MedicalFor(rec.patientId));
    SortDescMembers(MedicalOf(Partitions(s), rec.patientId), MedicalDate);
  }

  /** The store after a new prescription is announced in app.backup.js: copied
      into the pharmacist's and then the registrar's partition, then the
      last-sync marker written. */
  function Announced(s: Store, rec: Prescription, from: string, now: nat): Store {
    Propagate(Propagate(s, Pharmacist, rec, from, now), Registrar, rec, from, now)[MarkerKey := Parsed(MarkerDoc(now, rec.id))]
  }

  /** An announced prescription is held by both the pharmacist and the registrar. */
  lemma AnnouncedReachesBoth(s: Store, rec: Prescription, from: string, now: nat)
    requires rec.id != []
    ensures ContainsId(StoredPrescriptions(Announced(s, rec, from, now), DataKeyForRole(Pharmacist)), rec.id)
    ensures ContainsId(StoredPrescriptions(Announced(s, rec, from, now), DataKeyForRole(Registrar)), rec.id)
  {
    RoleKeyPlain(4);
    RoleDataKeysDistinct();
    assert DataKeyForRole(Roles[4]) != DataKeyForRole(Roles[0]);
    PropagatedToBoth(s, Pharmacist, Registrar, rec, from, now);
    var s2 := Propagate(Propagate(s, Pharmacist, rec, from, now), Registrar, rec, from, now);
    MarkerKeepsPartitions(s2, Parsed(MarkerDoc(now, rec.id)), Pharmacist);
    MarkerKeepsPartitions(s2, Parsed(MarkerDoc(now, rec.id)), Registrar);
  }

  /** Propagating to `a` and then to `b` leaves the prescription with both,
      when `a`'s key is not one that `b`'s propagation can archive. */
  lemma PropagatedToBoth(s: Store, a: string, b: string, rec: Prescription, from: string, now: nat)
    requires a != [] && b != [] && rec.id != []
    requires '_' !in RoleKey(a) && DataKeyForRole(a) != DataKeyForRole(b)
    ensures ContainsId(StoredPrescriptions(Propagate(Propagate(s, a, rec, from, now), b, rec, from, now), DataKeyForRole(a)), rec.id)
    ensures ContainsId(StoredPrescriptions(Propagate(Propagate(s, a, rec, from, now), b, rec, from, now), DataKeyForRole(b)), rec.id)
  {
    var s1 := Propagate(s, a, rec, from, now);
    PropagateHolds(s, a, rec, from, now);
    PropagateKeepsOther(s1, b, a, rec, from, now);
    PropagateHolds(s1, b, rec, from, now);
  }

  /** Writing the last-sync marker leaves every role partition as it was. */
  lemma MarkerKeepsPartitions(s: Store, v: Entry, role: string)
    ensures StoredPrescriptions(s[MarkerKey := v], DataKeyForRole(role)) == StoredPrescriptions(s, DataKeyForRole(role))
  {
  }

  /** `getOrCreatePatientForCurrentUser()`: the id of the first stored patient
      whose name matches the user's display name ignoring case, or of a new
      patient put at the front of the stored list; nothing without a user. */
  function PatientFor(s: Store, u: Option<User>, newId: string, version: Version, now: nat): (r: Read<string>)
    ensures u.None? ==> r == Read(None, s)
    ensures u.Some? ==> r.value.Some? && PlainPatients(r.store).Some?
    ensures u.Some? ==> exists p :: p in PlainPatients(r.store).value && p.id == r.value.value && NameMatches(p, DisplayName(u.value))
  {
    if u.None? then Read(None, s)
    else
      var l := LoadPatients(s, version, now);
      var e := EnsurePatient(l.value, DisplayName(u.value), u.value.username, newId);
      if FindPatientByName(l.value, DisplayName(u.value)).Some? then
        var i :| FirstNameMatchAt(l.value, DisplayName(u.value), i) && l.value[i] == FindPatientByName(l.value, DisplayName(u.value)).value;
        assert l.value[i] in l.value;
        Read(Some(e.id), l.store)
      else
        var t := l.store[GlobalPatientsKey := Parsed(PatientsDoc(e.patients))];
        assert e.patients[0] in e.patients;
        Read(Some(e.id), t)
  }

  /** A second lookup finds the patient the first one found or created, and writes nothing. */
  lemma PatientForIdempotent(s: Store, u: Option<User>, id1: string, id2: string, version: Version, now1: nat, now2: nat)
    ensures PatientFor(PatientFor(s, u, id1, version, now1).store, u, id2, version, now2) == PatientFor(s, u, id1, version, now1)
  {
    if u.Some? {
      var name := DisplayName(u.value);
      var l := LoadPatients(s, version, now1);
      EnsurePatientIdempotent(l.value, name, u.value.username, id1, id2);
      var e := EnsurePatient(l.value, name, u.value.username, id1);
      var r := PatientFor(s, u, id1, version, now1);
      assert PlainPatients(r.store) == Some(e.patients);
      var l2 := LoadPatients(r.store, version, now2);
      assert l2.value == e.patients && l2.store == r.store;
      if FindPatientByName(l.value, name).None? {
        assert NameMatches(e.patients[0], name);
        assert FindPatientByName(e.patients, name).Some?;
      }
    }
  }

  /** The store after the patient's queue form saves appointment `a`: the
      patient partition is read (an undecodable one archived), `a` goes in front
      of its appointments, and the partition is written back. Where no patient
      partition existed, the one written holds appointments only. */
  function Queued(s: Store, a: Appointment, now: nat): (r: Store)
    ensures a in PartAppointments(PlainPartition(r, DataKeyForRole(PatientRole)))
    ensures PlainPartition(s, DataKeyForRole(PatientRole)).None? ==>
      PlainPartition(r, DataKeyForRole(PatientRole)).Some? && !Complete(PlainPartition(r, DataKeyForRole(PatientRole)).value)
    ensures PlainPartition(s, DataKeyForRole(PatientRole)).Some? ==>
      PlainPartition(r, DataKeyForRole(PatientRole)) == Some(PlainPartition(s, DataKeyForRole(PatientRole)).value.(appointments :=
        Some([a] + PlainPartition(s, DataKeyForRole(PatientRole)).value.appointments.GetOr([]))))
  {
    var key := DataKeyForRole(PatientRole);
    var d := ReadPartition(s, key, Patched, now);
    var base := d.value.GetOr(Partition(Some([]), None, None, None, None, None));
    var written := base.(appointments := Some([a] + base.appointments.GetOr([])));
    assert a in written.appointments.value;
    d.store[key := Parsed(PartitionDoc(written))]
  }

  /** The browser's state for one page. */
  class App {
    const version: Version
    var store: Store
    var appData: Partition
    var currentUser: Option<User>

    /** A page load over whatever the store already holds: no one signed in and
        the active partition `{}`. */
    constructor (version: Version, initial: Store)
      ensures this.version == version && store == initial
      ensures appData == NoCollections && currentUser == None
    {
      this.version := version;
      store := initial;
      appData := NoCollections;
      currentUser := None;
    }

    /** `saveGlobalPatients(list)`. */
    method SaveGlobalPatients(list: seq<Patient>)
      modifies this
      ensures store == old(store)[GlobalPatientsKey := Parsed(PatientsDoc(list))]
      ensures appData == old(appData) && currentUser == old(currentUser)
    {
      store := store[GlobalPatientsKey := Parsed(PatientsDoc(list))];
    }

    /** `loadGlobalPatients()`: the stored list, or `[]` written back. */
    method LoadGlobalPatients(now: nat) returns (list: seq<Patient>)
      modifies this
      ensures list == LoadPatients(old(store), version, now).value
      ensures store == LoadPatients(old(store), version, now).store
      ensures appData == old(appData) && currentUser == old(currentUser)
    {
      var found: Option<seq<Patient>>;
      if version == Original {
        found := PlainPatients(store);
      } else {
        var d := SafeRead(store, GlobalPatientsKey, now);
        store := d.store;
        found := if d.value.Some? && d.value.value.PatientsDoc? then Some(d.value.value.patients) else None;
      }
      if found.Some? {
        list := found.value;
      } else {
        list := [];
        SaveGlobalPatients(list);
      }
    }

    /** `saveDataForRole(role)`: the active partition written under the role's key. */
    method SaveDataForRole(role: string)
      modifies this
      ensures store == Saved(old(store), role, appData)
      ensures appData == old(appData) && currentUser == old(currentUser)
    {
      store := store[DataKeyForRole(role) := Parsed(PartitionDoc(appData))];
    }

    /** `loadDataForRole(role)`: the stored partition becomes active, or six
        empty collections do and are written back. */
    method LoadDataForRole(role: string, now: nat) returns (p: Partition)
      modifies this
      ensures currentUser == old(currentUser)
      ensures store == LoadPartition(old(store), role, version, now).store
      ensures appData == LoadPartition(old(store), role, version, now).value && p == appData
    {
      var key := DataKeyForRole(role);
      var d := ReadPartition(store, key, version, now);
      store := d.store;
      if d.value.Some? {
        appData := d.value.value;
      } else {
        appData := Zero;
        SaveDataForRole(role);
      }
      p := appData;
    }

    /** `logActivity(text)`: one entry in front of the active logs, then the
        active partition saved. */
    method LogActivity(text: string, id: string, now: nat)
      requires version == Original ==> currentUser.Some?
      modifies this
      ensures currentUser == old(currentUser)
      ensures appData == Logged(old(appData), text, id, now)
      ensures store == Saved(old(store), LogRole(currentUser, version), appData)
    {
      appData := appData.(logs := Some([LogEntry(id, text, now)] + appData.logs.GetOr([])));
      SaveDataForRole(LogRole(currentUser, version));
    }

    /** `addMedicalRecord(patientId, doctorName, notes)`: the record goes in front
        of the active records, is saved under the user's role and logged; the
        role's stored partition then holds it. */
    method AddMedicalRecord(patientId: string, doctorName: string, notes: string, id: string, logId: string, now: nat)
      returns (rec: MedicalRecord)
      requires currentUser.Some?
      modifies this
      ensures currentUser == old(currentUser)
      ensures rec == MedicalRecord(id, patientId, doctorName, notes, now)
      ensures appData == Logged(old(appData).(medicalRecords := Some([rec] + old(appData).medicalRecords.GetOr([]))),
        "Rekam medis: " + patientId + " oleh " + doctorName, logId, now)
      ensures store == Saved(Saved(old(store), currentUser.value.role,
          old(appData).(medicalRecords := Some([rec] + old(appData).medicalRecords.GetOr([])))),
        LogRole(currentUser, version), appData)
      ensures rec in PartMedical(PlainPartition(store, DataKeyForRole(currentUser.value.role)))
    {
      rec := MedicalRecord(id, patientId, doctorName, notes, now);
      appData := appData.(medicalRecords := Some([rec] + appData.medicalRecords.GetOr([])));
      ghost var withRecord := appData;
      SaveDataForRole(currentUser.value.role);
      LogActivity("Rekam medis: " + patientId + " oleh " + doctorName, logId, now);
      assert appData.medicalRecords == withRecord.medicalRecords;
    }

    /** One pass over the partitions under `keys` (the seven role keys, in role
        order), each read the way the version reads a key, appending
        `get(d).filter(keep)`. */
    method GatherAll<T(!new,==)>(keys: seq<string>, get: Option<Partition> -> seq<T>, keep: T -> bool, now: nat)
      returns (acc: seq<T>)
      modifies this
      ensures store == Scan(old(store), version, now, keys).store
      ensures acc == Gather(Scan(old(store), version, now, keys).value.value, get, keep)
      ensures appData == old(appData) && currentUser == old(currentUser)
    {
      ghost var s0 := store;
      acc := [];
      var i := 0;
      assert keys[..0] == [];
      while i < |keys|
        invariant 0 <= i <= |keys|
        invariant store == Scan(s0, version, now, keys[..i]).store
        invariant acc == Gather(Scan(s0, version, now, keys[..i]).value.value, get, keep)
        invariant appData == old(appData) && currentUser == old(currentUser)
      {
        ghost var sc := Scan(s0, version, now, keys[..i]);
        ghost var prev := sc.value.value;
        var d := ReadPartition(store, keys[i], version, now);
        assert keys[..i + 1][..i] == keys[..i];
        assert Scan(s0, version, now, keys[..i + 1]) == Read(Some(prev + [d.value]), d.store);
        assert Gather(prev + [d.value], get, keep) == Gather(prev, get, keep) + Filter(get(d.value), keep) by {
          assert (prev + [d.value])[..|prev|] == prev;
        }
        store := d.store;
        acc := acc + Filter(get(d.value), keep);
        i := i + 1;
      }
      assert keys[..|keys|] == keys;
    }

    /** `getAllMedicalRecordsForPatient(pid)`: the patient's records from the
        seven partitions as they stood before the call, newest first. */
    method GetAllMedicalRecordsForPatient(pid: string, now: nat) returns (rs: seq<MedicalRecord>)
      modifies this
      ensures rs == AllMedicalRecords(Partitions(old(store)), pid)
      ensures store == Scan(old(store), version, now, RoleDataKeys()).store
      ensures appData == old(appData) && currentUser == old(currentUser)
    {
      var results := GatherAll(RoleDataKeys(), PartMedical, MedicalFor(pid), now);
      ScanSeesInitial(old(store), version, now);
      rs := SortDesc(results, MedicalDate);
    }

    /** Preparing the dashboard for `user`: the load `ActiveLoad` describes. */
    method PrepareDashboardFor(user: User, now: nat)
      modifies this
      ensures currentUser == old(currentUser)
      ensures store == ActiveLoad(old(store), user.role, version, now).store
      ensures appData == ActiveLoad(old(store), user.role, version, now).value
    {
      if version == Patched && IsPharmacist(user.role) {
        SyncAllPrescriptionsForRole(Pharmacist, now);
        var once := LoadDataForRole(Pharmacist, now);
        SyncAllPrescriptionsForRole(Pharmacist, now);
        var twice := LoadDataForRole(Pharmacist, now);
      } else {
        var p := LoadDataForRole(user.role, now);
      }
    }

    /** The login form with the role check: on success the user is signed in,
        the patient list and the role's partition are loaded, and the dashboard
        is prepared; on failure nothing changes. */
    method SubmitLogin(username: string, password: string, selectedRole: string, now: nat)
      returns (r: Result<User, LoginError>)
      modifies this
      ensures r == Login(username, password, selectedRole)
      ensures r.Failure? ==> store == old(store) && appData == old(appData) && currentUser == old(currentUser)
      ensures r.Success? ==> currentUser == Some(r.value)
      ensures r.Success? ==> (
        var s1 := LoadPartition(LoadPatients(old(store), version, now).store, r.value.role, version, now).store;
        store == ActiveLoad(s1, r.value.role, version, now).store
        && appData == ActiveLoad(s1, r.value.role, version, now).value)
    {
      r := Login(username, password, selectedRole);
      if r.Success? {
        currentUser := Some(r.value);
        var patients := LoadGlobalPatients(now);
        var p := LoadDataForRole(r.value.role, now);
        PrepareDashboardFor(r.value, now);
      }
    }

    /** The logout button: the active partition becomes `{}`; the store and
        `currentUser` are left as they are. */
    method Logout()
      modifies this
      ensures appData == NoCollections
      ensures store == old(store) && currentUser == old(currentUser)
    {
      appData := NoCollections;
    }

    /** The patient delete button. */
    method DeletePatient(id: string, now: nat)
      modifies this
      ensures store == LoadPatients(old(store), version, now).store
        [GlobalPatientsKey := Parsed(PatientsDoc(RemovePatient(LoadPatients(old(store), version, now).value, id)))]
      ensures appData == old(appData) && currentUser == old(currentUser)
    {
      var list := LoadGlobalPatients(now);
      list := RemovePatient(list, id);
      SaveGlobalPatients(list);
    }

    /** The patient form: a name that trims to nothing is refused; otherwise the
        trimmed name, phone and notes and the untrimmed birth date edit the
        patient `editId`, or a new patient goes in front. */
    method SubmitPatient(editId: string, name: string, phone: string, dob: string, notes: string, newId: string, now: nat)
      returns (ok: bool)
      modifies this
      ensures ok <==> Trim(name) != []
      ensures !ok ==> store == old(store)
      ensures ok && editId != [] ==> (
        var l := LoadPatients(old(store), version, now);
        store == l.store[GlobalPatientsKey := Parsed(PatientsDoc(
          EditPatient(l.value, editId, Trim(name), Trim(phone), dob, Trim(notes))))])
      ensures ok && editId == [] ==> (
        var l := LoadPatients(old(store), version, now);
        store == l.store[GlobalPatientsKey := Parsed(PatientsDoc(
          [Patient(newId, Trim(name), Trim(phone), dob, Trim(notes))] + l.value))])
      ensures appData == old(appData) && currentUser == old(currentUser)
    {
      var n := Trim(name);
      if n == [] {
        ok := false;
        return;
      }
      var ph, nt := Trim(phone), Trim(notes);
      var list := LoadGlobalPatients(now);
      if editId != [] {
        list := EditPatient(list, editId, n, ph, dob, nt);
      } else {
        list := [Patient(newId, n, ph, dob, nt)] + list;
      }
      SaveGlobalPatients(list);
      ok := true;
    }

    /** The appointment delete button. */
    method DeleteAppointment(id: string)
      requires currentUser.Some?
      modifies this
      ensures currentUser == old(currentUser)
      ensures appData == old(appData).(appointments := Some(RemoveAppointment(old(appData).appointments.GetOr([]), id)))
      ensures store == Saved(old(store), currentUser.value.role, appData)
    {
      appData := appData.(appointments := Some(RemoveAppointment(appData.appointments.GetOr([]), id)));
      SaveDataForRole(currentUser.value.role);
    }

    /** The appointment form: a patient and a time are required, and the active
        partition must have appointments (`findIndex`/`unshift` fail on a missing
        one). An edit updates the first appointment with the id in place; a new
        appointment goes in front, scheduled. Then the change is logged and saved. */
    method SubmitAppointment(editId: string, patientId: string, doctor: string, dt: Option<int>,
                             newId: string, logId: string, now: nat)
      returns (ok: bool)
      requires currentUser.Some?
      modifies this
      ensures currentUser == old(currentUser)
      ensures ok <==> patientId != [] && dt.Some? && old(appData).appointments.Some?
      ensures !ok ==> store == old(store) && appData == old(appData)
      ensures ok && editId != [] ==> appData == Logged(old(appData).(appointments :=
        Some(EditAppointment(old(appData).appointments.value, editId, patientId, Trim(doctor), dt.value))),
        "Janji diupdate: " + editId, logId, now)
      ensures ok && editId == [] ==> appData == Logged(old(appData).(appointments :=
        Some([Appointment(newId, patientId, Trim(doctor), dt.value, "scheduled", None)] + old(appData).appointments.value)),
        "Janji dibuat untuk pasien " + patientId, logId, now)
      ensures ok ==> store == Saved(Saved(old(store), LogRole(currentUser, version), appData), currentUser.value.role, appData)
    {
      if patientId == [] || dt.None? || appData.appointments.None? {
        ok := false;
        return;
      }
      var list := appData.appointments.value;
      if editId != [] {
        appData := appData.(appointments := Some(EditAppointment(list, editId, patientId, Trim(doctor), dt.value)));
        LogActivity("Janji diupdate: " + editId, logId, now);
      } else {
        list := [Appointment(newId, patientId, Trim(doctor), dt.value, "scheduled", None)] + list;
        appData := appData.(appointments := Some(list));
        LogActivity("Janji dibuat untuk pasien " + patientId, logId, now);
      }
      SaveDataForRole(currentUser.value.role);
      ok := true;
    }

    /** The payment form: a patient and a positive amount are required; the
        method defaults to 'Tunai'. The payment goes in front, is saved and
        logged, and the revenue grows by exactly its amount. */
    method SubmitPayment(patientId: string, amount: int, paymentMethod: string, newId: string, logId: string, now: nat)
      returns (ok: bool)
      requires currentUser.Some?
      modifies this
      ensures currentUser == old(currentUser)
      ensures ok <==> patientId != [] && amount > 0 && old(appData).payments.Some?
      ensures !ok ==> store == old(store) && appData == old(appData)
      ensures ok ==> appData == Logged(old(appData).(payments := Some(
          [Payment(newId, patientId, Some(amount), if paymentMethod == [] then "Tunai" else paymentMethod, "", now)]
          + old(appData).payments.value)),
        "Pembayaran: " + newId + " pasien:" + patientId + " rp " + Decimal(amount), logId, now)
      ensures ok ==> store == Saved(Saved(old(store), currentUser.value.role, old(appData).(payments := appData.payments)),
        LogRole(currentUser, version), appData)
      ensures ok ==> Revenue(appData.payments.value) == Revenue(old(appData).payments.value) + amount
    {
      if patientId == [] || amount <= 0 || appData.payments.None? {
        ok := false;
        return;
      }
      var m := if paymentMethod == [] then "Tunai" else paymentMethod;
      var rec := Payment(newId, patientId, Some(amount), m, "", now);
      ghost var before := appData.payments.value;
      appData := appData.(payments := Some([rec] + appData.payments.value));
      SaveDataForRole(currentUser.value.role);
      LogActivity("Pembayaran: " + newId + " pasien:" + patientId + " rp " + Decimal(amount), logId, now);
      RevenueAfterPayment(rec, before);
      ok := true;
    }

    /** The stock delete button. */
    method DeleteStock(id: string)
      requires currentUser.Some?
      modifies this
      ensures currentUser == old(currentUser)
      ensures appData == old(appData).(stock := Some(RemoveStock(old(appData).stock.GetOr([]), id)))
      ensures store == Saved(old(store), currentUser.value.role, appData)
    {
      appData := appData.(stock := Some(RemoveStock(appData.stock.GetOr([]), id)));
      SaveDataForRole(currentUser.value.role);
    }

    /** The stock form: a name that trims to nothing is refused, and the active
        partition must have stock. An edit updates the first item with the id in
        place; a new item goes in front. Then the change is logged and saved. */
    method SubmitStock(editId: string, name: string, qty: int, unit: string, min: int,
                       newId: string, logId: string, now: nat)
      returns (ok: bool)
      requires currentUser.Some?
      modifies this
      ensures currentUser == old(currentUser)
      ensures ok <==> Trim(name) != [] && old(appData).stock.Some?
      ensures !ok ==> store == old(store) && appData == old(appData)
      ensures ok && editId != [] ==> appData == Logged(old(appData).(stock :=
        Some(EditStock(old(appData).stock.value, editId, Trim(name), qty, Trim(unit), min))),
        "Stok update: " + Trim(name), logId, now)
      ensures ok && editId == [] ==> appData == Logged(old(appData).(stock :=
        Some([StockItem(newId, Trim(name), qty, Trim(unit), Some(min))] + old(appData).stock.value)),
        "Stok tambah: " + Trim(name), logId, now)
      ensures ok ==> store == Saved(Saved(old(store), LogRole(currentUser, version), appData), currentUser.value.role, appData)
    {
      var n, u := Trim(name), Trim(unit);
      if n == [] || appData.stock.None? {
        ok := false;
        return;
      }
      var list := appData.stock.value;
      ghost var saved := store;
      if editId != [] {
        appData := appData.(stock := Some(EditStock(list, editId, n, qty, u, min)));
        LogActivity("Stok update: " + n, logId, now);
      } else {
        list := [StockItem(newId, n, qty, u, Some(min))] + list;
        appData := appData.(stock := Some(list));
        LogActivity("Stok tambah: " + n, logId, now);
      }
      assert store == Saved(saved, LogRole(currentUser, version), appData);
      SaveDataForRole(currentUser.value.role);
      ok := true;
    }

    /** Opening the prescription list: the load `ActiveLoad` describes, then,
        when the list is not empty, the patient list read for the names. */
    method OpenPrescriptions(now: nat) returns (list: seq<Prescription>)
      requires currentUser.Some?
      modifies this
      ensures currentUser == old(currentUser)
      ensures appData == ActiveLoad(old(store), currentUser.value.role, version, now).value
      ensures list == appData.prescriptions.GetOr([])
      ensures list == [] ==> store == ActiveLoad(old(store), currentUser.value.role, version, now).store
      ensures list != [] ==> store == LoadPatients(ActiveLoad(old(store), currentUser.value.role, version, now).store, version, now).store
    {
      if version == Patched && IsPharmacist(currentUser.value.role) {
        SyncAllPrescriptionsForRole(Pharmacist, now);
        var once := LoadDataForRole(Pharmacist, now);
        SyncAllPrescriptionsForRole(Pharmacist, now);
        var twice := LoadDataForRole(Pharmacist, now);
      } else {
        var p := LoadDataForRole(currentUser.value.role, now);
      }
      list := appData.prescriptions.GetOr([]);
      if list != [] {
        var patients := LoadGlobalPatients(now);
      }
    }

    /** The pick-up button: the first prescription with the id is marked picked
        up and saved; an absent id (or no prescriptions) changes nothing. */
    method PickUpPrescription(id: string) returns (ok: bool)
      requires currentUser.Some?
      modifies this
      ensures currentUser == old(currentUser)
      ensures ok <==> old(appData).prescriptions.Some? && FindIndex(old(appData).prescriptions.value, id, PrescriptionId) >= 0
      ensures ok ==> appData == old(appData).(prescriptions := Some(PickUp(old(appData).prescriptions.value, id)))
      ensures ok ==> store == Saved(old(store), currentUser.value.role, appData)
      ensures !ok ==> store == old(store) && appData == old(appData)
    {
      if appData.prescriptions.None? {
        ok := false;
        return;
      }
      var list := appData.prescriptions.value;
      var idx := FindIndex(list, id, PrescriptionId);
      if idx >= 0 {
        list := list[idx := list[idx].(pickedUp := true)];
        appData := appData.(prescriptions := Some(list));
        SaveDataForRole(currentUser.value.role);
        ok := true;
      } else {
        ok := false;
      }
    }

    /** The prescription form: the new prescription (items split at commas and
        trimmed, not picked up) goes in front, is saved and logged. In
        app.backup.js it is then announced: copied to the pharmacist and the
        registrar, and the last-sync marker written, so both of them hold it. */
    method SubmitPrescription(pid: string, itemsText: string, newId: string, logId: string, now: nat)
      returns (ok: bool)
      requires currentUser.Some? && newId != []
      modifies this
      ensures currentUser == old(currentUser)
      ensures ok <==> old(appData).prescriptions.Some?
      ensures !ok ==> store == old(store) && appData == old(appData)
      ensures ok ==> appData == Logged(old(appData).(prescriptions := Some(
          [Prescription(newId, pid, ParseItems(itemsText), currentUser.value.name, Some(now), false, None, None)]
          + old(appData).prescriptions.value)),
        "Resep dibuat untuk pasien " + pid, logId, now)
      ensures ok && version == Original ==> (store ==
        Saved(Saved(old(store), currentUser.value.role, old(appData).(prescriptions := appData.prescriptions)),
          LogRole(currentUser, version), appData))
      ensures ok && version == Patched ==> (store ==
        Announced(Saved(Saved(old(store), currentUser.value.role, old(appData).(prescriptions := appData.prescriptions)),
          LogRole(currentUser, version), appData), appData.prescriptions.value[0], Origin(currentUser), now))
      ensures ok && version == Patched ==>
        ContainsId(StoredPrescriptions(store, DataKeyForRole(Pharmacist)), newId)
        && ContainsId(StoredPrescriptions(store, DataKeyForRole(Registrar)), newId)
    {
      if appData.prescriptions.None? {
        ok := false;
        return;
      }
      var items := ParseItems(itemsText);
      var rec := Prescription(newId, pid, items, currentUser.value.name, Some(now), false, None, None);
      appData := appData.(prescriptions := Some([rec] + appData.prescriptions.value));
      SaveDataForRole(currentUser.value.role);
      LogActivity("Resep dibuat untuk pasien " + pid, logId, now);
      assert appData.prescriptions.value[0] == rec;
      ghost var saved := store;
      if version == Patched {
        Announce(rec, now);
        assert store == Announced(saved, rec, Origin(currentUser), now);
      }
      ok := true;
    }

    /** What app.backup.js does after saving a new prescription: the
        `prescription-saved-inline` event is handled, then the last-sync marker
        is written. */
    method Announce(rec: Prescription, now: nat)
      requires version == Patched
      modifies this
      ensures appData == old(appData) && currentUser == old(currentUser)
      ensures store == Announced(old(store), rec, Origin(currentUser), now)
      ensures rec.id != [] ==>
        ContainsId(StoredPrescriptions(store, DataKeyForRole(Pharmacist)), rec.id)
        && ContainsId(StoredPrescriptions(store, DataKeyForRole(Registrar)), rec.id)
    {
      OnPrescriptionSaved(rec, now);
      store := store[MarkerKey := Parsed(MarkerDoc(now, rec.id))];
      if rec.id != [] {
        AnnouncedReachesBoth(old(store), rec, Origin(currentUser), now);
      }
    }

    /** Opening the report: the role's partition loaded, then the patient list;
        the report counts patients and appointments, sums the payments and lists
        the low stock. */
    method OpenReports(now: nat) returns (r: Report)
      requires currentUser.Some?
      modifies this
      ensures currentUser == old(currentUser)
      ensures (
        var l := LoadPartition(old(store), currentUser.value.role, version, now);
        var ps := LoadPatients(l.store, version, now);
        r == MakeReport(ps.value, l.value) && store == ps.store && appData == l.value)
    {
      var p := LoadDataForRole(currentUser.value.role, now);
      var patients := LoadGlobalPatients(now);
      r := MakeReport(patients, appData);
    }

    /** `propagatePrescriptionToRole(target, presc)` (app.backup.js only). */
    method PropagatePrescriptionToRole(target: string, presc: Prescription, now: nat)
      requires version == Patched
      modifies this
      ensures store == Propagate(old(store), target, presc, Origin(currentUser), now)
      ensures appData == old(appData) && currentUser == old(currentUser)
    {
      if target == [] || presc.id == [] {
        return;
      }
      var key := DataKeyForRole(target);
      var d := ReadPartition(store, key, version, now);
      store := d.store;
      var targetData := d.value.GetOr(Zero);
      var list := targetData.prescriptions.GetOr([]);
      if !ContainsId(list, presc.id) {
        var copy := Annotate(presc, Origin(currentUser), now);
        store := store[key := Parsed(PartitionDoc(targetData.(prescriptions := Some([copy] + list))))];
      }
    }

    /** The `prescription-saved-inline` handler: a prescription with an id is
        propagated to the pharmacist, then to the registrar. */
    method OnPrescriptionSaved(rec: Prescription, now: nat)
      requires version == Patched
      modifies this
      ensures store == Propagate(Propagate(old(store), Pharmacist, rec, Origin(currentUser), now),
        Registrar, rec, Origin(currentUser), now)
      ensures appData == old(appData) && currentUser == old(currentUser)
    {
      if rec.id == [] {
        return;
      }
      PropagatePrescriptionToRole(Pharmacist, rec, now);
      PropagatePrescriptionToRole(Registrar, rec, now);
    }

    /** `syncAllPrescriptionsForRole(role)` (app.backup.js only): the role's
        partition rewritten as `SyncStore` describes, then reloaded when it is
        the signed-in user's. */
    method SyncAllPrescriptionsForRole(role: string, now: nat)
      requires version == Patched
      modifies this
      ensures currentUser == old(currentUser)
      ensures !(role != [] && IsCurrentRole(currentUser, role)) ==> appData == old(appData)
      ensures store == SyncStore(old(store), role, now)
      ensures role != [] && IsCurrentRole(currentUser, role) ==>
        Some(appData) == PlainPartition(store, DataKeyForRole(role))
    {
      if role == [] {
        return;
      }
      WriteSynced(role, now);
      SyncStoreHolds(old(store), role, now);
      if IsCurrentRole(currentUser, role) {
        var p := LoadDataForRole(role, now);
      }
    }

    /** The body of the sync: collect every id-bearing prescription of the seven
        partitions, then write the role's partition with them merged in. */
    method WriteSynced(role: string, now: nat)
      requires version == Patched && role != []
      modifies this
      ensures appData == old(appData) && currentUser == old(currentUser)
      ensures store == SyncStore(old(store), role, now)
    {
      ghost var sc := Scan(store, Patched, now, RoleDataKeys());
      var collected := GatherAll(RoleDataKeys(), PartPrescriptions, HasId, now);
      WriteMerged(role, collected, sc.value.value, now);
      SyncStoreIs(old(store), role, now, sc, ReadPartition(sc.store, DataKeyForRole(role), Patched, now));
    }

    /** The role's partition (or six empty collections) read, its prescriptions
        replaced by the merge of `collected` with its own list, and written back. */
    method WriteMerged(role: string, collected: seq<Prescription>, ghost parts: seq<Option<Partition>>, now: nat)
      requires version == Patched && collected == Collected(parts)
      modifies this
      ensures appData == old(appData) && currentUser == old(currentUser)
      ensures (
        var d := ReadPartition(old(store), DataKeyForRole(role), Patched, now);
        store == d.store[DataKeyForRole(role) := Parsed(PartitionDoc(SyncPart(parts, d.value)))])
    {
      var key := DataKeyForRole(role);
      var d := ReadPartition(store, key, version, now);
      store := d.store;
      var roleData := d.value.GetOr(Zero);
      var finalPresc := SyncedById(collected, roleData.prescriptions.GetOr([]));
      SyncPartIs(parts, d.value, collected, finalPresc);
      store := store[key := Parsed(PartitionDoc(roleData.(prescriptions := Some(finalPresc))))];
    }

    /** `getOrCreatePatientForCurrentUser()` (app.backup.js only). */
    method GetOrCreatePatientForCurrentUser(newId: string, now: nat) returns (pid: Option<string>)
      requires version == Patched
      modifies this
      ensures pid == PatientFor(old(store), currentUser, newId, version, now).value
      ensures store == PatientFor(old(store), currentUser, newId, version, now).store
      ensures appData == old(appData) && currentUser == old(currentUser)
    {
      if currentUser.None? {
        return None;
      }
      var name := DisplayName(currentUser.value);
      var list := LoadGlobalPatients(now);
      var p := FindPatientByName(list, name);
      if p.Some? {
        pid := Some(p.value.id);
      } else {
        var created := Patient(newId, name, "", "", "Auto-created for user " + currentUser.value.username);
        list := [created] + list;
        SaveGlobalPatients(list);
        pid := Some(newId);
      }
    }

    /** The patient's own appointment list (app.backup.js only): the patient is
        found or created, then the appointments with that patient's id are
        gathered from the seven partitions in role order. */
    method ShowMyAppointments(newId: string, now: nat) returns (pid: Option<string>, appts: seq<Appointment>)
      requires version == Patched
      modifies this
      ensures pid == PatientFor(old(store), currentUser, newId, version, now).value
      ensures pid.None? || pid.value == [] ==>
        appts == [] && store == PatientFor(old(store), currentUser, newId, version, now).store
      ensures pid.Some? && pid.value != [] ==> (
        var s1 := PatientFor(old(store), currentUser, newId, version, now).store;
        appts == AppointmentsOf(Scan(s1, version, now, RoleDataKeys()).value.value, pid.value)
        && store == Scan(s1, version, now, RoleDataKeys()).store)
      ensures appData == old(appData) && currentUser == old(currentUser)
    {
      pid := GetOrCreatePatientForCurrentUser(newId, now);
      if pid.None? || pid.value == [] {
        appts := [];
        return;
      }
      appts := GatherAll(RoleDataKeys(), PartAppointments, AppointmentFor(pid.value), now);
    }

    /** The patient's queue form (app.backup.js only): a time is required; the
        scheduled appointment, authored by the user, is queued in the patient
        partition as `Queued` describes. */
    method SubmitNewQueue(pid: string, doctor: string, dt: Option<int>, newId: string, now: nat)
      returns (ok: bool)
      requires version == Patched && currentUser.Some?
      modifies this
      ensures appData == old(appData) && currentUser == old(currentUser)
      ensures ok <==> dt.Some?
      ensures !ok ==> store == old(store)
      ensures ok ==> store == Queued(old(store),
        Appointment(newId, pid, Trim(doctor), dt.value, "scheduled", Some(currentUser.value.username)), now)
    {
      var d0 := Trim(doctor);
      if dt.None? {
        ok := false;
        return;
      }
      var newA := Appointment(newId, pid, d0, dt.value, "scheduled", Some(currentUser.value.username));
      store := Queued(store, newA, now);
      ok := true;
    }
  }
}
