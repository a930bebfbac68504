/** What the cross-partition loops gather from the seven role partitions:
    a patient's medical records (`getAllMedicalRecordsForPatient`), a
    patient's appointments (`showMyAppointmentsModal`) and the id-bearing
    prescriptions the sync collects. */
module CrossPartition {
  import opened Wrappers
  import opened Records
  import opened Sorting
  import opened ListEdits
  import opened Naming
  import opened Storage
  import opened PrescriptionSync

  /** A partition's medical records; a missing partition or collection gives none. */
  function PartMedical(p: Option<Partition>): seq<MedicalRecord> {
    if p.Some? && p.value.medicalRecords.Some? then p.value.medicalRecords.value else []
  }

  function PartAppointments(p: Option<Partition>): seq<Appointment> {
    if p.Some? && p.value.appointments.Some? then p.value.appointments.value else []
  }

  function PartPrescriptions(p: Option<Partition>): seq<Prescription> {
    if p.Some? && p.value.prescriptions.Some? then p.value.prescriptions.value else []
  }

  /** `acc = acc.concat(get(d).filter(keep))` over the partitions, in order. */
  function Gather<T(!new,==)>(parts: seq<Option<Partition>>, get: Option<Partition> -> seq<T>, keep: T -> bool): seq<T> {
    if parts == [] then []
    else Gather(parts[..|parts| - 1], get, keep) + Filter(get(parts[|parts| - 1]), keep)
  }

  /** Some partition holds `x`. */
  predicate InSomePart<T(==)>(parts: seq<Option<Partition>>, get: Option<Partition> -> seq<T>, x: T) {
    exists i :: 0 <= i < |parts| && x in get(parts[i])
  }

  lemma InSomePartSnoc<T>(parts: seq<Option<Partition>>, get: Option<Partition> -> seq<T>, x: T)
    requires parts != []
    ensures InSomePart(parts, get, x) <==>
      InSomePart(parts[..|parts| - 1], get, x) || x in get(parts[|parts| - 1])
  {
    var n := |parts| - 1;
    if InSomePart(parts, get, x) {
      var i :| 0 <= i < |parts| && x in get(parts[i]);
      if i < n { assert parts[..n][i] == parts[i]; }
    }
    if InSomePart(parts[..n], get, x) {
      var i :| 0 <= i < n && x in get(parts[..n][i]);
      assert parts[i] == parts[..n][i];
    }
  }

  /** An element is gathered exactly when it is kept and some partition holds it. */
  lemma {:induction false} GatherMembers<T(!new)>(parts: seq<Option<Partition>>, get: Option<Partition> -> seq<T>, keep: T -> bool)
    ensures forall x :: x in Gather(parts, get, keep) <==> keep(x) && InSomePart(parts, get, x)
  {
    if parts != [] {
      var n := |parts| - 1;
      GatherMembers(parts[..n], get, keep);
      forall x ensures x in Gather(parts, get, keep) <==> keep(x) && InSomePart(parts, get, x) {
        InSomePartSnoc(parts, get, x);
      }
    }
  }

  /** `m => m.patientId === pid`. */
  function MedicalFor(pid: string): (keep: MedicalRecord -> bool)
    ensures forall m :: keep(m) <==> m.patientId == pid
  {
    (m: MedicalRecord) => m.patientId == pid
  }

  /** `a => a.patientId === pid`. */
  function AppointmentFor(pid: string): (keep: Appointment -> bool)
    ensures forall a :: keep(a) <==> a.patientId == pid
  {
    (a: Appointment) => a.patientId == pid
  }

  /** `results.concat(d.medicalRecords.filter(m => m.patientId === pid))`, partition by partition. */
  function MedicalOf(parts: seq<Option<Partition>>, pid: string): seq<MedicalRecord> {
    Gather(parts, PartMedical, MedicalFor(pid))
  }

  /** `appts.concat(d.appointments.filter(a => a.patientId === pid))`, partition by partition. */
  function AppointmentsOf(parts: seq<Option<Partition>>, pid: string): seq<Appointment> {
    Gather(parts, PartAppointments, AppointmentFor(pid))
  }

  /** `collected`: every prescription with a truthy id, partition by partition. */
  function Collected(parts: seq<Option<Partition>>): seq<Prescription> {
    Gather(parts, PartPrescriptions, HasId)
  }

  function MedicalDate(m: MedicalRecord): int { m.datetime }

  /** `k` is the id of an id-bearing prescription of some partition. */
  predicate IdInSomePart(parts: seq<Option<Partition>>, k: string) {
    exists i :: 0 <= i < |parts| && k in KeptIds(PartPrescriptions(parts[i]))
  }

  /** The collected ids are the ids of every partition's id-bearing prescriptions. */
  lemma CollectedIds(parts: seq<Option<Partition>>)
    ensures forall k :: k in KeptIds(Collected(parts)) <==> IdInSomePart(parts, k)
  {
    GatherMembers(parts, PartPrescriptions, HasId);
    forall k ensures k in KeptIds(Collected(parts)) <==> IdInSomePart(parts, k) {
      if k in KeptIds(Collected(parts)) {
        var p :| p in Collected(parts) && HasId(p) && p.id == k;
        var i :| 0 <= i < |parts| && p in PartPrescriptions(parts[i]);
        assert k in KeptIds(PartPrescriptions(parts[i]));
      }
      if IdInSomePart(parts, k) {
        var i :| 0 <= i < |parts| && k in KeptIds(PartPrescriptions(parts[i]));
        var p :| p in PartPrescriptions(parts[i]) && HasId(p) && p.id == k;
        assert InSomePart(parts, PartPrescriptions, p);
        assert p in Collected(parts);
      }
    }
  }

  /** The medical records of a patient across the seven partitions, newest first. */
  function AllMedicalRecords(parts: seq<Option<Partition>>, pid: string): seq<MedicalRecord> {
    SortDesc(MedicalOf(parts, pid), MedicalDate)
  }

  /** `getAllMedicalRecordsForPatient(pid)` returns exactly the patient's records
      from the seven partitions as they stood before the call, newest first;
      app.js writes nothing while gathering them. */
  lemma AllMedicalRecordsSpec(s: Store, version: Version, now: nat, pid: string)
    ensures SortedDesc(AllMedicalRecords(Scan(s, version, now, RoleDataKeys()).value.value, pid), MedicalDate)
    ensures forall m :: m in AllMedicalRecords(Scan(s, version, now, RoleDataKeys()).value.value, pid) <==>
      m.patientId == pid && InSomePart(Partitions(s), PartMedical, m)
    ensures version == Original ==> Scan(s, version, now, RoleDataKeys()).store == s
  {
    ScanSeesInitial(s, version, now);
    var parts := Partitions(s);
    GatherMembers(parts, PartMedical, MedicalFor(pid));
    SortDescMembers(MedicalOf(parts, pid), MedicalDate);
  }

  /** The patient's appointments the self-service view lists: exactly those in the
      seven partitions as they stood before the call. */
  lemma MyAppointmentsSpec(s: Store, now: nat, pid: string)
    ensures forall a :: a in AppointmentsOf(Scan(s, Patched, now, RoleDataKeys()).value.value, pid) <==>
      a.patientId == pid && InSomePart(Partitions(s), PartAppointments, a)
  {
    ScanSeesInitial(s, Patched, now);
    GatherMembers(Partitions(s), PartAppointments, AppointmentFor(pid));
  }
}
