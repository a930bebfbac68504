/** The list edits inside the form and button handlers: `filter` by id,
    `findIndex` followed by an indexed assignment, `map` over the patient list,
    the comma-separated prescription items, and the patient lookup by name. */
module ListEdits {
  import opened Wrappers
  import opened Text
  import opened Records

  /** `r` is `s` with some of its elements deleted: the rest keep their order. */
  ghost predicate Subsequence<T>(r: seq<T>, s: seq<T>) {
    r == [] || (s != [] && ((r[0] == s[0] && Subsequence(r[1..], s[1..])) || Subsequence(r, s[1..])))
  }

  /** A subsequence holds each element at most as often as the sequence does. */
  lemma {:induction false} SubsequenceCounts<T>(r: seq<T>, s: seq<T>)
    requires Subsequence(r, s)
    ensures forall x :: multiset(r)[x] <= multiset(s)[x]
  {
    if r != [] {
      assert s == [s[0]] + s[1..];
      if r[0] == s[0] && Subsequence(r[1..], s[1..]) {
        assert r == [r[0]] + r[1..];
        SubsequenceCounts(r[1..], s[1..]);
      } else {
        SubsequenceCounts(r, s[1..]);
      }
    }
  }

  /** `s.filter(keep)`: the elements that pass, in the order of `s` (see
      FilterCounts and FilterInOrder). */
  function Filter<T(!new)>(s: seq<T>, keep: T -> bool): (r: seq<T>)
    ensures forall x :: x in r <==> x in s && keep(x)
    ensures |r| <= |s|
  {
    if s == [] then []
    else
      assert forall x :: x in s <==> x == s[0] || x in s[1..];
      (if keep(s[0]) then [s[0]] else []) + Filter(s[1..], keep)
  }

  /** Each passing element is kept as often as it occurs; the others never. */
  lemma {:induction false} FilterCounts<T(!new)>(s: seq<T>, keep: T -> bool)
    ensures forall x :: multiset(Filter(s, keep))[x] == if keep(x) then multiset(s)[x] else 0
  {
    if s != [] {
      assert s == [s[0]] + s[1..];
      FilterCounts(s[1..], keep);
    }
  }

  /** The kept elements stay in the order of `s`. */
  lemma {:induction false} FilterInOrder<T(!new)>(s: seq<T>, keep: T -> bool)
    ensures Subsequence(Filter(s, keep), s)
  {
    if s != [] {
      var rest := Filter(s[1..], keep);
      FilterInOrder(s[1..], keep);
      if keep(s[0]) {
        assert ([s[0]] + rest)[1..] == rest;
      } else {
        assert [] + rest == rest;
      }
    }
  }

  /** FilterCounts and FilterInOrder fix the result: any subsequence of `s`
      holding exactly the passing elements, each as often as `s` does, is the filter. */
  lemma {:induction false} FilterUnique<T(!new)>(s: seq<T>, keep: T -> bool, r: seq<T>)
    requires Subsequence(r, s)
    requires forall x :: multiset(r)[x] == if keep(x) then multiset(s)[x] else 0
    ensures r == Filter(s, keep)
  {
    if s == [] {
    } else {
      var h, t := s[0], s[1..];
      assert s == [h] + t;
      if keep(h) {
        assert multiset(r)[h] == multiset(t)[h] + 1;
        if Subsequence(r, t) {
          SubsequenceCounts(r, t);
          assert false;
        }
        assert r == [r[0]] + r[1..];
        FilterUnique(t, keep, r[1..]);
      } else {
        assert h !in r;
        if r != [] {
          assert r[0] in r;
        }
        FilterUnique(t, keep, r);
      }
    }
  }

  /** A one-element list is kept or dropped whole. */
  lemma FilterOne<T(!new)>(x: T, keep: T -> bool)
    ensures Filter([x], keep) == if keep(x) then [x] else []
  {
    assert [x][1..] == [];
  }

  /** Filtering keeps the order: it distributes over concatenation. */
  lemma {:induction false} FilterConcat<T(!new)>(a: seq<T>, b: seq<T>, keep: T -> bool)
    ensures Filter(a + b, keep) == Filter(a, keep) + Filter(b, keep)
  {
    if a != [] {
      assert (a + b)[0] == a[0];
      assert (a + b)[1..] == a[1..] + b;
      FilterConcat(a[1..], b, keep);
    } else {
      assert a + b == b;
    }
  }

  /** A filter that accepts nothing returns nothing. */
  lemma {:induction false} FilterNone<T(!new)>(s: seq<T>, keep: T -> bool)
    requires forall i :: 0 <= i < |s| ==> !keep(s[i])
    ensures Filter(s, keep) == []
  {
    if s != [] { FilterNone(s[1..], keep); }
  }

  /** A filter that rejects nothing returns its input. */
  lemma {:induction false} FilterAll<T(!new)>(s: seq<T>, keep: T -> bool)
    requires forall i :: 0 <= i < |s| ==> keep(s[i])
    ensures Filter(s, keep) == s
  {
    if s != [] { FilterAll(s[1..], keep); }
  }

  /** `s.findIndex(x => idOf(x) === id)`: the first position holding `id`, or -1. */
  function FindIndex<T>(s: seq<T>, id: string, idOf: T -> string): (r: int)
    ensures -1 <= r < |s|
    ensures r >= 0 ==> idOf(s[r]) == id && forall j :: 0 <= j < r ==> idOf(s[j]) != id
    ensures r == -1 <==> forall j :: 0 <= j < |s| ==> idOf(s[j]) != id
  {
    if s == [] then -1
    else if idOf(s[0]) == id then 0
    else
      var k := FindIndex(s[1..], id, idOf);
      if k == -1 then -1 else k + 1
  }

  /** `s[idx] = x` on an array: -1 adds a property `JSON.stringify` never writes,
      so the stored list is unchanged. */
  function AssignAt<T>(s: seq<T>, idx: int, x: T): (r: seq<T>)
    requires -1 <= idx < |s|
    ensures |r| == |s|
    ensures forall j :: 0 <= j < |s| && j != idx ==> r[j] == s[j]
    ensures idx >= 0 ==> r[idx] == x
  {
    if idx >= 0 then s[idx := x] else s
  }

  function PatientId(p: Patient): string { p.id }
  function AppointmentId(a: Appointment): string { a.id }
  function StockId(s: StockItem): string { s.id }
  function PrescriptionId(p: Prescription): string { p.id }

  /** The patient delete button: every patient with that id goes, the rest stay in order. */
  function RemovePatient(list: seq<Patient>, id: string): (r: seq<Patient>)
    ensures forall p :: p in r <==> p in list && p.id != id
    ensures forall p :: multiset(r)[p] == if p.id != id then multiset(list)[p] else 0
    ensures Subsequence(r, list)
  {
    var keep := (p: Patient) => p.id != id;
    FilterCounts(list, keep);
    FilterInOrder(list, keep);
    Filter(list, keep)
  }

  /** The patient form in edit mode: `{...x, name, phone, dob, notes}` on the matching id. */
  function EditPatient(list: seq<Patient>, id: string, name: string, phone: string, dob: string, notes: string)
    : (r: seq<Patient>)
    ensures |r| == |list|
    ensures forall i :: 0 <= i < |list| ==> r[i].id == list[i].id
    ensures forall i :: 0 <= i < |list| && list[i].id != id ==> r[i] == list[i]
    ensures forall i :: 0 <= i < |list| && list[i].id == id ==> r[i] == Patient(id, name, phone, dob, notes)
  {
    seq(|list|, i requires 0 <= i < |list| =>
      if list[i].id == id then list[i].(name := name, phone := phone, dob := dob, notes := notes) else list[i])
  }

  /** The appointment delete button: every appointment with that id goes, the rest stay in order. */
  function RemoveAppointment(list: seq<Appointment>, id: string): (r: seq<Appointment>)
    ensures forall a :: a in r <==> a in list && a.id != id
    ensures forall a :: multiset(r)[a] == if a.id != id then multiset(list)[a] else 0
    ensures Subsequence(r, list)
  {
    var keep := (a: Appointment) => a.id != id;
    FilterCounts(list, keep);
    FilterInOrder(list, keep);
    Filter(list, keep)
  }

  /** The stock delete button: every item with that id goes, the rest stay in order. */
  function RemoveStock(list: seq<StockItem>, id: string): (r: seq<StockItem>)
    ensures forall s :: s in r <==> s in list && s.id != id
    ensures forall s :: multiset(r)[s] == if s.id != id then multiset(list)[s] else 0
    ensures Subsequence(r, list)
  {
    var keep := (s: StockItem) => s.id != id;
    FilterCounts(list, keep);
    FilterInOrder(list, keep);
    Filter(list, keep)
  }

  /** The appointment form in edit mode: the first appointment with the id gets
      the new patient, doctor and time and keeps its id, status and author; with
      no such appointment the list is unchanged. */
  function EditAppointment(list: seq<Appointment>, id: string, patientId: string, doctor: string, dt: int)
    : (r: seq<Appointment>)
    ensures |r| == |list|
    ensures FindIndex(list, id, AppointmentId) == -1 ==> r == list
    ensures forall j :: 0 <= j < |list| && j != FindIndex(list, id, AppointmentId) ==> r[j] == list[j]
    ensures FindIndex(list, id, AppointmentId) >= 0 ==>
      var a, b := list[FindIndex(list, id, AppointmentId)], r[FindIndex(list, id, AppointmentId)];
      b.id == a.id == id && b.status == a.status && b.createdBy == a.createdBy
      && b.patientId == patientId && b.doctor == doctor && b.datetime == dt
  {
    var idx := FindIndex(list, id, AppointmentId);
    if idx >= 0 then AssignAt(list, idx, list[idx].(patientId := patientId, doctor := doctor, datetime := dt))
    else list
  }

  /** The stock form in edit mode: the first item with the id gets the new name,
      quantity, unit and threshold and keeps its id; with no such item the list
      is unchanged. */
  function EditStock(list: seq<StockItem>, id: string, name: string, qty: int, unit: string, min: int)
    : (r: seq<StockItem>)
    ensures |r| == |list|
    ensures FindIndex(list, id, StockId) == -1 ==> r == list
    ensures forall j :: 0 <= j < |list| && j != FindIndex(list, id, StockId) ==> r[j] == list[j]
    ensures FindIndex(list, id, StockId) >= 0 ==>
      r[FindIndex(list, id, StockId)] == StockItem(id, name, qty, unit, Some(min))
  {
    var idx := FindIndex(list, id, StockId);
    if idx >= 0 then AssignAt(list, idx, list[idx].(name := name, qty := qty, unit := unit, minThreshold := Some(min)))
    else list
  }

  /** The pick-up button on the prescription with the id: only the first such
      prescription is marked picked up; an absent id changes nothing. */
  function PickUp(list: seq<Prescription>, id: string): (r: seq<Prescription>)
    ensures |r| == |list|
    ensures FindIndex(list, id, PrescriptionId) == -1 ==> r == list
    ensures forall j :: 0 <= j < |list| ==>
      r[j] == (if j == FindIndex(list, id, PrescriptionId) then list[j].(pickedUp := true) else list[j])
  {
    PickUpAt(list, FindIndex(list, id, PrescriptionId))
  }

  /** Submitting the same edit twice is submitting it once. */
  lemma EditPatientIdempotent(list: seq<Patient>, id: string, name: string, phone: string, dob: string, notes: string)
    ensures EditPatient(EditPatient(list, id, name, phone, dob, notes), id, name, phone, dob, notes)
      == EditPatient(list, id, name, phone, dob, notes)
  {
  }

  /** Each piece trimmed: `.map(i => i.trim())`. */
  function TrimEach(parts: seq<string>): (r: seq<string>)
    ensures |r| == |parts|
    ensures forall i :: 0 <= i < |parts| ==> r[i] == Trim(parts[i])
  {
    seq(|parts|, i requires 0 <= i < |parts| => Trim(parts[i]))
  }

  /** `items` are the pieces of `t` between its commas, each trimmed. */
  ghost predicate TrimmedPiecesOf(items: seq<string>, t: string) {
    exists ps ::
      |ps| >= 1 && Join(ps, ',') == t
      && (forall p :: p in ps ==> ',' !in p) && |items| == |ps|
      && forall i :: 0 <= i < |ps| ==> items[i] == Trim(ps[i])
  }

  /** Splitting at the commas and trimming each piece gives the trimmed
      pieces: one more than there are commas, none holding a comma or
      whitespace at either end. */
  lemma CommaPieces(t: string)
    ensures |TrimEach(Split(t, ','))| == CountChar(t, ',') + 1
    ensures forall i :: 0 <= i < |TrimEach(Split(t, ','))| ==> ',' !in TrimEach(Split(t, ','))[i]
    ensures forall i :: 0 <= i < |TrimEach(Split(t, ','))| ==> NoOuterSpace(TrimEach(Split(t, ','))[i])
    ensures TrimmedPiecesOf(TrimEach(Split(t, ',')), t)
  {
    var parts := Split(t, ',');
    var items := TrimEach(parts);
    assert |items| == CountChar(t, ',') + 1 by {
      SplitCount(t, ',');
    }
    forall i | 0 <= i < |items|
      ensures ',' !in items[i] && NoOuterSpace(items[i])
    {
      TrimMembers(parts[i]);
    }
    assert TrimmedPiecesOf(items, t) by {
      JoinSplit(t, ',');
      assert forall p :: p in parts ==> ',' !in p;
    }
  }

  /** `itemsText ? itemsText.split(',').map(i => i.trim()) : []`, on the trimmed input. */
  function ParseItems(raw: string): (items: seq<string>)
    ensures items == [] <==> forall k :: 0 <= k < |raw| ==> IsSpace(raw[k])
    ensures forall i :: 0 <= i < |items| ==> ',' !in items[i]
    ensures forall i :: 0 <= i < |items| ==> NoOuterSpace(items[i])
    ensures Trim(raw) != [] ==> |items| == CountChar(Trim(raw), ',') + 1
    ensures Trim(raw) != [] ==> TrimmedPiecesOf(items, Trim(raw))
  {
    var t := Trim(raw);
    if t == [] then []
    else
      CommaPieces(t);
      TrimEach(Split(t, ','))
  }

  /** The pick-up button: `pickedUp` set at `idx`, nothing else changed. */
  function PickUpAt(list: seq<Prescription>, idx: int): (r: seq<Prescription>)
    requires -1 <= idx < |list|
    ensures |r| == |list|
    ensures forall j :: 0 <= j < |list| ==> r[j] == (if j == idx then list[j].(pickedUp := true) else list[j])
  {
    if idx >= 0 then list[idx := list[idx].(pickedUp := true)] else list
  }

  /** `(x.name || '').toLowerCase() === name.toLowerCase()`. */
  predicate NameMatches(p: Patient, name: string) {
    Lower(p.name) == Lower(name)
  }

  /** `list[i]` is the first patient whose name matches. */
  predicate FirstNameMatchAt(list: seq<Patient>, name: string, i: int) {
    0 <= i < |list| && NameMatches(list[i], name) && forall j :: 0 <= j < i ==> !NameMatches(list[j], name)
  }

  /** `list.find(...)` on the patient names, ignoring case. */
  function FindPatientByName(list: seq<Patient>, name: string): (r: Option<Patient>)
    ensures r.None? <==> forall i :: 0 <= i < |list| ==> !NameMatches(list[i], name)
    ensures r.Some? ==> exists i :: FirstNameMatchAt(list, name, i) && list[i] == r.value
  {
    if list == [] then None
    else if NameMatches(list[0], name) then
      assert FirstNameMatchAt(list, name, 0);
      Some(list[0])
    else
      var r := FindPatientByName(list[1..], name);
      assert r.Some? ==> exists i :: FirstNameMatchAt(list, name, i) && list[i] == r.value by {
        if r.Some? {
          var i :| FirstNameMatchAt(list[1..], name, i) && list[1..][i] == r.value;
          forall j | 0 <= j < i + 1 ensures !NameMatches(list[j], name) {
            if j > 0 { assert list[j] == list[1..][j - 1]; }
          }
          assert FirstNameMatchAt(list, name, i + 1);
        }
      }
      r
  }

  /** The patient found or created for a signed-in user, and the list after it. */
  datatype Ensured = Ensured(id: string, patients: seq<Patient>)

  /** `getOrCreatePatientForCurrentUser` on the list: the first patient whose
      name matches, or a new patient put at the front. */
  function EnsurePatient(list: seq<Patient>, name: string, username: string, newId: string): (r: Ensured)
    ensures FindPatientByName(list, name).Some? ==>
      r == Ensured(FindPatientByName(list, name).value.id, list)
    ensures FindPatientByName(list, name).None? ==>
      r.id == newId && |r.patients| == |list| + 1 && r.patients[1..] == list
      && r.patients[0] == Patient(newId, name, "", "", "Auto-created for user " + username)
  {
    match FindPatientByName(list, name)
    case Some(p) => Ensured(p.id, list)
    case None => Ensured(newId, [Patient(newId, name, "", "", "Auto-created for user " + username)] + list)
  }

  /** A second call finds the patient the first one found or created, and adds nothing. */
  lemma EnsurePatientIdempotent(list: seq<Patient>, name: string, username: string, id1: string, id2: string)
    ensures EnsurePatient(EnsurePatient(list, name, username, id1).patients, name, username, id2)
      == EnsurePatient(list, name, username, id1)
  {
    var r1 := EnsurePatient(list, name, username, id1);
    if FindPatientByName(list, name).None? {
      assert NameMatches(r1.patients[0], name);
      assert FindPatientByName(r1.patients, name) == Some(r1.patients[0]);
    }
  }
}
