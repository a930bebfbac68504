/** The records the clinic stores, and the per-role partition that holds six
    collections of them. Instants are integers (milliseconds since the epoch);
    a field the JavaScript object may lack is an `Option`. */
module Records {
  import opened Wrappers

  datatype Patient = Patient(id: string, name: string, phone: string, dob: string, notes: string)

  datatype Appointment = Appointment(
    id: string, patientId: string, doctor: string, datetime: int,
    status: string, createdBy: Option<string>)

  datatype Payment = Payment(
    id: string, patientId: string, amount: Option<int>, paymentMethod: string, note: string, datetime: int)

  /** A prescription. `propagatedFrom` and `propagatedAt` are set only on the
      copies written into another role's partition. */
  datatype Prescription = Prescription(
    id: string, patientId: string, items: seq<string>, issuedBy: string,
    datetime: Option<int>, pickedUp: bool,
    propagatedFrom: Option<string>, propagatedAt: Option<int>)

  datatype StockItem = StockItem(id: string, name: string, qty: int, unit: string, minThreshold: Option<int>)

  datatype LogEntry = LogEntry(id: string, text: string, at: int)

  datatype MedicalRecord = MedicalRecord(id: string, patientId: string, doctor: string, notes: string, datetime: int)

  /** One role's stored bundle. A collection is `None` when the stored object
      lacks that property (the appointments-only partition the patient
      self-service form writes, or the empty object left after logout). */
  datatype Partition = Partition(
    appointments: Option<seq<Appointment>>,
    payments: Option<seq<Payment>>,
    prescriptions: Option<seq<Prescription>>,
    stock: Option<seq<StockItem>>,
    logs: Option<seq<LogEntry>>,
    medicalRecords: Option<seq<MedicalRecord>>)

  /** The six empty collections a missing partition is initialised with. */
  const Zero: Partition := Partition(Some([]), Some([]), Some([]), Some([]), Some([]), Some([]))

  /** The object `{}`: no collection at all. */
  const NoCollections: Partition := Partition(None, None, None, None, None, None)

  /** All six collections are present. */
  predicate Complete(p: Partition) {
    p.appointments.Some? && p.payments.Some? && p.prescriptions.Some?
    && p.stock.Some? && p.logs.Some? && p.medicalRecords.Some?
  }
}
