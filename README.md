# Klinik Sentosa: per-role storage and prescription sync, in Dafny

Klinik Sentosa is a browser application for a small clinic. Seven roles sign in to it: Petugas Administrasi, Dokter, Perawat, Kasir, Apoteker, Manajer Klinik and Pasien. All data lives in one string-keyed browser store:

- The patients shared by everyone are under `ks_global_patients`.
- Each role has a *partition* under `ks_data_<role lower-cased, whitespace removed>`. A partition holds six collections: appointments, payments, prescriptions, stock, logs and medicalRecords.
- The signed-in user works on one partition held in memory, `appData`. The form and button handlers add, edit or remove entries there and write it back.

There are two versions of the code, and the model covers both, chosen by a `Version` value:

- `app.js` (**Original**) parses stored text directly. It overwrites whatever it cannot decode.
- `app.backup.js` (**Patched**) reads every key through `safeJsonParseKey`, which archives undecodable text under `<key>_corrupt_<now>` before removing it. It also adds a prescription propagation and sync engine:
  - A new prescription is copied into the Apoteker and Petugas Administrasi partitions.
  - `syncAllPrescriptionsForRole` merges every partition's prescriptions into one role's partition. It dedups by id, keeps the local copies, and sorts newest first.
  - The pharmacist's dashboard and prescription list sync before they load.

The modules, from the bottom up:

| module | contents |
|---|---|
| `Wrappers`, `Text` | `Option`/`Result`; JavaScript's `\s`, `toLowerCase` (ASCII), `trim`, `split(',')`, decimal digits |
| `Records` | the records and the `Partition` with its six optional collections |
| `Naming` | `roleKey`, `dataKeyForRole`, the seven roles in scan order, and the fact that their keys are distinct |
| `Accounts` | the demo users, `findDemoUser`, the login validation, and the finding about the login binding |
| `Storage` | the store (`map<string, Entry>`, with an entry either decodable or corrupt), `safeJsonParseKey`, the two versions' load functions, and the scan over the seven partitions |
| `ListEdits` | the list edits inside the handlers: filter-delete, `findIndex`-and-assign edits, pick-up, item parsing, and find-or-create of a patient |
| `Sorting`, `OrderedDict` | the engine's stable sort with a "newest first" comparator; a JavaScript object used as a dictionary (`Object.values` in insertion order) |
| `PrescriptionSync` | dedup, overlay and merge of prescriptions, with their specifications, and the loops that compute them |
| `CrossPartition` | the cross-partition reads (medical records, appointments, prescriptions) |
| `Reports` | the report aggregates |
| `SyncEngine` | propagation and sync as functions on the store, with their properties |
| `Clinic` | the `App` class: `store`, `appData`, `currentUser`, and one method per storage helper and handler, each proved against the functions above |

## Model

| member | source | states |
|---|---|---|
| Naming.RoleKey | app.backup.js:57 | a falsy role gives "unknown"; otherwise the key is no longer than the role |
| Naming.RoleKeyCanonical | app.js:56 | a role key holds no whitespace and no upper-case letter, and has an underscore only if the role has one |
| Naming.DataKeyForRole | app.backup.js:58 | the key is `ks_data_` followed by the role key, and is never the patients key or the sync-marker key |
| Naming.DataKeyInjective | app.js:57 | two roles share a partition key exactly when their role keys agree |
| Naming.RoleKeyIgnoresSpace | app.backup.js:57 | removing one whitespace character from a role does not change its key, as long as the role is not reduced to the empty string (a role of only whitespace keys to "" but the empty role to "unknown") |
| Naming.RoleKeyIgnoresCase | app.backup.js:57 | roles that agree after lower-casing have the same key |
| Naming.RoleKeyIdempotent | app.backup.js:57 | the key of a non-empty key is itself |
| Naming.RoleKeysOfRoles | app.backup.js:1394 | the seven roles' keys are `petugasadministrasi`, `dokter`, `perawat`, `kasir`, `apoteker`, `manajerklinik`, `pasien` |
| Naming.RoleDataKeysDistinct | app.backup.js:1394 | the seven roles have seven distinct partition keys |
| Accounts.FindDemoUser | app.backup.js:232-235 | an empty name finds no one; a found user is a demo user whose username equals the input ignoring case; no user means no demo username matches |
| Accounts.Login | app.js:180-208 | the login fails for empty trimmed credentials, exactly when either is empty; fails for an unknown user, exactly when no username matches; fails on a role mismatch, exactly when the user's role differs from the selected role ignoring case; otherwise returns the matching demo user |
| Accounts.LoginAsBound | app.backup.js:363-371 | the fallback handler never fails on the role: it succeeds exactly when both fields are non-empty and the username is known |
| Accounts.LoginAsBoundOnlySkipsRoleCheck | app.backup.js:363-371 | the bound handler and the validated login agree on every input except where the validated one rejects the role |
| Accounts.DoctorSignsInAsCashier | app.backup.js:284 | `dokter1` with role Kasir is rejected by the validated login but signed in by the handler actually bound |
| Storage.ArchiveKey | app.backup.js:76 | the archive key is the key, an underscore, then more text |
| Storage.SafeRead | app.backup.js:69-80 | a missing key or empty text yields nothing and leaves the store as it was; decodable text yields its document, store unchanged; undecodable text yields nothing, is copied to the archive key and removed; no other key changes |
| Storage.ReadPartition | app.backup.js:257 | a read yields the decodable partition under the key or nothing; app.js never writes while reading; only the key and its archive key may change |
| Storage.LoadPartition | app.backup.js:254-273 | the stored partition is returned unchanged when it decodes; otherwise six empty collections are returned and persisted under the role's key; app.js changes no other key |
| Storage.LoadPatients | app.backup.js:238-246 | the stored list is returned with the store unchanged when it decodes; otherwise `[]` is returned and written |
| Storage.ScanSeesInitial | app.backup.js:644-654 | the seven-partition scan sees each partition as it was before the scan began, and in app.js leaves the store unchanged |
| Storage.ScanKeepsRole | app.backup.js:1396-1404 | the scan never changes a role partition that decodes |
| ListEdits.Filter | app.backup.js:540 | the result holds exactly the elements that pass, and no more than the input |
| ListEdits.FilterCounts | app.backup.js:540 | each passing element is kept as often as it occurs in the input; the others never |
| ListEdits.FilterInOrder | app.backup.js:540 | the kept elements are a subsequence of the input, so their order is kept |
| ListEdits.FilterUnique | app.backup.js:540 | any subsequence of the input holding exactly the passing elements, as often as the input does, is the filter: the two facts above fix the result |
| ListEdits.FilterConcat | app.backup.js:540 | filtering distributes over concatenation |
| ListEdits.FindIndex | app.backup.js:758 | `findIndex`: the first index with the id, or -1 exactly when none has it |
| ListEdits.RemovePatient | app.js:337-341 | the remaining patients are exactly those whose id differs, each as often as before and in the original order |
| ListEdits.EditPatient | app.js:396-400 | same length and ids; every patient with the id gets the new name, phone, birth date and notes; the others are unchanged |
| ListEdits.EditPatientIdempotent | app.js:396-400 | editing twice with the same values equals editing once |
| ListEdits.RemoveAppointment | app.backup.js:705-711 | the remaining appointments are exactly those whose id differs, each as often as before and in the original order |
| ListEdits.EditAppointment | app.backup.js:756-760 | only the first appointment with the id changes: patient, doctor and time are set, and id, status and author are kept; an absent id changes nothing |
| ListEdits.RemoveStock | app.backup.js:848-853 | the remaining items are exactly those whose id differs, each as often as before and in the original order |
| ListEdits.EditStock | app.backup.js:887-892 | only the first item with the id changes, to the new name, quantity, unit and threshold; an absent id changes nothing |
| ListEdits.PickUp | app.js:691-698 | only the first prescription with the id is marked picked up; an absent id changes nothing |
| ListEdits.ParseItems | app.js:718-719 | blank input gives no items; otherwise the items are the pieces of the trimmed input between its commas, item i being piece i trimmed; so there is one more item than commas, and no item holds a comma or has whitespace at either end |
| Text.Trim | app.js:718 | the result is a slice of the input with only whitespace outside it, and neither of its ends is whitespace; it is empty exactly when the input is all whitespace |
| ListEdits.CommaPieces | app.backup.js:962-963 | splitting a text at its commas and trimming each piece gives pieces that join back, with commas, into the text |
| ListEdits.FindPatientByName | app.backup.js:1174 | the first patient whose name equals the name ignoring case, or none exactly when no patient matches |
| ListEdits.EnsurePatient | app.backup.js:1170-1182 | with a match, the list is unchanged and its id is returned; without one, exactly one patient with the new id is prepended |
| ListEdits.EnsurePatientIdempotent | app.backup.js:1170-1182 | a second find-or-create leaves the list and the returned id as the first left them |
| Sorting.SortDesc | app.backup.js:1431 | the sorted list is a permutation of the input and non-increasing by key |
| Sorting.SortDescStable | app.backup.js:1431 | the sort is stable: the elements of any one key appear in the same order as in the input |
| Sorting.SortDescMembers | app.backup.js:655 | sorting keeps exactly the elements it was given |
| OrderedDict.Put | app.backup.js:1409 | `o[k] = v` sets the key's value; a new key goes last, and an existing key keeps its place |
| OrderedDict.Values | app.backup.js:1417 | `Object.values` lists each key's value in insertion order |
| PrescriptionSync.DedupSpec | app.backup.js:1406-1416 | the dedup keeps exactly the ids that some collected copy has; each kept copy is the winner for its id, meaning no later copy has a strictly greater timestamp and no earlier copy has a greater or equal one |
| PrescriptionSync.OverlaySpec | app.backup.js:1428-1430 | after the overlay, the ids are the old ones plus the list's; each id in the list maps to its last occurrence there; the other ids are unchanged |
| PrescriptionSync.MergedSpec | app.backup.js:1417 | the merged list has distinct ids, exactly the collected ids, and each element is the winning copy for its id |
| PrescriptionSync.SyncedSpec | app.backup.js:1426-1431 | the final list is sorted newest first and has distinct ids, namely the collected ids plus the local ones; a local id keeps its last local record verbatim; any other id keeps its winning collected copy |
| PrescriptionSync.SyncedStable | app.backup.js:1428-1431 | when the local list already has distinct ids covering every collected id, the sync keeps exactly the local records |
| Sorting.SortPair | app.backup.js:1431 | two records are swapped only when the second is strictly newer |
| PrescriptionSync.MergedOfThree | app.backup.js:1407-1417 | a third copy of an id that is no newer is dropped by the dedup, and the two survivors come out newest first |
| PrescriptionSync.FirstRunOfDuplicates | app.backup.js:1394-1431 | a role whose own list holds an id twice (the later copy older) and another role's record with that older timestamp end up as `[older copy, other record]` |
| PrescriptionSync.SecondRunOfDuplicates | app.backup.js:1394-1431 | syncing that result again lists the two equal-timestamp records the other way round |
| PrescriptionSync.RerunReordersDuplicates | app.backup.js:1394-1431 | the two runs together: a second sync with no writes in between can reorder the list when the role's own list had a duplicate id before the first |
| PrescriptionSync.DedupById | app.backup.js:1406-1416 | the dedup loop computes the dedup function |
| PrescriptionSync.OverlayById | app.backup.js:1428-1430 | the overlay loop computes the overlay function |
| PrescriptionSync.SyncedById | app.backup.js:1417-1431 | dedup, sort, overlay twice and sort again compute the final list |
| CrossPartition.GatherMembers | app.backup.js:644-654 | the gathered list holds exactly the kept elements that some partition holds |
| CrossPartition.CollectedIds | app.backup.js:1396-1404 | the collected ids are exactly the ids of id-bearing prescriptions in some partition |
| CrossPartition.AllMedicalRecordsSpec | app.backup.js:642-656 | a patient's history is sorted newest first and holds exactly the records with that patient id from some partition; in app.js the store is not modified |
| CrossPartition.MyAppointmentsSpec | app.backup.js:1190-1198 | the patient's appointment list holds exactly the appointments with that patient id from some partition |
| Reports.RevenueConcat | app.js:734 | revenue is additive over concatenation |
| Reports.RevenueAfterPayment | app.backup.js:814-826 | a payment with a positive amount raises revenue by exactly that amount |
| Reports.RevenueNonNegative | app.js:734 | revenue from non-negative amounts is non-negative |
| Reports.LowStock | app.js:735 | low stock is exactly the items with quantity at most the threshold, a missing threshold counting as 0 |
| Reports.MakeReport | app.backup.js:983-1002 | the report counts the patients and the role's appointments, sums its payments (a missing amount counts as 0) and lists its low stock |
| SyncEngine.Annotate | app.backup.js:1385 | the copy equals the prescription except for the two annotation fields, which record the propagating role and the time |
| SyncEngine.CountIdZero | app.backup.js:1383 | no entry has the id exactly when the count of entries with it is 0 |
| SyncEngine.Propagate | app.backup.js:1374 | an empty target role or an empty id leaves the store as it was |
| SyncEngine.PropagateExisting | app.backup.js:1382-1383 | a target already holding the id is not written at all |
| SyncEngine.PropagateInserts | app.backup.js:1380-1387 | otherwise the target's prescriptions grow by the annotated copy in front; its other collections and every other key stay as they were, except the target's archive key |
| SyncEngine.PropagateHolds | app.backup.js:1373-1389 | afterwards the target holds a prescription with the id |
| SyncEngine.PropagateKeepsOther | app.backup.js:1373-1389 | another role's partition is unchanged |
| SyncEngine.PropagateTwice | app.backup.js:1373-1389 | propagating twice leaves exactly one entry with the id where there was none |
| SyncEngine.SyncPart | app.backup.js:1425-1432 | the written partition has a prescriptions list, and every other collection is the role's own, or empty when the partition was missing |
| SyncEngine.SyncStore | app.backup.js:1392 | an empty role leaves the store as it was |
| SyncEngine.SyncStoreWrites | app.backup.js:1420-1433 | the sync writes the role's key with the role's partition, with only prescriptions replaced by the merge of every partition's prescriptions and the local ones |
| SyncEngine.SyncStoreKeepsOthers | app.backup.js:1391-1438 | every other role's partition that decodes is unchanged |
| SyncEngine.SyncedListSpec | app.backup.js:1396-1431 | the synced list is sorted newest first with distinct ids, namely every id from any partition plus the local ones; local records are kept verbatim; other ids keep their winning copy |
| SyncEngine.SyncStoreStable | app.backup.js:1391-1438 | syncing again with no writes in between keeps the id-to-record mapping (the same records, distinct ids) |
| Clinic.Logged | app.js:172-177 | logging puts one `{id, text, at}` entry in front of the logs and changes nothing else |
| Clinic.LogRole | app.backup.js:65 | logs save under the user's role; in app.backup.js, with no user or an empty role, under 'system' |
| Clinic.ActiveLoad | app.backup.js:1457-1477 | the partition loaded is the one then stored under the pharmacist's key (after the sync in app.backup.js) or the role's key |
| Clinic.PharmacistSeesAll | app.backup.js:1466-1476 | after the pharmacist's dashboard or prescription list loads in app.backup.js, the list holds every id-bearing prescription id from any partition |
| Clinic.SavedRecordListed | app.backup.js:634-656 | a record saved in any role partition appears in that patient's history |
| Clinic.AnnouncedReachesBoth | app.backup.js:973-974 | after a new prescription is announced, both the pharmacist and the registrar hold its id |
| Clinic.PropagatedToBoth | app.backup.js:1446-1449 | propagating to two roles with distinct keys leaves the id with both |
| Clinic.PatientFor | app.backup.js:1170-1182 | with no user there is no id and no write; otherwise the returned id belongs to a stored patient whose name matches the user's display name |
| Clinic.PatientForIdempotent | app.backup.js:1170-1182 | a second lookup returns the same id and writes nothing |
| Clinic.App.constructor | app.backup.js:50-51 | the page starts with no user and `appData = {}` over the given store |
| Clinic.App.SaveGlobalPatients | app.backup.js:247-251 | only the patients key is written |
| Clinic.App.LoadGlobalPatients | app.js:129-137 | the list and the store are as the version's patients load gives them |
| Clinic.App.SaveDataForRole | app.backup.js:274-279 | `appData` is written under the role's key |
| Clinic.App.LoadDataForRole | app.js:145-164 | `appData` and the store are as the version's partition load gives them |
| Clinic.App.LogActivity | app.backup.js:61-66 | `appData` gains the log entry and is saved under the log role |
| Clinic.App.AddMedicalRecord | app.js:413-422 | the record is prepended, saved under the user's role, and logged; the stored partition then holds it |
| Clinic.App.GatherAll | app.js:423-437 | the loop over the seven keys leaves the store and the gathered list as the scan describes |
| Clinic.App.GetAllMedicalRecordsForPatient | app.backup.js:642-656 | the result is the patient's history as the partitions stood before the call |
| Clinic.App.PrepareDashboardFor | app.backup.js:441-473 | `appData` and the store end as `ActiveLoad` describes |
| Clinic.App.SubmitLogin | app.js:180-208 | the outcome is the validated login; on failure nothing changes; on success the user is signed in and patients, the role's partition and the dashboard are loaded |
| Clinic.App.Logout | app.backup.js:384-399 | `appData` becomes `{}`; the store and the user are untouched |
| Clinic.App.DeletePatient | app.backup.js:537-545 | the stored patient list becomes the loaded one without the id |
| Clinic.App.SubmitPatient | app.backup.js:611-630 | a blank name is refused with no write; otherwise the stored list is the edited list, or the new patient in front |
| Clinic.App.DeleteAppointment | app.js:495 | the appointments without the id are saved under the user's role |
| Clinic.App.SubmitAppointment | app.js:530-547 | refused without a patient, a time or an appointments list; otherwise the edit, or the new scheduled appointment in front, is logged and saved |
| Clinic.App.SubmitPayment | app.backup.js:814-826 | refused without a patient, a positive amount or a payments list; otherwise the payment goes in front (method defaulting to Tunai), is saved and logged, and revenue grows by the amount |
| Clinic.App.DeleteStock | app.js:625 | the items without the id are saved under the user's role |
| Clinic.App.SubmitStock | app.js:649-669 | refused with a blank name or no stock list; otherwise the edit, or the new item in front, is logged and saved |
| Clinic.App.OpenPrescriptions | app.backup.js:905-942 | `appData` is as `ActiveLoad` describes, and the list shown is its prescriptions |
| Clinic.App.PickUpPrescription | app.backup.js:931-934 | the first prescription with the id is marked picked up and saved; an absent id changes nothing |
| Clinic.App.SubmitPrescription | app.backup.js:959-979 | the new prescription, not picked up, goes in front, is saved and logged; in app.backup.js it is announced and both targets hold its id |
| Clinic.App.Announce | app.backup.js:973-974 | the store is as announcing the prescription leaves it, and both targets hold the id |
| Clinic.App.OpenReports | app.js:730-744 | the report is built from the role's loaded partition and the loaded patient list |
| Clinic.App.PropagatePrescriptionToRole | app.backup.js:1373-1389 | the store changes exactly as the propagation function says |
| Clinic.App.OnPrescriptionSaved | app.backup.js:1443-1454 | the prescription is propagated to the pharmacist, then to the registrar |
| Clinic.App.SyncAllPrescriptionsForRole | app.backup.js:1391-1438 | the store changes exactly as the sync function says; `appData` is reloaded from the written partition exactly when the role is the user's |
| Clinic.App.WriteSynced | app.backup.js:1395-1433 | the scan, merge and write leave the store as the sync function says |
| Clinic.App.WriteMerged | app.backup.js:1420-1433 | the role's partition is read and written back with only prescriptions replaced by the merge |
| Clinic.App.GetOrCreatePatientForCurrentUser | app.backup.js:1170-1182 | (Patched only) the returned id and the store are as `PatientFor` describes |
| Clinic.App.ShowMyAppointments | app.backup.js:1184-1199 | (Patched only) without a patient id, nothing is listed; otherwise the patient's appointments from all partitions are listed |
| Clinic.Queued | app.backup.js:1258-1264 | afterwards the appointment is among the patient partition's appointments; an existing partition keeps everything else, with the appointment in front; where none existed, the partition written holds appointments only |
| Clinic.App.SubmitNewQueue | app.backup.js:1253-1267 | refused without a time, with no write; otherwise the scheduled appointment, authored by the user, is queued as `Queued` describes |

## Left out

- The DOM, modals, toasts, navigation, dashboard builders, animations and the realtime statistics are left out: they are presentation only.
- patch-voice.js, patch-additions.js and json/server.js are not part of this model. They are speech, DOM rebinding and a static HTTP server.
- The cross-tab `storage` event listener and the `setTimeout`/`CustomEvent` dispatches are left out. The `prescription-saved-inline` event is modelled as the direct call its handler makes.
- The session restored from `sessionStorage` at page load, and the login's delayed voice event, are left out.
- `uid` and `Date.now` become parameters. Each operation reads the clock once, so the timestamps in one handler agree.
- Times are integers. Date parsing and ISO formatting are left out, and so is `toInputDatetimeLocal`.
- JSON text itself is left out. A stored entry is either a decoded document (a partition, a patient list or the sync marker) or undecodable text. A decoded value of the wrong shape for its key counts as missing.
- An absent `id` is modelled as the empty string. It is then kept apart from a real id only where the code tests it for truthiness.
- Integer-like ids, which JavaScript objects would enumerate before other keys, are left out. So are ids naming `Object.prototype` properties.
- Prescription items are their name strings, not `{name}` objects.
- `toLowerCase` is modelled for ASCII letters only.
- `Number()` coercion of form input is left out. Amounts, quantities and thresholds are integers.
- Storage quota failures, which the code catches and ignores, are left out.
- A handler that dereferences `currentUser` unguarded requires a signed-in user. A handler that would throw on a missing collection (`findIndex` or `unshift` after logout) returns `false` and changes nothing.
- The form that opens the prescription form only when patients exist is left out. The submit handler is modelled.
- Clinic.App.SubmitLogin: the Patched `App` runs the corrected login (Accounts.Login, see Findings), not the role-blind fallback handler that app.backup.js actually binds. Accounts.LoginAsBound models that handler, and Accounts.DoctorSignsInAsCashier shows where the two differ.
- SyncEngine.SyncStoreWrites, SyncEngine.SyncedListSpec and SyncEngine.SyncStoreStable: these are stated for roles whose key has no underscore (all seven roles). For such roles, no scan can archive the partition that is written.
- SyncEngine.PropagateKeepsOther: this is stated for another role whose key has no underscore, for the same reason.
- SyncEngine.SyncStoreStable: this states that a rerun keeps the id-to-record mapping, not that the stored list is in the same order. The order can change: when the role's own list holds one id twice before the first sync, the first run keeps the older copy, and a record of another role with the same timestamp can then swap places with it on the next run (PrescriptionSync.RerunReordersDuplicates: local `[k at 9, k at 1]` and Dokter `[n at 1]` give `[k, n]`, then `[n, k]`). An identical order is not proved either for the case where the local ids are distinct.

## Findings

| source | as written | input that shows it | evidently intended | confidence | as-written member | corrected member |
|---|---|---|---|---|---|---|
| app.backup.js:284 | `loginForm` is still null when this line runs, because it is only assigned in the DOMContentLoaded callback. So the full handler, which checks the selected role, is never bound. The fallback handler at 363-371 is bound instead, and it checks no role. | username `dokter1`, password `demo`, selected role Kasir: the Dokter is signed in | reject a user whose role differs from the selected one, as app.js:196-199 does | not executed | Accounts.LoginAsBound, Accounts.DoctorSignsInAsCashier | Accounts.Login |
