/**
 * Diagnosis records (app/services/medical_history_service.py): creating,
 * listing, updating and deleting the medical_history rows of a patient, each
 * guarded by the access policies and answering with a (success, message) pair.
 */
module MedicalHistory {
  import opened Wrappers
  import opened Records
  import opened Policy
  import opened Sorting

  const DoctorNotFound := "Doctor not found"
  const AccountDeactivatedText := "Your account is deactivated"
  const PatientDeactivatedText := "Patient's account is deactivated"
  const PatientNotFoundText := "Patient not found"
  const NoAccessText := "You don't have access to this patient"
  const AddUnauthorizedText := "Unauthorized to add diagnosis"
  const CreatedText := "Diagnosis record created successfully"
  const RecordNotFoundText := "Medical record not found"
  const UpdateNotOwnerText := "You can only update your own diagnosis records"
  const UpdateUnauthorizedText := "Unauthorized to update this diagnosis"
  const UpdatedText := "Diagnosis record updated successfully"
  const DeleteNotOwnerText := "You can only delete your own diagnosis records"
  const DeleteUnauthorizedText := "Unauthorized to delete this diagnosis"
  const DeletedText := "Diagnosis record deleted successfully"

  /** The message create_diagnosis gives for a reason of can_add_diagnosis. */
  function AddDenialText(reason: string): string {
    if reason == "deactivated" then AccountDeactivatedText
    else if reason == "deactivated_patient" then PatientDeactivatedText
    else if reason == "patient_not_found" then PatientNotFoundText
    else if reason == "not_linked" then NoAccessText
    else AddUnauthorizedText
  }

  /** The message update_diagnosis gives for a reason of can_modify_diagnosis. */
  function UpdateDenialText(reason: string): string {
    if reason == "deactivated" then AccountDeactivatedText
    else if reason == "record_not_found" then RecordNotFoundText
    else if reason == "not_owner" then UpdateNotOwnerText
    else UpdateUnauthorizedText
  }

  /** The message delete_diagnosis gives for a reason of can_modify_diagnosis. */
  function DeleteDenialText(reason: string): string {
    if reason == "deactivated" then AccountDeactivatedText
    else if reason == "record_not_found" then RecordNotFoundText
    else if reason == "not_owner" then DeleteNotOwnerText
    else DeleteUnauthorizedText
  }

  // ---------------------------------------------------------------------
  // create_diagnosis

  /** create_diagnosis. The creation time is a parameter. A record is stored
      exactly when the doctor exists and can_add_diagnosis grants. */
  method CreateDiagnosis(db: Database, patientId: nat, doctorId: nat, condition: string,
                         treatment: Option<string>, notes: Option<string>, now: int)
    returns (success: bool, message: string, record: Option<MedicalRecord>)
    requires db.Valid()
    modifies db
    ensures db.Valid()
    ensures db.users == old(db.users) && db.doctorInfo == old(db.doctorInfo) && db.links == old(db.links)
    ensures db.messages == old(db.messages)
    ensures success <==> record.Some?
    ensures !success ==> db.history == old(db.history)
    ensures doctorId !in old(db.users) ==> !success && message == DoctorNotFound
    ensures doctorId in old(db.users) ==>
      var d := CanAddDiagnosis(old(db.users)[doctorId], patientId, old(db.users), old(db.links));
      && (success <==> d.0)
      && (!d.0 ==> message == AddDenialText(d.1))
      && (d.0 ==> message == CreatedText)
    ensures success ==>
      && record.value == MedicalRecord(old(db.nextRecordId), patientId, Some(doctorId), condition, treatment, notes, now)
      && db.history == old(db.history) + [record.value]
    ensures success ==>
      var doctor := old(db.users)[doctorId];
      && doctor.isActive == 1
      && patientId in old(db.users) && old(db.users)[patientId].role == "patient" && old(db.users)[patientId].isActive == 1
      && (doctor.role == "admin" || (doctor.role == "doctor" && (doctorId, patientId) in old(db.links)))
  {
    if doctorId !in db.users {
      return false, DoctorNotFound, None;
    }
    var decision := CanAddDiagnosis(db.users[doctorId], patientId, db.users, db.links);
    if !decision.0 {
      return false, AddDenialText(decision.1), None;
    }
    var r := MedicalRecord(db.nextRecordId, patientId, Some(doctorId), condition, treatment, notes, now);
    db.history := db.history + [r];
    db.nextRecordId := db.nextRecordId + 1;
    return true, CreatedText, Some(r);
  }

  // ---------------------------------------------------------------------
  // get_patient_medical_history

  function CreatedAtOf(r: MedicalRecord): int {
    r.createdAt
  }

  /** The records of one patient, in store order. */
  function PatientRecords(history: seq<MedicalRecord>, patientId: nat): (r: seq<MedicalRecord>)
    ensures |r| <= |history|
  {
    if history == [] then []
    else (if history[0].patientId == patientId then [history[0]] else []) + PatientRecords(history[1..], patientId)
  }

  lemma {:induction false} PatientRecordsMembers(history: seq<MedicalRecord>, patientId: nat)
    ensures forall r :: r in PatientRecords(history, patientId) <==> r in history && r.patientId == patientId
  {
    if history != [] {
      PatientRecordsMembers(history[1..], patientId);
      assert history == [history[0]] + history[1..];
    }
  }

  /** The records of one patient, newest first. */
  function PatientRecordsNewestFirst(history: seq<MedicalRecord>, patientId: nat): seq<MedicalRecord> {
    SortDesc(PatientRecords(history, patientId), CreatedAtOf)
  }

  /** The listing holds every record of the patient and no other, newest first. */
  lemma PatientRecordsNewestFirstCorrect(history: seq<MedicalRecord>, patientId: nat)
    ensures SortedDesc(PatientRecordsNewestFirst(history, patientId), CreatedAtOf)
    ensures forall r :: r in PatientRecordsNewestFirst(history, patientId) <==> r in history && r.patientId == patientId
    ensures multiset(PatientRecordsNewestFirst(history, patientId)) == multiset(PatientRecords(history, patientId))
  {
    PatientRecordsMembers(history, patientId);
    SortDescCorrect(PatientRecords(history, patientId), CreatedAtOf);
  }

  datatype HistoryEntry = HistoryEntry(
    id: nat,
    condition: string,
    date: string,
    treatment: Option<string>,
    notes: Option<string>,
    doctorName: string,
    doctorId: Option<nat>)

  /** "Dr. <first> <last>" for a set doctor id that names a user, else "Unknown". */
  function DoctorName(users: map<nat, User>, doctorId: Option<nat>): (r: string)
    ensures r == "Unknown" <==> doctorId.None? || doctorId.value == 0 || doctorId.value !in users
  {
    if doctorId.Some? && doctorId.value != 0 && doctorId.value in users
    then
      var name := "Dr. " + users[doctorId.value].fname + " " + users[doctorId.value].lname;
      assert name[0] == 'D';
      name
    else "Unknown"
  }

  /** The entry for one record; the date rendering is a parameter. */
  function Entry(users: map<nat, User>, r: MedicalRecord, formatDate: int -> string): HistoryEntry {
    HistoryEntry(r.id, r.condition, formatDate(r.createdAt), r.treatment, r.notes, DoctorName(users, r.doctorId), r.doctorId)
  }

  /** get_patient_medical_history: one entry per record of the patient, newest first. */
  method GetPatientMedicalHistory(db: Database, patientId: nat, formatDate: int -> string)
    returns (entries: seq<HistoryEntry>)
    ensures var records := PatientRecordsNewestFirst(db.history, patientId);
      && |entries| == |records|
      && forall i :: 0 <= i < |entries| ==> entries[i] == Entry(db.users, records[i], formatDate)
  {
    var records := PatientRecordsNewestFirst(db.history, patientId);
    entries := [];
    var i := 0;
    while i < |records|
      invariant i <= |records|
      invariant |entries| == i
      invariant forall k :: 0 <= k < i ==> entries[k] == Entry(db.users, records[k], formatDate)
    {
      var record := records[i];
      var doctorName := "Unknown";
      if record.doctorId.Some? && record.doctorId.value != 0 && record.doctorId.value in db.users {
        var doctor := db.users[record.doctorId.value];
        doctorName := "Dr. " + doctor.fname + " " + doctor.lname;
      }
      entries := entries + [HistoryEntry(record.id, record.condition, formatDate(record.createdAt),
                                         record.treatment, record.notes, doctorName, record.doctorId)];
      i := i + 1;
    }
  }

  // ---------------------------------------------------------------------
  // update_diagnosis

  /** The partial update: each field is overwritten only by a non-empty value. */
  function ApplyUpdate(r: MedicalRecord, condition: Option<string>, treatment: Option<string>,
                       notes: Option<string>): (u: MedicalRecord)
    ensures u.id == r.id && u.patientId == r.patientId && u.doctorId == r.doctorId && u.createdAt == r.createdAt
    ensures u.condition == (if Truthy(condition) then condition.value else r.condition)
    ensures u.treatment == (if Truthy(treatment) then treatment else r.treatment)
    ensures u.notes == (if Truthy(notes) then notes else r.notes)
  {
    r.(condition := if Truthy(condition) then condition.value else r.condition,
       treatment := if Truthy(treatment) then treatment else r.treatment,
       notes := if Truthy(notes) then notes else r.notes)
  }

  /** Applying the same update twice is the same as applying it once; an
      update with no non-empty value changes nothing. */
  lemma ApplyUpdateIdempotent(r: MedicalRecord, condition: Option<string>, treatment: Option<string>,
                              notes: Option<string>)
    ensures ApplyUpdate(ApplyUpdate(r, condition, treatment, notes), condition, treatment, notes)
         == ApplyUpdate(r, condition, treatment, notes)
    ensures !Truthy(condition) && !Truthy(treatment) && !Truthy(notes) ==> ApplyUpdate(r, condition, treatment, notes) == r
  {
  }

  /** The store after updating the record with the given id. */
  function UpdateRecord(history: seq<MedicalRecord>, recordId: nat, condition: Option<string>,
                        treatment: Option<string>, notes: Option<string>): (r: seq<MedicalRecord>)
    ensures |r| == |history|
  {
    match FindRecord(history, recordId)
    case Some(i) => history[i := ApplyUpdate(history[i], condition, treatment, notes)]
    case None => history
  }

  /** Updating changes only the record with that id, and keeps ids unique. */
  lemma UpdateRecordCorrect(history: seq<MedicalRecord>, recordId: nat, condition: Option<string>,
                            treatment: Option<string>, notes: Option<string>)
    requires UniqueRecordIds(history)
    ensures forall i :: 0 <= i < |history| ==>
      UpdateRecord(history, recordId, condition, treatment, notes)[i]
        == (if history[i].id == recordId then ApplyUpdate(history[i], condition, treatment, notes) else history[i])
    ensures UniqueRecordIds(UpdateRecord(history, recordId, condition, treatment, notes))
  {
  }

  /** update_diagnosis: the record changes exactly when the doctor exists and
      can_modify_diagnosis grants. */
  method UpdateDiagnosis(db: Database, recordId: nat, doctorId: nat, condition: Option<string>,
                         treatment: Option<string>, notes: Option<string>)
    returns (success: bool, message: string)
    requires db.Valid()
    modifies db
    ensures db.Valid()
    ensures db.users == old(db.users) && db.doctorInfo == old(db.doctorInfo) && db.links == old(db.links)
    ensures db.messages == old(db.messages) && db.nextRecordId == old(db.nextRecordId)
    ensures !success ==> db.history == old(db.history)
    ensures success ==> db.history == UpdateRecord(old(db.history), recordId, condition, treatment, notes)
    ensures doctorId !in old(db.users) ==> !success && message == DoctorNotFound
    ensures doctorId in old(db.users) ==>
      var d := CanModifyDiagnosis(old(db.users)[doctorId], recordId, old(db.history));
      && (success <==> d.0)
      && (!d.0 ==> message == UpdateDenialText(d.1))
      && (d.0 ==> message == UpdatedText)
  {
    if doctorId !in db.users {
      return false, DoctorNotFound;
    }
    var decision := CanModifyDiagnosis(db.users[doctorId], recordId, db.history);
    if !decision.0 {
      return false, UpdateDenialText(decision.1);
    }
    UpdateRecordCorrect(db.history, recordId, condition, treatment, notes);
    var i := FindRecord(db.history, recordId).value;
    db.history := db.history[i := ApplyUpdate(db.history[i], condition, treatment, notes)];
    return true, UpdatedText;
  }

  // ---------------------------------------------------------------------
  // delete_diagnosis

  /** The store without the record with the given id. */
  function RemoveRecord(history: seq<MedicalRecord>, recordId: nat): (r: seq<MedicalRecord>)
    ensures |r| <= |history|
  {
    match FindRecord(history, recordId)
    case Some(i) => history[..i] + history[i + 1..]
    case None => history
  }

  lemma RemoveRecordAt(history: seq<MedicalRecord>, i: nat, r: seq<MedicalRecord>)
    requires i < |history| && r == history[..i] + history[i + 1..]
    ensures |r| == |history| - 1
    ensures forall k :: 0 <= k < |r| ==> r[k] == history[if k < i then k else k + 1]
  {
  }

  /** Removing keeps every other record, drops the one with that id, and keeps ids unique. */
  lemma RemoveRecordCorrect(history: seq<MedicalRecord>, recordId: nat)
    requires UniqueRecordIds(history)
    ensures forall m :: m in RemoveRecord(history, recordId) <==> m in history && m.id != recordId
    ensures UniqueRecordIds(RemoveRecord(history, recordId))
  {
    match FindRecord(history, recordId)
    case None =>
    case Some(i) =>
      var r := RemoveRecord(history, recordId);
      RemoveRecordAt(history, i, r);
      RemoveRecordKeepsOthers(history, i, r);
      forall m | m in r ensures m in history && m.id != recordId {
        var k :| 0 <= k < |r| && r[k] == m;
        assert m == history[if k < i then k else k + 1];
      }
  }

  lemma RemoveRecordKeepsOthers(history: seq<MedicalRecord>, i: nat, r: seq<MedicalRecord>)
    requires UniqueRecordIds(history) && i < |history| && r == history[..i] + history[i + 1..]
    ensures forall m :: m in history && m.id != history[i].id ==> m in r
    ensures UniqueRecordIds(r)
  {
    RemoveRecordAt(history, i, r);
    forall m | m in history && m.id != history[i].id ensures m in r {
      var k :| 0 <= k < |history| && history[k] == m;
      assert r[if k < i then k else k - 1] == m;
    }
  }

  /** delete_diagnosis: the record is removed exactly when the doctor exists
      and can_modify_diagnosis grants. */
  method DeleteDiagnosis(db: Database, recordId: nat, doctorId: nat) returns (success: bool, message: string)
    requires db.Valid()
    modifies db
    ensures db.Valid()
    ensures db.users == old(db.users) && db.doctorInfo == old(db.doctorInfo) && db.links == old(db.links)
    ensures db.messages == old(db.messages) && db.nextRecordId == old(db.nextRecordId)
    ensures !success ==> db.history == old(db.history)
    ensures success ==> db.history == RemoveRecord(old(db.history), recordId) && |db.history| == |old(db.history)| - 1
    ensures doctorId !in old(db.users) ==> !success && message == DoctorNotFound
    ensures doctorId in old(db.users) ==>
      var d := CanModifyDiagnosis(old(db.users)[doctorId], recordId, old(db.history));
      && (success <==> d.0)
      && (!d.0 ==> message == DeleteDenialText(d.1))
      && (d.0 ==> message == DeletedText)
  {
    if doctorId !in db.users {
      return false, DoctorNotFound;
    }
    var decision := CanModifyDiagnosis(db.users[doctorId], recordId, db.history);
    if !decision.0 {
      return false, DeleteDenialText(decision.1);
    }
    RemoveRecordCorrect(db.history, recordId);
    var i := FindRecord(db.history, recordId).value;
    db.history := db.history[..i] + db.history[i + 1..];
    forall k | 0 <= k < |db.history| ensures db.history[k].id < db.nextRecordId {
      assert db.history[k] in old(db.history);
    }
    return true, DeletedText;
  }
}
