/**
 * Access policies (app/services/policy_service.py). Every check is a guard
 * chain over user fields, the doctor-patient relation and the stored
 * diagnosis records, returning (granted, reason) with reason "" exactly when
 * access is granted.
 */
module Policy {
  import opened Wrappers
  import opened Records

  type Decision = (bool, string)

  const Granted: Decision := (true, "")

  predicate CheckAccountActive(u: User) {
    u.isActive == 1
  }

  /** The exception require_active_account raises, carrying the user's role. */
  datatype AccountDeactivated = AccountDeactivated(userRole: string)

  /** require_active_account: None when the account is active. */
  function RequireActiveAccount(u: User): (r: Option<AccountDeactivated>)
    ensures r.None? <==> u.isActive == 1
    ensures r.Some? ==> r.value.userRole == u.role
  {
    if !CheckAccountActive(u) then Some(AccountDeactivated(u.role)) else None
  }

  /** patient in current_user.patients */
  predicate Linked(links: set<(nat, nat)>, doctorId: nat, patientId: nat) {
    (doctorId, patientId) in links
  }

  function CheckPatientAccess(current: User, patient: User, links: set<(nat, nat)>): (r: Decision)
    ensures r.0 <==> r.1 == ""
    ensures r.0 <==>
      && current.isActive == 1 && patient.isActive == 1
      && (|| current.role == "admin"
          || (current.role == "patient" && current.id == patient.id)
          || (current.role == "doctor" && Linked(links, current.id, patient.id)))
  {
    if !CheckAccountActive(current) then (false, "deactivated_user")
    else if !CheckAccountActive(patient) then (false, "deactivated_patient")
    else if current.role == "admin" then Granted
    else if current.role == "patient" && current.id == patient.id then Granted
    else if current.role == "doctor" then
      if Linked(links, current.id, patient.id) then Granted else (false, "not_linked")
    else (false, "unauthorized")
  }

  /** The reasons check_patient_access gives, in their order of precedence. */
  lemma CheckPatientAccessReasons(current: User, patient: User, links: set<(nat, nat)>)
    ensures var r := CheckPatientAccess(current, patient, links);
      && (r.1 == "deactivated_user" <==> current.isActive != 1)
      && (r.1 == "deactivated_patient" <==> current.isActive == 1 && patient.isActive != 1)
      && (r.1 == "not_linked" <==>
            current.isActive == 1 && patient.isActive == 1 && current.role == "doctor"
            && !Linked(links, current.id, patient.id))
      && (r.1 == "unauthorized" <==>
            current.isActive == 1 && patient.isActive == 1
            && (current.role !in {"admin", "patient", "doctor"} || (current.role == "patient" && current.id != patient.id)))
  {
  }

  function CanUploadTest(u: User): (r: Decision)
    ensures r.0 <==> r.1 == ""
    ensures r.0 <==> u.isActive == 1 && u.role in {"doctor", "patient", "admin"}
    ensures r.1 == "deactivated" <==> u.isActive != 1
  {
    if !CheckAccountActive(u) then (false, "deactivated")
    else if u.role !in ["doctor", "patient", "admin"] then (false, "unauthorized")
    else Granted
  }

  /** can_view_patient_data never looks at whether the patient is active. */
  function CanViewPatientData(u: User, patientId: nat, links: set<(nat, nat)>): (r: Decision)
    ensures r.0 <==> r.1 == ""
    ensures r.0 <==>
      && u.isActive == 1
      && (|| u.role == "admin"
          || (u.role == "patient" && u.id == patientId)
          || (u.role == "doctor" && Linked(links, u.id, patientId)))
    ensures r.1 == "deactivated" <==> u.isActive != 1
  {
    if !CheckAccountActive(u) then (false, "deactivated")
    else if u.role == "admin" then Granted
    else if u.role == "patient" && u.id == patientId then Granted
    else if u.role == "doctor" then
      if Linked(links, u.id, patientId) then Granted else (false, "not_linked")
    else (false, "unauthorized")
  }

  /** The user a query by id and role "patient" finds. */
  function FindPatient(users: map<nat, User>, patientId: nat): (r: Option<User>)
    ensures r.Some? <==> patientId in users && users[patientId].role == "patient"
    ensures r.Some? ==> r.value == users[patientId]
  {
    if patientId in users && users[patientId].role == "patient" then Some(users[patientId]) else None
  }

  function CanAddDiagnosis(u: User, patientId: nat, users: map<nat, User>, links: set<(nat, nat)>): (r: Decision)
    ensures r.0 <==> r.1 == ""
    ensures r.0 <==>
      && u.isActive == 1 && u.role in {"doctor", "admin"}
      && FindPatient(users, patientId).Some? && users[patientId].isActive == 1
      && (u.role == "admin" || Linked(links, u.id, patientId))
  {
    if !CheckAccountActive(u) then (false, "deactivated")
    else if u.role !in ["doctor", "admin"] then (false, "unauthorized")
    else match FindPatient(users, patientId)
      case None => (false, "patient_not_found")
      case Some(patient) =>
        if !CheckAccountActive(patient) then (false, "deactivated_patient")
        else if u.role == "admin" then Granted
        else if u.role == "doctor" && !Linked(links, u.id, patientId) then (false, "not_linked")
        else Granted
  }

  /** The reasons can_add_diagnosis gives, in their order of precedence. */
  lemma CanAddDiagnosisReasons(u: User, patientId: nat, users: map<nat, User>, links: set<(nat, nat)>)
    ensures var r := CanAddDiagnosis(u, patientId, users, links);
      var staff := u.isActive == 1 && u.role in {"doctor", "admin"};
      && (r.1 == "deactivated" <==> u.isActive != 1)
      && (r.1 == "unauthorized" <==> u.isActive == 1 && u.role !in {"doctor", "admin"})
      && (r.1 == "patient_not_found" <==> staff && FindPatient(users, patientId).None?)
      && (r.1 == "deactivated_patient" <==>
            staff && FindPatient(users, patientId).Some? && users[patientId].isActive != 1)
      && (r.1 == "not_linked" <==>
            staff && FindPatient(users, patientId).Some? && users[patientId].isActive == 1
            && u.role == "doctor" && !Linked(links, u.id, patientId))
  {
  }

  function CanModifyDiagnosis(u: User, recordId: nat, history: seq<MedicalRecord>): (r: Decision)
    ensures r.0 <==> r.1 == ""
    ensures r.0 <==>
      && u.isActive == 1 && u.role in {"doctor", "admin"}
      && FindRecord(history, recordId).Some?
      && (u.role == "admin" || history[FindRecord(history, recordId).value].doctorId == Some(u.id))
  {
    if !CheckAccountActive(u) then (false, "deactivated")
    else if u.role !in ["doctor", "admin"] then (false, "unauthorized")
    else match FindRecord(history, recordId)
      case None => (false, "record_not_found")
      case Some(i) =>
        if u.role == "admin" then Granted
        else if u.role == "doctor" && history[i].doctorId != Some(u.id) then (false, "not_owner")
        else Granted
  }

  /** The reasons can_modify_diagnosis gives, in their order of precedence. */
  lemma CanModifyDiagnosisReasons(u: User, recordId: nat, history: seq<MedicalRecord>)
    ensures var r := CanModifyDiagnosis(u, recordId, history);
      var staff := u.isActive == 1 && u.role in {"doctor", "admin"};
      && (r.1 == "deactivated" <==> u.isActive != 1)
      && (r.1 == "unauthorized" <==> u.isActive == 1 && u.role !in {"doctor", "admin"})
      && (r.1 == "record_not_found" <==> staff && FindRecord(history, recordId).None?)
      && (r.1 == "not_owner" <==>
            staff && u.role == "doctor" && FindRecord(history, recordId).Some?
            && history[FindRecord(history, recordId).value].doctorId != Some(u.id))
  {
  }

  function CanManageUsers(u: User): (r: Decision)
    ensures r.0 <==> r.1 == ""
    ensures r.0 <==> u.isActive == 1 && u.role == "admin"
    ensures r.1 == "deactivated" <==> u.isActive != 1
  {
    if !CheckAccountActive(u) then (false, "deactivated")
    else if u.role != "admin" then (false, "unauthorized")
    else Granted
  }

  /** An inactive account is reported as "deactivated" before any role mismatch. */
  function CheckRolePermission(u: User, allowedRoles: seq<string>): (r: Decision)
    ensures r.0 <==> r.1 == ""
    ensures r.0 <==> u.isActive == 1 && u.role in allowedRoles
    ensures r.1 == "deactivated" <==> u.isActive != 1
    ensures r.1 == "unauthorized" <==> u.isActive == 1 && u.role !in allowedRoles
  {
    if !CheckAccountActive(u) then (false, "deactivated")
    else if u.role !in allowedRoles then (false, "unauthorized")
    else Granted
  }

  datatype DeactivationMessage = DeactivationMessage(title: string, message: string, contactSubject: string)

  const DeactivatedTitle := "Account Deactivated"
  const DoctorDeactivatedMessage := "Your doctor account has been deactivated by the administrator. You no longer have access to patient data, diagnosis tools, or test uploads."
  const DoctorDeactivatedSubject := "Doctor Account Deactivation - Request for Information"
  const PatientDeactivatedMessage := "Your patient account has been deactivated by the administrator. You no longer have access to test uploads, medical history, or reports."
  const PatientDeactivatedSubject := "Patient Account Deactivation - Request for Information"
  const AdminDeactivatedMessage := "Your administrator account has been deactivated. Please contact the system administrator."
  const AdminDeactivatedSubject := "Admin Account Deactivation - Request for Information"
  const DefaultDeactivatedMessage := "Your account has been deactivated by the administrator."
  const DefaultDeactivatedSubject := "Account Deactivation - Request for Information"

  const DefaultDeactivation := DeactivationMessage(DeactivatedTitle, DefaultDeactivatedMessage, DefaultDeactivatedSubject)

  /** get_deactivation_message: the entry for doctor, patient or admin, else the default. */
  function GetDeactivationMessage(role: string): (r: DeactivationMessage)
    ensures r.title == DeactivatedTitle
  {
    if role == "doctor" then DeactivationMessage(DeactivatedTitle, DoctorDeactivatedMessage, DoctorDeactivatedSubject)
    else if role == "patient" then DeactivationMessage(DeactivatedTitle, PatientDeactivatedMessage, PatientDeactivatedSubject)
    else if role == "admin" then DeactivationMessage(DeactivatedTitle, AdminDeactivatedMessage, AdminDeactivatedSubject)
    else DefaultDeactivation
  }

  /** Each of the three known roles gets its own message; every other role the default. */
  lemma DeactivationMessageDefault(role: string)
    ensures GetDeactivationMessage(role) == DefaultDeactivation <==> role !in {"doctor", "patient", "admin"}
  {
    var r := GetDeactivationMessage(role);
    if role in {"doctor", "patient", "admin"} {
      assert |r.contactSubject| != |DefaultDeactivatedSubject|;
    }
  }
}
