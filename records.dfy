/**
 * The stored records the services read and write (the tables of
 * app/database.py) and the database that holds them. Users are keyed by id,
 * the doctor-patient association is a set of (doctor_id, patient_id) pairs,
 * and diagnosis records and contact messages are kept in store order.
 */
module Records {
  import opened Wrappers

  datatype User = User(
    id: nat,
    username: string,
    password: string,        // the stored password hash
    fname: string,
    lname: string,
    gender: Option<string>,
    email: string,
    role: string,
    bloodType: Option<string>,
    phone: Option<string>,
    address: Option<string>,
    profileImage: Option<string>,
    isActive: int)

  datatype DoctorInfo = DoctorInfo(licenseNumber: string, specialization: string)

  /** A row of medical_history. A null doctor_id is None. */
  datatype MedicalRecord = MedicalRecord(
    id: nat,
    patientId: nat,
    doctorId: Option<nat>,
    condition: string,
    treatment: Option<string>,
    notes: Option<string>,
    createdAt: int)

  /** A row of messages (the contact form). */
  datatype Message = Message(
    id: nat,
    name: string,
    email: string,
    subject: string,
    body: string,
    isRead: int,
    createdAt: int)

  /** Python truthiness of an optional string: present and non-empty. */
  predicate Truthy(s: Option<string>) {
    s.Some? && s.value != ""
  }

  /** Position of the record with the given id. */
  function FindRecord(history: seq<MedicalRecord>, id: nat): (r: Option<nat>)
    ensures r.Some? ==> r.value < |history| && history[r.value].id == id
    ensures r.None? ==> forall i :: 0 <= i < |history| ==> history[i].id != id
  {
    if history == [] then None
    else if history[|history| - 1].id == id then Some(|history| - 1)
    else FindRecord(history[..|history| - 1], id)
  }

  /** Position of the message with the given id. */
  function FindMessage(messages: seq<Message>, id: nat): (r: Option<nat>)
    ensures r.Some? ==> r.value < |messages| && messages[r.value].id == id
    ensures r.None? ==> forall i :: 0 <= i < |messages| ==> messages[i].id != id
  {
    if messages == [] then None
    else if messages[|messages| - 1].id == id then Some(|messages| - 1)
    else FindMessage(messages[..|messages| - 1], id)
  }

  /** No two entries share an id. */
  predicate UniqueRecordIds(history: seq<MedicalRecord>) {
    forall i, j :: 0 <= i < j < |history| ==> history[i].id != history[j].id
  }

  predicate UniqueMessageIds(messages: seq<Message>) {
    forall i, j :: 0 <= i < j < |messages| ==> messages[i].id != messages[j].id
  }

  /** The database the services work on. Ids come from one counter per table. */
  class Database {
    var users: map<nat, User>
    var doctorInfo: map<nat, DoctorInfo>
    var links: set<(nat, nat)>
    var history: seq<MedicalRecord>
    var messages: seq<Message>
    var nextUserId: nat
    var nextRecordId: nat
    var nextMessageId: nat

    /** Users are stored under their own id, and every id lies below its counter. */
    predicate Valid()
      reads this
    {
      && (forall id :: id in users ==> users[id].id == id && id < nextUserId)
      && (forall i :: 0 <= i < |history| ==> history[i].id < nextRecordId)
      && UniqueRecordIds(history)
      && (forall i :: 0 <= i < |messages| ==> messages[i].id < nextMessageId)
      && UniqueMessageIds(messages)
    }

    constructor ()
      ensures Valid()
      ensures users == map[] && doctorInfo == map[] && links == {}
      ensures history == [] && messages == []
    {
      users := map[];
      doctorInfo := map[];
      links := {};
      history := [];
      messages := [];
      nextUserId := 1;
      nextRecordId := 1;
      nextMessageId := 1;
    }
  }
}
