/**
 * Patient accounts and the doctor-patient relation
 * (app/services/patient_service.py): creating a patient with a generated
 * username and temporary password, listing the doctors of a patient and the
 * patients of a doctor, and linking and unlinking the two.
 */
module Patients {
  import opened Wrappers
  import opened Text
  import opened Records

  // ---------------------------------------------------------------------
  // Usernames.

  /** The usernames already in use. */
  function TakenNames(users: map<nat, User>): set<string> {
    set id | id in users :: users[id].username
  }

  /** The k-th username tried for a base: the base itself, then base1, base2, ... */
  function Candidate(base: string, k: nat): string {
    if k == 0 then base else base + NatToString(k)
  }

  /** The first n candidates. */
  function Tried(base: string, n: nat): set<string> {
    set j | 0 <= j < n :: Candidate(base, j)
  }

  /** Different positions give different candidates. */
  lemma CandidatesDistinct(base: string, j: nat, k: nat)
    requires j != k
    ensures Candidate(base, j) != Candidate(base, k)
  {
    if j != 0 && k != 0 {
      NatToStringInjective(j, k);
      var a, b := Candidate(base, j), Candidate(base, k);
      assert a[|base|..] == NatToString(j);
      assert b[|base|..] == NatToString(k);
    }
  }

  lemma TriedStep(base: string, n: nat)
    ensures Tried(base, n + 1) == Tried(base, n) + {Candidate(base, n)}
    ensures Candidate(base, n) !in Tried(base, n)
  {
    if Candidate(base, n) in Tried(base, n) {
      var j :| 0 <= j < n && Candidate(base, j) == Candidate(base, n);
      CandidatesDistinct(base, j, n);
    }
  }

  /** Trying one more taken candidate brings the loop measure down. */
  lemma TriedShrinks(taken: set<string>, base: string, n: nat)
    requires Tried(base, n) <= taken && Candidate(base, n) in taken
    ensures Tried(base, n + 1) <= taken
    ensures |taken - Tried(base, n + 1)| < |taken - Tried(base, n)|
  {
    TriedStep(base, n);
    assert taken - Tried(base, n + 1) < taken - Tried(base, n) by {
      assert Candidate(base, n) in taken - Tried(base, n);
    }
  }

  // ---------------------------------------------------------------------
  // Temporary passwords.

  /** string.ascii_letters + string.digits, position by position. */
  function AlphabetChar(j: nat): (c: char)
    requires j < 62
    ensures 'a' <= c <= 'z' || 'A' <= c <= 'Z' || '0' <= c <= '9'
  {
    if j < 26 then ('a' as int + j) as char
    else if j < 52 then ('A' as int + (j - 26)) as char
    else ('0' as int + (j - 52)) as char
  }

  /** random.choices(ascii_letters + digits, k=12), with the draws as a parameter. */
  function TempPassword(draw: nat -> nat): (r: string)
    ensures |r| == 12
    ensures forall i :: 0 <= i < |r| ==> 'a' <= r[i] <= 'z' || 'A' <= r[i] <= 'Z' || '0' <= r[i] <= '9'
  {
    var r := seq(12, i requires 0 <= i < 12 => AlphabetChar(draw(i) % 62));
    assert forall i :: 0 <= i < 12 ==> r[i] == AlphabetChar(draw(i) % 62);
    r
  }

  // ---------------------------------------------------------------------
  // create_patient

  predicate EmailTaken(users: map<nat, User>, email: string) {
    exists id :: id in users && users[id].email == email
  }

  datatype CreateOutcome =
    | EmailExists(message: string)
    | Created(patientId: nat, tempPassword: string, name: string)

  const EmailExistsMessage := "A user with this email already exists"

  /** Python truthiness of an optional doctor id: present and not 0. */
  predicate DoctorGiven(doctorId: Option<nat>) {
    doctorId.Some? && doctorId.value != 0
  }

  /** The username create_patient settles on: the first candidate not in use. */
  ghost predicate FirstFreeCandidate(taken: set<string>, base: string, u: string) {
    && u !in taken
    && exists k: nat :: u == Candidate(base, k) && forall j :: 0 <= j < k ==> Candidate(base, j) in taken
  }

  /** The username loop of create_patient: try base, base1, base2, ... until one is free. */
  method ChooseUsername(users: map<nat, User>, base: string) returns (username: string)
    ensures FirstFreeCandidate(TakenNames(users), base, username)
  {
    username := base;
    var counter := 1;
    var taken := TakenNames(users);
    while username in taken
      invariant counter >= 1
      invariant username == Candidate(base, counter - 1)
      invariant Tried(base, counter - 1) <= taken
      invariant forall j :: 0 <= j < counter - 1 ==> Candidate(base, j) in taken
      decreases |taken - Tried(base, counter - 1)|
    {
      TriedShrinks(taken, base, counter - 1);
      username := base + NatToString(counter);
      counter := counter + 1;
    }
  }

  /** The user row create_patient stores: role "patient", active, no profile
      image, and no blood type when the given one is empty. */
  function NewPatient(id: nat, username: string, passwordHash: string, firstName: string, lastName: string,
                      email: string, phone: string, gender: string, address: string, bloodType: string): (u: User)
    ensures u.role == "patient" && u.isActive == 1 && u.profileImage == None
    ensures u.bloodType.None? <==> bloodType == ""
  {
    User(id, username, passwordHash, firstName, lastName, Some(gender), email, "patient",
         if bloodType != "" then Some(bloodType) else None, Some(phone), Some(address), None, 1)
  }

  /** create_patient. The date of birth is accepted and not stored, as in the
      source. The random draws and the password hash are parameters. */
  method CreatePatient(db: Database, firstName: string, lastName: string, email: string, phone: string,
                       gender: string, address: string, bloodType: string, dob: string,
                       doctorId: Option<nat>, draw: nat -> nat, hash: string -> string)
    returns (r: CreateOutcome)
    requires db.Valid()
    modifies db
    ensures db.Valid()
    ensures db.doctorInfo == old(db.doctorInfo) && db.history == old(db.history) && db.messages == old(db.messages)
    ensures EmailTaken(old(db.users), email) ==>
      r == EmailExists(EmailExistsMessage) && db.users == old(db.users) && db.links == old(db.links)
    ensures !EmailTaken(old(db.users), email) ==>
      && r.Created?
      && r.patientId == old(db.nextUserId) && r.patientId !in old(db.users)
      && r.tempPassword == TempPassword(draw)
      && r.name == firstName + " " + lastName
      && r.patientId in db.users
      && FirstFreeCandidate(TakenNames(old(db.users)), TextBefore(email, '@'), db.users[r.patientId].username)
      && db.users == old(db.users)[r.patientId := NewPatient(r.patientId, db.users[r.patientId].username,
           hash(r.tempPassword), firstName, lastName, email, phone, gender, address, bloodType)]
      && db.links == old(db.links) + (if DoctorGiven(doctorId) then {(doctorId.value, r.patientId)} else {})
  {
    if EmailTaken(db.users, email) {
      return EmailExists(EmailExistsMessage);
    }
    var username := ChooseUsername(db.users, TextBefore(email, '@'));
    var password := TempPassword(draw);
    var id := db.nextUserId;
    db.users := db.users[id := NewPatient(id, username, hash(password), firstName, lastName, email, phone,
                                          gender, address, bloodType)];
    db.nextUserId := db.nextUserId + 1;
    if DoctorGiven(doctorId) {
      db.links := db.links + {(doctorId.value, id)};
    }
    r := Created(id, password, firstName + " " + lastName);
  }

  // ---------------------------------------------------------------------
  // The doctor-patient relation.

  /** is_patient_linked_to_doctor */
  predicate IsPatientLinkedToDoctor(db: Database, patientId: nat, doctorId: nat)
    reads db
  {
    (doctorId, patientId) in db.links
  }

  /** get_doctor_patients: the ids of the patients paired with the doctor. */
  function GetDoctorPatients(db: Database, doctorId: nat): (r: set<nat>)
    reads db
    ensures forall p :: p in r <==> IsPatientLinkedToDoctor(db, p, doctorId)
  {
    set pair | pair in db.links && pair.0 == doctorId :: pair.1
  }

  /** link_patient_to_doctor: false, and no change, when the pair exists;
      otherwise the pair is added and the result is true. */
  method LinkPatientToDoctor(db: Database, patientId: nat, doctorId: nat) returns (linked: bool)
    modifies db
    ensures linked <==> (doctorId, patientId) !in old(db.links)
    ensures db.links == old(db.links) + {(doctorId, patientId)}
    ensures IsPatientLinkedToDoctor(db, patientId, doctorId)
    ensures db.users == old(db.users) && db.doctorInfo == old(db.doctorInfo)
    ensures db.history == old(db.history) && db.messages == old(db.messages)
    ensures db.nextUserId == old(db.nextUserId) && db.nextRecordId == old(db.nextRecordId)
    ensures db.nextMessageId == old(db.nextMessageId)
  {
    if (doctorId, patientId) in db.links {
      return false;
    }
    db.links := db.links + {(doctorId, patientId)};
    return true;
  }

  /** unlink_patient_from_doctor: removes only that pair; true iff it was there. */
  method UnlinkPatientFromDoctor(db: Database, patientId: nat, doctorId: nat) returns (removed: bool)
    modifies db
    ensures removed <==> (doctorId, patientId) in old(db.links)
    ensures db.links == old(db.links) - {(doctorId, patientId)}
    ensures !IsPatientLinkedToDoctor(db, patientId, doctorId)
    ensures db.users == old(db.users) && db.doctorInfo == old(db.doctorInfo)
    ensures db.history == old(db.history) && db.messages == old(db.messages)
    ensures db.nextUserId == old(db.nextUserId) && db.nextRecordId == old(db.nextRecordId)
    ensures db.nextMessageId == old(db.nextMessageId)
  {
    removed := (doctorId, patientId) in db.links;
    db.links := db.links - {(doctorId, patientId)};
  }

  /** Linking a pair that was absent and then unlinking it restores the relation. */
  lemma LinkThenUnlink(links: set<(nat, nat)>, doctorId: nat, patientId: nat)
    requires (doctorId, patientId) !in links
    ensures (links + {(doctorId, patientId)}) - {(doctorId, patientId)} == links
  {
  }

  // ---------------------------------------------------------------------
  // get_patient_doctors

  datatype DoctorCard = DoctorCard(
    id: nat,
    name: string,
    fname: string,
    lname: string,
    email: string,
    phone: Option<string>,
    specialization: string,
    licenseNumber: string,
    profileImage: Option<string>)

  /** The entry for one doctor; specialization "General" and license "N/A" without doctor info. */
  function Card(doctor: User, info: Option<DoctorInfo>): DoctorCard {
    DoctorCard(doctor.id, "Dr. " + doctor.fname + " " + doctor.lname, doctor.fname, doctor.lname,
               doctor.email, doctor.phone,
               if info.Some? then info.value.specialization else "General",
               if info.Some? then info.value.licenseNumber else "N/A",
               doctor.profileImage)
  }

  /** A user is listed for the patient when linked to it and its role is "doctor". */
  predicate ListedDoctor(users: map<nat, User>, links: set<(nat, nat)>, patientId: nat, id: nat) {
    id in users && users[id].role == "doctor" && (id, patientId) in links
  }

  /** The entries for the listed doctors with id below n, by increasing id. */
  function DoctorCardsBelow(users: map<nat, User>, info: map<nat, DoctorInfo>, links: set<(nat, nat)>,
                            patientId: nat, n: nat): seq<DoctorCard>
  {
    if n == 0 then []
    else
      DoctorCardsBelow(users, info, links, patientId, n - 1)
      + if ListedDoctor(users, links, patientId, n - 1)
        then [Card(users[n - 1], if n - 1 in info then Some(info[n - 1]) else None)]
        else []
  }

  /** The cards are by increasing id and each belongs to a listed doctor with id below n. */
  ghost predicate CardsSound(cards: seq<DoctorCard>, users: map<nat, User>, links: set<(nat, nat)>,
                             patientId: nat, n: nat) {
    && (forall i, j :: 0 <= i < j < |cards| ==> cards[i].id < cards[j].id)
    && (forall i :: 0 <= i < |cards| ==> cards[i].id < n && ListedDoctor(users, links, patientId, cards[i].id))
  }

  /** Every listed doctor with id below n has a card. */
  ghost predicate CardsComplete(cards: seq<DoctorCard>, users: map<nat, User>, links: set<(nat, nat)>,
                                patientId: nat, n: nat) {
    forall id :: 0 <= id < n && ListedDoctor(users, links, patientId, id) ==>
      exists i :: 0 <= i < |cards| && cards[i].id == id
  }

  lemma {:induction false} DoctorCardsBelowSound(users: map<nat, User>, info: map<nat, DoctorInfo>,
                                                 links: set<(nat, nat)>, patientId: nat, n: nat)
    requires forall id :: id in users ==> users[id].id == id
    ensures CardsSound(DoctorCardsBelow(users, info, links, patientId, n), users, links, patientId, n)
  {
    if n > 0 {
      DoctorCardsBelowSound(users, info, links, patientId, n - 1);
      var prev := DoctorCardsBelow(users, info, links, patientId, n - 1);
      var cards := DoctorCardsBelow(users, info, links, patientId, n);
      if ListedDoctor(users, links, patientId, n - 1) {
        assert cards == prev + [cards[|prev|]];
        assert cards[|prev|].id == n - 1;
      } else {
        assert cards == prev;
      }
    }
  }

  lemma {:induction false} DoctorCardsBelowComplete(users: map<nat, User>, info: map<nat, DoctorInfo>,
                                                    links: set<(nat, nat)>, patientId: nat, n: nat)
    requires forall id :: id in users ==> users[id].id == id
    ensures CardsComplete(DoctorCardsBelow(users, info, links, patientId, n), users, links, patientId, n)
  {
    if n > 0 {
      DoctorCardsBelowComplete(users, info, links, patientId, n - 1);
      var prev := DoctorCardsBelow(users, info, links, patientId, n - 1);
      var cards := DoctorCardsBelow(users, info, links, patientId, n);
      if ListedDoctor(users, links, patientId, n - 1) {
        assert cards == prev + [cards[|prev|]];
        assert cards[|prev|].id == n - 1;
        forall id | 0 <= id < n && ListedDoctor(users, links, patientId, id)
          ensures exists i :: 0 <= i < |cards| && cards[i].id == id
        {
          if id < n - 1 {
            var i :| 0 <= i < |prev| && prev[i].id == id;
            assert cards[i] == prev[i];
          } else {
            assert cards[|prev|].id == id;
          }
        }
      } else {
        assert cards == prev;
      }
    }
  }

  /** get_patient_doctors: walks the users in id order and lists the linked doctors. */
  method GetPatientDoctors(db: Database, patientId: nat) returns (cards: seq<DoctorCard>)
    requires db.Valid()
    ensures cards == DoctorCardsBelow(db.users, db.doctorInfo, db.links, patientId, db.nextUserId)
  {
    cards := [];
    var id := 0;
    while id < db.nextUserId
      invariant id <= db.nextUserId
      invariant cards == DoctorCardsBelow(db.users, db.doctorInfo, db.links, patientId, id)
    {
      if id in db.users && db.users[id].role == "doctor" && (id, patientId) in db.links {
        var info := if id in db.doctorInfo then Some(db.doctorInfo[id]) else None;
        cards := cards + [Card(db.users[id], info)];
      }
      id := id + 1;
    }
  }

  /** Every user of the database has an id below the counter, so the listing covers them all. */
  lemma PatientDoctorsComplete(db: Database, patientId: nat)
    requires db.Valid()
    ensures var cards := DoctorCardsBelow(db.users, db.doctorInfo, db.links, patientId, db.nextUserId);
      && CardsSound(cards, db.users, db.links, patientId, db.nextUserId)
      && CardsComplete(cards, db.users, db.links, patientId, db.nextUserId)
    ensures forall id: nat :: ListedDoctor(db.users, db.links, patientId, id) ==> id < db.nextUserId
  {
    DoctorCardsBelowSound(db.users, db.doctorInfo, db.links, patientId, db.nextUserId);
    DoctorCardsBelowComplete(db.users, db.doctorInfo, db.links, patientId, db.nextUserId);
  }
}
