/**
 * Profile management (app/services/profile_service.py): updating a user's
 * contact details, a doctor's specialization, the password, and the profile
 * image path. The logged-in user is given by id and must be stored.
 */
module Profiles {
  import opened Wrappers
  import opened Text
  import opened Records

  const EmailInUseText := "Email already exists for another user"
  const ProfileUpdatedText := "Profile updated successfully!"
  const WrongPasswordText := "Current password is incorrect"
  const MismatchText := "New passwords do not match"
  const TooShortText := "Password must be at least 8 characters long"
  const PasswordChangedText := "Password changed successfully!"
  const InvalidImageText := "Invalid file type. Only JPG, PNG, and GIF are allowed"
  const ImageUpdatedText := "Profile image updated successfully!"
  const MinPasswordLength := 8
  const AllowedImageExtensions: set<string> := {".jpg", ".jpeg", ".png", ".gif"}
  const ProfileImageDir := "uploads/profiles/"

  /** Some user other than `userId` already has this email. */
  predicate EmailUsedByOther(users: map<nat, User>, userId: nat, email: string) {
    exists id :: id in users && id != userId && users[id].email == email
  }

  /** No two stored users share an email. */
  predicate UniqueEmails(users: map<nat, User>) {
    forall a, b :: a in users && b in users && a != b ==> users[a].email != users[b].email
  }

  /** The user after the contact update; phone and address are overwritten even when absent. */
  function WithContact(u: User, fname: string, lname: string, email: string,
                       phone: Option<string>, address: Option<string>): User {
    u.(fname := fname, lname := lname, email := email, phone := phone, address := address)
  }

  /** A successful contact update keeps emails unique. */
  lemma ContactUpdateKeepsEmailsUnique(users: map<nat, User>, userId: nat, fname: string, lname: string,
                                       email: string, phone: Option<string>, address: Option<string>)
    requires userId in users && UniqueEmails(users) && !EmailUsedByOther(users, userId, email)
    ensures UniqueEmails(users[userId := WithContact(users[userId], fname, lname, email, phone, address)])
  {
    var users' := users[userId := WithContact(users[userId], fname, lname, email, phone, address)];
    forall a, b | a in users' && b in users' && a != b
      ensures users'[a].email != users'[b].email
    {
      if a == userId {
        assert !(b in users && b != userId && users[b].email == email);
      } else if b == userId {
        assert !(a in users && a != userId && users[a].email == email);
      }
    }
  }

  /** The contact update both profile operations perform once the email is known to be free. */
  method SetContact(db: Database, userId: nat, fname: string, lname: string, email: string,
                    phone: Option<string>, address: Option<string>)
    requires db.Valid() && userId in db.users && !EmailUsedByOther(db.users, userId, email)
    modifies db
    ensures db.Valid()
    ensures db.users == old(db.users)[userId := WithContact(old(db.users)[userId], fname, lname, email, phone, address)]
    ensures UniqueEmails(old(db.users)) ==> UniqueEmails(db.users)
    ensures db.doctorInfo == old(db.doctorInfo) && db.links == old(db.links)
    ensures db.history == old(db.history) && db.messages == old(db.messages)
    ensures db.nextUserId == old(db.nextUserId) && db.nextRecordId == old(db.nextRecordId)
    ensures db.nextMessageId == old(db.nextMessageId)
  {
    if UniqueEmails(db.users) {
      ContactUpdateKeepsEmailsUnique(db.users, userId, fname, lname, email, phone, address);
    }
    db.users := db.users[userId := WithContact(db.users[userId], fname, lname, email, phone, address)];
  }

  /** update_user_profile */
  method UpdateUserProfile(db: Database, userId: nat, fname: string, lname: string, email: string,
                           phone: Option<string>, address: Option<string>)
    returns (success: bool, message: string)
    requires db.Valid() && userId in db.users
    modifies db
    ensures db.Valid()
    ensures success <==> !EmailUsedByOther(old(db.users), userId, email)
    ensures message == if success then ProfileUpdatedText else EmailInUseText
    ensures success ==> db.users == old(db.users)[userId := WithContact(old(db.users)[userId], fname, lname, email, phone, address)]
    ensures !success ==> db.users == old(db.users)
    ensures UniqueEmails(old(db.users)) ==> UniqueEmails(db.users)
    ensures db.doctorInfo == old(db.doctorInfo) && db.links == old(db.links)
    ensures db.history == old(db.history) && db.messages == old(db.messages)
  {
    if EmailUsedByOther(db.users, userId, email) {
      return false, EmailInUseText;
    }
    SetContact(db, userId, fname, lname, email, phone, address);
    return true, ProfileUpdatedText;
  }

  /** The doctor info after setting a specialization: the existing entry keeps
      its license number; a new entry gets license "TEMP-<id>". */
  function WithSpecialization(info: map<nat, DoctorInfo>, userId: nat, specialization: string): (r: map<nat, DoctorInfo>)
    ensures r.Keys == info.Keys + {userId}
    ensures r[userId].specialization == specialization
    ensures userId in info ==> r[userId].licenseNumber == info[userId].licenseNumber
    ensures userId !in info ==> r[userId].licenseNumber == "TEMP-" + IntToString(userId)
    ensures forall id :: id in info && id != userId ==> r[id] == info[id]
  {
    if userId in info then info[userId := info[userId].(specialization := specialization)]
    else info[userId := DoctorInfo("TEMP-" + IntToString(userId), specialization)]
  }

  /** update_doctor_profile: the contact update, and the specialization when it is non-empty. */
  method UpdateDoctorProfile(db: Database, userId: nat, fname: string, lname: string, email: string,
                             phone: Option<string>, address: Option<string>, specialization: Option<string>)
    returns (success: bool, message: string)
    requires db.Valid() && userId in db.users
    modifies db
    ensures db.Valid()
    ensures success <==> !EmailUsedByOther(old(db.users), userId, email)
    ensures message == if success then ProfileUpdatedText else EmailInUseText
    ensures success ==> db.users == old(db.users)[userId := WithContact(old(db.users)[userId], fname, lname, email, phone, address)]
    ensures !success ==> db.users == old(db.users) && db.doctorInfo == old(db.doctorInfo)
    ensures success && Truthy(specialization) ==> db.doctorInfo == WithSpecialization(old(db.doctorInfo), userId, specialization.value)
    ensures success && !Truthy(specialization) ==> db.doctorInfo == old(db.doctorInfo)
    ensures UniqueEmails(old(db.users)) ==> UniqueEmails(db.users)
    ensures db.links == old(db.links) && db.history == old(db.history) && db.messages == old(db.messages)
  {
    if EmailUsedByOther(db.users, userId, email) {
      return false, EmailInUseText;
    }
    SetContact(db, userId, fname, lname, email, phone, address);
    if Truthy(specialization) {
      db.doctorInfo := WithSpecialization(db.doctorInfo, userId, specialization.value);
    }
    return true, ProfileUpdatedText;
  }

  /** change_user_password. Checking a password against the stored hash and
      hashing are parameters. The checks run in the order shown. */
  method ChangeUserPassword(db: Database, userId: nat, currentPassword: string, newPassword: string,
                            confirmPassword: string, verify: (string, string) -> bool, hash: string -> string)
    returns (success: bool, message: string)
    requires db.Valid() && userId in db.users
    modifies db
    ensures db.Valid()
    ensures var stored := old(db.users)[userId].password;
      message ==
        if !verify(currentPassword, stored) then WrongPasswordText
        else if newPassword != confirmPassword then MismatchText
        else if |newPassword| < MinPasswordLength then TooShortText
        else PasswordChangedText
    ensures success <==> verify(currentPassword, old(db.users)[userId].password)
                         && newPassword == confirmPassword && |newPassword| >= MinPasswordLength
    ensures success ==> db.users == old(db.users)[userId := old(db.users)[userId].(password := hash(newPassword))]
    ensures !success ==> db.users == old(db.users)
    ensures db.doctorInfo == old(db.doctorInfo) && db.links == old(db.links)
    ensures db.history == old(db.history) && db.messages == old(db.messages)
  {
    if !verify(currentPassword, db.users[userId].password) {
      return false, WrongPasswordText;
    }
    if newPassword != confirmPassword {
      return false, MismatchText;
    }
    if |newPassword| < MinPasswordLength {
      return false, TooShortText;
    }
    db.users := db.users[userId := db.users[userId].(password := hash(newPassword))];
    return true, PasswordChangedText;
  }

  /** The extension upload_user_profile_image judges: splitext's suffix, lower-cased. */
  function ImageExtension(filename: string): (r: string)
    ensures r == [] || r[0] == '.'
  {
    var ext := SplitExt(filename);
    LowerAt(ext);
    Lower(ext)
  }

  /** upload_user_profile_image. The file is accepted iff its lower-cased
      extension is .jpg, .jpeg, .png or .gif; the stored path is the upload
      directory, a fresh unique name (a parameter) and that extension. The
      file system writes and the removal of the old file are not modelled. */
  method UploadUserProfileImage(db: Database, userId: nat, filename: string, uniqueName: string)
    returns (success: bool, message: string)
    requires db.Valid() && userId in db.users
    modifies db
    ensures db.Valid()
    ensures success <==> ImageExtension(filename) in AllowedImageExtensions
    ensures message == if success then ImageUpdatedText else InvalidImageText
    ensures success ==> db.users == old(db.users)[userId :=
      old(db.users)[userId].(profileImage := Some(ProfileImageDir + uniqueName + ImageExtension(filename)))]
    ensures !success ==> db.users == old(db.users)
    ensures db.doctorInfo == old(db.doctorInfo) && db.links == old(db.links)
    ensures db.history == old(db.history) && db.messages == old(db.messages)
  {
    var ext := ImageExtension(filename);
    if ext !in AllowedImageExtensions {
      return false, InvalidImageText;
    }
    db.users := db.users[userId := db.users[userId].(profileImage := Some(ProfileImageDir + uniqueName + ext))];
    return true, ImageUpdatedText;
  }
}
