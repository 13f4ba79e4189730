/**
 * The contact-message store (app/services/message_service.py): create, list
 * newest first (optionally only unread), look up, mark as read, count unread
 * and delete.
 */
module Messages {
  import opened Wrappers
  import opened Records
  import opened Sorting

  function CreatedAt(m: Message): int {
    m.createdAt
  }

  /** The messages with is_read == 0, in store order. */
  function Unread(ms: seq<Message>): (r: seq<Message>)
    ensures |r| <= |ms|
  {
    if ms == [] then []
    else (if ms[0].isRead == 0 then [ms[0]] else []) + Unread(ms[1..])
  }

  lemma {:induction false} UnreadMembers(ms: seq<Message>)
    ensures forall m :: m in Unread(ms) <==> m in ms && m.isRead == 0
  {
    if ms != [] {
      UnreadMembers(ms[1..]);
      assert ms == [ms[0]] + ms[1..];
    }
  }

  /** The number of messages with is_read == 0. */
  function CountUnread(ms: seq<Message>): nat {
    if ms == [] then 0
    else (if ms[0].isRead == 0 then 1 else 0) + CountUnread(ms[1..])
  }

  /** Counting the unread messages and listing them agree. */
  lemma {:induction false} CountUnreadIsUnreadLength(ms: seq<Message>)
    ensures CountUnread(ms) == |Unread(ms)|
  {
    if ms != [] {
      CountUnreadIsUnreadLength(ms[1..]);
    }
  }

  /** get_all_messages: every message, or only the unread ones, newest first. */
  function GetAllMessages(db: Database, unreadOnly: bool): (r: seq<Message>)
    reads db
  {
    SortDesc(if unreadOnly then Unread(db.messages) else db.messages, CreatedAt)
  }

  lemma GetAllMessagesCorrect(db: Database, unreadOnly: bool)
    ensures SortedDesc(GetAllMessages(db, unreadOnly), CreatedAt)
    ensures forall m :: m in GetAllMessages(db, unreadOnly) <==> m in db.messages && (!unreadOnly || m.isRead == 0)
    ensures !unreadOnly ==> multiset(GetAllMessages(db, unreadOnly)) == multiset(db.messages)
  {
    UnreadMembers(db.messages);
    SortDescCorrect(if unreadOnly then Unread(db.messages) else db.messages, CreatedAt);
  }

  /** get_message_by_id */
  function GetMessageById(db: Database, id: nat): (r: Option<Message>)
    reads db
    ensures r.Some? ==> r.value in db.messages && r.value.id == id
    ensures r.None? <==> forall i :: 0 <= i < |db.messages| ==> db.messages[i].id != id
  {
    match FindMessage(db.messages, id)
    case Some(i) => Some(db.messages[i])
    case None => None
  }

  /** get_unread_count: the number of messages get_all_messages lists as unread. */
  function GetUnreadCount(db: Database): (r: nat)
    reads db
    ensures r == |GetAllMessages(db, true)|
  {
    CountUnreadIsUnreadLength(db.messages);
    CountUnread(db.messages)
  }

  /** With unique ids, the message carrying an id is the one FindMessage finds. */
  lemma FindMessageUnique(ms: seq<Message>, id: nat, i: nat)
    requires UniqueMessageIds(ms) && i < |ms| && ms[i].id == id
    ensures FindMessage(ms, id) == Some(i)
  {
  }

  /** The store after marking the message with the given id as read. */
  function MarkRead(ms: seq<Message>, id: nat): (r: seq<Message>)
    ensures |r| == |ms|
  {
    match FindMessage(ms, id)
    case Some(i) => ms[i := ms[i].(isRead := 1)]
    case None => ms
  }

  /** Marking as read sets is_read of the one message with that id and touches
      nothing else; doing it twice is the same as doing it once. */
  lemma MarkReadCorrect(ms: seq<Message>, id: nat)
    requires UniqueMessageIds(ms)
    ensures forall i :: 0 <= i < |ms| ==>
      MarkRead(ms, id)[i] == (if ms[i].id == id then ms[i].(isRead := 1) else ms[i])
    ensures MarkRead(MarkRead(ms, id), id) == MarkRead(ms, id)
  {
    match FindMessage(ms, id)
    case None =>
    case Some(i) =>
      var r := MarkRead(ms, id);
      assert r[i].id == id;
      match FindMessage(r, id)
      case None =>
      case Some(j) =>
  }

  /** create_message: stores a new unread message and returns it. */
  method CreateMessage(db: Database, name: string, email: string, subject: string, body: string, now: int)
    returns (m: Message)
    requires db.Valid()
    modifies db
    ensures db.Valid()
    ensures m == Message(old(db.nextMessageId), name, email, subject, body, 0, now)
    ensures db.messages == old(db.messages) + [m]
    ensures db.users == old(db.users) && db.doctorInfo == old(db.doctorInfo) && db.links == old(db.links)
    ensures db.history == old(db.history)
  {
    m := Message(db.nextMessageId, name, email, subject, body, 0, now);
    db.messages := db.messages + [m];
    db.nextMessageId := db.nextMessageId + 1;
  }

  /** mark_message_as_read: None, and no change, for an unknown id. */
  method MarkMessageAsRead(db: Database, id: nat) returns (r: Option<Message>)
    requires db.Valid()
    modifies db
    ensures db.Valid()
    ensures db.messages == MarkRead(old(db.messages), id)
    ensures r == GetMessageById(db, id)
    ensures r.Some? ==> r.value.isRead == 1
    ensures r.None? ==> db.messages == old(db.messages)
    ensures db.users == old(db.users) && db.doctorInfo == old(db.doctorInfo) && db.links == old(db.links)
    ensures db.history == old(db.history) && db.nextMessageId == old(db.nextMessageId)
  {
    var found := FindMessage(db.messages, id);
    if found.Some? {
      var i := found.value;
      db.messages := db.messages[i := db.messages[i].(isRead := 1)];
      FindMessageUnique(db.messages, id, i);
      r := Some(db.messages[i]);
    } else {
      r := None;
    }
  }

  /** The store without the message with the given id. */
  function Remove(ms: seq<Message>, id: nat): (r: seq<Message>)
    ensures |r| <= |ms|
  {
    match FindMessage(ms, id)
    case Some(i) => ms[..i] + ms[i + 1..]
    case None => ms
  }

  lemma RemoveAt(ms: seq<Message>, i: nat, r: seq<Message>)
    requires i < |ms| && r == ms[..i] + ms[i + 1..]
    ensures |r| == |ms| - 1
    ensures forall k :: 0 <= k < |r| ==> r[k] == ms[if k < i then k else k + 1]
  {
  }

  /** Removing keeps every other message and drops the one with that id. */
  lemma RemoveCorrect(ms: seq<Message>, id: nat)
    requires UniqueMessageIds(ms)
    ensures forall m :: m in Remove(ms, id) <==> m in ms && m.id != id
    ensures UniqueMessageIds(Remove(ms, id))
  {
    match FindMessage(ms, id)
    case None =>
    case Some(i) =>
      var r := Remove(ms, id);
      RemoveAt(ms, i, r);
      RemoveKeepsOthers(ms, i, r);
      forall m | m in r ensures m in ms && m.id != id {
        var k :| 0 <= k < |r| && r[k] == m;
        assert m == ms[if k < i then k else k + 1];
      }
  }

  lemma RemoveKeepsOthers(ms: seq<Message>, i: nat, r: seq<Message>)
    requires UniqueMessageIds(ms) && i < |ms| && r == ms[..i] + ms[i + 1..]
    ensures forall m :: m in ms && m.id != ms[i].id ==> m in r
    ensures UniqueMessageIds(r)
  {
    RemoveAt(ms, i, r);
    forall m | m in ms && m.id != ms[i].id ensures m in r {
      var k :| 0 <= k < |ms| && ms[k] == m;
      assert r[if k < i then k else k - 1] == m;
    }
  }

  /** delete_message: true iff a message with that id was stored, and then only it is gone. */
  method DeleteMessage(db: Database, id: nat) returns (deleted: bool)
    requires db.Valid()
    modifies db
    ensures db.Valid()
    ensures deleted <==> old(GetMessageById(db, id)).Some?
    ensures db.messages == Remove(old(db.messages), id)
    ensures db.users == old(db.users) && db.doctorInfo == old(db.doctorInfo) && db.links == old(db.links)
    ensures db.history == old(db.history) && db.nextMessageId == old(db.nextMessageId)
  {
    RemoveCorrect(db.messages, id);
    var found := FindMessage(db.messages, id);
    if found.Some? {
      var i := found.value;
      db.messages := db.messages[..i] + db.messages[i + 1..];
      deleted := true;
    } else {
      deleted := false;
    }
    forall k | 0 <= k < |db.messages| ensures db.messages[k].id < db.nextMessageId {
      assert db.messages[k] in old(db.messages);
    }
  }
}
