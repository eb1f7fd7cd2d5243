/** Messages between two accounts: sending (trimmed, non-empty, to another
    active account), the mailbox views, the conversation view, and deletion by
    either party. The table is kept oldest first, so "ORDER BY created_at" is
    either the stored order or its reverse. */
module Messages {
  import opened Common
  import opened Text
  import opened Database

  // ---------------------------------------------------------------- sendMessage

  /** sendMessage's checks in the handler's order, and the row it appends under
      the next serial `id` at time `now`. `receiverId` is the body's value as
      parseInt reads it. The receiver is looked up before the self-message
      check. */
  function CheckMessage(users: map<nat, User>, senderId: nat, receiverId: Input<int>, text: string,
                        id: nat, now: nat): (r: Result<Message>)
    ensures (receiverId.Missing? || text == "") ==> r == Err(Error(400, MessageFieldsRequired))
    ensures (receiverId.Given? && text != "" && receiverId.parsed.None?) ==> r == Err(Error(400, InvalidReceiverId))
    ensures (receiverId.Given? && receiverId.parsed.Some? && text != "" && Trim(text) == "")
            ==> r == Err(Error(400, EmptyMessage))
    ensures (receiverId.Given? && receiverId.parsed.Some? && Trim(text) != ""
             && !(receiverId.parsed.value >= 0 && ActiveUser(users, receiverId.parsed.value)))
            ==> r == Err(Error(404, ReceiverNotFound))
    ensures r.Ok? <==>
              && receiverId.Given? && receiverId.parsed.Some? && Trim(text) != ""
              && receiverId.parsed.value >= 0 && ActiveUser(users, receiverId.parsed.value)
              && receiverId.parsed.value != senderId
    ensures (r.Err? && receiverId.Given? && receiverId.parsed.Some? && Trim(text) != ""
             && receiverId.parsed.value >= 0 && ActiveUser(users, receiverId.parsed.value))
            ==> r.error == Error(400, MessageToSelf)
    ensures r.Ok? ==> r.value == Message(id, senderId, receiverId.parsed.value, Trim(text), now)
  {
    if receiverId.Missing? || text == "" then Err(Error(400, MessageFieldsRequired))
    else if receiverId.parsed.None? then Err(Error(400, InvalidReceiverId))
    else if Trim(text) == "" then Err(Error(400, EmptyMessage))
    else
      var to := receiverId.parsed.value;
      if to < 0 || !ActiveUser(users, to) then Err(Error(404, ReceiverNotFound))
      else if senderId == to then Err(Error(400, MessageToSelf))
      else Ok(Message(id, senderId, to, Trim(text), now))
  }

  /** The text a successful send stores is non-empty and has no surrounding
      whitespace, so sending it again stores the same text. */
  lemma StoredTextIsTrimmed(users: map<nat, User>, senderId: nat, receiverId: Input<int>, text: string,
                            id: nat, now: nat)
    requires CheckMessage(users, senderId, receiverId, text, id, now).Ok?
    ensures var m := CheckMessage(users, senderId, receiverId, text, id, now).value;
            && m.text != "" && !IsSpace(m.text[0]) && !IsSpace(m.text[|m.text| - 1])
            && CheckMessage(users, senderId, receiverId, m.text, id, now) == Ok(m)
  {
    var m := CheckMessage(users, senderId, receiverId, text, id, now).value;
    assert m.text == Trim(text);
    TrimIdempotent(text);
    assert Trim(m.text) == m.text;
  }

  /** sendMessage: appends exactly one message stamped with the current time, or
      nothing. */
  method SendMessage(db: Store, senderId: nat, receiverId: Input<int>, text: string) returns (r: Result<Message>)
    requires db.Valid()
    modifies db`messages, db`nextMessage, db`clock
    ensures db.Valid()
    ensures r == CheckMessage(db.users, senderId, receiverId, text, old(db.nextMessage), old(db.clock))
    ensures r.Ok? ==> db.messages == old(db.messages) + [r.value]
    ensures r.Err? ==> db.messages == old(db.messages)
  {
    r := CheckMessage(db.users, senderId, receiverId, text, db.nextMessage, db.clock);
    if r.Ok? {
      InsertMessage(db, r.value);
    }
  }

  /** The INSERT: the row goes to the end of the table, and the serial and the
      clock move on. */
  method InsertMessage(db: Store, m: Message)
    requires db.Valid()
    requires m.id == db.nextMessage && m.createdAt == db.clock && m.senderId != m.receiverId
    modifies db`messages, db`nextMessage, db`clock
    ensures db.Valid()
    ensures db.messages == old(db.messages) + [m]
  {
    AppendKeepsOrder(db.messages, m, db.nextMessage, db.clock);
    db.messages := db.messages + [m];
    db.nextMessage := db.nextMessage + 1;
    db.clock := db.clock + 1;
  }

  /** Appending a row stamped with the next id and the current time, between two
      different users, keeps the table's invariants. */
  lemma AppendKeepsOrder(ms: seq<Message>, m: Message, nextId: nat, now: nat)
    requires MessageTable(ms, nextId, now)
    requires m.id == nextId && m.createdAt == now && m.senderId != m.receiverId
    ensures MessageTable(ms + [m], nextId + 1, now + 1)
  {
  }

  /** A message as the list views show it. */
  datatype Shown = Shown(message: Message, isFromMe: bool)

  function Show(m: Message, userId: nat): Shown {
    Shown(m, m.senderId == userId)
  }

  // ---------------------------------------------------------------- getMessages

  /** The mailbox a `type` query parameter picks. */
  datatype Box = SentBox | ReceivedBox | AllBox

  /** `sent` and `received` pick their box; any other value, or none, picks all. */
  function ParseBox(t: string): (b: Box)
    ensures b == SentBox <==> t == "sent"
    ensures b == ReceivedBox <==> t == "received"
  {
    if t == "sent" then SentBox else if t == "received" then ReceivedBox else AllBox
  }

  /** The WHERE clause of the mailbox query together with its inner joins on the
      users a row names. */
  predicate InBox(users: map<nat, User>, userId: nat, box: Box, m: Message) {
    match box
    case SentBox => m.senderId == userId && m.receiverId in users
    case ReceivedBox => m.receiverId == userId && m.senderId in users
    case AllBox => (m.senderId == userId || m.receiverId == userId) && m.senderId in users && m.receiverId in users
  }

  /** getMessages without pagination: the rows of the box, newest first. */
  function Mailbox(ms: seq<Message>, users: map<nat, User>, userId: nat, box: Box): (r: seq<Shown>)
    ensures |r| <= |ms|
    ensures forall i | 0 <= i < |r| ::
              r[i].message in ms && InBox(users, userId, box, r[i].message)
              && r[i].isFromMe == (r[i].message.senderId == userId)
  {
    if ms == [] then []
    else
      var last := ms[|ms| - 1];
      (if InBox(users, userId, box, last) then [Show(last, userId)] else []) + Mailbox(ms[..|ms| - 1], users, userId, box)
  }

  /** Every row of the box is listed. */
  lemma {:induction false} MailboxComplete(ms: seq<Message>, users: map<nat, User>, userId: nat, box: Box)
    ensures forall m | m in ms && InBox(users, userId, box, m) :: Show(m, userId) in Mailbox(ms, users, userId, box)
  {
    if ms != [] {
      var init := ms[..|ms| - 1];
      MailboxComplete(init, users, userId, box);
      assert forall m | m in ms :: m in init || m == ms[|ms| - 1];
    }
  }

  /** Each shown row is newer than the next. */
  predicate NewestToOldest(r: seq<Shown>) {
    forall i, j | 0 <= i < j < |r| :: r[i].message.createdAt > r[j].message.createdAt
  }

  /** In a chronological table the box is listed newest first. */
  lemma {:induction false} MailboxNewestFirst(ms: seq<Message>, users: map<nat, User>, userId: nat, box: Box)
    requires Chronological(ms)
    ensures NewestToOldest(Mailbox(ms, users, userId, box))
  {
    if ms != [] {
      var last := ms[|ms| - 1];
      var init := ms[..|ms| - 1];
      var rest := Mailbox(init, users, userId, box);
      assert Chronological(init);
      MailboxNewestFirst(init, users, userId, box);
      forall i | 0 <= i < |rest| ensures rest[i].message.createdAt < last.createdAt {
        var k :| 0 <= k < |init| && init[k] == rest[i].message;
      }
      var head := if InBox(users, userId, box, last) then [Show(last, userId)] else [];
      assert Mailbox(ms, users, userId, box) == head + rest;
    }
  }

  /** A newly sent message heads its sender's sent box and its receiver's
      received box. */
  lemma NewestFirst(ms: seq<Message>, users: map<nat, User>, m: Message)
    requires m.receiverId in users && m.senderId in users
    ensures Mailbox(ms + [m], users, m.senderId, SentBox) == [Show(m, m.senderId)] + Mailbox(ms, users, m.senderId, SentBox)
    ensures Mailbox(ms + [m], users, m.receiverId, ReceivedBox)
            == [Show(m, m.receiverId)] + Mailbox(ms, users, m.receiverId, ReceivedBox)
  {
    assert (ms + [m])[..|ms|] == ms;
  }

  /** In a store without self-messages, the sent box holds only the caller's own
      messages and the received box none of them. */
  lemma BoxesSplitByAuthor(ms: seq<Message>, users: map<nat, User>, userId: nat)
    requires NoSelfMessages(ms)
    ensures forall s | s in Mailbox(ms, users, userId, SentBox) :: s.isFromMe
    ensures forall s | s in Mailbox(ms, users, userId, ReceivedBox) :: !s.isFromMe
  {
    var received := Mailbox(ms, users, userId, ReceivedBox);
    forall s | s in received ensures !s.isFromMe {
      var i :| 0 <= i < |received| && received[i] == s;
      var k :| 0 <= k < |ms| && ms[k] == s.message;
    }
  }

  // ---------------------------------------------------------------- getConversation

  /** The row is between exactly these two users, in either direction. */
  predicate Between(m: Message, userId: nat, otherId: nat) {
    (m.senderId == userId && m.receiverId == otherId) || (m.senderId == otherId && m.receiverId == userId)
  }

  /** The conversation query without pagination: the rows between the two
      users, oldest first. */
  function Thread(ms: seq<Message>, userId: nat, otherId: nat): (r: seq<Shown>)
    ensures |r| <= |ms|
    ensures forall i | 0 <= i < |r| ::
              r[i].message in ms && Between(r[i].message, userId, otherId)
              && r[i].isFromMe == (r[i].message.senderId == userId)
  {
    if ms == [] then []
    else
      var last := ms[|ms| - 1];
      Thread(ms[..|ms| - 1], userId, otherId) + (if Between(last, userId, otherId) then [Show(last, userId)] else [])
  }

  /** Every row between the two users is listed. */
  lemma {:induction false} ThreadComplete(ms: seq<Message>, userId: nat, otherId: nat)
    ensures forall m | m in ms && Between(m, userId, otherId) :: Show(m, userId) in Thread(ms, userId, otherId)
  {
    if ms != [] {
      var init := ms[..|ms| - 1];
      ThreadComplete(init, userId, otherId);
      assert forall m | m in ms :: m in init || m == ms[|ms| - 1];
    }
  }

  /** Each shown row is older than the next. */
  predicate OldestToNewest(r: seq<Shown>) {
    forall i, j | 0 <= i < j < |r| :: r[i].message.createdAt < r[j].message.createdAt
  }

  /** In a chronological table the conversation is listed oldest first. */
  lemma {:induction false} ThreadOldestFirst(ms: seq<Message>, userId: nat, otherId: nat)
    requires Chronological(ms)
    ensures OldestToNewest(Thread(ms, userId, otherId))
  {
    if ms != [] {
      var last := ms[|ms| - 1];
      var init := ms[..|ms| - 1];
      var rest := Thread(init, userId, otherId);
      assert Chronological(init);
      ThreadOldestFirst(init, userId, otherId);
      forall i | 0 <= i < |rest| ensures rest[i].message.createdAt < last.createdAt {
        var k :| 0 <= k < |init| && init[k] == rest[i].message;
      }
      var tail := if Between(last, userId, otherId) then [Show(last, userId)] else [];
      assert Thread(ms, userId, otherId) == rest + tail;
    }
  }

  /** getConversation: the other user's id must be present and not the text
      "undefined" (400), must parse (400), and must name an active user (404).
      `parsed` is what parseInt makes of `otherUserId`. */
  function Conversation(ms: seq<Message>, users: map<nat, User>, userId: nat, otherUserId: string,
                        parsed: Option<int>): (r: Result<seq<Shown>>)
    ensures (otherUserId == "" || otherUserId == "undefined") ==> r == Err(Error(400, UserIdRequired))
    ensures (otherUserId != "" && otherUserId != "undefined" && parsed.None?) ==> r == Err(Error(400, InvalidUserId))
    ensures r.Ok? <==>
              otherUserId != "" && otherUserId != "undefined" && parsed.Some?
              && parsed.value >= 0 && ActiveUser(users, parsed.value)
    ensures (r.Err? && otherUserId != "" && otherUserId != "undefined" && parsed.Some?)
            ==> r.error == Error(404, UserNotFound)
    ensures r.Ok? ==> r.value == Thread(ms, userId, parsed.value)
  {
    if otherUserId == "" || otherUserId == "undefined" then Err(Error(400, UserIdRequired))
    else if parsed.None? then Err(Error(400, InvalidUserId))
    else if parsed.value < 0 || !ActiveUser(users, parsed.value) then Err(Error(404, UserNotFound))
    else Ok(Thread(ms, userId, parsed.value))
  }

  /** Both parties see the same conversation, each marking the other's rows as
      not theirs. */
  lemma {:induction false} ThreadSymmetric(ms: seq<Message>, userId: nat, otherId: nat)
    requires userId != otherId
    ensures |Thread(ms, userId, otherId)| == |Thread(ms, otherId, userId)|
    ensures forall i | 0 <= i < |Thread(ms, userId, otherId)| ::
              Thread(ms, otherId, userId)[i] == Shown(Thread(ms, userId, otherId)[i].message,
                                                     !Thread(ms, userId, otherId)[i].isFromMe)
  {
    if ms != [] {
      ThreadSymmetric(ms[..|ms| - 1], userId, otherId);
    }
  }

  /** A newly sent message ends the conversation between its two parties. */
  lemma SentMessageEndsThread(ms: seq<Message>, m: Message, userId: nat)
    requires m.senderId == userId
    ensures Thread(ms + [m], userId, m.receiverId) == Thread(ms, userId, m.receiverId) + [Shown(m, true)]
  {
    assert (ms + [m])[..|ms|] == ms;
  }

  // ---------------------------------------------------------------- deleteMessage

  /** Where a row with that id is stored, if one is. */
  function Find(ms: seq<Message>, id: nat): (k: Option<nat>)
    ensures k.None? <==> forall i | 0 <= i < |ms| :: ms[i].id != id
    ensures k.Some? ==> k.value < |ms| && ms[k.value].id == id
  {
    if ms == [] then None
    else if ms[|ms| - 1].id == id then Some(|ms| - 1)
    else Find(ms[..|ms| - 1], id)
  }

  /** deleteMessage's check: the message exists and the caller is its sender or
      its receiver; otherwise one 404 covers both cases. */
  function CheckDelete(ms: seq<Message>, userId: nat, id: nat): (r: Result<Message>)
    requires DistinctIds(ms)
    ensures r.Ok? <==> exists i | 0 <= i < |ms| :: ms[i].id == id && (ms[i].senderId == userId || ms[i].receiverId == userId)
    ensures r.Ok? ==> r.value in ms && r.value.id == id
    ensures r.Err? ==> r.error == Error(404, MessageNotFoundOrNotYours)
  {
    match Find(ms, id)
    case None => Err(Error(404, MessageNotFoundOrNotYours))
    case Some(k) =>
      if ms[k].senderId == userId || ms[k].receiverId == userId then Ok(ms[k])
      else Err(Error(404, MessageNotFoundOrNotYours))
  }

  /** `DELETE FROM messages WHERE id = $1`: every other row, in order. */
  function Without(ms: seq<Message>, id: nat): (r: seq<Message>)
    ensures |r| <= |ms|
    ensures forall i | 0 <= i < |r| :: r[i] in ms && r[i].id != id
  {
    if ms == [] then []
    else
      var last := ms[|ms| - 1];
      Without(ms[..|ms| - 1], id) + (if last.id != id then [last] else [])
  }

  /** With distinct ids the delete removes exactly the one row it found and keeps
      the others in their order. */
  lemma {:induction false} WithoutRemovesOne(ms: seq<Message>, k: nat)
    requires DistinctIds(ms) && k < |ms|
    ensures Without(ms, ms[k].id) == ms[..k] + ms[k + 1..]
  {
    var last := ms[|ms| - 1];
    var init := ms[..|ms| - 1];
    if k == |ms| - 1 {
      WithoutAbsent(init, ms[k].id);
      assert init == ms[..k] + ms[k + 1..];
    } else {
      WithoutRemovesOne(init, k);
      assert init[k].id == ms[k].id;
      assert ms[..k] + ms[k + 1..] == (init[..k] + init[k + 1..]) + [last];
    }
  }

  /** Deleting an id no row carries changes nothing. */
  lemma {:induction false} WithoutAbsent(ms: seq<Message>, id: nat)
    requires forall i | 0 <= i < |ms| :: ms[i].id != id
    ensures Without(ms, id) == ms
  {
    if ms != [] {
      WithoutAbsent(ms[..|ms| - 1], id);
      assert ms == ms[..|ms| - 1] + [ms[|ms| - 1]];
    }
  }

  /** Removing one row keeps the table's invariants. */
  lemma RemoveKeepsOrder(ms: seq<Message>, k: nat, nextId: nat, now: nat)
    requires k < |ms|
    requires MessageTable(ms, nextId, now)
    ensures MessageTable(ms[..k] + ms[k + 1..], nextId, now)
  {
    var rest := ms[..k] + ms[k + 1..];
    assert forall i | 0 <= i < |rest| :: rest[i] == if i < k then ms[i] else ms[i + 1];
  }

  /** deleteMessage: removes that one message, or nothing. */
  method DeleteMessage(db: Store, userId: nat, id: nat) returns (r: Result<Message>)
    requires db.Valid()
    modifies db`messages
    ensures db.Valid()
    ensures r == CheckDelete(old(db.messages), userId, id)
    ensures r.Ok? ==> db.messages == Without(old(db.messages), id) && |db.messages| == |old(db.messages)| - 1
    ensures r.Err? ==> db.messages == old(db.messages)
  {
    r := CheckDelete(db.messages, userId, id);
    if r.Ok? {
      var k := Find(db.messages, id).value;
      WithoutRemovesOne(db.messages, k);
      RemoveKeepsOrder(db.messages, k, db.nextMessage, db.clock);
      db.messages := Without(db.messages, id);
    }
  }
}
