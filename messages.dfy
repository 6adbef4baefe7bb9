/** Internal messaging of the modular back end: the `Message` row and its flag methods
    (`app/models/message.py`), and the access and state rules of
    `app/controllers/message_controller.py`. Timestamps are parameters. */
module Messages {
  import opened Wrappers
  import opened Text

  /** The columns of a message that the rules read or write. */
  datatype MessageRecord = MessageRecord(
    id: int, senderId: int, recipientId: int, subject: string, body: string,
    parentId: Option<int>, isReply: bool, isDraft: bool, sentAt: Option<int>,
    isRead: bool, readAt: Option<int>, isArchived: bool, isStarred: bool,
    senderDeleted: bool, recipientDeleted: bool)

  /** `mark_as_read`: only the first marking records a time. */
  function ReadMarked(m: MessageRecord, now: int): (r: MessageRecord)
    ensures r.isRead
    ensures m.isRead ==> r == m
    ensures !m.isRead ==> r == m.(isRead := true, readAt := Some(now))
  {
    if m.isRead then m else m.(isRead := true, readAt := Some(now))
  }

  /** Marking twice is marking once: the first read time stays. */
  lemma MarkReadIdempotent(m: MessageRecord, t1: int, t2: int)
    ensures ReadMarked(ReadMarked(m, t1), t2) == ReadMarked(m, t1)
  {
  }

  /** `is_fully_deleted`. */
  predicate FullyDeleted(m: MessageRecord) {
    m.senderDeleted && m.recipientDeleted
  }

  class Message {
    var id: int
    var senderId: int
    var recipientId: int
    var subject: string
    var body: string
    var parentId: Option<int>
    var isReply: bool
    var isDraft: bool
    var sentAt: Option<int>
    var isRead: bool
    var readAt: Option<int>
    var isArchived: bool
    var isStarred: bool
    var senderDeleted: bool
    var recipientDeleted: bool

    function Snap(): MessageRecord
      reads this
    {
      MessageRecord(id, senderId, recipientId, subject, body, parentId, isReply, isDraft, sentAt, isRead, readAt,
                    isArchived, isStarred, senderDeleted, recipientDeleted)
    }

    /** `Message(...)` as the INSERT stores it: a reply exactly when it has a parent; the flags
        hold their column defaults (false), and `sent_at` is the current time for a draft too,
        since the column default fills it when `__init__` leaves it unset. */
    constructor (rowId: int, sender: int, recipient: int, subj: string, text: string, parent: Option<int>,
                 draft: bool, now: int)
      ensures Snap() == MessageRecord(rowId, sender, recipient, subj, text, parent, parent.Some?, draft,
                                      Some(now), false, None, false, false, false, false)
    {
      id := rowId;
      senderId := sender;
      recipientId := recipient;
      subject := subj;
      body := text;
      parentId := parent;
      isDraft := draft;
      isReply := parent.Some?;
      sentAt := Some(now);
      isRead := false;
      readAt := None;
      isArchived := false;
      isStarred := false;
      senderDeleted := false;
      recipientDeleted := false;
    }

    method MarkAsRead(now: int)
      modifies this
      ensures Snap() == ReadMarked(old(Snap()), now)
    {
      if !isRead {
        isRead := true;
        readAt := Some(now);
      }
    }

    /** `mark_as_unread`: both the flag and the time are cleared. */
    method MarkAsUnread()
      modifies this
      ensures Snap() == old(Snap()).(isRead := false, readAt := None)
    {
      isRead := false;
      readAt := None;
    }

    method Archive()
      modifies this
      ensures Snap() == old(Snap()).(isArchived := true)
    {
      isArchived := true;
    }

    method Unarchive()
      modifies this
      ensures Snap() == old(Snap()).(isArchived := false)
    {
      isArchived := false;
    }

    method Star()
      modifies this
      ensures Snap() == old(Snap()).(isStarred := true)
    {
      isStarred := true;
    }

    method Unstar()
      modifies this
      ensures Snap() == old(Snap()).(isStarred := false)
    {
      isStarred := false;
    }

    method DeleteForSender()
      modifies this
      ensures Snap() == old(Snap()).(senderDeleted := true)
    {
      senderDeleted := true;
    }

    method DeleteForRecipient()
      modifies this
      ensures Snap() == old(Snap()).(recipientDeleted := true)
    {
      recipientDeleted := true;
    }

    method RestoreForSender()
      modifies this
      ensures Snap() == old(Snap()).(senderDeleted := false)
    {
      senderDeleted := false;
    }

    method RestoreForRecipient()
      modifies this
      ensures Snap() == old(Snap()).(recipientDeleted := false)
    {
      recipientDeleted := false;
    }
  }

  /** The signed-in caller. */
  datatype Caller = Caller(id: int, role: string)

  /** Sender, recipient or admin: the rule of the read, star, archive and delete endpoints. */
  predicate CanAccess(m: MessageRecord, c: Caller)
    ensures c.role == "admin" ==> CanAccess(m, c)
    ensures DeletedForCaller(m, c) ==> CanAccess(m, c)
    ensures CanAccess(m, c) && c.role != "admin" ==> c.id == m.senderId || c.id == m.recipientId
  {
    m.senderId == c.id || m.recipientId == c.id || c.role == "admin"
  }

  /** Deleted on the caller's own side. */
  predicate DeletedForCaller(m: MessageRecord, c: Caller) {
    (m.senderId == c.id && m.senderDeleted) || (m.recipientId == c.id && m.recipientDeleted)
  }

  /** `get_message`: outsiders get 403, a message the caller deleted 404; the recipient's first
      view marks it read. */
  function ViewMessage(m: MessageRecord, c: Caller, now: int): (r: Result<MessageRecord, ApiError>)
    ensures !CanAccess(m, c) ==> r == Err(ApiError(403, "Access denied"))
    ensures CanAccess(m, c) && DeletedForCaller(m, c) ==> r == Err(ApiError(404, "Message not found"))
    ensures r.Ok? <==> CanAccess(m, c) && !DeletedForCaller(m, c)
    ensures r.Ok? ==> r.value == if m.recipientId == c.id then ReadMarked(m, now) else m
  {
    if !CanAccess(m, c) then Err(ApiError(403, "Access denied"))
    else if DeletedForCaller(m, c) then Err(ApiError(404, "Message not found"))
    else if m.recipientId == c.id && !m.isRead then Ok(ReadMarked(m, now))
    else Ok(m)
  }

  /** Viewing only ever changes the read state, and an admin reading someone else's message
      leaves it unread. */
  lemma ViewChangesOnlyReadState(m: MessageRecord, c: Caller, now: int)
    requires ViewMessage(m, c, now).Ok?
    ensures var v := ViewMessage(m, c, now).value;
            v.(isRead := m.isRead, readAt := m.readAt) == m
    ensures m.recipientId != c.id ==> ViewMessage(m, c, now).value == m
  {
  }

  /** A recipient id as the JSON body gives it: a number or a string of digits. */
  datatype JsonId = Num(n: int) | Str(s: string)

  /** The checks of `create_message` as written: a missing field (400), no active recipient with
      that id (404; the database coerces a string of digits), then sending to oneself (400), where
      the comparison is with the raw JSON value. */
  function CreateCheckAsWritten(missing: seq<string>, recipient: Option<int>, given: JsonId, callerId: int)
    : (e: Option<ApiError>)
    ensures e.None? <==> missing == [] && recipient.Some? && given != Num(callerId)
    ensures e.Some? ==> e.value.code == 400 || e.value.code == 404
    ensures given.Num? && (recipient.Some? ==> recipient.value == given.n) ==>
              e == CreateCheck(missing, recipient, callerId)
  {
    if missing != [] then Some(ApiError(400, "Missing required fields: " + Join(missing, ", ")))
    else if recipient.None? then Some(ApiError(404, "Recipient not found or inactive"))
    else if given == Num(callerId) then Some(ApiError(400, "Cannot send message to yourself"))
    else None
  }

  /** As written, a caller who writes their own id as a string sends a message to themselves. */
  lemma StringIdSkipsSelfCheck(callerId: nat)
    ensures CreateCheckAsWritten([], Some(callerId), Str(NatToDec(callerId)), callerId).None?
  {
  }

  /** The checks of `create_message` with the self-send ban applied to the recipient found. */
  function CreateCheck(missing: seq<string>, recipient: Option<int>, callerId: int): (e: Option<ApiError>)
    ensures e.None? <==> missing == [] && recipient.Some? && recipient.value != callerId
    ensures missing == [] && recipient == Some(callerId) ==>
              e == Some(ApiError(400, "Cannot send message to yourself"))
    ensures missing == [] && recipient.None? ==> e == Some(ApiError(404, "Recipient not found or inactive"))
  {
    if missing != [] then Some(ApiError(400, "Missing required fields: " + Join(missing, ", ")))
    else if recipient.None? then Some(ApiError(404, "Recipient not found or inactive"))
    else if recipient.value == callerId then Some(ApiError(400, "Cannot send message to yourself"))
    else None
  }

  const ReplyPrefix: string := "Re: "

  /** The subject of a reply: the one given, else `Re: ` and the original's; then `Re: ` in front
      unless it already starts so. */
  function ReplySubject(given: Option<string>, original: string): (s: string)
    ensures StartsWith(s, ReplyPrefix)
    ensures given.Some? && StartsWith(given.value, ReplyPrefix) ==> s == given.value
    ensures given.Some? && !StartsWith(given.value, ReplyPrefix) ==> s == ReplyPrefix + given.value
    ensures given.None? ==> s == ReplyPrefix + original
  {
    var subject := given.GetOr(ReplyPrefix + original);
    if StartsWith(subject, ReplyPrefix) then subject else ReplyPrefix + subject
  }

  /** Replying with the reply's own subject adds nothing. */
  lemma ReplySubjectIdempotent(given: Option<string>, original: string, other: string)
    ensures ReplySubject(Some(ReplySubject(given, original)), other) == ReplySubject(given, original)
  {
  }

  /** Without a subject the prefix is added to the original's as it is: a reply to a reply reads
      `Re: Re: ...`. */
  lemma ReplyToReplyStacksPrefix(original: string)
    ensures ReplySubject(None, ReplyPrefix + original) == ReplyPrefix + ReplyPrefix + original
  {
    assert StartsWith(ReplyPrefix + (ReplyPrefix + original), ReplyPrefix) by {
      assert (ReplyPrefix + (ReplyPrefix + original))[..|ReplyPrefix|] == ReplyPrefix;
    }
  }

  /** `reply_to_message`: only the recipient or an admin, with a body; the reply goes back to the
      original sender and points at the original. */
  function Reply(orig: MessageRecord, c: Caller, replyId: int, body: Option<string>, subject: JsonField<string>,
                 draft: bool, now: int): (r: Result<MessageRecord, ApiError>)
    ensures orig.recipientId != c.id && c.role != "admin" ==>
              r == Err(ApiError(403, "You can only reply to messages sent to you"))
    ensures r.Ok? <==> (orig.recipientId == c.id || c.role == "admin") && body.Some? && Trim(body.value) != [] &&
                       !subject.Null?
    ensures (orig.recipientId == c.id || c.role == "admin") && body.Some? && Trim(body.value) != [] && subject.Null? ==>
              r == Err(ApiError(500, NullSubjectFailure))
    ensures r.Ok? ==> r.value.senderId == c.id && r.value.recipientId == orig.senderId &&
                      r.value.parentId == Some(orig.id) && r.value.isReply &&
                      r.value.subject == ReplySubject(if subject.Given? then Some(subject.value) else None, orig.subject) &&
                      r.value.isDraft == draft &&
                      !r.value.isRead && !r.value.senderDeleted && !r.value.recipientDeleted
    ensures r.Ok? ==> r.value.id == replyId && r.value.body == body.value && r.value.sentAt == Some(now) &&
                      r.value.readAt.None? && !r.value.isArchived && !r.value.isStarred
  {
    if orig.recipientId != c.id && c.role != "admin" then Err(ApiError(403, "You can only reply to messages sent to you"))
    else if body.None? || Trim(body.value) == [] then Err(ApiError(400, "Missing required fields: body"))
    else match subject
      case Null => Err(ApiError(500, NullSubjectFailure))
      case _ =>
        var given := if subject.Given? then Some(subject.value) else None;
        Ok(MessageRecord(replyId, c.id, orig.senderId, ReplySubject(given, orig.subject), body.value,
                         Some(orig.id), true, draft, Some(now),
                         false, None, false, false, false, false))
  }

  /** A `null` subject reaches `startswith` and the handler reports the `AttributeError`. */
  const NullSubjectFailure: string := "Failed to reply to message: 'NoneType' object has no attribute 'startswith'"

  /** The fields `update_message` may change; `send` turns a draft into a sent message. */
  datatype DraftEdit = DraftEdit(recipient: Option<int>, subject: Option<string>, body: Option<string>, send: bool)

  /** `update_message`: the sender or an admin, a draft only, an existing recipient if one is given. */
  function EditDraft(m: MessageRecord, c: Caller, e: DraftEdit, recipientActive: bool, now: int)
    : (r: Result<MessageRecord, ApiError>)
    ensures m.senderId != c.id && c.role != "admin" ==> r == Err(ApiError(403, "Access denied"))
    ensures r.Ok? <==> (m.senderId == c.id || c.role == "admin") && m.isDraft && (e.recipient.Some? ==> recipientActive)
    ensures r.Ok? ==> r.value.recipientId == e.recipient.GetOr(m.recipientId) &&
                      r.value.subject == e.subject.GetOr(m.subject) && r.value.body == e.body.GetOr(m.body) &&
                      r.value.isDraft == !e.send && (e.send ==> r.value.sentAt == Some(now))
    ensures r.Ok? && !e.send ==> r.value.sentAt == m.sentAt
    ensures r.Ok? ==> r.value.(recipientId := m.recipientId, subject := m.subject, body := m.body,
                               isDraft := m.isDraft, sentAt := m.sentAt) == m
  {
    if m.senderId != c.id && c.role != "admin" then Err(ApiError(403, "Access denied"))
    else if !m.isDraft then Err(ApiError(400, "Only draft messages can be updated"))
    else if e.recipient.Some? && !recipientActive then Err(ApiError(404, "Recipient not found or inactive"))
    else
      var edited := m.(recipientId := e.recipient.GetOr(m.recipientId), subject := e.subject.GetOr(m.subject),
                       body := e.body.GetOr(m.body));
      Ok(if e.send then edited.(isDraft := false, sentAt := Some(now)) else edited)
  }

  /** A message once sent can no longer be edited. */
  lemma SentIsFinal(m: MessageRecord, c: Caller, e: DraftEdit, recipientActive: bool, now: int, e2: DraftEdit,
                    now2: int)
    requires EditDraft(m, c, e, recipientActive, now).Ok? && e.send
    ensures EditDraft(EditDraft(m, c, e, recipientActive, now).value, c, e2, recipientActive, now2).Err?
  {
  }

  /** `mark_message_read`: the recipient or an admin; an admin's marking counts as a read too. */
  method MarkMessageRead(m: Message, c: Caller, now: int) returns (r: Option<ApiError>)
    modifies m
    ensures m.recipientId != c.id && c.role != "admin" ==>
              r == Some(ApiError(403, "Access denied")) && m.Snap() == old(m.Snap())
    ensures m.recipientId == c.id || c.role == "admin" ==> r.None? && m.Snap() == ReadMarked(old(m.Snap()), now)
  {
    if m.recipientId != c.id && c.role != "admin" {
      return Some(ApiError(403, "Access denied"));
    }
    m.MarkAsRead(now);
    r := None;
  }

  /** `toggle_message_star`: flips the star and reports the new value. */
  method ToggleStar(m: Message, c: Caller) returns (r: Result<bool, ApiError>)
    modifies m
    ensures !CanAccess(old(m.Snap()), c) ==> r == Err(ApiError(403, "Access denied")) && m.Snap() == old(m.Snap())
    ensures CanAccess(old(m.Snap()), c) ==>
              m.Snap() == old(m.Snap()).(isStarred := !old(m.isStarred)) && r == Ok(m.isStarred)
  {
    if !CanAccess(m.Snap(), c) {
      return Err(ApiError(403, "Access denied"));
    }
    if m.isStarred {
      m.Unstar();
    } else {
      m.Star();
    }
    r := Ok(m.isStarred);
  }

  /** `toggle_message_archive`. */
  method ToggleArchive(m: Message, c: Caller) returns (r: Result<bool, ApiError>)
    modifies m
    ensures !CanAccess(old(m.Snap()), c) ==> r == Err(ApiError(403, "Access denied")) && m.Snap() == old(m.Snap())
    ensures CanAccess(old(m.Snap()), c) ==>
              m.Snap() == old(m.Snap()).(isArchived := !old(m.isArchived)) && r == Ok(m.isArchived)
  {
    if !CanAccess(m.Snap(), c) {
      return Err(ApiError(403, "Access denied"));
    }
    if m.isArchived {
      m.Unarchive();
    } else {
      m.Archive();
    }
    r := Ok(m.isArchived);
  }

  /** The per-side delete of `delete_message`. */
  function DeletedBy(m: MessageRecord, c: Caller): (r: MessageRecord)
    ensures m.senderId == c.id ==> r == m.(senderDeleted := true)
    ensures m.senderId != c.id && m.recipientId == c.id ==> r == m.(recipientDeleted := true)
    ensures m.senderId != c.id && m.recipientId != c.id ==> r == m
  {
    if m.senderId == c.id then m.(senderDeleted := true)
    else if m.recipientId == c.id then m.(recipientDeleted := true)
    else m
  }

  /** Both parties deleting, in either order, removes the row; the sender alone does not. */
  lemma BothSidesRemove(m: MessageRecord, s: Caller, t: Caller)
    requires m.senderId == s.id && m.recipientId == t.id && s.id != t.id
    requires !m.recipientDeleted
    ensures !FullyDeleted(DeletedBy(m, s))
    ensures FullyDeleted(DeletedBy(DeletedBy(m, s), t)) && FullyDeleted(DeletedBy(DeletedBy(m, t), s))
  {
  }

  /** When one user is both sender and recipient only the sender side is ever set, so the row is
      never removed. */
  lemma SelfMessageNeverRemoved(m: MessageRecord, c: Caller)
    requires m.senderId == c.id && m.recipientId == c.id && !m.recipientDeleted
    ensures !FullyDeleted(DeletedBy(DeletedBy(m, c), c))
  {
  }

  /** `delete_message`: answers whether the row was removed. */
  method DeleteMessage(m: Message, c: Caller) returns (r: Result<bool, ApiError>)
    modifies m
    ensures !CanAccess(old(m.Snap()), c) ==> r == Err(ApiError(403, "Access denied")) && m.Snap() == old(m.Snap())
    ensures CanAccess(old(m.Snap()), c) ==> m.Snap() == DeletedBy(old(m.Snap()), c) && r == Ok(FullyDeleted(m.Snap()))
  {
    if !CanAccess(m.Snap(), c) {
      return Err(ApiError(403, "Access denied"));
    }
    if m.senderId == c.id {
      m.DeleteForSender();
    } else if m.recipientId == c.id {
      m.DeleteForRecipient();
    }
    r := Ok(m.senderDeleted && m.recipientDeleted);
  }
}
