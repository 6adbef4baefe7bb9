/** Notifications of the modular back end (`app/controllers/notification_controller.py`, with the
    audience table of `app/models/notification.py`): who may see a notification, the read
    receipts, the unread count, and the checks on creating one. Receipts are unique per
    notification and user, so they form a set of pairs. */
module Notifications {
  import opened Wrappers

  /** The `target_audience` column. */
  datatype Audience = All | Students | Parents | Teachers | Admins | SpecificClass

  function AudienceName(a: Audience): string {
    match a
    case All => "all"
    case Students => "students"
    case Parents => "parents"
    case Teachers => "teachers"
    case Admins => "admins"
    case SpecificClass => "specific_class"
  }

  /** The audience named in a request, if it is one. */
  function ParseAudience(s: string): (a: Option<Audience>)
    ensures a.Some? ==> AudienceName(a.value) == s
    ensures a.None? ==> forall x :: AudienceName(x) != s
  {
    if s == "all" then Some(All)
    else if s == "students" then Some(Students)
    else if s == "parents" then Some(Parents)
    else if s == "teachers" then Some(Teachers)
    else if s == "admins" then Some(Admins)
    else if s == "specific_class" then Some(SpecificClass)
    else None
  }

  /** Naming and parsing an audience are inverse. */
  lemma AudienceRoundTrip(a: Audience)
    ensures ParseAudience(AudienceName(a)) == Some(a)
  {
  }

  datatype Role = Admin | Teacher | Student | Parent

  function RoleName(r: Role): string {
    match r
    case Admin => "admin"
    case Teacher => "teacher"
    case Student => "student"
    case Parent => "parent"
  }

  datatype NotificationRow = NotificationRow(id: int, audience: Audience, targetClass: Option<int>, isActive: bool)

  /** The caller: id, role, and the class of the student profile (none without a profile or class). */
  datatype Viewer = Viewer(id: int, role: Role, studentClass: Option<int>)

  /** `get_notification` as written: the stored audience is compared with the role's name. */
  predicate CanViewAsWritten(n: NotificationRow, u: Viewer) {
    n.audience == All || AudienceName(n.audience) == RoleName(u.role) ||
    (n.audience == SpecificClass && u.role == Student && u.studentClass.Some? &&
     u.studentClass == n.targetClass) ||
    u.role == Admin
  }

  /** `get_notifications` / `mark_all_notifications_read` as written. */
  predicate ListedAsWritten(n: NotificationRow, u: Viewer) {
    n.isActive &&
    (n.audience == All || AudienceName(n.audience) == RoleName(u.role) ||
     (u.role == Student && u.studentClass.Some? && u.studentClass.value != 0 &&
      n.audience == SpecificClass && n.targetClass == u.studentClass))
  }

  /** The audience names are plural and the role names singular: they never coincide. */
  lemma AudienceNeverNamesRole(a: Audience, r: Role)
    ensures AudienceName(a) != RoleName(r)
  {
    assert AudienceName(a)[|AudienceName(a)| - 1] == 's' || AudienceName(a) == "all" || a == SpecificClass;
  }

  /** As written, the group test never holds: a notification is viewable only when it is for
      everyone, the caller is an admin, or it is for the class of the student caller, and it is
      listed only when it is active and for everyone or for that class. */
  lemma AsWrittenIgnoresGroups(n: NotificationRow, u: Viewer)
    ensures CanViewAsWritten(n, u) <==>
              n.audience == All || u.role == Admin ||
              (n.audience == SpecificClass && u.role == Student && u.studentClass.Some? &&
               u.studentClass == n.targetClass)
    ensures ListedAsWritten(n, u) <==>
              n.isActive &&
              (n.audience == All ||
               (n.audience == SpecificClass && u.role == Student && u.studentClass.Some? &&
                u.studentClass.value != 0 && n.targetClass == u.studentClass))
  {
    AudienceNeverNamesRole(n.audience, u.role);
  }

  /** So a notification for a group reaches nobody of that group: a notification for students is
      neither listed nor viewable for a student. */
  lemma StudentNotificationUnreachable(n: NotificationRow, u: Viewer)
    requires n.audience == Students && u.role == Student
    ensures !ListedAsWritten(n, u) && !CanViewAsWritten(n, u)
  {
  }

  /** The audience a role belongs to, as `Notification.get_target_users` pairs them. */
  function AudienceOf(role: Role): (a: Audience)
    ensures a != All && a != SpecificClass
    ensures AudienceName(a) == RoleName(role) + "s"
  {
    match role
    case Student => Students
    case Parent => Parents
    case Teacher => Teachers
    case Admin => Admins
  }

  /** The notification is addressed to the caller: everyone, the caller's group, or the class of
      the student. */
  predicate Addressed(n: NotificationRow, u: Viewer) {
    n.audience == All || n.audience == AudienceOf(u.role) ||
    (n.audience == SpecificClass && u.role == Student && u.studentClass.Some? &&
     u.studentClass.value != 0 && n.targetClass == u.studentClass)
  }

  /** Listing, with the audience matched to the caller's group. */
  predicate Listed(n: NotificationRow, u: Viewer) {
    n.isActive && Addressed(n, u)
  }

  /** Viewing one notification, with the audience matched to the caller's group; admins see all. */
  predicate CanView(n: NotificationRow, u: Viewer) {
    Addressed(n, u) || u.role == Admin
  }

  /** With the audience matched to the group: only active notifications are listed, every active
      one for everyone or the caller's group is, and a class notification only for a student of
      that class; an admin may view every notification, and a teacher or parent only those for
      everyone or their group. */
  lemma MatchedAudienceRules(n: NotificationRow, u: Viewer)
    ensures Listed(n, u) ==> n.isActive
    ensures n.isActive && (n.audience == All || n.audience == AudienceOf(u.role)) ==> Listed(n, u)
    ensures Listed(n, u) && n.audience == SpecificClass ==> u.role == Student && n.targetClass == u.studentClass
    ensures u.role == Admin ==> CanView(n, u)
    ensures CanView(n, u) && u.role != Admin && u.role != Student ==>
              n.audience == All || n.audience == AudienceOf(u.role)
  {
  }

  /** Every listed notification can be opened. */
  lemma ListedIsViewable(n: NotificationRow, u: Viewer)
    requires Listed(n, u)
    ensures CanView(n, u)
  {
  }

  /** An active notification for a role's group is listed for every user of that role. */
  lemma GroupNotificationReachesRole(n: NotificationRow, u: Viewer)
    requires n.isActive && n.audience == AudienceOf(u.role)
    ensures Listed(n, u)
  {
  }

  /** For everyone and for a class, the matched rule lists the same notifications as the code. */
  lemma ListingAgreesOutsideGroups(n: NotificationRow, u: Viewer)
    requires n.audience == All || n.audience == SpecificClass
    ensures Listed(n, u) <==> ListedAsWritten(n, u)
  {
    AudienceNeverNamesRole(n.audience, u.role);
  }

  /** The ids of the notifications the user has a receipt for. */
  function ReadIds(receipts: set<(int, int)>, user: int): (r: set<int>)
    ensures forall n :: n in r <==> (n, user) in receipts
  {
    set p | p in receipts && p.1 == user :: p.0
  }

  /** The listed ids without a receipt, in order. */
  function Unread(ids: seq<int>, read: set<int>): (r: seq<int>)
    ensures |r| <= |ids|
    ensures forall n :: n in r <==> n in ids && n !in read
  {
    if ids == [] then []
    else (if ids[0] !in read then [ids[0]] else []) + Unread(ids[1..], read)
  }

  /** `unread_count`: the listed notifications the user has no receipt for. */
  function UnreadCount(ids: seq<int>, receipts: set<(int, int)>, user: int): (k: nat)
    ensures k <= |ids|
  {
    |Unread(ids, ReadIds(receipts, user))|
  }

  /** Nothing is unread exactly when every listed notification has a receipt. */
  lemma NoneUnreadIff(ids: seq<int>, receipts: set<(int, int)>, user: int)
    ensures UnreadCount(ids, receipts, user) == 0 ==> forall n :: n in ids ==> (n, user) in receipts
    ensures (forall n :: n in ids ==> (n, user) in receipts) ==> UnreadCount(ids, receipts, user) == 0
  {
    var read := ReadIds(receipts, user);
    var u := Unread(ids, read);
    assert UnreadCount(ids, receipts, user) == |u|;
    if u != [] {
      var x := u[0];
      assert x in u;
      assert x in ids && x !in read;
      assert (x, user) !in receipts;
      assert !(forall n :: n in ids ==> (n, user) in receipts);
    }
  }

  /** The receipts for the user and the given ids. */
  function ReceiptsFor(ids: set<int>, user: int): (r: set<(int, int)>)
    ensures forall n :: (n, user) in r <==> n in ids
    ensures forall p :: p in r ==> p.1 == user
  {
    set n | n in ids :: (n, user)
  }

  function Elements(ids: seq<int>): set<int> {
    set n | n in ids
  }

  predicate Distinct(ids: seq<int>) {
    forall i, j :: 0 <= i < j < |ids| ==> ids[i] != ids[j]
  }

  /** The number of distinct elements is the size of their set. */
  lemma {:induction false} DistinctCard(ids: seq<int>)
    requires Distinct(ids)
    ensures |Elements(ids)| == |ids|
  {
    if ids != [] {
      assert Distinct(ids[1..]) by {
        assert forall i :: 0 <= i < |ids| - 1 ==> ids[1..][i] == ids[i + 1];
      }
      DistinctCard(ids[1..]);
      assert Elements(ids) == Elements(ids[1..]) + {ids[0]};
      assert ids[0] !in ids[1..];
    }
  }

  lemma {:induction false} UnreadDistinct(ids: seq<int>, read: set<int>)
    requires Distinct(ids)
    ensures Distinct(Unread(ids, read))
  {
    if ids != [] {
      assert Distinct(ids[1..]) by {
        assert forall i :: 0 <= i < |ids| - 1 ==> ids[1..][i] == ids[i + 1];
      }
      UnreadDistinct(ids[1..], read);
      var rest := Unread(ids[1..], read);
      assert ids[0] !in rest;
    }
  }

  /** Appending one id appends it to the unread ids exactly when it has no receipt. */
  lemma {:induction false} UnreadSnoc(ids: seq<int>, x: int, read: set<int>)
    ensures Unread(ids + [x], read) == Unread(ids, read) + (if x !in read then [x] else [])
  {
    if ids == [] {
      assert [] + [x] == [x];
      assert [x][1..] == [];
    } else {
      assert (ids + [x])[1..] == ids[1..] + [x];
      UnreadSnoc(ids[1..], x, read);
    }
  }

  const UnknownNotificationError: string := "Failed to mark notification as read: 404 Not Found"

  /** The read receipts of all users. */
  class ReceiptStore {
    var receipts: set<(int, int)>

    constructor ()
      ensures receipts == {}
    {
      receipts := {};
    }

    /** `mark_notification_read`: an existing receipt is kept and reported; otherwise one is added.
        For an unknown notification `get_or_404` raises inside the handler's `try`, so the reply is
        the handler's 500 (its text, which quotes the library's 404 message, is shortened here). */
    method MarkRead(known: bool, notification: int, user: int) returns (r: Result<bool, ApiError>)
      modifies this
      ensures !known ==> r == Err(ApiError(500, UnknownNotificationError)) && receipts == old(receipts)
      ensures known ==> r == Ok((notification, user) in old(receipts)) &&
                          receipts == old(receipts) + {(notification, user)}
    {
      if !known {
        return Err(ApiError(500, UnknownNotificationError));
      }
      if (notification, user) in receipts {
        return Ok(true);
      }
      receipts := receipts + {(notification, user)};
      r := Ok(false);
    }

    /** `mark_all_notifications_read`: receipts for the listed notifications not read before the
        call, and their number. The listed ids come from one query or a union, so they are distinct.
        The loop finds the unread ids; their receipts are stored together by the commit after it. */
    method MarkAllRead(user: int, listed: seq<int>) returns (marked: nat)
      requires Distinct(listed)
      modifies this
      ensures var newly := Unread(listed, ReadIds(old(receipts), user));
              receipts == old(receipts) + ReceiptsFor(Elements(newly), user) && marked == |newly|
    {
      var read := ReadIds(receipts, user);
      var added: seq<int> := [];
      var i := 0;
      while i < |listed|
        invariant 0 <= i <= |listed|
        invariant added == Unread(listed[..i], read)
        invariant receipts == old(receipts)
      {
        assert listed[..i + 1] == listed[..i] + [listed[i]];
        UnreadSnoc(listed[..i], listed[i], read);
        if listed[i] !in read {
          added := added + [listed[i]];
        }
        i := i + 1;
      }
      assert listed[..i] == listed;
      receipts := receipts + ReceiptsFor(Elements(added), user);
      marked := |added|;
    }
  }

  /** After marking all as read nothing listed is unread, so a second call marks none. */
  lemma MarkAllLeavesNothingUnread(receipts: set<(int, int)>, user: int, listed: seq<int>)
    ensures var after := receipts + ReceiptsFor(Elements(Unread(listed, ReadIds(receipts, user))), user);
            UnreadCount(listed, after, user) == 0 && Unread(listed, ReadIds(after, user)) == []
  {
    var after := receipts + ReceiptsFor(Elements(Unread(listed, ReadIds(receipts, user))), user);
    NoneUnreadIff(listed, after, user);
  }

  /** The count reported by mark-all is the number of receipts it adds. */
  lemma MarkedCountIsReceiptsAdded(receipts: set<(int, int)>, user: int, listed: seq<int>)
    requires Distinct(listed)
    ensures var newly := Unread(listed, ReadIds(receipts, user));
            |ReceiptsFor(Elements(newly), user)| == |newly| &&
            ReceiptsFor(Elements(newly), user) !! receipts
  {
    var newly := Unread(listed, ReadIds(receipts, user));
    UnreadDistinct(listed, ReadIds(receipts, user));
    DistinctCard(newly);
    ReceiptsCard(newly, user);
  }

  lemma {:induction false} ReceiptsCard(ids: seq<int>, user: int)
    ensures |ReceiptsFor(Elements(ids), user)| == |Elements(ids)|
  {
    if ids != [] {
      ReceiptsCard(ids[1..], user);
      var rest := Elements(ids[1..]);
      assert Elements(ids) == rest + {ids[0]};
      assert ReceiptsFor(Elements(ids), user) == ReceiptsFor(rest, user) + {(ids[0], user)};
      if ids[0] !in rest {
        assert (ids[0], user) !in ReceiptsFor(rest, user);
      }
    }
  }

  /** The audiences a teacher may address. */
  predicate IsTeacherAudience(a: Audience) {
    a == All || a == Students || a == Parents || a == SpecificClass
  }

  /** The messages of the refusals. */
  const InvalidAudienceError: string :=
    "Invalid target audience. Must be one of: all, students, parents, teachers, admins, specific_class"
  const ClassRequiredError: string := "target_class_id is required for specific_class audience"
  const InvalidClassError: string := "Invalid class ID"
  const NotYourClassError: string := "You can only create notifications for classes you teach"
  const TeacherAudienceError: string :=
    "Teachers can only create notifications for all users, students, parents, or specific classes"

  /** `data.get('target_audience', 'all')` checked against the known names: `all` when the field
      is left out, and no audience for `null`, which is not one of the names. */
  function RequestedAudience(f: JsonField<string>): (a: Option<Audience>)
    ensures f.Absent? ==> a == Some(All)
    ensures f.Null? ==> a.None?
    ensures f.Given? ==> a == ParseAudience(f.value)
  {
    match f
    case Absent => Some(All)
    case Null => None
    case Given(s) => ParseAudience(s)
  }

  /** A known audience, and for a class a `target_class_id` naming an active class. */
  predicate AudienceAccepted(a: Option<Audience>, targetClass: JsonField<int>, classActive: bool) {
    a.Some? && (a.value == SpecificClass ==> targetClass.Given? && classActive)
  }

  /** A teacher addresses everyone, students, parents, or a class; with a teacher profile, only a
      class of their own subjects. */
  predicate TeacherMayAddress(a: Audience, targetClass: JsonField<int>, teacherClasses: Option<set<int>>) {
    IsTeacherAudience(a) &&
    (a == SpecificClass && teacherClasses.Some? ==> targetClass.Given? && targetClass.value in teacherClasses.value)
  }

  /** The checks of `create_notification` after the title and message are present: the
      `target_audience` and `target_class_id` fields of the body, whether an active class has the
      id given, and the classes of the subjects a teacher teaches (none without a profile). A
      `null` class id names no class, so it is refused as an invalid class. The accepted audience
      is the result. */
  function CreateCheck(audience: JsonField<string>, targetClass: JsonField<int>, classActive: bool, role: Role,
                       teacherClasses: Option<set<int>>): (r: Result<Audience, ApiError>)
    ensures r.Ok? <==>
              AudienceAccepted(RequestedAudience(audience), targetClass, classActive) &&
              (role == Teacher ==> TeacherMayAddress(RequestedAudience(audience).value, targetClass, teacherClasses))
    ensures r.Ok? ==> RequestedAudience(audience) == Some(r.value)
    ensures RequestedAudience(audience).None? ==> r == Err(ApiError(400, InvalidAudienceError))
    ensures RequestedAudience(audience) == Some(SpecificClass) && targetClass.Absent? ==>
              r == Err(ApiError(400, ClassRequiredError))
    ensures RequestedAudience(audience) == Some(SpecificClass) && (targetClass.Null? || (targetClass.Given? && !classActive)) ==>
              r == Err(ApiError(404, InvalidClassError))
    ensures r.Err? ==> r.error.code == 400 || r.error.code == 403 || r.error.code == 404
  {
    match RequestedAudience(audience)
    case None =>
      Err(ApiError(400, InvalidAudienceError))
    case Some(a) =>
      if a == SpecificClass && targetClass.Absent? then
        Err(ApiError(400, ClassRequiredError))
      else if a == SpecificClass && (targetClass.Null? || !classActive) then Err(ApiError(404, InvalidClassError))
      else if role == Teacher && !IsTeacherAudience(a) then Err(ApiError(403, TeacherAudienceError))
      else if role == Teacher && a == SpecificClass && teacherClasses.Some? &&
              targetClass.value !in teacherClasses.value then
        Err(ApiError(403, NotYourClassError))
      else Ok(a)
  }

  /** A `null` audience is refused, though leaving the field out means everyone. */
  lemma NullAudienceRefused(targetClass: JsonField<int>, classActive: bool, role: Role, teacherClasses: Option<set<int>>)
    ensures CreateCheck(Null, targetClass, classActive, role, teacherClasses) == Err(ApiError(400, InvalidAudienceError))
    ensures role == Admin ==> CreateCheck(Absent, targetClass, classActive, role, teacherClasses) == Ok(All)
  {
  }

  /** A teacher may never address the teachers' or the admins' group. */
  lemma TeacherCannotTargetStaff(audience: Audience, targetClass: JsonField<int>, classActive: bool,
                                 teacherClasses: Option<set<int>>)
    requires audience == Teachers || audience == Admins
    ensures CreateCheck(Given(AudienceName(audience)), targetClass, classActive, Teacher, teacherClasses) ==
            Err(ApiError(403, TeacherAudienceError))
  {
  }
}
