/** The server-side access decorators of the modular back end (`app/utils/auth.py`):
    `require_role` and `require_same_user_or_role`, as decisions on the caller found from the
    token (if any) and the request. */
module RoleGuard {
  import opened Wrappers
  import opened Text

  /** The caller as loaded from the token identity. */
  datatype Caller = Caller(id: int, role: string, isActive: bool)

  /** Either the handler runs, or an error response with its status, or the request ends in the
      exception `request.json` raises on a body that is not JSON (the framework then answers 415,
      or 500 in versions where `request.json` is `None`). */
  datatype Decision = Allow | Deny(status: int, error: string) | BodyUnreadable

  /** A `user_id` as it arrives: an integer route parameter or a JSON value. */
  datatype IdValue = IntId(n: int) | StrId(s: string)

  /** The request body: absent or not JSON (every GET the decorator guards), or a JSON object with
      or without a `user_id` member. */
  datatype Body = NoJsonBody | JsonBody(userId: Option<IdValue>)

  /** Python's `str` of an integer. */
  function IntToStr(n: int): (s: string)
    ensures s != []
    ensures n >= 0 ==> AllDigits(s)
    ensures n < 0 ==> s[0] == '-' && AllDigits(s[1..])
    ensures s[0] == '-' <==> n < 0
  {
    if n < 0 then "-" + NatToDec(-n) else NatToDec(n)
  }

  /** `str(user_id)`. */
  function IdText(v: IdValue): string {
    match v
    case IntId(n) => IntToStr(n)
    case StrId(s) => s
  }

  /** Python truthiness of a `user_id`: zero and the empty string are false. */
  predicate IdTruthy(v: IdValue) {
    match v
    case IntId(n) => n != 0
    case StrId(s) => s != ""
  }

  /** `require_role(*allowed_roles)`: a missing user first (404), then a deactivated account (403),
      then the role (403). */
  function RequireRole(caller: Option<Caller>, allowedRoles: seq<string>): (d: Decision)
    ensures caller.None? ==> d == Deny(404, "User not found")
    ensures caller.Some? && !caller.value.isActive ==> d == Deny(403, "Account is deactivated")
    ensures d == Allow <==> caller.Some? && caller.value.isActive && caller.value.role in allowedRoles
    ensures caller.Some? && caller.value.isActive && caller.value.role !in allowedRoles ==>
              d == Deny(403, "Access denied")
  {
    if caller.None? then Deny(404, "User not found")
    else if !caller.value.isActive then Deny(403, "Account is deactivated")
    else if caller.value.role !in allowedRoles then Deny(403, "Access denied")
    else Allow
  }

  /** `kwargs.get('user_id') or request.json.get('user_id')`: the route's `user_id` when it is
      truthy, otherwise the body's, which fails when there is no JSON body. A route whose parameter
      has another name gives `None` here. */
  function RequestedId(routeId: Option<IdValue>, body: Body): (r: Option<Option<IdValue>>)
    ensures routeId.Some? && IdTruthy(routeId.value) ==> r == Some(routeId)
    ensures !(routeId.Some? && IdTruthy(routeId.value)) && body.JsonBody? ==> r == Some(body.userId)
    ensures r.None? <==> !(routeId.Some? && IdTruthy(routeId.value)) && body.NoJsonBody?
  {
    if routeId.Some? && IdTruthy(routeId.value) then Some(routeId)
    else if body.NoJsonBody? then None
    else Some(body.userId)
  }

  /** The caller's own data: the requested id is truthy and equal to the caller's id as text. */
  predicate OwnData(c: Caller, requested: Option<IdValue>) {
    requested.Some? && IdTruthy(requested.value) && IntToStr(c.id) == IdText(requested.value)
  }

  /** `require_same_user_or_role(*allowed_roles)` as written: the requested id is read before the
      role is looked at, so a failing body read ends the request even for a caller whose role is
      allowed. */
  function RequireSameUserOrRole(caller: Option<Caller>, routeId: Option<IdValue>, body: Body,
                                 allowedRoles: seq<string>): (d: Decision)
    ensures caller.None? ==> d == Deny(404, "User not found")
    ensures caller.Some? && !caller.value.isActive ==> d == Deny(403, "Account is deactivated")
    ensures d == BodyUnreadable <==> caller.Some? && caller.value.isActive && RequestedId(routeId, body).None?
    ensures d == Allow <==> caller.Some? && caller.value.isActive && RequestedId(routeId, body).Some? &&
                            (OwnData(caller.value, RequestedId(routeId, body).value) || caller.value.role in allowedRoles)
    ensures d.Deny? && caller.Some? && caller.value.isActive ==> d == Deny(403, "Access denied")
  {
    if caller.None? then Deny(404, "User not found")
    else if !caller.value.isActive then Deny(403, "Account is deactivated")
    else match RequestedId(routeId, body)
      case None => BodyUnreadable
      case Some(requested) =>
        if OwnData(caller.value, requested) then Allow
        else if caller.value.role in allowedRoles then Allow
        else Deny(403, "Access denied")
  }

  /** Every route guarded this way except those of `user_controller.py` names its parameter
      `student_id`, `fee_id`, `grade_id` and so on, so `kwargs.get('user_id')` is `None`; on a GET
      without a JSON body no caller gets through, an administrator included. */
  lemma BodilessGetAdmitsNobody(c: Caller, allowedRoles: seq<string>)
    requires c.isActive && c.role in allowedRoles
    ensures RequireRole(Some(c), allowedRoles) == Allow
    ensures RequireSameUserOrRole(Some(c), None, NoJsonBody, allowedRoles) == BodyUnreadable
  {
  }

  /** The same decorator reading the body only when there is one (`request.get_json(silent=True)`),
      so that the role decides when no `user_id` is given. */
  function RequireSameUserOrRoleSilent(caller: Option<Caller>, routeId: Option<IdValue>, body: Body,
                                       allowedRoles: seq<string>): (d: Decision)
    ensures d != BodyUnreadable
    ensures caller.None? ==> d == Deny(404, "User not found")
    ensures caller.Some? && !caller.value.isActive ==> d == Deny(403, "Account is deactivated")
    ensures d == Allow <==> caller.Some? && caller.value.isActive &&
                            (OwnData(caller.value, RequestedId(routeId, body).GetOr(None)) ||
                             caller.value.role in allowedRoles)
    ensures d != Allow && caller.Some? && caller.value.isActive ==> d == Deny(403, "Access denied")
  {
    if caller.None? then Deny(404, "User not found")
    else if !caller.value.isActive then Deny(403, "Account is deactivated")
    else if OwnData(caller.value, RequestedId(routeId, body).GetOr(None)) then Allow
    else if caller.value.role in allowedRoles then Allow
    else Deny(403, "Access denied")
  }

  /** Where a JSON body is sent, the silent read decides as the decorator does. */
  lemma SilentAgreesWithBody(caller: Option<Caller>, routeId: Option<IdValue>, userId: Option<IdValue>,
                             allowedRoles: seq<string>)
    ensures RequireSameUserOrRoleSilent(caller, routeId, JsonBody(userId), allowedRoles) ==
            RequireSameUserOrRole(caller, routeId, JsonBody(userId), allowedRoles)
  {
  }

  /** The decimal text of an integer determines it. */
  lemma {:induction false} IntToStrInjective(a: int, b: int)
    requires IntToStr(a) == IntToStr(b)
    ensures a == b
  {
    assert (a < 0) == (b < 0);
    if a < 0 {
      assert NatToDec(-a) == IntToStr(a)[1..] == NatToDec(-b);
      DecRoundTrip(-a);
      DecRoundTrip(-b);
    } else {
      DecRoundTrip(a);
      DecRoundTrip(b);
    }
  }

  /** An active caller may always read the data under its own non-zero integer id, whatever its
      role; an integer route id of anyone else gives access only through the role. */
  lemma OwnIdAdmits(c: Caller, n: int, body: Body, allowedRoles: seq<string>)
    requires c.isActive && n != 0
    ensures RequireSameUserOrRole(Some(c), Some(IntId(n)), body, allowedRoles) == Allow <==>
            n == c.id || c.role in allowedRoles
  {
    if IntToStr(c.id) == IntToStr(n) {
      IntToStrInjective(c.id, n);
    }
  }

  /** The comparison is on text: a zero-padded id names nobody, the caller included. */
  lemma PaddedIdIsNotOwn(c: Caller)
    requires c.id == 7
    ensures !OwnData(c, Some(StrId("07")))
  {
    assert IntToStr(7) == "7";
  }

  /** Whoever passes `require_role` passes the corrected `require_same_user_or_role` with the same
      roles, and the written one whenever the requested id can be read. */
  lemma RoleGuardIsStricter(caller: Option<Caller>, routeId: Option<IdValue>, body: Body,
                            allowedRoles: seq<string>)
    requires RequireRole(caller, allowedRoles) == Allow
    ensures RequireSameUserOrRoleSilent(caller, routeId, body, allowedRoles) == Allow
    ensures RequestedId(routeId, body).Some? ==> RequireSameUserOrRole(caller, routeId, body, allowedRoles) == Allow
  {
  }
}
