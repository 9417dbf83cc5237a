/** What every route does before and after its own work: the session and
    role gate in front, and the classification of store errors into HTTP
    statuses behind. */
module Http {
  import opened Base
  import Js
  import Roles
  import opened Store

  const Ok := 200
  const Created := 201
  const BadRequest := 400
  const Unauthorized := 401
  const Forbidden := 403
  const NotFound := 404
  const InternalError := 500

  /** The signed-in user as the session carries it: the employee id and the
      database role (absent when the token has none). */
  datatype User = User(id: Js.Value, role: Option<string>)

  /** `getServerSession`: `None` when nobody is signed in. */
  type Session = Option<User>

  const RawQueryFailed := "P2010"
  const InsufficientPrivilege := "42501"
  /** The message the stock trigger raises, in lower case. */
  const InsufficientStock := "недостатня кількість товару"

  /** The handle a signed-in user's role selects. */
  function HandleFor(u: User): Option<Roles.Handle> {
    match u.role
    case None => None
    case Some(r) => Roles.GetPrismaByRole(r)
  }

  /** The outcome of the gate: refuse with a status, or go on with a handle. */
  datatype Gate = Deny(status: int) | Admit(handle: Roles.Handle, user: User)

  /** The gate every route but the employee listing runs first: no session
      is 401, a role that selects no handle is 403. An admitted request
      always runs on the admin or seller handle of its own role. */
  function RouteGate(session: Session): (g: Gate)
    ensures g == Deny(Unauthorized) <==> session.None?
    ensures g == Deny(Forbidden) <==> session.Some? && HandleFor(session.value).None?
    ensures g.Deny? ==> g.status == Unauthorized || g.status == Forbidden
    ensures g.Admit? ==> session == Some(g.user) && HandleFor(g.user) == Some(g.handle)
    ensures g.Admit? ==> g.handle != Roles.PrismaDefault
  {
    match session
    case None => Deny(Unauthorized)
    case Some(u) =>
      match HandleFor(u)
      case None => Deny(Forbidden)
      case Some(h) => Admit(h, u)
  }

  /** The employee listing's own gate: a missing or empty role is 401, and
      a role that selects no handle is 404 rather than 403. */
  function EmployeeListGate(session: Session): (g: Gate)
    ensures g == Deny(Unauthorized) <==> session.None? || session.value.role.None? || session.value.role.value == ""
    ensures g == Deny(NotFound) <==> session.Some? && session.value.role.Some? && session.value.role.value != ""
                                     && HandleFor(session.value).None?
    ensures g.Admit? ==> session == Some(g.user) && HandleFor(g.user) == Some(g.handle)
  {
    match session
    case None => Deny(Unauthorized)
    case Some(u) =>
      if u.role.None? || u.role.value == "" then Deny(Unauthorized)
      else
        match HandleFor(u)
        case None => Deny(NotFound)
        case Some(h) => Admit(h, u)
  }

  /** A role that is set but selects no handle: the listing answers 404
      where every other route answers 403. */
  lemma EmployeeGateDiffers(u: User)
    requires u.role.Some? && u.role.value != "" && HandleFor(u).None?
    ensures RouteGate(Some(u)) == Deny(Forbidden)
    ensures EmployeeListGate(Some(u)) == Deny(NotFound)
  {
  }

  /** The store's privilege rejection as every route recognises it: a
      failed raw query (`P2010`) whose message or metadata mentions SQLSTATE
      42501. */
  predicate IsPrivilegeViolation(e: StoreError) {
    e.KnownRequestError? && e.code == RawQueryFailed
    && (Contains(e.message, InsufficientPrivilege)
        || (e.meta.Some? && Contains(e.meta.value, InsufficientPrivilege)))
  }

  /** The shared catch block: a privilege rejection is 403, every other
      error 500. */
  function ErrorStatus(e: StoreError): (status: int)
    ensures status == Forbidden <==> IsPrivilegeViolation(e)
    ensures status == InternalError <==> !IsPrivilegeViolation(e)
  {
    if IsPrivilegeViolation(e) then Forbidden else InternalError
  }

  /** The invoice-line insert's catch block, which looks at the lower-cased
      message: the stock trigger's message first (400), then the privilege
      code (403), otherwise 500. Other errors are always 500. */
  function LineInsertErrorStatus(e: StoreError): (status: int)
    ensures status == BadRequest <==>
              e.KnownRequestError? && Contains(ToLower(e.message), InsufficientStock)
    ensures status == Forbidden <==>
              e.KnownRequestError? && !Contains(ToLower(e.message), InsufficientStock)
              && e.code == RawQueryFailed
              && (Contains(ToLower(e.message), InsufficientPrivilege)
                  || (e.meta.Some? && Contains(e.meta.value, InsufficientPrivilege)))
    ensures status in {BadRequest, Forbidden, InternalError}
  {
    match e
    case UnknownError(_) => InternalError
    case KnownRequestError(code, message, meta) =>
      var msg := ToLower(message);
      if Contains(msg, InsufficientStock) then BadRequest
      else if code == RawQueryFailed
              && (Contains(msg, InsufficientPrivilege) || (meta.Some? && Contains(meta.value, InsufficientPrivilege)))
      then Forbidden
      else InternalError
  }

  /** Lower-casing leaves the privilege code's digits alone, so apart from
      the stock message the invoice-line insert classifies errors exactly as
      every other route does; a message carrying both the stock text and the
      privilege code is a 400 there and a 403 elsewhere. */
  lemma LineInsertAgreesOffStock(e: StoreError)
    ensures !(e.KnownRequestError? && Contains(ToLower(e.message), InsufficientStock))
            ==> LineInsertErrorStatus(e) == ErrorStatus(e)
    ensures e.KnownRequestError? && Contains(ToLower(e.message), InsufficientStock)
            ==> LineInsertErrorStatus(e) == BadRequest
  {
    if e.KnownRequestError? {
      forall j | 0 <= j < |InsufficientPrivilege|
        ensures forall c: char :: LowerChar(c) == InsufficientPrivilege[j] <==> c == InsufficientPrivilege[j]
      {
        forall c: char ensures LowerChar(c) == InsufficientPrivilege[j] <==> c == InsufficientPrivilege[j] {
          LowerCharFixesNonLetters(c, InsufficientPrivilege[j]);
        }
      }
      ContainsLowerFixed(e.message, InsufficientPrivilege);
    }
  }

  /** The JSON reply of a route that creates or finds a row: its status
      and, on success, the id it reports. */
  datatype Reply = Reply(status: int, id: Option<int>)

  /** A listing route's reply: a refusal with its status, or the rows the
      query returned, read under the given handle. */
  datatype Listing<R> = Refused(status: int) | Rows(handle: Roles.Handle, rows: seq<R>)
}
