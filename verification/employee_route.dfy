/** `app/api/employee/route.ts`: the employee listing with its one search
    (GET) and provisioning a new employee (POST). */
module EmployeeRoute {
  import opened Base
  import Js
  import Roles
  import opened Store
  import opened Http
  import opened Sql
  import opened Sorting

  // ---- GET: the employee listing --------------------------------------

  /** A row of the join of employees with their positions: the id and the
      five searchable columns, each of which may be NULL. */
  datatype EmployeeRow = EmployeeRow(employeeId: int, firstName: Option<string>, lastName: Option<string>,
                                     phoneNumber: Option<string>, email: Option<string>,
                                     positionName: Option<string>)

  function EmployeeIdOf(row: EmployeeRow): int {
    row.employeeId
  }

  /** The five columns the listing may search. */
  datatype SearchColumn = ByLastName | ByPhone | ByEmail | ByPosition | ByFirstName

  /** The whitelist: `type` defaults to `last_name`, and any other name is
      refused. */
  function SearchColumnOf(t: Option<string>): (r: Option<SearchColumn>)
    ensures t.None? ==> r == Some(ByLastName)
    ensures r.None? <==> t.Some? && t.value !in {"last_name", "phone_number", "email", "position_name", "first_name"}
  {
    var name := if t.Some? then t.value else "last_name";
    if name == "last_name" then Some(ByLastName)
    else if name == "phone_number" then Some(ByPhone)
    else if name == "email" then Some(ByEmail)
    else if name == "position_name" then Some(ByPosition)
    else if name == "first_name" then Some(ByFirstName)
    else None
  }

  function SearchedColumn(row: EmployeeRow, c: SearchColumn): Option<string> {
    match c
    case ByLastName => row.lastName
    case ByPhone => row.phoneNumber
    case ByEmail => row.email
    case ByPosition => row.positionName
    case ByFirstName => row.firstName
  }

  /** `LOWER(column) LIKE LOWER($1)`: a NULL column never matches. */
  predicate Matches(row: EmployeeRow, c: SearchColumn, pattern: string) {
    SearchedColumn(row, c).Some? && ILike(SearchedColumn(row, c).value, pattern)
  }

  /** `GET /api/employee`. The listing's own gate runs first (401 without a
      role, 404 for a role that selects no handle), then the whitelist (400
      with no query); the query is statement 0. The rows are the matching
      rows, lowest employee id first. */
  function EmployeeGet(session: Session, searchType: Option<string>, search: Option<string>,
                       view: seq<EmployeeRow>, env: Env): (r: Listing<EmployeeRow>)
    ensures EmployeeListGate(session).Deny? ==> r == Refused(EmployeeListGate(session).status)
    ensures EmployeeListGate(session).Admit? && SearchColumnOf(searchType).None? ==> r == Refused(BadRequest)
    ensures EmployeeListGate(session).Admit? && SearchColumnOf(searchType).Some? && FailsAt(env, 0) ==>
              r == Refused(ErrorStatus(env.fault.error))
    ensures r.Rows? <==> EmployeeListGate(session).Admit? && SearchColumnOf(searchType).Some? && !FailsAt(env, 0)
    ensures r.Refused? ==> r.status in {BadRequest, Unauthorized, Forbidden, NotFound, InternalError}
    ensures r.Rows? ==> EmployeeListGate(session) == Admit(r.handle, session.value)
    ensures r.Rows? ==> SortedAsc(r.rows, EmployeeIdOf)
    ensures r.Rows? ==>
              multiset(r.rows)
              == multiset(Filter(view, (row: EmployeeRow) =>
                                         Matches(row, SearchColumnOf(searchType).value, SearchPattern(search))))
  {
    match EmployeeListGate(session)
    case Deny(st) => Refused(st)
    case Admit(h, _) =>
      match SearchColumnOf(searchType)
      case None => Refused(BadRequest)
      case Some(c) =>
        if FailsAt(env, 0) then Refused(ErrorStatus(env.fault.error))
        else
          var pattern := SearchPattern(search);
          Rows(h, SortAsc(Filter(view, (row: EmployeeRow) => Matches(row, c, pattern)), EmployeeIdOf))
  }

  /** For a search without `%`, `_` or `\` the condition is a
      case-insensitive substring test on a column that is not NULL. */
  lemma MatchesMeansContains(row: EmployeeRow, c: SearchColumn, term: string)
    requires Plain(term)
    ensures Matches(row, c, "%" + term + "%")
            <==> SearchedColumn(row, c).Some? && Contains(ToLower(SearchedColumn(row, c).value), ToLower(term))
  {
    if SearchedColumn(row, c).Some? {
      ILikeContains(SearchedColumn(row, c).value, term);
    }
  }

  // ---- POST: provisioning an employee ----------------------------------

  /** The body of `POST /api/employee`, every field as the JSON carries it. */
  datatype EmployeeBody = EmployeeBody(firstName: Js.Value, lastName: Js.Value, middleName: Js.Value,
                                       phoneNumber: Js.Value, password: Js.Value, email: Js.Value,
                                       hireDate: Js.Value, positionId: Js.Value, positionName: Js.Value)

  /** The administrator's position name. */
  const Administrator := "Адміністратор"

  /** The database role derived from the position name: `admin_role` for
      exactly the administrator's name, `seller_role` for anything else,
      absent or not a string included. Either role selects a request
      handle, never the default one. */
  function RoleFor(b: EmployeeBody): (role: string)
    ensures role == Roles.AdminRole <==> b.positionName == Js.Str(Administrator)
    ensures role == Roles.SellerRole <==> b.positionName != Js.Str(Administrator)
    ensures Roles.GetPrismaByRole(role).Some? && Roles.GetPrismaByRole(role) != Some(Roles.PrismaDefault)
  {
    Roles.DeriveRole(b.positionName == Js.Str(Administrator))
  }

  /** `new Date(hire_date)` as milliseconds: a string through the date
      parser, a number as itself, `null` as 0, a boolean as 0 or 1;
      `undefined` and `NaN` are an invalid date (`None`). */
  function HireDate(v: Js.Value, parse: string -> Option<int>): (r: Option<int>)
    ensures v.Str? ==> r == parse(v.s)
    ensures v.Num? ==> r == Some(v.n)
    ensures v == Js.Undefined || v == Js.NaN ==> r.None?
  {
    match v
    case Undefined => None
    case Null => Some(0)
    case Bool(b) => Some(if b then 1 else 0)
    case Num(n) => Some(n)
    case NaN => None
    case Str(s) => parse(s)
  }

  /** The employee row the insert writes: the text fields bound as given,
      the parsed hire date, the numeric position and the derived role. */
  datatype NewEmployee = NewEmployee(firstName: Js.Value, lastName: Js.Value, middleName: Js.Value,
                                     phoneNumber: Js.Value, email: Js.Value, password: Js.Value,
                                     hireDate: int, positionId: int, dbRole: string)

  /** The three statements the route runs, in order, on the default
      handle: the insert, the block that creates the database login named
      by the email unless a role of that name exists, and the
      grant of the role group to that login. */
  datatype Statement =
    | InsertEmployee(row: NewEmployee)
    | CreateLogin(login: string, password: string)
    | GrantRole(role: string, login: string)

  /** What the route answered, the handle its statements ran on and the
      statements that took effect, in order. */
  datatype Provisioning = Provisioning(status: int, handle: Roles.Handle, executed: seq<Statement>)

  /** The insert can bind its parameters: a valid hire date and a position
      that is a number. */
  predicate Bindable(b: EmployeeBody, parse: string -> Option<int>) {
    HireDate(b.hireDate, parse).Some? && Js.ToNumber(b.positionId).Some?
  }

  /** The three statements for a bindable body. The login and the password
      are spliced into the statement text, so they are the fields' string
      forms (`undefined` for an absent email). */
  function Provision(b: EmployeeBody, parse: string -> Option<int>): (plan: seq<Statement>)
    requires Bindable(b, parse)
    ensures |plan| == 3
    ensures plan[0].InsertEmployee? && plan[0].row.dbRole == RoleFor(b) && plan[0].row.email == b.email
    ensures plan[1] == CreateLogin(Js.TemplateText(b.email), Js.TemplateText(b.password))
    ensures plan[2] == GrantRole(RoleFor(b), Js.TemplateText(b.email))
  {
    var role := RoleFor(b);
    [InsertEmployee(NewEmployee(b.firstName, b.lastName, b.middleName, b.phoneNumber, b.email, b.password,
                                HireDate(b.hireDate, parse).value, Js.ToNumber(b.positionId).value, role)),
     CreateLogin(Js.TemplateText(b.email), Js.TemplateText(b.password)),
     GrantRole(role, Js.TemplateText(b.email))]
  }

  /** How many of the three statements run before the first failure. */
  function Completed(env: Env): (k: nat)
    ensures k <= 3
    ensures forall i: nat :: i < k ==> !FailsAt(env, i)
    ensures k < 3 ==> FailsAt(env, k)
  {
    if FailsAt(env, 0) then 0 else if FailsAt(env, 1) then 1 else if FailsAt(env, 2) then 2 else 3
  }

  /** `POST /api/employee`. It reads no session and checks no role: every
      statement runs on the default handle. The statements run one by one
      with no transaction, so a failure keeps what the earlier ones did; a
      failure is classified like every other route's. */
  function EmployeePost(body: EmployeeBody, parse: string -> Option<int>, env: Env): (r: Provisioning)
    ensures r.handle == Roles.PrismaDefault
    ensures r.status in {Ok, Forbidden, InternalError}
    ensures r.status == Ok <==> Bindable(body, parse) && Completed(env) == 3
    ensures r.status == Ok ==> r.executed == Provision(body, parse)
    ensures Bindable(body, parse) ==> r.executed == Provision(body, parse)[..Completed(env)]
    ensures !Bindable(body, parse) ==> r.executed == []
    ensures FailsAt(env, 0) ==> r.executed == [] && r.status == ErrorStatus(env.fault.error)
    ensures Bindable(body, parse) && Completed(env) < 3 ==> r.status == ErrorStatus(env.fault.error)
  {
    if FailsAt(env, 0) then Provisioning(ErrorStatus(env.fault.error), Roles.PrismaDefault, [])
    else if !Bindable(body, parse) then
      var e := if HireDate(body.hireDate, parse).None? then UnknownError("Invalid time value")
               else InvalidTextRepresentation;
      Provisioning(ErrorStatus(e), Roles.PrismaDefault, [])
    else
      var plan := Provision(body, parse);
      var k := Completed(env);
      Provisioning(if k == 3 then Ok else ErrorStatus(env.fault.error), Roles.PrismaDefault, plan[..k])
  }

  /** On success the role recorded in the new row is the one granted, the
      login granted is the one created, and that role selects the admin
      handle exactly for the administrator's position. */
  lemma GrantMatchesRecord(body: EmployeeBody, parse: string -> Option<int>, env: Env)
    requires EmployeePost(body, parse, env).status == Ok
    ensures var ex := EmployeePost(body, parse, env).executed;
            |ex| == 3 && ex[0].InsertEmployee? && ex[1].CreateLogin? && ex[2].GrantRole?
            && ex[0].row.dbRole == ex[2].role && ex[1].login == ex[2].login
            && (Roles.GetPrismaByRole(ex[2].role) == Some(Roles.PrismaAdmin)
                <==> body.positionName == Js.Str(Administrator))
  {
    var ex := EmployeePost(body, parse, env).executed;
    assert ex == Provision(body, parse);
  }

  /** A failure of the login statement leaves the employee row in place
      with no login and no grant, and the route answers with an error. */
  lemma RowWithoutLogin(body: EmployeeBody, parse: string -> Option<int>, env: Env)
    requires Bindable(body, parse) && FailsAt(env, 1)
    ensures var r := EmployeePost(body, parse, env);
            r.status != Ok && |r.executed| == 1 && r.executed[0].InsertEmployee?
            && r.executed[0].row.dbRole == RoleFor(body)
  {
    assert Completed(env) == 1;
  }
}
