/** The persistent store the route handlers read and write, held in memory:
    the case table as a sequence and the user table keyed by user id. */
module Store {
  import opened Domain

  class Db {
    var cases: seq<Case>
    var users: map<string, User>

    constructor (initialCases: seq<Case>, initialUsers: map<string, User>)
      ensures cases == initialCases && users == initialUsers
    {
      cases := initialCases;
      users := initialUsers;
    }
  }

  datatype Denial = Denial(status: int, error: string)

  const NoSession := Denial(401, "Unauthorized")
  const WrongRole := Denial(403, "Insufficient permissions")

  /** The check every role-restricted handler opens with: no session is 401,
      a session with another role is 403, otherwise the request proceeds. */
  function Guard(session: Option<Session>, required: Role): (d: Option<Denial>)
    ensures d.None? <==> session.Some? && session.value.role == required
    ensures session.None? ==> d == Some(NoSession)
    ensures session.Some? && session.value.role != required ==> d == Some(WrongRole)
  {
    if session.None? then Some(NoSession)
    else if session.value.role != required then Some(WrongRole)
    else None
  }
}
