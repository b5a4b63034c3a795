/**
 * Records of the code-jam management API, the system of record for teams and
 * memberships, and the outcome of one call to it: the decoded body, or the
 * status code of the error response.
 */
module Api {
  import opened Discord
  import opened Wrappers

  datatype ApiResult<+T> = Ok(value: T) | Err(status: int)

  datatype TeamUser = TeamUser(userId: Snowflake, isLeader: bool)

  datatype Team = Team(
    id: nat,
    name: string,
    roleId: Snowflake,
    channelId: Snowflake,
    users: seq<TeamUser>)

  /** The body of `GET users/{id}/current_team`: the user's id and their team. */
  datatype CurrentTeam = CurrentTeam(userId: Snowflake, team: Team)

  /**
   * The body of `GET teams/find`: a flat team record. `nestedName` is what a
   * lookup of `['team']['name']` on that body yields; a flat record has no such
   * key, which `move` nevertheless reads on one error path.
   */
  datatype FoundTeam = FoundTeam(id: nat, name: string, roleId: Snowflake, nestedName: Option<string>)

  /** `str(b)` for a Python bool, as sent in the `is_leader` query parameter. */
  function PyBool(b: bool): (s: string)
    ensures b <==> s == "True"
    ensures !b <==> s == "False"
  {
    if b then "True" else "False"
  }
}
