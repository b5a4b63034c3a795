/**
 * The `move` and `remove` commands. Each call to the management API is an
 * outcome given in advance (consulted only if the command gets that far), and
 * a command run is the trace of effects it issues: messages to the operator,
 * membership writes to the API, and role changes on the chat platform.
 */
module Membership {
  import opened Discord
  import opened Api

  /** The operator-facing messages, one per distinct text the commands send. */
  datatype Message =
    | TeamDoesNotExist(teamName: string)
    | NotAParticipant
    | TeamOrUserNotFound
    | NotPartOfTeam
    | TeamOrUserNotFoundOnAdd
    | AlreadyInTeam(member: Snowflake, teamName: string)
    | SomethingWentWrong
    | Moved(member: Snowflake, fromTeam: string, toTeam: string)
    | Removed(member: Snowflake, teamName: string)

  datatype Effect =
    | Send(message: Message)
    | DeleteMembership(teamId: nat, userId: Snowflake)
    | PostMembership(teamId: nat, userId: Snowflake, isLeader: string)
    | RemoveRole(roleId: Snowflake)
    | AddRole(roleId: Snowflake)
      /** The lookup of `['team']['name']` on the body of `teams/find` raised before any message. */
    | KeyErrorOnTeamName

  predicate NoRoleChange(trace: seq<Effect>) {
    forall e :: e in trace ==> !e.RemoveRole? && !e.AddRole?
  }

  predicate NoWrites(trace: seq<Effect>) {
    forall e :: e in trace ==> !e.DeleteMembership? && !e.PostMembership?
  }

  /** The message for a failed lookup of the current team. */
  function CurrentTeamFailure(status: int): (m: Message)
    ensures m == NotAParticipant <==> status == 404
    ensures m == SomethingWentWrong <==> status != 404
  {
    if status == 404 then NotAParticipant else SomethingWentWrong
  }

  /** The message for a failed DELETE of a membership: 404, 400 and the rest differ. */
  function DeleteFailure(status: int): (m: Message)
    ensures m == TeamOrUserNotFound <==> status == 404
    ensures m == NotPartOfTeam <==> status == 400
    ensures m == SomethingWentWrong <==> status != 404 && status != 400
  {
    if status == 404 then TeamOrUserNotFound
    else if status == 400 then NotPartOfTeam
    else SomethingWentWrong
  }

  /** The member was a leader of the team: some entry has their id and the leader flag. */
  predicate WasLeader(users: seq<TeamUser>, memberId: Snowflake) {
    exists u :: u in users && u.userId == memberId && u.isLeader
  }

  /** What a failed POST to the target team issues. */
  function AddFailure(status: int, member: Member, target: FoundTeam): (tail: seq<Effect>)
    ensures |tail| == 1 && NoRoleChange(tail) && NoWrites(tail)
    ensures tail[0] == Send(TeamOrUserNotFoundOnAdd) <==> status == 404
    // A 400 names the target team from the nested record, or raises when it has none.
    ensures status == 400 && target.nestedName.Some? ==>
      tail == [Send(AlreadyInTeam(member.id, target.nestedName.value))]
    ensures status == 400 && target.nestedName.None? ==> tail == [KeyErrorOnTeamName]
    ensures tail[0] == Send(SomethingWentWrong) <==> status != 404 && status != 400
  {
    if status == 404 then [Send(TeamOrUserNotFoundOnAdd)]
    else if status == 400 then
      match target.nestedName
      case Some(n) => [Send(AlreadyInTeam(member.id, n))]
      case None => [KeyErrorOnTeamName]
    else [Send(SomethingWentWrong)]
  }

  /**
   * The effects of `move member newTeamName`, given the outcomes of the target
   * lookup, the current-team lookup, the DELETE and the POST.
   */
  function MoveTrace(
    member: Member, newTeamName: string,
    find: ApiResult<FoundTeam>, current: ApiResult<CurrentTeam>,
    delete: ApiResult<()>, post: ApiResult<()>): (trace: seq<Effect>)
    // A failing lookup aborts with one message and touches nothing.
    ensures find.Err? ==>
      |trace| == 1 && NoRoleChange(trace) && NoWrites(trace)
      && (trace[0] == Send(TeamDoesNotExist(newTeamName)) <==> find.status == 404)
    ensures find.Err? && find.status != 404 ==> trace == [Send(SomethingWentWrong)]
    ensures find.Ok? && current.Err? ==> trace == [Send(CurrentTeamFailure(current.status))]
    // A failing DELETE aborts after the attempt, with no role change and no POST.
    ensures find.Ok? && current.Ok? && delete.Err? ==>
      trace == [DeleteMembership(current.value.team.id, current.value.userId), Send(DeleteFailure(delete.status))]
    // Roles are touched only after a DELETE that succeeded.
    ensures forall i :: 0 <= i < |trace| && (trace[i].RemoveRole? || trace[i].AddRole?) ==>
      find.Ok? && current.Ok? && delete.Ok? && 0 < i && trace[0].DeleteMembership?
    // The POST carries the former team's leader flag for this member.
    ensures forall e :: e in trace && e.PostMembership? ==>
      find.Ok? && current.Ok? && delete.Ok?
      && e == PostMembership(find.value.id, member.id, PyBool(WasLeader(current.value.team.users, member.id)))
    // A successful DELETE is followed by the role removal and the POST with the old leader flag.
    ensures find.Ok? && current.Ok? && delete.Ok? ==>
      |trace| >= 3
      && trace[..3] == [
        DeleteMembership(current.value.team.id, current.value.userId),
        RemoveRole(current.value.team.roleId),
        PostMembership(find.value.id, member.id, PyBool(WasLeader(current.value.team.users, member.id)))]
    ensures find.Ok? && current.Ok? && delete.Ok? && post.Err? ==>
      trace[3..] == AddFailure(post.status, member, find.value)
    // A failing POST does not restore the old role nor add the new one.
    ensures find.Ok? && current.Ok? && delete.Ok? && post.Err? ==>
      RemoveRole(current.value.team.roleId) in trace && forall e :: e in trace ==> !e.AddRole?
    // Success: old role removed, then the new role added, then a message naming both teams.
    ensures find.Ok? && current.Ok? && delete.Ok? && post.Ok? ==>
      |trace| == 5 && trace[1] == RemoveRole(current.value.team.roleId)
      && trace[3] == AddRole(find.value.roleId)
      && trace[4] == Send(Moved(member.id, current.value.team.name, find.value.name))
  {
    match find
    case Err(status) =>
      [Send(if status == 404 then TeamDoesNotExist(newTeamName) else SomethingWentWrong)]
    case Ok(target) =>
      match current
      case Err(status) => [Send(CurrentTeamFailure(status))]
      case Ok(cur) =>
        var deletion := DeleteMembership(cur.team.id, cur.userId);
        match delete
        case Err(status) => [deletion, Send(DeleteFailure(status))]
        case Ok(_) =>
          var leader := WasLeader(cur.team.users, member.id);
          var steps := [deletion, RemoveRole(cur.team.roleId), PostMembership(target.id, member.id, PyBool(leader))];
          match post
          case Err(status) => steps + AddFailure(status, member, target)
          case Ok(_) => steps + [AddRole(target.roleId), Send(Moved(member.id, cur.team.name, target.name))]
  }

  /** `move`: the ordered calls with early returns, and the loop that decides leadership. */
  method Move(
    member: Member, newTeamName: string,
    find: ApiResult<FoundTeam>, current: ApiResult<CurrentTeam>,
    delete: ApiResult<()>, post: ApiResult<()>) returns (trace: seq<Effect>)
    ensures trace == MoveTrace(member, newTeamName, find, current, delete, post)
  {
    if find.Err? {
      if find.status == 404 {
        trace := [Send(TeamDoesNotExist(newTeamName))];
      } else {
        trace := [Send(SomethingWentWrong)];
      }
      return;
    }
    var target := find.value;
    if current.Err? {
      trace := [Send(CurrentTeamFailure(current.status))];
      return;
    }
    var team := current.value;
    trace := [DeleteMembership(team.team.id, team.userId)];
    if delete.Err? {
      trace := trace + [Send(DeleteFailure(delete.status))];
      return;
    }
    trace := trace + [RemoveRole(team.team.roleId)];

    var isLeader := false;
    var members := team.team.users;
    for i := 0 to |members|
      invariant isLeader <==> exists k :: 0 <= k < i && members[k].userId == member.id && members[k].isLeader
    {
      if members[i].userId == member.id && members[i].isLeader {
        isLeader := true;
      }
    }
    assert isLeader == WasLeader(members, member.id) by {
      if WasLeader(members, member.id) {
        var u :| u in members && u.userId == member.id && u.isLeader;
        var k :| 0 <= k < |members| && members[k] == u;
      }
    }

    trace := trace + [PostMembership(target.id, member.id, PyBool(isLeader))];
    if post.Err? {
      trace := trace + AddFailure(post.status, member, target);
      return;
    }
    trace := trace + [AddRole(target.roleId), Send(Moved(member.id, team.team.name, target.name))];
  }

  /** The removals of the held roles named like the team-leader role, in held order. */
  function LeaderRemovals(held: seq<Role>, leaderRoleName: string): (removals: seq<Effect>)
    ensures |removals| <= |held|
    ensures forall e :: e in removals ==> e.RemoveRole?
    decreases |held|
  {
    if held == [] then []
    else
      var last := held[|held| - 1];
      LeaderRemovals(held[..|held| - 1], leaderRoleName)
        + (if last.name == leaderRoleName then [RemoveRole(last.id)] else [])
  }

  /** A role is removed by this step exactly when the member holds a role of that id with the leader name. */
  lemma {:induction false} LeaderRemovalsMembers(held: seq<Role>, leaderRoleName: string, roleId: Snowflake)
    ensures RemoveRole(roleId) in LeaderRemovals(held, leaderRoleName) <==>
      exists r :: r in held && r.name == leaderRoleName && r.id == roleId
    decreases |held|
  {
    if held != [] {
      var init := held[..|held| - 1];
      assert held == init + [held[|held| - 1]];
      LeaderRemovalsMembers(init, leaderRoleName, roleId);
    }
  }

  /** The effects of `remove member`, given the current-team lookup and the DELETE. */
  function RemoveTrace(member: Member, leaderRoleName: string, current: ApiResult<CurrentTeam>, delete: ApiResult<()>)
    : (trace: seq<Effect>)
    ensures current.Err? ==> trace == [Send(CurrentTeamFailure(current.status))]
    ensures current.Ok? && delete.Err? ==>
      trace == [DeleteMembership(current.value.team.id, current.value.userId), Send(DeleteFailure(delete.status))]
    ensures current.Err? || delete.Err? ==> NoRoleChange(trace)
    ensures current.Ok? && delete.Ok? ==>
      |trace| >= 3 && trace[0] == DeleteMembership(current.value.team.id, current.value.userId)
      && trace[1] == RemoveRole(current.value.team.roleId)
      && trace[|trace| - 1] == Send(Removed(member.id, current.value.team.name))
      && (forall i :: 1 <= i < |trace| - 1 ==> trace[i].RemoveRole?)
      && trace[2..|trace| - 1] == LeaderRemovals(member.roles, leaderRoleName)
    ensures forall e :: e in trace ==> !e.AddRole? && !e.PostMembership?
  {
    match current
    case Err(status) => [Send(CurrentTeamFailure(status))]
    case Ok(cur) =>
      var deletion := DeleteMembership(cur.team.id, cur.userId);
      match delete
      case Err(status) => [deletion, Send(DeleteFailure(status))]
      case Ok(_) =>
        [deletion, RemoveRole(cur.team.roleId)] + LeaderRemovals(member.roles, leaderRoleName)
          + [Send(Removed(member.id, cur.team.name))]
  }

  /** `remove`: the ordered calls with early returns, and the loop over the held roles. */
  method Remove(member: Member, leaderRoleName: string, current: ApiResult<CurrentTeam>, delete: ApiResult<()>)
    returns (trace: seq<Effect>)
    ensures trace == RemoveTrace(member, leaderRoleName, current, delete)
  {
    if current.Err? {
      trace := [Send(CurrentTeamFailure(current.status))];
      return;
    }
    var team := current.value;
    trace := [DeleteMembership(team.team.id, team.userId)];
    if delete.Err? {
      trace := trace + [Send(DeleteFailure(delete.status))];
      return;
    }
    trace := trace + [RemoveRole(team.team.roleId)];
    ghost var head := trace;
    var held := member.roles;
    for i := 0 to |held|
      invariant trace == head + LeaderRemovals(held[..i], leaderRoleName)
    {
      assert held[..i + 1][..i] == held[..i];
      if held[i].name == leaderRoleName {
        trace := trace + [RemoveRole(held[i].id)];
      }
    }
    assert held[..|held|] == held;
    trace := trace + [Send(Removed(member.id, team.team.name))];
  }

  /**
   * After a successful removal every held team-leader role is removed,
   * whatever the command's own description says.
   */
  lemma RemoveStripsLeaderRoles(member: Member, leaderRoleName: string, current: ApiResult<CurrentTeam>, delete: ApiResult<()>, r: Role)
    requires current.Ok? && delete.Ok?
    requires r in member.roles && r.name == leaderRoleName
    ensures RemoveRole(r.id) in RemoveTrace(member, leaderRoleName, current, delete)
  {
    var trace := RemoveTrace(member, leaderRoleName, current, delete);
    LeaderRemovalsMembers(member.roles, leaderRoleName, r.id);
    var removals := LeaderRemovals(member.roles, leaderRoleName);
    var k :| 0 <= k < |removals| && removals[k] == RemoveRole(r.id);
    assert trace[2 + k] == removals[k];
  }
}
