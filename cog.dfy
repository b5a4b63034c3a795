/**
 * The `create` and `end` commands of the code-jam cog, up to the point where
 * they hand over to a confirmation view.
 *
 * `create` reads the roster, groups it into teams, tells the operator how many
 * teams will be created and shows a creation confirmation holding the teams.
 * `end` refuses when there are neither jam categories nor jam roles; otherwise
 * it takes one snapshot of every jam category's channels, renders the deletion
 * preview from it, and gives that same snapshot to the end confirmation.
 */
module Cog {
  import opened Wrappers
  import opened Text
  import opened Discord
  import Api
  import opened Roster
  import opened Lookup
  import opened Views

  // --------------------------------------------------------------- create

  datatype CreateOutcome =
    | InputRejected(error: InputError)
    | AwaitingCreation(teamCount: nat, view: JamCreationConfirmation)

  method Create(
    ctx: Handle, bot: Handle, guild: Handle, author: Snowflake, creationFlow: Handle,
    url: Option<string>, fetch: string -> Fetched, attachments: seq<string>,
    parseCsv: string -> seq<Row>, resolve: int -> Option<Member>)
    returns (outcome: CreateOutcome)
    ensures RosterText(url, fetch, attachments).Err? ==>
      outcome == InputRejected(RosterText(url, fetch, attachments).error)
    ensures RosterText(url, fetch, attachments).Ok? ==>
      outcome.AwaitingCreation? && fresh(outcome.view)
      && outcome.view.Valid() && outcome.view.State() == Pending
      && outcome.view.teams == Group(parseCsv(RosterText(url, fetch, attachments).value), resolve)
      && outcome.teamCount == |outcome.view.teams.order|
      && outcome.view.ctx == ctx && outcome.view.bot == bot && outcome.view.guild == guild
      && outcome.view.originalAuthor == author && outcome.view.callback == creationFlow
  {
    var text := RosterText(url, fetch, attachments);
    if text.Err? {
      return InputRejected(text.error);
    }
    var rows := parseCsv(text.value);
    var teams := GroupRoster(rows, resolve);
    var view := new JamCreationConfirmation(ctx, teams, bot, guild, author, creationFlow);
    outcome := AwaitingCreation(|teams.order|, view);
  }

  // ------------------------------------------------------------------ end

  /** What `end` decides once it knows the jam categories and the jam roles. */
  datatype EndPlan =
    | NothingToDelete
    | Proceed(snapshot: Snapshot, roles: seq<Role>)
      /** The preview loop iterated over a `None` role list and raised. */
    | RolesNotIterable

  /** `{category: category.channels.copy() for category in categories}`. */
  function SnapshotOf(categories: seq<Category>): (snapshot: Snapshot)
    ensures |snapshot| == |categories|
    ensures forall i :: 0 <= i < |snapshot| ==> snapshot[i] == (categories[i], categories[i].channels)
  {
    seq(|categories|, i requires 0 <= i < |categories| => (categories[i], categories[i].channels))
  }

  /**
   * The decision as the command makes it: refusal when both are empty (an
   * unavailable role list counts as empty); otherwise the preview loop walks
   * the role list, which fails when the list is unavailable.
   */
  function PlanEndAsWritten(categories: seq<Category>, roles: Option<seq<Role>>): EndPlan {
    if categories == [] && (roles.None? || roles.value == []) then NothingToDelete
    else if roles.None? then RolesNotIterable
    else Proceed(SnapshotOf(categories), roles.value)
  }

  /** With jam categories present and the role lookup failing, the command as written raises. */
  lemma AsWrittenFailsWhenRolesUnavailable(category: Category)
    ensures PlanEndAsWritten([category], None) == RolesNotIterable
  {
  }

  /**
   * The decision with an unavailable role list read as "no roles": it never
   * fails, refuses exactly when there is nothing to delete, and otherwise
   * agrees with the command as written.
   */
  function PlanEnd(categories: seq<Category>, roles: Option<seq<Role>>): (plan: EndPlan)
    ensures !plan.RolesNotIterable?
    ensures plan.NothingToDelete? <==> categories == [] && roles.GetOr([]) == []
    ensures plan.Proceed? ==> plan.snapshot == SnapshotOf(categories) && plan.roles == roles.GetOr([])
    ensures !PlanEndAsWritten(categories, roles).RolesNotIterable? ==> plan == PlanEndAsWritten(categories, roles)
  {
    var known := roles.GetOr([]);
    if categories == [] && known == [] then NothingToDelete else Proceed(SnapshotOf(categories), known)
  }

  const DetailsTitle := "Categories and Channels: "
  const RolesTitle := "Roles:"
  const DetailsHeader := DetailsTitle + "\n"
  const RolesHeader := RolesTitle + "\n"
  const PasteFailureNotice := "**Unable to send deletion details to the pasting service.**"

  function ChannelNames(channels: seq<Channel>): (names: seq<string>)
    ensures |names| == |channels|
    ensures forall i :: 0 <= i < |channels| ==> names[i] == channels[i].name
  {
    seq(|channels|, i requires 0 <= i < |channels| => channels[i].name)
  }

  /** `name[id]: channel,channel` and a newline. */
  function CategoryLine(category: Category, channels: seq<Channel>): string {
    category.name + "[" + DecimalString(category.id) + "]: " + Join(",", ChannelNames(channels)) + "\n"
  }

  /** `name[id]` and a newline. */
  function RoleLine(role: Role): string {
    role.name + "[" + DecimalString(role.id) + "]\n"
  }

  function CategoryLines(snapshot: Snapshot): string
    decreases |snapshot|
  {
    if snapshot == [] then ""
    else
      var last := snapshot[|snapshot| - 1];
      CategoryLines(snapshot[..|snapshot| - 1]) + CategoryLine(last.0, last.1)
  }

  function RoleLines(roles: seq<Role>): string
    decreases |roles|
  {
    if roles == [] then "" else RoleLines(roles[..|roles| - 1]) + RoleLine(roles[|roles| - 1])
  }

  /** The deletion preview sent to the paste service. */
  function Details(snapshot: Snapshot, roles: seq<Role>): string {
    DetailsHeader + CategoryLines(snapshot) + RolesHeader + RoleLines(roles)
  }

  /** The loop of `end` over the snapshot, appending one line per category. */
  method AppendCategoryLines(head: string, snapshot: Snapshot) returns (details: string)
    ensures details == head + CategoryLines(snapshot)
  {
    details := head;
    for i := 0 to |snapshot|
      invariant details == head + CategoryLines(snapshot[..i])
    {
      assert snapshot[..i + 1][..i] == snapshot[..i];
      details := details + CategoryLine(snapshot[i].0, snapshot[i].1);
    }
    assert snapshot[..|snapshot|] == snapshot;
  }

  /** The loop of `end` over the roles, appending one line per role. */
  method AppendRoleLines(head: string, roles: seq<Role>) returns (details: string)
    ensures details == head + RoleLines(roles)
  {
    details := head;
    for i := 0 to |roles|
      invariant details == head + RoleLines(roles[..i])
    {
      assert roles[..i + 1][..i] == roles[..i];
      details := details + RoleLine(roles[i]);
    }
    assert roles[..|roles|] == roles;
  }

  /** The loops of `end` that build `details` with `+=`. */
  method RenderDetails(snapshot: Snapshot, roles: seq<Role>) returns (details: string)
    ensures details == Details(snapshot, roles)
  {
    details := AppendCategoryLines(DetailsHeader, snapshot);
    details := AppendRoleLines(details + RolesHeader, roles);
  }

  /** No name in the snapshot or the role list spans lines. */
  ghost predicate SingleLineNames(snapshot: Snapshot, roles: seq<Role>) {
    (forall i :: 0 <= i < |snapshot| ==> '\n' !in snapshot[i].0.name)
    && (forall i, j :: 0 <= i < |snapshot| && 0 <= j < |snapshot[i].1| ==> '\n' !in snapshot[i].1[j].name)
    && (forall i :: 0 <= i < |roles| ==> '\n' !in roles[i].name)
  }

  lemma OneNewlineAtEnd(body: string)
    requires '\n' !in body
    ensures CountChar('\n', body + "\n") == 1
  {
    CountCharAppend('\n', body, "\n");
    CountCharAbsent('\n', body);
  }

  lemma CountFour(c: char, a: string, b: string, d: string, e: string)
    ensures CountChar(c, a + b + d + e) == CountChar(c, a) + CountChar(c, b) + CountChar(c, d) + CountChar(c, e)
  {
    CountCharAppend(c, a, b);
    CountCharAppend(c, a + b, d);
    CountCharAppend(c, a + b + d, e);
  }

  lemma DigitsAvoidNewline(n: nat)
    ensures '\n' !in DecimalString(n)
  {
  }

  lemma {:induction false} CategoryLinesCount(snapshot: Snapshot)
    requires forall i :: 0 <= i < |snapshot| ==> '\n' !in snapshot[i].0.name
    requires forall i, j :: 0 <= i < |snapshot| && 0 <= j < |snapshot[i].1| ==> '\n' !in snapshot[i].1[j].name
    ensures CountChar('\n', CategoryLines(snapshot)) == |snapshot|
    decreases |snapshot|
  {
    if snapshot != [] {
      var init := snapshot[..|snapshot| - 1];
      var (category, channels) := snapshot[|snapshot| - 1];
      CategoryLinesCount(init);
      var names := ChannelNames(channels);
      JoinAvoids('\n', ",", names);
      DigitsAvoidNewline(category.id);
      var body := category.name + "[" + DecimalString(category.id) + "]: " + Join(",", names);
      OneNewlineAtEnd(body);
      assert CategoryLine(category, channels) == body + "\n";
      CountCharAppend('\n', CategoryLines(init), body + "\n");
    }
  }

  lemma {:induction false} RoleLinesCount(roles: seq<Role>)
    requires forall i :: 0 <= i < |roles| ==> '\n' !in roles[i].name
    ensures CountChar('\n', RoleLines(roles)) == |roles|
    decreases |roles|
  {
    if roles != [] {
      var init := roles[..|roles| - 1];
      var role := roles[|roles| - 1];
      RoleLinesCount(init);
      DigitsAvoidNewline(role.id);
      var body := role.name + "[" + DecimalString(role.id) + "]";
      OneNewlineAtEnd(body);
      assert RoleLine(role) == body + "\n";
      CountCharAppend('\n', RoleLines(init), body + "\n");
    }
  }

  /** The preview has two header lines, one line per captured category and one per role. */
  lemma DetailsLineCount(snapshot: Snapshot, roles: seq<Role>)
    requires SingleLineNames(snapshot, roles)
    ensures CountChar('\n', Details(snapshot, roles)) == 2 + |snapshot| + |roles|
  {
    CategoryLinesCount(snapshot);
    RoleLinesCount(roles);
    OneNewlineAtEnd(DetailsTitle);
    OneNewlineAtEnd(RolesTitle);
    CountFour('\n', DetailsHeader, CategoryLines(snapshot), RolesHeader, RoleLines(roles));
  }

  /** The link shown to the operator: the paste URL, or a notice when the paste failed. */
  function ShownUrl(pasted: Option<string>): (shown: string)
    ensures pasted.Some? && pasted.value != "" ==> shown == pasted.value
    ensures pasted.None? || pasted.value == "" ==> shown == PasteFailureNotice
  {
    if pasted.None? || pasted.value == "" then PasteFailureNotice else pasted.value
  }

  datatype EndOutcome =
    | AlreadyDeleted
    | AwaitingEnd(details: string, shownUrl: string, view: JamEndConfirmation)

  /**
   * `end`, with the unavailable role list read as empty. The one snapshot
   * renders the preview and is handed to the confirmation view.
   */
  method End(
    guild: Guild, config: Config, teamsResponse: Api.ApiResult<seq<Api.Team>>,
    paste: string -> Option<string>, author: Snowflake, deletionFlow: Handle)
    returns (outcome: EndOutcome)
    ensures var plan := PlanEnd(
              JamCategories(guild.categories, config.categoryName),
              if teamsResponse.Ok? then Some(ResolvedRoles(teamsResponse.value, guild.roles)) else None);
      (outcome.AlreadyDeleted? <==> plan.NothingToDelete?)
      && (outcome.AwaitingEnd? ==>
            plan.Proceed?
            && fresh(outcome.view) && outcome.view.Valid() && outcome.view.State() == Pending
            && outcome.view.categoryChannels == plan.snapshot && outcome.view.roles == plan.roles
            && outcome.details == Details(plan.snapshot, plan.roles)
            && outcome.shownUrl == ShownUrl(paste(outcome.details))
            && outcome.view.callback == deletionFlow && outcome.view.originalAuthor == author)
  {
    var categories := JamCategories(guild.categories, config.categoryName);
    var roles := JamRoles(teamsResponse, guild.roles);
    var plan := PlanEnd(categories, roles);
    if plan.NothingToDelete? {
      return AlreadyDeleted;
    }
    var details := RenderDetails(plan.snapshot, plan.roles);
    var shown := ShownUrl(paste(details));
    var view := new JamEndConfirmation(plan.snapshot, plan.roles, deletionFlow, author);
    outcome := AwaitingEnd(details, shown, view);
  }
}
