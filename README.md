# Code-jam management core of sir-robin, in Dafny

sir-robin is a Discord bot for events. Its code-jam extension lets event
admins run a jam from chat:

- `create` reads a roster (team name, member id, leader flag) and groups the
  members into teams.
- `end` previews and then deletes the jam's categories, channels and roles.
- `move` and `remove` change one participant's team through the Code Jam
  Management API and adjust their roles.
- `announce` posts a persistent "Show me my team!" button.

Every confirmation step is a Discord UI view with two buttons. Only the
command's author may press them.

This project models that core in Dafny:

- `Roster` groups roster rows into the insertion-ordered `teams` dictionary of
  `create`.
- `Lookup` models the cog's lookup helpers: `jam_categories`, `jam_roles`,
  `team_name` and `team_channel`.
- `Membership` models `move` and `remove` as traces of effects. An effect is a
  message to the operator, a membership write to the API, or a role change.
  Each API call's outcome is a parameter.
- `Views` models the three confirmation views as Dafny classes with button
  state, a stopped flag and a ghost trace of what they did. It models the
  persistent `JamTeamInfoView` as a class of constants (its button, its custom
  id and its lack of a timeout), and the card that its `show_team` renders.
- `Cog` models `create` and `end` up to the point where they hand over to a
  confirmation view.
- `Discord`, `Api`, `Text` and `Wrappers` hold the platform entities, the API
  records, the string helpers (upper-casing, decimal ids, join, split) and
  `Option`/`Result`.

## Model

| member | source | states |
|---|---|---|
| Roster.RosterText | bot/exts/code_jams/_cog.py:50-61 | A non-empty URL argument wins: the roster is its body when the status is 200, otherwise the command stops with that status. With no URL, the first attachment is used. With neither, the command fails. |
| Roster.LeaderFlag | bot/exts/code_jams/_cog.py:73 | A row marks a leader exactly when its "Team Leader" field is `y` or `Y`. |
| Roster.Group | bot/exts/code_jams/_cog.py:63-73 | The grouping of any roster is well formed: the order lists every key exactly once and nothing else, and no team is empty. |
| Roster.GroupOrder | bot/exts/code_jams/_cog.py:63-73 | The teams iterate in the order their names first occur among the rows whose member resolved, as a Python dict keeps insertion order. |
| Roster.GroupRoster | bot/exts/code_jams/_cog.py:63-73 | The loop over the rows builds exactly the grouping `Group` of the rows. |
| Roster.AppendWellFormed | bot/exts/code_jams/_cog.py:73 | Appending one entry under a team name keeps the grouping well formed. A new name goes to the end of the order, and a known name leaves the order alone. The entry goes at the end of that team's list, and every other team's list is unchanged. |
| Roster.GroupIsFilter | bot/exts/code_jams/_cog.py:66-73 | A team's list holds exactly the resolved rows with that team name, in roster order. A name is a key exactly when that list is non-empty. |
| Roster.GroupKeys | bot/exts/code_jams/_cog.py:63-73 | The team names in the grouping are exactly the names of the rows whose member resolved. |
| Roster.GroupTotal | bot/exts/code_jams/_cog.py:66-73 | Every resolved row lands in exactly one team. Unresolved ids are skipped. |
| Roster.AnnouncedCount | bot/exts/code_jams/_cog.py:77 | The team count shown in the warning equals the number of distinct team names among the resolved rows. |
| Lookup.JamCategories | bot/exts/code_jams/_cog.py:284-286 | Every kept category carries the jam category name, and there are never more than the guild has. That they are exactly the guild's categories with that name, in guild order, is stated by `JamCategoriesMembers` and `JamCategoriesAppend`. |
| Lookup.JamCategoriesMembers | bot/exts/code_jams/_cog.py:286 | A category is kept exactly when it is in the guild and carries the jam category name. |
| Lookup.JamCategoriesAppend | bot/exts/code_jams/_cog.py:286 | The filter keeps guild order: filtering a concatenation concatenates the filtered parts. |
| Lookup.ResolvedRoles | bot/exts/code_jams/_cog.py:297-300 | There is at most one role per team. |
| Lookup.ResolvedRolesMembers | bot/exts/code_jams/_cog.py:298-300 | A role is listed exactly when some team's role id resolves to it in the guild. |
| Lookup.ResolvedRolesAppend | bot/exts/code_jams/_cog.py:298-300 | Resolved roles keep team order. |
| Lookup.JamRoles | bot/exts/code_jams/_cog.py:289-301 | The result is `None` exactly when the API request fails. Otherwise it is the resolved roles of the current jam's teams. |
| Lookup.Dehyphen | bot/exts/code_jams/_cog.py:320 | Each hyphen becomes a space, every other character is kept, and the length is unchanged. |
| Lookup.TitleAt | bot/exts/code_jams/_cog.py:320 | Title case at each position: a letter is upper-cased after a non-letter and lower-cased after a letter. Other characters are unchanged. |
| Lookup.TeamName | bot/exts/code_jams/_cog.py:318-320 | A team name has the channel name's length and no hyphen. |
| Lookup.TeamNameIdempotent | bot/exts/code_jams/_cog.py:318-320 | Deriving the team name from a team name changes nothing. |
| Lookup.TeamNameExample | bot/exts/code_jams/_cog.py:318-320 | The channel `team-rocket` is team `Team Rocket`. |
| Lookup.ChannelsOfAppend | bot/exts/code_jams/_cog.py:306-307 | Channels are visited category by category, in order. |
| Lookup.TeamChannel | bot/exts/code_jams/_cog.py:303-315 | It returns `None` exactly when no text channel in the jam categories matches. Otherwise it returns the first matching channel in scan order. A channel matches by name, by derived team name, or by the member having an overwrite on it. |
| Membership.CurrentTeamFailure | bot/exts/code_jams/_cog.py:185-191 | A 404 says the member is not a participant. Every other status gets the generic error. |
| Membership.DeleteFailure | bot/exts/code_jams/_cog.py:198-206 | Messages differ by status: 404 means team or user not found, 400 means not part of the team, anything else is the generic error. |
| Membership.AddFailure | bot/exts/code_jams/_cog.py:226-237 | A failed POST issues one effect, a message or the KeyError, and changes no role. A 404 says team or user not found. A 400 answers "already in" with the nested team name of the `teams/find` body, or raises when that body has no nested name. Any other status gets the generic error. |
| Membership.MoveTrace | bot/exts/code_jams/_cog.py:167-244 | A failed lookup aborts with one message and no write. For the target lookup, 404 names the missing team and anything else is the generic error. For the current-team lookup, 404 says the member is not a participant and anything else is the generic error. Roles change only after the DELETE succeeded. A successful DELETE of the current membership is followed by the removal of the old role and the POST, which carries the member's old leader flag as `True`/`False`. A failed POST ends with the `AddFailure` answer, leaving the old role removed and adding no role. Success adds the new role and names both teams. |
| Membership.Move | bot/exts/code_jams/_cog.py:167-244 | The command with its early returns and its leader loop issues exactly `MoveTrace`. |
| Membership.LeaderRemovals | bot/exts/code_jams/_cog.py:278-280 | It produces only role removals, at most one per held role. |
| Membership.LeaderRemovalsMembers | bot/exts/code_jams/_cog.py:278-280 | A role id is removed exactly when the member holds a role with that id and the leader role name. |
| Membership.RemoveTrace | bot/exts/code_jams/_cog.py:248-281 | Failed lookups abort before any role change. Success deletes the current membership, removes the team role, then the leader roles, then confirms. No role is ever added. |
| Membership.Remove | bot/exts/code_jams/_cog.py:248-281 | The command with its role loop issues exactly `RemoveTrace`. |
| Membership.RemoveStripsLeaderRoles | bot/exts/code_jams/_cog.py:276-280 | After a successful removal, every held team-leader role is removed. |
| Api.PyBool | bot/exts/code_jams/_cog.py:223 | `str(is_leader)` is `True` for true and `False` for false. |
| Discord.MentionRoundTrip | bot/exts/code_jams/_views.py:82-83 | A mention parses back to its id and contains no newline. |
| Views.AuthorCheck | bot/exts/code_jams/_views.py:127-135 | An interaction is accepted exactly when its user is the original author. Anyone else gets a private notice. |
| Views.TerminalInvocations | bot/exts/code_jams/_views.py:118-125 | A helper fact about trace shapes: two bookkeeping events run no callback, and a third event adds one exactly when it is a callback or an announcement. |
| Views.JamCreationConfirmation.constructor | bot/exts/code_jams/_views.py:93-108 | A new view holds the context, teams, bot, guild, author and callback it was given. It is pending with both buttons enabled. |
| Views.JamCreationConfirmation.InteractionCheck | bot/exts/code_jams/_views.py:127-135 | The check gives the `AuthorCheck` verdict for this view's author. |
| Views.JamCreationConfirmation.Cancel | bot/exts/code_jams/_views.py:110-116 | Cancel relabels itself "Cancelled", disables both buttons, edits the message and stops the view. |
| Views.JamCreationConfirmation.Confirm | bot/exts/code_jams/_views.py:118-125 | Confirm relabels itself "Confirmed" and disables both buttons. It edits the message, stops the view, then runs the callback with ctx, teams and bot. |
| Views.JamCreationConfirmation.Click | bot/exts/code_jams/_views.py:110-135 | A stopped view ignores presses. A non-author gets the notice and nothing changes. The author's press cancels or confirms. Team creation runs exactly once, and only when confirmed. |
| Views.JamEndConfirmation.constructor | bot/exts/code_jams/_views.py:138-150 | A new view holds the snapshot, roles, callback and author it was given, and is pending. |
| Views.JamEndConfirmation.InteractionCheck | bot/exts/code_jams/_views.py:169-177 | The check gives the `AuthorCheck` verdict for this view's author. |
| Views.JamEndConfirmation.Cancel | bot/exts/code_jams/_views.py:152-158 | Cancel relabels, disables both buttons, edits and stops. |
| Views.JamEndConfirmation.Confirm | bot/exts/code_jams/_views.py:160-167 | Confirm relabels and disables both buttons, edits and stops. It then passes the held snapshot and roles to the deletion callback. |
| Views.JamEndConfirmation.Click | bot/exts/code_jams/_views.py:152-177 | Deletion runs at most once, only when the author confirms, and on the snapshot taken at construction. |
| Views.JamTeamInfoConfirmation.constructor | bot/exts/code_jams/_views.py:18-24 | A new view holds bot, guild and author, and is pending. |
| Views.JamTeamInfoConfirmation.InteractionCheck | bot/exts/code_jams/_views.py:49-57 | The check gives the `AuthorCheck` verdict for this view's author. |
| Views.JamTeamInfoConfirmation.Cancel | bot/exts/code_jams/_views.py:26-32 | Cancel relabels, disables both buttons, edits and stops. |
| Views.JamTeamInfoConfirmation.Announce | bot/exts/code_jams/_views.py:34-47 | Announce relabels itself "Teams have been announced!", disables both buttons, stops and edits. It then posts, in the announcements channel, a ping of the participants role carrying a team-info view. |
| Views.JamTeamInfoConfirmation.Click | bot/exts/code_jams/_views.py:26-57 | The announcement is posted at most once, and only on the author's press of "Announce teams". |
| Views.JamTeamInfoView.constructor | bot/exts/code_jams/_views.py:60-66 | The view never times out. Its button is "Show me my team!" with the stable id `CJ:PERS:SHOW_TEAM`. |
| Views.UserMentions | bot/exts/code_jams/_views.py:83 | There is one user mention per team user, in team order. |
| Views.ShowTeamChannel | bot/exts/code_jams/_views.py:82-84 | The channel field is a channel mention that reads back as the team's channel id. |
| Views.ShowTeamMembers | bot/exts/code_jams/_views.py:83-85 | The members field splits into one line per team user, in order, and each line parses back to that user's id. |
| Cog.Create | bot/exts/code_jams/_cog.py:41-84 | A rejected input stops the command. Otherwise the new pending confirmation holds the grouping of the parsed rows, the caller's context, author and creation flow. The count shown is its number of teams. |
| Cog.SnapshotOf | bot/exts/code_jams/_cog.py:113-115 | The snapshot pairs each jam category with its channel list, in order. |
| Cog.AsWrittenFailsWhenRolesUnavailable | bot/exts/code_jams/_cog.py:107-122 | With a jam category present and the role lookup failed, the command as written fails in its role loop. |
| Cog.PlanEnd | bot/exts/code_jams/_cog.py:107-122 | The corrected decision never fails. It refuses exactly when there are no jam categories and no known roles. Otherwise it snapshots the categories. It agrees with the command as written wherever that does not fail. |
| Cog.ChannelNames | bot/exts/code_jams/_cog.py:119 | It lists the channel names in channel order. |
| Cog.AppendCategoryLines | bot/exts/code_jams/_cog.py:118-119 | The category loop appends exactly `CategoryLines` of the snapshot. |
| Cog.AppendRoleLines | bot/exts/code_jams/_cog.py:121-122 | The role loop appends exactly `RoleLines` of the roles. |
| Cog.RenderDetails | bot/exts/code_jams/_cog.py:117-122 | The `+=` loops build exactly the `Details` preview. |
| Cog.CategoryLinesCount | bot/exts/code_jams/_cog.py:118-119 | With single-line names, the category part has one line per category. |
| Cog.RoleLinesCount | bot/exts/code_jams/_cog.py:121-122 | With single-line names, the role part has one line per role. |
| Cog.DetailsLineCount | bot/exts/code_jams/_cog.py:117-122 | With single-line names, the preview has two header lines, one line per category and one per role. |
| Cog.ShownUrl | bot/exts/code_jams/_cog.py:123-125 | A non-empty paste URL is shown as is. A failed or empty paste shows the fixed notice. |
| Cog.End | bot/exts/code_jams/_cog.py:107-135 | The command answers "already deleted" exactly when the corrected decision refuses. Otherwise one snapshot renders the preview and goes into the new pending end confirmation, together with the same roles, the author and the deletion flow. |
| Text.DecimalRoundTrip | bot/exts/code_jams/_views.py:82-83 | A decimal id parses back to itself. |
| Text.JoinLinesRoundTrip | bot/exts/code_jams/_views.py:85 | Joining single-line strings with newlines and splitting the result into lines gives the strings back. |
| Text.JoinAvoids | bot/exts/code_jams/_cog.py:119 | A join of single-line parts with a single-line separator is a single line. |

## Left out

- Networking, Discord's gateway and `async` scheduling are left out. Every
  API response, fetch, paste-service result and member lookup is a parameter
  or a function given in advance.
- CSV parsing and `int()` of the member id are left out. Rows arrive already
  parsed, as the `parseCsv` function of `Cog.Create`. A malformed id that
  makes `int()` raise is not modelled.
- The tail of `end` is left out: `confirm_view.wait()` and the closing
  "Code Jam has officially ended!" message (`_cog.py:136-137`). `View.wait()`
  belongs to discord.py and returns on any `stop()`. So the closing message
  also follows a Cancel (`_views.py:158`). On Confirm, `stop()` (`_views.py:166`)
  runs before the deletion callback is awaited (`:167`), so the message can go
  out before the deletion has finished. Modelling this would need discord.py's
  event loop and the view's timeout.
- Logging (`log.trace`, `log.info`, `log.error`) is left out.
- Embed colours and footers are left out. So are the "Warning!" and "Are you
  sure?" titles, apart from the team count and the link field, which are
  modelled.
- `get_role` returning `None` in `move` and `remove` is left out. Role
  changes are recorded by role id.
- `Lookup.Title` and `Text.Upper` handle ASCII letters only. Python's
  `str.title` and `str.upper` also map non-ASCII letters and some characters
  that change length.
- The `info` command (`_cog.py:139-163`) is outside this core.
- The creation and deletion flows that the views call back are outside this
  core. So are the constants from `bot/constants.py` and `_creation_utils.py`.
  The constants arrive as `Discord.Config`.
- `Views.ShowTeam` covers only the successful lookup.
  - Its error path (`_views.py:71-76`) compares the response object with
    `404`, so it always takes the generic branch.
  - Its `send_message` calls there are never awaited.
  - Neither is modelled.
- Views.JamCreationConfirmation.Click, Views.JamEndConfirmation.Click and
  Views.JamTeamInfoConfirmation.Click: the default timeout that all three views
  get from `super().__init__()` is not modelled. A view that timed out behaves
  like one that was never clicked.
- Cog.End: when the role lookup fails, it follows the corrected decision
  (`Cog.PlanEnd`). The command as written is captured by
  `Cog.PlanEndAsWritten` (see Findings).
- Membership.AddFailure: when a 400 answer meets a `teams/find` body without
  a nested `team.name`, the model records `KeyErrorOnTeamName` rather than
  the exception's propagation. The flat team record of `move` (`:222`,
  `:239`, `:243`) suggests that this nested lookup at `:231` is a slip.
- Membership.RemoveStripsLeaderRoles: this follows the code, which removes
  every held role named like the team-leader role. The command's docstring
  (`_cog.py:249`) says leader roles are not removed.
- Roster.Group: teams exist only when at least one of their rows resolves to
  a member. An empty team never becomes a key, because `defaultdict` creates
  keys only by appending.

## Findings

| source | as written | input that shows it | evidently intended | confidence | as-written member | corrected member |
|---|---|---|---|---|---|---|
| bot/exts/code_jams/_cog.py:108-122 | `jam_roles` returns `None` when the API request fails. `end` treats `None` as "no roles" only in its emptiness test at `:109`, then iterates `for role in roles` at `:121` | one category named like the jam category, with the `teams` request failing | an unavailable role list counts as empty, so the preview and the deletion go ahead with the categories alone | not executed | Cog.PlanEndAsWritten, Cog.AsWrittenFailsWhenRolesUnavailable | Cog.PlanEnd |
