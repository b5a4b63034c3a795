/**
 * The interactive views of the code-jam commands. Each confirmation view is a
 * small state machine over its two buttons: while PENDING both are enabled;
 * the first accepted press disables both, relabels the pressed one and stops
 * the view, and a confirming press then runs the stored callback once with the
 * arguments captured at construction. Only the command's author may press.
 *
 * What the views do outside their fields (editing the message, stopping,
 * running the callback, posting the announcement) is recorded, in order, in
 * the ghost trace `events`.
 */
module Views {
  import opened Wrappers
  import opened Text
  import opened Discord
  import opened Api
  import Roster

  datatype Button = Button(text: string, disabled: bool)

  datatype ViewState = Pending | Cancelled | Confirmed

  /** Which of a view's two buttons an interaction pressed. */
  datatype Press = CancelPress | ActionPress

  /** The ephemeral notice sent to someone who is not the command's author. */
  datatype Reply = NotYourInteraction

  /** The arguments a view passes to its callback. */
  datatype CallbackArgs =
    | CreationArgs(ctx: Handle, teams: Roster.Assignment, bot: Handle)
    | DeletionArgs(categoryChannels: Snapshot, roles: seq<Role>)

  datatype ViewEvent =
    | MessageEdited
    | Stopped
    | CallbackRan(callback: Handle, args: CallbackArgs)
      /** A message pinging `pingedRole` in `channel`, carrying a team-info view for `bot`. */
    | TeamsAnnounced(channel: Snowflake, pingedRole: Snowflake, bot: Handle)

  /** How many times the trace ran a callback or posted an announcement. */
  function Invocations(events: seq<ViewEvent>): nat
    decreases |events|
  {
    if events == [] then 0
    else
      var last := events[|events| - 1];
      Invocations(events[..|events| - 1]) + (if last.CallbackRan? || last.TeamsAnnounced? then 1 else 0)
  }

  /** The traces of a finished view: two bookkeeping events, then possibly the callback. */
  lemma TerminalInvocations(e: ViewEvent, f: ViewEvent, g: ViewEvent)
    requires !e.CallbackRan? && !e.TeamsAnnounced? && !f.CallbackRan? && !f.TeamsAnnounced?
    ensures Invocations([e, f]) == 0
    ensures Invocations([e, f, g]) == if g.CallbackRan? || g.TeamsAnnounced? then 1 else 0
  {
    assert [e, f, g][..2] == [e, f];
    assert [e, f][..1] == [e];
    assert [e][..0] == [];
    assert Invocations([e]) == 0;
  }

  /** `interaction_check`: only the original author gets through; anyone else is told off privately. */
  function AuthorCheck(originalAuthor: Snowflake, user: Snowflake): (verdict: (bool, Option<Reply>))
    ensures verdict.0 <==> user == originalAuthor
    ensures verdict.1.Some? <==> !verdict.0
  {
    if user != originalAuthor then (false, Some(NotYourInteraction)) else (true, None)
  }

  // ------------------------------------------------------------- creation

  class JamCreationConfirmation {
    const ctx: Handle
    const teams: Roster.Assignment
    const bot: Handle
    const guild: Handle
    const originalAuthor: Snowflake
    const callback: Handle
    var cancelButton: Button
    var confirmButton: Button
    var stopped: bool
    ghost var events: seq<ViewEvent>

    function State(): ViewState
      reads this
    {
      if !stopped then Pending else if confirmButton.text == "Confirmed" then Confirmed else Cancelled
    }

    /** The states reachable from construction through accepted presses. */
    ghost predicate Valid()
      reads this
    {
      match State()
      case Pending =>
        cancelButton == Button("Cancel", false) && confirmButton == Button("Confirm", false) && events == []
      case Cancelled =>
        cancelButton == Button("Cancelled", true) && confirmButton == Button("Confirm", true)
        && events == [MessageEdited, Stopped]
      case Confirmed =>
        cancelButton == Button("Cancel", true) && confirmButton == Button("Confirmed", true)
        && events == [MessageEdited, Stopped, CallbackRan(callback, CreationArgs(ctx, teams, bot))]
    }

    constructor (ctx: Handle, teams: Roster.Assignment, bot: Handle, guild: Handle, originalAuthor: Snowflake, callback: Handle)
      ensures Valid() && State() == Pending
      ensures this.ctx == ctx && this.teams == teams && this.bot == bot && this.guild == guild
      ensures this.originalAuthor == originalAuthor && this.callback == callback
    {
      this.ctx, this.teams, this.bot, this.guild := ctx, teams, bot, guild;
      this.originalAuthor, this.callback := originalAuthor, callback;
      cancelButton := Button("Cancel", false);
      confirmButton := Button("Confirm", false);
      stopped := false;
      events := [];
    }

    method InteractionCheck(user: Snowflake) returns (allowed: bool, reply: Option<Reply>)
      ensures (allowed, reply) == AuthorCheck(originalAuthor, user)
    {
      if user != originalAuthor {
        return false, Some(NotYourInteraction);
      }
      return true, None;
    }

    method Cancel()
      modifies this
      ensures cancelButton == Button("Cancelled", true) && confirmButton == old(confirmButton).(disabled := true)
      ensures stopped && events == old(events) + [MessageEdited, Stopped]
    {
      cancelButton := cancelButton.(text := "Cancelled", disabled := true);
      confirmButton := confirmButton.(disabled := true);
      events := events + [MessageEdited];
      stopped := true;
      events := events + [Stopped];
    }

    method Confirm()
      modifies this
      ensures confirmButton == Button("Confirmed", true) && cancelButton == old(cancelButton).(disabled := true)
      ensures stopped
      ensures events == old(events) + [MessageEdited, Stopped, CallbackRan(callback, CreationArgs(ctx, teams, bot))]
    {
      confirmButton := confirmButton.(text := "Confirmed", disabled := true);
      cancelButton := cancelButton.(disabled := true);
      events := events + [MessageEdited];
      stopped := true;
      events := events + [Stopped];
      events := events + [CallbackRan(callback, CreationArgs(ctx, teams, bot))];
    }

    /**
     * One button press as the platform delivers it: a stopped view receives
     * nothing; otherwise the author check runs first, and only an accepted
     * press reaches the button's handler.
     */
    method Click(user: Snowflake, press: Press) returns (reply: Option<Reply>)
      requires Valid()
      modifies this
      ensures Valid()
      ensures old(State()) != Pending ==> unchanged(this) && reply == None
      ensures old(State()) == Pending && user != originalAuthor ==>
        unchanged(this) && reply == Some(NotYourInteraction)
      ensures old(State()) == Pending && user == originalAuthor ==>
        reply == None && State() == (if press == CancelPress then Cancelled else Confirmed)
      ensures Invocations(events) == if State() == Confirmed then 1 else 0
    {
      if stopped {
        reply := None;
      } else {
        var allowed;
        allowed, reply := InteractionCheck(user);
        if allowed {
          if press == CancelPress {
            Cancel();
          } else {
            Confirm();
          }
        }
      }
      TerminalInvocations(MessageEdited, Stopped, CallbackRan(callback, CreationArgs(ctx, teams, bot)));
    }
  }

  // ------------------------------------------------------------- teardown

  class JamEndConfirmation {
    const categoryChannels: Snapshot
    const roles: seq<Role>
    const originalAuthor: Snowflake
    const callback: Handle
    var cancelButton: Button
    var confirmButton: Button
    var stopped: bool
    ghost var events: seq<ViewEvent>

    function State(): ViewState
      reads this
    {
      if !stopped then Pending else if confirmButton.text == "Confirmed" then Confirmed else Cancelled
    }

    ghost predicate Valid()
      reads this
    {
      match State()
      case Pending =>
        cancelButton == Button("Cancel", false) && confirmButton == Button("Confirm", false) && events == []
      case Cancelled =>
        cancelButton == Button("Cancelled", true) && confirmButton == Button("Confirm", true)
        && events == [MessageEdited, Stopped]
      case Confirmed =>
        cancelButton == Button("Cancel", true) && confirmButton == Button("Confirmed", true)
        && events == [MessageEdited, Stopped, CallbackRan(callback, DeletionArgs(categoryChannels, roles))]
    }

    constructor (categoryChannels: Snapshot, roles: seq<Role>, callback: Handle, author: Snowflake)
      ensures Valid() && State() == Pending
      ensures this.categoryChannels == categoryChannels && this.roles == roles
      ensures this.callback == callback && originalAuthor == author
    {
      this.categoryChannels, this.roles := categoryChannels, roles;
      originalAuthor, this.callback := author, callback;
      cancelButton := Button("Cancel", false);
      confirmButton := Button("Confirm", false);
      stopped := false;
      events := [];
    }

    method InteractionCheck(user: Snowflake) returns (allowed: bool, reply: Option<Reply>)
      ensures (allowed, reply) == AuthorCheck(originalAuthor, user)
    {
      if user != originalAuthor {
        return false, Some(NotYourInteraction);
      }
      return true, None;
    }

    method Cancel()
      modifies this
      ensures cancelButton == Button("Cancelled", true) && confirmButton == old(confirmButton).(disabled := true)
      ensures stopped && events == old(events) + [MessageEdited, Stopped]
    {
      cancelButton := cancelButton.(text := "Cancelled", disabled := true);
      confirmButton := confirmButton.(disabled := true);
      events := events + [MessageEdited];
      stopped := true;
      events := events + [Stopped];
    }

    /** Runs the deletion callback with exactly the snapshot and roles given at construction. */
    method Confirm()
      modifies this
      ensures confirmButton == Button("Confirmed", true) && cancelButton == old(cancelButton).(disabled := true)
      ensures stopped
      ensures events == old(events) + [MessageEdited, Stopped, CallbackRan(callback, DeletionArgs(categoryChannels, roles))]
    {
      confirmButton := confirmButton.(text := "Confirmed", disabled := true);
      cancelButton := cancelButton.(disabled := true);
      events := events + [MessageEdited];
      stopped := true;
      events := events + [Stopped];
      events := events + [CallbackRan(callback, DeletionArgs(categoryChannels, roles))];
    }

    method Click(user: Snowflake, press: Press) returns (reply: Option<Reply>)
      requires Valid()
      modifies this
      ensures Valid()
      ensures old(State()) != Pending ==> unchanged(this) && reply == None
      ensures old(State()) == Pending && user != originalAuthor ==>
        unchanged(this) && reply == Some(NotYourInteraction)
      ensures old(State()) == Pending && user == originalAuthor ==>
        reply == None && State() == (if press == CancelPress then Cancelled else Confirmed)
      ensures Invocations(events) == if State() == Confirmed then 1 else 0
    {
      if stopped {
        reply := None;
      } else {
        var allowed;
        allowed, reply := InteractionCheck(user);
        if allowed {
          if press == CancelPress {
            Cancel();
          } else {
            Confirm();
          }
        }
      }
      TerminalInvocations(MessageEdited, Stopped, CallbackRan(callback, DeletionArgs(categoryChannels, roles)));
    }
  }

  // --------------------------------------------------------- announcement

  class JamTeamInfoConfirmation {
    const bot: Handle
    const guild: Handle
    const originalAuthor: Snowflake
    /** The announcements channel and the participants role, read from the bot's constants. */
    const config: Config
    var cancelButton: Button
    var announceButton: Button
    var stopped: bool
    ghost var events: seq<ViewEvent>

    function State(): ViewState
      reads this
    {
      if !stopped then Pending else if announceButton.text == "Teams have been announced!" then Confirmed else Cancelled
    }

    ghost predicate Valid()
      reads this
    {
      match State()
      case Pending =>
        cancelButton == Button("Cancel", false) && announceButton == Button("Announce teams", false) && events == []
      case Cancelled =>
        cancelButton == Button("Cancelled", true) && announceButton == Button("Announce teams", true)
        && events == [MessageEdited, Stopped]
      case Confirmed =>
        cancelButton == Button("Cancel", true) && announceButton == Button("Teams have been announced!", true)
        && events == [Stopped, MessageEdited, TeamsAnnounced(config.announcementsChannel, config.participantsRole, bot)]
    }

    constructor (bot: Handle, guild: Handle, originalAuthor: Snowflake, config: Config)
      ensures Valid() && State() == Pending
      ensures this.bot == bot && this.guild == guild && this.originalAuthor == originalAuthor && this.config == config
    {
      this.bot, this.guild, this.originalAuthor, this.config := bot, guild, originalAuthor, config;
      cancelButton := Button("Cancel", false);
      announceButton := Button("Announce teams", false);
      stopped := false;
      events := [];
    }

    method InteractionCheck(user: Snowflake) returns (allowed: bool, reply: Option<Reply>)
      ensures (allowed, reply) == AuthorCheck(originalAuthor, user)
    {
      if user != originalAuthor {
        return false, Some(NotYourInteraction);
      }
      return true, None;
    }

    method Cancel()
      modifies this
      ensures cancelButton == Button("Cancelled", true) && announceButton == old(announceButton).(disabled := true)
      ensures stopped && events == old(events) + [MessageEdited, Stopped]
    {
      cancelButton := cancelButton.(text := "Cancelled", disabled := true);
      announceButton := announceButton.(disabled := true);
      events := events + [MessageEdited];
      stopped := true;
      events := events + [Stopped];
    }

    /** Stops the view before editing the message, then posts exactly one announcement. */
    method Announce()
      modifies this
      ensures announceButton == Button("Teams have been announced!", true)
      ensures cancelButton == old(cancelButton).(disabled := true)
      ensures stopped
      ensures events == old(events) + [Stopped, MessageEdited, TeamsAnnounced(config.announcementsChannel, config.participantsRole, bot)]
    {
      announceButton := announceButton.(text := "Teams have been announced!", disabled := true);
      cancelButton := cancelButton.(disabled := true);
      stopped := true;
      events := events + [Stopped];
      events := events + [MessageEdited];
      events := events + [TeamsAnnounced(config.announcementsChannel, config.participantsRole, bot)];
    }

    method Click(user: Snowflake, press: Press) returns (reply: Option<Reply>)
      requires Valid()
      modifies this
      ensures Valid()
      ensures old(State()) != Pending ==> unchanged(this) && reply == None
      ensures old(State()) == Pending && user != originalAuthor ==>
        unchanged(this) && reply == Some(NotYourInteraction)
      ensures old(State()) == Pending && user == originalAuthor ==>
        reply == None && State() == (if press == CancelPress then Cancelled else Confirmed)
      ensures Invocations(events) == if State() == Confirmed then 1 else 0
    {
      if stopped {
        reply := None;
      } else {
        var allowed;
        allowed, reply := InteractionCheck(user);
        if allowed {
          if press == CancelPress {
            Cancel();
          } else {
            Announce();
          }
        }
      }
      TerminalInvocations(MessageEdited, Stopped, TeamsAnnounced(config.announcementsChannel, config.participantsRole, bot));
      TerminalInvocations(Stopped, MessageEdited, TeamsAnnounced(config.announcementsChannel, config.participantsRole, bot));
    }
  }

  // ---------------------------------------------------- persistent button

  /** The message a participant gets from the persistent button: their team's channel and members. */
  datatype TeamCard = TeamCard(title: string, channelField: string, membersField: string)

  class JamTeamInfoView {
    const bot: Handle
    /** `None`: the view never times out. */
    const timeout: Option<nat>
    /** The stable id under which the button survives restarts. */
    const customId: string
    const showTeamButton: Button

    constructor (bot: Handle)
      ensures this.bot == bot && timeout == None && customId == "CJ:PERS:SHOW_TEAM"
      ensures showTeamButton == Button("Show me my team!", false)
    {
      this.bot := bot;
      timeout := None;
      customId := "CJ:PERS:SHOW_TEAM";
      showTeamButton := Button("Show me my team!", false);
    }
  }

  function UserMentions(users: seq<TeamUser>): (mentions: seq<string>)
    ensures |mentions| == |users|
    ensures forall i :: 0 <= i < |users| ==> mentions[i] == Mention("<@", users[i].userId)
    decreases |users|
  {
    if users == [] then [] else [Mention("<@", users[0].userId)] + UserMentions(users[1..])
  }

  /** `show_team` on a successful lookup of the clicking user's current team. */
  function ShowTeam(current: CurrentTeam): TeamCard {
    TeamCard(
      "You have been sorted into " + current.team.name,
      Mention("<#", current.team.channelId),
      Join("\n", UserMentions(current.team.users)))
  }

  /** The channel field reads back as the team's channel id. */
  lemma ShowTeamChannel(current: CurrentTeam)
    ensures ParseMention("<#", ShowTeam(current).channelField) == Some(current.team.channelId)
    ensures ParseMention("<@", ShowTeam(current).channelField) == None
  {
    MentionRoundTrip("<#", current.team.channelId);
  }

  /** The members field is one user mention per team user, in team order, one per line. */
  lemma {:induction false} ShowTeamMembers(current: CurrentTeam)
    requires current.team.users != []
    ensures var lines := SplitLines(ShowTeam(current).membersField);
      |lines| == |current.team.users|
      && forall i :: 0 <= i < |lines| ==> ParseMention("<@", lines[i]) == Some(current.team.users[i].userId)
  {
    var users := current.team.users;
    var mentions := UserMentions(users);
    forall i | 0 <= i < |mentions| ensures '\n' !in mentions[i] {
      MentionRoundTrip("<@", users[i].userId);
    }
    JoinLinesRoundTrip(mentions);
    forall i | 0 <= i < |mentions| ensures ParseMention("<@", mentions[i]) == Some(users[i].userId) {
      MentionRoundTrip("<@", users[i].userId);
    }
  }
}
