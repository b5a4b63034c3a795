/**
 * The chat-platform values the core reads. Objects that the core only passes
 * along (the command context, the bot, the guild, a callback) are opaque
 * handles; members and roles compare by id, as the platform's objects do.
 */
module Discord {
  import opened Text
  import opened Wrappers

  type Snowflake = nat

  /** An object the core passes along without looking inside it. */
  datatype Handle = Handle(id: nat)

  datatype Role = Role(id: Snowflake, name: string)

  datatype Member = Member(id: Snowflake, roles: seq<Role>)

  /** A key of a channel's permission overwrites: a role or a member. */
  datatype Target = RoleTarget(roleId: Snowflake) | MemberTarget(memberId: Snowflake)

  datatype Channel = Channel(id: Snowflake, name: string, isText: bool, overwrites: set<Target>)

  datatype Category = Category(id: Snowflake, name: string, channels: seq<Channel>)

  datatype Guild = Guild(categories: seq<Category>, roles: map<Snowflake, Role>)

  /**
   * Values the core reads from modules that are not part of this model: the
   * jam category name, the team-leader role name, the announcements channel
   * and the participants role.
   */
  datatype Config = Config(
    categoryName: string,
    leaderRoleName: string,
    announcementsChannel: Snowflake,
    participantsRole: Snowflake)

  /** The teardown snapshot: each jam category with a copy of its channel list, in guild order. */
  type Snapshot = seq<(Category, seq<Channel>)>

  /** The platform's mention syntax: `<#id>` for a channel, `<@id>` for a user. */
  function Mention(prefix: string, id: Snowflake): string {
    prefix + DecimalString(id) + ">"
  }

  function ParseMention(prefix: string, s: string): Option<Snowflake> {
    if |s| >= |prefix| + 1 && s[..|prefix|] == prefix && s[|s| - 1] == '>'
    then ParseDecimal(s[|prefix|..|s| - 1])
    else None
  }

  lemma MentionRoundTrip(prefix: string, id: Snowflake)
    ensures ParseMention(prefix, Mention(prefix, id)) == Some(id)
    ensures '\n' !in prefix ==> '\n' !in Mention(prefix, id)
  {
    var d := DecimalString(id);
    var m := Mention(prefix, id);
    assert m[..|prefix|] == prefix;
    assert m[|prefix|..|m| - 1] == d;
    DecimalRoundTrip(id);
  }
}
