/**
 * The lookup helpers of the code-jam cog: the jam categories of a guild, the
 * roles of the current jam's teams, a team's display name derived from its
 * channel name, and the search for a team channel by name or by member.
 */
module Lookup {
  import opened Wrappers
  import opened Text
  import opened Discord
  import opened Api

  // ------------------------------------------------------- jam categories

  /** `jam_categories`: the categories carrying the jam category name, in guild order. */
  function JamCategories(categories: seq<Category>, categoryName: string): (jam: seq<Category>)
    ensures |jam| <= |categories|
    ensures forall i :: 0 <= i < |jam| ==> jam[i].name == categoryName
    decreases |categories|
  {
    if categories == [] then []
    else
      var last := categories[|categories| - 1];
      JamCategories(categories[..|categories| - 1], categoryName) + (if last.name == categoryName then [last] else [])
  }

  /** A category is kept exactly when it carries the jam category name. */
  lemma {:induction false} JamCategoriesMembers(categories: seq<Category>, categoryName: string, c: Category)
    ensures c in JamCategories(categories, categoryName) <==> c in categories && c.name == categoryName
    decreases |categories|
  {
    if categories != [] {
      var init := categories[..|categories| - 1];
      assert categories == init + [categories[|categories| - 1]];
      JamCategoriesMembers(init, categoryName, c);
    }
  }

  /** The filter distributes over concatenation, so it keeps the guild's order. */
  lemma {:induction false} JamCategoriesAppend(a: seq<Category>, b: seq<Category>, categoryName: string)
    ensures JamCategories(a + b, categoryName) == JamCategories(a, categoryName) + JamCategories(b, categoryName)
    decreases |b|
  {
    if b == [] {
      assert a + b == a;
    } else {
      var init := b[..|b| - 1];
      JamCategoriesAppend(a, init, categoryName);
      assert (a + b)[..|a + b| - 1] == a + init;
      assert (a + b)[|a + b| - 1] == b[|b| - 1];
    }
  }

  // ------------------------------------------------------------ jam roles

  /** The guild roles of the given teams that the guild knows, in API order. */
  function ResolvedRoles(teams: seq<Team>, guildRoles: map<Snowflake, Role>): (roles: seq<Role>)
    ensures |roles| <= |teams|
    decreases |teams|
  {
    if teams == [] then []
    else
      var last := teams[|teams| - 1];
      ResolvedRoles(teams[..|teams| - 1], guildRoles) + (if last.roleId in guildRoles then [guildRoles[last.roleId]] else [])
  }

  /** Every team whose role id the guild knows contributes that role, and nothing else is returned. */
  lemma {:induction false} ResolvedRolesMembers(teams: seq<Team>, guildRoles: map<Snowflake, Role>, r: Role)
    ensures r in ResolvedRoles(teams, guildRoles) <==>
      exists t :: t in teams && t.roleId in guildRoles && guildRoles[t.roleId] == r
    decreases |teams|
  {
    if teams != [] {
      var init := teams[..|teams| - 1];
      var last := teams[|teams| - 1];
      assert teams == init + [last];
      ResolvedRolesMembers(init, guildRoles, r);
    }
  }

  lemma {:induction false} ResolvedRolesAppend(a: seq<Team>, b: seq<Team>, guildRoles: map<Snowflake, Role>)
    ensures ResolvedRoles(a + b, guildRoles) == ResolvedRoles(a, guildRoles) + ResolvedRoles(b, guildRoles)
    decreases |b|
  {
    if b == [] {
      assert a + b == a;
    } else {
      var init := b[..|b| - 1];
      var last := b[|b| - 1];
      var tail := if last.roleId in guildRoles then [guildRoles[last.roleId]] else [];
      ResolvedRolesAppend(a, init, guildRoles);
      assert (a + b)[..|a + b| - 1] == a + init;
      assert (a + b)[|a + b| - 1] == last;
      assert ResolvedRoles(a + b, guildRoles) == ResolvedRoles(a + init, guildRoles) + tail;
      assert ResolvedRoles(b, guildRoles) == ResolvedRoles(init, guildRoles) + tail;
    }
  }

  /**
   * `jam_roles`: `None` when `GET teams?current_jam=true` fails, otherwise
   * the roles of the returned teams that the guild resolves, in API order.
   */
  method JamRoles(response: ApiResult<seq<Team>>, guildRoles: map<Snowflake, Role>)
    returns (roles: Option<seq<Role>>)
    ensures roles.None? <==> response.Err?
    ensures response.Ok? ==> roles == Some(ResolvedRoles(response.value, guildRoles))
  {
    if response.Err? {
      return None;
    }
    var raw := response.value;
    var collected := [];
    for i := 0 to |raw|
      invariant collected == ResolvedRoles(raw[..i], guildRoles)
    {
      assert raw[..i + 1][..i] == raw[..i];
      if raw[i].roleId in guildRoles {
        collected := collected + [guildRoles[raw[i].roleId]];
      }
    }
    assert raw[..|raw|] == raw;
    roles := Some(collected);
  }

  // ------------------------------------------------------------ team name

  /** `replace("-", " ")`. */
  function Dehyphen(s: string): (r: string)
    ensures |r| == |s| && '-' !in r
    ensures forall i :: 0 <= i < |s| ==> r[i] == (if s[i] == '-' then ' ' else s[i])
  {
    seq(|s|, i requires 0 <= i < |s| => if s[i] == '-' then ' ' else s[i])
  }

  /** Python's `str.title()` over ASCII, given whether a letter precedes `s`. */
  function TitleFrom(s: string, afterLetter: bool): (r: string)
    ensures |r| == |s|
    decreases |s|
  {
    if s == [] then []
    else [if afterLetter then LowerChar(s[0]) else UpperChar(s[0])] + TitleFrom(s[1..], IsLetter(s[0]))
  }

  function Title(s: string): string {
    TitleFrom(s, false)
  }

  lemma {:induction false} TitleFromAt(s: string, afterLetter: bool, i: nat)
    requires i < |s|
    ensures TitleFrom(s, afterLetter)[i] ==
      if (if i == 0 then afterLetter else IsLetter(s[i - 1])) then LowerChar(s[i]) else UpperChar(s[i])
    decreases i
  {
    if i > 0 {
      TitleFromAt(s[1..], IsLetter(s[0]), i - 1);
      if i > 1 { assert s[1..][i - 2] == s[i - 1]; }
    }
  }

  /** A letter is upper-cased after a non-letter or at the start, lower-cased after a letter. */
  lemma TitleAt(s: string, i: nat)
    requires i < |s|
    ensures Title(s)[i] == if i > 0 && IsLetter(s[i - 1]) then LowerChar(s[i]) else UpperChar(s[i])
  {
    TitleFromAt(s, false, i);
  }

  /** `team_name`: the channel name with hyphens as spaces, title-cased. */
  function TeamName(channelName: string): (name: string)
    ensures |name| == |channelName|
    ensures '-' !in name
  {
    TitleKeepsHyphens(Dehyphen(channelName));
    Title(Dehyphen(channelName))
  }

  lemma TitleKeepsHyphens(s: string)
    ensures '-' in Title(s) <==> '-' in s
  {
    forall i | 0 <= i < |s| ensures Title(s)[i] == '-' <==> s[i] == '-' {
      TitleAt(s, i);
    }
  }

  lemma CaseMapsAbsorb(c: char)
    ensures UpperChar(UpperChar(c)) == UpperChar(c) && UpperChar(LowerChar(c)) == UpperChar(c)
    ensures LowerChar(LowerChar(c)) == LowerChar(c) && LowerChar(UpperChar(c)) == LowerChar(c)
  {
  }

  lemma {:induction false} TitleIdempotent(s: string)
    ensures Title(Title(s)) == Title(s)
  {
    var t := Title(s);
    forall i | 0 <= i < |s| ensures Title(t)[i] == t[i] {
      TitleAt(t, i);
      TitleAt(s, i);
      CaseMapsAbsorb(s[i]);
      if i > 0 {
        TitleAt(s, i - 1);
        assert IsLetter(t[i - 1]) == IsLetter(s[i - 1]);
      }
    }
  }

  /** Deriving the name twice changes nothing. */
  lemma {:induction false} TeamNameIdempotent(channelName: string)
    ensures TeamName(TeamName(channelName)) == TeamName(channelName)
  {
    var t := TeamName(channelName);
    assert Dehyphen(t) == t;
    TitleIdempotent(Dehyphen(channelName));
  }

  lemma DehyphenRocket(raw: string)
    requires raw == "team-rocket"
    ensures Dehyphen(raw) == "team rocket"
  {
    forall i | 0 <= i < 11 ensures Dehyphen(raw)[i] == "team rocket"[i] {
      assert Dehyphen(raw)[i] == if raw[i] == '-' then ' ' else raw[i];
    }
  }

  lemma TitleRocket(spaced: string)
    requires spaced == "team rocket"
    ensures Title(spaced) == "Team Rocket"
  {
    forall i | 0 <= i < 11 ensures Title(spaced)[i] == "Team Rocket"[i] {
      TitleAt(spaced, i);
    }
  }

  /** The channel `team-rocket` belongs to the team "Team Rocket". */
  lemma TeamNameExample(raw: string)
    requires raw == "team-rocket"
    ensures TeamName(raw) == "Team Rocket"
  {
    DehyphenRocket(raw);
    TitleRocket(Dehyphen(raw));
  }

  // --------------------------------------------------------- team channel

  /** What a team-channel lookup looks for: a team name, or a participant. */
  datatype Criterion = ByName(name: string) | ByMember(member: Member)

  /** The channel's name or derived team name is the string, or the member has an overwrite. */
  predicate CriterionHolds(channel: Channel, criterion: Criterion) {
    match criterion
    case ByName(n) => n == channel.name || n == TeamName(channel.name)
    case ByMember(m) => MemberTarget(m.id) in channel.overwrites
  }

  predicate Matches(channel: Channel, criterion: Criterion) {
    channel.isText && CriterionHolds(channel, criterion)
  }

  /** The channels of the categories, category by category. */
  function ChannelsOf(categories: seq<Category>): seq<Channel>
    decreases |categories|
  {
    if categories == [] then []
    else ChannelsOf(categories[..|categories| - 1]) + categories[|categories| - 1].channels
  }

  lemma {:induction false} ChannelsOfAppend(a: seq<Category>, b: seq<Category>)
    ensures ChannelsOf(a + b) == ChannelsOf(a) + ChannelsOf(b)
    decreases |b|
  {
    if b == [] {
      assert a + b == a;
    } else {
      var init := b[..|b| - 1];
      ChannelsOfAppend(a, init);
      assert (a + b)[..|a + b| - 1] == a + init;
      assert (a + b)[|a + b| - 1] == b[|b| - 1];
    }
  }

  /**
   * `team_channel`: the first matching text channel, taking jam categories
   * in guild order and channels in category order; `None` when none matches.
   */
  method TeamChannel(guild: Guild, categoryName: string, criterion: Criterion) returns (found: Option<Channel>)
    ensures var scanned := ChannelsOf(JamCategories(guild.categories, categoryName));
      found.None? <==> forall k :: 0 <= k < |scanned| ==> !Matches(scanned[k], criterion)
    ensures var scanned := ChannelsOf(JamCategories(guild.categories, categoryName));
      found.Some? ==>
        exists k :: 0 <= k < |scanned| && scanned[k] == found.value && Matches(found.value, criterion)
          && forall j :: 0 <= j < k ==> !Matches(scanned[j], criterion)
  {
    var categories := JamCategories(guild.categories, categoryName);
    for i := 0 to |categories|
      invariant forall k :: 0 <= k < |ChannelsOf(categories[..i])| ==> !Matches(ChannelsOf(categories[..i])[k], criterion)
    {
      var channels := categories[i].channels;
      ghost var before := ChannelsOf(categories[..i]);
      assert categories[..i + 1][..i] == categories[..i];
      assert ChannelsOf(categories[..i + 1]) == before + channels;
      for j := 0 to |channels|
        invariant forall k :: 0 <= k < j ==> !Matches(channels[k], criterion)
      {
        var channel := channels[j];
        if channel.isText && CriterionHolds(channel, criterion) {
          ghost var scanned := ChannelsOf(categories);
          assert categories == categories[..i + 1] + categories[i + 1..];
          ChannelsOfAppend(categories[..i + 1], categories[i + 1..]);
          assert scanned[|before| + j] == channel;
          assert Matches(scanned[|before| + j], criterion);
          assert !(forall k :: 0 <= k < |scanned| ==> !Matches(scanned[k], criterion));
          assert scanned == ChannelsOf(JamCategories(guild.categories, categoryName));
          assert forall k :: 0 <= k < |before| + j ==> !Matches(scanned[k], criterion) by {
            forall k | 0 <= k < |before| + j ensures !Matches(scanned[k], criterion) {
              if k < |before| {
                assert scanned[k] == before[k];
              } else {
                assert scanned[k] == channels[k - |before|];
              }
            }
          }
          return Some(channel);
        }
      }
      assert forall k :: 0 <= k < |before + channels| ==> !Matches((before + channels)[k], criterion) by {
        forall k | 0 <= k < |before + channels| ensures !Matches((before + channels)[k], criterion) {
          if k >= |before| { assert (before + channels)[k] == channels[k - |before|]; }
        }
      }
    }
    assert categories[..|categories|] == categories;
    found := None;
  }
}
