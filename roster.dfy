/**
 * The first half of the `create` command: choosing where the roster comes
 * from, and grouping its rows into teams. Each row names a team, a member id
 * and a leader flag; rows whose member cannot be resolved are skipped, and the
 * others are appended to their team's list in roster order. The number of
 * teams announced to the operator is the number of keys of the result.
 */
module Roster {
  import opened Wrappers
  import opened Text
  import opened Discord

  /** One roster record, with the member id already read as an integer. */
  datatype Row = Row(teamName: string, memberId: int, leaderField: string)

  datatype Entry = Entry(member: Member, isLeader: bool)

  /**
   * The `teams` dictionary: `lists` maps each team name to its entries, and
   * `order` lists the names in the order they were first inserted, which is
   * the order a Python dict iterates in.
   */
  datatype Assignment = Assignment(order: seq<string>, lists: map<string, seq<Entry>>)

  const NoTeams := Assignment([], map[])

  ghost predicate Distinct<T>(s: seq<T>) {
    forall i, j :: 0 <= i < j < |s| ==> s[i] != s[j]
  }

  /** The shape every grouping has: each key once, keys in the order, no empty team. */
  ghost predicate WellFormed(a: Assignment) {
    Distinct(a.order)
    && (forall k :: k in a.lists <==> k in a.order)
    && (forall k :: k in a.lists ==> a.lists[k] != [])
  }

  // ---------------------------------------------------------------- input

  datatype InputError = BadResponse(status: int) | MissingInput

  /** A fetched URL: status code and body text. */
  datatype Fetched = Fetched(status: int, body: string)

  /**
   * The roster text: a non-empty URL argument is fetched and wins over any
   * attachment; a non-200 answer aborts; otherwise the first attachment; with
   * neither, the command fails. `fetch` stands for the HTTP session and
   * `attachments` for the decoded attachment bodies.
   */
  function RosterText(url: Option<string>, fetch: string -> Fetched, attachments: seq<string>)
    : (r: Result<string, InputError>)
    ensures url.Some? && url.value != "" ==>
      (r.Ok? <==> fetch(url.value).status == 200)
      && (r.Ok? ==> r.value == fetch(url.value).body)
      && (r.Err? ==> r.error == BadResponse(fetch(url.value).status))
    ensures !(url.Some? && url.value != "") && attachments != [] ==> r == Ok(attachments[0])
    ensures !(url.Some? && url.value != "") && attachments == [] ==> r == Err(MissingInput)
  {
    if url.Some? && url.value != "" then
      var response := fetch(url.value);
      if response.status != 200 then Err(BadResponse(response.status)) else Ok(response.body)
    else if attachments != [] then Ok(attachments[0])
    else Err(MissingInput)
  }

  // ------------------------------------------------------------- grouping

  /** The "Team Leader" field upper-cased equals "Y". */
  function LeaderFlag(field: string): (leader: bool)
    ensures leader <==> field == "y" || field == "Y"
  {
    Upper(field) == "Y"
  }

  /** The entry a row contributes, if its member resolves. */
  function RowEntry(row: Row, resolve: int -> Option<Member>): Option<Entry> {
    match resolve(row.memberId)
    case None => None
    case Some(m) => Some(Entry(m, LeaderFlag(row.leaderField)))
  }

  /** `teams[team].append(e)` on a defaultdict of lists. */
  function Append(a: Assignment, team: string, e: Entry): Assignment {
    if team in a.lists then Assignment(a.order, a.lists[team := a.lists[team] + [e]])
    else Assignment(a.order + [team], a.lists[team := [e]])
  }

  lemma AppendWellFormed(a: Assignment, team: string, e: Entry)
    requires WellFormed(a)
    ensures WellFormed(Append(a, team, e))
    ensures team !in a.lists ==> Append(a, team, e).order == a.order + [team]
    ensures team in a.lists ==> Append(a, team, e).order == a.order
    ensures Append(a, team, e).lists[team] == EntriesOf(a, team) + [e]
    ensures forall k :: k != team ==> EntriesOf(Append(a, team, e), k) == EntriesOf(a, k)
  {
    if team !in a.lists {
      var o := a.order + [team];
      forall i, j | 0 <= i < j < |o| ensures o[i] != o[j] {
        if j == |o| - 1 { assert o[i] in a.order; }
      }
    }
  }

  /** The grouping of the rows, one row at a time in roster order. */
  function Group(rows: seq<Row>, resolve: int -> Option<Member>): (a: Assignment)
    ensures WellFormed(a)
    decreases |rows|
  {
    if rows == [] then NoTeams
    else
      var before := Group(rows[..|rows| - 1], resolve);
      var last := rows[|rows| - 1];
      match RowEntry(last, resolve)
      case None => before
      case Some(e) =>
        AppendWellFormed(before, last.teamName, e);
        Append(before, last.teamName, e)
  }

  /** The loop of `create` that fills `teams`. */
  method GroupRoster(rows: seq<Row>, resolve: int -> Option<Member>) returns (teams: Assignment)
    ensures teams == Group(rows, resolve)
  {
    teams := NoTeams;
    for i := 0 to |rows|
      invariant teams == Group(rows[..i], resolve)
    {
      assert rows[..i + 1][..i] == rows[..i];
      var row := rows[i];
      var member := resolve(row.memberId);
      if member.Some? {
        teams := Append(teams, row.teamName, Entry(member.value, LeaderFlag(row.leaderField)));
      }
    }
    assert rows[..|rows|] == rows;
  }

  // ------------------------------------------- independent reference view

  /** The resolved rows, as (team name, entry) pairs in roster order. */
  function Resolved(rows: seq<Row>, resolve: int -> Option<Member>): seq<(string, Entry)>
    decreases |rows|
  {
    if rows == [] then []
    else
      var last := rows[|rows| - 1];
      Resolved(rows[..|rows| - 1], resolve)
        + match RowEntry(last, resolve) case None => [] case Some(e) => [(last.teamName, e)]
  }

  /** The entries of the pairs that belong to `team`, in order. */
  function EntriesFor(pairs: seq<(string, Entry)>, team: string): seq<Entry>
    decreases |pairs|
  {
    if pairs == [] then []
    else
      var last := pairs[|pairs| - 1];
      EntriesFor(pairs[..|pairs| - 1], team) + (if last.0 == team then [last.1] else [])
  }

  function TeamNames(pairs: seq<(string, Entry)>): set<string>
    decreases |pairs|
  {
    if pairs == [] then {} else TeamNames(pairs[..|pairs| - 1]) + {pairs[|pairs| - 1].0}
  }

  /** `teams[team]` without inserting: the empty list for an absent key. */
  function EntriesOf(a: Assignment, team: string): seq<Entry> {
    if team in a.lists then a.lists[team] else []
  }

  function TotalEntries(a: Assignment): nat
    requires WellFormed(a)
  {
    SumLengths(a.order, a.lists)
  }

  function SumLengths(keys: seq<string>, lists: map<string, seq<Entry>>): nat
    requires forall k :: k in keys ==> k in lists
    decreases |keys|
  {
    if keys == [] then 0 else SumLengths(keys[..|keys| - 1], lists) + |lists[keys[|keys| - 1]]|
  }

  /**
   * Each team's list is exactly the resolved rows of that team, in roster
   * order; a team without resolved rows has no key.
   */
  lemma {:induction false} GroupIsFilter(rows: seq<Row>, resolve: int -> Option<Member>, team: string)
    ensures EntriesOf(Group(rows, resolve), team) == EntriesFor(Resolved(rows, resolve), team)
    ensures team in Group(rows, resolve).lists <==> EntriesFor(Resolved(rows, resolve), team) != []
    decreases |rows|
  {
    if rows != [] {
      var init := rows[..|rows| - 1];
      var last := rows[|rows| - 1];
      GroupIsFilter(init, resolve, team);
      var before := Group(init, resolve);
      var pairs := Resolved(init, resolve);
      match RowEntry(last, resolve)
      case None =>
        assert Group(rows, resolve) == before;
        assert Resolved(rows, resolve) == pairs + [];
        assert pairs + [] == pairs;
      case Some(e) =>
        var all := pairs + [(last.teamName, e)];
        AppendWellFormed(before, last.teamName, e);
        assert Group(rows, resolve) == Append(before, last.teamName, e);
        assert Resolved(rows, resolve) == all;
        assert all[..|all| - 1] == pairs;
        assert EntriesFor(all, team) == EntriesFor(pairs, team) + (if last.teamName == team then [e] else []);
    }
  }

  /** The keys are exactly the team names of the resolved rows. */
  lemma {:induction false} GroupKeys(rows: seq<Row>, resolve: int -> Option<Member>)
    ensures Group(rows, resolve).lists.Keys == TeamNames(Resolved(rows, resolve))
    decreases |rows|
  {
    if rows != [] {
      var init := rows[..|rows| - 1];
      var last := rows[|rows| - 1];
      GroupKeys(init, resolve);
      var pairs := Resolved(init, resolve);
      match RowEntry(last, resolve)
      case None =>
        assert Resolved(rows, resolve) == pairs + [];
        assert pairs + [] == pairs;
      case Some(e) =>
        var all := pairs + [(last.teamName, e)];
        assert Resolved(rows, resolve) == all;
        assert all[..|all| - 1] == pairs;
    }
  }

  /** The team names of the pairs, each once, in the order of their first occurrence. */
  function FirstOccurrences(pairs: seq<(string, Entry)>): seq<string>
    decreases |pairs|
  {
    if pairs == [] then []
    else
      var before := FirstOccurrences(pairs[..|pairs| - 1]);
      var name := pairs[|pairs| - 1].0;
      before + (if name in before then [] else [name])
  }

  /** The teams iterate in the order their names first occur among the resolved rows. */
  lemma {:induction false} GroupOrder(rows: seq<Row>, resolve: int -> Option<Member>)
    ensures Group(rows, resolve).order == FirstOccurrences(Resolved(rows, resolve))
    decreases |rows|
  {
    if rows != [] {
      var init := rows[..|rows| - 1];
      var last := rows[|rows| - 1];
      GroupOrder(init, resolve);
      var before := Group(init, resolve);
      var pairs := Resolved(init, resolve);
      match RowEntry(last, resolve)
      case None =>
        assert Group(rows, resolve) == before;
        assert Resolved(rows, resolve) == pairs + [];
        assert pairs + [] == pairs;
      case Some(e) =>
        var all := pairs + [(last.teamName, e)];
        AppendWellFormed(before, last.teamName, e);
        assert Group(rows, resolve) == Append(before, last.teamName, e);
        assert Resolved(rows, resolve) == all;
        assert all[..|all| - 1] == pairs;
        assert last.teamName in before.lists <==> last.teamName in before.order;
    }
  }

  lemma {:induction false} SumLengthsFrame(keys: seq<string>, l1: map<string, seq<Entry>>, l2: map<string, seq<Entry>>)
    requires forall k :: k in keys ==> k in l1 && k in l2 && |l1[k]| == |l2[k]|
    ensures SumLengths(keys, l1) == SumLengths(keys, l2)
    decreases |keys|
  {
    if keys != [] {
      SumLengthsFrame(keys[..|keys| - 1], l1, l2);
    }
  }

  lemma {:induction false} SumLengthsGrow(keys: seq<string>, lists: map<string, seq<Entry>>, team: string, e: Entry)
    requires forall k :: k in keys ==> k in lists
    requires Distinct(keys) && team in keys
    ensures SumLengths(keys, lists[team := lists[team] + [e]]) == SumLengths(keys, lists) + 1
    decreases |keys|
  {
    var grown := lists[team := lists[team] + [e]];
    var init := keys[..|keys| - 1];
    if keys[|keys| - 1] == team {
      assert team !in init by {
        forall i | 0 <= i < |init| ensures init[i] != team { assert init[i] == keys[i]; }
      }
      SumLengthsFrame(init, grown, lists);
    } else {
      assert team in init by {
        var i :| 0 <= i < |keys| && keys[i] == team;
        assert init[i] == team;
      }
      SumLengthsGrow(init, lists, team, e);
    }
  }

  lemma SumLengthsNewKey(keys: seq<string>, lists: map<string, seq<Entry>>, team: string, e: Entry)
    requires forall k :: k in keys ==> k in lists
    requires team !in keys
    ensures SumLengths(keys + [team], lists[team := [e]]) == SumLengths(keys, lists) + 1
  {
    var grown := lists[team := [e]];
    var all := keys + [team];
    assert all[..|all| - 1] == keys;
    SumLengthsFrame(keys, grown, lists);
  }

  lemma AppendTotal(a: Assignment, team: string, e: Entry)
    requires WellFormed(a)
    ensures WellFormed(Append(a, team, e))
    ensures TotalEntries(Append(a, team, e)) == TotalEntries(a) + 1
  {
    AppendWellFormed(a, team, e);
    if team in a.lists {
      SumLengthsGrow(a.order, a.lists, team, e);
    } else {
      SumLengthsNewKey(a.order, a.lists, team, e);
    }
  }

  /** The total number of entries is the number of resolved rows. */
  lemma {:induction false} GroupTotal(rows: seq<Row>, resolve: int -> Option<Member>)
    ensures TotalEntries(Group(rows, resolve)) == |Resolved(rows, resolve)|
    decreases |rows|
  {
    if rows != [] {
      var init := rows[..|rows| - 1];
      var last := rows[|rows| - 1];
      GroupTotal(init, resolve);
      match RowEntry(last, resolve)
      case None =>
      case Some(e) =>
        AppendTotal(Group(init, resolve), last.teamName, e);
    }
  }

  lemma {:induction false} DistinctCardinality(s: seq<string>)
    requires Distinct(s)
    ensures |set k | k in s| == |s|
    decreases |s|
  {
    if s != [] {
      var init := s[..|s| - 1];
      DistinctCardinality(init);
      assert (set k | k in s) == (set k | k in init) + {s[|s| - 1]};
      assert s[|s| - 1] !in (set k | k in init) by {
        forall i | 0 <= i < |init| ensures init[i] != s[|s| - 1] { assert init[i] == s[i]; }
      }
    }
  }

  /** The number of teams announced is the number of distinct team names among resolved rows. */
  lemma AnnouncedCount(rows: seq<Row>, resolve: int -> Option<Member>)
    ensures |Group(rows, resolve).order| == |TeamNames(Resolved(rows, resolve))|
  {
    var a := Group(rows, resolve);
    GroupKeys(rows, resolve);
    DistinctCardinality(a.order);
    assert (set k | k in a.order) == a.lists.Keys;
  }
}
