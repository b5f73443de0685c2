/**
  The mock squad service: a registry of squads keyed by id, the member-table
  updates for daily goals and completed sessions, and the registry of running
  bot-update intervals. `Date.now()` and `Math.random()` draws are parameters.
*/
module SquadService {
  import opened Types
  import opened JsText

  const BotNames: seq<string> := ["User #A4B7", "User #C9D2", "User #H2G5", "User #F8K1", "User #L3M9"]

  const BotGoals: seq<string> := [
    "Deploying the new feature", "Studying for finals", "Refactoring the legacy code",
    "Writing my thesis proposal", "Reviewing pull requests"
  ]

  /** The number of bots placed in every new squad (`botNames.slice(0, 3)`). */
  const BotCount: nat := 3

  const SquadNotFound: string := "Squad not found"

  /** A value returned by `Math.random()`. */
  type Random = r: real | 0.0 <= r < 1.0 witness 0.0

  /** `Math.floor(r * n)`: an index drawn below `n`. */
  function Pick(r: Random, n: nat): (i: nat)
    requires n > 0
    ensures i < n
  {
    var x := r * (n as real);
    BelowScale(r, n as real);
    x.Floor
  }

  lemma BelowScale(r: real, m: real)
    requires 0.0 <= r < 1.0 && m > 0.0
    ensures r * m < m
  {
    assert m - r * m == (1.0 - r) * m;
  }

  /** `uid.slice(0, 4)`. */
  function UidPrefix(uid: string): (p: string)
    ensures |p| == if |uid| < 4 then |uid| else 4
    ensures p == uid[..|p|]
  {
    if |uid| < 4 then uid else uid[..4]
  }

  /** The current user's name in a squad: the display name if it is non-empty. */
  function MemberName(user: User): (name: string)
  {
    if user.displayName.Some? && user.displayName.value != "" then user.displayName.value
    else "User #" + UidPrefix(user.uid)
  }

  function SquadId(now: nat): (id: string)
  {
    "squad_" + NatToString(now)
  }

  /** The bot at position `index`, with its goal and session count drawn from `draw`. */
  function Bot(index: nat, draw: (Random, Random)): (bot: SquadMember)
    requires index < BotCount
  {
    SquadMember("bot_" + NatToString(index), BotNames[index], false,
                BotGoals[Pick(draw.0, |BotGoals|)], Pick(draw.1, 3))
  }

  /** The squad `createNewSquad` builds for `user` at time `now`. */
  function NewSquad(user: User, now: nat, draws: seq<(Random, Random)>): (created: Squad)
    requires |draws| == BotCount
  {
    var current := SquadMember(user.uid, MemberName(user), true, "", 0);
    Squad(SquadId(now), [current] + seq(BotCount, i requires 0 <= i < BotCount => Bot(i, draws[i])))
  }

  /** `members.map(m => m.id === userId ? { ...m, dailyGoal: goal } : m)`. */
  function WithGoal(members: seq<SquadMember>, userId: string, goal: string): (updated: seq<SquadMember>)
    decreases |members|
  {
    if members == [] then []
    else
      var m := members[0];
      [if m.id == userId then m.(dailyGoal := goal) else m] + WithGoal(members[1..], userId, goal)
  }

  /** `members.map(m => m.id === userId ? { ...m, completedSessions: m.completedSessions + 1 } : m)`. */
  function WithSession(members: seq<SquadMember>, userId: string): (updated: seq<SquadMember>)
    decreases |members|
  {
    if members == [] then []
    else
      var m := members[0];
      [if m.id == userId then m.(completedSessions := m.completedSessions + 1) else m]
        + WithSession(members[1..], userId)
  }

  /** What `setDailyGoal` returns, or the error it throws. */
  function GoalOutcome(squads: map<string, Squad>, squadId: string, userId: string, goal: string): (r: Result<Squad, string>)
  {
    if squadId !in squads then Err(SquadNotFound)
    else Ok(squads[squadId].(members := WithGoal(squads[squadId].members, userId, goal)))
  }

  /** What `updateProgress` returns, or the error it throws. */
  function ProgressOutcome(squads: map<string, Squad>, squadId: string, userId: string): (r: Result<Squad, string>)
  {
    if squadId !in squads then Err(SquadNotFound)
    else Ok(squads[squadId].(members := WithSession(squads[squadId].members, userId)))
  }

  /** The registry after an update that returned `r` for `squadId`. */
  function Stored(squads: map<string, Squad>, squadId: string, r: Result<Squad, string>): (stored: map<string, Squad>)
  {
    if r.Ok? then squads[squadId := r.value] else squads
  }

  predicate UniqueIds(members: seq<SquadMember>)
  {
    forall i, j | 0 <= i < j < |members| :: members[i].id != members[j].id
  }

  function TotalSessions(members: seq<SquadMember>): (total: int)
    decreases |members|
  {
    if members == [] then 0 else members[0].completedSessions + TotalSessions(members[1..])
  }

  // ---------------------------------------------------------------------
  // Properties

  /**
    A new squad holds the current user first (current, no goal, no sessions)
    and then three bots "bot_0".."bot_2", none current, each with 0 to 2
    sessions.
  */
  lemma NewSquadShape(user: User, now: nat, draws: seq<(Random, Random)>)
    requires |draws| == BotCount
    ensures var sq := NewSquad(user, now, draws);
      && sq.id == SquadId(now)
      && |sq.members| == 4
      && sq.members[0] == SquadMember(user.uid, MemberName(user), true, "", 0)
      && (forall i | 1 <= i < 4 ::
            && sq.members[i].id == "bot_" + [DigitChar(i - 1)]
            && sq.members[i].name == BotNames[i - 1]
            && !sq.members[i].isCurrentUser
            && 0 <= sq.members[i].completedSessions <= 2
            && sq.members[i].dailyGoal in BotGoals)
  {
    var sq := NewSquad(user, now, draws);
    forall i | 1 <= i < 4
      ensures sq.members[i].id == "bot_" + [DigitChar(i - 1)]
    {
      assert sq.members[i] == Bot(i - 1, draws[i - 1]);
      assert NatToString(i - 1) == [DigitChar(i - 1)];
    }
  }

  /** The squad's name for the user: the display name, else "User #" and the uid's first four characters. */
  lemma MemberNameChoice(user: User)
    ensures user.displayName.Some? && user.displayName.value != "" ==> MemberName(user) == user.displayName.value
    ensures user.displayName.None? || user.displayName.value == "" ==>
      MemberName(user) == "User #" + user.uid[..if |user.uid| < 4 then |user.uid| else 4]
  {
  }

  /** Squads created at different instants get different ids. */
  lemma SquadIdsDistinct(t1: nat, t2: nat)
    requires t1 != t2
    ensures SquadId(t1) != SquadId(t2)
  {
    if SquadId(t1) == SquadId(t2) {
      assert NatToString(t1) == SquadId(t1)[6..];
      assert NatToString(t2) == SquadId(t2)[6..];
      NatToStringInjective(t1, t2);
    }
  }

  /** Setting a goal keeps the table's length and order and changes only the goals of `userId`. */
  lemma {:induction false} WithGoalEffect(members: seq<SquadMember>, userId: string, goal: string)
    ensures var r := WithGoal(members, userId, goal);
      && |r| == |members|
      && forall i | 0 <= i < |members| ::
           r[i] == if members[i].id == userId then members[i].(dailyGoal := goal) else members[i]
    decreases |members|
  {
    if members != [] {
      WithGoalEffect(members[1..], userId, goal);
      var r := WithGoal(members, userId, goal);
      forall i | 1 <= i < |members| ensures r[i] == WithGoal(members[1..], userId, goal)[i - 1] { }
    }
  }

  /** Adding a session keeps the table's length and order and touches only the members with `userId`. */
  lemma {:induction false} WithSessionEffect(members: seq<SquadMember>, userId: string)
    ensures var r := WithSession(members, userId);
      && |r| == |members|
      && forall i | 0 <= i < |members| ::
           r[i] == if members[i].id == userId then members[i].(completedSessions := members[i].completedSessions + 1)
                   else members[i]
    decreases |members|
  {
    if members != [] {
      WithSessionEffect(members[1..], userId);
      var r := WithSession(members, userId);
      forall i | 1 <= i < |members| ensures r[i] == WithSession(members[1..], userId)[i - 1] { }
    }
  }

  /** The last goal set wins. */
  lemma {:induction false} WithGoalLastWins(members: seq<SquadMember>, userId: string, g1: string, g2: string)
    ensures WithGoal(WithGoal(members, userId, g1), userId, g2) == WithGoal(members, userId, g2)
    decreases |members|
  {
    if members != [] {
      WithGoalLastWins(members[1..], userId, g1, g2);
    }
  }

  /** The number of members carrying `userId`. */
  function CountId(members: seq<SquadMember>, userId: string): (count: nat)
    decreases |members|
  {
    if members == [] then 0 else (if members[0].id == userId then 1 else 0) + CountId(members[1..], userId)
  }

  /** A progress update adds one session for every member with `userId`: exactly one in a table with unique ids. */
  lemma {:induction false} WithSessionTotal(members: seq<SquadMember>, userId: string)
    ensures TotalSessions(WithSession(members, userId)) == TotalSessions(members) + CountId(members, userId)
    decreases |members|
  {
    if members != [] {
      WithSessionTotal(members[1..], userId);
    }
  }

  lemma {:induction false} UniqueIdCount(members: seq<SquadMember>, k: nat)
    requires UniqueIds(members) && k < |members|
    ensures CountId(members, members[k].id) == 1
    decreases |members|
  {
    if k == 0 {
      NotPresentCount(members[1..], members[0].id);
    } else {
      UniqueIdCount(members[1..], k - 1);
    }
  }

  lemma {:induction false} NotPresentCount(members: seq<SquadMember>, userId: string)
    requires forall i | 0 <= i < |members| :: members[i].id != userId
    ensures CountId(members, userId) == 0
    decreases |members|
  {
    if members != [] {
      NotPresentCount(members[1..], userId);
    }
  }

  /**
    `updateProgress` fails with "Squad not found" for an unknown squad;
    otherwise the squad keeps its id and member order, and in a table with
    unique ids the sessions grow by exactly one, for that member alone.
  */
  lemma ProgressEffect(squads: map<string, Squad>, squadId: string, userId: string, k: nat)
    ensures squadId !in squads ==> ProgressOutcome(squads, squadId, userId) == Err(SquadNotFound)
    ensures squadId in squads ==>
      var old_ := squads[squadId];
      var r := ProgressOutcome(squads, squadId, userId);
      && r.Ok? && r.value.id == old_.id && |r.value.members| == |old_.members|
      && (UniqueIds(old_.members) && k < |old_.members| && old_.members[k].id == userId ==>
            TotalSessions(r.value.members) == TotalSessions(old_.members) + 1
            && r.value.members[k].completedSessions == old_.members[k].completedSessions + 1)
  {
    if squadId in squads {
      var ms := squads[squadId].members;
      WithSessionEffect(ms, userId);
      WithSessionTotal(ms, userId);
      if UniqueIds(ms) && k < |ms| && ms[k].id == userId {
        UniqueIdCount(ms, k);
      }
    }
  }

  /** `setDailyGoal` fails for an unknown squad and otherwise changes only the goal of `userId`. */
  lemma GoalEffect(squads: map<string, Squad>, squadId: string, userId: string, goal: string)
    ensures squadId !in squads ==> GoalOutcome(squads, squadId, userId, goal) == Err(SquadNotFound)
    ensures squadId in squads ==>
      var old_ := squads[squadId];
      var r := GoalOutcome(squads, squadId, userId, goal);
      && r == Ok(old_.(members := WithGoal(old_.members, userId, goal)))
      && r.value.id == old_.id && |r.value.members| == |old_.members|
      && forall i | 0 <= i < |old_.members| ::
           r.value.members[i] == if old_.members[i].id == userId then old_.members[i].(dailyGoal := goal) else old_.members[i]
  {
    if squadId in squads {
      WithGoalEffect(squads[squadId].members, userId, goal);
    }
  }

  /** The module-level registries of the squad service. */
  class SquadStore {
    var squads: map<string, Squad>
    var botIntervals: set<int>

    constructor()
      ensures squads == map[] && botIntervals == {}
    {
      squads := map[];
      botIntervals := {};
    }

    /** `createNewSquad`: builds the squad and registers it under its id. */
    method CreateNewSquad(user: User, now: nat, draws: seq<(Random, Random)>) returns (squad: Squad)
      requires |draws| == BotCount
      modifies this
      ensures squad == NewSquad(user, now, draws)
      ensures squads == old(squads)[squad.id := squad]
      ensures botIntervals == old(botIntervals)
    {
      squad := NewSquad(user, now, draws);
      squads := squads[squad.id := squad];
    }

    /** `joinSquad`: always a new squad, whose id is recorded on the user. */
    method JoinSquad(user: User, now: nat, draws: seq<(Random, Random)>) returns (squad: Squad, joined: User)
      requires |draws| == BotCount
      modifies this
      ensures squad == NewSquad(user, now, draws)
      ensures squads == old(squads)[squad.id := squad] && squad.id in squads
      ensures joined == user.(squadId := Some(squad.id))
      ensures botIntervals == old(botIntervals)
    {
      squad := CreateNewSquad(user, now, draws);
      joined := user.(squadId := Some(squad.id));
    }

    method SetDailyGoal(squadId: string, userId: string, goal: string) returns (r: Result<Squad, string>)
      modifies this
      ensures r == GoalOutcome(old(squads), squadId, userId, goal)
      ensures squads == Stored(old(squads), squadId, r)
      ensures botIntervals == old(botIntervals)
    {
      if squadId !in squads {
        return Err(SquadNotFound);
      }
      var squad := squads[squadId];
      squad := squad.(members := WithGoal(squad.members, userId, goal));
      squads := squads[squadId := squad];
      r := Ok(squad);
    }

    method UpdateProgress(squadId: string, userId: string) returns (r: Result<Squad, string>)
      modifies this
      ensures r == ProgressOutcome(old(squads), squadId, userId)
      ensures squads == Stored(old(squads), squadId, r)
      ensures botIntervals == old(botIntervals)
    {
      if squadId !in squads {
        return Err(SquadNotFound);
      }
      var squad := squads[squadId];
      squad := squad.(members := WithSession(squad.members, userId));
      squads := squads[squadId := squad];
      r := Ok(squad);
    }

    /** Registers the interval handle `intervalId` (from `window.setInterval`) and returns it. */
    method StartBotUpdates(squadId: string, intervalId: int) returns (id: int)
      modifies this
      ensures id == intervalId
      ensures botIntervals == old(botIntervals) + {intervalId}
      ensures squads == old(squads)
    {
      botIntervals := botIntervals + {intervalId};
      id := intervalId;
    }

    method StopBotUpdates(intervalId: int)
      modifies this
      ensures botIntervals == old(botIntervals) - {intervalId}
      ensures squads == old(squads)
    {
      botIntervals := botIntervals - {intervalId};
    }
  }
}
