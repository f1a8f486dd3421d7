/** The globals shared by the Lua callbacks, and the callbacks that validate
    or clamp what a Lua script asks for. A Lua number is a `real`; the C casts
    it to `int` by truncation toward zero. */
module LuaCallbacks {
  import opened Wrappers
  import opened Players

  /** The callback globals: how many automatons use them, which player the
      callbacks currently act for, and the match they were set up with
      (None until the first set-up; a match is named by an id). */
  datatype Globals = Globals(references: nat, currTeam: nat, currPlayer: nat, matchState: Option<nat>)

  const InitialGlobals: Globals := Globals(0, 0, 0, None)

  /** set_up_lua_callback_globals: the match is captured only by the first
      user; every call adds a reference. */
  function SetUp(g: Globals, matchState: nat): (r: Globals)
    ensures r.references == g.references + 1
    ensures g.references == 0 ==> r.matchState == Some(matchState)
    ensures g.references > 0 ==> r.matchState == g.matchState
    ensures r.currTeam == g.currTeam && r.currPlayer == g.currPlayer
  {
    if g.references == 0 then g.(references := 1, matchState := Some(matchState))
    else g.(references := g.references + 1)
  }

  /** destroy_lua_callback_globals: drop a reference, never below zero. */
  function Destroy(g: Globals): (r: Globals)
    ensures g.references == 0 ==> r == g
    ensures g.references > 0 ==> r.references == g.references - 1
    ensures r.matchState == g.matchState
  {
    if g.references == 0 then g else g.(references := g.references - 1)
  }

  /** Set-up followed by destroy restores the reference count. */
  lemma SetUpThenDestroy(g: Globals, m: nat)
    ensures Destroy(SetUp(g, m)).references == g.references
    ensures g.references > 0 ==> Destroy(SetUp(g, m)) == g
  {
  }

  function SetUps(g: Globals, ms: seq<nat>): Globals
    decreases |ms|
  {
    if |ms| == 0 then g else SetUps(SetUp(g, ms[0]), ms[1..])
  }

  function Destroys(g: Globals, n: nat): Globals
    decreases n
  {
    if n == 0 then g else Destroys(Destroy(g), n - 1)
  }

  /** Each automaton of a match sets the globals up once: the first match set
      up is the one the callbacks see, whatever the later calls pass, and as
      many destroys bring the count back to zero. */
  lemma {:induction false} FirstSetUpWins(g: Globals, ms: seq<nat>)
    requires |ms| > 0
    ensures SetUps(g, ms).references == g.references + |ms|
    ensures g.references == 0 ==> SetUps(g, ms).matchState == Some(ms[0])
    ensures Destroys(SetUps(g, ms), |ms|).references == g.references
    decreases |ms|
  {
    if |ms| > 1 {
      FirstSetUpWins(SetUp(g, ms[0]), ms[1..]);
      KeepsCapture(SetUp(g, ms[0]), ms[1..]);
    }
    DestroysCount(SetUps(g, ms), |ms|);
  }

  lemma {:induction false} KeepsCapture(g: Globals, ms: seq<nat>)
    requires g.references > 0
    ensures SetUps(g, ms).matchState == g.matchState
    ensures SetUps(g, ms).references == g.references + |ms|
    decreases |ms|
  {
    if |ms| > 0 {
      KeepsCapture(SetUp(g, ms[0]), ms[1..]);
    }
  }

  lemma {:induction false} DestroysCount(g: Globals, n: nat)
    ensures Destroys(g, n).references == if g.references >= n then g.references - n else 0
    ensures Destroys(g, n).matchState == g.matchState
    decreases n
  {
    if n > 0 {
      DestroysCount(Destroy(g), n - 1);
    }
  }

  /** set_lua_player: name the player the callbacks act for. */
  function SetLuaPlayer(g: Globals, team: nat, player: nat): (r: Globals)
    ensures r.currTeam == team && r.currPlayer == player
    ensures r.references == g.references && r.matchState == g.matchState
  {
    g.(currTeam := team, currPlayer := player)
  }

  /** A value on the Lua stack as `lua_isnumber` sees it: a number (a
      numeric string counts, converted as `lua_tonumber` does), or
      `NotNumber` for any value `lua_isnumber` rejects. */
  datatype LuaValue = Number(v: real) | NotNumber

  /** The C cast of a number to `int`: truncation toward zero. */
  function Truncate(x: real): (r: int)
    ensures 0.0 <= x ==> r as real <= x < r as real + 1.0
    ensures x < 0.0 ==> r as real - 1.0 < x <= r as real
  {
    if x >= 0.0 then x.Floor else -((-x).Floor)
  }

  /** The argument of a one-argument numeric callback, if the stack holds
      exactly one number. */
  function NumberArg(args: seq<LuaValue>): (r: Option<real>)
    ensures r.Some? <==> |args| == 1 && args[0].Number?
    ensures r.Some? ==> r.value == args[0].v
  {
    if |args| == 1 && args[0].Number? then Some(args[0].v) else None
  }

  /** The player the callbacks currently act for exists. */
  predicate CurrentOk(teams: seq<Team>, g: Globals) {
    |teams| == 2 && g.currTeam < 2 && g.currPlayer < |teams[g.currTeam].players|
  }

  /** lua_callback_set_desired_mark: a single number that truncates into
      [0, ppt) becomes the current player's mark; anything else is ignored. */
  function SetDesiredMark(teams: seq<Team>, ppt: nat, g: Globals, args: seq<LuaValue>): (r: seq<Team>)
    requires CurrentOk(teams, g)
    ensures NumberArg(args).None? ==> r == teams
    ensures NumberArg(args).Some? ==>
              var m := Truncate(NumberArg(args).value);
              if 0 <= m < ppt
              then r == SetPlayer(teams, g.currTeam, g.currPlayer,
                                  teams[g.currTeam].players[g.currPlayer].(markedPlayer := m))
              else r == teams
  {
    match NumberArg(args)
    case None => teams
    case Some(x) =>
      var m := Truncate(x);
      if m < 0 || m >= ppt then teams
      else
        var p := teams[g.currTeam].players[g.currPlayer];
        SetPlayer(teams, g.currTeam, g.currPlayer, p.(markedPlayer := m))
  }

  /** A mark is taken exactly when the call is well formed and in range, and
      then it is the only field of any player that changes. */
  lemma DesiredMarkChanges(teams: seq<Team>, ppt: nat, g: Globals, args: seq<LuaValue>)
    requires CurrentOk(teams, g)
    ensures var r := SetDesiredMark(teams, ppt, g, args);
      |r| == 2 &&
      r[g.currTeam].players[g.currPlayer].markedPlayer ==
        (if NumberArg(args).Some? && 0 <= Truncate(NumberArg(args).value) < ppt
         then Truncate(NumberArg(args).value)
         else teams[g.currTeam].players[g.currPlayer].markedPlayer)
    ensures var r := SetDesiredMark(teams, ppt, g, args);
      forall k, m :: 0 <= k < 2 && 0 <= m < |r[k].players| ==>
        r[k].players[m].(markedPlayer := 0) == teams[k].players[m].(markedPlayer := 0)
  {
  }

  /** A negative number above -1 truncates to 0 and so is accepted as a mark. */
  lemma SmallNegativeMarkAccepted(teams: seq<Team>, g: Globals)
    requires CurrentOk(teams, g)
    ensures SetDesiredMark(teams, 1, g, [Number(-0.5)])[g.currTeam].players[g.currPlayer].markedPlayer == 0
  {
  }

  /** Clamp a requested speed percentage into [0, 100]. */
  function ClampPercent(x: real): (r: real)
    ensures 0.0 <= r <= 100.0
    ensures 0.0 <= x <= 100.0 ==> r == x
    ensures x < 0.0 ==> r == 0.0
    ensures x > 100.0 ==> r == 100.0
  {
    if x < 0.0 then 0.0 else if x > 100.0 then 100.0 else x
  }

  /** lua_callback_set_player_speed: a single number, clamped, becomes the
      current player's speed percentage; anything else is ignored. */
  function SetPlayerSpeed(teams: seq<Team>, g: Globals, args: seq<LuaValue>): (r: seq<Team>)
    requires CurrentOk(teams, g)
    ensures NumberArg(args).None? ==> r == teams
    ensures NumberArg(args).Some? ==>
              r == SetPlayer(teams, g.currTeam, g.currPlayer,
                             teams[g.currTeam].players[g.currPlayer].(speedPercent := ClampPercent(NumberArg(args).value)))
  {
    match NumberArg(args)
    case None => teams
    case Some(x) =>
      var p := teams[g.currTeam].players[g.currPlayer];
      SetPlayer(teams, g.currTeam, g.currPlayer, p.(speedPercent := ClampPercent(x)))
  }

  /** Speeds stay in [0, 100] whatever Lua passes, and asking for the speed
      the player already has changes nothing. */
  lemma SpeedStaysInRange(teams: seq<Team>, g: Globals, args: seq<LuaValue>)
    requires CurrentOk(teams, g)
    requires 0.0 <= teams[g.currTeam].players[g.currPlayer].speedPercent <= 100.0
    ensures var r := SetPlayerSpeed(teams, g, args);
      0.0 <= r[g.currTeam].players[g.currPlayer].speedPercent <= 100.0
    ensures SetPlayerSpeed(teams, g, [Number(teams[g.currTeam].players[g.currPlayer].speedPercent)]) == teams
  {
    var p := teams[g.currTeam].players[g.currPlayer];
    assert p.(speedPercent := p.speedPercent) == p;
    assert teams[g.currTeam].players[g.currPlayer := p] == teams[g.currTeam].players;
  }

  /** One row of the table lua_callback_get_all_team_marks returns. */
  datatype MarkRow = MarkRow(key: nat, playerIndex: nat, teamIndex: nat,
                             markPlayerIndex: int, markTeamIndex: nat)

  function OtherTeam(team: nat): nat {
    if team == 0 then 1 else 0
  }

  /** lua_callback_get_all_team_marks: one row per player of the current team,
      keyed by player index plus ppt times the team index. */
  function GetAllTeamMarks(teams: seq<Team>, ppt: nat, g: Globals): (r: seq<MarkRow>)
    requires TeamsOk(teams, ppt) && g.currTeam < 2
    ensures |r| == ppt
    ensures forall ii :: 0 <= ii < ppt ==>
              r[ii].key == ii + ppt * g.currTeam
              && r[ii].playerIndex == ii && r[ii].teamIndex == g.currTeam
              && r[ii].markPlayerIndex == teams[g.currTeam].players[ii].markedPlayer
              && r[ii].markTeamIndex != g.currTeam && r[ii].markTeamIndex < 2
  {
    seq(ppt, ii requires 0 <= ii < ppt =>
      MarkRow(ii + ppt * g.currTeam, ii, g.currTeam,
              teams[g.currTeam].players[ii].markedPlayer, OtherTeam(g.currTeam)))
  }

  /** A row's key identifies its player and team: the two teams' keys occupy
      [0, ppt) and [ppt, 2 ppt), so the rows of both teams never collide. */
  lemma MarkKeysIdentify(teams: seq<Team>, ppt: nat, g: Globals, g2: Globals, i: nat, j: nat)
    requires TeamsOk(teams, ppt) && g.currTeam < 2 && g2.currTeam < 2
    requires i < ppt && j < ppt
    ensures var a := GetAllTeamMarks(teams, ppt, g)[i];
      var b := GetAllTeamMarks(teams, ppt, g2)[j];
      a.key == b.key <==> a.playerIndex == b.playerIndex && a.teamIndex == b.teamIndex
  {
    var a := GetAllTeamMarks(teams, ppt, g)[i];
    var b := GetAllTeamMarks(teams, ppt, g2)[j];
    if g.currTeam != g2.currTeam {
      assert a.key != b.key;
    }
  }
}
