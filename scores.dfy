/** The score store: per guild, per user, cumulative game statistics (scores_data). */
module Scores {
  import opened Types

  /** One player's statistics in one guild. Python ints, so every field is an unbounded int. */
  datatype PlayerStats = PlayerStats(
    username: string,
    points: int,
    wins: int,
    losses: int,
    ties: int,
    gamesPlayed: int)

  /** scores_data: guild, then user, to statistics. */
  type ScoreTable = map<GuildId, map<UserId, PlayerStats>>

  /** The record a user starts from: every counter zero. */
  function ZeroStats(name: string): (r: PlayerStats) {
    PlayerStats(name, 0, 0, 0, 0, 0)
  }

  /** The games identity every record created by the bot keeps. */
  predicate Consistent(p: PlayerStats) {
    p.gamesPlayed == p.wins + p.losses + p.ties
  }

  /** Every stored record keeps the games identity. */
  ghost predicate WellCounted(s: ScoreTable) {
    forall g, u :: g in s && u in s[g] ==> Consistent(s[g][u])
  }

  /** The three outcome names the bot ever passes to the update. */
  predicate KnownOutcome(outcome: string) {
    outcome == "win" || outcome == "loss" || outcome == "tie"
  }

  /** get_player_stats: a copy of the stored record, or a zeroed record named "Unknown"
      when the guild or the user has none. It never adds an entry. */
  function GetPlayerStats(s: ScoreTable, g: GuildId, u: UserId): (r: PlayerStats)
  {
    if g in s && u in s[g] then s[g][u] else ZeroStats("Unknown")
  }

  /** A user with no record in the guild reads as a zeroed record named "Unknown", and a
      lookup in a well-counted table always returns a record with the games identity. */
  lemma LookupDefault(s: ScoreTable, g: GuildId, u: UserId)
    ensures !(g in s && u in s[g]) ==>
      var p := GetPlayerStats(s, g, u);
      p.username == "Unknown" && p.points == 0 && p.gamesPlayed == 0 && p.wins == 0 && p.losses == 0 && p.ties == 0
    ensures WellCounted(s) ==> Consistent(GetPlayerStats(s, g, u))
  {
  }

  /** The change one resolved game makes to a record: rename, add the delta, count the game
      and the counter the outcome names (no counter for any other string). */
  function Credit(p: PlayerStats, name: string, outcome: string, delta: int): (r: PlayerStats) {
    PlayerStats(
      name,
      p.points + delta,
      p.wins + (if outcome == "win" then 1 else 0),
      p.losses + (if outcome == "loss" then 1 else 0),
      p.ties + (if outcome == "tie" then 1 else 0),
      p.gamesPlayed + 1)
  }

  /** update_player_stats as a function of the whole table: the record at (g, u) is created if
      absent and credited with the game; every other record is left as it was. */
  function UpdatePlayerStats(s: ScoreTable, g: GuildId, u: UserId, name: string, outcome: string, delta: int)
    : (r: ScoreTable)
    ensures g in r && u in r[g]
    ensures forall g' :: g' in r <==> g' in s || g' == g
    ensures forall u' :: u' in r[g] <==> (g in s && u' in s[g]) || u' == u
    ensures r[g][u] == Credit(if g in s && u in s[g] then s[g][u] else ZeroStats(name), name, outcome, delta)
    ensures forall g' :: g' in s && g' != g ==> r[g'] == s[g']
    ensures forall u' :: g in s && u' in s[g] && u' != u ==> r[g][u'] == s[g][u']
  {
    var users: map<UserId, PlayerStats> := if g in s then s[g] else map[];
    var before := if u in users then users[u] else ZeroStats(name);
    s[g := users[u := Credit(before, name, outcome, delta)]]
  }

  /** Reading back the updated record (the round trip): it carries the given name, its
      points moved by exactly the delta, one more game, and one more in exactly the counter
      the outcome names. */
  lemma LookupAfterUpdate(s: ScoreTable, g: GuildId, u: UserId, name: string, outcome: string, delta: int)
    ensures var before, after := GetPlayerStats(s, g, u), GetPlayerStats(UpdatePlayerStats(s, g, u, name, outcome, delta), g, u);
      && after.username == name
      && after.points == before.points + delta
      && after.gamesPlayed == before.gamesPlayed + 1
      && after.wins == before.wins + (if outcome == "win" then 1 else 0)
      && after.losses == before.losses + (if outcome == "loss" then 1 else 0)
      && after.ties == before.ties + (if outcome == "tie" then 1 else 0)
  {
    var r := UpdatePlayerStats(s, g, u, name, outcome, delta);
    var before := GetPlayerStats(s, g, u);
    var after := GetPlayerStats(r, g, u);
    assert after == r[g][u];
    if g in s && u in s[g] {
      assert after == Credit(before, name, outcome, delta);
    } else {
      assert after == Credit(ZeroStats(name), name, outcome, delta);
      assert before == ZeroStats("Unknown");
    }
  }

  /** An update is invisible to a read of any other (guild, user). */
  lemma LookupElsewhereAfterUpdate(s: ScoreTable, g: GuildId, u: UserId, name: string, outcome: string, delta: int,
                                   g': GuildId, u': UserId)
    requires g' != g || u' != u
    ensures GetPlayerStats(UpdatePlayerStats(s, g, u, name, outcome, delta), g', u') == GetPlayerStats(s, g', u')
  {
    var r := UpdatePlayerStats(s, g, u, name, outcome, delta);
    if g' != g {
      assert (g' in r) == (g' in s);
      if g' in s { assert r[g'] == s[g']; }
    } else {
      assert (u' in r[g]) == (g in s && u' in s[g]);
      if g in s && u' in s[g] { assert r[g][u'] == s[g][u']; }
    }
  }

  /** An update keeps the games identity of a consistent record exactly when its outcome is
      one of the three known names; the zeroed record is consistent to begin with. */
  lemma UpdateKeepsGamesIdentity(s: ScoreTable, g: GuildId, u: UserId, name: string, outcome: string, delta: int)
    requires g in s && u in s[g] ==> Consistent(s[g][u])
    ensures Consistent(UpdatePlayerStats(s, g, u, name, outcome, delta)[g][u]) <==> KnownOutcome(outcome)
  {
    var before := if g in s && u in s[g] then s[g][u] else ZeroStats(name);
    CreditGamesIdentity(before, name, outcome, delta);
  }

  /** Crediting a consistent record keeps it consistent exactly when the outcome names one
      of the three counters. */
  lemma CreditGamesIdentity(p: PlayerStats, name: string, outcome: string, delta: int)
    requires Consistent(p)
    ensures Consistent(Credit(p, name, outcome, delta)) <==> KnownOutcome(outcome)
  {}
  /** One call of update_player_stats, as data. */
  datatype StatUpdate = StatUpdate(guild: GuildId, user: UserId, name: string, outcome: string, delta: int)

  /** The table after a sequence of updates, applied in order. */
  function ApplyUpdates(s: ScoreTable, ups: seq<StatUpdate>): (r: ScoreTable)
    decreases |ups|
  {
    if ups == [] then s
    else
      var up := ups[0];
      ApplyUpdates(UpdatePlayerStats(s, up.guild, up.user, up.name, up.outcome, up.delta), ups[1..])
  }

  /** The updates of a sequence that touch (g, u). */
  function UpdatesFor(ups: seq<StatUpdate>, g: GuildId, u: UserId): (r: seq<StatUpdate>)
    decreases |ups|
  {
    if ups == [] then []
    else (if ups[0].guild == g && ups[0].user == u then [ups[0]] else []) + UpdatesFor(ups[1..], g, u)
  }

  /** The sum of the point deltas of a sequence of updates. */
  function TotalDelta(ups: seq<StatUpdate>): (r: int)
    decreases |ups|
  {
    if ups == [] then 0 else ups[0].delta + TotalDelta(ups[1..])
  }

  /** Two updates in a row, as a sequence. */
  lemma ApplyTwoUpdates(s: ScoreTable, a: StatUpdate, b: StatUpdate)
    ensures ApplyUpdates(s, [a, b]) ==
      UpdatePlayerStats(UpdatePlayerStats(s, a.guild, a.user, a.name, a.outcome, a.delta),
                        b.guild, b.user, b.name, b.outcome, b.delta)
  {
    var s1 := UpdatePlayerStats(s, a.guild, a.user, a.name, a.outcome, a.delta);
    var s2 := UpdatePlayerStats(s1, b.guild, b.user, b.name, b.outcome, b.delta);
    assert [a, b][1..] == [b];
    assert [b][1..] == [];
    assert ApplyUpdates(s1, [b]) == ApplyUpdates(s2, []);
  }

  /** After any sequence of updates whose outcomes are known names, every record of a
      well-counted table still has games_played == wins + losses + ties. */
  lemma {:induction false} UpdatesKeepWellCounted(s: ScoreTable, ups: seq<StatUpdate>)
    requires WellCounted(s)
    requires forall i :: 0 <= i < |ups| ==> KnownOutcome(ups[i].outcome)
    ensures WellCounted(ApplyUpdates(s, ups))
    decreases |ups|
  {
    if ups != [] {
      var up := ups[0];
      var s1 := UpdatePlayerStats(s, up.guild, up.user, up.name, up.outcome, up.delta);
      forall g, u | g in s1 && u in s1[g] ensures Consistent(s1[g][u]) {
        if g == up.guild && u == up.user {
          UpdateKeepsGamesIdentity(s, g, u, up.name, up.outcome, up.delta);
        } else if g == up.guild {
          assert s1[g][u] == s[g][u];
        } else {
          assert s1[g] == s[g];
        }
      }
      UpdatesKeepWellCounted(s1, ups[1..]);
    }
  }

  /** Counters only grow: after any sequence of updates, (g, u) has played exactly one more game
      per update addressed to it, its points moved by exactly those updates' deltas, and none of
      its win, loss or tie counters went down. */
  lemma {:induction false} UpdatesOnlyAdd(s: ScoreTable, ups: seq<StatUpdate>, g: GuildId, u: UserId)
    ensures var before, after := GetPlayerStats(s, g, u), GetPlayerStats(ApplyUpdates(s, ups), g, u);
      && after.gamesPlayed == before.gamesPlayed + |UpdatesFor(ups, g, u)|
      && after.points == before.points + TotalDelta(UpdatesFor(ups, g, u))
      && after.wins >= before.wins && after.losses >= before.losses && after.ties >= before.ties
    decreases |ups|
  {
    if ups != [] {
      var up := ups[0];
      var s1 := UpdatePlayerStats(s, up.guild, up.user, up.name, up.outcome, up.delta);
      if up.guild == g && up.user == u {
        LookupAfterUpdate(s, g, u, up.name, up.outcome, up.delta);
      } else {
        LookupElsewhereAfterUpdate(s, up.guild, up.user, up.name, up.outcome, up.delta, g, u);
      }
      UpdatesOnlyAdd(s1, ups[1..], g, u);
      var head := if up.guild == g && up.user == u then [up] else [];
      assert UpdatesFor(ups, g, u) == head + UpdatesFor(ups[1..], g, u);
      TotalDeltaAppend(head, UpdatesFor(ups[1..], g, u));
    }
  }

  lemma {:induction false} TotalDeltaAppend(a: seq<StatUpdate>, b: seq<StatUpdate>)
    ensures TotalDelta(a + b) == TotalDelta(a) + TotalDelta(b)
    decreases |a|
  {
    if a == [] {
      assert a + b == b;
    } else {
      assert (a + b)[0] == a[0];
      assert (a + b)[1..] == a[1..] + b;
      TotalDeltaAppend(a[1..], b);
    }
  }

  /** The score store object: scores_data, updated in place. Saving to scores.json after each
      update is file I/O outside the model. */
  class ScoreStore {
    var scores: ScoreTable

    /** The store before any game (a missing or corrupt scores.json also starts it empty). */
    constructor ()
      ensures scores == map[]
    {
      scores := map[];
    }

    /** update_player_stats: start from the user's record, or a zeroed one (in an empty guild
        map) when absent, overwrite the name, add the delta, count the game and the outcome's
        counter, and store the record back. */
    method Update(g: GuildId, u: UserId, name: string, outcome: string, delta: int)
      modifies this
      ensures scores == UpdatePlayerStats(old(scores), g, u, name, outcome, delta)
    {
      var users: map<UserId, PlayerStats> := if g in scores then scores[g] else map[];
      var pd := if u in users then users[u] else ZeroStats(name);
      pd := pd.(username := name);
      pd := pd.(points := pd.points + delta);
      pd := pd.(gamesPlayed := pd.gamesPlayed + 1);
      if outcome == "win" {
        pd := pd.(wins := pd.wins + 1);
      } else if outcome == "loss" {
        pd := pd.(losses := pd.losses + 1);
      } else if outcome == "tie" {
        pd := pd.(ties := pd.ties + 1);
      }
      scores := scores[g := users[u := pd]];
    }
  }
}
