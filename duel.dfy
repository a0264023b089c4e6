/** run_game_flow after /accept: the role draw, the collection of both players' numbers by
    direct message, the scoring and the final cleanup. The two collections race each other in
    the bot; here each player's side of the exchange is a value (the messages that reach the
    bot inside the response window) and the race is reduced to its result: both numbers, or
    at least one failure, which cancels the duel. */
module Duel {
  import opened Types
  import opened Scores
  import opened Registry
  import opened Answers
  import opened Resolver

  /** A message the bot receives: who wrote it, in which channel, and its text. */
  datatype Message = Message(author: UserId, channel: ChannelId, content: string)

  /** A player's direct-message exchange: either the prompt could not be delivered (direct
      messages disabled, or an HTTP error), or it was, in the given DM channel, and these are
      the messages the bot received before the timeout, in order. */
  datatype DmExchange = Undeliverable | Delivered(dmChannel: ChannelId, inbox: seq<Message>)

  /** A player of the game: id, display string used as the stored username, and their DMs. */
  datatype Player = Player(id: UserId, name: string, dm: DmExchange)

  /** check_msg: the player is still awaiting numbers, the message is theirs, sent in their
      DM channel, and its content is a valid answer. */
  predicate CheckMsg(d: Duels, player: UserId, dmChannel: ChannelId, m: Message) {
    && player in d && d[player].state == AwaitingNumbers
    && m.author == player && m.channel == dmChannel
    && IsAnswer(m.content)
  }

  /** bot.wait_for with check_msg: the position of the first received message the check
      accepts, or None when none is accepted before the timeout. */
  function FirstAccepted(d: Duels, player: UserId, dmChannel: ChannelId, inbox: seq<Message>): (r: Option<nat>)
    ensures r.Some? ==>
      && r.value < |inbox|
      && CheckMsg(d, player, dmChannel, inbox[r.value])
      && (forall j :: 0 <= j < r.value ==> !CheckMsg(d, player, dmChannel, inbox[j]))
    ensures r.None? <==> forall j :: 0 <= j < |inbox| ==> !CheckMsg(d, player, dmChannel, inbox[j])
    decreases |inbox|
  {
    if inbox == [] then None
    else if CheckMsg(d, player, dmChannel, inbox[0]) then Some(0)
    else
      match FirstAccepted(d, player, dmChannel, inbox[1..])
      case None => None
      case Some(i) => Some(i + 1)
  }

  /** What get_player_number_via_dm hands back. */
  datatype PlayerReply =
    | Chosen(value: int)  // the number of the first accepted reply
    | NotAwaiting         // the player's record was not awaiting numbers: None
    | DmFailed            // the prompt could not be delivered
    | TimedOut            // nothing acceptable arrived in time

  /** get_player_number_via_dm for one player, given the registry during the collection. */
  function ReplyOf(d: Duels, player: UserId, dm: DmExchange): (r: PlayerReply)
    ensures r.Chosen? <==>
      && player in d && d[player].state == AwaitingNumbers && dm.Delivered?
      && exists i :: 0 <= i < |dm.inbox| && CheckMsg(d, player, dm.dmChannel, dm.inbox[i])
    ensures r.Chosen? ==>
      && 1 <= r.value <= MaxNumber
      && r.value == AnswerValue(dm.inbox[FirstAccepted(d, player, dm.dmChannel, dm.inbox).value].content)
    ensures r == DmFailed <==> player in d && d[player].state == AwaitingNumbers && dm.Undeliverable?
    ensures r == TimedOut <==>
      player in d && d[player].state == AwaitingNumbers && dm.Delivered? &&
      FirstAccepted(d, player, dm.dmChannel, dm.inbox).None?
    ensures r == NotAwaiting <==> !(player in d && d[player].state == AwaitingNumbers)
  {
    if !(player in d && d[player].state == AwaitingNumbers) then NotAwaiting
    else
      match dm
      case Undeliverable => DmFailed
      case Delivered(ch, inbox) =>
        match FirstAccepted(d, player, ch, inbox)
        case Some(i) => Chosen(AnswerValue(inbox[i].content))
        case None => TimedOut
  }

  /** A message the check refuses, received before the others, changes nothing: other
      users' messages, other channels and invalid replies are ignored. */
  lemma RefusedMessageIgnored(d: Duels, player: UserId, ch: ChannelId, m: Message, inbox: seq<Message>)
    requires !CheckMsg(d, player, ch, m)
    ensures ReplyOf(d, player, Delivered(ch, [m] + inbox)) == ReplyOf(d, player, Delivered(ch, inbox))
  {
    assert ([m] + inbox)[1..] == inbox;
  }

  /** How run_game_flow ends. */
  datatype GameResult =
    | NotStarted(reason: StartReply)  // entry guard failed or roles could not be announced
    | GameAbandoned                   // a DM failed or a player timed out: duel cancelled
    | Completed(dropper: UserId, checker: UserId, dropperChoice: int, checkerChoice: int,
                resolution: Resolution)

  /** The registry, the score table and the result a game leaves. */
  datatype Played = Played(duels: Duels, scores: ScoreTable, result: GameResult)

  /** The two score updates of a resolved game, dropper first. */
  function GameUpdates(guild: GuildId, dropper: Player, checker: Player, res: Resolution): (ups: seq<StatUpdate>)
    ensures |ups| == 2 && ups[0].user == dropper.id && ups[1].user == checker.id
    ensures forall i :: 0 <= i < |ups| ==> ups[i].guild == guild && KnownOutcome(ups[i].outcome)
  {
    [StatUpdate(guild, dropper.id, dropper.name, OutcomeName(res.dropperOutcome), res.dropperDelta),
     StatUpdate(guild, checker.id, checker.name, OutcomeName(res.checkerOutcome), res.checkerDelta)]
  }

  /** run_game_flow. guild: the guild of the channel /accept was issued in; p1: the accepting
      player, p2: the challenger; dropperIsP1: the outcome of the random role draw;
      rolesAnnounced: the role announcement was sent. */
  function PlayGame(d: Duels, s: ScoreTable, guild: GuildId, p1: Player, p2: Player,
                    dropperIsP1: bool, rolesAnnounced: bool): (r: Played)
    ensures r.duels == RemovePair(d, p1.id, p2.id)
    ensures r.result.NotStarted? <==> !(ReadyForRoles(d, p1.id, p2.id) && rolesAnnounced)
    ensures r.result.NotStarted? ==> r.result.reason == BeginGame(d, p1.id, p2.id, rolesAnnounced).reply
    ensures !r.result.Completed? ==> r.scores == s
    ensures r.result.Completed? <==>
      var dropper, checker := if dropperIsP1 then p1 else p2, if dropperIsP1 then p2 else p1;
      var started := BeginGame(d, p1.id, p2.id, rolesAnnounced).duels;
      && ReadyForRoles(d, p1.id, p2.id) && rolesAnnounced
      && ReplyOf(started, dropper.id, dropper.dm).Chosen? && ReplyOf(started, checker.id, checker.dm).Chosen?
    ensures r.result.Completed? ==>
      var dropper, checker := if dropperIsP1 then p1 else p2, if dropperIsP1 then p2 else p1;
      var started := BeginGame(d, p1.id, p2.id, rolesAnnounced).duels;
      && ReadyForRoles(d, p1.id, p2.id) && rolesAnnounced
      && r.result.dropper == dropper.id && r.result.checker == checker.id
      && ReplyOf(started, dropper.id, dropper.dm) == Chosen(r.result.dropperChoice)
      && ReplyOf(started, checker.id, checker.dm) == Chosen(r.result.checkerChoice)
      && 1 <= r.result.dropperChoice <= MaxNumber && 1 <= r.result.checkerChoice <= MaxNumber
      && r.result.resolution == Resolve(r.result.dropperChoice, r.result.checkerChoice)
      && r.scores == ApplyUpdates(s, GameUpdates(guild, dropper, checker, r.result.resolution))
  {
    var start := BeginGame(d, p1.id, p2.id, rolesAnnounced);
    if start.reply != Started then Played(start.duels, s, NotStarted(start.reply))
    else
      var dropper, checker := if dropperIsP1 then p1 else p2, if dropperIsP1 then p2 else p1;
      var rd, rc := ReplyOf(start.duels, dropper.id, dropper.dm), ReplyOf(start.duels, checker.id, checker.dm);
      RemoveAfterPromote(d, p1.id, p2.id, AwaitingNumbers);
      assert start.duels == Promote(d, p1.id, p2.id, AwaitingNumbers);
      if !(rd.Chosen? && rc.Chosen?) then Played(RemovePair(start.duels, p1.id, p2.id), s, GameAbandoned)
      else
        var res := Resolve(rd.value, rc.value);
        Played(RemovePair(start.duels, p1.id, p2.id), ApplyUpdates(s, GameUpdates(guild, dropper, checker, res)),
               Completed(dropper.id, checker.id, rd.value, rc.value, res))
  }

  /** Once the entry guard passes, both players are awaiting numbers for the whole collection:
      a player whose DM was delivered and who sent a valid number gets it counted. */
  lemma StartedPlayersAwaitNumbers(d: Duels, p1: UserId, p2: UserId)
    requires ReadyForRoles(d, p1, p2)
    ensures var started := BeginGame(d, p1, p2, true);
      started.reply == Started &&
      p1 in started.duels && started.duels[p1].state == AwaitingNumbers &&
      p2 in started.duels && started.duels[p2].state == AwaitingNumbers
  {
  }

  /** A game keeps the registry paired. */
  lemma PlayGameKeepsPaired(d: Duels, s: ScoreTable, guild: GuildId, p1: Player, p2: Player,
                            dropperIsP1: bool, rolesAnnounced: bool)
    requires Paired(d) && PairOrAbsent(d, p1.id, p2.id)
    ensures Paired(PlayGame(d, s, guild, p1, p2, dropperIsP1, rolesAnnounced).duels)
  {
    RemovePairKeepsPaired(d, p1.id, p2.id);
  }

  /** A game keeps every stored record's games identity. */
  lemma PlayGameKeepsWellCounted(d: Duels, s: ScoreTable, guild: GuildId, p1: Player, p2: Player,
                                 dropperIsP1: bool, rolesAnnounced: bool)
    requires WellCounted(s)
    ensures WellCounted(PlayGame(d, s, guild, p1, p2, dropperIsP1, rolesAnnounced).scores)
  {
    var r := PlayGame(d, s, guild, p1, p2, dropperIsP1, rolesAnnounced);
    if r.result.Completed? {
      var dropper, checker := if dropperIsP1 then p1 else p2, if dropperIsP1 then p2 else p1;
      UpdatesKeepWellCounted(s, GameUpdates(guild, dropper, checker, r.result.resolution));
    }
  }

  /** The updates of a game between two distinct players that address (g, u): the dropper's
      for the dropper, the checker's for the checker, none for anyone else. */
  lemma GameUpdatesFor(guild: GuildId, dropper: Player, checker: Player, res: Resolution, g: GuildId, u: UserId)
    requires dropper.id != checker.id
    ensures var ups := GameUpdates(guild, dropper, checker, res);
      UpdatesFor(ups, g, u) ==
        if g == guild && u == dropper.id then [ups[0]]
        else if g == guild && u == checker.id then [ups[1]]
        else []
  {
    var ups := GameUpdates(guild, dropper, checker, res);
    assert ups[1..][1..] == [];
    assert UpdatesFor(ups[1..], g, u) == (if g == guild && u == checker.id then [ups[1]] else []);
  }

  /** The score effect of a completed game between two distinct players: each one's record
      in the game's guild carries that player's name, gained one game and exactly that side's
      points, and exactly the counter that side's outcome names rose by one; every other
      record reads as before. */
  lemma GameScoreEffect(s: ScoreTable, guild: GuildId, dropper: Player, checker: Player, res: Resolution,
                        g: GuildId, u: UserId)
    requires dropper.id != checker.id
    ensures var before, after := GetPlayerStats(s, g, u), GetPlayerStats(ApplyUpdates(s, GameUpdates(guild, dropper, checker, res)), g, u);
      && (g == guild && u == dropper.id ==>
            && after.username == dropper.name
            && after.points == before.points + res.dropperDelta && after.gamesPlayed == before.gamesPlayed + 1
            && after.wins == before.wins + (if res.dropperOutcome == Win then 1 else 0)
            && after.losses == before.losses + (if res.dropperOutcome == Loss then 1 else 0)
            && after.ties == before.ties + (if res.dropperOutcome == Tie then 1 else 0))
      && (g == guild && u == checker.id ==>
            && after.username == checker.name
            && after.points == before.points + res.checkerDelta && after.gamesPlayed == before.gamesPlayed + 1
            && after.wins == before.wins + (if res.checkerOutcome == Win then 1 else 0)
            && after.losses == before.losses + (if res.checkerOutcome == Loss then 1 else 0)
            && after.ties == before.ties + (if res.checkerOutcome == Tie then 1 else 0))
      && (g != guild || (u != dropper.id && u != checker.id) ==> after == before)
  {
    var ups := GameUpdates(guild, dropper, checker, res);
    var od, oc := ups[0].outcome, ups[1].outcome;
    var s1 := UpdatePlayerStats(s, guild, dropper.id, dropper.name, od, ups[0].delta);
    ApplyTwoUpdates(s, ups[0], ups[1]);
    OutcomeNameSelects(res.dropperOutcome);
    OutcomeNameSelects(res.checkerOutcome);
    if g == guild && u == dropper.id {
      LookupAfterUpdate(s, guild, dropper.id, dropper.name, od, ups[0].delta);
      LookupElsewhereAfterUpdate(s1, guild, checker.id, checker.name, oc, ups[1].delta, g, u);
    } else if g == guild && u == checker.id {
      LookupElsewhereAfterUpdate(s, guild, dropper.id, dropper.name, od, ups[0].delta, g, u);
      LookupAfterUpdate(s1, guild, checker.id, checker.name, oc, ups[1].delta);
    } else {
      GameUpdatesLeaveOthers(s, guild, dropper, checker, res, g, u);
    }
  }

  /** A record no update of the game addresses reads as before. */
  lemma GameUpdatesLeaveOthers(s: ScoreTable, guild: GuildId, dropper: Player, checker: Player, res: Resolution,
                               g: GuildId, u: UserId)
    requires g != guild || (u != dropper.id && u != checker.id)
    ensures GetPlayerStats(ApplyUpdates(s, GameUpdates(guild, dropper, checker, res)), g, u) == GetPlayerStats(s, g, u)
  {
    var ups := GameUpdates(guild, dropper, checker, res);
    var s1 := UpdatePlayerStats(s, guild, dropper.id, dropper.name, ups[0].outcome, ups[0].delta);
    ApplyTwoUpdates(s, ups[0], ups[1]);
    LookupElsewhereAfterUpdate(s, guild, dropper.id, dropper.name, ups[0].outcome, ups[0].delta, g, u);
    LookupElsewhereAfterUpdate(s1, guild, checker.id, checker.name, ups[1].outcome, ups[1].delta, g, u);
  }

  /** run_game_flow performed on the registry object and the score store in place. */
  method RunGameFlow(table: DuelTable, store: ScoreStore, guild: GuildId, p1: Player, p2: Player,
                     dropperIsP1: bool, rolesAnnounced: bool) returns (result: GameResult)
    modifies table, store
    ensures var r := PlayGame(old(table.duels), old(store.scores), guild, p1, p2, dropperIsP1, rolesAnnounced);
      table.duels == r.duels && store.scores == r.scores && result == r.result
  {
    ghost var r := PlayGame(table.duels, store.scores, guild, p1, p2, dropperIsP1, rolesAnnounced);
    var start := table.StartGame(p1.id, p2.id, rolesAnnounced);
    if start != Started {
      return NotStarted(start);
    }
    var dropper, checker := if dropperIsP1 then p1 else p2, if dropperIsP1 then p2 else p1;
    var rd := ReplyOf(table.duels, dropper.id, dropper.dm);
    var rc := ReplyOf(table.duels, checker.id, checker.dm);
    if !(rd.Chosen? && rc.Chosen?) {
      table.CancelDuelAndCleanup(p1.id, p2.id);
      return GameAbandoned;
    }
    var res := Resolve(rd.value, rc.value);
    ApplyTwoUpdates(store.scores, GameUpdates(guild, dropper, checker, res)[0], GameUpdates(guild, dropper, checker, res)[1]);
    store.Update(guild, dropper.id, dropper.name, OutcomeName(res.dropperOutcome), res.dropperDelta);
    store.Update(guild, checker.id, checker.name, OutcomeName(res.checkerOutcome), res.checkerDelta);
    table.ClearDuelData(p1.id);
    table.ClearDuelData(p2.id);
    return Completed(dropper.id, checker.id, rd.value, rc.value, res);
  }
}
