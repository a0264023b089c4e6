/** The bot over a sequence of slash commands: each command runs to completion before the next
    (an accepted duel's game included), every fallible Discord call's outcome carried by the
    command. This is where properties of the registry across commands are stated: it stays
    paired, scores stay well counted, and a duel that left pending_acceptance without being
    finished can never be touched again. */
module Session {
  import opened Types
  import opened Scores
  import opened Registry
  import opened Duel
  import opened Answers
  import opened Resolver

  /** The bot's state: active_duels and scores_data. */
  datatype Bot = Bot(duels: Duels, scores: ScoreTable)

  /** A slash command and the outcomes of the fallible calls its handler makes. For /accept:
      the accepting player, the challenger's display string and DMs, the guild of the channel
      it was issued in, fetch_user's outcome, the acceptance announcement, the role draw and
      the role announcement. */
  datatype Command =
    | DuelCmd(challenger: UserId, opponent: UserId, channel: ChannelId, guild: GuildId,
              opponentIsBot: bool, deferred: bool, announced: bool)
    | AcceptCmd(acceptor: Player, challengerName: string, challengerDm: DmExchange, acceptGuild: GuildId,
                fetch: FetchResult, acceptAnnounced: bool, dropperIsP1: bool, rolesAnnounced: bool)
    | DeclineCmd(decliner: UserId, declineResponded: bool)
    | DropCmd(dropper: UserId, dropResponded: bool)

  /** The outcome of the /accept handler, as written or corrected. */
  function AcceptStep(d: Duels, acceptor: UserId, fetch: FetchResult, announced: bool, asWritten: bool)
    : (r: Step<AcceptReply>)
    ensures !asWritten ==> r.reply != HandlerCrashed
  {
    if asWritten then AcceptAsWritten(d, acceptor, fetch, announced) else Accept(d, acceptor, fetch, announced)
  }

  /** One command. asWritten selects the /accept handler as written instead of the corrected one. */
  function Handle(b: Bot, c: Command, asWritten: bool): (r: Bot) {
    match c
    case DuelCmd(ch, op, chan, g, isBot, deferred, announced) =>
      Bot(Challenge(b.duels, ch, op, chan, g, isBot, deferred, announced).duels, b.scores)
    case AcceptCmd(acc, chalName, chalDm, g, fetch, announced, dropperIsP1, rolesAnnounced) =>
      var a := AcceptStep(b.duels, acc.id, fetch, announced, asWritten);
      if a.reply.Accepted? then
        var game := PlayGame(a.duels, b.scores, g, acc, Player(a.reply.challenger, chalName, chalDm),
                             dropperIsP1, rolesAnnounced);
        Bot(game.duels, game.scores)
      else Bot(a.duels, b.scores)
    case DeclineCmd(u, responded) => Bot(Decline(b.duels, u, responded).duels, b.scores)
    case DropCmd(u, responded) => Bot(Drop(b.duels, u, responded).duels, b.scores)
  }

  /** A sequence of commands, in order. */
  function Run(b: Bot, cmds: seq<Command>, asWritten: bool): (r: Bot)
    decreases |cmds|
  {
    if cmds == [] then b else Run(Handle(b, cmds[0], asWritten), cmds[1..], asWritten)
  }

  /** The as-written /accept handler keeps the registry paired too (its stranded pair is
      still a mirrored pair). */
  lemma AcceptStepKeepsPaired(d: Duels, acceptor: UserId, fetch: FetchResult, announced: bool, asWritten: bool)
    requires Paired(d)
    ensures Paired(AcceptStep(d, acceptor, fetch, announced, asWritten).duels)
  {
    if asWritten && CanAccept(d, acceptor) && fetch == FetchFailed {
      assert Mirrored(d, acceptor, d[acceptor].opponent);
      PromoteKeepsPaired(d, acceptor, d[acceptor].opponent, AwaitingRoles);
    } else {
      AcceptKeepsPaired(d, acceptor, fetch, announced);
    }
  }

  /** Every command keeps the registry paired and the scores well counted. */
  lemma HandleKeepsInvariants(b: Bot, c: Command, asWritten: bool)
    requires Paired(b.duels) && WellCounted(b.scores)
    ensures Paired(Handle(b, c, asWritten).duels) && WellCounted(Handle(b, c, asWritten).scores)
  {
    match c
    case DuelCmd(ch, op, chan, g, isBot, deferred, announced) =>
      ChallengeKeepsPaired(b.duels, ch, op, chan, g, isBot, deferred, announced);
    case AcceptCmd(acc, chalName, chalDm, g, fetch, announced, dropperIsP1, rolesAnnounced) =>
      var a := AcceptStep(b.duels, acc.id, fetch, announced, asWritten);
      AcceptStepKeepsPaired(b.duels, acc.id, fetch, announced, asWritten);
      if a.reply.Accepted? {
        var p2 := Player(a.reply.challenger, chalName, chalDm);
        AcceptedIsReadyForRoles(b.duels, acc.id, fetch, announced);
        PlayGameKeepsPaired(a.duels, b.scores, g, acc, p2, dropperIsP1, rolesAnnounced);
        PlayGameKeepsWellCounted(a.duels, b.scores, g, acc, p2, dropperIsP1, rolesAnnounced);
      }
    case DeclineCmd(u, responded) =>
      DeclineKeepsPaired(b.duels, u, responded);
    case DropCmd(u, responded) =>
      DropKeepsPaired(b.duels, u, responded);
  }

  /** ... and so does every sequence of commands, from the empty starting state on. */
  lemma {:induction false} RunKeepsInvariants(b: Bot, cmds: seq<Command>, asWritten: bool)
    requires Paired(b.duels) && WellCounted(b.scores)
    ensures Paired(Run(b, cmds, asWritten).duels) && WellCounted(Run(b, cmds, asWritten).scores)
    decreases |cmds|
  {
    if cmds != [] {
      HandleKeepsInvariants(b, cmds[0], asWritten);
      RunKeepsInvariants(Handle(b, cmds[0], asWritten), cmds[1..], asWritten);
    }
  }

  /** A record that has left pending_acceptance while no game is running (so its game will
      never run) is untouched by any command: the guards of /accept, /decline and /drop only
      pass for pending records, /duel refuses anyone with a record, and a handler only changes
      the records of its caller's own duel. */
  lemma HandleLeavesSettled(b: Bot, c: Command, asWritten: bool, u: UserId)
    requires Paired(b.duels) && u in b.duels && b.duels[u].state != PendingAcceptance
    ensures u in Handle(b, c, asWritten).duels && Handle(b, c, asWritten).duels[u] == b.duels[u]
  {
    var d := b.duels;
    assert Mirrored(d, u, d[u].opponent);
    match c
    case DuelCmd(ch, op, chan, g, isBot, deferred, announced) =>
    case AcceptCmd(acc, chalName, chalDm, g, fetch, announced, dropperIsP1, rolesAnnounced) =>
      var a := AcceptStep(d, acc.id, fetch, announced, asWritten);
      if HoldsPending(d, acc.id) {
        assert Mirrored(d, acc.id, d[acc.id].opponent);
        if a.reply.Accepted? {
          var p2 := Player(a.reply.challenger, chalName, chalDm);
          var game := PlayGame(a.duels, b.scores, g, acc, p2, dropperIsP1, rolesAnnounced);
          assert game.duels == RemovePair(a.duels, acc.id, p2.id);
        } else if a.reply == HandlerCrashed {
          assert a.duels == Promote(d, acc.id, d[acc.id].opponent, AwaitingRoles);
        }
      }
    case DeclineCmd(x, responded) =>
      if HoldsPending(d, x) {
        assert Mirrored(d, x, d[x].opponent);
      }
    case DropCmd(x, responded) =>
      if IssuedPending(d, x) {
        assert Mirrored(d, x, d[x].opponent);
      }
  }

  /** The same across any sequence of commands. */
  lemma {:induction false} RunLeavesSettled(b: Bot, cmds: seq<Command>, asWritten: bool, u: UserId)
    requires Paired(b.duels) && WellCounted(b.scores)
    requires u in b.duels && b.duels[u].state != PendingAcceptance
    ensures u in Run(b, cmds, asWritten).duels && Run(b, cmds, asWritten).duels[u] == b.duels[u]
    decreases |cmds|
  {
    if cmds != [] {
      var b1 := Handle(b, cmds[0], asWritten);
      HandleLeavesSettled(b, cmds[0], asWritten, u);
      HandleKeepsInvariants(b, cmds[0], asWritten);
      RunLeavesSettled(b1, cmds[1..], asWritten, u);
    }
  }

  /** Between commands of the corrected bot every record is pending: a duel that gets past
      /accept is played out, or cancelled, inside the same command, so nothing is ever left in
      awaiting_roles or awaiting_numbers. */
  lemma {:induction false} CorrectedRunLeavesOnlyPending(b: Bot, cmds: seq<Command>)
    requires Paired(b.duels) && WellCounted(b.scores)
    requires forall k :: k in b.duels ==> b.duels[k].state == PendingAcceptance
    ensures forall k :: k in Run(b, cmds, false).duels ==> Run(b, cmds, false).duels[k].state == PendingAcceptance
    decreases |cmds|
  {
    if cmds != [] {
      var b1 := Handle(b, cmds[0], false);
      HandleKeepsOnlyPending(b, cmds[0]);
      HandleKeepsInvariants(b, cmds[0], false);
      CorrectedRunLeavesOnlyPending(b1, cmds[1..]);
    }
  }

  /** One command of the corrected bot leaves only pending records. */
  lemma HandleKeepsOnlyPending(b: Bot, c: Command)
    requires Paired(b.duels)
    requires forall k :: k in b.duels ==> b.duels[k].state == PendingAcceptance
    ensures forall k :: k in Handle(b, c, false).duels ==> Handle(b, c, false).duels[k].state == PendingAcceptance
  {
    var d := b.duels;
    match c
    case DuelCmd(ch, op, chan, g, isBot, deferred, announced) =>
    case AcceptCmd(acc, chalName, chalDm, g, fetch, announced, dropperIsP1, rolesAnnounced) =>
      var a := Accept(d, acc.id, fetch, announced);
      if a.reply.Accepted? {
        var p2 := Player(a.reply.challenger, chalName, chalDm);
        var game := PlayGame(a.duels, b.scores, g, acc, p2, dropperIsP1, rolesAnnounced);
        assert game.duels == RemovePair(a.duels, acc.id, p2.id);
      }
    case DeclineCmd(x, responded) =>
    case DropCmd(x, responded) =>
  }

  /** The finding. With the /accept handler as written, a fetch_user failure other than
      NotFound leaves the pair in awaiting_roles; after that, whatever commands follow, both
      records stay exactly as they are, and the acceptor can never challenge anyone again.
      The corrected handler clears both records instead. */
  lemma {:induction false} FetchFailureStrandsPair(b: Bot, acceptor: Player, chalName: string, chalDm: DmExchange,
                                                   g: GuildId, announced: bool, dropperIsP1: bool, rolesAnnounced: bool,
                                                   cmds: seq<Command>, newOpponent: UserId, channel: ChannelId, guild: GuildId)
    requires Paired(b.duels) && WellCounted(b.scores)
    requires CanAccept(b.duels, acceptor.id)
    ensures var cmd := AcceptCmd(acceptor, chalName, chalDm, g, FetchFailed, announced, dropperIsP1, rolesAnnounced);
      var chal := b.duels[acceptor.id].opponent;
      var stranded := Run(Handle(b, cmd, true), cmds, true);
      && acceptor.id in stranded.duels && stranded.duels[acceptor.id].state == AwaitingRoles
      && chal in stranded.duels && stranded.duels[chal].state == AwaitingRoles
      && Challenge(stranded.duels, acceptor.id, newOpponent, channel, guild, false, true, true).reply != Challenged
      && acceptor.id !in Handle(b, cmd, false).duels && chal !in Handle(b, cmd, false).duels
  {
    var cmd := AcceptCmd(acceptor, chalName, chalDm, g, FetchFailed, announced, dropperIsP1, rolesAnnounced);
    var chal := b.duels[acceptor.id].opponent;
    var b1 := Handle(b, cmd, true);
    assert Mirrored(b.duels, acceptor.id, chal);
    var a := AcceptAsWritten(b.duels, acceptor.id, FetchFailed, announced);
    assert a.reply == HandlerCrashed && b1 == Bot(a.duels, b.scores);
    assert Handle(b, cmd, false).duels == Accept(b.duels, acceptor.id, FetchFailed, announced).duels;
    HandleKeepsInvariants(b, cmd, true);
    RunLeavesSettled(b1, cmds, true, acceptor.id);
    RunLeavesSettled(b1, cmds, true, chal);
    var stranded := Run(b1, cmds, true);
    assert acceptor.id in stranded.duels;
  }

  // ---------------------------------------------------------------------------------------
  // A duel spelled out: user 1 challenges user 2 in channel 100 of guild 7 and user 2 accepts
  // there; the draw makes the challenger (player 2 of the game) the dropper.

  /** The example's two records in a given state. */
  function ExampleDuels(s: GameState): (r: Duels) {
    map[1 := DuelRecord(2, 100, 7, true, s), 2 := DuelRecord(1, 100, 7, false, s)]
  }

  function ExampleDropper(): (p: Player) {
    Player(1, "dropper#1", Delivered(201, [Message(1, 201, "40")]))
  }

  /** The checker first sends an out-of-range "0", then 25. */
  function ExampleChecker(): (p: Player) {
    Player(2, "checker#2", Delivered(202, [Message(2, 202, "0"), Message(2, 202, "25")]))
  }

  /** The checker's replies never pass the check: out of range, someone else's, another channel. */
  function SilentChecker(): (p: Player) {
    Player(2, "checker#2", Delivered(202, [Message(2, 202, "61"), Message(3, 202, "30"), Message(2, 999, "30")]))
  }

  function ExampleCommands(checker: Player): (cmds: seq<Command>) {
    [DuelCmd(1, 2, 100, 7, false, true, true),
     AcceptCmd(checker, "dropper#1", ExampleDropper().dm, 7, Fetched, true, false, true)]
  }

  lemma ExampleChallengeStep()
    ensures Challenge(map[], 1, 2, 100, 7, false, true, true) == Step(ExampleDuels(PendingAcceptance), Challenged)
  {
    assert Challenge(map[], 1, 2, 100, 7, false, true, true).duels == ExampleDuels(PendingAcceptance);
  }

  lemma ExampleAcceptStep()
    ensures Accept(ExampleDuels(PendingAcceptance), 2, Fetched, true) == Step(ExampleDuels(AwaitingRoles), Accepted(1))
  {
    assert CanAccept(ExampleDuels(PendingAcceptance), 2);
    assert Accept(ExampleDuels(PendingAcceptance), 2, Fetched, true).duels == ExampleDuels(AwaitingRoles);
  }

  lemma ExampleStartStep()
    ensures BeginGame(ExampleDuels(AwaitingRoles), 2, 1, true) == Step(ExampleDuels(AwaitingNumbers), Started)
  {
    assert BeginGame(ExampleDuels(AwaitingRoles), 2, 1, true).duels == ExampleDuels(AwaitingNumbers);
  }

  lemma ExampleReplies()
    ensures ReplyOf(ExampleDuels(AwaitingNumbers), 1, ExampleDropper().dm) == Chosen(40)
    ensures ReplyOf(ExampleDuels(AwaitingNumbers), 2, ExampleChecker().dm) == Chosen(25)
    ensures ReplyOf(ExampleDuels(AwaitingNumbers), 2, SilentChecker().dm) == TimedOut
  {
    var d := ExampleDuels(AwaitingNumbers);
    assert "40"[..1] == "4" && DigitsValue("40") == 40;
    assert FirstAccepted(d, 1, 201, ExampleDropper().dm.inbox) == Some(0);
    assert DigitsValue("0") == 0;
    assert "25"[..1] == "2" && DigitsValue("25") == 25;
    assert !CheckMsg(d, 2, 202, ExampleChecker().dm.inbox[0]);
    assert CheckMsg(d, 2, 202, ExampleChecker().dm.inbox[1]);
    assert FirstAccepted(d, 2, 202, ExampleChecker().dm.inbox) == Some(1);
    assert "61"[..1] == "6" && DigitsValue("61") == 61;
    assert !CheckMsg(d, 2, 202, SilentChecker().dm.inbox[0]);
    assert FirstAccepted(d, 2, 202, SilentChecker().dm.inbox) == None;
  }

  /** Both commands of the example, with the given checker, reach the game. */
  lemma ExampleRun(checker: Player)
    requires checker.id == 2
    ensures var game := PlayGame(ExampleDuels(AwaitingRoles), map[], 7, checker,
                                 Player(1, "dropper#1", ExampleDropper().dm), false, true);
      Run(Bot(map[], map[]), ExampleCommands(checker), false) == Bot(game.duels, game.scores)
  {
    var cmds := ExampleCommands(checker);
    ExampleChallengeStep();
    ExampleAcceptStep();
    var b1 := Handle(Bot(map[], map[]), cmds[0], false);
    assert b1 == Bot(ExampleDuels(PendingAcceptance), map[]);
    var b2 := Handle(b1, cmds[1], false);
    var game := PlayGame(ExampleDuels(AwaitingRoles), map[], 7, checker,
                         Player(1, "dropper#1", ExampleDropper().dm), false, true);
    assert b2 == Bot(game.duels, game.scores);
    assert cmds[1..][0] == cmds[1] && cmds[1..][1..] == [];
    assert Run(b1, cmds[1..], false) == Run(b2, [], false);
  }

  /** The whole duel: the dropper's 40 beats the checker's 25, so the dropper wins 10 points,
      the checker records a loss worth nothing, and both records are gone. */
  lemma FullDuelExample()
    ensures var b := Run(Bot(map[], map[]), ExampleCommands(ExampleChecker()), false);
      && b.duels == map[]
      && GetPlayerStats(b.scores, 7, 1) == PlayerStats("dropper#1", 10, 1, 0, 0, 1)
      && GetPlayerStats(b.scores, 7, 2) == PlayerStats("checker#2", 0, 0, 1, 0, 1)
  {
    ExampleRun(ExampleChecker());
    ExampleStartStep();
    ExampleReplies();
    var res := Resolve(40, 25);
    var ups := GameUpdates(7, ExampleDropper(), ExampleChecker(), res);
    ApplyTwoUpdates(map[], ups[0], ups[1]);
  }

  /** A checker who never sends an acceptable number times out: the duel is cancelled, no
      score is recorded, and both records are gone. */
  lemma TimeoutExample()
    ensures Run(Bot(map[], map[]), ExampleCommands(SilentChecker()), false) == Bot(map[], map[])
  {
    ExampleRun(SilentChecker());
    ExampleStartStep();
    ExampleReplies();
  }
}
