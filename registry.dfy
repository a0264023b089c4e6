/** The duel registry (active_duels): who is in a duel with whom, and how far the duel got.
    Each command handler is a pure function from the registry as found to the registry it
    leaves and the reply it gives; the class DuelTable at the end performs the same steps in
    place. Fallible Discord calls are parameters that pick the branch the handler takes. */
module Registry {
  import opened Types

  /** game_state of a record. */
  datatype GameState = PendingAcceptance | AwaitingRoles | AwaitingNumbers

  /** One entry of active_duels: the user's opponent, the channel and guild the challenge
      was issued in, whether this user issued it, and the state of the duel. */
  datatype DuelRecord = DuelRecord(
    opponent: UserId,
    channel: ChannelId,
    guild: GuildId,
    isChallenger: bool,
    state: GameState)

  /** active_duels. */
  type Duels = map<UserId, DuelRecord>

  /** What a handler leaves behind: the new registry and its reply. */
  datatype Step<R> = Step(duels: Duels, reply: R)

  /** a and b are two distinct users whose records point at each other, share the channel,
      the guild and the state, and name exactly one of them as the challenger. */
  predicate Mirrored(d: Duels, a: UserId, b: UserId) {
    && a in d && b in d && a != b
    && d[a].opponent == b && d[b].opponent == a
    && d[a].channel == d[b].channel && d[a].guild == d[b].guild
    && d[a].state == d[b].state
    && d[a].isChallenger != d[b].isChallenger
  }

  /** The registry invariant: every record has a mirrored partner record. */
  predicate Paired(d: Duels) {
    forall u :: u in d ==> Mirrored(d, u, d[u].opponent)
  }

  /** Neither a nor b is held by a duel with anyone but the other. */
  predicate PairOrAbsent(d: Duels, a: UserId, b: UserId) {
    (a in d ==> d[a].opponent == b) && (b in d ==> d[b].opponent == a)
  }

  // ---------------------------------------------------------------------------------------
  // Removal

  /** _clear_duel_data_for_user: delete the user's record if there is one. */
  function ClearUser(d: Duels, u: UserId): (r: Duels)
    ensures forall k :: k in r <==> k in d && k != u
    ensures forall k :: k in r ==> r[k] == d[k]
  {
    if u in d then d - {u} else d
  }

  /** The registry part of cancel_duel_and_cleanup: clear both users. */
  function RemovePair(d: Duels, a: UserId, b: UserId): (r: Duels)
    ensures forall k :: k in r <==> k in d && k != a && k != b
    ensures forall k :: k in r ==> r[k] == d[k]
  {
    ClearUser(ClearUser(d, a), b)
  }

  /** Clearing is idempotent. */
  lemma ClearUserTwice(d: Duels, u: UserId)
    ensures ClearUser(ClearUser(d, u), u) == ClearUser(d, u)
  {
    var once := ClearUser(d, u);
    assert ClearUser(once, u) == once;
  }

  /** Cancelling is idempotent, in either order of the two users. */
  lemma RemovePairTwice(d: Duels, a: UserId, b: UserId)
    ensures RemovePair(RemovePair(d, a, b), a, b) == RemovePair(d, a, b)
    ensures RemovePair(d, b, a) == RemovePair(d, a, b)
  {
    var once := RemovePair(d, a, b);
    assert RemovePair(once, a, b) == once;
    assert RemovePair(d, b, a) == once;
  }

  /** Cancelling a pair that holds both users, or neither, keeps every other duel paired. */
  lemma RemovePairKeepsPaired(d: Duels, a: UserId, b: UserId)
    requires Paired(d) && PairOrAbsent(d, a, b)
    ensures Paired(RemovePair(d, a, b))
  {
    var r := RemovePair(d, a, b);
    forall u | u in r ensures Mirrored(r, u, r[u].opponent) {
      var v := d[u].opponent;
      assert Mirrored(d, u, v);
      assert v != a && v != b;
    }
  }

  // ---------------------------------------------------------------------------------------
  // State changes

  /** Set the game_state of both records of a duel. */
  function Promote(d: Duels, a: UserId, b: UserId, s: GameState): (r: Duels)
    requires a in d && b in d
    ensures forall k :: k in r <==> k in d
    ensures forall k :: k in d ==> r[k] == (if k == a || k == b then d[k].(state := s) else d[k])
  {
    d[a := d[a].(state := s)][b := d[b].(state := s)]
  }

  /** Moving a mirrored pair to its next state keeps the registry paired. */
  lemma PromoteKeepsPaired(d: Duels, a: UserId, b: UserId, s: GameState)
    requires Paired(d) && Mirrored(d, a, b)
    ensures Paired(Promote(d, a, b, s))
  {
    var r := Promote(d, a, b, s);
    forall u | u in r ensures Mirrored(r, u, r[u].opponent) {
      assert Mirrored(d, u, d[u].opponent);
    }
  }

  /** A state change followed by a cancel of the same pair is just the cancel. */
  lemma RemoveAfterPromote(d: Duels, a: UserId, b: UserId, s: GameState)
    requires a in d && b in d
    ensures RemovePair(Promote(d, a, b, s), a, b) == RemovePair(d, a, b)
  {
    assert RemovePair(Promote(d, a, b, s), a, b) == RemovePair(d, a, b);
  }

  // ---------------------------------------------------------------------------------------
  // /duel

  datatype ChallengeReply =
    | SelfChallenge          // "Can't duel yourself!"
    | BotOpponent            // "Can't duel a bot!"
    | DeferFailed            // the deferral raised something other than InteractionResponded
    | AlreadyEngaged         // one of the two already holds a record
    | ChallengeNotAnnounced  // records inserted, challenge message failed, records cleared
    | Challenged             // records inserted and the challenge posted

  /** duel_command. deferred: the deferral succeeded or had already been answered;
      announced: the public challenge message was sent. */
  function Challenge(d: Duels, challenger: UserId, opponent: UserId, channel: ChannelId, guild: GuildId,
                     opponentIsBot: bool, deferred: bool, announced: bool): (r: Step<ChallengeReply>)
    ensures r.reply == SelfChallenge <==> opponent == challenger
    ensures r.reply == BotOpponent <==> opponent != challenger && opponentIsBot
    ensures r.reply == DeferFailed <==> opponent != challenger && !opponentIsBot && !deferred
    ensures r.reply == AlreadyEngaged <==>
      opponent != challenger && !opponentIsBot && deferred && (challenger in d || opponent in d)
    ensures r.reply == ChallengeNotAnnounced <==>
      opponent != challenger && !opponentIsBot && deferred && challenger !in d && opponent !in d && !announced
    ensures r.reply == Challenged <==>
      opponent != challenger && !opponentIsBot && deferred && challenger !in d && opponent !in d && announced
    ensures r.reply != Challenged ==> r.duels == d
    ensures r.reply == Challenged ==>
      && (forall k :: k in r.duels <==> k in d || k == challenger || k == opponent)
      && (forall k :: k in d ==> r.duels[k] == d[k])
      && Mirrored(r.duels, challenger, opponent)
      && r.duels[challenger] == DuelRecord(opponent, channel, guild, true, PendingAcceptance)
      && r.duels[opponent] == DuelRecord(challenger, channel, guild, false, PendingAcceptance)
  {
    if opponent == challenger then Step(d, SelfChallenge)
    else if opponentIsBot then Step(d, BotOpponent)
    else if !deferred then Step(d, DeferFailed)
    else if challenger in d || opponent in d then Step(d, AlreadyEngaged)
    else
      var inserted := d[challenger := DuelRecord(opponent, channel, guild, true, PendingAcceptance)]
                       [opponent := DuelRecord(challenger, channel, guild, false, PendingAcceptance)];
      if !announced then
        assert RemovePair(inserted, challenger, opponent) == d;
        Step(RemovePair(inserted, challenger, opponent), ChallengeNotAnnounced)
      else Step(inserted, Challenged)
  }

  /** /duel keeps the registry paired. */
  lemma ChallengeKeepsPaired(d: Duels, challenger: UserId, opponent: UserId, channel: ChannelId, guild: GuildId,
                             opponentIsBot: bool, deferred: bool, announced: bool)
    requires Paired(d)
    ensures Paired(Challenge(d, challenger, opponent, channel, guild, opponentIsBot, deferred, announced).duels)
  {
    var r := Challenge(d, challenger, opponent, channel, guild, opponentIsBot, deferred, announced);
    if r.reply == Challenged {
      forall u | u in r.duels ensures Mirrored(r.duels, u, r.duels[u].opponent) {
        if u != challenger && u != opponent {
          assert Mirrored(d, u, d[u].opponent);
        }
      }
    }
  }

  // ---------------------------------------------------------------------------------------
  // /accept

  /** The outcome of bot.fetch_user. */
  datatype FetchResult = Fetched | UserNotFound | FetchFailed

  datatype AcceptReply =
    | NothingToAccept         // no pending challenge addressed to the caller
    | StaleChallenge          // the challenger's record no longer mirrors it: both cleared
    | ChallengerUnavailable   // fetch_user failed: both cleared
    | AcceptanceNotAnnounced  // the acceptance message failed: both cleared
    | HandlerCrashed          // an uncaught exception ended the handler
    | Accepted(challenger: UserId)

  /** The caller holds a challenge addressed to them that is still pending. */
  predicate HoldsPending(d: Duels, u: UserId) {
    u in d && !d[u].isChallenger && d[u].state == PendingAcceptance
  }

  /** The caller's opponent has a pending record pointing back at the caller. */
  predicate MirrorPending(d: Duels, u: UserId)
    requires u in d
  {
    var c := d[u].opponent;
    c in d && d[c].state == PendingAcceptance && d[c].opponent == u
  }

  /** Both guards of accept_command pass. */
  predicate CanAccept(d: Duels, u: UserId) {
    HoldsPending(d, u) && MirrorPending(d, u)
  }

  /** accept_command with every failure of fetch_user leading to the cleanup (the behaviour
      the handler evidently intends; see AcceptAsWritten). announced: the public acceptance
      message was sent. On success run_game_flow follows, with the caller as player 1. */
  function Accept(d: Duels, acceptor: UserId, fetch: FetchResult, announced: bool): (r: Step<AcceptReply>)
    ensures r.reply != HandlerCrashed
    ensures r.reply == NothingToAccept <==> !HoldsPending(d, acceptor)
    ensures r.reply == NothingToAccept ==> r.duels == d
    ensures r.reply == StaleChallenge <==> HoldsPending(d, acceptor) && !MirrorPending(d, acceptor)
    ensures r.reply.Accepted? <==> CanAccept(d, acceptor) && fetch == Fetched && announced
    ensures r.reply == ChallengerUnavailable <==> CanAccept(d, acceptor) && fetch != Fetched
    ensures r.reply == AcceptanceNotAnnounced <==> CanAccept(d, acceptor) && fetch == Fetched && !announced
    ensures r.reply.Accepted? ==>
      && r.reply.challenger == d[acceptor].opponent
      && (forall k :: k in r.duels <==> k in d)
      && (forall k :: k in d ==>
            r.duels[k] == (if k == acceptor || k == r.reply.challenger then d[k].(state := AwaitingRoles) else d[k]))
    ensures !r.reply.Accepted? && r.reply != NothingToAccept ==>
      r.duels == RemovePair(d, acceptor, d[acceptor].opponent)
  {
    if !HoldsPending(d, acceptor) then Step(d, NothingToAccept)
    else
      var chal := d[acceptor].opponent;
      if !MirrorPending(d, acceptor) then Step(RemovePair(d, acceptor, chal), StaleChallenge)
      else
        var promoted := Promote(d, acceptor, chal, AwaitingRoles);
        RemoveAfterPromote(d, acceptor, chal, AwaitingRoles);
        if fetch != Fetched then Step(RemovePair(promoted, acceptor, chal), ChallengerUnavailable)
        else if !announced then Step(RemovePair(promoted, acceptor, chal), AcceptanceNotAnnounced)
        else Step(promoted, Accepted(chal))
  }

  /** In a paired registry the mirror check of accept_command never fails: a pending
      non-challenger's opponent always points back with a pending record. */
  lemma PairedAcceptNeverStale(d: Duels, acceptor: UserId, fetch: FetchResult, announced: bool)
    requires Paired(d)
    ensures Accept(d, acceptor, fetch, announced).reply != StaleChallenge
  {
    if HoldsPending(d, acceptor) {
      assert Mirrored(d, acceptor, d[acceptor].opponent);
    }
  }

  /** /accept keeps the registry paired. */
  lemma AcceptKeepsPaired(d: Duels, acceptor: UserId, fetch: FetchResult, announced: bool)
    requires Paired(d)
    ensures Paired(Accept(d, acceptor, fetch, announced).duels)
  {
    var r := Accept(d, acceptor, fetch, announced);
    if HoldsPending(d, acceptor) {
      var chal := d[acceptor].opponent;
      assert Mirrored(d, acceptor, chal);
      if r.reply.Accepted? {
        PromoteKeepsPaired(d, acceptor, chal, AwaitingRoles);
        assert r.duels == Promote(d, acceptor, chal, AwaitingRoles);
      } else {
        RemovePairKeepsPaired(d, acceptor, chal);
      }
    }
  }

  /** accept_command as written: only discord.NotFound from fetch_user is caught, so any other
      failure escapes the handler after both records were moved to awaiting_roles. */
  function AcceptAsWritten(d: Duels, acceptor: UserId, fetch: FetchResult, announced: bool): (r: Step<AcceptReply>)
    ensures r.reply != HandlerCrashed ==> r == Accept(d, acceptor, fetch, announced)
    ensures r.reply == HandlerCrashed <==> CanAccept(d, acceptor) && fetch == FetchFailed
    ensures r.reply == HandlerCrashed ==> r.duels == Promote(d, acceptor, d[acceptor].opponent, AwaitingRoles)
    ensures r.reply == HandlerCrashed ==>
      && (forall k :: k in r.duels <==> k in d)
      && r.duels[acceptor].state == AwaitingRoles
      && r.duels[d[acceptor].opponent].state == AwaitingRoles
  {
    if CanAccept(d, acceptor) && fetch == FetchFailed then
      Step(Promote(d, acceptor, d[acceptor].opponent, AwaitingRoles), HandlerCrashed)
    else Accept(d, acceptor, fetch, announced)
  }

  // ---------------------------------------------------------------------------------------
  // /decline and /drop

  datatype DeclineReply =
    | NothingToDecline      // no pending challenge addressed to the caller
    | DeclineNotSent        // the reply to the caller raised, ending the handler
    | Declined(challenger: UserId)

  /** decline_command. responded: the reply to the decliner was sent (it is not guarded, so
      a failure ends the handler before the cleanup). */
  function Decline(d: Duels, decliner: UserId, responded: bool): (r: Step<DeclineReply>)
    ensures r.reply == NothingToDecline <==> !HoldsPending(d, decliner)
    ensures r.reply.Declined? <==> HoldsPending(d, decliner) && responded
    ensures !r.reply.Declined? ==> r.duels == d
    ensures r.reply.Declined? ==>
      r.reply.challenger == d[decliner].opponent && r.duels == RemovePair(d, decliner, r.reply.challenger)
  {
    if !HoldsPending(d, decliner) then Step(d, NothingToDecline)
    else if !responded then Step(d, DeclineNotSent)
    else
      var chal := d[decliner].opponent;
      Step(RemovePair(d, decliner, chal), Declined(chal))
  }

  /** The caller issued a challenge that is still pending. */
  predicate IssuedPending(d: Duels, u: UserId) {
    u in d && d[u].isChallenger && d[u].state == PendingAcceptance
  }

  datatype DropReply =
    | NothingToDrop         // no pending challenge issued by the caller
    | DropNotSent           // the reply to the caller raised, ending the handler
    | Dropped(opponent: UserId)

  /** drop_command. responded: the reply to the challenger was sent. */
  function Drop(d: Duels, challenger: UserId, responded: bool): (r: Step<DropReply>)
    ensures r.reply == NothingToDrop <==> !IssuedPending(d, challenger)
    ensures r.reply.Dropped? <==> IssuedPending(d, challenger) && responded
    ensures !r.reply.Dropped? ==> r.duels == d
    ensures r.reply.Dropped? ==>
      r.reply.opponent == d[challenger].opponent && r.duels == RemovePair(d, challenger, r.reply.opponent)
  {
    if !IssuedPending(d, challenger) then Step(d, NothingToDrop)
    else if !responded then Step(d, DropNotSent)
    else
      var opp := d[challenger].opponent;
      Step(RemovePair(d, challenger, opp), Dropped(opp))
  }

  /** /decline keeps the registry paired. */
  lemma DeclineKeepsPaired(d: Duels, decliner: UserId, responded: bool)
    requires Paired(d)
    ensures Paired(Decline(d, decliner, responded).duels)
  {
    if HoldsPending(d, decliner) && responded {
      assert Mirrored(d, decliner, d[decliner].opponent);
      RemovePairKeepsPaired(d, decliner, d[decliner].opponent);
    }
  }

  /** /drop keeps the registry paired. */
  lemma DropKeepsPaired(d: Duels, challenger: UserId, responded: bool)
    requires Paired(d)
    ensures Paired(Drop(d, challenger, responded).duels)
  {
    if IssuedPending(d, challenger) && responded {
      assert Mirrored(d, challenger, d[challenger].opponent);
      RemovePairKeepsPaired(d, challenger, d[challenger].opponent);
    }
  }

  // ---------------------------------------------------------------------------------------
  // Entry of run_game_flow

  datatype StartReply =
    | TrackingError      // the records are not a mirrored awaiting_roles pair: both cleared
    | RolesNotAnnounced  // the role announcement failed: both cleared
    | Started

  /** Both records exist, point at each other and await roles. */
  predicate ReadyForRoles(d: Duels, p1: UserId, p2: UserId) {
    && p1 in d && p2 in d
    && d[p1].opponent == p2 && d[p2].opponent == p1
    && d[p1].state == AwaitingRoles && d[p2].state == AwaitingRoles
  }

  /** The registry part of run_game_flow up to the role announcement. announced: the message
      naming the dropper and the checker was sent. */
  function BeginGame(d: Duels, p1: UserId, p2: UserId, announced: bool): (r: Step<StartReply>)
    ensures r.reply == TrackingError <==> !ReadyForRoles(d, p1, p2)
    ensures r.reply == Started <==> ReadyForRoles(d, p1, p2) && announced
    ensures r.reply != Started ==> r.duels == RemovePair(d, p1, p2)
    ensures r.reply == Started ==>
      && (forall k :: k in r.duels <==> k in d)
      && (forall k :: k in d ==>
            r.duels[k] == (if k == p1 || k == p2 then d[k].(state := AwaitingNumbers) else d[k]))
  {
    if !ReadyForRoles(d, p1, p2) then Step(RemovePair(d, p1, p2), TrackingError)
    else
      var promoted := Promote(d, p1, p2, AwaitingNumbers);
      RemoveAfterPromote(d, p1, p2, AwaitingNumbers);
      if !announced then Step(RemovePair(promoted, p1, p2), RolesNotAnnounced)
      else Step(promoted, Started)
  }

  /** Right after a successful /accept, the game flow's entry guard passes: the pair is
      mirrored and awaits roles, caller first. */
  lemma AcceptedIsReadyForRoles(d: Duels, acceptor: UserId, fetch: FetchResult, announced: bool)
    requires Paired(d)
    requires Accept(d, acceptor, fetch, announced).reply.Accepted?
    ensures var r := Accept(d, acceptor, fetch, announced);
      ReadyForRoles(r.duels, acceptor, r.reply.challenger) && Mirrored(r.duels, acceptor, r.reply.challenger)
  {
    var r := Accept(d, acceptor, fetch, announced);
    assert Mirrored(d, acceptor, d[acceptor].opponent);
  }

  /** The entry of run_game_flow keeps the registry paired when neither player belongs to a
      duel with someone else (its cleanup clears both players whatever their records say). */
  lemma BeginGameKeepsPaired(d: Duels, p1: UserId, p2: UserId, announced: bool)
    requires Paired(d) && PairOrAbsent(d, p1, p2)
    ensures Paired(BeginGame(d, p1, p2, announced).duels)
  {
    if ReadyForRoles(d, p1, p2) {
      assert Mirrored(d, p1, p2);
      PromoteKeepsPaired(d, p1, p2, AwaitingNumbers);
    }
    RemovePairKeepsPaired(d, p1, p2);
  }

  // ---------------------------------------------------------------------------------------
  // The registry object

  /** active_duels, changed in place by the command handlers. Each method takes the same
      branches as the function of the same handler above and leaves the registry that function
      describes; a paired registry stays paired. */
  class DuelTable {
    var duels: Duels

    /** The registry when the bot starts: no duels. */
    constructor ()
      ensures duels == map[] && Paired(duels)
    {
      duels := map[];
    }

    /** _clear_duel_data_for_user. */
    method ClearDuelData(u: UserId)
      modifies this
      ensures duels == ClearUser(old(duels), u)
    {
      if u in duels {
        duels := duels - {u};
      }
    }

    /** The registry part of cancel_duel_and_cleanup (the messages it sends are left out). */
    method CancelDuelAndCleanup(a: UserId, b: UserId)
      modifies this
      ensures duels == RemovePair(old(duels), a, b)
      ensures Paired(old(duels)) && PairOrAbsent(old(duels), a, b) ==> Paired(duels)
    {
      if Paired(duels) && PairOrAbsent(duels, a, b) {
        RemovePairKeepsPaired(duels, a, b);
      }
      ClearDuelData(a);
      ClearDuelData(b);
    }

    /** duel_command. */
    method DuelCommand(challenger: UserId, opponent: UserId, channel: ChannelId, guild: GuildId,
                       opponentIsBot: bool, deferred: bool, announced: bool) returns (reply: ChallengeReply)
      modifies this
      ensures Step(duels, reply) == Challenge(old(duels), challenger, opponent, channel, guild, opponentIsBot, deferred, announced)
      ensures Paired(old(duels)) ==> Paired(duels)
    {
      if Paired(duels) {
        ChallengeKeepsPaired(duels, challenger, opponent, channel, guild, opponentIsBot, deferred, announced);
      }
      if opponent == challenger {
        return SelfChallenge;
      }
      if opponentIsBot {
        return BotOpponent;
      }
      if !deferred {
        return DeferFailed;
      }
      if challenger in duels || opponent in duels {
        return AlreadyEngaged;
      }
      duels := duels[challenger := DuelRecord(opponent, channel, guild, true, PendingAcceptance)];
      duels := duels[opponent := DuelRecord(challenger, channel, guild, false, PendingAcceptance)];
      if !announced {
        CancelDuelAndCleanup(challenger, opponent);
        return ChallengeNotAnnounced;
      }
      return Challenged;
    }

    /** accept_command, with any failure of fetch_user leading to the cleanup. */
    method AcceptCommand(acceptor: UserId, fetch: FetchResult, announced: bool) returns (reply: AcceptReply)
      modifies this
      ensures Step(duels, reply) == Accept(old(duels), acceptor, fetch, announced)
      ensures Paired(old(duels)) ==> Paired(duels)
    {
      if Paired(duels) {
        AcceptKeepsPaired(duels, acceptor, fetch, announced);
      }
      if !(acceptor in duels && !duels[acceptor].isChallenger && duels[acceptor].state == PendingAcceptance) {
        return NothingToAccept;
      }
      var chal := duels[acceptor].opponent;
      if !(chal in duels && duels[chal].state == PendingAcceptance && duels[chal].opponent == acceptor) {
        ClearDuelData(acceptor);
        ClearDuelData(chal);
        return StaleChallenge;
      }
      duels := duels[acceptor := duels[acceptor].(state := AwaitingRoles)];
      duels := duels[chal := duels[chal].(state := AwaitingRoles)];
      if fetch != Fetched {
        CancelDuelAndCleanup(acceptor, chal);
        return ChallengerUnavailable;
      }
      if !announced {
        CancelDuelAndCleanup(acceptor, chal);
        return AcceptanceNotAnnounced;
      }
      return Accepted(chal);
    }

    /** decline_command. */
    method DeclineCommand(decliner: UserId, responded: bool) returns (reply: DeclineReply)
      modifies this
      ensures Step(duels, reply) == Decline(old(duels), decliner, responded)
      ensures Paired(old(duels)) ==> Paired(duels)
    {
      if Paired(duels) {
        DeclineKeepsPaired(duels, decliner, responded);
      }
      if !(decliner in duels && !duels[decliner].isChallenger && duels[decliner].state == PendingAcceptance) {
        return NothingToDecline;
      }
      var chal := duels[decliner].opponent;
      if !responded {
        return DeclineNotSent;
      }
      CancelDuelAndCleanup(decliner, chal);
      return Declined(chal);
    }

    /** drop_command. */
    method DropCommand(challenger: UserId, responded: bool) returns (reply: DropReply)
      modifies this
      ensures Step(duels, reply) == Drop(old(duels), challenger, responded)
      ensures Paired(old(duels)) ==> Paired(duels)
    {
      if Paired(duels) {
        DropKeepsPaired(duels, challenger, responded);
      }
      if !(challenger in duels && duels[challenger].isChallenger && duels[challenger].state == PendingAcceptance) {
        return NothingToDrop;
      }
      var opp := duels[challenger].opponent;
      if !responded {
        return DropNotSent;
      }
      CancelDuelAndCleanup(challenger, opp);
      return Dropped(opp);
    }

    /** The entry guard and first transition of run_game_flow. */
    method StartGame(p1: UserId, p2: UserId, announced: bool) returns (reply: StartReply)
      modifies this
      ensures Step(duels, reply) == BeginGame(old(duels), p1, p2, announced)
      ensures Paired(old(duels)) && PairOrAbsent(old(duels), p1, p2) ==> Paired(duels)
    {
      if Paired(duels) && PairOrAbsent(duels, p1, p2) {
        BeginGameKeepsPaired(duels, p1, p2, announced);
      }
      if !(p1 in duels && p2 in duels && duels[p1].opponent == p2 && duels[p2].opponent == p1
           && duels[p1].state == AwaitingRoles && duels[p2].state == AwaitingRoles) {
        ClearDuelData(p1);
        ClearDuelData(p2);
        return TrackingError;
      }
      duels := duels[p1 := duels[p1].(state := AwaitingNumbers)];
      duels := duels[p2 := duels[p2].(state := AwaitingNumbers)];
      if !announced {
        CancelDuelAndCleanup(p1, p2);
        return RolesNotAnnounced;
      }
      return Started;
    }
  }
}
