# Drop the Handkerchief: a model of the duel bot's core

Drop the Handkerchief is a Discord bot for a two-player number game.

- A user challenges another with `/duel`. The opponent answers with `/accept` or `/decline`, and the challenger may withdraw with `/drop`.
- Once a duel is accepted, the bot draws one player as the *dropper* and the other as the *checker*. Each player privately sends a number from 1 to 60 by direct message.
- If the checker's number is higher, the checker wins 10 points and the dropper loses the difference.
- If the dropper's number is higher, the dropper wins 10 points and the checker gets nothing.
- Equal numbers are a tie.
- Per-guild statistics are kept for every player: points, wins, losses, ties and games played.

The project models four parts of the bot and proves properties of each:

- **the duel registry** (`active_duels`): every user's duel record, and the state machine that moves a duel from `pending_acceptance` through `awaiting_roles` to `awaiting_numbers`;
- **the score store** (`scores_data`): its read-only lookup with a default, and its in-place update;
- **the validator of the numbers** players send;
- **the scoring rule** of a finished game.

The bot's own entry points are composed on top of these: the slash-command handlers and the game flow that follows `/accept`.

Modules:

- `Types` (`types.dfy`): ids and the two game constants.
- `Scores` (`scores.dfy`): `get_player_stats` and `update_player_stats`. They appear as functions on the whole table, and as the class `ScoreStore`, whose `Update` changes its table in place.
- `Registry` (`registry.dfy`): the registry and the handlers of `/duel`, `/accept`, `/decline`, `/drop` and the entry of the game flow.
  - Each handler is a function from the registry as found to a `Step`, which holds the new registry and the reply.
  - The class `DuelTable` has one method per handler. Each method changes the registry in place and is proved to leave exactly the registry its function describes.
  - The fallible Discord calls that decide a branch are parameters that select it: deferral, `fetch_user`, each announcement, and the unguarded replies of `/decline` and `/drop`. A few other calls that can raise are taken to succeed; "## Left out" lists them and what their failure would do.
- `Answers` (`answers.dfy`): the content test of `check_msg`, and decimal reading and writing.
- `Resolver` (`resolver.dfy`): the scoring rule.
- `Duel` (`duel.dfy`): `run_game_flow`.
  - `check_msg` is modelled, and so is the first message `wait_for` accepts.
  - Each player's direct-message exchange is a value: undeliverable, or delivered with the list of messages received before the timeout.
  - `PlayGame` is the whole flow as a function. `RunGameFlow` performs it on a `DuelTable` and a `ScoreStore`.
- `Session` (`session.dfy`): the bot over any sequence of commands. Here the properties spanning several commands are proved: invariants, the stranded pair of the finding below, and two complete example duels.

Every handler is total: none has a precondition that excludes an input the bot can receive.

The registry invariant is `Paired`: every record has a partner record, and the two point at each other, share channel, guild and state, and name exactly one challenger. The model runs each command to completion before the next one starts, and in that model every command preserves it. In the bot, handlers can interleave at their awaits, and then `Paired` can break (see "## Left out").

Under `Paired`, the mirror test of `/accept` at main.py:243-250 never fails (`Registry.PairedAcceptNeverStale`). That is a fact of the sequential model: in the bot, only an interleaving of handlers can make it fire. The model still keeps that branch.

The score table keeps `games_played == wins + losses + ties` for every record: `Scores.UpdatesKeepWellCounted`, `Session.RunKeepsInvariants`.

Points to note:

- Statistics are recorded in the guild of the channel where `/accept` was issued (`original_channel.guild.id`, main.py:365). That is not necessarily the guild stored in the duel records. `Duel.PlayGame` takes that guild as a parameter.
- Player 1 of the game is the accepting user and player 2 is the challenger (main.py:275).
- The random shuffle (main.py:384-386) is the parameter `dropperIsP1`.
- The source keys `scores_data` by the decimal strings of the ids. The model keys it by the ids themselves. The two are in one-to-one correspondence.

## Model

| member | source | states |
|---|---|---|
| `Scores.GetPlayerStats` | main.py:72-76 | the definition of the lookup: the stored record, or a zeroed record named "Unknown"; its properties are carried by `Scores.LookupDefault`, `Scores.LookupAfterUpdate` and `Scores.LookupElsewhereAfterUpdate` |
| `Scores.Credit` | main.py:86-95 | the definition of the change one game makes to a record; its games identity is carried by `Scores.CreditGamesIdentity`, and its effect as read back by `Scores.LookupAfterUpdate` |
| `Scores.LookupDefault` | main.py:72-76 | a user without a record reads as a zeroed record named "Unknown"; in a well-counted table every record read keeps the games identity |
| `Scores.UpdatePlayerStats` | main.py:79-96 | afterwards (g, u) has a record; the guilds are the old ones plus g, and g's users are the old ones plus u; the record is the old one, or a zeroed one, credited with the game; every other guild and every other user of g keep their record |
| `Scores.LookupAfterUpdate` | main.py:72-95 | read back after an update, the record carries the new name, its points moved by exactly the delta, one more game, and one more in exactly the counter the outcome names |
| `Scores.LookupElsewhereAfterUpdate` | main.py:72-95 | an update is invisible to a read of any other (guild, user) |
| `Scores.CreditGamesIdentity` | main.py:87-95 | crediting a consistent record keeps the games identity exactly when the outcome is "win", "loss" or "tie" |
| `Scores.UpdateKeepsGamesIdentity` | main.py:81-95 | the same for the stored record, a freshly created zeroed record included |
| `Scores.ApplyTwoUpdates` | main.py:540-541 | two updates in a row are the sequence of those two updates |
| `Scores.UpdatesKeepWellCounted` | main.py:79-96 | after any sequence of updates with known outcomes, every record of a well-counted table is still well counted |
| `Scores.UpdatesOnlyAdd` | main.py:79-96 | after any sequence of updates, a record has played one more game per update addressed to it, and its points moved by exactly their deltas; no win, loss or tie counter went down |
| `Scores.TotalDeltaAppend` | main.py:88 | the total point change of two update sequences is the sum of their totals |
| `Scores.ScoreStore.constructor` | main.py:23 | the store starts empty |
| `Scores.ScoreStore.Update` | main.py:79-95 | the in-place update leaves exactly the table `UpdatePlayerStats` describes |
| `Registry.ClearUser` | main.py:100-101 | the user's record is gone, every other record is kept unchanged, nothing is added |
| `Registry.RemovePair` | main.py:124-125 | both users' records are gone, every other record is kept unchanged |
| `Registry.ClearUserTwice` | main.py:100-101 | clearing a user twice is clearing them once |
| `Registry.RemovePairTwice` | main.py:124-125 | cancelling twice is cancelling once, and the order of the two users does not matter |
| `Registry.RemovePairKeepsPaired` | main.py:104-125 | cancelling a duel whose two users hold only that duel keeps the registry paired |
| `Registry.Promote` | main.py:255-256 | exactly the two records change, and only in their state |
| `Registry.PromoteKeepsPaired` | main.py:388-389 | moving a mirrored pair to another state keeps the registry paired |
| `Registry.RemoveAfterPromote` | main.py:255-262 | a state change followed by the cancel of the same pair leaves what the cancel alone leaves |
| `Registry.Challenge` | main.py:186-228 | each reply holds exactly when its guard does: self-challenge, bot opponent, failed deferral, either user already engaged, challenge not announced; on every refusal or failure the registry is as found; on success exactly two mirrored pending records are added, the challenger's marked, both with the command's channel and guild, and every other record is unchanged |
| `Registry.ChallengeKeepsPaired` | main.py:209-214 | /duel keeps the registry paired |
| `Registry.Accept` | main.py:232-275 | nothing changes unless the caller holds a pending challenge they did not issue; a stale mirror, or a failed fetch or announcement, cancels both records; success, exactly when both guards pass and both calls succeed, moves exactly the two records to awaiting_roles and names the challenger |
| `Registry.PairedAcceptNeverStale` | main.py:243-250 | in a paired registry the mirror test never fails |
| `Registry.AcceptKeepsPaired` | main.py:255-274 | /accept keeps the registry paired |
| `Registry.AcceptAsWritten` | main.py:255-262 | as written, a fetch failure other than NotFound, on a caller who may accept, ends the handler with exactly the two records moved to awaiting_roles and every other record unchanged; every other reply is the one `Accept` gives, with the same registry |
| `Registry.Decline` | main.py:279-304 | only a pending non-challenger can decline; the cleanup removes exactly the pair, and a failed reply to the decliner leaves the registry as found |
| `Registry.Drop` | main.py:308-331 | only the pending challenger can drop; the cleanup removes exactly the pair, and a failed reply leaves the registry as found |
| `Registry.DeclineKeepsPaired` | main.py:279-304 | /decline keeps the registry paired |
| `Registry.DropKeepsPaired` | main.py:308-331 | /drop keeps the registry paired |
| `Registry.BeginGame` | main.py:368-402 | the entry guard fails exactly when the records are not an awaiting_roles pair pointing at each other, and then both players are cleared; otherwise both move to awaiting_numbers, and a failed role announcement cancels both |
| `Registry.AcceptedIsReadyForRoles` | main.py:368-372 | right after a successful /accept, the game flow's entry guard passes |
| `Registry.BeginGameKeepsPaired` | main.py:368-402 | the entry of the game flow keeps the registry paired when neither player holds a different duel |
| `Registry.DuelTable.constructor` | main.py:24 | the registry starts empty and paired |
| `Registry.DuelTable.ClearDuelData` | main.py:100-101 | in place, leaves the registry `ClearUser` describes |
| `Registry.DuelTable.CancelDuelAndCleanup` | main.py:104-125 | in place, leaves the registry `RemovePair` describes, paired when it was |
| `Registry.DuelTable.DuelCommand` | main.py:186-228 | in place, the reply and registry of `Challenge`, paired when it was |
| `Registry.DuelTable.AcceptCommand` | main.py:232-274 | in place, the reply and registry of `Accept`, paired when it was |
| `Registry.DuelTable.DeclineCommand` | main.py:279-304 | in place, the reply and registry of `Decline`, paired when it was |
| `Registry.DuelTable.DropCommand` | main.py:308-331 | in place, the reply and registry of `Drop`, paired when it was |
| `Registry.DuelTable.StartGame` | main.py:368-402 | in place, the reply and registry of `BeginGame` |
| `Answers.DigitsValue` | main.py:424 | the definition of `int()` on a digit string; its inverse `Answers.Decimal` and `Answers.LeadingZeroValue` carry its properties |
| `Answers.IsAnswer` | main.py:424 | the definition of the content test (`isdigit()` and the range 1..60); its properties are carried by `Answers.DecimalIsAnswer`, `Answers.LeadingZeroAnswer`, `Answers.NonDigitRejected` and `Answers.AnswerExamples` |
| `Answers.AnswerValue` | main.py:427-428 | the choice a valid reply stands for lies in 1..MAX_NUMBER |
| `Answers.Decimal` | main.py:424 | the decimal spelling of n is a digit string that reads back as n, with no leading zero unless n is 0 |
| `Answers.DecimalIsAnswer` | main.py:424 | every number 1..60 written out is accepted and read back as itself |
| `Answers.LeadingZeroValue` | main.py:424 | a leading zero does not change the value `int()` reads |
| `Answers.LeadingZeroAnswer` | main.py:424 | a reply padded with a leading zero is accepted exactly when the reply is, for the same choice |
| `Answers.NonDigitRejected` | main.py:424 | a reply with any non-digit character is refused |
| `Answers.AnswerExamples` | main.py:424 | "1", "60" and "007" are accepted; "", "0", "61", "-5" and "4 " are refused |
| `Resolver.OutcomeName` | main.py:519-537 | the outcome handed to the update is always "win", "loss" or "tie" |
| `Resolver.OutcomeNameInjective` | main.py:519-537 | distinct outcomes are recorded under distinct names |
| `Resolver.OutcomeNameSelects` | main.py:90-95 | each outcome's name selects exactly the counter of that outcome in update_player_stats |
| `Resolver.Resolve` | main.py:516-538 | the checker wins exactly when their number is higher, the dropper exactly when theirs is, a tie exactly when they are equal; the winner gets 10 points, a caught dropper loses the margin, a beaten checker and both sides of a tie get 0 |
| `Resolver.OutcomesMirror` | main.py:516-538 | one side wins exactly when the other loses, and a tie is a tie for both |
| `Resolver.WinnerTakesTen` | main.py:523-538 | the winner gains exactly POINTS_PER_DUEL_WIN, a non-winner never gains, and the checker never loses points |
| `Resolver.DropperLossBounded` | main.py:523-529 | for choices in 1..60 a caught dropper loses between 1 and 59 points |
| `Resolver.ResolveShiftInvariant` | main.py:523-538 | the rule depends only on the difference of the two numbers |
| `Duel.CheckMsg` | main.py:420-424 | the definition of check_msg; what it selects is carried by `Duel.FirstAccepted`, `Duel.ReplyOf` and `Duel.RefusedMessageIgnored` |
| `Duel.FirstAccepted` | main.py:420-428 | the index returned is that of a message check_msg accepts, and no earlier message is accepted; None exactly when no message is accepted |
| `Duel.ReplyOf` | main.py:404-436 | a player gives a choice exactly when they are awaiting numbers, the DM was delivered and some received message passes check_msg; the choice is the first accepted message's value, in 1..60; the DM fails exactly when it is undeliverable; an awaiting player with a delivered DM times out exactly when no received message passes check_msg; the reply is `NotAwaiting` (the source's `None`) exactly when the player is not awaiting numbers |
| `Duel.RefusedMessageIgnored` | main.py:420-424 | a message check_msg refuses, whatever its author, channel or content, does not change the player's reply |
| `Duel.GameUpdates` | main.py:540-541 | a resolved game makes two updates in the game's guild, the dropper's then the checker's, both with a known outcome |
| `Duel.PlayGame` | main.py:361-570 | every ending removes exactly both players' records; the game starts exactly when the entry guard passes and the roles are announced; scores change only for a completed game; a started game is completed exactly when both players' replies are choices; then the dropper and checker are the drawn ones, both choices are their first accepted replies, in 1..60, resolved by the rule, and the table receives exactly the two updates |
| `Duel.StartedPlayersAwaitNumbers` | main.py:388-389 | after a passing entry guard both players are awaiting numbers |
| `Duel.PlayGameKeepsPaired` | main.py:569-570 | a game keeps the registry paired |
| `Duel.PlayGameKeepsWellCounted` | main.py:540-541 | a game keeps every record's games identity |
| `Duel.GameUpdatesFor` | main.py:540-541 | of a game between two players, only the dropper's update addresses the dropper and only the checker's the checker |
| `Duel.GameScoreEffect` | main.py:516-541 | after a game each player's record in the game's guild carries their name, gained one game and exactly that side's points, and one more in exactly the counter that side's outcome names; every other record reads as before |
| `Duel.GameUpdatesLeaveOthers` | main.py:540-541 | a record no update of the game addresses reads as before |
| `Duel.RunGameFlow` | main.py:361-570 | in place on the registry and the store, leaves what `PlayGame` describes and returns its result |
| `Session.AcceptStep` | main.py:232-275 | the corrected /accept never crashes its handler |
| `Session.AcceptStepKeepsPaired` | main.py:255-262 | both versions of /accept keep the registry paired |
| `Session.HandleKeepsInvariants` | main.py:186-331 | every command keeps the registry paired and the scores well counted |
| `Session.RunKeepsInvariants` | main.py:186-331 | so does every sequence of commands |
| `Session.HandleLeavesSettled` | main.py:236-314 | no command changes a record that has left pending_acceptance outside a running game |
| `Session.RunLeavesSettled` | main.py:236-314 | no sequence of commands changes such a record |
| `Session.HandleKeepsOnlyPending` | main.py:255-275 | with the corrected /accept, a command leaves only pending records behind |
| `Session.CorrectedRunLeavesOnlyPending` | main.py:255-275 | so does every sequence of commands of the corrected bot |
| `Session.FetchFailureStrandsPair` | main.py:257-262 | after the as-written fetch failure both records stay in awaiting_roles whatever commands follow, and the acceptor can never challenge again; the corrected handler clears both |
| `Session.ExampleChallengeStep` | main.py:209-214 | /duel from 1 to 2 on an empty registry inserts the two mirrored pending records |
| `Session.ExampleAcceptStep` | main.py:255-256 | /accept by 2 moves both to awaiting_roles and names 1 |
| `Session.ExampleStartStep` | main.py:388-389 | the game flow moves both to awaiting_numbers |
| `Session.ExampleReplies` | main.py:420-436 | "40" is the dropper's choice; the checker's "0" is skipped and "25" chosen; out-of-range, foreign and wrong-channel replies time out |
| `Session.ExampleRun` | main.py:232-275 | the two example commands reach the game |
| `Session.FullDuelExample` | main.py:516-570 | 40 against 25: the dropper's record reads 10 points and 1 win, the checker's 0 points and 1 loss, and the registry is empty |
| `Session.TimeoutExample` | main.py:426-496 | a checker who never sends an acceptable number cancels the duel; no score is recorded and the registry is empty |

## Left out

- All Discord traffic is outside the model: sending, editing and deferring messages, embeds, command sync, `on_ready`, `on_message`, `on_command_error` and `/start`. Each fallible call that decides a branch is a boolean or a `FetchResult` parameter. Every other send, including the error reports inside `except` blocks and the DMs of `cancel_duel_and_cleanup`, is assumed to end as its own `try` says.
- A failure inside the error-reporting `except` blocks of `/duel` and `/accept` is not modelled. At main.py:219-225 and main.py:267-271, any exception other than `NotFound` would skip the cleanup.
- `Registry.Accept` takes two more replies of `/accept` to succeed, and so does `Registry.AcceptAsWritten`:
  - The unguarded reply to a stale challenge at main.py:247: if it raises, the clears at main.py:248-249 are skipped.
  - The reply inside `except discord.NotFound` at main.py:260: if it raises (for example because the interaction has expired), the cleanup at main.py:261 is skipped and both records stay in awaiting_roles. That is the same stranding as the finding below. The model clears both records on `UserNotFound`.
- Handlers run one at a time in the model. In the bot, a handler can be suspended at an await between its guard and its change to the registry, or between two changes: `/duel` at main.py:217, after inserting the pair at main.py:209-214 and before its cleanup at main.py:228 (meanwhile the opponent's `/accept` can start the game, whose records that cleanup then deletes); `/decline` at main.py:291 and 296 before 302, `/drop` at main.py:320 and 324 before 329, and `/accept` at main.py:258 and 264 before 275. The model does not capture what such interleavings do.
  For example, B's `/decline` passes its guard at main.py:282 and waits in `fetch_user(A)`. Meanwhile A runs `/drop`, which clears both records, and then `/duel C`. B's cleanup at main.py:302 then deletes A's new record and leaves C's record without a partner.
  So `Paired`, `Registry.PairedAcceptNeverStale` and the `*KeepsPaired` lemmas hold only when handlers do not interleave.
- The asyncio race is reduced to its result: `create_task`, `asyncio.wait(FIRST_COMPLETED)`, cancellation and the 30-second timeout (main.py:426-478).
  - Each player's exchange is a value: the messages received before the timeout.
  - Any DM failure or timeout, on either side, cancels the duel. That is what every interleaving of the source ends in.
  - Guards that only a concurrent change of the registry could trip cannot fire in a sequential model, and are not modelled separately: main.py:405-409, 430-431, 488-492, 506-508. `ReplyOf` keeps the first two as `NotAwaiting`, and the model then cancels the duel. That agrees with the source's cleanup at main.py:509-514 only while both records still exist. With a record already missing, the source returns at main.py:506-508 without any cleanup.
- JSON persistence is file I/O: `load_scores_data`, `save_scores_data`, and the save at the end of every update.
- `Scores.UpdatePlayerStats` takes the save at main.py:96 to succeed. If it raises after the dropper's update at main.py:540, the checker's update at main.py:541 and the clears at main.py:569-570 are skipped. The dropper is then scored, and both records stay in awaiting_numbers.
- `/stats` is display code, and so is its win rate, a float computation (main.py:336-357).
- `GLOBAL_GAME_ROUND` and the text of every message are display only.
- The random role draw is the parameter `dropperIsP1`, not a modelled random generator.
- Configuration and the token (main.py:12-15, 575-588) are left out.
- `str.isdigit` is modelled on ASCII digits only. Python also accepts other Unicode digits, and `int()` rejects some of them, for example "²". For such a reply, `int()` raises `ValueError` inside `check_msg`, `wait_for` passes it on, and main.py:499-504 cancels the duel. `ReplyOf` instead skips the message as refused and goes on to the next one.
- /accept issued outside a guild is not modelled: `original_channel.guild` is then missing, and main.py:365 raises with both records already in awaiting_roles. A guild id is always taken as given.

## Findings

| source | as written | input that shows it | evidently intended | confidence | as-written member | corrected member |
|---|---|---|---|---|---|---|
| main.py:255-262 | `accept_command` first moves both records to awaiting_roles. It then catches only `discord.NotFound` from `fetch_user`, so any other failure escapes the handler and leaves both records in awaiting_roles. No command ever touches such a record again, and `/duel` refuses both users (`Session.FetchFailureStrandsPair`). | user 2 holds a pending challenge from user 1 and sends /accept; `fetch_user(1)` raises `discord.HTTPException`, for example a 503 | every failure to fetch the challenger cancels the duel and clears both records, as the `NotFound` branch does | not executed; medium | `Registry.AcceptAsWritten` | `Registry.Accept` |
