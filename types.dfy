/** Identifiers, configuration constants and the Option type shared by the duel bot's model. */
module Types {
  /** Discord snowflakes. The score store keys its maps by their decimal text, which is
      injective on integers, so the model keys by the integers themselves. */
  type UserId = int
  type ChannelId = int
  type GuildId = int

  /** POINTS_PER_DUEL_WIN in main.py. */
  const PointsPerDuelWin: int := 10
  /** MAX_NUMBER in main.py: the largest number a player may pick. */
  const MaxNumber: int := 60

  datatype Option<+T> = None | Some(value: T)
}
