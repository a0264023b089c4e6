/** The scoring rule of a finished game: the dropper's and the checker's numbers decide the
    outcome and the points of each side. */
module Resolver {
  import opened Types

  datatype GameOutcome = Win | Loss | Tie

  /** The outcome string handed to update_player_stats. */
  function OutcomeName(o: GameOutcome): (s: string)
    ensures s == "win" || s == "loss" || s == "tie"
  {
    match o
    case Win => "win"
    case Loss => "loss"
    case Tie => "tie"
  }

  /** Distinct outcomes are recorded under distinct names. */
  lemma OutcomeNameInjective(a: GameOutcome, b: GameOutcome)
    ensures OutcomeName(a) == OutcomeName(b) <==> a == b
  {
    if a != b {
      assert OutcomeName(a)[0] != OutcomeName(b)[0];
    }
  }

  /** Each outcome name selects exactly one of the three counters update_player_stats raises. */
  lemma OutcomeNameSelects(o: GameOutcome)
    ensures OutcomeName(o) == "win" <==> o == Win
    ensures OutcomeName(o) == "loss" <==> o == Loss
    ensures OutcomeName(o) == "tie" <==> o == Tie
  {
    OutcomeNameInjective(o, Win);
    OutcomeNameInjective(o, Loss);
    OutcomeNameInjective(o, Tie);
  }

  /** The outcome of each side and the points each side gets for one game. */
  datatype Resolution = Resolution(
    dropperOutcome: GameOutcome,
    checkerOutcome: GameOutcome,
    dropperDelta: int,
    checkerDelta: int)

  /** The rule: a checker above the dropper catches them, wins PointsPerDuelWin, and the
      dropper loses the margin; a dropper above the checker wins PointsPerDuelWin and the
      checker gets nothing; equal numbers are a tie worth nothing to either side. */
  function Resolve(dropper: int, checker: int): (r: Resolution)
    ensures r.checkerOutcome == Win <==> checker > dropper
    ensures r.dropperOutcome == Win <==> dropper > checker
    ensures r.dropperOutcome == Tie <==> dropper == checker
    ensures checker > dropper ==>
      r.dropperOutcome == Loss && r.checkerDelta == PointsPerDuelWin && r.dropperDelta == dropper - checker
    ensures dropper > checker ==>
      r.checkerOutcome == Loss && r.dropperDelta == PointsPerDuelWin && r.checkerDelta == 0
    ensures dropper == checker ==>
      r.checkerOutcome == Tie && r.dropperDelta == 0 && r.checkerDelta == 0
  {
    if checker > dropper then Resolution(Loss, Win, -(checker - dropper), PointsPerDuelWin)
    else if dropper > checker then Resolution(Win, Loss, PointsPerDuelWin, 0)
    else Resolution(Tie, Tie, 0, 0)
  }

  /** The outcome seen from the other side. */
  function Opposite(o: GameOutcome): (r: GameOutcome) {
    match o
    case Win => Loss
    case Loss => Win
    case Tie => Tie
  }

  /** The two sides' outcomes mirror each other: one wins exactly when the other loses. */
  lemma OutcomesMirror(dropper: int, checker: int)
    ensures Resolve(dropper, checker).checkerOutcome == Opposite(Resolve(dropper, checker).dropperOutcome)
  {
  }

  /** The winner always gains exactly PointsPerDuelWin, a loser never gains, and the checker
      never loses points. */
  lemma WinnerTakesTen(dropper: int, checker: int)
    ensures var r := Resolve(dropper, checker);
      && (r.dropperOutcome == Win ==> r.dropperDelta == PointsPerDuelWin)
      && (r.checkerOutcome == Win ==> r.checkerDelta == PointsPerDuelWin)
      && (r.dropperOutcome != Win ==> r.dropperDelta <= 0)
      && (r.checkerOutcome != Win ==> r.checkerDelta == 0)
  {
  }

  /** For choices in 1..MAX_NUMBER, a caught dropper loses between 1 and MAX_NUMBER - 1
      points, so a game moves a dropper's total by at most PointsPerDuelWin up or 59 down. */
  lemma DropperLossBounded(dropper: int, checker: int)
    requires 1 <= dropper <= MaxNumber && 1 <= checker <= MaxNumber
    ensures var r := Resolve(dropper, checker);
      && (r.dropperOutcome == Loss ==> 1 <= -r.dropperDelta <= MaxNumber - 1)
      && -(MaxNumber - 1) <= r.dropperDelta <= PointsPerDuelWin
  {
  }

  /** The rule depends only on the order of the two numbers and, for the caught dropper, on
      their difference: shifting both numbers by the same amount changes nothing. */
  lemma ResolveShiftInvariant(dropper: int, checker: int, k: int)
    ensures Resolve(dropper + k, checker + k) == Resolve(dropper, checker)
  {
  }
}
