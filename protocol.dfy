/** The game as the two boards play it together over CAN: which board handles which frame, and
    what one round does to Nucleo's score. */
module Protocol {
  import opened Ascii
  import opened CanBus
  import opened ScoreStore
  import Nucleo
  import Disc

  /** Every frame one board sends reaches the branch of the other board that handles it, and
      neither board acts on a frame of its own kind. */
  lemma FramesReachTheirHandler(hand: uint8, winner: uint8, stray: uint8, a: uint8, b: uint8, c: uint8, d: uint8)
    ensures Disc.RouteOf(HandFrame(hand)) == Disc.HandReceived
    ensures Disc.RouteOf(StatsFrame(a, b, c, d)) == Disc.StatsReport
    ensures Disc.RouteOf(SLEEP_FRAME) == Disc.SleepOrder
    ensures Nucleo.RouteOf(ResultFrame(winner, stray)) == Nucleo.GameResult
    ensures Nucleo.RouteOf(STATS_REQUEST) == Nucleo.StatsRequest
    ensures Disc.RouteOf(ResultFrame(winner, stray)) == Disc.Ignored && Disc.RouteOf(STATS_REQUEST) == Disc.Ignored
    ensures Nucleo.RouteOf(HandFrame(hand)) == Nucleo.Ignored && Nucleo.RouteOf(SLEEP_FRAME) == Nucleo.Ignored
    ensures Nucleo.RouteOf(StatsFrame(a, b, c, d)) == Nucleo.Ignored
  {
  }

  /** One round: Nucleo sends `hand` (its `rand() % 3`), Disc referees it against `pick` (its
      kept `rand() % 3`) and replies, and Nucleo scores the reply. Exactly the counter the rule
      of the game names moves, by one, and the error counter never does. */
  lemma RoundScoresByRule(s: Score, hand: uint8, pick: uint8, stray: uint8, residue: uint8)
    requires hand <= 2 && pick <= 2
    ensures Disc.Beats(hand, pick) || Disc.Beats(pick, hand) || hand == pick
    ensures var winner := Disc.DetermineWin(RxByte(HandFrame(hand), 0, residue), pick);
      var r := Nucleo.ApplyOutcome(s, RxByte(ResultFrame(winner, stray), 0, residue));
      && r.gameErr == s.gameErr
      && (Disc.Beats(hand, pick) ==> r == s.(nucleoWins := (s.nucleoWins + 1) % 256))
      && (Disc.Beats(pick, hand) ==> r == s.(discWins := (s.discWins + 1) % 256))
      && (hand == pick ==> r == s.(ties := (s.ties + 1) % 256))
  {
    Disc.DetermineWinFollowsRule(hand, pick);
  }
}
