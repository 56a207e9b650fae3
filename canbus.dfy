/** CAN frames as the two boards exchange them, and the four identifiers of the game protocol. */
module CanBus {
  import opened Ascii

  /** `CAN_RTR_DATA` or `CAN_RTR_REMOTE`. */
  datatype Kind = Data | Remote

  /** A standard-identifier frame: `StdId`, the RTR bit, `DLC` and the data bytes.
      A remote frame carries a DLC but no data. */
  datatype Frame = Frame(stdId: int, kind: Kind, dlc: nat, payload: seq<uint8>)

  /** What the bus controller can carry: an 11-bit identifier, at most 8 data bytes,
      exactly DLC bytes in a data frame and none in a remote frame. */
  predicate WellFormed(f: Frame) {
    && 0 <= f.stdId <= 0x7FF
    && f.dlc <= 8
    && (f.kind == Data ==> |f.payload| == f.dlc)
    && (f.kind == Remote ==> f.payload == [])
  }

  predicate AllWellFormed(fs: seq<Frame>) {
    forall k | 0 <= k < |fs| :: WellFormed(fs[k])
  }

  /** Byte `k` of the receive buffer `rcvd_msg[8]` after `HAL_CAN_GetRxMessage`: a byte the
      frame carries, or, past its DLC, `residue`, whatever the receive mailbox's data register
      happens to hold there. */
  function RxByte(f: Frame, k: nat, residue: uint8): (b: uint8)
    requires k < 8
  {
    if k < |f.payload| then f.payload[k] else residue
  }

  /** Each board reads back the bytes the other put in its frames, whatever the mailbox holds
      beyond them: the hand, the result, and the four counters in order. */
  lemma ReadBack(hand: uint8, winner: uint8, stray: uint8, a: uint8, b: uint8, c: uint8, d: uint8, k: nat, residue: uint8)
    requires k < 4
    ensures RxByte(HandFrame(hand), 0, residue) == hand
    ensures RxByte(ResultFrame(winner, stray), 0, residue) == winner
    ensures RxByte(StatsFrame(a, b, c, d), k, residue) == [a, b, c, d][k]
  {
  }

  /** Nucleo's hand (0 rock, 1 paper, 2 scissors), Nucleo to Disc. */
  const HAND_ID: int := 0x49F
  /** The round's result (1..4), Disc to Nucleo. */
  const RESULT_ID: int := 0x111
  /** Score: remote request Disc to Nucleo, data reply Nucleo to Disc. */
  const STATS_ID: int := 0x633
  /** Go to Standby, Nucleo to Disc. */
  const SLEEP_ID: int := 0x77B

  /** Nucleo's `CAN1_Tx`: one data byte holding the hand. */
  function HandFrame(hand: uint8): Frame {
    Frame(HAND_ID, Data, 1, [hand])
  }

  /** Disc's `send_game_result`: DLC 2, but the firmware hands the controller the address of a
      single byte, so the second data byte is whatever lies next to it in memory (`stray`). */
  function ResultFrame(winner: uint8, stray: uint8): Frame {
    Frame(RESULT_ID, Data, 2, [winner, stray])
  }

  /** Disc's `CAN1_Tx`: a remote frame asking for the 4-byte score. */
  const STATS_REQUEST: Frame := Frame(STATS_ID, Remote, 4, [])

  /** Nucleo's `send_game_stats`: the four counters, in the order of the score line. */
  function StatsFrame(nucleoWins: uint8, discWins: uint8, ties: uint8, gameErr: uint8): Frame {
    Frame(STATS_ID, Data, 4, [nucleoWins, discWins, ties, gameErr])
  }

  /** Nucleo's `send_sleep_msg`: one byte whose value is irrelevant (0). */
  const SLEEP_FRAME: Frame := Frame(SLEEP_ID, Data, 1, [0])

  /** Every frame either board puts on the bus is one the controller can carry. */
  lemma ProtocolFramesWellFormed(hand: uint8, winner: uint8, stray: uint8, a: uint8, b: uint8, c: uint8, d: uint8)
    ensures WellFormed(HandFrame(hand)) && WellFormed(ResultFrame(winner, stray))
    ensures WellFormed(STATS_REQUEST) && WellFormed(StatsFrame(a, b, c, d)) && WellFormed(SLEEP_FRAME)
  {
  }
}
