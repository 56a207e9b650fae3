/** The Discovery board: it referees each round against Nucleo's hand, shows the result on its
    four LEDs and reports it back, asks Nucleo for the score when its user button has been held
    for 100 ms, and goes to Standby when Nucleo tells it to. */
module Disc {
  import opened Ascii
  import opened CanBus
  import opened Mcu

  // ---------------------------------------------------------------------------------------------
  // Determine_Win

  /** Hands are 0 rock, 1 paper, 2 scissors; results are 1 Nucleo (player 1) wins, 2 Disc
      (player 2) wins, 3 a tie, 4 an error. The six winning pairs are tested first, then
      equality, so two equal bytes are a tie even when neither is a hand. */
  function DetermineWin(player1: uint8, player2: uint8): (r: uint8)
    ensures 1 <= r <= 4
    ensures r == 3 <==> player1 == player2
    ensures r == 4 <==> player1 != player2 && (player1 > 2 || player2 > 2)
  {
    if player1 == 0 && player2 == 1 then 2
    else if player1 == 0 && player2 == 2 then 1
    else if player1 == 1 && player2 == 0 then 1
    else if player1 == 1 && player2 == 2 then 2
    else if player1 == 2 && player2 == 0 then 2
    else if player1 == 2 && player2 == 1 then 1
    else if player1 == player2 then 3
    else 4
  }

  /** The rule of the game, independently of the if-chain: each hand beats the one before it
      in the cycle rock, paper, scissors. */
  predicate Beats(a: uint8, b: uint8)
    requires a <= 2 && b <= 2
  {
    (a - b + 3) % 3 == 1
  }

  /** For two hands, `Determine_Win` follows the rule: player 1 wins exactly when its hand beats
      the other, player 2 exactly when the other beats it. */
  lemma DetermineWinFollowsRule(player1: uint8, player2: uint8)
    requires player1 <= 2 && player2 <= 2
    ensures DetermineWin(player1, player2) == 1 <==> Beats(player1, player2)
    ensures DetermineWin(player1, player2) == 2 <==> Beats(player2, player1)
    ensures DetermineWin(player1, player2) != 4
  {
  }

  /** The result seen from the other side: wins exchange, ties and errors stay. */
  function Mirror(r: uint8): uint8 {
    if r == 1 then 2 else if r == 2 then 1 else r
  }

  /** Swapping the two players mirrors the result, for any two bytes. */
  lemma DetermineWinSwap(player1: uint8, player2: uint8)
    ensures DetermineWin(player2, player1) == Mirror(DetermineWin(player1, player2))
  {
  }

  // ---------------------------------------------------------------------------------------------
  // manage_LED_output

  /** LED1 (green, PD12) to LED4 (blue, PD15) after `manage_LED_output(id)`: results 1..4 light
      LED `id` alone; any other value leaves the pins as they were. */
  function LedsFor(id: uint8, prev: seq<bool>): (r: seq<bool>)
    requires |prev| == 4
    ensures |r| == 4
    ensures 1 <= id <= 4 ==> forall k | 0 <= k < 4 :: r[k] <==> k == id - 1
    ensures !(1 <= id <= 4) ==> r == prev
  {
    match id
    case 1 => [true, false, false, false]
    case 2 => [false, true, false, false]
    case 3 => [false, false, true, false]
    case 4 => [false, false, false, true]
    case _ => prev
  }

  /** The result the LEDs show: the number of the first LED that is on, or 0 when all are off. */
  function Shown(leds: seq<bool>): nat
    requires |leds| == 4
  {
    if leds[0] then 1 else if leds[1] then 2 else if leds[2] then 3 else if leds[3] then 4 else 0
  }

  /** Reading the LEDs back gives the result they were set to. */
  lemma ShownLedsFor(id: uint8, prev: seq<bool>)
    requires |prev| == 4 && 1 <= id <= 4
    ensures Shown(LedsFor(id, prev)) == id
  {
  }

  // ---------------------------------------------------------------------------------------------
  // The 1 ms debounce of the user button

  /** `debounce_cnt` after one tick, and whether the tick sends the stats request. */
  datatype Tick = Tick(count: uint8, fire: bool)

  /** A high sample increments the 8-bit counter and a low one clears it; reaching 100 clears it
      and fires. */
  function DebounceStep(count: uint8, high: bool): Tick {
    var next := if high then (count + 1) % 256 else 0;
    if next == 100 then Tick(0, true) else Tick(next, false)
  }

  /** `debounce_cnt` after the samples `samples`, from 0 at reset. */
  function DebounceCount(samples: seq<bool>): uint8
    decreases |samples|
  {
    if samples == [] then 0
    else DebounceStep(DebounceCount(samples[..|samples| - 1]), samples[|samples| - 1]).count
  }

  /** Whether the last tick of `samples` sent the request. */
  predicate Fires(samples: seq<bool>) {
    samples != [] && DebounceStep(DebounceCount(samples[..|samples| - 1]), samples[|samples| - 1]).fire
  }

  /** How many ticks of `samples` sent the request. */
  function FireCount(samples: seq<bool>): nat
    decreases |samples|
  {
    if samples == [] then 0 else FireCount(samples[..|samples| - 1]) + if Fires(samples) then 1 else 0
  }

  /** The length of the run of high samples at the end of `samples`. */
  function TrailingHighs(samples: seq<bool>): nat
    decreases |samples|
  {
    if samples == [] || !samples[|samples| - 1] then 0 else TrailingHighs(samples[..|samples| - 1]) + 1
  }

  /** The counter is the length of the current run of highs modulo 100; in particular it never
      reaches 100 between ticks, so it never wraps. */
  lemma {:induction false} DebounceCountIsRun(samples: seq<bool>)
    ensures DebounceCount(samples) == TrailingHighs(samples) % 100
    decreases |samples|
  {
    if samples != [] {
      var prefix := samples[..|samples| - 1];
      var t := TrailingHighs(prefix);
      DebounceCountIsRun(prefix);
      if samples[|samples| - 1] {
        assert TrailingHighs(samples) == t + 1;
        assert (t % 100 + 1) % 256 == t % 100 + 1;
        if t % 100 == 99 {
          assert (t + 1) % 100 == 0;
        } else {
          assert (t + 1) % 100 == t % 100 + 1;
        }
      }
    }
  }

  /** A tick fires exactly when the run of highs it ends is a positive multiple of 100 long. */
  lemma FiresOnHundreds(samples: seq<bool>)
    ensures Fires(samples) <==> TrailingHighs(samples) > 0 && TrailingHighs(samples) % 100 == 0
  {
    if samples != [] {
      var prefix := samples[..|samples| - 1];
      var t := TrailingHighs(prefix);
      DebounceCountIsRun(prefix);
      assert DebounceCount(prefix) == t % 100;
      if samples[|samples| - 1] {
        assert TrailingHighs(samples) == t + 1;
        assert (t % 100 + 1) % 256 == t % 100 + 1;
        assert t % 100 == 99 <==> (t + 1) % 100 == 0;
      }
    }
  }

  /** What one more sample does to the counter, the firing and the running total. */
  lemma TickFacts(prev: seq<bool>, high: bool)
    ensures var samples := prev + [high];
      var step := DebounceStep(DebounceCount(prev), high);
      && DebounceCount(samples) == step.count
      && (Fires(samples) <==> step.fire)
      && FireCount(samples) == FireCount(prev) + (if step.fire then 1 else 0)
      && DebounceCount(samples) < 100
  {
    var samples := prev + [high];
    assert samples[..|samples| - 1] == prev;
    DebounceCountIsRun(samples);
  }

  /** `n` high samples. */
  function Highs(n: nat): (r: seq<bool>)
  {
    seq(n, _ => true)
  }

  /** Holding the button for `n` ms from a release (or from reset) sends the request once every
      100 ms: `n / 100` times. */
  lemma {:induction false} HeldButtonFires(h: seq<bool>, n: nat)
    requires h == [] || !h[|h| - 1]
    ensures TrailingHighs(h + Highs(n)) == n
    ensures FireCount(h + Highs(n)) == FireCount(h) + n / 100
    decreases n
  {
    if n == 0 {
      assert h + Highs(0) == h;
    } else {
      var s := h + Highs(n);
      assert s[..|s| - 1] == h + Highs(n - 1);
      HeldButtonFires(h, n - 1);
      FiresOnHundreds(s);
    }
  }

  // ---------------------------------------------------------------------------------------------
  // The board

  /** How the receive callback classifies a frame by its identifier and RTR bit. */
  datatype Route = HandReceived | StatsReport | SleepOrder | Ignored

  function RouteOf(f: Frame): Route {
    if f.stdId == HAND_ID && f.kind == Data then HandReceived
    else if f.stdId == STATS_ID && f.kind == Data then StatsReport
    else if f.stdId == SLEEP_ID && f.kind == Data then SleepOrder
    else Ignored
  }

  /** Number of times frame `f` occurs in `fs`. */
  function Occurrences(fs: seq<Frame>, f: Frame): nat
    decreases |fs|
  {
    if fs == [] then 0 else Occurrences(fs[..|fs| - 1], f) + if fs[|fs| - 1] == f then 1 else 0
  }

  lemma OccurrencesAppend(fs: seq<Frame>, g: Frame, f: Frame)
    ensures Occurrences(fs + [g], f) == Occurrences(fs, f) + if g == f then 1 else 0
  {
    assert (fs + [g])[..|fs|] == fs;
  }

  /** The board's global state: the debounce counter, the four LED pins, the power controller's
      SB and WU flags and wake-up pin enable, and the frames handed to the CAN controller. */
  class Board {
    var debounceCnt: uint8
    var leds: seq<bool>
    var sbFlag: bool
    var wuFlag: bool
    var wakePinArmed: bool
    var outbox: seq<Frame>
    var power: PowerMode
    /** The button samples since the last reset, one per 1 ms tick. */
    ghost var samples: seq<bool>
    /** Stats requests sent before the last reset. */
    ghost var earlierRequests: nat

    ghost predicate Valid()
      reads this
    {
      && |leds| == 4
      && AllWellFormed(outbox)
      && debounceCnt == DebounceCount(samples) && debounceCnt < 100
      && (power == Standby ==> wakePinArmed)
      && (power != Halted ==> Occurrences(outbox, STATS_REQUEST) == earlierRequests + FireCount(samples))
    }

    /** A reset, after power-on (`sb` clear) or on leaving Standby (`sb` and `wu` set by the
        hardware): RAM variables start from 0 and the LEDs are off. */
    constructor (sb: bool, wu: bool, history: seq<Frame>)
      requires AllWellFormed(history)
      ensures Valid()
      ensures debounceCnt == 0 && leds == [false, false, false, false] && samples == []
      ensures sbFlag == sb && wuFlag == wu && !wakePinArmed && outbox == history && power == Running
    {
      debounceCnt := 0;
      leds := [false, false, false, false];
      sbFlag, wuFlag := sb, wu;
      wakePinArmed := false;
      outbox := history;
      power := Running;
      samples := [];
      earlierRequests := Occurrences(history, STATS_REQUEST);
    }

    /** `clear_sleep_flags`, the first thing `main` does: SB and WU are cleared only when SB says
        the board woke up from Standby. */
    method ClearSleepFlags()
      modifies this`sbFlag, this`wuFlag
      ensures old(sbFlag) ==> !sbFlag && !wuFlag
      ensures !old(sbFlag) ==> !sbFlag && wuFlag == old(wuFlag)
    {
      if sbFlag {
        sbFlag := false;
        wuFlag := false;
      }
    }

    /** TIM6's period elapsed (every 1 ms): sample the button (`high` is PA0's level) and send
        the stats request once the counter reaches 100. */
    method OnTimerElapsed(high: bool, txOk: bool)
      requires Valid() && power == Running
      modifies this`debounceCnt, this`samples, this`outbox, this`power
      ensures Valid()
      ensures samples == old(samples) + [high] && debounceCnt == DebounceCount(samples)
      ensures Fires(samples) && txOk ==> outbox == old(outbox) + [STATS_REQUEST] && power == Running
      ensures Fires(samples) && !txOk ==> outbox == old(outbox) && power == Halted
      ensures !Fires(samples) ==> outbox == old(outbox) && power == Running
    {
      TickFacts(samples, high);
      samples := samples + [high];
      if high {
        debounceCnt := (debounceCnt + 1) % 256;
      } else {
        debounceCnt := 0;
      }
      if debounceCnt == 100 {
        debounceCnt := 0;
        OccurrencesAppend(outbox, STATS_REQUEST, STATS_REQUEST);
        SendStatsRequest(txOk);
      }
    }

    /** `CAN1_Tx`: the remote frame asking Nucleo for the score. */
    method SendStatsRequest(txOk: bool)
      requires AllWellFormed(outbox)
      modifies this`outbox, this`power
      ensures AllWellFormed(outbox)
      ensures txOk ==> outbox == old(outbox) + [STATS_REQUEST] && power == old(power)
      ensures !txOk ==> outbox == old(outbox) && power == Halted
    {
      if !txOk {
        power := Halted;
        return;
      }
      outbox := outbox + [STATS_REQUEST];
    }

    /** `manage_LED_output`: each case writes all four pins. */
    method ManageLedOutput(id: uint8)
      requires |leds| == 4
      modifies this`leds
      ensures leds == LedsFor(id, old(leds))
    {
      match id {
        case 1 =>
          leds := leds[0 := true];
          leds := leds[1 := false];
          leds := leds[2 := false];
          leds := leds[3 := false];
        case 2 =>
          leds := leds[0 := false];
          leds := leds[1 := true];
          leds := leds[2 := false];
          leds := leds[3 := false];
        case 3 =>
          leds := leds[0 := false];
          leds := leds[1 := false];
          leds := leds[2 := true];
          leds := leds[3 := false];
        case 4 =>
          leds := leds[0 := false];
          leds := leds[1 := false];
          leds := leds[2 := false];
          leds := leds[3 := true];
        case _ =>
      }
    }

    /** `send_game_result`: DLC 2 from a one-byte variable, so the second byte is `stray`. */
    method SendGameResult(winner: uint8, stray: uint8, txOk: bool)
      requires AllWellFormed(outbox)
      modifies this`outbox, this`power
      ensures AllWellFormed(outbox)
      ensures txOk ==> outbox == old(outbox) + [ResultFrame(winner, stray)] && power == old(power)
      ensures !txOk ==> outbox == old(outbox) && power == Halted
    {
      if !txOk {
        power := Halted;
        return;
      }
      outbox := outbox + [ResultFrame(winner, stray)];
    }

    /** `HAL_CAN_RxFifo0MsgPendingCallback`. Nucleo's hand (0x49F data): Disc draws its own hand
        twice with `rand() % 3` and keeps the second (`draw1`, `draw2` stand for the two values
        `rand()` returns), referees, lights the result and sends it back. The score (0x633 data)
        is only printed, stamped with the RTC's date and time. The sleep order (0x77B data) arms
        the wake-up pin and enters Standby. A failed receive, transmit or RTC read ends in
        `Error_handler`. `residue` is what the receive mailbox holds past the frame's DLC. */
    method OnCanReceive(f: Frame, rxOk: bool, residue: uint8, draw1: nat, draw2: nat, stray: uint8, rtcOk: bool, txOk: bool)
      requires Valid() && power == Running && WellFormed(f)
      modifies this`leds, this`outbox, this`power, this`wakePinArmed
      ensures Valid()
      ensures RouteOf(f) != SleepOrder || !rxOk ==> wakePinArmed == old(wakePinArmed)
      ensures !rxOk ==> power == Halted && leds == old(leds) && outbox == old(outbox)
      ensures rxOk && RouteOf(f) == HandReceived ==>
        var winner := DetermineWin(RxByte(f, 0, residue), draw2 % 3);
        && leds == LedsFor(winner, old(leds))
        && (txOk ==> outbox == old(outbox) + [ResultFrame(winner, stray)] && power == Running)
        && (!txOk ==> outbox == old(outbox) && power == Halted)
      ensures rxOk && RouteOf(f) == StatsReport ==>
        leds == old(leds) && outbox == old(outbox) && (rtcOk ==> power == Running) && (!rtcOk ==> power == Halted)
      ensures rxOk && RouteOf(f) == SleepOrder ==>
        leds == old(leds) && outbox == old(outbox) && wakePinArmed && power == Standby
      ensures rxOk && RouteOf(f) == Ignored ==> unchanged(this)
    {
      if !rxOk {
        power := Halted;
        return;
      }
      if f.stdId == HAND_ID && f.kind == Data {
        var discPick: uint8 := draw1 % 3;
        discPick := draw2 % 3;
        var winner := DetermineWin(RxByte(f, 0, residue), discPick);
        ManageLedOutput(winner);
        OccurrencesAppend(outbox, ResultFrame(winner, stray), STATS_REQUEST);
        SendGameResult(winner, stray, txOk);
      } else if f.stdId == STATS_ID && f.kind == Data {
        if !rtcOk {
          power := Halted;
        }
      } else if f.stdId == SLEEP_ID && f.kind == Data {
        wakePinArmed := true;
        power := Standby;
      }
    }
  }
}
