/** The Nucleo board: it plays a hand every timer period, keeps the score of the game in four
    8-bit counters, persists them to backup SRAM after every round, answers Disc's request for
    them, and puts both boards to sleep when the light sensor fires. */
module Nucleo {
  import opened Ascii
  import opened CanBus
  import opened ScoreStore
  import opened Mcu

  /** Size of the STM32F446's backup SRAM in bytes. */
  const BKPSRAM_SIZE: int := 4096

  /** `GPIO_PIN_4` (PC4, the light sensor) and `GPIO_PIN_13` (PC13, the user button). */
  const GPIO_PIN_4: int := 0x0010
  const GPIO_PIN_13: int := 0x2000

  /** The counters after a game-result byte `v`: result `v` in 1..4 increments counter `v` with
      8-bit wrap-around and leaves the other three alone; any other byte changes nothing. */
  function ApplyOutcome(s: Score, v: uint8): (r: Score)
    ensures 1 <= v <= 4 ==> Counter(r, v) == (Counter(s, v) + 1) % 256
    ensures forall k | 1 <= k <= 4 && k != v :: Counter(r, k) == Counter(s, k)
  {
    if v == 1 then s.(nucleoWins := (s.nucleoWins + 1) % 256)
    else if v == 2 then s.(discWins := (s.discWins + 1) % 256)
    else if v == 3 then s.(ties := (s.ties + 1) % 256)
    else if v == 4 then s.(gameErr := (s.gameErr + 1) % 256)
    else s
  }

  /** The counters after a series of result frames, in order. */
  function ApplyAll(s: Score, vs: seq<uint8>): Score
    decreases |vs|
  {
    if vs == [] then s else ApplyAll(ApplyOutcome(s, vs[0]), vs[1..])
  }

  /** Over any series of results, counter `k` has advanced by the number of results equal to `k`,
      modulo 256. */
  lemma {:induction false} ApplyAllTallies(s: Score, vs: seq<uint8>, k: int)
    requires 1 <= k <= 4
    ensures Counter(ApplyAll(s, vs), k) == (Counter(s, k) + Count(vs, k)) % 256
    decreases |vs|
  {
    if vs != [] {
      var s' := ApplyOutcome(s, vs[0]);
      ApplyAllTallies(s', vs[1..], k);
      var e := if vs[0] == k then 1 else 0;
      TallyStep(s, vs[0], k);
      assert Count(vs, k) == e + Count(vs[1..], k);
      ModSum(Counter(s, k) + e, Count(vs[1..], k));
    }
  }

  /** One result advances counter `k` by one exactly when it is `k`. */
  lemma TallyStep(s: Score, v: uint8, k: int)
    requires 1 <= k <= 4
    ensures Counter(ApplyOutcome(s, v), k) == (Counter(s, k) + if v == k then 1 else 0) % 256
  {
  }

  /** Reducing a summand modulo 256 first does not change the sum modulo 256. */
  lemma ModSum(u: int, y: int)
    ensures (u % 256 + y) % 256 == (u + y) % 256
  {
    var q := u / 256;
    assert u == 256 * q + u % 256;
  }

  /** The counters as they come back from backup SRAM after a reset: the game-error count is lost. */
  function Restored(s: Score): Score {
    Score(s.nucleoWins, s.discWins, s.ties, 0)
  }

  /** How the receive callback classifies a frame by its identifier and RTR bit. */
  datatype Route = GameResult | StatsRequest | Ignored

  function RouteOf(f: Frame): Route {
    if f.stdId == RESULT_ID && f.kind == Data then GameResult
    else if f.stdId == STATS_ID && f.kind == Remote then StatsRequest
    else Ignored
  }

  /** The board's global state: the four counters, backup SRAM, the power controller's Standby
      (SB) and Wakeup (WU) flags, TIM6, the backup regulator, the PC5 wake-up line to Disc and
      the frames handed to the CAN controller so far. */
  class Board {
    var score: Score
    const sram: array<uint8>
    var sbFlag: bool
    var wuFlag: bool
    var timerRunning: bool
    var backupRegulator: bool
    /** PC5 is configured as a push-pull output. */
    var pc5Output: bool
    /** Rising edges sent to Disc's wake-up pin. */
    var pc5Pulses: nat
    var outbox: seq<Frame>
    var power: PowerMode
    /** The counters of the last store into backup SRAM, if there was one. */
    ghost var lastStored: Option<Score>

    ghost predicate Valid()
      reads this, sram
    {
      && sram.Length == BKPSRAM_SIZE
      && AllWellFormed(outbox)
      && (power == Standby ==> |outbox| > 0 && outbox[|outbox| - 1] == SLEEP_FRAME && backupRegulator)
      && (lastStored.Some? ==> HoldsLine(sram[..], lastStored.value))
    }

    /** Power-on reset: the counters start at 0, the flags are clear, GPIO_Init has made PC5 an
        output, and backup SRAM holds whatever it holds. */
    constructor (contents: seq<uint8>)
      requires |contents| == BKPSRAM_SIZE
      ensures Valid() && fresh(sram)
      ensures sram[..] == contents && score == ZERO_SCORE
      ensures !sbFlag && !wuFlag && !timerRunning && !backupRegulator
      ensures pc5Output && pc5Pulses == 0 && outbox == [] && power == Running && lastStored == None
    {
      score := ZERO_SCORE;
      sram := new uint8[BKPSRAM_SIZE](i requires 0 <= i < BKPSRAM_SIZE => contents[i]);
      sbFlag, wuFlag := false, false;
      timerRunning, backupRegulator := false, false;
      pc5Output, pc5Pulses := true, 0;
      outbox, power := [], Running;
      lastStored := None;
    }

    /** Leaving Standby through a reset: the hardware sets SB and WU, RAM variables start from
        their initial values, the timer is stopped and PC5 is an output again. Backup SRAM keeps
        its contents, the backup regulator being on. */
    method WakeFromStandby()
      requires Valid() && power == Standby
      modifies this
      ensures Valid()
      ensures sbFlag && wuFlag && score == ZERO_SCORE && !timerRunning && pc5Output && power == Running
      ensures backupRegulator && pc5Pulses == old(pc5Pulses) && outbox == old(outbox)
      ensures lastStored == old(lastStored) && unchanged(sram)
    {
      sbFlag, wuFlag := true, true;
      score := ZERO_SCORE;
      timerRunning := false;
      pc5Output := true;
      power := Running;
    }

    /** `load_bSRAM_score`: after a wake-up from Standby, the counters are what the scan and the
        parser make of backup SRAM. A scan that never ends hangs the board; the store into `stats[4]`,
        undefined in C, is modelled as halting it too. After a power-on reset nothing is loaded. */
    method LoadBackupScore()
      requires Valid() && power == Running
      modifies this`score, this`power
      ensures Valid()
      ensures !sbFlag ==> score == old(score) && power == Running
      ensures sbFlag ==> match LoadSpec(sram[..])
        case Loaded(s) => score == s && power == Running
        case _ => score == old(score) && power == Halted
    {
      if sbFlag {
        var scan := ScanTextLength(sram);
        match scan {
          case Endless =>
            power := Halted;
          case Found(textLength) =>
            var stats := ParseStats(sram, textLength);
            match stats {
              case None =>
                power := Halted;
              case Some(st) =>
                score := Score(st[0], st[1], st[2], st[3]);
            }
        }
      }
    }

    /** `wakeup_disc`: only after a wake-up from Standby, clear SB and WU and send one pulse on
        PC5; on every path PC5 is then returned to a floating input. */
    method WakeupDisc()
      modifies this`sbFlag, this`wuFlag, this`pc5Pulses, this`pc5Output
      ensures old(sbFlag) ==> !sbFlag && !wuFlag && pc5Pulses == old(pc5Pulses) + 1
      ensures !old(sbFlag) ==> !sbFlag && wuFlag == old(wuFlag) && pc5Pulses == old(pc5Pulses)
      ensures !pc5Output
    {
      if sbFlag {
        sbFlag := false;
        wuFlag := false;
        pc5Pulses := pc5Pulses + 1;
      }
      pc5Output := false;
    }

    /** The start of `main`: the score is loaded while SB still says whether the board woke up from
        Standby, and only then does `wakeup_disc` clear it. After a wake-up, the counters last
        stored come back except the game-error count, which comes back as 0. */
    method Boot()
      requires Valid() && power == Running
      modifies this`score, this`power, this`sbFlag, this`wuFlag, this`pc5Pulses, this`pc5Output
      ensures Valid()
      ensures !old(sbFlag) ==> score == old(score) && power == Running && pc5Pulses == old(pc5Pulses)
      ensures old(sbFlag) ==> (power == Running <==> LoadSpec(sram[..]).Loaded?)
      ensures old(sbFlag) && !LoadSpec(sram[..]).Loaded? ==> power == Halted
      ensures power == Running || power == Halted
      ensures old(sbFlag) && power == Running ==> score == LoadSpec(sram[..]).score && pc5Pulses == old(pc5Pulses) + 1
      ensures old(sbFlag) && lastStored.Some? ==> power == Running && score == Restored(lastStored.value)
      ensures power == Running ==> !sbFlag && !pc5Output
      ensures old(sbFlag) && power == Running ==> !wuFlag
      ensures !old(sbFlag) ==> wuFlag == old(wuFlag)
      ensures power == Halted ==>
        && score == old(score) && sbFlag == old(sbFlag) && wuFlag == old(wuFlag)
        && pc5Pulses == old(pc5Pulses) && pc5Output == old(pc5Output)
    {
      if sbFlag && lastStored.Some? {
        LoadHeldLine(sram[..], lastStored.value);
      }
      LoadBackupScore();
      if power == Running {
        WakeupDisc();
      }
    }

    /** `HAL_CAN_RxFifo0MsgPendingCallback`: a 0x111 data frame updates the counters with its first
        byte and stores all four in backup SRAM; a 0x633 remote frame is answered with the counters
        in a 0x633 data frame (`send_game_stats`); any other frame is ignored. A failed receive or
        transmit ends in `Error_handler`. `residue` is what the receive mailbox holds past the
        frame's DLC. */
    method OnCanReceive(f: Frame, rxOk: bool, txOk: bool, residue: uint8)
      requires Valid() && power == Running && WellFormed(f)
      modifies this`score, this`lastStored, this`outbox, this`power, sram
      ensures Valid()
      ensures !rxOk ==>
        && power == Halted && unchanged(sram) && score == old(score) && outbox == old(outbox)
        && lastStored == old(lastStored)
      ensures rxOk && RouteOf(f) == GameResult ==>
        && score == ApplyOutcome(old(score), RxByte(f, 0, residue))
        && lastStored == Some(score) && HoldsLine(sram[..], score)
        && (var n := |ScoreLine(score.nucleoWins, score.discWins, score.ties, score.gameErr)| + 1;
            sram[n..] == old(sram[n..]))
        && outbox == old(outbox) && power == Running
      ensures rxOk && RouteOf(f) == StatsRequest ==>
        && score == old(score) && unchanged(sram) && lastStored == old(lastStored)
        && (txOk ==> outbox == old(outbox) + [StatsFrame(score.nucleoWins, score.discWins, score.ties, score.gameErr)] && power == Running)
        && (!txOk ==> outbox == old(outbox) && power == Halted)
      ensures rxOk && RouteOf(f) == Ignored ==> unchanged(this) && unchanged(sram)
    {
      if !rxOk {
        power := Halted;
        return;
      }
      if f.stdId == RESULT_ID && f.kind == Data {
        RecordResult(RxByte(f, 0, residue));
      } else if f.stdId == STATS_ID && f.kind == Remote {
        SendGameStats(txOk);
      }
    }

    /** The 0x111 branch of the receive callback: update the counters with result `v`, then
        `store_score_in_bSRAM` writes all four to backup SRAM. */
    method RecordResult(v: uint8)
      requires Valid() && power == Running
      modifies this`score, this`lastStored, sram
      ensures Valid()
      ensures score == ApplyOutcome(old(score), v)
      ensures lastStored == Some(score) && HoldsLine(sram[..], score)
      ensures var n := |ScoreLine(score.nucleoWins, score.discWins, score.ties, score.gameErr)| + 1;
        sram[n..] == old(sram[n..])
    {
      score := ApplyOutcome(score, v);
      StoreScore(sram, score.nucleoWins, score.discWins, score.ties, score.gameErr);
      lastStored := Some(score);
    }

    /** `send_game_stats`: one data frame, DLC 4, carrying the four counters. */
    method SendGameStats(txOk: bool)
      requires Valid() && power == Running
      modifies this`outbox, this`power
      ensures Valid()
      ensures txOk ==> outbox == old(outbox) + [StatsFrame(score.nucleoWins, score.discWins, score.ties, score.gameErr)] && power == Running
      ensures !txOk ==> outbox == old(outbox) && power == Halted
    {
      if !txOk {
        power := Halted;
        return;
      }
      outbox := outbox + [StatsFrame(score.nucleoWins, score.discWins, score.ties, score.gameErr)];
    }

    /** TIM6's period elapsed (every 4 s once started): `CAN1_Tx` sends `rand() % 3` as the hand,
        `draw` standing for the value `rand()` returns. */
    method OnTimerElapsed(draw: nat, txOk: bool)
      requires Valid() && power == Running && timerRunning
      modifies this`outbox, this`power
      ensures Valid()
      ensures txOk ==> outbox == old(outbox) + [HandFrame(draw % 3)] && power == Running
      ensures !txOk ==> outbox == old(outbox) && power == Halted
      ensures outbox != old(outbox) ==> outbox[|outbox| - 1].payload[0] <= 2
    {
      if !txOk {
        power := Halted;
        return;
      }
      outbox := outbox + [HandFrame(draw % 3)];
    }

    /** `HAL_GPIO_EXTI_Callback`: the user button starts the timer; the light sensor sends Disc
        the sleep frame, turns on the backup regulator so that backup SRAM survives, and enters
        Standby. Any other pin does nothing. */
    method OnExti(pin: int, txOk: bool)
      requires Valid() && power == Running
      modifies this`timerRunning, this`outbox, this`backupRegulator, this`power
      ensures Valid()
      ensures pin == GPIO_PIN_13 ==> timerRunning && outbox == old(outbox) && power == Running
      ensures pin == GPIO_PIN_4 && txOk ==>
        outbox == old(outbox) + [SLEEP_FRAME] && backupRegulator && power == Standby
        && timerRunning == old(timerRunning)
      ensures pin == GPIO_PIN_4 && !txOk ==> outbox == old(outbox) && power == Halted
      ensures pin != GPIO_PIN_4 || !txOk ==> backupRegulator == old(backupRegulator)
      ensures pin != GPIO_PIN_13 ==> timerRunning == old(timerRunning)
      ensures pin != GPIO_PIN_13 && pin != GPIO_PIN_4 ==> unchanged(this)
    {
      if pin == GPIO_PIN_13 {
        timerRunning := true;
      } else if pin == GPIO_PIN_4 {
        if !txOk {
          power := Halted;
          return;
        }
        outbox := outbox + [SLEEP_FRAME];
        backupRegulator := true;
        power := Standby;
      }
    }
  }
}
