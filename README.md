# Two-board rock, paper, scissors over CAN

Two STM32 boards play rock, paper, scissors over a CAN bus.

- **Nucleo** (STM32F446RE) plays. Once its user button has started TIM6, it sends a hand (`rand() % 3`) every period. It keeps four 8-bit counters: its wins, Disc's wins, ties and game errors. After every round it writes them to backup SRAM as a text line. It answers Disc's request for them. When its light sensor fires, it tells Disc to sleep and enters Standby itself. On waking up it reloads the counters from backup SRAM and pulses Disc's wake-up pin.
- **Disc** (STM32F407VG) referees. It picks its own hand, decides the round, lights one of four LEDs and sends the result back. A 100 ms debounced press of its user button sends a remote frame asking for the score. Nucleo's sleep frame arms its wake-up pin and puts it in Standby.

The model is split into these modules:

- `Ascii`: bytes and `%d`.
- `CanBus`: frames and the four identifiers.
- `Mcu`: the power modes.
- `ScoreStore`: Nucleo's backup-SRAM line and its parser.
- `Nucleo` and `Disc`: one `Board` class each. Its fields are the firmware's globals and the peripheral state the code reads and writes. Each callback is a method.
- `Protocol`: what the two boards do together.

Hardware results that the code tests are parameters of the methods:

- HAL return codes;
- the values `rand()` returns;
- the level of PA0;
- the EXTI pin number.

A HAL failure, which in the firmware spins in `Error_handler`, is the terminal power mode `Halted`. Standby is the power mode `Standby`. A reset out of Standby is `Nucleo.Board.WakeFromStandby` on Nucleo and a new `Disc.Board` on Disc.

The comment on the scan loop in `load_bSRAM_score` (Nucleo main_.c:358) says `text_length` rolls back to 0 when nothing is stored. Its guard `text_length <= 255` is always true for a `uint8_t`, however, so without a newline the loop never stops (`ScoreStore.LoadWithoutNewline`). The score request is a 0x633 remote frame from Disc, and Nucleo answers it with a 0x633 data frame.

## Model

| member | source | states |
|---|---|---|
| Ascii.DecimalShape | Nucleo_F446RE/Two_Boards_Game/Src/main_.c:316 | `%d` prints at least one digit and only digits, ends in the units digit, has no leading zero, and has at most 1, 2 or 3 digits below 10, 100 or 1000 |
| Ascii.DecimalValue | Nucleo_F446RE/Two_Boards_Game/Src/main_.c:376-380 | accumulating the digits of `%d` of n as `num*10 + digit` gives back n |
| CanBus.ReadBack | Nucleo_F446RE/Two_Boards_Game/Src/main_.c:253-263 | whatever the mailbox holds past the DLC, each board reads back what the other sent: byte 0 of a hand frame is the hand, byte 0 of a result frame is the result, and bytes 0..3 of a score frame are the four counters in order |
| CanBus.ProtocolFramesWellFormed | Nucleo_F446RE/Two_Boards_Game/Src/main_.c:193-226 | every frame either board sends has an 11-bit identifier, DLC at most 8 and a payload of DLC bytes (none for the remote frame) |
| ScoreStore.ScoreLineShape | Nucleo_F446RE/Two_Boards_Game/Src/main_.c:314-316 | for all counters the formatted line is 54 to 62 bytes, so it and its NUL fit `write_buff[75]`; it has no NUL, exactly three commas, and one newline, as its last byte |
| ScoreStore.StoreScore | Nucleo_F446RE/Two_Boards_Game/Src/main_.c:327-330 | backup SRAM from its base holds exactly the line followed by one 0 byte, and every byte after that is unchanged |
| ScoreStore.FirstNewline | Nucleo_F446RE/Two_Boards_Game/Src/main_.c:358-362 | the index found holds a newline and no earlier byte does; with no newline it is the length |
| ScoreStore.ScanSpec | Nucleo_F446RE/Two_Boards_Game/Src/main_.c:353-362 | the scan ends iff one of bytes 0..255 is a newline; it then yields (k+1) mod 256 for the first newline index k |
| ScoreStore.ScanTextLength | Nucleo_F446RE/Two_Boards_Game/Src/main_.c:353-362 | the `while` loop with its `uint8_t` index yields exactly `ScanSpec` (an endless loop is `Endless`) |
| ScoreStore.ParseSpec | Nucleo_F446RE/Two_Boards_Game/Src/main_.c:364-389 | a parse that does not overrun `stats` leaves four counters |
| ScoreStore.RunKeepsSize | Nucleo_F446RE/Two_Boards_Game/Src/main_.c:384 | the state machine only stores into existing slots of `stats`, never changing its size |
| ScoreStore.ParseStats | Nucleo_F446RE/Two_Boards_Game/Src/main_.c:364-389 | the `for` loop over `c`, `num`, `j` and `stats[4]` yields exactly `ParseSpec` of the first `text_length` bytes, `None` when it would write `stats[4]` |
| ScoreStore.RunPlain | Nucleo_F446RE/Two_Boards_Game/Src/main_.c:372-375 | bytes that are neither commas nor digits only pass through `c` |
| ScoreStore.RunDigits | Nucleo_F446RE/Two_Boards_Game/Src/main_.c:376-380 | reading `%d` of n from `num == 0`, with no comma before it, accumulates exactly n |
| ScoreStore.RunSeparator | Nucleo_F446RE/Two_Boards_Game/Src/main_.c:382-388 | after a comma, the number read so far is stored, truncated to 8 bits, in `stats[j]`; `num` restarts at 0 and `j` advances |
| ScoreStore.RunField | Nucleo_F446RE/Two_Boards_Game/Src/main_.c:370-389 | a comma, a label ending in a space and `%d` of n store the previous number and leave n in `num` |
| ScoreStore.RunFirstField | Nucleo_F446RE/Two_Boards_Game/Src/main_.c:370-381 | the first label and `%d` of n leave n in `num`, with nothing stored yet |
| ScoreStore.ParseScoreLine | Nucleo_F446RE/Two_Boards_Game/Src/main_.c:370-389 | parsing the stored line of (a, b, c, d) leaves `stats == [a, b, c, 0]`, with d still in `num`, because the line has only three commas |
| ScoreStore.ParseStoredLine | Nucleo_F446RE/Two_Boards_Game/Src/main_.c:364-389 | the parse of the stored line of (a, b, c, d) yields the counters [a, b, c, 0] |
| ScoreStore.LoadLine | Nucleo_F446RE/Two_Boards_Game/Src/main_.c:353-394 | for a memory starting with a line under 256 bytes whose only newline is its last byte, the loaded counters are what the parse of that line leaves in `stats` |
| ScoreStore.ScanFinds | Nucleo_F446RE/Two_Boards_Game/Src/main_.c:358-362 | a first newline at index k < 256 gives text length (k+1) mod 256 |
| ScoreStore.ScanLine | Nucleo_F446RE/Two_Boards_Game/Src/main_.c:358-362 | a memory that starts with a line of at most 255 bytes ending in its only newline scans to that line's length |
| ScoreStore.LoadAfterStore | Nucleo_F446RE/Two_Boards_Game/Src/main_.c:340-394 | load after store, whatever follows the NUL, restores Nucleo's wins, Disc's wins and the ties exactly, and the game-error count as 0 |
| ScoreStore.LoadHeldLine | Nucleo_F446RE/Two_Boards_Game/Src/main_.c:340-394 | the same, for any memory that holds the stored line of a score at its base |
| ScoreStore.LoadNewlineAt255 | Nucleo_F446RE/Two_Boards_Game/Src/main_.c:358-370 | a first newline at index 255 gives text length 0, nothing is parsed and all four counters load as 0 |
| ScoreStore.LoadWithoutNewline | Nucleo_F446RE/Two_Boards_Game/Src/main_.c:358 | without a newline among bytes 0..255 the load never returns |
| ScoreStore.DigitAfterCommaDropped | Nucleo_F446RE/Two_Boards_Game/Src/main_.c:382-388 | "1,23,\n" loads as 1 and 3: the digit right after a comma is never accumulated |
| ScoreStore.StoredCounterTruncated | Nucleo_F446RE/Two_Boards_Game/Src/main_.c:384 | "300, \n" loads the first counter as 44: the accumulated value is truncated to 8 bits |
| ScoreStore.FifthCommaOverruns | Nucleo_F446RE/Two_Boards_Game/Src/main_.c:384-386 | ",,,,,\n" would store into `stats[4]`, past the array |
| Nucleo.ApplyOutcome | Nucleo_F446RE/Two_Boards_Game/Src/main_.c:263-277 | result v in 1..4 increments counter v by one, wrapping 255 to 0, and every other counter is unchanged; any other byte changes no counter |
| Nucleo.TallyStep | Nucleo_F446RE/Two_Boards_Game/Src/main_.c:263-277 | one result advances counter k by one, modulo 256, exactly when it is k |
| Nucleo.ApplyAllTallies | Nucleo_F446RE/Two_Boards_Game/Src/main_.c:263-277 | over any series of results, counter k has advanced by the number of results equal to k, modulo 256 |
| Nucleo.Board.constructor | Nucleo_F446RE/Two_Boards_Game/Src/main_.c:26-30 | power-on state: counters 0, flags clear, timer stopped, no frames sent, backup SRAM as found |
| Nucleo.Board.WakeFromStandby | Nucleo_F446RE/Two_Boards_Game/Src/main_.c:553-557 | leaving Standby is a reset: SB and WU set, counters 0, timer stopped; backup SRAM and what was last stored in it survive |
| Nucleo.Board.LoadBackupScore | Nucleo_F446RE/Two_Boards_Game/Src/main_.c:340-405 | counters are loaded only if SB is set, and then they are `LoadSpec` of backup SRAM; an endless scan hangs the board, and so, by the model's choice, does a parse that reaches the store into `stats[4]` |
| Nucleo.Board.WakeupDisc | Nucleo_F446RE/Two_Boards_Game/Src/main_.c:416-436 | only if SB was set: SB and WU are cleared and one pulse goes out on PC5; PC5 is released on every path |
| Nucleo.Board.Boot | Nucleo_F446RE/Two_Boards_Game/Src/main_.c:74-78 | the load happens while SB still says whether the board woke from Standby, then `wakeup_disc` clears it; after a wake-up the last stored counters come back except the game-error count, which is 0, and SB and WU end cleared; after a power-on reset nothing is loaded and WU is kept; the board ends either running or halted, and halted exactly when a wake-up's load does not return, in which case the counters, the flags and PC5 are untouched |
| Nucleo.Board.OnCanReceive | Nucleo_F446RE/Two_Boards_Game/Src/main_.c:245-287 | 0x111 data applies its first byte and persists all four counters; 0x633 remote is answered with one 0x633 data frame of the counters; every other frame changes nothing; a failed receive halts; only the counters, the last stored score, the sent frames, the power mode and backup SRAM can change, so the timer, the flags, the regulator and PC5 are kept |
| Nucleo.Board.RecordResult | Nucleo_F446RE/Two_Boards_Game/Src/main_.c:258-280 | the counters become `ApplyOutcome` of the byte, and backup SRAM holds their line and NUL with every later byte unchanged |
| Nucleo.Board.SendGameStats | Nucleo_F446RE/Two_Boards_Game/Src/main_.c:215-235 | exactly one frame is queued, id 0x633, data, DLC 4, payload the four counters, and no counter changes |
| Nucleo.Board.OnTimerElapsed | Nucleo_F446RE/Two_Boards_Game/Src/main_.c:183-205 | each period queues one 0x49F data frame, DLC 1, whose hand is 0..2 |
| Nucleo.Board.OnExti | Nucleo_F446RE/Two_Boards_Game/Src/main_.c:535-559 | pin 13 starts the timer; pin 4 queues the 0x77B sleep frame, turns on the backup regulator and enters Standby, and Standby is never entered without that frame last in the queue; the regulator changes only on a successful pin-4 path and the timer only on pin 13 |
| Disc.DetermineWin | Disc_F407VG/Two_Boards_Game/Src/main_.c:212-238 | the result is in 1..4; it is 3 iff the bytes are equal, even if neither is a hand; it is 4 iff they differ and one exceeds 2 |
| Disc.DetermineWinFollowsRule | Disc_F407VG/Two_Boards_Game/Src/main_.c:214-231 | for two hands, player 1 wins iff its hand beats the other in the rock, paper, scissors cycle, player 2 iff the reverse, and the result is never 4 |
| Disc.DetermineWinSwap | Disc_F407VG/Two_Boards_Game/Src/main_.c:214-237 | swapping the players exchanges results 1 and 2 and keeps 3 and 4 |
| Disc.LedsFor | Disc_F407VG/Two_Boards_Game/Src/main_.c:542-577 | for id 1..4, LED id is on and the other three are off; any other id leaves all four as they were |
| Disc.ShownLedsFor | Disc_F407VG/Two_Boards_Game/Src/main_.c:546-572 | reading the LEDs back gives the result 1..4 they were set to |
| Disc.Board.ManageLedOutput | Disc_F407VG/Two_Boards_Game/Src/main_.c:542-577 | the four pin writes of each case leave the pins as `LedsFor` says |
| Disc.DebounceCountIsRun | Disc_F407VG/Two_Boards_Game/Src/main_.c:414-436 | after every tick `debounce_cnt` is the length of the current run of high samples modulo 100, so it stays in 0..99 and a low sample resets it |
| Disc.FiresOnHundreds | Disc_F407VG/Two_Boards_Game/Src/main_.c:430-435 | a tick sends the request iff the current run of highs is a positive multiple of 100 |
| Disc.TickFacts | Disc_F407VG/Two_Boards_Game/Src/main_.c:414-436 | one more sample moves the counter by one debounce step and adds one to the number of requests iff that step fires |
| Disc.HeldButtonFires | Disc_F407VG/Two_Boards_Game/Src/main_.c:414-436 | holding the button for n ms after a release sends the request n / 100 times |
| Disc.Board.constructor | Disc_F407VG/Two_Boards_Game/Src/main_.c:35 | a reset starts the debounce counter at 0 with the LEDs off and keeps SB and WU as the hardware set them |
| Disc.Board.ClearSleepFlags | Disc_F407VG/Two_Boards_Game/Src/main_.c:99-110 | SB and WU are cleared only when SB was set; otherwise WU is left alone |
| Disc.Board.OnTimerElapsed | Disc_F407VG/Two_Boards_Game/Src/main_.c:414-436 | the counter follows `DebounceCount` of all samples so far, and the stats request is queued exactly on the ticks where `Fires` holds; the number of requests queued equals `FireCount` |
| Disc.Board.SendStatsRequest | Disc_F407VG/Two_Boards_Game/Src/main_.c:184-201 | exactly one 0x633 remote frame with DLC 4 is queued |
| Disc.Board.SendGameResult | Disc_F407VG/Two_Boards_Game/Src/main_.c:248-268 | exactly one 0x111 data frame with DLC 2 is queued, its first byte the result |
| Disc.Board.OnCanReceive | Disc_F407VG/Two_Boards_Game/Src/main_.c:278-331 | 0x49F data: the LEDs show `DetermineWin(hand, second draw % 3)` and that result is queued; 0x633 data changes no game state; 0x77B data arms the wake-up pin and enters Standby, and no other path touches the wake-up pin; a failed RTC read on the score path halts; anything else is ignored |
| Protocol.FramesReachTheirHandler | Nucleo_F446RE/Two_Boards_Game/Src/main_.c:258-286 | each frame one board sends reaches the branch of the other that handles it, and each board ignores the frames it sends itself |
| Protocol.RoundScoresByRule | Disc_F407VG/Two_Boards_Game/Src/main_.c:299-310 | in a round with two hands, exactly the counter the rule of the game names goes up by one and the game-error counter never moves |

## Left out

- Clock and PLL setup, CAN bit timing and filters, UART, TIM6 and RTC configuration, and the `msp.c`, `it.c` and `main.h` files: register configuration with no logic to state.
- UART messages: the model does not format or send them. This includes the date-and-time string Disc prefixes to the score.
- The indexing of `playerspick[rcvd_msg[0]]` and `game_result[rcvd_msg[0]-1]` with a byte outside the table is not modelled. It reads a pointer from past the array and `sprintf` dereferences it, which can fault or overrun `uart_msg`; the model carries on as if the message were printed.
- Nucleo.Board.LoadBackupScore: the store into `stats[4]` that a fifth comma reaches is undefined behaviour in C. The model stops the board there (`Halted`) instead of modelling the corrupted stack and the return into `wakeup_disc` that may follow.
- CanBus.RxByte: `HAL_CAN_GetRxMessage` is not part of this model; a byte past a frame's DLC reads as a `residue` parameter, whatever the receive mailbox's data register holds, not as the 0 `rcvd_msg` was initialised with.
- `rand()` and `srand(time(NULL))`: the values `rand()` returns are method parameters.
- `HAL_Delay`, and the PC5 pulse's timing and shape: a pulse is a counter of rising edges.
- `HAL_CAN_AddTxMessage` mailboxes and the bus itself: sent frames are appended to an outbox. Arbitration, loss and reordering are not modelled.
- `Error_handler`'s infinite loop, the WFI of Standby and the hardware reset are not modelled as execution. Their effects are the power modes `Halted` and `Standby`, and the reset methods and constructors.
- Interrupt preemption: each callback is one atomic transition.
- Extended-identifier frames: both boards' receive filter (Nucleo main_.c:162-167, Disc main_.c:164-167) has mask 0 and so also accepts 29-bit-identifier frames, but `CanBus.Frame` has no IDE bit and models standard-identifier frames only, as both boards send.
- Disc's `Error_handler` (Disc main_.c:713-720) toggles the LED on PD15 every 500 ms forever; the model freezes `leds` once the board is `Halted` and does not model that blinking.
- Disc.Board.SendGameResult: the second byte of the DLC-2 result frame is whatever lies next to `winner` in memory; it is a parameter.
- Disc.Board.constructor: whether the wake-up pin enable survives a reset is not modelled; a reset starts with it disarmed.
- Nucleo.Board.WakeFromStandby: which line wakes Nucleo from Standby is not modelled; only the resulting reset is.
- Disc.Board.OnCanReceive: an RTC read that fails while stamping the received score halts the board. The date and time themselves are not modelled.
