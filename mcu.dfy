/** What both boards share about their microcontroller's run state. */
module Mcu {

  /** `Running` executes callbacks; `Standby` is the low-power mode, left only through a reset;
      `Halted` is the endless loop of `Error_handler` (or a loop that never ends), from which
      nothing further happens. */
  datatype PowerMode = Running | Standby | Halted
}
