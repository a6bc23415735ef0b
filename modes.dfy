/** The display-mode numbering shared by the input handler and the main loop (src/MODES.h). */
module Modes {

  const TextOnly := 0
  const GameAndText := 1
  const Game2AndText := 2
  const PlasmaAndText := 3
  const GameOnly := 4
  const Game2Only := 5
  const PlasmaOnly := 6
  /** Number of display modes the first encoder cycles through. */
  const TotalModes := 7

  /** The two values the second encoder's press alternates between. */
  const Mode2A := 10
  const Mode2B := 11
}
