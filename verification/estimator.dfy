/** What the pitch estimator (aubio) reports for one analysed block, after the caller's
    gate `pitch > 0 && confidence >= pitchConfidenceThreshold` and the frequency-to-MIDI
    rounding. The estimator itself and the floating-point mapping are not modelled. */
module Estimator {

  datatype Observation =
    | NoPitch          // pitch <= 0, or confidence below the threshold
    | Pitch(midi: int) // a confident pitch, already rounded to a MIDI note number

  /** The lowest and highest MIDI numbers a FullFretboard target is drawn from. */
  const LOWEST_TARGET: int := 40
  const HIGHEST_TARGET: int := 88

  predicate InTargetRange(m: int) {
    LOWEST_TARGET <= m <= HIGHEST_TARGET
  }
}
