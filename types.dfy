/** The records the sound meter passes around (src/types/index.ts) and the three
    colour bands its read-outs use for a decibel level. */
module Types {

  datatype Option<T> = None | Some(value: T)

  /** One persisted measurement session (AudioReading). Decibel values are reals;
      `timestamp` (session start) and `duration` are integer milliseconds. */
  datatype Reading = Reading(
    id: string,
    timestamp: int,
    decibels: real,
    min: real,
    max: real,
    avg: real,
    duration: int)

  /** The live meter read-out (MeterData). */
  datatype MeterData = MeterData(current: real, min: real, max: real, avg: real, history: seq<real>)

  /** The user settings the meter screen consults. */
  datatype Settings = Settings(enableAlerts: bool, alertThreshold: real, calibrationOffset: real)

  /** The theme colours a level is drawn in: theme.accent, the fixed orange
      '#FFA726' and theme.primary. */
  datatype Colour = Accent | Orange | Primary

  /** Position of a colour on the quiet-to-loud scale. */
  function Rank(c: Colour): nat
  {
    match c
    case Accent => 0
    case Orange => 1
    case Primary => 2
  }

  const QuietBelow: real := 60.0
  const LoudFrom: real := 85.0

  /** getColorForDb / getNeedleColor: below 60 dB accent, below 85 dB orange, else primary. */
  function DbColour(db: real): (c: Colour)
    ensures c == Accent <==> db < QuietBelow
    ensures c == Orange <==> QuietBelow <= db < LoudFrom
    ensures c == Primary <==> LoudFrom <= db
  {
    if db < QuietBelow then Accent
    else if db < LoudFrom then Orange
    else Primary
  }

  /** A louder level is never drawn in a quieter colour. */
  lemma DbColourMonotone(a: real, b: real)
    requires a <= b
    ensures Rank(DbColour(a)) <= Rank(DbColour(b))
  {
  }
}
