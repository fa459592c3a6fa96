/** `setVerbosity`: the number of `-v` flags chooses the root log level. */
module Verbosity {
  import opened Wrappers

  /** The log4j levels the mapping can choose. */
  datatype Level = Fatal | Error | Warn | Info | Debug | All

  /** log4j's `intLevel`: the larger, the more events are logged. */
  function IntLevel(l: Level): int {
    match l
    case Fatal => 100
    case Error => 200
    case Warn => 300
    case Info => 400
    case Debug => 500
    case All => 0x7FFF_FFFF
  }

  /** `verbosity == null ? 0 : verbosity.length`, where each `-v` adds one entry. */
  function FlagCount(verbosity: Option<seq<bool>>): nat {
    if verbosity.None? then 0 else |verbosity.value|
  }

  function LevelFor(count: nat): Level {
    match count
    case 0 => Fatal
    case 1 => Error
    case 2 => Warn
    case 3 => Info
    case 4 => Debug
    case _ => All
  }

  /** The level `setVerbosity` hands to the log4j configurator. */
  function RootLevel(verbosity: Option<seq<bool>>): Level {
    LevelFor(FlagCount(verbosity))
  }

  /** The fewest `-v` flags that select `l`. */
  function FlagsFor(l: Level): (count: nat)
    ensures count <= 5
  {
    match l
    case Fatal => 0
    case Error => 1
    case Warn => 2
    case Info => 3
    case Debug => 4
    case All => 5
  }

  /** Leaving out `-v` altogether is the same as giving it no times. */
  lemma AbsentFlagsAreZero()
    ensures RootLevel(None) == RootLevel(Some([])) == Fatal
  {
  }

  /** Every level is reached, by FlagsFor(l) flags and, for ALL, by any count beyond. */
  lemma LevelForRoundTrip(l: Level, count: nat)
    ensures LevelFor(FlagsFor(l)) == l
    ensures count < 5 ==> FlagsFor(LevelFor(count)) == count
    ensures count >= 5 ==> LevelFor(count) == All
  {
  }

  /** More `-v` flags never select a less verbose level. */
  lemma LevelForMonotone(c1: nat, c2: nat)
    requires c1 <= c2
    ensures IntLevel(LevelFor(c1)) <= IntLevel(LevelFor(c2))
  {
  }

  /** Distinct counts below five select distinct levels. */
  lemma LevelForInjectiveBelowFive(c1: nat, c2: nat)
    requires c1 < 5 && c2 < 5 && c1 != c2
    ensures LevelFor(c1) != LevelFor(c2)
  {
    LevelForRoundTrip(LevelFor(c1), c1);
    LevelForRoundTrip(LevelFor(c2), c2);
  }
}
