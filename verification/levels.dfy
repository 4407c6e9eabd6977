/** Log levels (`LogLevel` in src/logtools.h and src/debug_toolset.h).

    The eight levels are the eight bits of one byte, so that a build-time mask
    can switch whole levels off; the threshold test, however, compares
    them by numeric value, which makes FATAL (bit 0) the least verbose. */
module Levels {
  import opened Optional

  /** A value of the `LogLevel` enum. Its enumerators are the bits of one
      byte, so the values the type can hold are the eight-bit values. */
  type Level = bv8

  const FATAL: Level := 0x01
  const ERROR: Level := 0x02
  const WARNING: Level := 0x04
  const INFO: Level := 0x08
  const DEBUG1: Level := 0x10
  const DEBUG2: Level := 0x20
  const DEBUG3: Level := 0x40
  const DEBUG4: Level := 0x80

  /** The eight named levels, in declaration order. */
  datatype Severity = Fatal | Error | Warning | Info | Debug1 | Debug2 | Debug3 | Debug4

  /** Position of a level in declaration order. */
  function Rank(s: Severity): nat
  {
    match s
    case Fatal => 0
    case Error => 1
    case Warning => 2
    case Info => 3
    case Debug1 => 4
    case Debug2 => 5
    case Debug3 => 6
    case Debug4 => 7
  }

  /** The enumerator of a level: exactly one bit is set. */
  function Bit(s: Severity): (b: Level)
    ensures b != 0 && b & (b - 1) == 0
  {
    match s
    case Fatal => FATAL
    case Error => ERROR
    case Warning => WARNING
    case Info => INFO
    case Debug1 => DEBUG1
    case Debug2 => DEBUG2
    case Debug3 => DEBUG3
    case Debug4 => DEBUG4
  }

  /** The named level a raw value denotes, if it is one of the enumerators. */
  function FromBits(l: Level): (r: Option<Severity>)
    ensures forall s :: r == Some(s) <==> Bit(s) == l
  {
    if l == FATAL then Some(Fatal)
    else if l == ERROR then Some(Error)
    else if l == WARNING then Some(Warning)
    else if l == INFO then Some(Info)
    else if l == DEBUG1 then Some(Debug1)
    else if l == DEBUG2 then Some(Debug2)
    else if l == DEBUG3 then Some(Debug3)
    else if l == DEBUG4 then Some(Debug4)
    else None
  }

  predicate IsLevel(l: Level)
  {
    FromBits(l).Some?
  }

  /** The fixed label each level is printed with (both versions agree). */
  function Label(s: Severity): string
  {
    match s
    case Fatal => "\t~FATAL~\t\t"
    case Error => "\tERROR: \t\t"
    case Warning => "WARNING: \t"
    case Info => "INFO:\t  "
    case Debug1 => "DEBUG1:\t\t"
    case Debug2 => "DEBUG2:\t\t  "
    case Debug3 => "DEBUG3:\t\t    "
    case Debug4 => "DEBUG4:\t\t      "
  }

  /** The label the `default:` branch of the current `ToString` prints. */
  const DefaultLabel: string := "DoneFucked:\t\t      "

  /** `Logger::ToString` of the current version: a switch on the raw value. */
  function ToString(l: Level): (r: string)
    ensures forall s :: Bit(s) == l ==> r == Label(s)
    ensures !IsLevel(l) ==> r == DefaultLabel
  {
    if l == FATAL then Label(Fatal)
    else if l == ERROR then Label(Error)
    else if l == WARNING then Label(Warning)
    else if l == INFO then Label(Info)
    else if l == DEBUG1 then Label(Debug1)
    else if l == DEBUG2 then Label(Debug2)
    else if l == DEBUG3 then Label(Debug3)
    else if l == DEBUG4 then Label(Debug4)
    else DefaultLabel
  }

  /** The start of every log line: a newline (`std::endl`), the time, and a
      level's label. */
  function LineHeader(now: string, tag: string): string
  {
    "\n" + " -  " + now + " - \t" + tag
  }

  /** The named levels are exactly the one-bit values of the byte. */
  lemma LevelsAreSingleBits(l: Level)
    ensures IsLevel(l) <==> (l != 0 && l & (l - 1) == 0)
  {
  }

  /** The threshold test compares numeric values; on the named levels that is
      the declaration order, so a lower rank means less verbose. */
  lemma NumericOrderIsDeclarationOrder(a: Severity, b: Severity)
    ensures Bit(a) <= Bit(b) <==> Rank(a) <= Rank(b)
  {
  }

  /** A printed label determines its level, and no level prints the default. */
  lemma LabelDeterminesLevel(a: Severity, b: Severity)
    ensures Label(a) == Label(b) ==> a == b
    ensures Label(a) != DefaultLabel
  {
  }
}
