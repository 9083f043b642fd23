/**
 * The logger's vocabulary as far as the message cache sees it: severities,
 * log items and the global channel that replayed items go back into.
 */
module Logging {
  import opened Wrappers

  /** The logger's severities, from least to most severe. */
  datatype LogLevel = Diagnostic | Verbose | Info | Suggestion | Warning | Error
  {
    /** The position of the severity in the logger's enumeration. */
    function Rank(): nat {
      match this
      case Diagnostic => 0
      case Verbose => 1
      case Info => 2
      case Suggestion => 3
      case Warning => 4
      case Error => 5
    }

    /** The comparison `this >= other` on the enumeration. */
    predicate AtLeast(other: LogLevel) {
      Rank() >= other.Rank()
    }
  }

  /**
   * A log item: the file it is about (`None` when it is not about a file),
   * the line descriptor, the severity, the text and the build phase.
   */
  datatype LogItem = LogItem(
    file: Option<string>,
    line: string,
    level: LogLevel,
    message: string,
    phase: string)

  /** The global logging channel: everything logged through it, in order. */
  class Channel {
    var emitted: seq<LogItem>

    constructor ()
      ensures emitted == []
    {
      emitted := [];
    }

    /** Logs one item. */
    method Log(item: LogItem)
      modifies this
      ensures emitted == old(emitted) + [item]
    {
      emitted := emitted + [item];
    }
  }
}
