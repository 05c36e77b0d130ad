/** The part of Python's `logging.Logger` the device finder uses: the
    logger's level and the calls made on it, in order. */
module Logging {

  /** The standard levels (NOTSET 0, DEBUG 10, INFO 20, WARNING 30 with
      its alias WARN, ERROR 40, CRITICAL 50 with its alias FATAL). */
  datatype Level = NotSet | Debug | Info | Warning | Error | Critical

  /** One call on the logger: a message logged at a level, or `setLevel`. */
  datatype Event = Logged(level: Level, message: string) | LevelSet(level: Level)

  class Logger {
    var level: Level
    var events: seq<Event>

    /** `logging.getLogger(name)` for a name not used before: level NOTSET,
        nothing logged yet. */
    constructor ()
      ensures level == NotSet && events == []
    {
      level := NotSet;
      events := [];
    }

    /** `logger.debug/info/warning/error(message)`. */
    method Log(lv: Level, message: string)
      modifies this
      ensures events == old(events) + [Logged(lv, message)]
      ensures level == old(level)
    {
      events := events + [Logged(lv, message)];
    }

    /** `logger.setLevel(lv)`. */
    method SetLevel(lv: Level)
      modifies this
      ensures level == lv
      ensures events == old(events) + [LevelSet(lv)]
    {
      level := lv;
      events := events + [LevelSet(lv)];
    }
  }
}
