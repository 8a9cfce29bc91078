/**
 * Levels and records of logkit. A level is a plain `int`: the five named
 * levels are 0 to 4, and any other value is accepted but has no name.
 */
module LogLevel {
  import opened Wrappers

  const TRACE: int := 0
  const DEBUG: int := 1
  const INFO: int := 2
  const WARN: int := 3
  const ERROR: int := 4

  /** The name written between brackets in a log line; empty for an unnamed level. */
  function LevelStr(level: int): (s: string)
    ensures s == "" <==> !(TRACE <= level <= ERROR)
  {
    if level == TRACE then "TRACE"
    else if level == DEBUG then "DEBUG"
    else if level == INFO then "INFO"
    else if level == WARN then "WARN"
    else if level == ERROR then "ERROR"
    else ""
  }

  /** The level a name stands for: the inverse of LevelStr on the named levels. */
  function LevelOf(name: string): (r: Option<int>)
    ensures r.Some? ==> TRACE <= r.value <= ERROR
  {
    if name == "TRACE" then Some(TRACE)
    else if name == "DEBUG" then Some(DEBUG)
    else if name == "INFO" then Some(INFO)
    else if name == "WARN" then Some(WARN)
    else if name == "ERROR" then Some(ERROR)
    else None
  }

  /** Each named level has its own name, and reading the name back gives the level. */
  lemma LevelStrRoundTrip(level: int)
    ensures TRACE <= level <= ERROR ==> LevelOf(LevelStr(level)) == Some(level)
    ensures !(TRACE <= level <= ERROR) ==> LevelOf(LevelStr(level)) == None
  {
  }

  /** Every name LevelOf accepts is the name LevelStr gives to that level. */
  lemma LevelOfRoundTrip(name: string)
    ensures LevelOf(name).Some? ==> LevelStr(LevelOf(name).value) == name
  {
  }

  /** Distinct levels never share a non-empty name. */
  lemma LevelStrInjective(a: int, b: int)
    requires LevelStr(a) == LevelStr(b) && LevelStr(a) != ""
    ensures a == b
  {
    LevelStrRoundTrip(a);
    LevelStrRoundTrip(b);
  }

  /** One frame of the call stack, as runtime.Caller reports it. */
  datatype Frame = Frame(file: string, line: int)

  /**
   * The record logf builds (Go's `Logger`): level, formatted message, the
   * caller's file and line, and the time, already rendered as text. The
   * pointer back to the manager is replaced by passing the manager's prefix
   * and store path to the handlers.
   */
  datatype Record = Record(level: int, message: string, file: string, line: int, time: string)
}
