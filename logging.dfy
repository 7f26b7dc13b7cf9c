/** The process-wide syslog stream (module `Syslogs`, ruby_backup.rb:64-84),
    seen as the sequence of events a run appends to it. */
module Logging {

  /** The syslog priorities. */
  datatype Level = Emerg | Alert | Crit | Err | Warning | Notice | Info | Debug

  /** One call of `log(string, level)`. */
  datatype Event = Event(level: Level, message: string)

  /** `log(string)` with the default priority LOG_INFO. */
  function InfoEvent(message: string): Event {
    Event(Info, message)
  }
}
