/** The result reporter (`Job#log_single_backup_result`,
    `Job#log_single_verify_result`, ruby_backup.rb:286-334) and the set-level
    summary priority (ruby_backup.rb:491-500, 515-523): outcomes become
    sequences of log events. */
module Reporter {
  import opened Wrappers
  import opened ErrorFlags
  import opened Text
  import opened Logging
  import opened Classifier

  /** `output.lines.each { |line| log '> ' + line, Syslog::LOG_INFO }` */
  function EchoLines(lines: seq<string>): seq<Event>
    decreases |lines|
  {
    if lines == [] then [] else [Event(Info, "> " + lines[0])] + EchoLines(lines[1..])
  }

  function EchoOutput(output: string): seq<Event> {
    EchoLines(Lines(output))
  }

  /** What an operator reads back from echoed events: each message without
      its `> ` marker, one after the other. */
  function Unecho(es: seq<Event>): string
    decreases |es|
  {
    if es == [] then []
    else (if |es[0].message| >= 2 then es[0].message[2..] else []) + Unecho(es[1..])
  }

  /** The echoed events give back the raw output exactly, one event per line,
      all at informational priority. */
  lemma {:induction false} EchoRoundTrip(output: string)
    ensures Unecho(EchoOutput(output)) == output
    ensures |EchoOutput(output)| == |Lines(output)|
    ensures forall i :: 0 <= i < |EchoOutput(output)| ==> EchoOutput(output)[i].level == Info
  {
    LinesMeaning(output);
    EchoLinesRoundTrip(Lines(output));
  }

  lemma {:induction false} EchoLinesRoundTrip(lines: seq<string>)
    ensures Unecho(EchoLines(lines)) == Concat(lines)
    ensures |EchoLines(lines)| == |lines|
    ensures forall i :: 0 <= i < |lines| ==> EchoLines(lines)[i] == Event(Info, "> " + lines[i])
    decreases |lines|
  {
    if lines != [] {
      EchoLinesRoundTrip(lines[1..]);
      var es := EchoLines(lines);
      assert es[0].message[2..] == lines[0];
      assert es[1..] == EchoLines(lines[1..]);
    }
  }

  /** The events that open an error report: one per set flag. */
  function ErrorHeader(error: Flags): seq<Event> {
    (if HasYes(error) then [Event(Err, "Error was detected:")] else [])
    + (if HasMaybe(error) then [InfoEvent("Unrecognized output from duplicity:")] else [])
  }

  /** The success line needs `stats['RawDeltaSize']` (the source raises
      otherwise). */
  predicate DeltaSizeReadable(stats: Option<Stats>) {
    && stats.Some?
    && "RawDeltaSize" in stats.value
    && stats.value["RawDeltaSize"].Some?
    && '\n' !in stats.value["RawDeltaSize"].value
  }

  /** An outcome the reporter can log: a clean one has a readable size. */
  predicate Reportable(o: BackupOutcome) {
    o.error == OK ==> DeltaSizeReadable(o.stats)
  }

  /** The outcomes the reporter can log. */
  type ReportableOutcome = o: BackupOutcome | Reportable(o)
    witness BackupOutcome(YES, false, [], None, [])

  const FullPrefix: string := "[Full] "

  /** `Job#log_single_backup_result` */
  function ReportBackup(jobName: string, sinkName: string, o: BackupOutcome): seq<Event>
    requires Reportable(o)
  {
    if o.error > 0 then ErrorHeader(o.error) + EchoOutput(o.output)
    else
      [InfoEvent((if o.full then FullPrefix else "") + "Backup of " + jobName + " to " + sinkName
                 + " completed successfully. Raw delta size: "
                 + StatsAccessHuman(o.stats.value, "RawDeltaSize"))]
  }

  /** `Job#log_single_verify_result` */
  function ReportVerify(jobName: string, sinkName: string, o: VerifyOutcome): seq<Event> {
    if o.error > 0 then ErrorHeader(o.error) + EchoOutput(o.output)
    else [InfoEvent("Verify of " + jobName + " on " + sinkName + " completed successfully. ")]
  }

  predicate HasErrEvent(es: seq<Event>) {
    exists i :: 0 <= i < |es| && es[i].level == Err
  }

  /** A failed or unrecognised backup is reported by one event per set flag
      and then the whole output, line by line; an error-priority event
      appears exactly when the YES bit is set. */
  lemma ReportBackupOnError(jobName: string, sinkName: string, o: BackupOutcome)
    requires o.error != OK
    ensures var es := ReportBackup(jobName, sinkName, o);
      var h := (if HasYes(o.error) then 1 else 0) + (if HasMaybe(o.error) then 1 else 0);
      && |es| == h + |Lines(o.output)|
      && es[..h] == ErrorHeader(o.error)
      && Unecho(es[h..]) == o.output
      && (HasErrEvent(es) <==> HasYes(o.error))
  {
    var es := ReportBackup(jobName, sinkName, o);
    var h := (if HasYes(o.error) then 1 else 0) + (if HasMaybe(o.error) then 1 else 0);
    EchoRoundTrip(o.output);
    assert es[h..] == EchoOutput(o.output);
    if HasYes(o.error) {
      assert es[0].level == Err;
    }
  }

  /** A clean backup is reported by one informational line, marked
      `[Full] ` exactly when the backup was full and ending with the
      human-readable delta size. */
  lemma ReportBackupOnSuccess(jobName: string, sinkName: string, o: BackupOutcome)
    requires o.error == OK && DeltaSizeReadable(o.stats)
    ensures var es := ReportBackup(jobName, sinkName, o);
      var m := es[0].message;
      var size := StatsAccessHuman(o.stats.value, "RawDeltaSize");
      && |es| == 1 && es[0].level == Info
      && (|m| >= |FullPrefix| && m[..|FullPrefix|] == FullPrefix <==> o.full)
      && |size| <= |m| && m[|m| - |size|..] == size
      && Occurs(m, jobName) && Occurs(m, sinkName)
      && !HasErrEvent(es)
  {
    var m := ReportBackup(jobName, sinkName, o)[0].message;
    if !o.full {
      assert m[0] == 'B';
    }
    var pre := (if o.full then FullPrefix else "") + "Backup of ";
    var s := pre + jobName + " to " + sinkName + " completed successfully. Raw delta size: ";
    OccursBoth(pre, jobName, " to ", sinkName, " completed successfully. Raw delta size: ");
    OccursAppend(s, jobName, StatsAccessHuman(o.stats.value, "RawDeltaSize"));
    OccursAppend(s, sinkName, StatsAccessHuman(o.stats.value, "RawDeltaSize"));
  }

  /** Verify reports follow the same rule; a clean verify names neither a
      size nor a full backup. */
  lemma ReportVerifyShape(jobName: string, sinkName: string, o: VerifyOutcome)
    ensures var es := ReportVerify(jobName, sinkName, o);
      && (o.error == OK ==>
            && |es| == 1 && es[0].level == Info && es[0].message[..6] == "Verify"
            && Occurs(es[0].message, jobName) && Occurs(es[0].message, sinkName))
      && (o.error != OK ==>
            var h := |ErrorHeader(o.error)|;
            && |es| == h + |Lines(o.output)|
            && es[..h] == ErrorHeader(o.error)
            && Unecho(es[h..]) == o.output)
      && (HasErrEvent(es) <==> HasYes(o.error))
  {
    var es := ReportVerify(jobName, sinkName, o);
    if o.error != OK {
      var h := |ErrorHeader(o.error)|;
      EchoRoundTrip(o.output);
      assert es[h..] == EchoOutput(o.output);
      if HasYes(o.error) {
        assert es[0].level == Err;
      }
    } else {
      OccursBoth("Verify of ", jobName, " on ", sinkName, " completed successfully. ");
    }
  }

  /** The priority of a job set's summary line. */
  function SummaryLevel(error: Flags): Level {
    if error == OK then Notice
    else if HasYes(error) then Err
    else Warning
  }

  /** OK is a notice, any definite failure an error, and a result that is
      only unrecognised output a warning. */
  lemma SummaryLevelMeaning(error: Flags)
    ensures SummaryLevel(error) == Notice <==> error == OK
    ensures SummaryLevel(error) == Err <==> HasYes(error)
    ensures SummaryLevel(error) == Warning <==> error == MAYBE
  {
  }
}
