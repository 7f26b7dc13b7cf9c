# A verified model of a duplicity backup driver

This project models the core of `ruby_backup.rb`, a driver that runs the
duplicity backup engine over sftp. The driver's structure is:

- A **job** is a source folder with a passphrase, exclusions and a
  monthly-full switch. It is backed up to, or verified on, each of its
  **sinks** in turn.
- A **job set** holds jobs that share a host name, a default passphrase and
  a default list of sinks. The set runs or verifies every job and ends with
  a one-line summary.
- Outcomes are **error flags**: `OK` = 0, `MAYBE` = 1 (unrecognised output)
  and `YES` = 2 (a definite failure), combined with Ruby's `|`.

The model is split into one module per concern:

- `flags.dfy` (`ErrorFlags`): the flags and their OR.
- `text.dfy` (`Text`): the Ruby string operations the classifier relies on
  (`count`, `lines`, `chomp`, `split`, integer interpolation).
- `logging.dfy` (`Logging`): the syslog stream, as the sequence of events a
  run appends.
- `sinks.dfy` (`Sinks`): the sftp sink value, its duplicity options, and the
  shared, growable list of sinks as a class (`SinkList`).
- `classifier.dfy` (`Classifier`): how engine output becomes flags:
  `parse_duplicity_log`, `parse_duplicity_stats`, `stats_access_human` and
  the classification parts of `backup_to_sink` and `verify_on_sink`.
- `reporter.dfy` (`Reporter`): `log_single_backup_result`,
  `log_single_verify_result` and the priority of the summary line.
- `jobs.dfy` (`Jobs`): the `Job` class, its argument builders, `run!` and
  `verify!`.
- `jobsets.dfy` (`JobSets`): the `JobSet` class, with `push_job`,
  `add_job`, `add_sftp_sink`, `new_from_hash`, `run!` and `verify!`.

The engine is not run. Each duplicity process is replaced by an input
`EngineResult(output, exit)`: its combined output, and its exit status
(`None` when the process was killed and Ruby's `exitstatus` is nil). A
loop's effect is a `Trace`, made of three parts:

- the OR of its flags;
- the syslog events it appended, in order;
- the processes it started, each an `Invocation` with its environment and
  argv.

`Job.Run`, `Job.Verify`, `JobSet.Run` and `JobSet.Verify` are loops proved
equal to specification functions (`BackupTrace`, `VerifyTrace`,
`Sequence`). The meaning of those functions is proved as lemmas: no flag is
lost, there is one process per sink in list order, and a verify is judged
by exit status alone.

The aliasing of the default sinks is modelled by reference. A job built
without its own sinks holds the job set's very `SinkList` object. Sinks
that `new_from_hash` adds after the jobs therefore reach every such job.
`JobSet.NewFromHash` states this in its postcondition.

Where the source raises, the model either returns an error value or states
a precondition:

- **Error values:** a missing keyword for `Job.new`; a missing key file for
  `SftpSink.new`; a bad options mode.
- **Preconditions:** the crashes on nil. These are an engine output that is
  empty or made only of statistics headers, because `split` then yields no
  log piece. They also include a clean backup whose statistics lack
  `RawDeltaSize`.

## Model

| member | source | states |
|---|---|---|
| ErrorFlags.Or | ruby_backup.rb:57-61 | The combined flags carry YES exactly when either operand does, and MAYBE exactly when either does (Ruby's `\|` on the flag values). |
| ErrorFlags.OrLaws | ruby_backup.rb:352 | `\|` is commutative and associative, idempotent and has OK as unit, so `job_error \|= error` does not depend on the visiting order. |
| ErrorFlags.OrAll | ruby_backup.rb:486-489 | The `inject(0) { memo \| ... }` fold sets a bit exactly when some element sets it. |
| ErrorFlags.OrAllKeepsBits | ruby_backup.rb:486-489 | ORing any element back into the fold changes nothing: no element's bit is lost. |
| Text.Count | ruby_backup.rb:179 | `count("\n")` is at most the length of the text. |
| Text.CountAppend | ruby_backup.rb:179 | Counting newlines distributes over concatenation. |
| Text.LinesMeaning | ruby_backup.rb:183 | `lines` gives the text back when concatenated; each piece is a line; every piece but the last ends with a newline; only the empty text has no lines. |
| Text.Lines | ruby_backup.rb:183 | `String#lines`. Its meaning is stated by `Text.LinesMeaning`, `Text.LinesCount` and `Text.LinesOfConcat`: the lines give the text back, each is one line, and there is one per newline plus an unterminated tail. |
| Text.LinesCount | ruby_backup.rb:179-184 | There is one line per newline, plus one for an unterminated tail. |
| Text.LinesOfConcat | ruby_backup.rb:183 | Conversely, lines of that shape, concatenated, are cut back into exactly those lines. |
| Text.Chomp | ruby_backup.rb:210 | `chomp` leaves a prefix of the line, shorter by at most two characters, and removes only a trailing newline or carriage return. It removes two exactly when the line ends with `\r\n`, and removes at least one whenever the line ends with a newline or carriage return. |
| Text.ChompLine | ruby_backup.rb:210 | A chomped line holds no newline. |
| Text.TrimLeft | ruby_backup.rb:216 | The blanks skipped by the awk-style `split(' ', 2)` are exactly the leading blanks. |
| Text.Word | ruby_backup.rb:216 | The key of `split(' ', 2)` is the longest blank-free prefix. |
| Text.TrimLeftAfter | ruby_backup.rb:216 | Whatever the number of leading blanks, skipping them leaves the text from the first non-blank character on. |
| Text.SplitOn | ruby_backup.rb:251 | Splitting on a separator and joining the pieces with it gives the text back. |
| Text.SplitAfterFirst | ruby_backup.rb:251 | The first piece is everything before the first occurrence of a separator that cannot overlap itself. |
| Text.SplitWithout | ruby_backup.rb:251 | A text without the separator is a single piece. |
| Text.SplitPiecesAvoidSeparator | ruby_backup.rb:251 | No piece contains the separator. |
| Text.DropTrailingEmpty | ruby_backup.rb:251 | `split` without a limit drops exactly the trailing empty pieces. |
| Text.RubySplit | ruby_backup.rb:251 | `String#split` with a literal separator and no limit: `Text.SplitOn` cut at every occurrence, then trailing empty pieces dropped (`Text.DropTrailingEmpty`). The meaning of the cut is stated by `Text.SplitAfterFirst`, `Text.SplitWithout` and `Text.SplitPiecesAvoidSeparator`. |
| Text.NatToDecimal | ruby_backup.rb:51 | The interpolated port is a non-empty run of digits without a leading zero. |
| Text.DecimalRoundTrip | ruby_backup.rb:51 | The rendered port reads back as the port number. |
| Sinks.WithTrailingSlash | ruby_backup.rb:34-35 | `File.join(directory, '')` ends with a slash, extends the directory by at most that slash, and leaves a directory that already ends with one unchanged. |
| Sinks.WithTrailingSlashIdempotent | ruby_backup.rb:34-35 | Normalising twice is normalising once. |
| Sinks.NewSftpSink | ruby_backup.rb:18-38 | A sink is built exactly when the key file exists. It stores the given host name, user name, port and key file; its name defaults to the host name; and its directory gets a trailing slash. |
| Sinks.TargetShape | ruby_backup.rb:40-53 | The target url is the authority, then the base directory, then `host/name/`; it ends with a slash and its port reads back as the sink's port. |
| Sinks.Target | ruby_backup.rb:40-53 | The `sftp://` target url of a job on a sink. Its shape is stated by `Sinks.TargetShape`. |
| Sinks.SinkOptions | ruby_backup.rb:40-53 | `SftpSink#duplicity_options`: exactly two arguments, the key-file option `--ssh-options='-oIdentityFile=<keyfile>'` and then the target. `Jobs.Job.ArgvShape` states where both land in the backup and verify argv, and `Sinks.TargetShape` states the target's form. |
| Sinks.SinkList.constructor | ruby_backup.rb:397-413 | A new list holds the given sinks. |
| Sinks.SinkList.Push | ruby_backup.rb:476 | `@dsinks.push` appends the sink and changes nothing else. |
| Classifier.ParseLogTable | ruby_backup.rb:173-198 | The log classification by newline count n. n = 2 is OK. A full backup is reported exactly when n = 3 and the third line forces a full backup, and then the verdict is OK; any other n = 3 is MAYBE. Any other count is MAYBE, unless it exceeds 3 and has a bad-key line, which is YES with one error event. |
| Classifier.ParseLog | ruby_backup.rb:173-198 | `parse_duplicity_log`. Its meaning is the table `Classifier.ParseLogTable` and the lemmas on concrete logs below. |
| Classifier.TwoLineLogIsOk | ruby_backup.rb:187 | Two complete lines are a clean incremental backup. |
| Classifier.ForcedFullLogIsOk | ruby_backup.rb:181-187 | Two lines and the forcing-full line are a clean full backup. |
| Classifier.BadKeyOverrides | ruby_backup.rb:190-194 | A bad-key line in a log of more than three lines gives YES and one error-priority event, whatever else the log says. |
| Classifier.SplitKeyValue | ruby_backup.rb:216 | The line splits as `split(' ', 2)` reads it. Leading blanks come first, then the key, the first blank-free word. Then either the line ends, and the value is nil, or at least one blank follows and the value is the rest, which does not start with a blank. A line of blanks gives an empty key and no value. |
| Classifier.SplitKeyValueInverse | ruby_backup.rb:216 | Conversely, a line of that shape splits into exactly that key and value. This holds for any run of leading blanks and any non-empty run of blanks after the key, so the split is the only reading of the line. |
| Classifier.ChompedLinesSingle | ruby_backup.rb:210 | No chomped statistics line holds a newline. |
| Classifier.ParseStats | ruby_backup.rb:200-227 | Every value in the parsed table is a single line. |
| Classifier.CollectLastWins | ruby_backup.rb:210-220 | The `inject`/`merge` table holds a key exactly when some non-border line names it, with the value of the last such line. |
| Classifier.Collect | ruby_backup.rb:210-220 | The `inject` over the chomped statistics lines. Its meaning is stated by `Classifier.CollectLastWins` and `Classifier.CollectBorders`. |
| Classifier.CollectBorders | ruby_backup.rb:213 | Border and blank lines add nothing to the table. |
| Classifier.StatsErrorMeaning | ruby_backup.rb:223 | The statistics are OK exactly when the last `Errors` line has value `0`; otherwise they are YES, including when there is no `Errors` line. |
| Classifier.AllBordersIsError | ruby_backup.rb:210-223 | A section of borders only gives an empty table and YES. |
| Classifier.DigitRunMeaning | ruby_backup.rb:235 | The `\d+` of the pattern is the longest prefix of digits. |
| Classifier.HumanOfCount | ruby_backup.rb:229-236 | A value `"<digits> (<h>)"` reads back as `h`. |
| Classifier.HumanKeepsMiddle | ruby_backup.rb:229-236 | Only a leading `<digits> (` and one trailing `)` are removed; a value with neither is returned unchanged. |
| Classifier.StatsAccessHuman | ruby_backup.rb:229-236 | `stats_access_human`: the two `gsub`s on the stored value. Its meaning is stated by `Classifier.HumanOfCount` and `Classifier.HumanKeepsMiddle`. |
| Classifier.LogSectionHasNoHeader | ruby_backup.rb:251 | The log section never contains the statistics header. |
| Classifier.SectionsWithoutHeader | ruby_backup.rb:251-255 | An output without a header is all log and has no statistics. |
| Classifier.SectionsOfBackupOutput | ruby_backup.rb:251 | `log + header + stats` splits back into `log` and `stats`. |
| Classifier.SectionsWithEmptyStats | ruby_backup.rb:251-255 | A header with nothing after it leaves no statistics section. |
| Classifier.LogSection | ruby_backup.rb:251 | The first piece of `output.split(DUPLICITY_STATS_HEADER)`. `Classifier.LogSectionHasNoHeader`, `Classifier.SectionsWithoutHeader` and `Classifier.SectionsOfBackupOutput` state what it is. |
| Classifier.StatsSection | ruby_backup.rb:251-255 | The second piece, or nil. `Classifier.SectionsOfBackupOutput`, `Classifier.SectionsWithoutHeader` and `Classifier.SectionsWithEmptyStats` state what it is. |
| Classifier.ClassifyBackup | ruby_backup.rb:238-264 | The outcome keeps the raw output, and its statistics values are single lines. |
| Classifier.BackupErrorBits | ruby_backup.rb:254-261 | MAYBE comes only from the log; YES comes from the log, the statistics or a nonzero or missing exit status; without statistics the flags are the log's ORed with the exit flag. |
| Classifier.ClassifyVerify | ruby_backup.rb:266-284 | The outcome keeps the raw output. It is YES exactly when the exit status is not 0, including a missing one, and it is never MAYBE. |
| Classifier.ExitFlag | ruby_backup.rb:281 | `exit_status == 0 ? OK : YES`: YES exactly when the status is not 0, including nil, and never MAYBE. |
| Classifier.VerifyByExitOnly | ruby_backup.rb:281 | Verify is YES exactly when the exit status is not 0, otherwise OK, and the output text never matters. |
| Reporter.EchoRoundTrip | ruby_backup.rb:303 | The echoed events give back the raw output exactly: one informational event per line. |
| Reporter.EchoLinesRoundTrip | ruby_backup.rb:303 | Each echoed event is `"> "` followed by its line. |
| Reporter.ReportBackupOnError | ruby_backup.rb:286-305 | A failed or unrecognised backup logs one header per set flag, then the whole output; an error-priority event appears exactly when YES is set. |
| Reporter.ReportBackupOnSuccess | ruby_backup.rb:306-311 | A clean backup logs one informational line. It names the job and the sink, starts with `[Full] ` exactly when the backup was full, and ends with the readable delta size. |
| Reporter.ReportBackup | ruby_backup.rb:286-311 | `log_single_backup_result` as the events it logs. Its meaning is stated by `Reporter.ReportBackupOnError` and `Reporter.ReportBackupOnSuccess`. |
| Reporter.ReportVerifyShape | ruby_backup.rb:313-334 | A failed verify logs the headers for its flags first, then one echoed event per line of the output, and those events give the output back. An error-priority event appears exactly when YES is set. A clean verify logs one informational line that starts `Verify` and names the job and the sink. |
| Reporter.ReportVerify | ruby_backup.rb:313-334 | `log_single_verify_result` as the events it logs. Its meaning is stated by `Reporter.ReportVerifyShape`. |
| Reporter.SummaryLevelMeaning | ruby_backup.rb:491-500 | The summary priority is notice exactly for OK, error exactly when YES is set, and warning exactly for MAYBE alone. |
| Jobs.ExcludeOptionsShape | ruby_backup.rb:130 | The exclusion fold keeps its start and adds `--exclude <path>` per exclusion, in order. |
| Jobs.OptionsShapeUnique | ruby_backup.rb:116-133 | The option shape determines the option vector completely. |
| Jobs.Job.constructor | ruby_backup.rb:94-114 | A job stores its name, path, host, sink list (the object itself), passphrase, exclusions and monthly-full switch. |
| Jobs.Job.DuplicityOptions | ruby_backup.rb:116-133 | The mode is accepted exactly when it is backup or verify; the vector then has the monthly-full pair first when asked for, then one `--exclude` pair per exclusion. |
| Jobs.Job.OptionsHaveShape | ruby_backup.rb:116-133 | The option vector of every job has that shape. |
| Jobs.Job.ArgvShape | ruby_backup.rb:135-171 | The backup argv ends with the folder, the key-file option and the target; the verify argv has the sink's two options before the folder, which comes last; both carry the job's options after the fixed flags. |
| Jobs.Job.BackupArgv | ruby_backup.rb:135-152 | The argv of `call_duplicity_backup`. `Jobs.Job.ArgvShape` states its layout. |
| Jobs.Job.VerifyArgv | ruby_backup.rb:154-171 | The argv of `call_duplicity_verify`. `Jobs.Job.ArgvShape` states its layout. |
| Jobs.Job.BackupToSink | ruby_backup.rb:238-264 | The backup starts one duplicity process, and `PASSPHRASE` is the only entry it adds to the inherited environment. Its argv starts with `duplicity` and ends with the folder, the key-file option and the target. The outcome keeps the output and the log's full flag. Its MAYBE comes only from the log. Its YES comes from the log, the statistics or a nonzero or missing exit status. |
| Jobs.Job.VerifyOnSink | ruby_backup.rb:266-284 | The verify starts one `duplicity verify` process, with the target and folder last. `PASSPHRASE` is the only entry it adds to the inherited environment. The outcome keeps the output and is OK exactly when the exit status is 0, and YES otherwise. |
| Jobs.Job.BackupPass | ruby_backup.rb:346-356 | The loop body of `run!` is the next step of the whole run: announce, one process, classifier events, report. |
| Jobs.Job.VerifyPass | ruby_backup.rb:372-382 | The loop body of `verify!` is the next step of the whole verify. |
| Jobs.Job.Run | ruby_backup.rb:336-361 | `run!` returns, logs and starts exactly what `BackupTrace` of its sinks says. |
| Jobs.Job.Verify | ruby_backup.rb:363-386 | `verify!` returns, logs and starts exactly what `VerifyTrace` of its sinks says. |
| Jobs.Job.BackupTrace | ruby_backup.rb:336-361 | What `run!` does over a list of sinks. Its meaning is stated by `Jobs.Job.BackupBits`, `Jobs.Job.BackupCallsAt` and `Jobs.Job.BackupStepErrors`. |
| Jobs.Job.VerifyTrace | ruby_backup.rb:363-386 | What `verify!` does over a list of sinks. Its meaning is stated by `Jobs.Job.VerifyMeaning`, `Jobs.Job.VerifyYes`, `Jobs.Job.VerifyNeverMaybe` and `Jobs.Job.VerifyCallsAt`. |
| Jobs.Job.BackupStepErrors | ruby_backup.rb:350-352 | Pass i contributes the classified flags of sink i's output. |
| Jobs.Job.VerifyStepErrors | ruby_backup.rb:376-378 | Pass i contributes the exit flag of sink i. |
| Jobs.Job.BackupBits | ruby_backup.rb:336-361 | A job run is YES, or MAYBE, exactly when some sink's outcome is. |
| Jobs.Job.BackupCallsAt | ruby_backup.rb:346-350 | `run!` starts exactly one backup process per sink, in list order. |
| Jobs.Job.VerifyYes | ruby_backup.rb:363-386 | A job verify is YES exactly when some sink's exit status is not 0. |
| Jobs.Job.VerifyNeverMaybe | ruby_backup.rb:363-386 | A job verify never sets MAYBE. |
| Jobs.Job.VerifyMeaning | ruby_backup.rb:363-386 | A job verify is OK exactly when every sink exits with 0, and YES otherwise. |
| Jobs.Job.VerifyCallsAt | ruby_backup.rb:372-376 | `verify!` starts exactly one verify process per sink, in list order. |
| Jobs.SequenceErrorIsFold | ruby_backup.rb:486-489 | ORing each pass's flags in as it returns equals folding them with `inject(0)` afterwards. |
| Jobs.Sequence | ruby_backup.rb:346-358 | The effect of the first k passes of a loop, one after the other. Its meaning is stated by `Jobs.SequenceBits`, `Jobs.SequenceErrorIsFold`, `Jobs.SequenceInOrder` and `Jobs.SequenceOneCallEach`. |
| Jobs.SequenceNext | ruby_backup.rb:346-358 | One more pass ORs in its flags and appends its events and processes. |
| Jobs.SequenceBits | ruby_backup.rb:346-358 | No early exit and no lost bit: a loop's flags have a bit exactly when some pass set it. |
| Jobs.SequenceOneCallEach | ruby_backup.rb:346-358 | If each pass starts one process, the loop starts one per pass, in order. |
| Jobs.SequencePrefix | ruby_backup.rb:346-358 | Later passes only append to the events and processes. |
| Jobs.SequenceInOrder | ruby_backup.rb:346-358 | Pass i's events and processes follow those of the passes before it. |
| Jobs.SequenceAppendKeeps | ruby_backup.rb:486-489 | A further pass leaves the earlier prefixes unchanged. |
| Jobs.SequenceAppend | ruby_backup.rb:486-489 | Running the passes and then one more is one further step. |
| JobSets.WithDefaults | ruby_backup.rb:460-462 | Host and sinks are filled from the set when absent; the passphrase is filled from the default when absent and a default exists; the other keywords are unchanged. |
| JobSets.MissingKeys | ruby_backup.rb:94-95 | `Job.new` lacks nothing exactly when name, path, host, sinks and passphrase are all given. |
| JobSets.MissingWithDefaults | ruby_backup.rb:453-469 | After the defaults, a job lacks nothing exactly when name and path are given and it has a passphrase or there is a default one; `pass` is missing exactly when neither exists. |
| JobSets.MissingAfterDefaults | ruby_backup.rb:453-469 | The keys `Job.new` reports missing after the defaults are exactly those `MissingWithDefaults` names. |
| JobSets.SinksOfNext | ruby_backup.rb:428-436 | The sinks built from the first k+1 entries are those from the first k plus entry k's sink. |
| JobSets.SummaryMeaning | ruby_backup.rb:491-500 | The summary says `[ OK ]` exactly for OK, at notice priority; otherwise it is an error when YES is set and a warning for MAYBE alone. The backup and verify summaries agree. |
| JobSets.BackupSummary | ruby_backup.rb:492-500 | The closing line of a set's `run!`. `JobSets.SummaryMeaning` states its text and priority. |
| JobSets.VerifySummary | ruby_backup.rb:516-523 | The closing line of a set's `verify!`. `JobSets.SummaryMeaning` states its text and priority. |
| JobSets.JobSet.constructor | ruby_backup.rb:397-413 | A new set has its name, host and default passphrase, no jobs, and a fresh empty default sink list. |
| JobSets.JobSet.PushJob | ruby_backup.rb:441-451 | `push_job` appends the job. |
| JobSets.JobSet.AddJob | ruby_backup.rb:453-469 | With the defaults filled in: if no keyword is missing, one fresh job built from them is appended; otherwise the missing keys are returned and the jobs are unchanged. |
| JobSets.JobSet.AddSftpSink | ruby_backup.rb:471-479 | The sink is appended to the shared default list exactly when its key file exists; otherwise the error is returned and the list is unchanged. |
| JobSets.JobSet.AddJobs | ruby_backup.rb:423-426 | All jobs are added, in order, exactly when none lacks a keyword; otherwise the first failing job's missing keys are returned. |
| JobSets.JobSet.AddSftpSinks | ruby_backup.rb:428-436 | All sinks are appended, in order, exactly when every key file exists; otherwise the key-file error is returned. |
| JobSets.JobSet.NewFromHash | ruby_backup.rb:415-439 | Building fails exactly when some job lacks a keyword or some key file is missing; the first failing job wins over any sink. On success there is one fresh job per entry, and every job without its own sinks shares the set's list, which holds all the configured sinks. |
| JobSets.JobSet.Run | ruby_backup.rb:481-503 | The set's flags, events and processes are the jobs' `run!` traces in order, followed by the summary line for the combined flags. |
| JobSets.JobSet.Verify | ruby_backup.rb:505-526 | The same for `verify!`, with the verify summary. |
| JobSets.SetVerifyMeaning | ruby_backup.rb:505-526 | A set verify is OK exactly when every sink of every job exits with 0, and YES otherwise. |

## Left out

- Running duplicity (`Open3.capture2e`): each process is an input `EngineResult`, and the model records the environment and argv it would pass.
- Syslog: events are collected in order rather than sent. The numeric level that `log` prepends to every message is not part of the event text.
- `File.file?`: the set of existing files is a parameter.
- The command-line module, the JSON configuration and option parsing: these lie outside the driver's core.
- Nil versus absent keywords: an absent keyword and a `nil` one are both `None`. `||=` treats `false` like nil, which only matters for `monthly_full`, and that is not defaulted.
- `new_from_hash` deleting the legacy `:connect` and `:host` sink keys: `SinkSpec` has no such fields, so there is nothing to delete.
- Unknown keyword arguments, which Ruby rejects with an `ArgumentError`, cannot be expressed in `JobSpec` and `SinkSpec`.
- `new_from_hash` with a nil `:jobs` or `:sftp_sinks` (a `NoMethodError` in the source): the entries are sequences.
- JobSets.JobSet.PushJob: the `is_a? Job` check is a type, so its error path cannot arise.
- JobSets.JobSet.NewFromHash: a partially built set is discarded on an error; the source raises, so no caller sees it either.
- Ruby regular expressions and `split` appear only in the forms the source uses: a literal multi-character separator, the awk-style `split(' ', 2)`, `/^-*$/` on chomped lines, and `gsub(/^\d+ \(/)` and `gsub(/\)$/)` on newline-free values. For the blank test, `IsSpace` covers space, tab, newline, vertical tab, form feed and carriage return.
- Job.Run: an engine output with no log section, or a clean backup without `RawDeltaSize`, makes the source raise; the model states these cases as preconditions.
- JobSets.JobSet.Run: there is no single lemma relating a set's backup flags to every sink's outcome. That property is the composition of `Jobs.SequenceBits` over the jobs with `Jobs.Job.BackupBits` for each job.
- Job, JobSet and sink names and hosts are strings; a nil `name` or `host` is not modelled.
- Ports are natural numbers (`SftpSink.port`, `SinkSpec.port`). Ruby interpolates any value into the target, such as a string read from JSON or a negative number; the model does not cover those.
- The environment a duplicity process inherits from the driver (PATH, HOME and the rest) is not modelled: `Invocation.env` holds only the entries the call adds.
