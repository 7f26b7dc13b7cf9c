/** A backup job (class `Job`, ruby_backup.rb:88-387): a source folder backed
    up to each of its sinks in turn. The engine runs are inputs, one per
    sink; what the job does with them is recorded as a `Trace`. */
module Jobs {
  import opened Wrappers
  import opened ErrorFlags
  import opened Text
  import opened Logging
  import opened Sinks
  import opened Classifier
  import opened Reporter

  /** One process the job starts: the environment it adds and its argv. */
  datatype Invocation = Invocation(env: map<string, string>, argv: seq<string>)

  /** `ArgumentError, 'mode must be :backup or :verify'` */
  datatype OptionsError = BadMode

  /** What a loop over sinks or jobs gives back: the OR of the error flags,
      the events it logged and the processes it started, in order. */
  datatype Trace = Trace(error: Flags, events: seq<Event>, calls: seq<Invocation>)

  /** `@exclude.inject([]) { |a, e| a + ['--exclude', e] }` */
  function ExcludeOptions(acc: seq<string>, exclude: seq<string>): seq<string>
    decreases |exclude|
  {
    if exclude == [] then acc else ExcludeOptions(acc + ["--exclude", exclude[0]], exclude[1..])
  }

  /** The fold keeps what it started with and adds a flag and a path per
      exclusion, in order. */
  lemma {:induction false} ExcludeOptionsShape(acc: seq<string>, exclude: seq<string>)
    ensures var r := ExcludeOptions(acc, exclude);
      && |r| == |acc| + 2 * |exclude|
      && r[..|acc|] == acc
      && forall i :: 0 <= i < |exclude| ==> r[|acc| + 2 * i] == "--exclude" && r[|acc| + 2 * i + 1] == exclude[i]
    decreases |exclude|
  {
    if exclude != [] {
      var acc' := acc + ["--exclude", exclude[0]];
      ExcludeOptionsShape(acc', exclude[1..]);
      var r := ExcludeOptions(acc, exclude);
      assert r[..|acc'|] == acc';
      assert r[..|acc|] == acc'[..|acc|];
      forall i | 1 <= i < |exclude|
        ensures r[|acc| + 2 * i] == "--exclude" && r[|acc| + 2 * i + 1] == exclude[i]
      {
        assert exclude[1..][i - 1] == exclude[i];
        assert |acc'| + 2 * (i - 1) == |acc| + 2 * i;
      }
    }
  }

  const FullIfOlder: seq<string> := ["--full-if-older-than", "1M"]

  /** The option vector of a job: the monthly-full pair first when asked
      for, then `--exclude <path>` for every exclusion in order. */
  predicate OptionsShape(opts: seq<string>, monthlyFull: bool, exclude: seq<string>) {
    var off := if monthlyFull then 2 else 0;
    && |opts| == off + 2 * |exclude|
    && (monthlyFull ==> opts[..2] == FullIfOlder)
    && forall i :: 0 <= i < |exclude| ==> opts[off + 2 * i] == "--exclude" && opts[off + 2 * i + 1] == exclude[i]
  }

  /** The shape pins the vector down completely. */
  lemma OptionsShapeUnique(a: seq<string>, b: seq<string>, monthlyFull: bool, exclude: seq<string>)
    requires OptionsShape(a, monthlyFull, exclude) && OptionsShape(b, monthlyFull, exclude)
    ensures a == b
  {
    var off := if monthlyFull then 2 else 0;
    forall j | 0 <= j < |a|
      ensures a[j] == b[j]
    {
      if j < off {
        assert a[j] == a[..2][j] && b[j] == b[..2][j];
      } else {
        var i := (j - off) / 2;
        assert j == off + 2 * i || j == off + 2 * i + 1;
      }
    }
  }

  /** Engine output the job can report on: it has a log section, and a clean
      run comes with a readable `RawDeltaSize` (the source raises otherwise). */
  predicate BackupReportable(run: EngineResult) {
    HasLogSection(run.output) && Reportable(ClassifyBackup(run))
  }

  /** Every engine answer of a list is reportable. */
  predicate AllReportable(runs: seq<EngineResult>) {
    forall i :: 0 <= i < |runs| ==> BackupReportable(runs[i])
  }

  /** Before the first pass of a loop: OK, nothing logged, nothing started. */
  const NoTrace: Trace := Trace(OK, [], [])

  /** One more pass of a loop: its flags ORed in (`error |= ...`), its events
      and processes appended. */
  function Extend(t: Trace, step: Trace): Trace {
    Trace(Or(t.error, step.error), t.events + step.events, t.calls + step.calls)
  }

  /** The first k passes of a loop one after the other, `ts[i]` being what
      pass i did: over the sinks in `run!` and `verify!`, over the jobs in
      `JobSet#run!` and `JobSet#verify!`. */
  function Sequence(ts: seq<Trace>, k: nat): Trace
    requires k <= |ts|
    decreases k, 0
  {
    if k == 0 then NoTrace else SequenceThrough(ts, k - 1)
  }

  /** The passes up to and including pass i. */
  function SequenceThrough(ts: seq<Trace>, i: nat): Trace
    requires i < |ts|
    decreases i, 1
  {
    Extend(Sequence(ts, i), ts[i])
  }

  /** One more pass. */
  lemma SequenceNext(ts: seq<Trace>, k: nat)
    requires k < |ts|
    ensures Sequence(ts, k + 1) == Extend(Sequence(ts, k), ts[k])
  {
  }

  /** No early exit and no bit lost: a bit is set in the result exactly when
      some pass set it. */
  lemma {:induction false} SequenceBits(ts: seq<Trace>, k: nat)
    requires k <= |ts|
    ensures HasYes(Sequence(ts, k).error) <==> exists i :: 0 <= i < k && HasYes(ts[i].error)
    ensures HasMaybe(Sequence(ts, k).error) <==> exists i :: 0 <= i < k && HasMaybe(ts[i].error)
    decreases k
  {
    if k > 0 {
      SequenceBits(ts, k - 1);
      SequenceNext(ts, k - 1);
    }
  }

  /** The flags the first k passes returned, in order. */
  function Errors(ts: seq<Trace>, k: nat): (fs: seq<Flags>)
    requires k <= |ts|
    ensures |fs| == k && forall i :: 0 <= i < k ==> fs[i] == ts[i].error
  {
    seq(k, i requires 0 <= i < k <= |ts| => ts[i].error)
  }

  /** ORing the flags in as each pass returns (`job_error |= error`) gives
      what folding them afterwards gives (`@jobs.inject(0) { |memo, job|
      memo | ... }`). */
  lemma SequenceErrorIsFold(ts: seq<Trace>, k: nat)
    requires k <= |ts|
    ensures Sequence(ts, k).error == OrAll(Errors(ts, k))
  {
    SequenceBits(ts, k);
    SameBits(Sequence(ts, k).error, OrAll(Errors(ts, k)));
  }

  /** When every pass starts exactly one process, the loop starts one per
      pass, in order. */
  lemma {:induction false} SequenceOneCallEach(ts: seq<Trace>, k: nat)
    requires k <= |ts|
    requires forall i :: 0 <= i < k ==> |ts[i].calls| == 1
    ensures var c := Sequence(ts, k).calls;
      |c| == k && forall i :: 0 <= i < k ==> c[i] == ts[i].calls[0]
    decreases k
  {
    if k > 0 {
      SequenceOneCallEach(ts, k - 1);
      SequenceNext(ts, k - 1);
      var prev, c := Sequence(ts, k - 1).calls, Sequence(ts, k).calls;
      assert c == prev + ts[k - 1].calls;
      forall i | 0 <= i < k
        ensures c[i] == ts[i].calls[0]
      {
        if i < k - 1 {
          assert c[i] == prev[i];
        }
      }
    }
  }

  /** Later passes only append: what the first m passes logged and started
      opens what the first k passes did. */
  lemma {:induction false} SequencePrefix(ts: seq<Trace>, m: nat, k: nat)
    requires m <= k <= |ts|
    ensures var a, b := Sequence(ts, m), Sequence(ts, k);
      && |a.events| <= |b.events| && b.events[..|a.events|] == a.events
      && |a.calls| <= |b.calls| && b.calls[..|a.calls|] == a.calls
    decreases k
  {
    if m < k {
      SequencePrefix(ts, m, k - 1);
      SequenceNext(ts, k - 1);
      var a, p, b := Sequence(ts, m), Sequence(ts, k - 1), Sequence(ts, k);
      assert b.events[..|p.events|] == p.events;
      assert b.events[..|a.events|] == p.events[..|a.events|];
      assert b.calls[..|p.calls|] == p.calls;
      assert b.calls[..|a.calls|] == p.calls[..|a.calls|];
    }
  }

  /** Pass i's events and processes come right after those of the passes
      before it, whatever follows. */
  lemma SequenceInOrder(ts: seq<Trace>, i: nat, k: nat)
    requires i < k <= |ts|
    ensures var a, b := Sequence(ts, i), Sequence(ts, k);
      && |a.events| + |ts[i].events| <= |b.events|
      && b.events[..|a.events| + |ts[i].events|] == a.events + ts[i].events
      && |a.calls| + |ts[i].calls| <= |b.calls|
      && b.calls[..|a.calls| + |ts[i].calls|] == a.calls + ts[i].calls
  {
    SequencePrefix(ts, i + 1, k);
    SequenceNext(ts, i);
  }

  /** Adding a pass leaves the earlier prefixes' results alone. */
  lemma {:induction false} SequenceAppendKeeps(ts: seq<Trace>, t: Trace, k: nat)
    requires k <= |ts|
    ensures Sequence(ts + [t], k) == Sequence(ts, k)
    decreases k
  {
    if k > 0 {
      SequenceAppendKeeps(ts, t, k - 1);
      SequenceNext(ts, k - 1);
      SequenceNext(ts + [t], k - 1);
      assert (ts + [t])[k - 1] == ts[k - 1];
    }
  }

  /** Running the passes of `ts` and then one more. */
  lemma SequenceAppend(ts: seq<Trace>, t: Trace)
    ensures Sequence(ts + [t], |ts| + 1) == Extend(Sequence(ts, |ts|), t)
  {
    SequenceAppendKeeps(ts, t, |ts|);
    SequenceNext(ts + [t], |ts|);
    assert (ts + [t])[|ts|] == t;
  }

  class Job {
    const name: string
    const path: string
    const host: string
    /** Possibly the job set's own default list (shared, not copied). */
    const sinks: SinkList
    const pass: string
    const exclude: seq<string>
    const monthlyFull: bool

    /** `Job.new` */
    constructor (name: string, path: string, host: string, sinks: SinkList, pass: string,
                 exclude: seq<string>, monthlyFull: bool)
      ensures this.name == name && this.path == path && this.host == host
      ensures this.sinks == sinks && this.pass == pass
      ensures this.exclude == exclude && this.monthlyFull == monthlyFull
    {
      this.name := name;
      this.path := path;
      this.host := host;
      this.sinks := sinks;
      this.pass := pass;
      this.exclude := exclude;
      this.monthlyFull := monthlyFull;
    }

    /** The option vector both modes share. */
    function Options(): seq<string> {
      (if monthlyFull then FullIfOlder else []) + ExcludeOptions([], exclude)
    }

    /** `Job#duplicity_options(mode:)`, the mode given by its symbol name. */
    function DuplicityOptions(mode: string): (r: Result<seq<string>, OptionsError>)
      ensures r.Success? <==> mode == "backup" || mode == "verify"
      ensures r.Success? ==> r.value == Options() && OptionsShape(r.value, monthlyFull, exclude)
    {
      if mode != "backup" && mode != "verify" then Failure(BadMode)
      else
        OptionsHaveShape();
        Success(Options())
    }

    /** The monthly-full pair when asked for, then one `--exclude` pair per
        exclusion. */
    lemma OptionsHaveShape()
      ensures OptionsShape(Options(), monthlyFull, exclude)
    {
      var opts, e := Options(), ExcludeOptions([], exclude);
      ExcludeOptionsShape([], exclude);
      var off := if monthlyFull then 2 else 0;
      assert opts == opts[..off] + e;
      forall i | 0 <= i < |exclude|
        ensures opts[off + 2 * i] == "--exclude" && opts[off + 2 * i + 1] == exclude[i]
      {
        assert opts[off + 2 * i] == e[2 * i];
        assert opts[off + 2 * i + 1] == e[2 * i + 1];
      }
    }

    /** The environment of every engine process: the passphrase. */
    function Env(): map<string, string> {
      map["PASSPHRASE" := pass]
    }

    /** The argv of `call_duplicity_backup` for one sink. */
    function BackupArgv(sink: SftpSink): seq<string> {
      ["duplicity", "--allow-source-mismatch", "--exclude-if-present", ".nobackup"]
      + Options() + [path] + SinkOptions(sink, host, name)
    }

    /** The argv of `call_duplicity_verify` for one sink. */
    function VerifyArgv(sink: SftpSink): seq<string> {
      ["duplicity", "verify", "--allow-source-mismatch", "--exclude-if-present", ".nobackup"]
      + Options() + SinkOptions(sink, host, name) + [path]
    }

    /** A backup names the source folder just before the sink's two options,
        the target last; a verify names the sink first and the folder last.
        Both carry the job's option vector after the fixed flags. */
    lemma ArgvShape(sink: SftpSink)
      ensures var a := BackupArgv(sink);
        && |a| == 7 + |DuplicityOptions("backup").value|
        && a[0] == "duplicity" && a[|a| - 3] == path
        && a[|a| - 2] == KeyfileOption(sink) && a[|a| - 1] == Target(sink, host, name)
        && OptionsShape(a[4..|a| - 3], monthlyFull, exclude)
      ensures var v := VerifyArgv(sink);
        && |v| == 8 + |DuplicityOptions("verify").value|
        && v[..2] == ["duplicity", "verify"] && v[|v| - 1] == path
        && v[|v| - 3] == KeyfileOption(sink) && v[|v| - 2] == Target(sink, host, name)
        && OptionsShape(v[5..|v| - 3], monthlyFull, exclude)
    {
      var a := BackupArgv(sink);
      assert a[4..|a| - 3] == DuplicityOptions("backup").value;
      var v := VerifyArgv(sink);
      assert v[5..|v| - 3] == DuplicityOptions("verify").value;
    }

    /** The process `call_duplicity_backup` starts for one sink. */
    function BackupCall(sink: SftpSink): Invocation {
      Invocation(Env(), BackupArgv(sink))
    }

    /** The process `call_duplicity_verify` starts for one sink. */
    function VerifyCall(sink: SftpSink): Invocation {
      Invocation(Env(), VerifyArgv(sink))
    }

    /** The line `run!` logs before backing up to a sink. */
    function BackupStart(sink: SftpSink): Event {
      InfoEvent("Starting backup " + name + " to " + sink.name + ".")
    }

    /** The line `verify!` logs before verifying a sink. */
    function VerifyStart(sink: SftpSink): Event {
      InfoEvent("Verifying backup " + name + " on " + sink.name + ".")
    }

    /** What `run!` does for one sink, `run` being the engine's answer:
        it announces the sink, starts one process, logs what the classifier
        logged and then the report; the flags are the outcome's. */
    function SinkBackup(sink: SftpSink, run: EngineResult): (t: Trace)
      requires BackupReportable(run)
      ensures t.error == ClassifyBackup(run).error
    {
      var o := ClassifyBackup(run);
      Trace(o.error, [BackupStart(sink)] + o.logEvents + ReportBackup(name, sink.name, o), [BackupCall(sink)])
    }

    /** What `verify!` does for one sink: announce, one process, report. */
    function SinkVerify(sink: SftpSink, run: EngineResult): (t: Trace)
      ensures t.error == ExitFlag(run.exit)
    {
      var o := ClassifyVerify(run);
      Trace(o.error, [VerifyStart(sink)] + ReportVerify(name, sink.name, o), [VerifyCall(sink)])
    }

    /** The passes of `run!`, `runs[i]` being the engine's answer for
        `list[i]`. */
    function BackupSteps(list: seq<SftpSink>, runs: seq<EngineResult>): (ts: seq<Trace>)
      requires |runs| == |list| && AllReportable(runs)
      ensures |ts| == |list|
    {
      seq(|list|, i requires 0 <= i < |list| => SinkBackup(list[i], runs[i]))
    }

    /** The passes of `verify!`. */
    function VerifySteps(list: seq<SftpSink>, runs: seq<EngineResult>): (ts: seq<Trace>)
      requires |runs| == |list|
      ensures |ts| == |list|
    {
      seq(|list|, i requires 0 <= i < |list| => SinkVerify(list[i], runs[i]))
    }

    /** `run!` over the first k sinks of `list`. */
    function BackupUpTo(list: seq<SftpSink>, runs: seq<EngineResult>, k: nat): Trace
      requires |runs| == |list| && k <= |list| && AllReportable(runs)
    {
      Sequence(BackupSteps(list, runs), k)
    }

    /** `verify!` over the first k sinks of `list`. */
    function VerifyUpTo(list: seq<SftpSink>, runs: seq<EngineResult>, k: nat): Trace
      requires |runs| == |list| && k <= |list|
    {
      Sequence(VerifySteps(list, runs), k)
    }

    /** The whole of `run!` over the sinks `list`. */
    function BackupTrace(list: seq<SftpSink>, runs: seq<EngineResult>): Trace
      requires |runs| == |list| && AllReportable(runs)
    {
      BackupUpTo(list, runs, |list|)
    }

    /** The whole of `verify!` over the sinks `list`. */
    function VerifyTrace(list: seq<SftpSink>, runs: seq<EngineResult>): Trace
      requires |runs| == |list|
    {
      VerifyUpTo(list, runs, |list|)
    }

    /** Pass i of `run!` carries the error of sink i's outcome. */
    lemma BackupStepErrors(list: seq<SftpSink>, runs: seq<EngineResult>)
      requires |runs| == |list| && AllReportable(runs)
      ensures forall i :: 0 <= i < |list| ==> BackupSteps(list, runs)[i].error == ClassifyBackup(runs[i]).error
    {
      var ts := BackupSteps(list, runs);
      forall i | 0 <= i < |list|
        ensures ts[i].error == ClassifyBackup(runs[i]).error
      {
        assert ts[i].error == SinkBackup(list[i], runs[i]).error;
      }
    }

    /** Pass i of `verify!` carries the flag of sink i's exit status. */
    lemma VerifyStepErrors(list: seq<SftpSink>, runs: seq<EngineResult>)
      requires |runs| == |list|
      ensures forall i :: 0 <= i < |list| ==> VerifySteps(list, runs)[i].error == ExitFlag(runs[i].exit)
    {
      var ts := VerifySteps(list, runs);
      forall i | 0 <= i < |list|
        ensures ts[i].error == ExitFlag(runs[i].exit)
      {
        assert ts[i].error == SinkVerify(list[i], runs[i]).error;
      }
    }

    /** No early exit and no bit lost: `run!` fails definitely, or reports
        unrecognised output, exactly when the outcome for some sink does. */
    lemma BackupBits(list: seq<SftpSink>, runs: seq<EngineResult>)
      requires |runs| == |list| && AllReportable(runs)
      ensures HasYes(BackupTrace(list, runs).error)
              <==> exists i :: 0 <= i < |list| && HasYes(ClassifyBackup(runs[i]).error)
      ensures HasMaybe(BackupTrace(list, runs).error)
              <==> exists i :: 0 <= i < |list| && HasMaybe(ClassifyBackup(runs[i]).error)
    {
      BackupStepErrors(list, runs);
      SequenceBits(BackupSteps(list, runs), |list|);
    }

    /** `run!` starts exactly one engine process per sink, in list order. */
    lemma BackupCallsAt(list: seq<SftpSink>, runs: seq<EngineResult>)
      requires |runs| == |list| && AllReportable(runs)
      ensures var c := BackupTrace(list, runs).calls;
        |c| == |list| && forall i :: 0 <= i < |list| ==> c[i] == BackupCall(list[i])
    {
      var ts := BackupSteps(list, runs);
      forall i | 0 <= i < |list|
        ensures ts[i].calls == [BackupCall(list[i])]
      {
        assert ts[i].error == SinkBackup(list[i], runs[i]).error;
      }
      SequenceOneCallEach(ts, |list|);
    }

    /** `verify!` sets the definite-failure bit exactly when some sink's
        engine exited with a status other than 0. */
    lemma VerifyYes(list: seq<SftpSink>, runs: seq<EngineResult>)
      requires |runs| == |list|
      ensures HasYes(VerifyTrace(list, runs).error) <==> exists i :: 0 <= i < |list| && runs[i].exit != Some(0)
    {
      VerifyStepErrors(list, runs);
      SequenceBits(VerifySteps(list, runs), |list|);
    }

    /** `verify!` never reports unrecognised output. */
    lemma VerifyNeverMaybe(list: seq<SftpSink>, runs: seq<EngineResult>)
      requires |runs| == |list|
      ensures !HasMaybe(VerifyTrace(list, runs).error)
    {
      VerifyStepErrors(list, runs);
      SequenceBits(VerifySteps(list, runs), |list|);
    }

    /** `verify!` fails definitely exactly when some sink's engine exited
        with a status other than 0, and is OK otherwise: it never reports
        unrecognised output. */
    lemma VerifyMeaning(list: seq<SftpSink>, runs: seq<EngineResult>)
      requires |runs| == |list|
      ensures VerifyTrace(list, runs).error == YES <==> exists i :: 0 <= i < |list| && runs[i].exit != Some(0)
      ensures VerifyTrace(list, runs).error == OK <==> forall i :: 0 <= i < |list| ==> runs[i].exit == Some(0)
    {
      VerifyYes(list, runs);
      VerifyNeverMaybe(list, runs);
      var e := VerifyTrace(list, runs).error;
      if HasYes(e) {
        SameBits(e, YES);
      } else {
        SameBits(e, OK);
      }
    }

    /** `verify!` starts exactly one engine process per sink, in list
        order. */
    lemma VerifyCallsAt(list: seq<SftpSink>, runs: seq<EngineResult>)
      requires |runs| == |list|
      ensures var c := VerifyTrace(list, runs).calls;
        |c| == |list| && forall i :: 0 <= i < |list| ==> c[i] == VerifyCall(list[i])
    {
      var ts := VerifySteps(list, runs);
      forall i | 0 <= i < |list|
        ensures ts[i].calls == [VerifyCall(list[i])]
      {
        assert ts[i] == SinkVerify(list[i], runs[i]);
      }
      SequenceOneCallEach(ts, |list|);
    }

    /** `Job#backup_to_sink`: start the engine for `sink` (its answer is
        `run`) and classify what it printed. */
    method BackupToSink(sink: SftpSink, run: EngineResult) returns (o: ReportableOutcome, call: Invocation)
      requires BackupReportable(run)
      ensures call == BackupCall(sink) && o == ClassifyBackup(run)
      ensures call.env == map["PASSPHRASE" := pass]
      ensures var a := call.argv;
        && |a| >= 4 && a[0] == "duplicity"
        && a[|a| - 3] == path && a[|a| - 1] == Target(sink, host, name)
      ensures var log := ParseLog(LogSection(run.output));
        var section := StatsSection(run.output);
        && o.output == run.output && o.full == log.full
        && (HasMaybe(o.error) <==> HasMaybe(log.error))
        && (HasYes(o.error) <==> HasYes(log.error) || run.exit != Some(0)
                                 || (section.Some? && ParseStats(section.value).error == YES))
    {
      call := BackupCall(sink);
      o := ClassifyBackup(run);
      ArgvShape(sink);
      BackupErrorBits(run);
    }

    /** `Job#verify_on_sink`: start the engine for `sink` (its answer is
        `run`) and judge it by its exit status. */
    method VerifyOnSink(sink: SftpSink, run: EngineResult) returns (o: VerifyOutcome, call: Invocation)
      ensures call == VerifyCall(sink) && o == ClassifyVerify(run)
      ensures call.env == map["PASSPHRASE" := pass]
      ensures var v := call.argv;
        && |v| >= 4 && v[..2] == ["duplicity", "verify"]
        && v[|v| - 2] == Target(sink, host, name) && v[|v| - 1] == path
      ensures o.output == run.output
      ensures o.error == OK <==> run.exit == Some(0)
      ensures o.error == YES <==> run.exit != Some(0)
    {
      call := VerifyCall(sink);
      o := ClassifyVerify(run);
      ArgvShape(sink);
      VerifyByExitOnly(run, run.output);
    }

    /** One pass of the loop in `run!`: announce sink i, back up to it,
        report. What it does is the next step of the whole. */
    method BackupPass(list: seq<SftpSink>, runs: seq<EngineResult>, i: nat) returns (error: Flags, logged: seq<Event>, call: Invocation)
      requires |runs| == |list| && i < |list| && AllReportable(runs)
      ensures BackupUpTo(list, runs, i + 1) == Extend(BackupUpTo(list, runs, i), Trace(error, logged, [call]))
    {
      var sink := list[i];
      logged := [BackupStart(sink)];
      var o;
      o, call := BackupToSink(sink, runs[i]);
      error := o.error;
      logged := logged + o.logEvents + ReportBackup(name, sink.name, o);
      SequenceNext(BackupSteps(list, runs), i);
      assert BackupSteps(list, runs)[i] == Trace(error, logged, [call]);
    }

    /** One pass of the loop in `verify!`: announce sink i, verify it,
        report. */
    method VerifyPass(list: seq<SftpSink>, runs: seq<EngineResult>, i: nat) returns (error: Flags, logged: seq<Event>, call: Invocation)
      requires |runs| == |list| && i < |list|
      ensures VerifyUpTo(list, runs, i + 1) == Extend(VerifyUpTo(list, runs, i), Trace(error, logged, [call]))
    {
      var sink := list[i];
      logged := [VerifyStart(sink)];
      var o;
      o, call := VerifyOnSink(sink, runs[i]);
      error := o.error;
      logged := logged + ReportVerify(name, sink.name, o);
      SequenceNext(VerifySteps(list, runs), i);
      assert VerifySteps(list, runs)[i] == Trace(error, logged, [call]);
    }

    /** `Job#run!`: `runs[i]` is the engine's answer for the i-th sink. */
    method Run(runs: seq<EngineResult>) returns (jobError: Flags, events: seq<Event>, calls: seq<Invocation>)
      requires |runs| == |sinks.items| && AllReportable(runs)
      ensures Trace(jobError, events, calls) == BackupTrace(sinks.items, runs)
    {
      var list := sinks.items;
      jobError, events, calls := OK, [], [];
      var i := 0;
      while i < |list|
        invariant 0 <= i <= |list|
        invariant Trace(jobError, events, calls) == BackupUpTo(list, runs, i)
      {
        var error, logged, call := BackupPass(list, runs, i);
        jobError := Or(jobError, error);
        events, calls := events + logged, calls + [call];
        i := i + 1;
      }
    }

    /** `Job#verify!` */
    method Verify(runs: seq<EngineResult>) returns (jobError: Flags, events: seq<Event>, calls: seq<Invocation>)
      requires |runs| == |sinks.items|
      ensures Trace(jobError, events, calls) == VerifyTrace(sinks.items, runs)
    {
      var list := sinks.items;
      jobError, events, calls := OK, [], [];
      var i := 0;
      while i < |list|
        invariant 0 <= i <= |list|
        invariant Trace(jobError, events, calls) == VerifyUpTo(list, runs, i)
      {
        var error, logged, call := VerifyPass(list, runs, i);
        jobError := Or(jobError, error);
        events, calls := events + logged, calls + [call];
        i := i + 1;
      }
    }
  }
}
