/** A set of jobs sharing a host, a default passphrase and a default list
    of sinks (class `JobSet`, ruby_backup.rb:389-527): building it from a
    configuration, and running or verifying every job in turn. */
module JobSets {
  import opened Wrappers
  import opened ErrorFlags
  import opened Text
  import opened Logging
  import opened Sinks
  import opened Classifier
  import opened Reporter
  import opened Jobs

  // ---------------------------------------------------------------------
  // configuration

  /** The keyword arguments of `add_job`; `None` is an absent key. */
  datatype JobSpec = JobSpec(
    name: Option<string>,
    path: Option<string>,
    host: Option<string>,
    sinks: Option<SinkList>,
    pass: Option<string>,
    exclude: Option<seq<string>>,
    monthlyFull: Option<bool>)

  /** The keyword arguments of `add_sftp_sink`. */
  datatype SinkSpec = SinkSpec(
    name: Option<string>,
    hostname: string,
    username: string,
    directory: string,
    port: nat,
    keyfile: string)

  /** `ArgumentError` from `Job.new` (missing keywords, in declaration
      order) or from `SftpSink.new`. */
  datatype ConfigError = MissingKeywords(keys: seq<string>) | BadSink(SinkError)

  /** `kwargs[:pass] ||= @dpass if @dpass`, `kwargs[:host] ||= @host`,
      `kwargs[:sinks] ||= @dsinks`. */
  function WithDefaults(spec: JobSpec, host: string, dpass: Option<string>, dsinks: SinkList): (r: JobSpec)
    ensures r.host == Some(spec.host.GetOr(host))
    ensures r.sinks == Some(spec.sinks.GetOr(dsinks))
    ensures r.pass.Some? <==> spec.pass.Some? || dpass.Some?
    ensures spec.pass.Some? ==> r.pass == spec.pass
    ensures spec.pass.None? ==> r.pass == dpass
    ensures r.name == spec.name && r.path == spec.path
    ensures r.exclude == spec.exclude && r.monthlyFull == spec.monthlyFull
  {
    spec.(pass := if dpass.Some? && spec.pass.None? then dpass else spec.pass,
          host := if spec.host.None? then Some(host) else spec.host,
          sinks := if spec.sinks.None? then Some(dsinks) else spec.sinks)
  }

  /** The required keywords of `Job.new` that `spec` lacks, in the order
      `Job.new` declares them. */
  function MissingKeys(spec: JobSpec): (keys: seq<string>)
    ensures keys == [] <==> spec.name.Some? && spec.path.Some? && spec.host.Some? && spec.sinks.Some? && spec.pass.Some?
  {
    (if spec.name.None? then ["name"] else [])
    + (if spec.path.None? then ["path"] else [])
    + (if spec.host.None? then ["host"] else [])
    + (if spec.sinks.None? then ["sinks"] else [])
    + (if spec.pass.None? then ["pass"] else [])
  }

  /** The keywords a job lacks once the set's defaults are in: its name,
      its path, and its passphrase when the set has no default one. */
  function MissingWithDefaults(spec: JobSpec, dpass: Option<string>): (keys: seq<string>)
    ensures keys == [] <==> spec.name.Some? && spec.path.Some? && (spec.pass.Some? || dpass.Some?)
    ensures "pass" in keys <==> spec.pass.None? && dpass.None?
  {
    var tail := if spec.pass.None? && dpass.None? then ["pass"] else [];
    var keys := (if spec.name.None? then ["name"] else []) + (if spec.path.None? then ["path"] else []) + tail;
    assert tail != [] ==> keys[|keys| - 1] == "pass";
    keys
  }

  /** After `add_job` filled in the defaults, what `Job.new` still finds
      missing does not depend on the host or the default sinks: the
      defaults always supply those two. */
  lemma MissingAfterDefaults(spec: JobSpec, host: string, dpass: Option<string>, dsinks: SinkList)
    ensures MissingKeys(WithDefaults(spec, host, dpass, dsinks)) == MissingWithDefaults(spec, dpass)
  {
  }

  /** The job `Job.new(**spec)` builds from a complete `spec`. */
  predicate BuiltFrom(job: Job, spec: JobSpec)
    requires MissingKeys(spec) == []
  {
    && job.name == spec.name.value && job.path == spec.path.value
    && job.host == spec.host.value && job.sinks == spec.sinks.value
    && job.pass == spec.pass.value
    && job.exclude == spec.exclude.GetOr([])
    && job.monthlyFull == spec.monthlyFull.GetOr(true)
  }

  /** `SftpSink.new(**spec)`. */
  function SinkOf(spec: SinkSpec, files: set<string>): Result<SftpSink, SinkError> {
    NewSftpSink(spec.name, spec.hostname, spec.username, spec.directory, spec.port, spec.keyfile, files)
  }

  /** The first `k` sinks `new_from_hash` adds, in order, when all of them
      build. */
  function SinksOf(specs: seq<SinkSpec>, files: set<string>, k: nat): (r: seq<SftpSink>)
    requires k <= |specs|
    requires forall i :: 0 <= i < k ==> specs[i].keyfile in files
  {
    seq(k, i requires 0 <= i < k => SinkOf(specs[i], files).value)
  }

  /** One more sink spec adds its sink at the end. */
  lemma SinksOfNext(specs: seq<SinkSpec>, files: set<string>, k: nat)
    requires k < |specs|
    requires forall i :: 0 <= i <= k ==> specs[i].keyfile in files
    ensures SinksOf(specs, files, k + 1) == SinksOf(specs, files, k) + [SinkOf(specs[k], files).value]
  {
    var a, b := SinksOf(specs, files, k + 1), SinksOf(specs, files, k) + [SinkOf(specs[k], files).value];
    assert forall i :: 0 <= i < k + 1 ==> a[i] == b[i];
  }

  // ---------------------------------------------------------------------
  // the set

  /** The last line of `JobSet#run!`. */
  function BackupSummary(setName: string, host: string, error: Flags): Event {
    if error == OK then Event(Notice, "[ OK ] Backup set " + setName + " on " + host + " done.")
    else Event(SummaryLevel(error), "[FAIL] Backup set " + setName + " on " + host + " is in error.")
  }

  /** The last line of `JobSet#verify!`. */
  function VerifySummary(setName: string, host: string, error: Flags): Event {
    if error == OK then Event(Notice, "[ OK ] Verified backup set " + setName + " on " + host + ".")
    else Event(SummaryLevel(error), "[FAIL] Could not verify backup set " + setName + " on " + host + ".")
  }

  /** The summary says OK exactly when nothing failed, at notice priority;
      otherwise it is an error when some job failed for sure and a warning
      when there was only unrecognised output. */
  lemma SummaryMeaning(setName: string, host: string, error: Flags)
    ensures var b, v := BackupSummary(setName, host, error), VerifySummary(setName, host, error);
      && (b.message[..6] == "[ OK ]" <==> error == OK) && (v.message[..6] == "[ OK ]" <==> error == OK)
      && b.level == v.level
      && (b.level == Notice <==> error == OK)
      && (b.level == Err <==> HasYes(error))
      && (b.level == Warning <==> error == MAYBE)
  {
    SummaryLevelMeaning(error);
    var b, v := BackupSummary(setName, host, error), VerifySummary(setName, host, error);
    assert b.message[..6] == (if error == OK then "[ OK ]" else "[FAIL]");
    assert v.message[..6] == (if error == OK then "[ OK ]" else "[FAIL]");
  }

  class JobSet {
    const name: string
    const host: string
    /** The default passphrase for new jobs, if any. */
    const dpass: Option<string>
    /** The default sinks: one list, shared with every job that takes it. */
    const dsinks: SinkList
    var jobs: seq<Job>

    /** `JobSet.new(name:, host:, dpass:)` with no jobs and no sinks yet. */
    constructor (name: string, host: string, dpass: Option<string>)
      ensures this.name == name && this.host == host && this.dpass == dpass
      ensures jobs == [] && fresh(dsinks) && dsinks.items == []
    {
      this.name := name;
      this.host := host;
      this.dpass := dpass;
      dsinks := new SinkList([]);
      jobs := [];
    }

    /** `JobSet#push_job` */
    method PushJob(job: Job)
      modifies this
      ensures jobs == old(jobs) + [job]
    {
      jobs := jobs + [job];
    }

    /** `JobSet#add_job`: the defaults filled in, then `Job.new`, which
        raises when a required keyword is still missing. */
    method AddJob(spec: JobSpec) returns (err: Option<ConfigError>)
      modifies this
      ensures var full := WithDefaults(spec, host, dpass, dsinks);
        && (err.None? <==> MissingKeys(full) == [])
        && (err.Some? ==> err.value == MissingKeywords(MissingKeys(full)) && jobs == old(jobs))
        && (err.None? ==> |jobs| == |old(jobs)| + 1 && jobs[..|old(jobs)|] == old(jobs)
                          && fresh(jobs[|old(jobs)|]) && BuiltFrom(jobs[|old(jobs)|], full))
    {
      var full := WithDefaults(spec, host, dpass, dsinks);
      var missing := MissingKeys(full);
      if missing != [] {
        return Some(MissingKeywords(missing));
      }
      var job := new Job(full.name.value, full.path.value, full.host.value, full.sinks.value,
                         full.pass.value, full.exclude.GetOr([]), full.monthlyFull.GetOr(true));
      PushJob(job);
      assert jobs[..|old(jobs)|] == old(jobs);
      return None;
    }

    /** `JobSet#add_sftp_sink`: the sink goes onto the shared default list;
        `files` stands for what `File.file?` sees. */
    method AddSftpSink(spec: SinkSpec, files: set<string>) returns (err: Option<ConfigError>)
      modifies dsinks
      ensures err.None? <==> spec.keyfile in files
      ensures err.Some? ==> err.value == BadSink(KeyfileMissing) && dsinks.items == old(dsinks.items)
      ensures err.None? ==> dsinks.items == old(dsinks.items) + [SinkOf(spec, files).value]
    {
      var r := SinkOf(spec, files);
      if r.Failure? {
        return Some(BadSink(r.error));
      }
      dsinks.Push(r.value);
      return None;
    }

    /** `JobSet.new_from_hash`: the set, then its jobs in order, then its
        sinks in order. The first job that lacks a keyword, or else the
        first sink whose key file is missing, aborts the whole build. Since
        every job without sinks of its own shares the list the sinks are
        added to afterwards, each such job ends up with all of them. */
    static method NewFromHash(name: string, host: string, pass: Option<string>,
                              jobSpecs: seq<JobSpec>, sinkSpecs: seq<SinkSpec>, files: set<string>)
      returns (r: Result<JobSet, ConfigError>)
      ensures r.Failure? <==>
        || (exists j :: 0 <= j < |jobSpecs| && MissingWithDefaults(jobSpecs[j], pass) != [])
        || (exists k :: 0 <= k < |sinkSpecs| && sinkSpecs[k].keyfile !in files)
      ensures r.Failure? ==>
        || (exists j :: 0 <= j < |jobSpecs| && MissingWithDefaults(jobSpecs[j], pass) != []
              && (forall i :: 0 <= i < j ==> MissingWithDefaults(jobSpecs[i], pass) == [])
              && r.error == MissingKeywords(MissingWithDefaults(jobSpecs[j], pass)))
        || ((forall j :: 0 <= j < |jobSpecs| ==> MissingWithDefaults(jobSpecs[j], pass) == [])
              && r.error == BadSink(KeyfileMissing))
      ensures r.Success? ==> var s := r.value;
        && fresh(s) && fresh(s.dsinks)
        && s.name == name && s.host == host && s.dpass == pass
        && s.dsinks.items == SinksOf(sinkSpecs, files, |sinkSpecs|)
        && |s.jobs| == |jobSpecs|
        && (forall j :: 0 <= j < |jobSpecs| ==>
              fresh(s.jobs[j]) && BuiltFrom(s.jobs[j], WithDefaults(jobSpecs[j], host, pass, s.dsinks)))
        && (forall j :: 0 <= j < |jobSpecs| && jobSpecs[j].sinks.None? ==>
              s.jobs[j].sinks == s.dsinks && s.jobs[j].sinks.items == SinksOf(sinkSpecs, files, |sinkSpecs|))
    {
      var s := new JobSet(name, host, pass);
      var err := s.AddJobs(jobSpecs);
      if err.Some? {
        return Failure(err.value);
      }
      err := s.AddSftpSinks(sinkSpecs, files);
      if err.Some? {
        return Failure(err.value);
      }
      assert s.dsinks.items == [] + SinksOf(sinkSpecs, files, |sinkSpecs|);
      return Success(s);
    }

    /** The jobs loop of `new_from_hash`: `add_job` for each spec in turn,
        up to the first one that raises. */
    method AddJobs(specs: seq<JobSpec>) returns (err: Option<ConfigError>)
      modifies this
      ensures err.None? <==> forall j :: 0 <= j < |specs| ==> MissingWithDefaults(specs[j], dpass) == []
      ensures err.Some? ==>
        exists j :: 0 <= j < |specs| && MissingWithDefaults(specs[j], dpass) != []
          && (forall i :: 0 <= i < j ==> MissingWithDefaults(specs[i], dpass) == [])
          && err.value == MissingKeywords(MissingWithDefaults(specs[j], dpass))
      ensures err.None? ==> |jobs| == |old(jobs)| + |specs| && jobs[..|old(jobs)|] == old(jobs)
      ensures err.None? ==> forall k :: |old(jobs)| <= k < |jobs| ==>
        fresh(jobs[k]) && BuiltFrom(jobs[k], WithDefaults(specs[k - |old(jobs)|], host, dpass, dsinks))
    {
      var j := 0;
      while j < |specs|
        invariant 0 <= j <= |specs| && |jobs| == |old(jobs)| + j && jobs[..|old(jobs)|] == old(jobs)
        invariant forall i :: 0 <= i < j ==> MissingWithDefaults(specs[i], dpass) == []
        invariant forall k :: |old(jobs)| <= k < |jobs| ==>
          fresh(jobs[k]) && BuiltFrom(jobs[k], WithDefaults(specs[k - |old(jobs)|], host, dpass, dsinks))
      {
        MissingAfterDefaults(specs[j], host, dpass, dsinks);
        ghost var before := jobs;
        err := AddJob(specs[j]);
        if err.Some? {
          return;
        }
        assert jobs[..|old(jobs)|] == before[..|old(jobs)|];
        assert forall k :: |old(jobs)| <= k < |before| ==> jobs[k] == before[k];
        j := j + 1;
      }
      return None;
    }

    /** The sinks loop of `new_from_hash`: `add_sftp_sink` for each spec in
        turn, up to the first one that raises. */
    method AddSftpSinks(specs: seq<SinkSpec>, files: set<string>) returns (err: Option<ConfigError>)
      modifies dsinks
      ensures err.None? <==> forall k :: 0 <= k < |specs| ==> specs[k].keyfile in files
      ensures err.Some? ==> err.value == BadSink(KeyfileMissing)
      ensures err.None? ==> dsinks.items == old(dsinks.items) + SinksOf(specs, files, |specs|)
    {
      ghost var start := dsinks.items;
      var k := 0;
      while k < |specs|
        invariant 0 <= k <= |specs|
        invariant forall i :: 0 <= i < k ==> specs[i].keyfile in files
        invariant dsinks.items == start + SinksOf(specs, files, k)
      {
        err := AddSftpSink(specs[k], files);
        if err.Some? {
          return;
        }
        SinksOfNext(specs, files, k);
        AppendAssoc(start, SinksOf(specs, files, k), [SinkOf(specs[k], files).value]);
        k := k + 1;
      }
      return None;
    }

    /** `JobSet#run!`: `runs[j][i]` is the engine's answer for sink i of
        job j. `ts[j]` is what job j's own `run!` did. */
    method Run(runs: seq<seq<EngineResult>>) returns (error: Flags, events: seq<Event>, calls: seq<Invocation>, ghost ts: seq<Trace>)
      requires |runs| == |jobs|
      requires forall j :: 0 <= j < |jobs| ==> |runs[j]| == |jobs[j].sinks.items| && AllReportable(runs[j])
      ensures |ts| == |jobs|
      ensures forall j :: 0 <= j < |jobs| ==> ts[j] == jobs[j].BackupTrace(jobs[j].sinks.items, runs[j])
      ensures var t := Sequence(ts, |ts|);
        && error == t.error && calls == t.calls
        && events == t.events + [BackupSummary(name, host, t.error)]
    {
      ts := [];
      error, events, calls := OK, [], [];
      var j := 0;
      while j < |jobs|
        invariant 0 <= j <= |jobs| && |ts| == j
        invariant forall k :: 0 <= k < j ==> ts[k] == jobs[k].BackupTrace(jobs[k].sinks.items, runs[k])
        invariant Trace(error, events, calls) == Sequence(ts, j)
      {
        var e, ev, c := jobs[j].Run(runs[j]);
        SequenceAppend(ts, Trace(e, ev, c));
        ts := ts + [Trace(e, ev, c)];
        error, events, calls := Or(error, e), events + ev, calls + c;
        j := j + 1;
      }
      events := events + [BackupSummary(name, host, error)];
    }

    /** `JobSet#verify!`; `ts[j]` is what job j's own `verify!` did. */
    method Verify(runs: seq<seq<EngineResult>>) returns (error: Flags, events: seq<Event>, calls: seq<Invocation>, ghost ts: seq<Trace>)
      requires |runs| == |jobs|
      requires forall j :: 0 <= j < |jobs| ==> |runs[j]| == |jobs[j].sinks.items|
      ensures |ts| == |jobs|
      ensures forall j :: 0 <= j < |jobs| ==> ts[j] == jobs[j].VerifyTrace(jobs[j].sinks.items, runs[j])
      ensures var t := Sequence(ts, |ts|);
        && error == t.error && calls == t.calls
        && events == t.events + [VerifySummary(name, host, t.error)]
    {
      ts := [];
      error, events, calls := OK, [], [];
      var j := 0;
      while j < |jobs|
        invariant 0 <= j <= |jobs| && |ts| == j
        invariant forall k :: 0 <= k < j ==> ts[k] == jobs[k].VerifyTrace(jobs[k].sinks.items, runs[k])
        invariant Trace(error, events, calls) == Sequence(ts, j)
      {
        var e, ev, c := jobs[j].Verify(runs[j]);
        SequenceAppend(ts, Trace(e, ev, c));
        ts := ts + [Trace(e, ev, c)];
        error, events, calls := Or(error, e), events + ev, calls + c;
        j := j + 1;
      }
      events := events + [VerifySummary(name, host, error)];
    }
  }

  // ---------------------------------------------------------------------
  // what a whole set's run means

  /** A set's verification says OK exactly when every sink of every job
      verified with exit status 0, and is in definite error otherwise. */
  lemma SetVerifyMeaning(jobs: seq<Job>, lists: seq<seq<SftpSink>>, runs: seq<seq<EngineResult>>, ts: seq<Trace>)
    requires |runs| == |jobs| == |ts| == |lists|
    requires forall j :: 0 <= j < |jobs| ==> |runs[j]| == |lists[j]|
    requires forall j {:trigger jobs[j].VerifyTrace(lists[j], runs[j])} :: 0 <= j < |jobs| ==>
      ts[j] == jobs[j].VerifyTrace(lists[j], runs[j])
    ensures Sequence(ts, |ts|).error == OK <==>
      forall j, i :: 0 <= j < |runs| && 0 <= i < |runs[j]| ==> runs[j][i].exit == Some(0)
    ensures Sequence(ts, |ts|).error == YES <==>
      exists j, i :: 0 <= j < |runs| && 0 <= i < |runs[j]| && runs[j][i].exit != Some(0)
  {
    SequenceBits(ts, |ts|);
    forall j | 0 <= j < |jobs|
      ensures HasYes(ts[j].error) <==> exists i :: 0 <= i < |runs[j]| && runs[j][i].exit != Some(0)
      ensures !HasMaybe(ts[j].error)
    {
      jobs[j].VerifyYes(lists[j], runs[j]);
      jobs[j].VerifyNeverMaybe(lists[j], runs[j]);
    }
    var e := Sequence(ts, |ts|).error;
    if HasYes(e) {
      SameBits(e, YES);
    } else {
      SameBits(e, OK);
    }
  }
}
