/** Backup sinks reachable over sftp (class `SftpSink`,
    ruby_backup.rb:15-54), and the shared, growable list of sinks that a job
    set hands to its jobs. */
module Sinks {
  import opened Wrappers
  import opened Text

  /** A sink never changes after it is built. */
  datatype SftpSink = SftpSink(
    name: string,
    hostname: string,
    username: string,
    directory: string,
    port: nat,
    keyfile: string)
  {
    /** The base directory is stored with a trailing slash. */
    predicate Valid() {
      EndsWithSlash(directory)
    }
  }

  /** `ArgumentError, 'Keyfile given does not exist'` */
  datatype SinkError = KeyfileMissing

  predicate EndsWithSlash(d: string) {
    d != [] && d[|d| - 1] == '/'
  }

  /** `File.join(directory, '')`: a slash is added unless one ends it already. */
  function WithTrailingSlash(d: string): (r: string)
    ensures EndsWithSlash(r)
    ensures |d| <= |r| <= |d| + 1 && r[..|d|] == d
    ensures EndsWithSlash(d) ==> r == d
  {
    if EndsWithSlash(d) then d else d + "/"
  }

  /** Normalising the directory twice is normalising it once. */
  lemma WithTrailingSlashIdempotent(d: string)
    ensures WithTrailingSlash(WithTrailingSlash(d)) == WithTrailingSlash(d)
  {
  }

  /** `SftpSink.new`: `files` stands for the file system that `File.file?`
      consults. */
  function NewSftpSink(
    name: Option<string>, hostname: string, username: string,
    directory: string, port: nat, keyfile: string, files: set<string>): (r: Result<SftpSink, SinkError>)
    ensures r.Success? <==> keyfile in files
    ensures r.Success? ==> r.value.Valid()
    ensures r.Success? ==> r.value.name == (if name.Some? then name.value else hostname)
    ensures r.Success? ==> r.value.directory == WithTrailingSlash(directory)
    ensures r.Success? ==> r.value.hostname == hostname && r.value.username == username
    ensures r.Success? ==> r.value.port == port && r.value.keyfile == keyfile
  {
    if keyfile !in files then Failure(KeyfileMissing)
    else Success(SftpSink(name.GetOr(hostname), hostname, username,
                          WithTrailingSlash(directory), port, keyfile))
  }

  /** `SftpSink#duplicity_options(host:, name:)`: the identity-file option
      and the target url of job `jobName` run on `host`. */
  function SinkOptions(sink: SftpSink, host: string, jobName: string): seq<string> {
    [KeyfileOption(sink), Target(sink, host, jobName)]
  }

  function KeyfileOption(sink: SftpSink): string {
    "--ssh-options='-oIdentityFile=" + sink.keyfile + "'"
  }

  /** The url up to and including the slash after the port. */
  function Authority(sink: SftpSink): string {
    "pexpect+sftp://" + sink.username + "@" + sink.hostname + ":" + NatToDecimal(sink.port) + "/"
  }

  function Target(sink: SftpSink, host: string, jobName: string): string {
    Authority(sink) + sink.directory + host + "/" + jobName + "/"
  }

  /** The target names, under the sink's base directory, the directory
      `host/jobName/`; the port in it reads back as the sink's port. */
  lemma {:induction false} TargetShape(sink: SftpSink, host: string, jobName: string)
    requires sink.Valid()
    ensures var t := Target(sink, host, jobName);
      var a := Authority(sink);
      var p := NatToDecimal(sink.port);
      && t[..|a|] == a
      && t[|a|..] == sink.directory + host + "/" + jobName + "/"
      && a[|a| - |p| - 2] == ':' && DecimalValue(a[|a| - |p| - 1..|a| - 1]) == sink.port
      && t[|a| + |sink.directory| - 1] == '/'
      && t[|t| - 1] == '/'
  {
    var a := Authority(sink);
    var p := NatToDecimal(sink.port);
    assert a[|a| - |p| - 1..|a| - 1] == p;
    DecimalRoundTrip(sink.port);
  }

  /** The Ruby array of sinks. Jobs built with default sinks hold the very
      same list object as their job set, so sinks added to the set later are
      seen by those jobs too. */
  class SinkList {
    var items: seq<SftpSink>

    constructor (items: seq<SftpSink>)
      ensures this.items == items
    {
      this.items := items;
    }

    /** `Array#push` */
    method Push(sink: SftpSink)
      modifies this
      ensures items == old(items) + [sink]
    {
      items := items + [sink];
    }
  }
}
